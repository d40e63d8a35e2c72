/**
 * The bar drawings: both scripts lay the pieces of a pattern out along the
 * raw bar with a cursor `pos` and draw what is left as offcut. The drawing
 * itself is not modelled; the cursor arithmetic is.
 */
module Layout {
  import opened Patterns
  import opened Solutions
  import opened Grouping
  import opened Report

  datatype Option<T> = None | Some(value: T)

  /** Position of the first item with this name; `|items|` if there is none. */
  function FindIndex(items: seq<Item>, name: string): (r: nat)
    ensures r <= |items|
    ensures r < |items| ==> items[r].name == name
    ensures forall j :: 0 <= j < r ==> items[j].name != name
  {
    if items == [] then 0
    else if items[0].name == name then 0
    else 1 + FindIndex(items[1..], name)
  }

  predicate NotNamedBefore(items: seq<Item>, name: string, i: int)
  {
    forall j :: 0 <= j < i && j < |items| ==> items[j].name != name
  }

  /**
   * `next(item['length'] for item in items if item['name'] == name)`: the
   * length of the first item with that name, or None where Python raises
   * StopIteration.
   */
  function FindLength(items: seq<Item>, name: string): (r: Option<int>)
    ensures r.None? <==> name !in Names(items)
    ensures forall i :: 0 <= i < |items| && items[i].name == name && NotNamedBefore(items, name, i) ==>
      r == Some(items[i].length)
  {
    var k := FindIndex(items, name);
    assert k < |items| ==> Names(items)[k] == name;
    if k < |items| then Some(items[k].length) else None
  }

  /** With distinct names, every item's own name finds that item's length. */
  lemma FindLengthDistinct(items: seq<Item>, i: int)
    requires NoDuplicates(Names(items))
    requires 0 <= i < |items|
    ensures FindLength(items, items[i].name) == Some(items[i].length)
  {
    forall j | 0 <= j < i ensures items[j].name != items[i].name {
      assert Names(items)[j] != Names(items)[i];
    }
  }

  // ---------------------------------------------------------------------
  // test.py: every piece is followed by a kerf
  // ---------------------------------------------------------------------

  /** How far one `(name, qty)` pair moves the cursor: qty times length plus kerf; nothing for a name no item has. */
  function Step(items: seq<Item>, piece: (string, int), kerf: int): int
  {
    match FindLength(items, piece.0)
    case None => 0
    case Some(length) => (if piece.1 > 0 then piece.1 else 0) * (length + kerf)
  }

  /** Where the cursor ends after laying out the pairs in order. */
  function Advance(items: seq<Item>, pieces: seq<(string, int)>, kerf: int): int
  {
    if pieces == [] then 0
    else Advance(items, pieces[..|pieces| - 1], kerf) + Step(items, pieces[|pieces| - 1], kerf)
  }

  /**
   * The drawing loop of test.py's `show_cutting_visual` for one pattern: for
   * every `(name, qty)` pair, look the length up (skip the pair if no item has
   * the name), then `qty` times advance by the length and by the kerf; the
   * offcut drawn is the raw length minus the final cursor.
   */
  method LayoutPerPiece(items: seq<Item>, pieces: seq<(string, int)>, kerf: int, raw: int)
    returns (pos: int, leftover: int)
    ensures pos == Advance(items, pieces, kerf)
    ensures leftover == raw - pos
  {
    pos := 0;
    for k := 0 to |pieces|
      invariant pos == Advance(items, pieces[..k], kerf)
    {
      assert pieces[..k + 1][..k] == pieces[..k];
      var (name, qty) := pieces[k];
      var found := FindLength(items, name);
      if found.None? {
        continue;
      }
      var length := found.value;
      ghost var start := pos;
      var n := 0;
      while n < qty
        invariant qty > 0 ==> 0 <= n <= qty
        invariant qty <= 0 ==> n == 0
        invariant pos == start + n * (length + kerf)
      {
        pos := pos + length;
        pos := pos + kerf;
        assert (n + 1) * (length + kerf) == n * (length + kerf) + (length + kerf);
        n := n + 1;
      }
      assert Step(items, pieces[k], kerf) == (if qty > 0 then qty else 0) * (length + kerf);
    }
    assert pieces[..|pieces|] == pieces;
    leftover := raw - pos;
  }

  lemma {:induction false} AdvanceConcat(items: seq<Item>, a: seq<(string, int)>, b: seq<(string, int)>, kerf: int)
    ensures Advance(items, a + b, kerf) == Advance(items, a, kerf) + Advance(items, b, kerf)
  {
    if b == [] {
      assert a + b == a;
    } else {
      var n := |b| - 1;
      AdvanceConcat(items, a, b[..n], kerf);
      var x := b[n];
      assert b == b[..n] + [x];
      assert a + b == (a + b[..n]) + [x];
      AdvanceSnoc(items, a + b[..n], x, kerf);
      AdvanceSnoc(items, b[..n], x, kerf);
    }
  }

  /** Taking one pair out of the sequence takes its step out of the cursor's end. */
  lemma AdvanceRemove(items: seq<Item>, b: seq<(string, int)>, k: int, kerf: int)
    requires 0 <= k < |b|
    ensures Advance(items, b, kerf) == Advance(items, b[..k] + b[k + 1..], kerf) + Step(items, b[k], kerf)
  {
    assert b == b[..k] + ([b[k]] + b[k + 1..]);
    AdvanceConcat(items, b[..k], [b[k]] + b[k + 1..], kerf);
    AdvanceConcat(items, [b[k]], b[k + 1..], kerf);
    AdvanceConcat(items, b[..k], b[k + 1..], kerf);
    assert [b[k]][..0] == [];
  }

  /** The cursor's end does not depend on the order of the pairs (test.py sorts them by name first). */
  lemma {:induction false} AdvancePermutation(items: seq<Item>, a: seq<(string, int)>, b: seq<(string, int)>, kerf: int)
    requires multiset(a) == multiset(b)
    ensures Advance(items, a, kerf) == Advance(items, b, kerf)
    decreases |a|
  {
    if a == [] {
      assert |multiset(b)| == 0;
    } else {
      var n := |a| - 1;
      var x := a[n];
      assert a == a[..n] + [x];
      assert x in multiset(b);
      var k :| 0 <= k < |b| && b[k] == x;
      var rest := b[..k] + b[k + 1..];
      assert b == b[..k] + [x] + b[k + 1..];
      assert multiset(rest) == multiset(b) - multiset{x};
      assert multiset(a[..n]) == multiset(a) - multiset{x};
      AdvancePermutation(items, a[..n], rest, kerf);
      AdvanceRemove(items, b, k, kerf);
    }
  }

  /** Appending one pair adds its step. */
  lemma AdvanceSnoc(items: seq<Item>, d: seq<(string, int)>, x: (string, int), kerf: int)
    ensures Advance(items, d + [x], kerf) == Advance(items, d, kerf) + Step(items, x, kerf)
  {
    assert (d + [x])[..|d|] == d;
  }

  lemma StepArithmetic(before: int, dot0: int, sum0: int, count: int, length: int, kerf: int,
                        dot: int, sum: int, step: int)
    requires before == dot0 + kerf * sum0
    requires dot == dot0 + count * length && sum == sum0 + count
    requires step == count * (length + kerf)
    ensures before + step == dot + kerf * sum
  {
    assert count * (length + kerf) == count * length + kerf * count;
    assert kerf * (sum0 + count) == kerf * sum0 + kerf * count;
  }

  /** The step of a pair whose name is found. */
  lemma StepFound(items: seq<Item>, x: (string, int), length: int, kerf: int)
    requires FindLength(items, x.0) == Some(length)
    ensures Step(items, x, kerf) == (if x.1 > 0 then x.1 else 0) * (length + kerf)
  {
  }

  /** Extending names and counts by one item adds that item's step, nothing if its count is not positive. */
  lemma AdvanceDescribeStep(items: seq<Item>, names: seq<string>, c: seq<int>, length: int, kerf: int)
    requires |names| == |c| && c != []
    requires FindLength(items, names[|c| - 1]) == Some(length)
    ensures var n := |c| - 1;
      Advance(items, Describe(names, c), kerf) ==
        Advance(items, Describe(names[..n], c[..n]), kerf) + (if c[n] > 0 then c[n] else 0) * (length + kerf)
  {
    var n := |c| - 1;
    DescribeSnoc(names, c);
    var d0 := Describe(names[..n], c[..n]);
    var x := (names[n], c[n]);
    StepFound(items, x, length, kerf);
    if c[n] > 0 {
      AdvanceSnoc(items, d0, x, kerf);
    } else {
      assert d0 + [] == d0;
    }
  }

  /** `Dot` and `Sum` of a non-empty sequence: the prefix's plus the last term. */
  lemma DotSumSnoc(c: seq<int>, lens: seq<int>)
    requires |c| == |lens| && c != []
    ensures var n := |c| - 1;
      && Dot(c, lens) == Dot(c[..n], lens[..n]) + c[n] * lens[n]
      && Sum(c) == Sum(c[..n]) + c[n]
  {
  }

  /** The inductive step of AdvanceDescribe: extending names and counts by one item. */
  lemma AdvanceDescribeSnoc(items: seq<Item>, names: seq<string>, c: seq<int>, lens: seq<int>, kerf: int)
    requires |names| == |c| == |lens| && c != [] && c[|c| - 1] >= 0
    requires FindLength(items, names[|c| - 1]) == Some(lens[|c| - 1])
    requires var n := |c| - 1;
      Advance(items, Describe(names[..n], c[..n]), kerf) == Dot(c[..n], lens[..n]) + kerf * Sum(c[..n])
    ensures Advance(items, Describe(names, c), kerf) == Dot(c, lens) + kerf * Sum(c)
  {
    var n := |c| - 1;
    var count := c[n];
    var length := lens[n];
    AdvanceDescribeStep(items, names, c, length, kerf);
    DotSumSnoc(c, lens);
    var before := Advance(items, Describe(names[..n], c[..n]), kerf);
    var after := Advance(items, Describe(names, c), kerf);
    var dot0 := Dot(c[..n], lens[..n]);
    var sum0 := Sum(c[..n]);
    assert after == before + count * (length + kerf);
    StepArithmetic(before, dot0, sum0, count, length, kerf, Dot(c, lens), Sum(c), count * (length + kerf));
  }

  /**
   * When every name finds its own length, laying out a description advances
   * by each count times length plus kerf.
   */
  lemma {:induction false} AdvanceDescribe(items: seq<Item>, names: seq<string>, c: seq<int>, lens: seq<int>, kerf: int)
    requires |names| == |c| == |lens| && NonNegative(c)
    requires forall i :: 0 <= i < |names| ==> FindLength(items, names[i]) == Some(lens[i])
    ensures Advance(items, Describe(names, c), kerf) == Dot(c, lens) + kerf * Sum(c)
  {
    if names != [] {
      var n := |names| - 1;
      forall i | 0 <= i < n ensures FindLength(items, names[..n][i]) == Some(lens[..n][i]) {
        assert names[..n][i] == names[i] && lens[..n][i] == lens[i];
      }
      assert NonNegative(c[..n]);
      AdvanceDescribe(items, names[..n], c[..n], lens[..n], kerf);
      AdvanceDescribeSnoc(items, names, c, lens, kerf);
    }
  }

  /**
   * test.py's drawing agrees with its title: whatever order the pairs of a
   * generated pattern's description are drawn in, the cursor ends at the
   * pattern's `used_length` (the `used_length` pair itself names no item and
   * is skipped), so the offcut drawn is the offcut in the title and is never
   * negative.
   */
  lemma LayoutMatchesTitle(items: seq<Item>, raw: int, kerf: int, p: Pattern, pieces: seq<(string, int)>)
    requires ValidNames(Names(items))
    requires p in Enumerate(items, raw, kerf, PerPiece)
    requires multiset(pieces) == multiset(DescribeAsWritten(Names(items), p))
    ensures Advance(items, pieces, kerf) == p.usedLength
    ensures raw - Advance(items, pieces, kerf) >= 0
  {
    PatternSound(items, raw, kerf, PerPiece, p);
    var names := Names(items);
    var d := Describe(names, p.counts);
    forall i | 0 <= i < |names| ensures FindLength(items, names[i]) == Some(Lengths(items)[i]) {
      FindLengthDistinct(items, i);
    }
    AdvanceDescribe(items, names, p.counts, Lengths(items), kerf);
    DescribeAsWrittenAddsUsedLength(names, p);
    var tail := if p.usedLength > 0 then [("used_length", p.usedLength)] else [];
    AdvanceConcat(items, d, tail, kerf);
    if p.usedLength > 0 {
      assert tail[..0] == [];
    }
    AdvancePermutation(items, pieces, DescribeAsWritten(names, p), kerf);
  }

  // ---------------------------------------------------------------------
  // Cutting_Stock_Problem.py: a kerf only between two pieces
  // ---------------------------------------------------------------------

  /** The length of the first item with this name, 0 if none (never consulted for such a name). */
  function LengthOf(items: seq<Item>, name: string): int
  {
    match FindLength(items, name)
    case None => 0
    case Some(length) => length
  }

  /** The pieces in cutting order: each name repeated by its count, in item order. */
  function PieceNames(names: seq<string>, c: seq<int>): (r: seq<string>)
    requires |c| == |names|
    ensures forall q :: q in r ==> q in names
  {
    if names == [] then []
    else
      var n := |names| - 1;
      var r0 := PieceNames(names[..n], c[..n]);
      assert forall q :: q in Repeat(names[n], c[n]) ==> q == names[n];
      r0 + Repeat(names[n], c[n])
  }

  lemma PiecesAreNames(names: seq<string>, c: seq<int>)
    requires |c| == |names|
    ensures forall k :: 0 <= k < |PieceNames(names, c)| ==> PieceNames(names, c)[k] in names
  {
    var r := PieceNames(names, c);
    forall k | 0 <= k < |r| ensures r[k] in names {
      assert r[k] in r;
    }
  }

  /** The total length of a sequence of pieces. */
  function PieceLengths(items: seq<Item>, pieces: seq<string>): int
  {
    if pieces == [] then 0
    else PieceLengths(items, pieces[..|pieces| - 1]) + LengthOf(items, pieces[|pieces| - 1])
  }

  /** `Σ pattern[name] * length(name)` over the item names. */
  function NamedDot(items: seq<Item>, names: seq<string>, c: seq<int>): int
    requires |c| == |names|
  {
    if names == [] then 0
    else NamedDot(items, names[..|names| - 1], c[..|c| - 1]) + c[|c| - 1] * LengthOf(items, names[|names| - 1])
  }

  /** The `used_length` the drawing recomputes from a key: piece lengths plus a kerf per gap. */
  function RecomputedUsed(items: seq<Item>, c: seq<int>, kerf: int): int
    requires |c| == |items|
  {
    NamedDot(items, Names(items), c) + kerf * (if Sum(c) > 0 then Sum(c) - 1 else 0)
  }

  /** The cursor's end: the pieces' lengths plus a kerf between each two. */
  function Span(items: seq<Item>, pieces: seq<string>, kerf: int): int
  {
    PieceLengths(items, pieces) + kerf * (if |pieces| > 0 then |pieces| - 1 else 0)
  }

  /** `seq.extend([name] * pattern[name])` for every item name: the pieces in cutting order. */
  method ListPieces(names: seq<string>, c: seq<int>) returns (pieces: seq<string>)
    requires |c| == |names|
    ensures pieces == PieceNames(names, c)
  {
    pieces := [];
    for i := 0 to |names|
      invariant pieces == PieceNames(names[..i], c[..i])
    {
      assert names[..i + 1][..i] == names[..i];
      assert c[..i + 1][..i] == c[..i];
      pieces := pieces + Repeat(names[i], c[i]);
    }
    assert names[..|names|] == names;
    assert c[..|c|] == c;
  }

  /**
   * The cursor loop: advance by each piece's length, and by the kerf after
   * every piece but the last. Each piece is an item name, so the lookup
   * always finds a length.
   */
  method CutPieces(items: seq<Item>, pieces: seq<string>, kerf: int) returns (pos: int)
    requires forall k :: 0 <= k < |pieces| ==> pieces[k] in Names(items)
    ensures pos == Span(items, pieces, kerf)
  {
    pos := 0;
    ghost var gaps := 0;
    for j := 0 to |pieces|
      invariant gaps == (if j == |pieces| && j > 0 then j - 1 else j)
      invariant pos == PieceLengths(items, pieces[..j]) + gaps * kerf
    {
      var length := FindLength(items, pieces[j]).value;
      CutStep(items, pieces, j, length);
      pos := pos + length;
      if j < |pieces| - 1 {
        pos := pos + kerf;
        MulPred(gaps + 1, kerf);
        gaps := gaps + 1;
      }
    }
    assert pieces[..|pieces|] == pieces;
  }

  lemma CutStep(items: seq<Item>, pieces: seq<string>, j: int, length: int)
    requires 0 <= j < |pieces| && FindLength(items, pieces[j]) == Some(length)
    ensures PieceLengths(items, pieces[..j + 1]) == PieceLengths(items, pieces[..j]) + length
  {
    assert pieces[..j + 1] == pieces[..j] + [pieces[j]];
    PieceLengthsSnoc(items, pieces[..j], pieces[j]);
  }

  /**
   * The drawing of one key in Cutting_Stock_Problem.py's
   * `show_cutting_visual`: recompute `used_length`, list the pieces, lay them
   * out; the offcut is the raw length minus the final cursor.
   */
  method LayoutPerGap(items: seq<Item>, c: seq<int>, kerf: int, raw: int)
    returns (usedLength: int, pos: int, leftover: int)
    requires |c| == |items|
    ensures usedLength == RecomputedUsed(items, c, kerf)
    ensures pos == Span(items, PieceNames(Names(items), c), kerf)
    ensures leftover == raw - pos
  {
    var names := Names(items);
    var totalPieces := Sum(c);
    usedLength := NamedDot(items, names, c) + kerf * (if totalPieces > 0 then totalPieces - 1 else 0);
    var pieces := ListPieces(names, c);
    PiecesAreNames(names, c);
    pos := CutPieces(items, pieces, kerf);
    leftover := raw - pos;
  }

  lemma {:induction false} PieceLengthsConcat(items: seq<Item>, a: seq<string>, b: seq<string>)
    ensures PieceLengths(items, a + b) == PieceLengths(items, a) + PieceLengths(items, b)
  {
    if b == [] {
      assert a + b == a;
    } else {
      var n := |b| - 1;
      PieceLengthsConcat(items, a, b[..n]);
      var x := b[n];
      assert b == b[..n] + [x];
      assert a + b == (a + b[..n]) + [x];
      PieceLengthsSnoc(items, a + b[..n], x);
      PieceLengthsSnoc(items, b[..n], x);
    }
  }

  /** Appending one piece adds its length. */
  lemma PieceLengthsSnoc(items: seq<Item>, a: seq<string>, x: string)
    ensures PieceLengths(items, a + [x]) == PieceLengths(items, a) + LengthOf(items, x)
  {
    assert (a + [x])[..|a|] == a;
  }

  lemma {:induction false} PieceLengthsRepeat(items: seq<Item>, name: string, m: int)
    requires m >= 0
    ensures PieceLengths(items, Repeat(name, m)) == m * LengthOf(items, name)
  {
    if m > 0 {
      PieceLengthsRepeat(items, name, m - 1);
      assert Repeat(name, m)[..m - 1] == Repeat(name, m - 1);
    } else {
      assert Repeat(name, m) == [];
    }
  }

  /** The listed pieces number `Σ count` and measure `Σ count * length`. */
  lemma {:induction false} PieceNamesMeasure(items: seq<Item>, names: seq<string>, c: seq<int>)
    requires |c| == |names| && NonNegative(c)
    ensures |PieceNames(names, c)| == Sum(c)
    ensures PieceLengths(items, PieceNames(names, c)) == NamedDot(items, names, c)
  {
    if names != [] {
      var n := |names| - 1;
      assert NonNegative(c[..n]);
      PieceNamesMeasure(items, names[..n], c[..n]);
      PieceLengthsConcat(items, PieceNames(names[..n], c[..n]), Repeat(names[n], c[n]));
      PieceLengthsRepeat(items, names[n], c[n]);
    }
  }

  /** For a key with no negative count the bar's drawing ends exactly at the recomputed `used_length`. */
  lemma SpanIsRecomputedUsed(items: seq<Item>, c: seq<int>, kerf: int)
    requires |c| == |items| && NonNegative(c)
    ensures Span(items, PieceNames(Names(items), c), kerf) == RecomputedUsed(items, c, kerf)
  {
    var pieces := PieceNames(Names(items), c);
    PieceNamesMeasure(items, Names(items), c);
    assert |pieces| == Sum(c);
    assert PieceLengths(items, pieces) == NamedDot(items, Names(items), c);
  }

  lemma {:induction false} NamedDotPrefix(items: seq<Item>, c: seq<int>, m: int)
    requires |c| == |items| && NoDuplicates(Names(items))
    requires 0 <= m <= |c|
    ensures NamedDot(items, Names(items)[..m], c[..m]) == Dot(c[..m], Lengths(items)[..m])
  {
    if m > 0 {
      NamedDotPrefix(items, c, m - 1);
      assert Names(items)[..m][..m - 1] == Names(items)[..m - 1];
      assert c[..m][..m - 1] == c[..m - 1];
      assert Lengths(items)[..m][..m - 1] == Lengths(items)[..m - 1];
      FindLengthDistinct(items, m - 1);
    }
  }

  /** With distinct names, the name-keyed dot product is the positional one. */
  lemma NamedDotIsDot(items: seq<Item>, c: seq<int>)
    requires |c| == |items| && NoDuplicates(Names(items))
    ensures NamedDot(items, Names(items), c) == Dot(c, Lengths(items))
  {
    NamedDotPrefix(items, c, |items|);
    assert Names(items)[..|items|] == Names(items);
    assert c[..|items|] == c;
    assert Lengths(items)[..|items|] == Lengths(items);
  }

  /**
   * For a pattern Cutting_Stock_Problem.py generates (item names distinct),
   * the recomputed `used_length` and the cursor's end both equal the
   * pattern's own `used_length`, and the offcut is never negative.
   */
  lemma LayoutPerGapMatchesPattern(items: seq<Item>, raw: int, kerf: int, p: Pattern)
    requires forall i :: 0 <= i < |items| ==> items[i].length > 0
    requires NoDuplicates(Names(items))
    requires p in Enumerate(items, raw, kerf, PerGap)
    ensures |p.counts| == |items|
    ensures RecomputedUsed(items, p.counts, kerf) == p.usedLength
    ensures Span(items, PieceNames(Names(items), p.counts), kerf) == p.usedLength
    ensures raw - p.usedLength >= 0
  {
    PatternSound(items, raw, kerf, PerGap, p);
    var c := p.counts;
    var s := Sum(c);
    var dot := Dot(c, Lengths(items));
    assert p.usedLength == dot + kerf * (s - 1);
    NamedDotIsDot(items, c);
    assert RecomputedUsed(items, c, kerf) == dot + kerf * (if s > 0 then s - 1 else 0);
    SpanIsRecomputedUsed(items, c, kerf);
  }
}
