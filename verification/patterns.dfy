/**
 * Cutting-pattern enumeration for the one-dimensional cutting-stock problem,
 * shared by both scripts. A pattern says how many pieces of each item one
 * stock bar yields; the two scripts differ only in how the saw-blade loss
 * (kerf) is charged, which is the KerfRule parameter here.
 */
module Patterns {

  /** A requested piece: name, length (mm), required quantity and allowed surplus. */
  datatype Item = Item(name: string, length: int, count: int, over: int)

  /** How many pieces of each item (indexed like the item list) one bar yields, and the bar length it uses. */
  datatype Pattern = Pattern(counts: seq<int>, usedLength: int)

  /** Kerf once per piece placed (test.py) or once per gap between pieces (Cutting_Stock_Problem.py). */
  datatype KerfRule = PerPiece | PerGap

  function Lengths(items: seq<Item>): seq<int>
  {
    seq(|items|, i requires 0 <= i < |items| => items[i].length)
  }

  function Names(items: seq<Item>): seq<string>
  {
    seq(|items|, i requires 0 <= i < |items| => items[i].name)
  }

  /** The count vectors of a list of patterns, in order. */
  function CountsOf(ps: seq<Pattern>): seq<seq<int>>
  {
    seq(|ps|, i requires 0 <= i < |ps| => ps[i].counts)
  }

  predicate NonNegative(c: seq<int>)
  {
    forall i :: 0 <= i < |c| ==> c[i] >= 0
  }

  /** Python's `sum(combo)`. */
  function Sum(c: seq<int>): int
  {
    if c == [] then 0 else Sum(c[..|c| - 1]) + c[|c| - 1]
  }

  /** `sum(combo[i] * items[i]['length'] for i in range(len(items)))`. */
  function Dot(c: seq<int>, lens: seq<int>): int
    requires |c| == |lens|
  {
    if c == [] then 0 else Dot(c[..|c| - 1], lens[..|lens| - 1]) + c[|c| - 1] * lens[|lens| - 1]
  }

  function KerfLoss(rule: KerfRule, kerf: int, pieces: int): int
  {
    match rule
    case PerPiece => kerf * pieces
    case PerGap => kerf * (pieces - 1)
  }

  /** Length a combination consumes: the pieces plus the kerf the rule charges. */
  function UsedLength(rule: KerfRule, lens: seq<int>, kerf: int, c: seq<int>): int
    requires |c| == |lens|
  {
    Dot(c, lens) + KerfLoss(rule, kerf, Sum(c))
  }

  /**
   * `raw_length // length` for a positive length (Python floors, and so does
   * Dafny's `/` for a positive divisor); 0 for any other length.
   */
  function MaxCount(raw: int, length: int): (r: int)
    ensures length > 0 ==> r * length <= raw < r * length + length
    ensures length <= 0 ==> r == 0
  {
    if length > 0 then raw / length else 0
  }

  function Bounds(items: seq<Item>, raw: int): seq<int>
  {
    seq(|items|, i requires 0 <= i < |items| => MaxCount(raw, items[i].length))
  }

  /** Every coordinate of `c` lies in `range(b[i] + 1)`. */
  predicate InBox(c: seq<int>, b: seq<int>)
  {
    |c| == |b| && forall i :: 0 <= i < |c| ==> 0 <= c[i] <= b[i]
  }

  // ---------------------------------------------------------------------
  // itertools.product over range(b[0] + 1), range(b[1] + 1), ...
  // ---------------------------------------------------------------------

  /** The tuples `product(*[range(m + 1) for m in b])` yields, in the order it yields them. */
  function Product(b: seq<int>): seq<seq<int>>
    decreases |b|
  {
    if b == [] then [[]] else Layer(0, b[0], Product(b[1..]))
  }

  /** `[v] + t` for every tail `t`, then the same for `v + 1`, ..., `m`. */
  function Layer(v: int, m: int, tails: seq<seq<int>>): seq<seq<int>>
    decreases if v <= m then m - v + 1 else 0
  {
    if v > m then [] else Prepend(v, tails) + Layer(v + 1, m, tails)
  }

  function Prepend(v: int, tails: seq<seq<int>>): seq<seq<int>>
  {
    seq(|tails|, k requires 0 <= k < |tails| => [v] + tails[k])
  }

  /** Strict lexicographic order on count vectors: the order `product` yields them in. */
  predicate LexLess(a: seq<int>, b: seq<int>)
  {
    a != [] && b != [] && (a[0] < b[0] || (a[0] == b[0] && LexLess(a[1..], b[1..])))
  }

  predicate StrictlyIncreasing(cs: seq<seq<int>>)
  {
    forall i, j :: 0 <= i < j < |cs| ==> LexLess(cs[i], cs[j])
  }

  lemma {:induction false} LexLessIrreflexive(a: seq<int>)
    ensures !LexLess(a, a)
  {
    if a != [] {
      LexLessIrreflexive(a[1..]);
    }
  }

  lemma PrependMember(v: int, tails: seq<seq<int>>, c: seq<int>)
    ensures c in Prepend(v, tails) <==> c != [] && c[0] == v && c[1..] in tails
  {
    if c != [] && c[0] == v && c[1..] in tails {
      var k :| 0 <= k < |tails| && tails[k] == c[1..];
      assert Prepend(v, tails)[k] == c;
    }
  }

  lemma {:induction false} LayerMember(v: int, m: int, tails: seq<seq<int>>, c: seq<int>)
    ensures c in Layer(v, m, tails) <==> c != [] && v <= c[0] <= m && c[1..] in tails
    decreases if v <= m then m - v + 1 else 0
  {
    if v <= m {
      PrependMember(v, tails, c);
      LayerMember(v + 1, m, tails, c);
    }
  }

  /** `product` yields exactly the in-box tuples. */
  lemma {:induction false} ProductMember(b: seq<int>, c: seq<int>)
    ensures c in Product(b) <==> InBox(c, b)
    decreases |b|
  {
    if b != [] {
      LayerMember(0, b[0], Product(b[1..]), c);
      if c != [] {
        ProductMember(b[1..], c[1..]);
        if InBox(c[1..], b[1..]) && 0 <= c[0] <= b[0] {
          forall i | 0 <= i < |c| ensures 0 <= c[i] <= b[i] {
            if i > 0 {
              assert c[i] == c[1..][i - 1];
            }
          }
        }
        if InBox(c, b) {
          assert forall i :: 0 <= i < |c| - 1 ==> c[1..][i] == c[i + 1];
        }
      }
    }
  }

  lemma {:induction false} PrependIncreasing(v: int, tails: seq<seq<int>>)
    requires StrictlyIncreasing(tails)
    ensures StrictlyIncreasing(Prepend(v, tails))
  {
    var p := Prepend(v, tails);
    forall i, j | 0 <= i < j < |p| ensures LexLess(p[i], p[j]) {
      assert p[i][1..] == tails[i] && p[j][1..] == tails[j];
    }
  }

  lemma ConcatIncreasing(a: seq<seq<int>>, b: seq<seq<int>>)
    requires StrictlyIncreasing(a) && StrictlyIncreasing(b)
    requires forall x, y :: x in a && y in b ==> LexLess(x, y)
    ensures StrictlyIncreasing(a + b)
  {
    var ab := a + b;
    forall i, j | 0 <= i < j < |ab| ensures LexLess(ab[i], ab[j]) {
      if j < |a| {
        assert ab[i] == a[i] && ab[j] == a[j];
      } else if i >= |a| {
        assert ab[i] == b[i - |a|] && ab[j] == b[j - |a|];
      } else {
        assert ab[i] in a && ab[j] in b;
      }
    }
  }

  lemma {:induction false} LayerIncreasing(v: int, m: int, tails: seq<seq<int>>)
    requires StrictlyIncreasing(tails)
    ensures StrictlyIncreasing(Layer(v, m, tails))
    decreases if v <= m then m - v + 1 else 0
  {
    if v <= m {
      PrependIncreasing(v, tails);
      LayerIncreasing(v + 1, m, tails);
      forall x, y | x in Prepend(v, tails) && y in Layer(v + 1, m, tails) ensures LexLess(x, y) {
        PrependMember(v, tails, x);
        LayerMember(v + 1, m, tails, y);
      }
      ConcatIncreasing(Prepend(v, tails), Layer(v + 1, m, tails));
    }
  }

  /** `product` yields its tuples in strictly increasing lexicographic order, hence each at most once. */
  lemma {:induction false} ProductIncreasing(b: seq<int>)
    ensures StrictlyIncreasing(Product(b))
    decreases |b|
  {
    if b != [] {
      ProductIncreasing(b[1..]);
      LayerIncreasing(0, b[0], Product(b[1..]));
    }
  }

  // ---------------------------------------------------------------------
  // generate_patterns
  // ---------------------------------------------------------------------

  /** A combination is kept when it has a piece and its used length fits in the bar. */
  predicate Fits(rule: KerfRule, lens: seq<int>, raw: int, kerf: int, c: seq<int>)
  {
    |c| == |lens| && Sum(c) != 0 && UsedLength(rule, lens, kerf, c) <= raw
  }

  /** The kept combinations of `cs`, in order, each with its used length. */
  function Select(cs: seq<seq<int>>, rule: KerfRule, lens: seq<int>, raw: int, kerf: int): seq<Pattern>
  {
    if cs == [] then []
    else
      var c := cs[|cs| - 1];
      Select(cs[..|cs| - 1], rule, lens, raw, kerf)
        + (if Fits(rule, lens, raw, kerf, c) then [Pattern(c, UsedLength(rule, lens, kerf, c))] else [])
  }

  /** What `generate_patterns` returns. */
  function Enumerate(items: seq<Item>, raw: int, kerf: int, rule: KerfRule): seq<Pattern>
  {
    Select(Product(Bounds(items, raw)), rule, Lengths(items), raw, kerf)
  }

  /**
   * generate_patterns: walk the product of `range(raw_length // length + 1)`,
   * skip the all-zero combination and keep those whose used length fits.
   * Cutting_Stock_Problem.py divides by every length, so it needs them positive.
   */
  method GeneratePatterns(items: seq<Item>, raw: int, kerf: int, rule: KerfRule) returns (patterns: seq<Pattern>)
    requires rule == PerGap ==> forall i :: 0 <= i < |items| ==> items[i].length > 0
    ensures patterns == Enumerate(items, raw, kerf, rule)
  {
    var lens := Lengths(items);
    var bounds := Bounds(items, raw);
    var combos := Product(bounds);
    patterns := [];
    for k := 0 to |combos|
      invariant patterns == Select(combos[..k], rule, lens, raw, kerf)
    {
      var combo := combos[k];
      SelectPrefixSnoc(combos, k, rule, lens, raw, kerf);
      ProductMember(bounds, combo);
      var totalPieces := Sum(combo);
      if totalPieces == 0 {
        continue;
      }
      var cutLoss := if rule == PerPiece then kerf * totalPieces else kerf * (totalPieces - 1);
      var totalLen := Dot(combo, lens) + cutLoss;
      assert totalLen == UsedLength(rule, lens, kerf, combo);
      if totalLen <= raw {
        patterns := patterns + [Pattern(combo, totalLen)];
      }
    }
    assert combos[..|combos|] == combos;
  }

  /** One more combination is kept, with its used length, exactly when it fits. */
  lemma SelectPrefixSnoc(cs: seq<seq<int>>, k: int, rule: KerfRule, lens: seq<int>, raw: int, kerf: int)
    requires 0 <= k < |cs|
    ensures Select(cs[..k + 1], rule, lens, raw, kerf) == Select(cs[..k], rule, lens, raw, kerf)
      + (if Fits(rule, lens, raw, kerf, cs[k]) then [Pattern(cs[k], UsedLength(rule, lens, kerf, cs[k]))] else [])
  {
    assert cs[..k + 1][..k] == cs[..k];
  }

  lemma {:induction false} SelectMember(cs: seq<seq<int>>, rule: KerfRule, lens: seq<int>, raw: int, kerf: int, p: Pattern)
    ensures p in Select(cs, rule, lens, raw, kerf) <==>
      p.counts in cs && Fits(rule, lens, raw, kerf, p.counts) && p.usedLength == UsedLength(rule, lens, kerf, p.counts)
  {
    if cs != [] {
      SelectMember(cs[..|cs| - 1], rule, lens, raw, kerf, p);
      assert cs == cs[..|cs| - 1] + [cs[|cs| - 1]];
    }
  }

  lemma CountsOfSnoc(s: seq<Pattern>, p: Pattern)
    ensures CountsOf(s + [p]) == CountsOf(s) + [p.counts]
  {
    var l := CountsOf(s + [p]);
    var r := CountsOf(s) + [p.counts];
    assert |l| == |r|;
    forall i | 0 <= i < |l| ensures l[i] == r[i] {
      if i < |s| {
        assert (s + [p])[i] == s[i];
      }
    }
  }

  lemma {:induction false} SelectIncreasing(cs: seq<seq<int>>, rule: KerfRule, lens: seq<int>, raw: int, kerf: int)
    requires StrictlyIncreasing(cs)
    ensures StrictlyIncreasing(CountsOf(Select(cs, rule, lens, raw, kerf)))
  {
    if cs != [] {
      var init := cs[..|cs| - 1];
      var c := cs[|cs| - 1];
      SelectIncreasing(init, rule, lens, raw, kerf);
      var s := Select(init, rule, lens, raw, kerf);
      if Fits(rule, lens, raw, kerf, c) {
        var r := s + [Pattern(c, UsedLength(rule, lens, kerf, c))];
        CountsOfSnoc(s, Pattern(c, UsedLength(rule, lens, kerf, c)));
        forall x, y | x in CountsOf(s) && y in [c] ensures LexLess(x, y) {
          var i :| 0 <= i < |s| && s[i].counts == x;
          SelectMember(init, rule, lens, raw, kerf, s[i]);
          var j :| 0 <= j < |init| && init[j] == x;
          assert cs[j] == x && cs[|cs| - 1] == c;
        }
        ConcatIncreasing(CountsOf(s), [c]);
        assert Select(cs, rule, lens, raw, kerf) == r;
      } else {
        assert Select(cs, rule, lens, raw, kerf) == s;
      }
    }
  }

  /** Soundness and completeness: a pattern is returned iff its counts lie within the bounds, fit, and its used length is computed by the rule. */
  lemma EnumerateMember(items: seq<Item>, raw: int, kerf: int, rule: KerfRule, p: Pattern)
    ensures p in Enumerate(items, raw, kerf, rule) <==>
      && InBox(p.counts, Bounds(items, raw))
      && Sum(p.counts) != 0
      && p.usedLength == UsedLength(rule, Lengths(items), kerf, p.counts)
      && p.usedLength <= raw
  {
    SelectMember(Product(Bounds(items, raw)), rule, Lengths(items), raw, kerf, p);
    ProductMember(Bounds(items, raw), p.counts);
  }

  lemma {:induction false} SumNonNegative(c: seq<int>)
    requires NonNegative(c)
    ensures Sum(c) >= 0
    ensures Sum(c) == 0 <==> forall i :: 0 <= i < |c| ==> c[i] == 0
  {
    if c != [] {
      SumNonNegative(c[..|c| - 1]);
      var init := c[..|c| - 1];
      assert forall i :: 0 <= i < |init| ==> init[i] == c[i];
    }
  }

  /** Every returned pattern has a piece, fits, and its used length is pieces plus kerf as the rule charges it. */
  lemma PatternSound(items: seq<Item>, raw: int, kerf: int, rule: KerfRule, p: Pattern)
    requires p in Enumerate(items, raw, kerf, rule)
    ensures |p.counts| == |items| && NonNegative(p.counts)
    ensures Sum(p.counts) >= 1
    ensures p.usedLength == Dot(p.counts, Lengths(items)) + KerfLoss(rule, kerf, Sum(p.counts))
    ensures p.usedLength <= raw
  {
    EnumerateMember(items, raw, kerf, rule, p);
    SumNonNegative(p.counts);
  }

  /** No count exceeds `raw_length // length`, and an item of non-positive length never appears. */
  lemma CountBounds(items: seq<Item>, raw: int, kerf: int, rule: KerfRule, p: Pattern, i: int)
    requires p in Enumerate(items, raw, kerf, rule)
    requires 0 <= i < |items|
    ensures |p.counts| == |items|
    ensures items[i].length > 0 ==> 0 <= p.counts[i] <= raw / items[i].length
    ensures items[i].length > 0 ==> p.counts[i] * items[i].length <= raw
    ensures items[i].length <= 0 ==> p.counts[i] == 0
  {
    EnumerateMember(items, raw, kerf, rule, p);
    var b := Bounds(items, raw);
    if items[i].length > 0 {
      MulMonotone(p.counts[i], b[i], items[i].length);
    }
  }

  lemma MulMonotone(a: int, b: int, l: int)
    requires a <= b && l >= 0
    ensures a * l <= b * l
  {
  }

  /** Patterns come out in `product` order: strictly increasing lexicographically, so no count vector twice. */
  lemma EnumerateOrdered(items: seq<Item>, raw: int, kerf: int, rule: KerfRule)
    ensures StrictlyIncreasing(CountsOf(Enumerate(items, raw, kerf, rule)))
    ensures DistinctCounts(Enumerate(items, raw, kerf, rule))
  {
    ProductIncreasing(Bounds(items, raw));
    SelectIncreasing(Product(Bounds(items, raw)), rule, Lengths(items), raw, kerf);
    var ps := Enumerate(items, raw, kerf, rule);
    forall i, j | 0 <= i < j < |ps| ensures ps[i].counts != ps[j].counts {
      assert LexLess(CountsOf(ps)[i], CountsOf(ps)[j]);
      LexLessIrreflexive(ps[i].counts);
    }
  }

  predicate DistinctCounts(ps: seq<Pattern>)
  {
    forall i, j :: 0 <= i < j < |ps| ==> ps[i].counts != ps[j].counts
  }

  lemma {:induction false} DotTermBound(c: seq<int>, lens: seq<int>, i: int)
    requires |c| == |lens| && NonNegative(c) && NonNegative(lens)
    requires 0 <= i < |c|
    ensures c[i] * lens[i] <= Dot(c, lens)
  {
    var n := |c| - 1;
    DotNonNegative(c[..n], lens[..n]);
    if i < n {
      DotTermBound(c[..n], lens[..n], i);
      assert c[..n][i] == c[i] && lens[..n][i] == lens[i];
    }
  }

  lemma {:induction false} DotNonNegative(c: seq<int>, lens: seq<int>)
    requires |c| == |lens| && NonNegative(c) && NonNegative(lens)
    ensures Dot(c, lens) >= 0
  {
    if c != [] {
      var n := |c| - 1;
      DotNonNegative(c[..n], lens[..n]);
    }
  }

  /**
   * With positive lengths and a non-negative kerf, any combination that fits
   * lies within the per-item bounds, so the bounds lose no pattern.
   */
  lemma FitsWithinBounds(items: seq<Item>, raw: int, kerf: int, rule: KerfRule, c: seq<int>)
    requires forall i :: 0 <= i < |items| ==> items[i].length > 0
    requires kerf >= 0
    requires |c| == |items| && NonNegative(c)
    requires Fits(rule, Lengths(items), raw, kerf, c)
    ensures InBox(c, Bounds(items, raw))
  {
    var lens := Lengths(items);
    var s := Sum(c);
    SumNonNegative(c);
    assert s >= 1;
    assert KerfLoss(rule, kerf, s) >= 0 by {
      MulMonotone(0, s - 1, kerf);
      MulMonotone(0, s, kerf);
    }
    assert Dot(c, lens) <= raw;
    forall i | 0 <= i < |c| ensures c[i] <= Bounds(items, raw)[i] {
      DotTermBound(c, lens, i);
      var len := lens[i];
      assert len == items[i].length && len > 0;
      var q := MaxCount(raw, len);
      assert Bounds(items, raw)[i] == q;
      if c[i] > q {
        MulMonotone(q + 1, c[i], len);
        assert false;
      }
    }
  }

  /** Every non-empty combination of non-negative counts that fits is returned (once, by EnumerateOrdered). */
  lemma EnumerateComplete(items: seq<Item>, raw: int, kerf: int, rule: KerfRule, c: seq<int>)
    requires forall i :: 0 <= i < |items| ==> items[i].length > 0
    requires kerf >= 0
    requires |c| == |items| && NonNegative(c)
    requires Fits(rule, Lengths(items), raw, kerf, c)
    ensures Pattern(c, UsedLength(rule, Lengths(items), kerf, c)) in Enumerate(items, raw, kerf, rule)
  {
    FitsWithinBounds(items, raw, kerf, rule, c);
    EnumerateMember(items, raw, kerf, rule, Pattern(c, UsedLength(rule, Lengths(items), kerf, c)));
  }

  /** For one combination, charging kerf per piece costs exactly one kerf more than charging it per gap. */
  lemma PerPieceCostsOneKerfMore(lens: seq<int>, kerf: int, c: seq<int>)
    requires |c| == |lens|
    ensures UsedLength(PerPiece, lens, kerf, c) == UsedLength(PerGap, lens, kerf, c) + kerf
  {
  }

  /**
   * With a non-negative kerf every per-piece pattern is also a per-gap
   * pattern (with one kerf less used length): test.py's pattern set is
   * contained in Cutting_Stock_Problem.py's.
   */
  lemma PerPieceWithinPerGap(items: seq<Item>, raw: int, kerf: int, p: Pattern)
    requires forall i :: 0 <= i < |items| ==> items[i].length > 0
    requires kerf >= 0
    requires p in Enumerate(items, raw, kerf, PerPiece)
    ensures Pattern(p.counts, p.usedLength - kerf) in Enumerate(items, raw, kerf, PerGap)
  {
    EnumerateMember(items, raw, kerf, PerPiece, p);
    EnumerateMember(items, raw, kerf, PerGap, Pattern(p.counts, p.usedLength - kerf));
  }
}
