/**
 * The result analysis both scripts show: the input check, the per-item
 * production tally and its met/surplus/deficit classification, the pattern
 * summary rows with their waste and description, and the presentation
 * order of test.py's solution.
 */
module Report {
  import opened Patterns
  import opened Solutions
  import opened Grouping

  /**
   * Item names work as keys of a pattern dict: no two alike, and none equal to
   * the `used_length` key the pattern dict also holds.
   */
  predicate ValidNames(names: seq<string>)
  {
    NoDuplicates(names) && "used_length" !in names
  }

  // ---------------------------------------------------------------------
  // Input check before optimising (test.py)
  // ---------------------------------------------------------------------

  datatype InputCheck = DuplicateNames | NoItems | InputOk

  function NameSet(names: seq<string>): set<string>
  {
    set n | n in names
  }

  lemma {:induction false} NameSetSize(names: seq<string>)
    ensures |NameSet(names)| <= |names|
    ensures |NameSet(names)| == |names| <==> NoDuplicates(names)
  {
    if names != [] {
      var n := |names| - 1;
      var init := names[..n];
      var x := names[n];
      NameSetSize(init);
      assert NameSet(names) == NameSet(init) + {x};
      if x in init {
        assert NameSet(init) + {x} == NameSet(init);
        var j :| 0 <= j < n && init[j] == x;
        assert names[j] == names[n];
      } else {
        assert x !in NameSet(init);
        if NoDuplicates(init) {
          forall i, k | 0 <= i < k < |names| ensures names[i] != names[k] {
            assert names[i] == init[i];
            if k < n {
              assert names[k] == init[k];
            }
          }
        }
        if NoDuplicates(names) {
          forall i, k | 0 <= i < k < |init| ensures init[i] != init[k] {
            assert init[i] == names[i] && init[k] == names[k];
          }
        }
      }
    }
  }

  /**
   * The check before optimising: `len(names) != len(set(names))` reports
   * duplicate names, an empty list reports that an item is needed.
   */
  function CheckNames(names: seq<string>): (r: InputCheck)
    ensures r == DuplicateNames <==> !NoDuplicates(names)
    ensures r == NoItems <==> names == []
    ensures r == InputOk <==> names != [] && NoDuplicates(names)
  {
    NameSetSize(names);
    if |names| != |NameSet(names)| then DuplicateNames
    else if names == [] then NoItems
    else InputOk
  }

  // ---------------------------------------------------------------------
  // Descriptions
  // ---------------------------------------------------------------------

  /** `(name, count)` for every item name, in item order. */
  function Pairs(names: seq<string>, c: seq<int>): seq<(string, int)>
  {
    seq(|names|, i requires 0 <= i < |names| => (names[i], At(c, i)))
  }

  /** The pairs with a positive quantity, in order. */
  function PositivePairs(ps: seq<(string, int)>): seq<(string, int)>
  {
    if ps == [] then []
    else PositivePairs(ps[..|ps| - 1]) + (if ps[|ps| - 1].1 > 0 then [ps[|ps| - 1]] else [])
  }

  /** The description `name=qty, ...` of a pattern key, as a list of its items with a positive count. */
  function Describe(names: seq<string>, c: seq<int>): seq<(string, int)>
  {
    PositivePairs(Pairs(names, c))
  }

  /** `pattern.items()` of test.py's pattern dict: the item names with their counts, then `used_length`. */
  function PatternItems(names: seq<string>, p: Pattern): seq<(string, int)>
  {
    Pairs(names, p.counts) + [("used_length", p.usedLength)]
  }

  /** test.py's description: every positive int value of the pattern dict, `used_length` included. */
  function DescribeAsWritten(names: seq<string>, p: Pattern): seq<(string, int)>
  {
    PositivePairs(PatternItems(names, p))
  }

  /** A description grows by the last item when its count is positive. */
  lemma DescribeSnoc(names: seq<string>, c: seq<int>)
    requires |names| == |c| && c != []
    ensures Describe(names, c) ==
      Describe(names[..|c| - 1], c[..|c| - 1]) + (if c[|c| - 1] > 0 then [(names[|c| - 1], c[|c| - 1])] else [])
  {
    var n := |c| - 1;
    var ps := Pairs(names, c);
    assert ps[..n] == Pairs(names[..n], c[..n]);
    assert ps[n] == (names[n], c[n]);
  }

  /** A description lists exactly the items with a positive count, in item order, each with its count. */
  lemma {:induction false} DescribeLists(names: seq<string>, c: seq<int>)
    requires |names| == |c|
    ensures |Describe(names, c)| == |PositiveIndices(c)|
    ensures forall k :: 0 <= k < |Describe(names, c)| ==>
      var i := PositiveIndices(c)[k]; 0 <= i < |c| && Describe(names, c)[k] == (names[i], c[i])
  {
    if c != [] {
      var n := |c| - 1;
      DescribeLists(names[..n], c[..n]);
      DescribeSnoc(names, c);
      var d0 := Describe(names[..n], c[..n]);
      var p0 := PositiveIndices(c[..n]);
      assert PositiveIndices(c) == p0 + (if c[n] > 0 then [n] else []);
      forall k | 0 <= k < |Describe(names, c)|
        ensures var i := PositiveIndices(c)[k]; 0 <= i < |c| && Describe(names, c)[k] == (names[i], c[i])
      {
        if k < |d0| {
          var i := p0[k];
          assert PositiveIndices(c)[k] == i;
          assert Describe(names, c)[k] == d0[k];
          assert d0[k] == (names[..n][i], c[..n][i]);
        } else {
          assert c[n] > 0 && k == |p0|;
          assert PositiveIndices(c)[k] == n;
        }
      }
    }
  }

  /** test.py's description is the item description followed by `used_length=N` whenever N is positive. */
  lemma DescribeAsWrittenAddsUsedLength(names: seq<string>, p: Pattern)
    ensures DescribeAsWritten(names, p) ==
      Describe(names, p.counts) + (if p.usedLength > 0 then [("used_length", p.usedLength)] else [])
  {
    var items := PatternItems(names, p);
    assert items[..|items| - 1] == Pairs(names, p.counts);
  }

  /**
   * Every pattern test.py generates from positive lengths and a non-negative
   * kerf has a positive used length, so its summary description always ends
   * with `used_length=N`, which names no item.
   */
  lemma UsedLengthAlwaysListed(items: seq<Item>, raw: int, kerf: int, p: Pattern)
    requires forall i :: 0 <= i < |items| ==> items[i].length > 0
    requires kerf >= 0
    requires ValidNames(Names(items))
    requires p in Enumerate(items, raw, kerf, PerPiece)
    ensures p.usedLength > 0
    ensures DescribeAsWritten(Names(items), p) == Describe(Names(items), p.counts) + [("used_length", p.usedLength)]
    ensures DescribeAsWritten(Names(items), p)[|DescribeAsWritten(Names(items), p)| - 1].0 !in Names(items)
  {
    PatternSound(items, raw, kerf, PerPiece, p);
    SumNonNegative(p.counts);
    var lens := Lengths(items);
    var i :| 0 <= i < |p.counts| && p.counts[i] != 0;
    DotTermBound(p.counts, lens, i);
    MulMonotone(1, p.counts[i], lens[i]);
    DescribeAsWrittenAddsUsedLength(Names(items), p);
  }

  // ---------------------------------------------------------------------
  // Production tally
  // ---------------------------------------------------------------------

  /**
   * test.py's tally: start every item name at 0, then for every solution entry
   * and every `(name, qty)` of its pattern dict whose name is an item name, add
   * `qty * count`. The `used_length` key is skipped by that membership test.
   */
  method TallyPerPiece(names: seq<string>, solution: seq<Entry>) returns (actual: map<string, int>)
    requires ValidNames(names)
    ensures forall n :: n in actual <==> n in names
    ensures forall i :: 0 <= i < |names| ==> actual[names[i]] == EntryTotal(solution, i)
  {
    actual := map n | n in names :: 0;
    for s := 0 to |solution|
      invariant forall n :: n in actual <==> n in names
      invariant forall i :: 0 <= i < |names| ==> actual[names[i]] == EntryTotal(solution[..s], i)
    {
      var sol := solution[s];
      var pairs := PatternItems(names, sol.pattern);
      for t := 0 to |pairs|
        invariant forall n :: n in actual <==> n in names
        invariant forall i :: 0 <= i < |names| ==>
          actual[names[i]] == EntryTotal(solution[..s], i) + (if i < t then At(sol.pattern.counts, i) * sol.count else 0)
      {
        var (name, qty) := pairs[t];
        PatternItemAt(names, sol.pattern, t);
        if name in actual {
          actual := actual[name := actual[name] + qty * sol.count];
        }
      }
      EntryTotalPrefixSnoc(solution, s);
    }
    assert solution[..|solution|] == solution;
  }

  /** The `t`-th pair of the pattern dict: an item's name and count, or `used_length` after the last item. */
  lemma PatternItemAt(names: seq<string>, p: Pattern, t: int)
    requires 0 <= t <= |names|
    ensures t < |names| ==> PatternItems(names, p)[t] == (names[t], At(p.counts, t))
    ensures t == |names| ==> PatternItems(names, p)[t].0 == "used_length"
  {
  }

  lemma EntryTotalPrefixSnoc(solution: seq<Entry>, s: int)
    requires 0 <= s < |solution|
    ensures forall i ::
      EntryTotal(solution[..s + 1], i) == EntryTotal(solution[..s], i) + At(solution[s].pattern.counts, i) * solution[s].count
  {
    assert solution[..s + 1][..s] == solution[..s];
  }

  /**
   * Cutting_Stock_Problem.py's tally: start every item name at 0, then for
   * every bar and every item name add the pattern's count of that item.
   */
  method TallyPerGap(names: seq<string>, result: seq<Pattern>) returns (actual: map<string, int>)
    requires NoDuplicates(names)
    ensures forall n :: n in actual <==> n in names
    ensures forall i :: 0 <= i < |names| ==> actual[names[i]] == ColumnTotal(result, i)
  {
    actual := map n | n in names :: 0;
    for s := 0 to |result|
      invariant forall n :: n in actual <==> n in names
      invariant forall i :: 0 <= i < |names| ==> actual[names[i]] == ColumnTotal(result[..s], i)
    {
      var pattern := result[s];
      for t := 0 to |names|
        invariant forall n :: n in actual <==> n in names
        invariant forall i :: 0 <= i < |names| ==>
          actual[names[i]] == ColumnTotal(result[..s], i) + (if i < t then At(pattern.counts, i) else 0)
      {
        var name := names[t];
        actual := actual[name := actual[name] + At(pattern.counts, t)];
      }
      assert result[..s + 1][..s] == result[..s];
    }
    assert result[..|result|] == result;
  }

  // ---------------------------------------------------------------------
  // Classification
  // ---------------------------------------------------------------------

  datatype Status = Met | Surplus | Deficit

  /** The status by the sign of `actual - required`. */
  function Classify(actual: int, required: int): (s: Status)
    ensures s == Met <==> actual == required
    ensures s == Surplus <==> actual > required
    ensures s == Deficit <==> actual < required
  {
    var diff := actual - required;
    if diff == 0 then Met else if diff > 0 then Surplus else Deficit
  }

  /** One row of the production table: item, required, produced, status, difference. */
  datatype DiffRow = DiffRow(name: string, required: int, actual: int, status: Status, diff: int)

  /** test.py's row: the difference is signed. */
  function DiffRowSigned(item: Item, actual: int): (r: DiffRow)
    ensures r.name == item.name && r.required == item.count && r.actual == actual
    ensures r.status == Classify(actual, item.count)
    ensures r.actual == r.required + r.diff
  {
    var diff := actual - item.count;
    DiffRow(item.name, item.count, actual, Classify(actual, item.count), diff)
  }

  /** Cutting_Stock_Problem.py's row: the magnitude of the difference, its sign carried by the status. */
  function DiffRowAbsolute(item: Item, actual: int): (r: DiffRow)
    ensures r.name == item.name && r.required == item.count && r.actual == actual
    ensures r.status == Classify(actual, item.count)
    ensures r.diff >= 0
    ensures r.actual == r.required + (if r.status == Deficit then -r.diff else r.diff)
  {
    var diff := actual - item.count;
    DiffRow(item.name, item.count, actual, Classify(actual, item.count), if diff < 0 then -diff else diff)
  }

  /**
   * Whatever non-negative values satisfy the demand constraints, test.py's
   * tally of the extracted solution is never a deficit: the difference lies
   * between 0 and the allowed surplus.
   */
  lemma PerPieceNeverDeficit(items: seq<Item>, ps: seq<Pattern>, xs: seq<int>, i: int)
    requires |ps| == |xs| && NonNegative(xs) && DemandConstraints(items, ps, xs)
    requires 0 <= i < |items|
    ensures var row := DiffRowSigned(items[i], EntryTotal(Keep(ps, xs), i));
      row.status != Deficit && 0 <= row.diff <= items[i].over
  {
    KeepProduces(ps, xs, i);
  }

  /** The same for Cutting_Stock_Problem.py's tally of the expanded list of bars. */
  lemma PerGapNeverDeficit(items: seq<Item>, ps: seq<Pattern>, xs: seq<int>, i: int)
    requires |ps| == |xs| && NonNegative(xs) && DemandConstraints(items, ps, xs)
    requires 0 <= i < |items|
    ensures var row := DiffRowAbsolute(items[i], ColumnTotal(Expand(ps, xs), i));
      row.status != Deficit && row.diff <= items[i].over && row.actual == row.required + row.diff
  {
    ExpandProduces(ps, xs, i);
  }

  // ---------------------------------------------------------------------
  // Pattern summary
  // ---------------------------------------------------------------------

  /** One summary row: description, times used, used length, offcut. */
  datatype SummaryRow = SummaryRow(desc: seq<(string, int)>, count: int, usedLength: int, waste: int)

  /** test.py's summary: one row per solution entry, offcut = raw length - used length. */
  method SummarizeSolution(names: seq<string>, raw: int, solution: seq<Entry>) returns (rows: seq<SummaryRow>)
    ensures |rows| == |solution|
    ensures forall k :: 0 <= k < |rows| ==>
      && rows[k].desc == DescribeAsWritten(names, solution[k].pattern)
      && rows[k].count == solution[k].count
      && rows[k].usedLength == solution[k].pattern.usedLength
      && rows[k].waste == raw - rows[k].usedLength
  {
    rows := [];
    for k := 0 to |solution|
      invariant |rows| == k
      invariant forall j :: 0 <= j < k ==>
        && rows[j].desc == DescribeAsWritten(names, solution[j].pattern)
        && rows[j].count == solution[j].count
        && rows[j].usedLength == solution[j].pattern.usedLength
        && rows[j].waste == raw - rows[j].usedLength
    {
      var pattern := solution[k].pattern;
      var usedLength := pattern.usedLength;
      rows := rows + [SummaryRow(DescribeAsWritten(names, pattern), solution[k].count, usedLength, raw - usedLength)];
    }
  }

  /** Every entry test.py extracts from generated patterns uses a positive count and leaves a non-negative offcut. */
  lemma PerPieceSummarySound(items: seq<Item>, raw: int, kerf: int, xs: seq<int>, e: Entry)
    requires |xs| == |Enumerate(items, raw, kerf, PerPiece)|
    requires e in Keep(Enumerate(items, raw, kerf, PerPiece), xs)
    ensures e.count > 0
    ensures raw - e.pattern.usedLength >= 0
  {
    var ps := Enumerate(items, raw, kerf, PerPiece);
    KeepMember(ps, xs, e);
    PatternSound(items, raw, kerf, PerPiece, e.pattern);
  }

  /** One value of the `pattern_summary` dict: bars counted and the last `used_length` seen. */
  datatype SummaryValue = SummaryValue(count: int, usedLength: int)

  /**
   * The `pattern_summary` loop of Cutting_Stock_Problem.py: a dict from key to
   * a tally starting at (0, 0), kept in insertion order (`order`); every bar
   * adds one to its key's count and overwrites its key's `used_length`.
   */
  method SummaryByKey(result: seq<Pattern>) returns (order: seq<Key>, summary: map<Key, SummaryValue>)
    ensures order == FirstOccurrences(CountsOf(result))
    ensures forall k :: k in summary <==> k in CountsOf(result)
    ensures forall k :: k in summary ==> summary[k] == SummaryValue(multiset(CountsOf(result))[k], LastUsed(result, k))
  {
    order := [];
    summary := map[];
    ghost var ks: seq<Key> := [];
    for i := 0 to |result|
      invariant ks == CountsOf(result[..i])
      invariant order == FirstOccurrences(ks)
      invariant forall k :: k in summary <==> k in ks
      invariant forall k :: k in summary ==> summary[k] == SummaryValue(multiset(ks)[k], LastUsed(result[..i], k))
    {
      var key := result[i].counts;
      CountsOfPrefixSnoc(result, i);
      OrderStep(ks, order, summary, key);
      var entry := SummaryValue(0, 0);
      if key in summary {
        entry := summary[key];
      } else {
        order := order + [key];
      }
      var updated := summary[key := SummaryValue(entry.count + 1, result[i].usedLength)];
      SummaryValueStep(result, i, ks, summary, updated);
      summary := updated;
      ks := ks + [key];
    }
    assert result[..|result|] == result;
  }

  /** A key not yet in the summary is appended to the order; a key already there leaves it unchanged. */
  lemma OrderStep(ks: seq<Key>, order: seq<Key>, summary: map<Key, SummaryValue>, key: Key)
    requires order == FirstOccurrences(ks)
    requires forall k :: k in summary <==> k in ks
    ensures key in summary ==> order == FirstOccurrences(ks + [key])
    ensures key !in summary ==> order + [key] == FirstOccurrences(ks + [key])
  {
    FirstOccurrencesSnoc(ks, key);
    FirstOccurrencesMember(ks);
  }

  /** One more bar adds one to its key's tally and makes its used length the key's last. */
  lemma SummaryValueStep(result: seq<Pattern>, i: int, ks: seq<Key>, summary: map<Key, SummaryValue>, updated: map<Key, SummaryValue>)
    requires 0 <= i < |result| && ks == CountsOf(result[..i])
    requires forall k :: k in summary <==> k in ks
    requires forall k :: k in summary ==> summary[k] == SummaryValue(multiset(ks)[k], LastUsed(result[..i], k))
    requires var key := result[i].counts;
      updated == summary[key := SummaryValue((if key in summary then summary[key].count else 0) + 1, result[i].usedLength)]
    ensures forall k :: k in updated <==> k in ks + [result[i].counts]
    ensures forall k :: k in updated ==>
      updated[k] == SummaryValue(multiset(ks + [result[i].counts])[k], LastUsed(result[..i + 1], k))
  {
    var key := result[i].counts;
    SummaryStep(result, i, ks);
    forall k | k in updated
      ensures updated[k] == SummaryValue(multiset(ks + [key])[k], LastUsed(result[..i + 1], k))
    {
      if k == key && key !in summary {
        assert multiset(ks)[key] == 0;
      }
    }
  }

  /** What one more bar changes: its key is appended, counted once more, and its used length is the key's last. */
  lemma SummaryStep(result: seq<Pattern>, i: int, ks: seq<Key>)
    requires 0 <= i < |result| && ks == CountsOf(result[..i])
    ensures CountsOf(result[..i + 1]) == ks + [result[i].counts]
    ensures FirstOccurrences(ks + [result[i].counts]) ==
      if result[i].counts in FirstOccurrences(ks) then FirstOccurrences(ks) else FirstOccurrences(ks) + [result[i].counts]
    ensures multiset(ks + [result[i].counts]) == multiset(ks) + multiset{result[i].counts}
    ensures forall k ::
      LastUsed(result[..i + 1], k) == if k == result[i].counts then result[i].usedLength else LastUsed(result[..i], k)
  {
    var key := result[i].counts;
    var r := result[..i + 1];
    CountsOfPrefixSnoc(result, i);
    assert (ks + [key])[..|ks|] == ks;
    assert r[..i] == result[..i];
    assert r[|r| - 1] == result[i];
    forall k ensures LastUsed(r, k) == if k == key then result[i].usedLength else LastUsed(result[..i], k) {
    }
  }

  /**
   * Cutting_Stock_Problem.py's summary table: one row per key of the dict, in
   * insertion order, with the key's description and offcut.
   */
  method SummarizeGroups(names: seq<string>, raw: int, result: seq<Pattern>) returns (rows: seq<SummaryRow>)
    ensures |rows| == |FirstOccurrences(CountsOf(result))|
    ensures forall k :: 0 <= k < |rows| ==>
      var key := FirstOccurrences(CountsOf(result))[k];
      && rows[k].desc == Describe(names, key)
      && rows[k].count == multiset(CountsOf(result))[key]
      && rows[k].usedLength == LastUsed(result, key)
      && rows[k].waste == raw - rows[k].usedLength
  {
    var order, summary := SummaryByKey(result);
    FirstOccurrencesSpec(CountsOf(result));
    rows := [];
    for k := 0 to |order|
      invariant |rows| == k
      invariant forall j :: 0 <= j < k ==>
        && rows[j].desc == Describe(names, order[j])
        && rows[j].count == multiset(CountsOf(result))[order[j]]
        && rows[j].usedLength == LastUsed(result, order[j])
        && rows[j].waste == raw - rows[j].usedLength
    {
      var key := order[k];
      assert key in CountsOf(result);
      var value := summary[key];
      rows := rows + [SummaryRow(Describe(names, key), value.count, value.usedLength, raw - value.usedLength)];
    }
  }

  /**
   * For the bars Cutting_Stock_Problem.py lists from its generated patterns,
   * every summary row uses a positive number of bars and leaves a
   * non-negative offcut, and the rows' counts add up to the number of bars.
   */
  lemma PerGapSummarySound(items: seq<Item>, raw: int, kerf: int, xs: seq<int>, k: int)
    requires forall i :: 0 <= i < |items| ==> items[i].length > 0
    requires |xs| == |Enumerate(items, raw, kerf, PerGap)|
    requires 0 <= k < |FirstOccurrences(CountsOf(Expand(Enumerate(items, raw, kerf, PerGap), xs)))|
    ensures var result := Expand(Enumerate(items, raw, kerf, PerGap), xs);
      var key := FirstOccurrences(CountsOf(result))[k];
      multiset(CountsOf(result))[key] > 0 && raw - LastUsed(result, key) >= 0
    ensures var result := Expand(Enumerate(items, raw, kerf, PerGap), xs);
      SumCounts(FirstOccurrences(CountsOf(result)), multiset(CountsOf(result))) == |result|
  {
    var ps := Enumerate(items, raw, kerf, PerGap);
    var result := Expand(ps, xs);
    EnumerateOrdered(items, raw, kerf, PerGap);
    SummaryMatchesExtraction(ps, xs);
    var sol := Keep(ps, xs);
    assert sol[k] in sol;
    KeepMember(ps, xs, sol[k]);
    PatternSound(items, raw, kerf, PerGap, sol[k].pattern);
    GroupCountsTotal(CountsOf(result));
  }

  // ---------------------------------------------------------------------
  // Presentation order of test.py's solution
  // ---------------------------------------------------------------------

  predicate CountsDescending(s: seq<Entry>)
  {
    forall i, j :: 0 <= i < j < |s| ==> s[i].count >= s[j].count
  }

  /** The entries with count `c`, in order. */
  function WithCount(s: seq<Entry>, c: int): seq<Entry>
  {
    if s == [] then [] else (if s[0].count == c then [s[0]] else []) + WithCount(s[1..], c)
  }

  /** Place `e` before the first entry whose count is not larger. */
  function InsertByCount(e: Entry, s: seq<Entry>): seq<Entry>
  {
    if s == [] || e.count >= s[0].count then [e] + s else [s[0]] + InsertByCount(e, s[1..])
  }

  lemma {:induction false} InsertByCountPermutes(e: Entry, s: seq<Entry>)
    ensures multiset(InsertByCount(e, s)) == multiset(s) + multiset{e}
    ensures |InsertByCount(e, s)| == |s| + 1
  {
    if s != [] && e.count < s[0].count {
      InsertByCountPermutes(e, s[1..]);
      assert s == [s[0]] + s[1..];
    }
  }

  /** No entry counts more than `bound`. */
  predicate AtMost(s: seq<Entry>, bound: int)
  {
    forall k :: 0 <= k < |s| ==> s[k].count <= bound
  }

  lemma {:induction false} InsertByCountAtMost(e: Entry, s: seq<Entry>, bound: int)
    requires AtMost(s, bound) && e.count <= bound
    ensures AtMost(InsertByCount(e, s), bound)
  {
    if s != [] && e.count < s[0].count {
      assert AtMost(s[1..], bound) by {
        forall k | 0 <= k < |s[1..]| ensures s[1..][k].count <= bound {
          assert s[1..][k] == s[k + 1];
        }
      }
      InsertByCountAtMost(e, s[1..], bound);
    }
  }

  lemma SortedCons(x: Entry, t: seq<Entry>)
    requires CountsDescending(t) && AtMost(t, x.count)
    ensures CountsDescending([x] + t)
  {
    var r := [x] + t;
    forall i, j | 0 <= i < j < |r| ensures r[i].count >= r[j].count {
      assert r[j] == t[j - 1];
      if i > 0 {
        assert r[i] == t[i - 1];
      }
    }
  }

  lemma {:induction false} InsertByCountSorted(e: Entry, s: seq<Entry>)
    requires CountsDescending(s)
    ensures CountsDescending(InsertByCount(e, s))
  {
    if s == [] || e.count >= s[0].count {
      assert AtMost(s, e.count) by {
        forall k | 0 <= k < |s| ensures s[k].count <= e.count {
          assert s[k].count <= s[0].count;
        }
      }
      SortedCons(e, s);
    } else {
      var t := s[1..];
      assert CountsDescending(t) by {
        forall i, j | 0 <= i < j < |t| ensures t[i].count >= t[j].count {
          assert t[i] == s[i + 1] && t[j] == s[j + 1];
        }
      }
      assert AtMost(t, s[0].count) by {
        forall k | 0 <= k < |t| ensures t[k].count <= s[0].count {
          assert t[k] == s[k + 1];
        }
      }
      InsertByCountSorted(e, t);
      InsertByCountAtMost(e, t, s[0].count);
      SortedCons(s[0], InsertByCount(e, t));
    }
  }

  lemma WithCountCons(x: Entry, s: seq<Entry>, c: int)
    ensures WithCount([x] + s, c) == (if x.count == c then [x] else []) + WithCount(s, c)
  {
    assert ([x] + s)[1..] == s;
  }

  lemma {:induction false} InsertByCountStable(e: Entry, s: seq<Entry>, c: int)
    ensures WithCount(InsertByCount(e, s), c) == (if e.count == c then [e] else []) + WithCount(s, c)
  {
    if s != [] && e.count < s[0].count {
      var rest := InsertByCount(e, s[1..]);
      assert InsertByCount(e, s) == [s[0]] + rest;
      InsertByCountStable(e, s[1..], c);
      WithCountCons(s[0], rest, c);
      assert WithCount(s, c) == (if s[0].count == c then [s[0]] else []) + WithCount(s[1..], c);
      if e.count == c {
        assert s[0].count != c;
        assert WithCount(InsertByCount(e, s), c) == [e] + WithCount(s[1..], c);
      } else {
        assert (if s[0].count == c then [s[0]] else []) + ([] + WithCount(s[1..], c)) == WithCount(s, c);
      }
    } else {
      assert InsertByCount(e, s) == [e] + s;
      WithCountCons(e, s, c);
    }
  }

  /** Inserting the head into a stable sort of the tail gives a stable sort of the whole. */
  lemma InsertHead(s: seq<Entry>, t: seq<Entry>)
    requires s != []
    requires multiset(t) == multiset(s[1..]) && CountsDescending(t)
    requires forall c :: WithCount(t, c) == WithCount(s[1..], c)
    ensures multiset(InsertByCount(s[0], t)) == multiset(s)
    ensures CountsDescending(InsertByCount(s[0], t))
    ensures forall c :: WithCount(InsertByCount(s[0], t), c) == WithCount(s, c)
  {
    InsertByCountPermutes(s[0], t);
    InsertByCountSorted(s[0], t);
    assert s == [s[0]] + s[1..];
    forall c ensures WithCount(InsertByCount(s[0], t), c) == WithCount(s, c) {
      InsertByCountStable(s[0], t, c);
    }
  }

  /**
   * `sorted(solution, key=count, reverse=True)`: a stable sort, so entries with
   * equal counts keep their solution order.
   */
  function SortByCount(s: seq<Entry>): (r: seq<Entry>)
    ensures multiset(r) == multiset(s)
    ensures CountsDescending(r)
    ensures forall c :: WithCount(r, c) == WithCount(s, c)
  {
    if s == [] then []
    else
      var t := SortByCount(s[1..]);
      InsertHead(s, t);
      InsertByCount(s[0], t)
  }
}
