/**
 * Cutting_Stock_Problem.py regroups its flat list of bars by pattern key
 * (the tuple of each item's count) in first-occurrence order, counting the
 * bars per key. Grouping an expansion gives back test.py's extraction.
 */
module Grouping {
  import opened Patterns
  import opened Solutions

  /** A grouping key: the count of each item, in item order (the tuple of `(name, qty)` pairs over the fixed item names). */
  type Key = seq<int>

  /** Each distinct element once, in the order it first occurs. */
  function FirstOccurrences(xs: seq<Key>): seq<Key>
  {
    if xs == [] then []
    else
      var d := FirstOccurrences(xs[..|xs| - 1]);
      var x := xs[|xs| - 1];
      if x in d then d else d + [x]
  }

  predicate NoDuplicates<T(==)>(s: seq<T>)
  {
    forall i, j :: 0 <= i < j < |s| ==> s[i] != s[j]
  }

  /** `d[a]` occurs in `xs` before any occurrence of a later `d[b]`. */
  predicate InFirstOccurrenceOrder(xs: seq<Key>, d: seq<Key>)
  {
    forall a, b, j :: 0 <= a < b < |d| && 0 <= j < |xs| && xs[j] == d[b] ==> d[a] in xs[..j]
  }

  /** Every element once, nothing else, each listed before any element that first occurs later. */
  lemma {:induction false} FirstOccurrencesSpec(xs: seq<Key>)
    ensures NoDuplicates(FirstOccurrences(xs))
    ensures forall x :: x in FirstOccurrences(xs) <==> x in xs
    ensures InFirstOccurrenceOrder(xs, FirstOccurrences(xs))
  {
    if xs != [] {
      var n := |xs| - 1;
      var init := xs[..n];
      var x := xs[n];
      FirstOccurrencesSpec(init);
      var d0 := FirstOccurrences(init);
      var d := FirstOccurrences(xs);
      assert xs == init + [x];
      assert InFirstOccurrenceOrder(init, d0);
      forall a, b, j | 0 <= a < b < |d| && 0 <= j < |xs| && xs[j] == d[b] ensures d[a] in xs[..j] {
        assert d == d0 || (x !in d0 && d == d0 + [x]);
        if j < n {
          assert xs[j] == init[j];
          assert d[b] in d0;
          assert b < |d0|;
          assert d[a] == d0[a] && d[b] == d0[b];
          assert init[j] == d0[b];
          assert d0[a] in init[..j];
          assert init[..j] == xs[..j];
        } else {
          assert a < |d0|;
          assert d[a] == d0[a];
          assert d0[a] in d0;
          assert d0[a] in init;
          assert xs[..j] == init;
        }
      }
    }
  }

  lemma FirstOccurrencesMember(xs: seq<Key>)
    ensures forall x :: x in FirstOccurrences(xs) <==> x in xs
  {
    FirstOccurrencesSpec(xs);
  }

  /**
   * The `pattern_counts` / `pattern_order` loop in Cutting_Stock_Problem.py's
   * `show_cutting_visual`: the distinct keys in first-occurrence order, and for
   * every key met the number of bars that carry it.
   */
  method GroupPatterns(result: seq<Pattern>) returns (order: seq<Key>, counts: map<Key, int>)
    ensures order == FirstOccurrences(CountsOf(result))
    ensures forall k :: k in counts <==> k in CountsOf(result)
    ensures forall k :: k in counts ==> counts[k] == multiset(CountsOf(result))[k]
  {
    order := [];
    counts := map[];
    ghost var ks: seq<Key> := [];
    for i := 0 to |result|
      invariant ks == CountsOf(result[..i])
      invariant order == FirstOccurrences(ks)
      invariant forall k :: k in counts <==> k in ks
      invariant forall k :: k in counts ==> counts[k] == multiset(ks)[k]
    {
      var key := result[i].counts;
      CountsOfPrefixSnoc(result, i);
      FirstOccurrencesMember(ks);
      var c := if key in counts then counts[key] else 0;
      assert c == multiset(ks)[key];
      counts := counts[key := c + 1];
      if key !in order {
        order := order + [key];
      }
      assert (ks + [key])[..|ks|] == ks;
      assert multiset(ks + [key]) == multiset(ks) + multiset{key};
      ks := ks + [key];
    }
    assert result[..|result|] == result;
  }

  lemma FirstOccurrencesSnoc(ks: seq<Key>, key: Key)
    ensures FirstOccurrences(ks + [key]) ==
      if key in FirstOccurrences(ks) then FirstOccurrences(ks) else FirstOccurrences(ks) + [key]
  {
    assert (ks + [key])[..|ks|] == ks;
  }

  /** One more bar adds its key to the keys of a prefix. */
  lemma CountsOfPrefixSnoc(result: seq<Pattern>, i: int)
    requires 0 <= i < |result|
    ensures CountsOf(result[..i + 1]) == CountsOf(result[..i]) + [result[i].counts]
  {
    assert result[..i + 1] == result[..i] + [result[i]];
    CountsOfSnoc(result[..i], result[i]);
  }

  /** Sum of `m[k]` over the keys of `d`. */
  function SumCounts(d: seq<Key>, m: multiset<Key>): int
  {
    if d == [] then 0 else SumCounts(d[..|d| - 1], m) + m[d[|d| - 1]]
  }

  lemma {:induction false} SumCountsAdd(d: seq<Key>, m: multiset<Key>, x: Key)
    requires NoDuplicates(d)
    ensures SumCounts(d, m + multiset{x}) == SumCounts(d, m) + (if x in d then 1 else 0)
  {
    if d != [] {
      var n := |d| - 1;
      assert NoDuplicates(d[..n]);
      SumCountsAdd(d[..n], m, x);
      assert x in d <==> x in d[..n] || x == d[n];
      assert d[n] !in d[..n];
    }
  }

  /** The grouped counts add up to the number of bars listed. */
  lemma {:induction false} GroupCountsTotal(xs: seq<Key>)
    ensures SumCounts(FirstOccurrences(xs), multiset(xs)) == |xs|
  {
    if xs != [] {
      var n := |xs| - 1;
      var init := xs[..n];
      var x := xs[n];
      GroupCountsTotal(init);
      FirstOccurrencesSpec(init);
      var d0 := FirstOccurrences(init);
      assert xs == init + [x];
      assert multiset(xs) == multiset(init) + multiset{x};
      SumCountsAdd(d0, multiset(init), x);
      if x !in d0 {
        assert x !in init;
        assert FirstOccurrences(xs) == d0 + [x];
        assert (d0 + [x])[..|d0|] == d0;
      }
    }
  }

  /** The keys of the kept entries, in order. */
  function EntryKeys(sol: seq<Entry>): seq<Key>
  {
    seq(|sol|, k requires 0 <= k < |sol| => sol[k].pattern.counts)
  }

  lemma {:induction false} FirstOccurrencesRepeat(a: seq<Key>, k: Key, m: int)
    requires k !in a
    ensures FirstOccurrences(a + Repeat(k, m)) == FirstOccurrences(a) + (if m > 0 then [k] else [])
  {
    if m <= 0 {
      assert a + Repeat(k, m) == a;
    } else {
      FirstOccurrencesRepeat(a, k, m - 1);
      var s := a + Repeat(k, m - 1);
      assert a + Repeat(k, m) == s + [k];
      assert (s + [k])[..|s|] == s;
      FirstOccurrencesSpec(a);
    }
  }

  lemma {:induction false} RepeatCount(k: Key, m: int, y: Key)
    ensures multiset(Repeat(k, m))[y] == if y == k && m > 0 then m else 0
  {
    if m > 0 {
      RepeatCount(k, m - 1, y);
      assert Repeat(k, m) == Repeat(k, m - 1) + [k];
    } else {
      assert Repeat(k, m) == [];
    }
  }

  /** The keys of an expansion grow by the last pattern's key, repeated by its value. */
  lemma CountsOfExpandSnoc(ps: seq<Pattern>, xs: seq<int>)
    requires |ps| == |xs| && ps != []
    ensures var n := |ps| - 1;
      CountsOf(Expand(ps, xs)) == CountsOf(Expand(ps[..n], xs[..n])) + Repeat(ps[n].counts, xs[n])
  {
    var n := |ps| - 1;
    var e0 := Expand(ps[..n], xs[..n]);
    var r := Repeat(ps[n], xs[n]);
    assert Expand(ps, xs) == e0 + r;
    CountsOfConcat(e0, r);
    CountsOfRepeat(ps[n], xs[n]);
  }

  /** The keys of the kept entries grow by the last pattern's key when its value is positive. */
  lemma EntryKeysKeepSnoc(ps: seq<Pattern>, xs: seq<int>)
    requires |ps| == |xs| && ps != []
    ensures var n := |ps| - 1;
      EntryKeys(Keep(ps, xs)) == EntryKeys(Keep(ps[..n], xs[..n])) + (if xs[n] > 0 then [ps[n].counts] else [])
  {
    var n := |ps| - 1;
    var k0 := Keep(ps[..n], xs[..n]);
    if xs[n] > 0 {
      var e := Entry(ps[n], xs[n]);
      assert Keep(ps, xs) == k0 + [e];
      EntryKeysSnoc(k0, e);
    } else {
      assert Keep(ps, xs) == k0 + [];
      assert k0 + [] == k0;
    }
  }

  lemma EntryKeysSnoc(k0: seq<Entry>, e: Entry)
    ensures EntryKeys(k0 + [e]) == EntryKeys(k0) + [e.pattern.counts]
  {
    var l := EntryKeys(k0 + [e]);
    var r := EntryKeys(k0) + [e.pattern.counts];
    assert |l| == |r|;
    forall i | 0 <= i < |l| ensures l[i] == r[i] {
      if i < |k0| {
        assert (k0 + [e])[i] == k0[i];
      }
    }
  }

  lemma CountsOfConcat(a: seq<Pattern>, b: seq<Pattern>)
    ensures CountsOf(a + b) == CountsOf(a) + CountsOf(b)
  {
    var l := CountsOf(a + b);
    var r := CountsOf(a) + CountsOf(b);
    assert |l| == |r|;
    forall i | 0 <= i < |l| ensures l[i] == r[i] {
      if i < |a| {
        assert (a + b)[i] == a[i];
      } else {
        assert (a + b)[i] == b[i - |a|];
      }
    }
  }

  lemma CountsOfRepeat(p: Pattern, m: int)
    ensures CountsOf(Repeat(p, m)) == Repeat(p.counts, m)
  {
    var l := CountsOf(Repeat(p, m));
    assert |l| == |Repeat(p.counts, m)|;
    forall i | 0 <= i < |l| ensures l[i] == Repeat(p.counts, m)[i] {
      assert Repeat(p, m)[i] == p;
    }
  }

  /** The last pattern's key occurs nowhere in the expansion of the earlier patterns. */
  lemma FreshKey(ps: seq<Pattern>, xs: seq<int>)
    requires |ps| == |xs| && ps != [] && DistinctCounts(ps)
    ensures var n := |ps| - 1; ps[n].counts !in CountsOf(Expand(ps[..n], xs[..n]))
  {
    var n := |ps| - 1;
    var e0 := Expand(ps[..n], xs[..n]);
    if ps[n].counts in CountsOf(e0) {
      var j :| 0 <= j < |e0| && e0[j].counts == ps[n].counts;
      ExpandMember(ps[..n], xs[..n], e0[j]);
      assert false;
    }
  }

  /**
   * Expand-then-group round trip: when the patterns have distinct count
   * vectors (as enumerated patterns do), grouping Cutting_Stock_Problem.py's
   * list of bars recovers test.py's entries: the same keys in the same order,
   * each with the solver's value as its number of bars.
   */
  lemma {:induction false} ExpandThenGroup(ps: seq<Pattern>, xs: seq<int>)
    requires |ps| == |xs| && DistinctCounts(ps)
    ensures FirstOccurrences(CountsOf(Expand(ps, xs))) == EntryKeys(Keep(ps, xs))
    ensures forall e :: e in Keep(ps, xs) ==> multiset(CountsOf(Expand(ps, xs)))[e.pattern.counts] == e.count
  {
    if ps != [] {
      var n := |ps| - 1;
      var p := ps[n];
      var x := xs[n];
      assert DistinctCounts(ps[..n]);
      ExpandThenGroup(ps[..n], xs[..n]);
      var a := CountsOf(Expand(ps[..n], xs[..n]));
      CountsOfExpandSnoc(ps, xs);
      FreshKey(ps, xs);
      FirstOccurrencesRepeat(a, p.counts, x);
      EntryKeysKeepSnoc(ps, xs);
      var k0 := Keep(ps[..n], xs[..n]);
      forall e | e in Keep(ps, xs) ensures multiset(CountsOf(Expand(ps, xs)))[e.pattern.counts] == e.count {
        RepeatCount(p.counts, x, e.pattern.counts);
        assert multiset(a + Repeat(p.counts, x)) == multiset(a) + multiset(Repeat(p.counts, x));
        if e in k0 {
          KeepMember(ps[..n], xs[..n], e);
          assert e.pattern.counts != p.counts;
        } else {
          assert Keep(ps, xs) == k0 + (if x > 0 then [Entry(p, x)] else []);
          assert e == Entry(p, x);
        }
      }
    }
  }

  /** `used_length` of the last bar with this key; 0, the default the summary starts from, if none. */
  function LastUsed(result: seq<Pattern>, key: Key): int
  {
    if result == [] then 0
    else if result[|result| - 1].counts == key then result[|result| - 1].usedLength
    else LastUsed(result[..|result| - 1], key)
  }

  lemma {:induction false} LastUsedIsUsed(result: seq<Pattern>, key: Key)
    requires key in CountsOf(result)
    ensures exists q :: q in result && q.counts == key && LastUsed(result, key) == q.usedLength
  {
    var n := |result| - 1;
    if result[n].counts != key {
      var j :| 0 <= j < |result| && result[j].counts == key;
      assert j < n;
      assert CountsOf(result[..n])[j] == key;
      LastUsedIsUsed(result[..n], key);
      var q :| q in result[..n] && q.counts == key && LastUsed(result[..n], key) == q.usedLength;
      assert q in result;
    }
  }

  /**
   * End to end for Cutting_Stock_Problem.py's pattern summary: grouping the
   * expansion of distinct patterns lists, in order, exactly test.py's entries,
   * with the entry's count as the number of bars and the pattern's own used
   * length.
   */
  lemma SummaryMatchesExtraction(ps: seq<Pattern>, xs: seq<int>)
    requires |ps| == |xs| && DistinctCounts(ps)
    ensures var d := FirstOccurrences(CountsOf(Expand(ps, xs))); var sol := Keep(ps, xs);
      && |d| == |sol|
      && forall k :: 0 <= k < |d| ==>
        && d[k] == sol[k].pattern.counts
        && multiset(CountsOf(Expand(ps, xs)))[d[k]] == sol[k].count
        && LastUsed(Expand(ps, xs), d[k]) == sol[k].pattern.usedLength
  {
    ExpandThenGroup(ps, xs);
    var d := FirstOccurrences(CountsOf(Expand(ps, xs)));
    var sol := Keep(ps, xs);
    var result := Expand(ps, xs);
    forall k | 0 <= k < |d| ensures LastUsed(result, d[k]) == sol[k].pattern.usedLength {
      assert d[k] == EntryKeys(sol)[k];
      assert sol[k] in sol;
      KeepMember(ps, xs, sol[k]);
      var i :| 0 <= i < |ps| && sol[k] == Entry(ps[i], xs[i]) && xs[i] > 0;
      FirstOccurrencesSpec(CountsOf(result));
      assert d[k] in CountsOf(result);
      LastUsedIsUsed(result, d[k]);
      var q :| q in result && q.counts == d[k] && LastUsed(result, d[k]) == q.usedLength;
      ExpandMember(ps, xs, q);
      var j :| 0 <= j < |ps| && ps[j] == q && xs[j] > 0;
      assert ps[j].counts == ps[i].counts;
      assert i == j;
    }
  }
}
