/**
 * What the two scripts make of the solver's answer. The solver itself is
 * outside the model: its status and its integer value for each pattern's
 * variable are inputs. test.py keeps one `{pattern, count}` entry per pattern
 * used; Cutting_Stock_Problem.py lists the pattern once per stock bar.
 */
module Solutions {
  import opened Patterns

  /** The solver's verdict; only Optimal comes with values the scripts read. */
  datatype SolveStatus = Optimal | Feasible | Infeasible | Unbounded | Abnormal | NotSolved

  /** One `{'pattern': ..., 'count': ...}` entry of test.py's solution. */
  datatype Entry = Entry(pattern: Pattern, count: int)

  /** `c[i]`, or 0 where the vector has no such position (Python's `.get(name, 0)`). */
  function At(c: seq<int>, i: int): int
  {
    if 0 <= i < |c| then c[i] else 0
  }

  /** The positions of the positive values, in increasing order. */
  function PositiveIndices(xs: seq<int>): seq<int>
  {
    if xs == [] then []
    else PositiveIndices(xs[..|xs| - 1]) + (if xs[|xs| - 1] > 0 then [|xs| - 1] else [])
  }

  lemma {:induction false} PositiveIndicesSpec(xs: seq<int>)
    ensures forall k :: 0 <= k < |PositiveIndices(xs)| ==>
      0 <= PositiveIndices(xs)[k] < |xs| && xs[PositiveIndices(xs)[k]] > 0
    ensures forall k, l :: 0 <= k < l < |PositiveIndices(xs)| ==> PositiveIndices(xs)[k] < PositiveIndices(xs)[l]
    ensures forall i :: 0 <= i < |xs| && xs[i] > 0 ==> i in PositiveIndices(xs)
  {
    if xs != [] {
      var n := |xs| - 1;
      var init := xs[..n];
      var pre := PositiveIndices(init);
      PositiveIndicesSpec(init);
      assert PositiveIndices(xs) == pre + (if xs[n] > 0 then [n] else []);
      forall k | 0 <= k < |pre| ensures pre[k] < n && xs[pre[k]] > 0 {
        assert init[pre[k]] == xs[pre[k]];
      }
      forall i | 0 <= i < |xs| && xs[i] > 0 ensures i in PositiveIndices(xs) {
        if i < n {
          assert init[i] == xs[i];
        }
      }
    }
  }

  // ---------------------------------------------------------------------
  // test.py: one entry per pattern with a positive value
  // ---------------------------------------------------------------------

  function Keep(ps: seq<Pattern>, xs: seq<int>): seq<Entry>
    requires |ps| == |xs|
  {
    if ps == [] then []
    else
      var n := |ps| - 1;
      Keep(ps[..n], xs[..n]) + (if xs[n] > 0 then [Entry(ps[n], xs[n])] else [])
  }

  /**
   * Result extraction in test.py's `optimize`: on an optimal status, one entry
   * per pattern whose value is positive, carrying that value; otherwise none.
   */
  method ExtractSolution(patterns: seq<Pattern>, status: SolveStatus, values: seq<int>) returns (solution: seq<Entry>)
    requires |values| == |patterns|
    ensures status != Optimal ==> solution == []
    ensures status == Optimal ==> solution == Keep(patterns, values)
  {
    solution := [];
    if status == Optimal {
      for i := 0 to |patterns|
        invariant solution == Keep(patterns[..i], values[..i])
      {
        assert patterns[..i + 1][..i] == patterns[..i] && values[..i + 1][..i] == values[..i];
        var count := values[i];
        if count > 0 {
          solution := solution + [Entry(patterns[i], count)];
        }
      }
      assert patterns[..|patterns|] == patterns && values[..|values|] == values;
    }
  }

  /** The kept entries are exactly the patterns with a positive value, in pattern order, each with that value. */
  lemma {:induction false} KeepSelects(ps: seq<Pattern>, xs: seq<int>)
    requires |ps| == |xs|
    ensures |Keep(ps, xs)| == |PositiveIndices(xs)|
    ensures forall k :: 0 <= k < |Keep(ps, xs)| ==>
      var i := PositiveIndices(xs)[k]; 0 <= i < |ps| && Keep(ps, xs)[k] == Entry(ps[i], xs[i])
  {
    PositiveIndicesSpec(xs);
    if ps != [] {
      var n := |ps| - 1;
      KeepSelects(ps[..n], xs[..n]);
      PositiveIndicesSpec(xs[..n]);
    }
  }

  lemma {:induction false} KeepMember(ps: seq<Pattern>, xs: seq<int>, e: Entry)
    requires |ps| == |xs|
    requires e in Keep(ps, xs)
    ensures exists i :: 0 <= i < |ps| && e == Entry(ps[i], xs[i]) && xs[i] > 0
  {
    KeepSelects(ps, xs);
    PositiveIndicesSpec(xs);
    var k :| 0 <= k < |Keep(ps, xs)| && Keep(ps, xs)[k] == e;
    var i := PositiveIndices(xs)[k];
    assert e == Entry(ps[i], xs[i]) && xs[i] > 0;
  }

  // ---------------------------------------------------------------------
  // Cutting_Stock_Problem.py: each pattern once per stock bar
  // ---------------------------------------------------------------------

  /** `[x] * n`; empty for n <= 0, as `range(n)` is. */
  function Repeat<T>(x: T, n: int): seq<T>
  {
    seq(if n > 0 then n else 0, _ => x)
  }

  function Expand(ps: seq<Pattern>, xs: seq<int>): seq<Pattern>
    requires |ps| == |xs|
  {
    if ps == [] then []
    else
      var n := |ps| - 1;
      Expand(ps[..n], xs[..n]) + Repeat(ps[n], xs[n])
  }

  /**
   * Result expansion in Cutting_Stock_Problem.py's `optimize`: on an optimal
   * status, each pattern appended once per unit of its value, in pattern
   * order; otherwise nothing.
   */
  method ExpandSolution(patterns: seq<Pattern>, status: SolveStatus, values: seq<int>) returns (result: seq<Pattern>)
    requires |values| == |patterns|
    ensures status != Optimal ==> result == []
    ensures status == Optimal ==> result == Expand(patterns, values)
  {
    result := [];
    if status == Optimal {
      for i := 0 to |patterns|
        invariant result == Expand(patterns[..i], values[..i])
      {
        assert patterns[..i + 1][..i] == patterns[..i] && values[..i + 1][..i] == values[..i];
        var count := values[i];
        ghost var before := result;
        var j := 0;
        while j < count
          invariant 0 <= j && (count >= 0 ==> j <= count) && (count < 0 ==> j == 0)
          invariant result == before + Repeat(patterns[i], j)
        {
          assert Repeat(patterns[i], j + 1) == Repeat(patterns[i], j) + [patterns[i]];
          result := result + [patterns[i]];
          j := j + 1;
        }
        assert Repeat(patterns[i], j) == Repeat(patterns[i], count);
      }
      assert patterns[..|patterns|] == patterns && values[..|values|] == values;
    }
  }

  lemma {:induction false} ExpandMember(ps: seq<Pattern>, xs: seq<int>, q: Pattern)
    requires |ps| == |xs|
    requires q in Expand(ps, xs)
    ensures exists i :: 0 <= i < |ps| && ps[i] == q && xs[i] > 0
  {
    var n := |ps| - 1;
    if q in Expand(ps[..n], xs[..n]) {
      ExpandMember(ps[..n], xs[..n], q);
      var i :| 0 <= i < n && ps[..n][i] == q && xs[..n][i] > 0;
      assert ps[i] == q && xs[i] > 0;
    } else {
      assert q in Repeat(ps[n], xs[n]);
    }
  }

  // ---------------------------------------------------------------------
  // Stock-bar totals
  // ---------------------------------------------------------------------

  /** Number of bars the values call for: the sum of their positive parts. */
  function Units(xs: seq<int>): int
  {
    if xs == [] then 0
    else Units(xs[..|xs| - 1]) + (if xs[|xs| - 1] > 0 then xs[|xs| - 1] else 0)
  }

  /** test.py's `sum(s['count'] for s in solution)`. */
  function EntryUnits(sol: seq<Entry>): int
  {
    if sol == [] then 0 else EntryUnits(sol[..|sol| - 1]) + sol[|sol| - 1].count
  }

  lemma {:induction false} EntryUnitsAppend(a: seq<Entry>, b: seq<Entry>)
    ensures EntryUnits(a + b) == EntryUnits(a) + EntryUnits(b)
  {
    if b != [] {
      var n := |b| - 1;
      EntryUnitsAppend(a, b[..n]);
      assert (a + b)[..|a + b| - 1] == a + b[..n];
      assert (a + b)[|a + b| - 1] == b[n];
    } else {
      assert a + b == a;
    }
  }

  /**
   * The two scripts report the same number of stock bars: test.py's sum of
   * counts, Cutting_Stock_Problem.py's length of the expanded list. With
   * non-negative values it is the solver's objective, the sum of the values.
   */
  lemma {:induction false} StockBarCount(ps: seq<Pattern>, xs: seq<int>)
    requires |ps| == |xs|
    ensures EntryUnits(Keep(ps, xs)) == Units(xs)
    ensures |Expand(ps, xs)| == Units(xs)
    ensures NonNegative(xs) ==> Units(xs) == Sum(xs)
  {
    if ps != [] {
      var n := |ps| - 1;
      StockBarCount(ps[..n], xs[..n]);
      EntryUnitsAppend(Keep(ps[..n], xs[..n]), if xs[n] > 0 then [Entry(ps[n], xs[n])] else []);
      if NonNegative(xs) {
        assert NonNegative(xs[..n]);
      }
    }
  }

  // ---------------------------------------------------------------------
  // Production and the demand constraints given to the solver
  // ---------------------------------------------------------------------

  /** Pieces of item `i` the solver's values produce: the sum of value times the pattern's count. */
  function Produced(ps: seq<Pattern>, xs: seq<int>, i: int): int
    requires |ps| == |xs|
  {
    if ps == [] then 0
    else
      var n := |ps| - 1;
      Produced(ps[..n], xs[..n], i) + xs[n] * At(ps[n].counts, i)
  }

  /** The constraints added per item: required count <= produced <= required count + allowed surplus. */
  predicate DemandConstraints(items: seq<Item>, ps: seq<Pattern>, xs: seq<int>)
    requires |ps| == |xs|
  {
    forall i :: 0 <= i < |items| ==> items[i].count <= Produced(ps, xs, i) <= items[i].count + items[i].over
  }

  /** test.py's tally for item `i`: the sum over entries of the pattern's count times the entry's count. */
  function EntryTotal(sol: seq<Entry>, i: int): int
  {
    if sol == [] then 0
    else
      var e := sol[|sol| - 1];
      EntryTotal(sol[..|sol| - 1], i) + At(e.pattern.counts, i) * e.count
  }

  /** Cutting_Stock_Problem.py's tally for item `i`: the sum of the item's count over the listed bars. */
  function ColumnTotal(result: seq<Pattern>, i: int): int
  {
    if result == [] then 0
    else ColumnTotal(result[..|result| - 1], i) + At(result[|result| - 1].counts, i)
  }

  /** Dropping the patterns with value 0 does not change what is produced. */
  lemma {:induction false} KeepProduces(ps: seq<Pattern>, xs: seq<int>, i: int)
    requires |ps| == |xs| && NonNegative(xs)
    ensures EntryTotal(Keep(ps, xs), i) == Produced(ps, xs, i)
  {
    if ps != [] {
      var n := |ps| - 1;
      assert NonNegative(xs[..n]);
      KeepProduces(ps[..n], xs[..n], i);
      var pre := Keep(ps[..n], xs[..n]);
      if xs[n] > 0 {
        var e := Entry(ps[n], xs[n]);
        assert (pre + [e])[..|pre|] == pre;
        assert EntryTotal(pre + [e], i) == EntryTotal(pre, i) + At(ps[n].counts, i) * xs[n];
      } else {
        assert Keep(ps, xs) == pre + [];
        assert pre + [] == pre;
        assert xs[n] * At(ps[n].counts, i) == 0;
      }
    }
  }

  lemma RepeatSnoc<T>(x: T, n: int)
    requires n > 0
    ensures Repeat(x, n) == Repeat(x, n - 1) + [x]
  {
  }

  lemma MulPred(m: int, v: int)
    ensures m * v == (m - 1) * v + v
  {
  }

  lemma AppendSnoc<T>(a: seq<T>, r: seq<T>, x: T)
    ensures a + (r + [x]) == (a + r) + [x]
  {
  }

  lemma ColumnTotalSnoc(s: seq<Pattern>, p: Pattern, i: int)
    ensures ColumnTotal(s + [p], i) == ColumnTotal(s, i) + At(p.counts, i)
  {
    assert (s + [p])[..|s|] == s;
  }

  lemma {:induction false} ColumnTotalRepeat(a: seq<Pattern>, p: Pattern, m: int, i: int)
    requires m >= 0
    ensures ColumnTotal(a + Repeat(p, m), i) == ColumnTotal(a, i) + m * At(p.counts, i)
  {
    if m > 0 {
      ColumnTotalRepeat(a, p, m - 1, i);
      var s := a + Repeat(p, m - 1);
      RepeatSnoc(p, m);
      AppendSnoc(a, Repeat(p, m - 1), p);
      ColumnTotalSnoc(s, p, i);
      MulPred(m, At(p.counts, i));
    } else {
      assert a + Repeat(p, m) == a;
    }
  }

  /** Listing each pattern once per bar produces what the solver's values produce. */
  lemma {:induction false} ExpandProduces(ps: seq<Pattern>, xs: seq<int>, i: int)
    requires |ps| == |xs| && NonNegative(xs)
    ensures ColumnTotal(Expand(ps, xs), i) == Produced(ps, xs, i)
  {
    if ps != [] {
      var n := |ps| - 1;
      assert NonNegative(xs[..n]);
      ExpandProduces(ps[..n], xs[..n], i);
      ColumnTotalRepeat(Expand(ps[..n], xs[..n]), ps[n], xs[n], i);
    }
  }
}
