/** Greedy chunking of missing days: an exact partition, and one no other partition beats. */
module Chunking {
  import opened Common
  import opened Days

  const MAX_STEP := 5

  predicate Near(s: seq<Day>, j: nat)
    requires 0 < j < |s|
  {
    s[j] - s[j - 1] <= MAX_STEP
  }

  /** A run begun at `first` may take `s[j]`. */
  predicate Joins(s: seq<Day>, first: nat, j: nat, chunkDays: int)
    requires first < j < |s|
  {
    !(s[j] - s[first] >= chunkDays) && Near(s, j)
  }

  /** Where a run that covers `s[first..n]` ends up. */
  function Reach(s: seq<Day>, first: nat, n: nat, chunkDays: int): (r: nat)
    requires first < n <= |s|
    ensures n <= r <= |s|
    ensures r < |s| ==> !Joins(s, first, r, chunkDays)
    ensures forall i :: n <= i < r ==> Joins(s, first, i, chunkDays)
    decreases |s| - n
  {
    if n < |s| && Joins(s, first, n, chunkDays) then Reach(s, first, n + 1, chunkDays) else n
  }

  /** The greedy runs of `s[first..]`. */
  function GreedyFrom(s: seq<Day>, first: nat, chunkDays: int): (r: seq<seq<Day>>)
    requires first <= |s|
    ensures forall i :: 0 <= i < |r| ==> r[i] != []
    decreases |s| - first
  {
    if first == |s| then []
    else
      var n := Reach(s, first, first + 1, chunkDays);
      [s[first..n]] + GreedyFrom(s, n, chunkDays)
  }

  function Greedy(s: seq<Day>, chunkDays: int): (r: seq<seq<Day>>)
    ensures forall i :: 0 <= i < |r| ==> r[i] != []
  {
    GreedyFrom(s, 0, chunkDays)
  }

  /** Cutting a run that has reached as far as it can moves it from the rest to the done. */
  lemma CutRun(done: seq<seq<Day>>, run: seq<Day>, s: seq<Day>, first: nat, chunkDays: int)
    requires first < |s| && first + |run| == Reach(s, first, first + 1, chunkDays)
    requires forall j :: first <= j < first + |run| ==> run[j - first] == s[j]
    ensures done + GreedyFrom(s, first, chunkDays) == (done + [run]) + GreedyFrom(s, first + |run|, chunkDays)
  {
    assert run == s[first..first + |run|];
  }

  /** The loop of `plan`: extend the current run, or cut it and start the next. */
  method SplitRuns(dates: seq<Day>, chunkDays: int) returns (runs: seq<seq<Day>>)
    requires dates != []
    ensures runs == Greedy(dates, chunkDays)
  {
    hide GreedyFrom;
    runs := [];
    var run := [dates[0]];
    ghost var first := 0;
    for i := 1 to |dates|
      invariant first < i && |run| == i - first
      invariant forall j :: first <= j < i ==> run[j - first] == dates[j]
      invariant Reach(dates, first, i, chunkDays) == Reach(dates, first, first + 1, chunkDays)
      invariant runs + GreedyFrom(dates, first, chunkDays) == Greedy(dates, chunkDays)
    {
      var d := dates[i];
      if d - run[0] >= chunkDays || d - run[|run| - 1] > MAX_STEP {
        CutRun(runs, run, dates, first, chunkDays);
        runs := runs + [run];
        run := [d];
        first := i;
      } else {
        run := run + [d];
      }
    }
    CutRun(runs, run, dates, first, chunkDays);
    runs := runs + [run];
    NothingLeft(dates, chunkDays);
  }

  lemma NothingLeft(s: seq<Day>, chunkDays: int)
    ensures GreedyFrom(s, |s|, chunkDays) == []
  {
  }

  /** What a chunk may be: not longer than the cap, and no wide hole inside. */
  ghost predicate Legal(run: seq<Day>, chunkDays: int) {
    && run != []
    && (|run| == 1 || run[|run| - 1] - run[0] < chunkDays)
    && forall i :: 0 < i < |run| ==> Near(run, i)
  }

  /** The limits of a chunk, in numbers. */
  lemma LegalExactly(run: seq<Day>, chunkDays: int)
    ensures Legal(run, chunkDays) <==>
      && run != [] && (|run| == 1 || run[|run| - 1] - run[0] < chunkDays)
      && forall i :: 0 < i < |run| ==> run[i] - run[i - 1] <= 5
  {
    if Legal(run, chunkDays) {
      forall i | 0 < i < |run| ensures run[i] - run[i - 1] <= 5 { assert Near(run, i); }
    }
  }

  ghost predicate Partition(p: seq<seq<Day>>, s: seq<Day>, chunkDays: int) {
    Flatten(p) == s && forall i :: 0 <= i < |p| ==> Legal(p[i], chunkDays)
  }

  lemma {:induction false} GreedyPartitions(s: seq<Day>, first: nat, chunkDays: int)
    requires first <= |s|
    ensures Partition(GreedyFrom(s, first, chunkDays), s[first..], chunkDays)
    decreases |s| - first
  {
    if first < |s| {
      var n := Reach(s, first, first + 1, chunkDays);
      GreedyPartitions(s, n, chunkDays);
      assert s[first..n] + s[n..] == s[first..];
      forall i | 0 < i < n - first ensures Near(s[first..n], i) {
        assert Joins(s, first, first + i, chunkDays);
      }
      assert first + 1 < n ==> Joins(s, first, n - 1, chunkDays);
    }
  }

  /** Greedy stays ahead: started inside a partitioned tail, it needs no more chunks. */
  lemma {:induction false} GreedyStaysAhead(s: seq<Day>, from: nat, k: nat, p: seq<seq<Day>>, chunkDays: int)
    requires Ascending(s) && from <= k <= |s| && Partition(p, s[from..], chunkDays)
    ensures |GreedyFrom(s, k, chunkDays)| <= |p|
    decreases |p|
  {
    if k < |s| {
      assert p != [];
      var m := from + |p[0]|;
      assert s[from..] == p[0] + Flatten(p[1..]);
      assert s[m..] == Flatten(p[1..]);
      if m <= k {
        GreedyStaysAhead(s, m, k, p[1..], chunkDays);
      } else {
        var n := Reach(s, k, k + 1, chunkDays);
        assert n < m ==> Near(p[0], n - from);
        assert p[0][0] == s[from] && p[0][|p[0]| - 1] == s[m - 1];
        assert m <= n;
        GreedyStaysAhead(s, m, n, p[1..], chunkDays);
      }
    }
  }

  /** No partition within the limits has fewer chunks. */
  lemma GreedyIsOptimal(s: seq<Day>, p: seq<seq<Day>>, chunkDays: int)
    requires Ascending(s) && Partition(p, s, chunkDays)
    ensures |Greedy(s, chunkDays)| <= |p|
  {
    assert s[0..] == s;
    GreedyStaysAhead(s, 0, 0, p, chunkDays);
  }

  /** Where the `i`-th greedy run of `s[first..]` begins. */
  function Cut(s: seq<Day>, first: nat, i: nat, chunkDays: int): (r: nat)
    requires first <= |s|
    ensures first <= r <= |s|
    decreases i
  {
    if i == 0 || first == |s| then first
    else Cut(s, Reach(s, first, first + 1, chunkDays), i - 1, chunkDays)
  }

  lemma {:induction false} RunAt(s: seq<Day>, first: nat, i: nat, chunkDays: int)
    requires first <= |s| && i < |GreedyFrom(s, first, chunkDays)|
    ensures var a, b := Cut(s, first, i, chunkDays), Cut(s, first, i + 1, chunkDays);
            a < b && GreedyFrom(s, first, chunkDays)[i] == s[a..b]
    decreases i
  {
    if i > 0 {
      RunAt(s, Reach(s, first, first + 1, chunkDays), i - 1, chunkDays);
    }
  }

  lemma {:induction false} CutsGrow(s: seq<Day>, first: nat, i: nat, j: nat, chunkDays: int)
    requires first <= |s| && i <= j
    ensures Cut(s, first, i, chunkDays) <= Cut(s, first, j, chunkDays)
    decreases i
  {
    if i > 0 && first < |s| {
      CutsGrow(s, Reach(s, first, first + 1, chunkDays), i - 1, j - 1, chunkDays);
    }
  }
}
