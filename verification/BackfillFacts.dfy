/** What a plan is, and what executing any part of it does to the claim table. */
module BackfillFacts {
  import opened Common
  import opened Days
  import opened Coverage
  import opened CoverageFacts
  import opened Chunking
  import opened Backfill

  // ------------------------------------------------------------ the plan
  function DaysOf(chunks: seq<Chunk>): seq<seq<Day>> {
    seq(|chunks|, i requires 0 <= i < |chunks| => chunks[i].days)
  }

  /** What a plan asks about: weekdays of the range not settled, with fewer than three tries or 20 hours at rest. */
  ghost predicate Wanted(t: Table, s: Series, start: Day, end: Day, now: int, d: Day) {
    var k := Key(Canon(s), d);
    && start <= d <= end && d % 7 < 5
    && (k in t ==>
          && (t[k].state == Failed || t[k].state == Unknown)
          && (t[k].attempts < 3 || RestEnds(t[k].checkedAt, 20 * 3600) <= now))
  }

  lemma AsksExactly(t: Table, s: Series, start: Day, end: Day, now: int, d: Day)
    ensures Asks(t, Canon(s), PlanQuery(start, end, now), d) <==> Wanted(t, s, start, end, now, d)
  {
    hide Open;
    OpenExactly(t, Canon(s), PlanQuery(start, end, now), d);
  }

  /** The days a plan is cut from: the wanted weekdays, or the newest of them. */
  lemma MissingFacts(t: Table, s: Series, start: Day, end: Day, now: int)
    ensures var m := Missing(t, s, start, end, now);
            && Ascending(m)
            && (forall d :: d in m ==> Wanted(t, s, start, end, now, d))
            && (|m| < 5000 ==> forall d :: Wanted(t, s, start, end, now, d) ==> d in m)
            && (forall d :: Wanted(t, s, start, end, now, d) && d !in m ==>
                  |m| == 5000 && forall x :: x in m ==> d < x)
  {
    hide Wanted, Asks, Gaps, Missing;
    MissingAsks(t, s, start, end, now);
    forall d ensures Asks(t, Canon(s), PlanQuery(start, end, now), d) <==> Wanted(t, s, start, end, now, d) {
      AsksExactly(t, s, start, end, now, d);
    }
  }

  /** The same days in terms of the query that `plan` makes. */
  lemma MissingAsks(t: Table, s: Series, start: Day, end: Day, now: int)
    ensures var m := Missing(t, s, start, end, now);
            && Ascending(m)
            && (forall d :: d in m ==> Asks(t, Canon(s), PlanQuery(start, end, now), d))
            && (|m| < DEFAULT_LIMIT ==> forall d :: Asks(t, Canon(s), PlanQuery(start, end, now), d) ==> d in m)
            && (forall d :: Asks(t, Canon(s), PlanQuery(start, end, now), d) && d !in m ==>
                  |m| == DEFAULT_LIMIT && forall x :: x in m ==> d < x)
            && m == Reverse(Gaps(t, Canon(s), PlanQuery(start, end, now)))
  {
    var g := Gaps(t, Canon(s), PlanQuery(start, end, now));
    GapsExact(t, Canon(s), PlanQuery(start, end, now));
    SortedDescending(g);
    forall d ensures d in Reverse(g) <==> d in g { ReverseMember(g, d); }
  }

  /** `max_chunks` keeps the newest chunks, and they hold exactly the last missing days. */
  lemma PlanIsANewestSuffix(s: Series, m: seq<Day>, chunkDays: int, maxChunks: int) returns (k: nat)
    requires Ascending(m)
    ensures var plan := PlanFrom(s, m, chunkDays, maxChunks);
            && k <= |m|
            && Flatten(DaysOf(Reverse(plan))) == m[k..]
            && (|plan| == |Greedy(m, chunkDays)| ==> k == 0)
            && (0 < maxChunks ==> (plan == [] <==> m == []))
  {
    var plan := PlanFrom(s, m, chunkDays, maxChunks);
    var runs := Greedy(m, chunkDays);
    GreedyIsWhole(m, chunkDays);
    PlanIndex(s, m, chunkDays, maxChunks);
    var j := |runs| - |plan|;
    assert DaysOf(Reverse(plan)) == runs[j..];
    assert runs == runs[..j] + runs[j..];
    FlattenAppend(runs[..j], runs[j..]);
    k := |Flatten(runs[..j])|;
  }

  /**
   * `max_chunks` is what cuts a plan: up to that many chunks, and all days unless there are that many. A negative
   * number drops that many chunks from the old end, as a Python slice does, or all when there are fewer.
   */
  lemma PlanSize(t: Table, s: Series, start: Day, end: Day, chunkDays: int, maxChunks: int, now: int)
    ensures var plan, m := PlanOf(t, s, start, end, chunkDays, maxChunks, now), Missing(t, s, start, end, now);
            var runs := Greedy(m, chunkDays);
            && (0 <= maxChunks ==> |plan| == Min(maxChunks, |runs|))
            && (0 <= maxChunks && |plan| < maxChunks ==> Flatten(DaysOf(Reverse(plan))) == m)
            && (maxChunks < 0 ==> |plan| == Max(0, |runs| + maxChunks))
            && |plan| <= |runs| && Flatten(DaysOf(Reverse(plan))) == Flatten(runs[|runs| - |plan|..])
  {
    hide Missing, Greedy;
    var plan, m := PlanOf(t, s, start, end, chunkDays, maxChunks, now), Missing(t, s, start, end, now);
    var runs := Greedy(m, chunkDays);
    GreedyIsWhole(m, chunkDays);
    PlanIndex(s, m, chunkDays, maxChunks);
    assert DaysOf(Reverse(plan)) == runs[|runs| - |plan|..];
    assert runs[0..] == runs;
  }

  lemma GreedyIsWhole(m: seq<Day>, chunkDays: int)
    ensures Flatten(Greedy(m, chunkDays)) == m
  {
    GreedyPartitions(m, 0, chunkDays);
    assert m[0..] == m;
  }

  /** Earlier chunks hold later days. */
  ghost predicate NewestFirst(chunks: seq<Chunk>) {
    forall i, j, x, y :: 0 <= i < j < |chunks| && x in chunks[i].days && y in chunks[j].days ==> x > y
  }

  /** A planned chunk is a stretch of the missing days, legal, and named by its ends. */
  ghost predicate Stretch(c: Chunk, s: Series, m: seq<Day>, chunkDays: int) {
    && c.series == s && Legal(c.days, chunkDays) && Ascending(c.days)
    && c.start == c.days[0] && c.end == c.days[|c.days| - 1]
    && forall d :: d in c.days ==> d in m
  }

  lemma PlanIndex(s: Series, m: seq<Day>, chunkDays: int, maxChunks: int)
    ensures var plan, runs := PlanFrom(s, m, chunkDays, maxChunks), Greedy(m, chunkDays);
            && |plan| <= |runs|
            && forall i :: 0 <= i < |plan| ==> plan[i] == MakeChunk(s, runs[|runs| - 1 - i])
  {
    hide Greedy, GreedyFrom;
  }

  lemma SliceMember(m: seq<Day>, a: nat, b: nat, d: Day) returns (x: nat)
    requires a <= b <= |m| && d in m[a..b]
    ensures a <= x < b && m[x] == d
  {
    var i :| 0 <= i < b - a && m[a..b][i] == d;
    x := a + i;
  }

  lemma PlanChunk(s: Series, m: seq<Day>, chunkDays: int, maxChunks: int, i: nat) returns (a: nat, b: nat)
    requires Ascending(m) && i < |PlanFrom(s, m, chunkDays, maxChunks)|
    ensures var c := PlanFrom(s, m, chunkDays, maxChunks)[i];
            && Stretch(c, s, m, chunkDays)
            && a < b <= |m| && c.days == m[a..b]
            && a == Cut(m, 0, |Greedy(m, chunkDays)| - 1 - i, chunkDays)
            && b == Cut(m, 0, |Greedy(m, chunkDays)| - i, chunkDays)
  {
    hide GreedyFrom, PlanFrom, Cut;
    var runs := Greedy(m, chunkDays);
    var j := |runs| - 1 - i;
    PlanIndex(s, m, chunkDays, maxChunks);
    RunAt(m, 0, j, chunkDays);
    GreedyPartitions(m, 0, chunkDays);
    a, b := Cut(m, 0, j, chunkDays), Cut(m, 0, j + 1, chunkDays);
    assert Legal(runs[j], chunkDays);
    forall d | d in m[a..b] ensures d in m {
      var x := SliceMember(m, a, b, d);
    }
  }

  lemma PlanChunks(s: Series, m: seq<Day>, chunkDays: int, maxChunks: int)
    requires Ascending(m)
    ensures var plan := PlanFrom(s, m, chunkDays, maxChunks);
            (forall i :: 0 <= i < |plan| ==> Stretch(plan[i], s, m, chunkDays)) && NewestFirst(plan)
  {
    hide GreedyFrom, Greedy, PlanFrom, Cut, Stretch;
    var plan := PlanFrom(s, m, chunkDays, maxChunks);
    var n := |Greedy(m, chunkDays)|;
    PlanIndex(s, m, chunkDays, maxChunks);
    forall i | 0 <= i < |plan| ensures Stretch(plan[i], s, m, chunkDays) {
      var _, _ := PlanChunk(s, m, chunkDays, maxChunks, i);
    }
    forall i, j, x, y | 0 <= i < j < |plan| && x in plan[i].days && y in plan[j].days ensures x > y {
      var a, b := PlanChunk(s, m, chunkDays, maxChunks, i);
      var a', b' := PlanChunk(s, m, chunkDays, maxChunks, j);
      CutsGrow(m, 0, n - j, n - 1 - i, chunkDays);
      var u := SliceMember(m, a, b, x);
      var v := SliceMember(m, a', b', y);
    }
  }

  /** All days of a list of chunks, in the order they run. */
  function PlanDays(chunks: seq<Chunk>): seq<Day> {
    if chunks == [] then [] else PlanDays(chunks[..|chunks| - 1]) + chunks[|chunks| - 1].days
  }

  lemma {:induction false} PlanDaysFrom(chunks: seq<Chunk>, d: Day) returns (i: nat)
    requires d in PlanDays(chunks)
    ensures i < |chunks| && d in chunks[i].days
  {
    i := |chunks| - 1;
    if d !in chunks[i].days {
      i := PlanDaysFrom(chunks[..|chunks| - 1], d);
    }
  }

  lemma {:induction false} PlanDaysDistinct(chunks: seq<Chunk>)
    requires NewestFirst(chunks) && forall i :: 0 <= i < |chunks| ==> Ascending(chunks[i].days)
    ensures Distinct(PlanDays(chunks))
  {
    if chunks != [] {
      var front, last := chunks[..|chunks| - 1], chunks[|chunks| - 1];
      PlanDaysDistinct(front);
      var done := PlanDays(front);
      forall i, j | 0 <= i < |done| && 0 <= j < |last.days| ensures done[i] != last.days[j] {
        var a := PlanDaysFrom(front, done[i]);
        assert done[i] in chunks[a].days && last.days[j] in chunks[|chunks| - 1].days;
      }
    }
  }

  // ------------------------------------------------------------ marks, once each
  function ClaimDays(cs: seq<Claim>): seq<Day> {
    seq(|cs|, i requires 0 <= i < |cs| => cs[i].key.day)
  }

  ghost predicate OfSeries(cs: seq<Claim>, s: Series) {
    forall i :: 0 <= i < |cs| ==> cs[i].key.series == s
  }

  /** Marks with different days: each changes its own row, from what the row was, and no other. */
  lemma {:induction false} OnceEach(t: Table, s: Series, cs: seq<Claim>, k: Key)
    requires OfSeries(cs, s) && Distinct(ClaimDays(cs))
    ensures var after := MarkAll(t, cs);
            (forall i :: 0 <= i < |cs| ==> cs[i].key != k) ==>
              (k in after <==> k in t) && (k in t ==> after[k] == t[k])
    ensures forall i :: 0 <= i < |cs| && cs[i].key == k ==>
              && k in MarkAll(t, cs)
              && MarkAll(t, cs)[k].state == Effective(MarkAll(t, cs[..i]), cs[i])
              && MarkAll(t, cs)[k].checkedAt == cs[i].at
              && MarkAll(t, cs)[k].attempts ==
                 if Settled(MarkAll(t, cs)[k].state) then 0 else (if k in t then t[k].attempts else 0) + 1
  {
    if cs != [] {
      var front := cs[..|cs| - 1];
      assert forall i :: 0 <= i < |front| ==> ClaimDays(front)[i] == ClaimDays(cs)[i] && front[i] == cs[i];
      OnceEach(t, s, front, k);
      forall i | 0 <= i < |front| && cs[i].key == k ensures front[..i] == cs[..i] && cs[|front|].key != k {
        assert ClaimDays(cs)[i] != ClaimDays(cs)[|front|];
      }
      if cs[|front|].key == k {
        assert cs[..|front|] == front;
      }
    }
  }

  lemma VerdictDays(t: Table, c: Chunk, r: Reply)
    ensures var cs := Verdict(t, c, r);
            && OfSeries(cs, Canon(c.series)) && ClaimDays(cs) == c.days
            && forall i :: 0 <= i < |cs| ==> cs[i].at == r.at
  {
  }

  ghost predicate AnsweredAt(replies: seq<Reply>, at: int) {
    exists j :: 0 <= j < |replies| && replies[j].at == at
  }

  /** Exactly which answer settles a day, and how. */
  lemma VerdictMeaning(t: Table, c: Chunk, r: Reply, i: nat)
    requires i < |c.days|
    ensures var s, d := Canon(c.series), c.days[i];
            var state := Verdict(t, c, r)[i].state;
            var answered := !OutsideWindow(c, r.today) && r.answer.Rows?;
            && (state == Have <==> answered && Some(d) in r.answer.stamps)
            && (state == Absent <==> answered && Some(d) !in r.answer.stamps && Outright(s)
                                     && (r.answer.stamps != [] || HasOlder(t, s, c.start)))
            && (state == Failed <==> !OutsideWindow(c, r.today) && r.answer.Raised?)
            && Verdict(t, c, r)[i].rows == if state == Have then 1 else 0
  {
    if r.answer.Rows? {
      assert c.days[i] in DaysIn(r.answer.stamps) <==> Some(c.days[i]) in r.answer.stamps;
    }
  }

  /** What is asked of onclick: never before its 180 days, never today; of anyone else, the chunk as it stands. */
  lemma AskedExactly(c: Chunk, today: Day, d: Day)
    ensures var (lo, hi) := Asked(c, today);
            lo <= d <= hi <==>
              c.start <= d <= c.end && (c.series.provider == Onclick ==> today - 180 <= d <= today - 1)
    ensures OutsideWindow(c, today) <==>
      c.series.provider == Onclick && (c.end < c.start || c.end < today - 180 || today - 1 < c.start)
  {
  }

  /** Which report a chunk gives, and with which numbers. */
  lemma ReportMeaning(t: Table, c: Chunk, r: Reply)
    ensures var report, outside := ReportOf(t, c, r), OutsideWindow(c, r.today);
            && (report == Skipped <==> outside)
            && (report == FetchFailed <==> !outside && r.answer.Raised?)
            && (report.EmptyWindow? <==> !outside && r.answer == Rows([]) && !HasOlder(t, Canon(c.series), c.start))
            && (report.EmptyWindow? ==> report.unknown == |c.days|)
            && (report.Done? ==> report.rows == |r.answer.stamps|)
  {
    hide HasOlder, OutsideWindow, Canon;
  }

  /** One report per executed chunk, each on the table the chunks before it left. */
  lemma {:induction false} ReportsInOrder(t: Table, chunks: seq<Chunk>, replies: seq<Reply>, i: nat)
    requires |replies| <= |chunks| && i < |replies|
    ensures |RunReports(t, chunks, replies)| == |replies|
    ensures RunReports(t, chunks, replies)[i] == ReportOf(RunTable(t, chunks, replies[..i]), chunks[i], replies[i])
  {
    hide ReportOf, Verdict;
    var n := |replies| - 1;
    if i < n {
      assert replies[..n][..i] == replies[..i];
      ReportsInOrder(t, chunks, replies[..n], i);
    } else if n > 0 {
      ReportsInOrder(t, chunks, replies[..n], 0);
    }
  }

  /** The report of an answered chunk counts what the table now holds: nothing was downgraded. */
  lemma ReportIsTheTable(t: Table, c: Chunk, r: Reply)
    requires Distinct(c.days) && ReportOf(t, c, r).Done?
    ensures var s := Canon(c.series);
            var cs := Verdict(t, c, r);
            var after := MarkAll(t, cs);
            && ReportOf(t, c, r).have + ReportOf(t, c, r).absent + ReportOf(t, c, r).unknown == |c.days|
            && forall i :: 0 <= i < |cs| ==> cs[i].key in after && after[cs[i].key].state == cs[i].state
  {
    var s := Canon(c.series);
    var cs := Verdict(t, c, r);
    hide MarkAll, HasOlder;
    VerdictDays(t, c, r);
    forall i | 0 <= i < |cs| ensures cs[i].key in MarkAll(t, cs) && MarkAll(t, cs)[cs[i].key].state == cs[i].state {
      OnceEach(t, s, cs, cs[i].key);
    }
    CountsCover(cs);
  }

  lemma {:induction false} CountsCover(cs: seq<Claim>)
    requires forall i :: 0 <= i < |cs| ==> cs[i].state != Failed
    ensures Count(cs, Have) + Count(cs, Absent) + Count(cs, Unknown) == |cs|
  {
    if cs != [] {
      CountsCover(cs[..|cs| - 1]);
    }
  }

  /** A run marks the days of its executed chunks, each as often as the chunks name it, in order. */
  lemma {:induction false} RunClaimDays(t: Table, s: Series, chunks: seq<Chunk>, replies: seq<Reply>)
    requires |replies| <= |chunks| && forall i :: 0 <= i < |chunks| ==> chunks[i].series == s
    ensures var cs := RunClaims(t, chunks, replies);
            && OfSeries(cs, Canon(s))
            && ClaimDays(cs) == PlanDays(chunks[..|replies|])
            && forall i :: 0 <= i < |cs| ==> AnsweredAt(replies, cs[i].at)
  {
    hide Verdict, RunTable, Canon;
    if replies != [] {
      var n := |replies| - 1;
      RunClaimDays(t, s, chunks, replies[..n]);
      VerdictDays(RunTable(t, chunks, replies[..n]), chunks[n], replies[n]);
      assert chunks[..n + 1][..n] == chunks[..n];
      var cs := RunClaims(t, chunks, replies);
      var before := RunClaims(t, chunks, replies[..n]);
      forall i | 0 <= i < |cs| ensures AnsweredAt(replies, cs[i].at) {
        if i < |before| {
          var j :| 0 <= j < n && replies[..n][j].at == before[i].at;
          assert replies[j].at == cs[i].at;
        } else {
          assert replies[n].at == cs[i].at;
        }
      }
    }
  }

  /** Marks of one series with different days change the rows of those days and nothing else. */
  lemma OnlyTheirRows(t: Table, s: Series, cs: seq<Claim>)
    requires OfSeries(cs, s) && Distinct(ClaimDays(cs))
    ensures var after := MarkAll(t, cs);
            && (forall k :: k in after && (k.series != s || k.day !in ClaimDays(cs)) ==> k in t && after[k] == t[k])
            && (forall k :: k in t && (k.series != s || k.day !in ClaimDays(cs)) ==> k in after && after[k] == t[k])
            && (forall d :: d in ClaimDays(cs) ==> Key(s, d) in after)
  {
    hide MarkAll, Effective;
    forall i | 0 <= i < |cs| ensures cs[i].key.day in ClaimDays(cs) {
      assert ClaimDays(cs)[i] == cs[i].key.day;
    }
    forall k: Key
      ensures k.series != s || k.day !in ClaimDays(cs) ==>
                (k in MarkAll(t, cs) <==> k in t) && (k in t ==> MarkAll(t, cs)[k] == t[k])
    {
      OnceEach(t, s, cs, k);
    }
    forall d | d in ClaimDays(cs) ensures Key(s, d) in MarkAll(t, cs) {
      var i :| 0 <= i < |cs| && ClaimDays(cs)[i] == d;
      assert cs[i].key == Key(s, d);
      OnceEach(t, s, cs, Key(s, d));
    }
  }

  // ------------------------------------------------------------ one run of a fresh plan
  /** Any part of a plan asks about open days of its range, each once. */
  lemma RunAsksOpenDays(t: Table, s: Series, start: Day, end: Day, chunkDays: int, maxChunks: int,
                        now: int, replies: seq<Reply>)
    requires |replies| <= |PlanOf(t, s, start, end, chunkDays, maxChunks, now)|
    ensures var plan := PlanOf(t, s, start, end, chunkDays, maxChunks, now);
            var cs := RunClaims(t, plan, replies);
            && OfSeries(cs, Canon(s)) && Distinct(ClaimDays(cs))
            && ClaimDays(cs) == PlanDays(plan[..|replies|])
            && (forall i :: 0 <= i < |cs| ==> AnsweredAt(replies, cs[i].at))
            && forall d :: d in ClaimDays(cs) ==> Asks(t, Canon(s), PlanQuery(start, end, now), d)
  {
    hide RunClaims, RunTable, PlanFrom, Missing, PlanDays, Asks, PlanQuery;
    var plan := PlanOf(t, s, start, end, chunkDays, maxChunks, now);
    var part := plan[..|replies|];
    MissingAsks(t, s, start, end, now);
    PlanChunks(s, Missing(t, s, start, end, now), chunkDays, maxChunks);
    RunClaimDays(t, s, plan, replies);
    PlanDaysDistinct(part);
    forall d | d in PlanDays(part) ensures Asks(t, Canon(s), PlanQuery(start, end, now), d) {
      var i := PlanDaysFrom(part, d);
      assert Stretch(plan[i], s, Missing(t, s, start, end, now), chunkDays);
    }
  }

  /** Executing any part of a plan made from the current table marks each executed day exactly
      once and nothing else, and never touches a period that is already `Have` or `Absent`. */
  lemma RunTouchesOnlyItsPlan(t: Table, s: Series, start: Day, end: Day, chunkDays: int, maxChunks: int,
                              now: int, replies: seq<Reply>)
    requires |replies| <= |PlanOf(t, s, start, end, chunkDays, maxChunks, now)|
    ensures var plan := PlanOf(t, s, start, end, chunkDays, maxChunks, now);
            var done := PlanDays(plan[..|replies|]);
            var after := RunTable(t, plan, replies);
            && ClaimDays(RunClaims(t, plan, replies)) == done && Distinct(done)
            && (forall d :: d in done ==> Key(Canon(s), d) in after)
            && (forall k :: k in after && (k.series != Canon(s) || k.day !in done) ==> k in t && after[k] == t[k])
            && (forall k :: k in t && (Settled(t[k].state) || k.series != Canon(s) || k.day !in done) ==>
                              k in after && after[k] == t[k])
  {
    var plan := PlanOf(t, s, start, end, chunkDays, maxChunks, now);
    hide RunClaims, RunTable, PlanOf, PlanDays, MarkAll;
    RunAsksOpenDays(t, s, start, end, chunkDays, maxChunks, now, replies);
    RunIsItsClaims(t, plan, replies);
    OnlyTheirRows(t, Canon(s), RunClaims(t, plan, replies));
  }

  /** No plan ever holds a settled day: what a run settles is never asked about again. */
  lemma PlansAvoidSettled(t: Table, s: Series, start: Day, end: Day, chunkDays: int, maxChunks: int, now: int)
    ensures forall c, d :: c in PlanOf(t, s, start, end, chunkDays, maxChunks, now) && d in c.days ==>
              Key(Canon(s), d) in t ==> !Settled(t[Key(Canon(s), d)].state)
  {
    MissingAsks(t, s, start, end, now);
    PlanChunks(s, Missing(t, s, start, end, now), chunkDays, maxChunks);
  }
}
