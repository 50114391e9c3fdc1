/** The backfill: a work list recomputed from coverage, and the verdict each answer earns. */
module Backfill {
  import opened Common
  import opened Days
  import opened Coverage
  import opened Chunking

  const WINDOW_DAYS := 180

  datatype Chunk = Chunk(series: Series, start: Day, end: Day, days: seq<Day>)

  /** What a provider sends back; a row without a usable timestamp is `None`. */
  datatype Answer = Raised | Rows(stamps: seq<Option<Day>>)

  /** An answer together with the clock it was taken under. */
  datatype Reply = Reply(answer: Answer, today: Day, at: int)

  datatype Report =
    | Skipped
    | FetchFailed
    | EmptyWindow(unknown: nat)
    | Done(rows: nat, have: nat, absent: nat, unknown: nat)

  // ------------------------------------------------------------ plan
  function PlanQuery(start: Day, end: Day, now: int): Query {
    Query(start, end, DEFAULT_LIMIT, false, 0, true, MAX_ATTEMPTS, now)
  }

  function MakeChunk(s: Series, run: seq<Day>): Chunk
    requires run != []
  {
    Chunk(s, run[0], run[|run| - 1], run)
  }

  function MakeChunks(s: Series, runs: seq<seq<Day>>): (r: seq<Chunk>)
    requires forall i :: 0 <= i < |runs| ==> runs[i] != []
  {
    seq(|runs|, i requires 0 <= i < |runs| => MakeChunk(s, runs[i]))
  }

  /** The days a plan is cut from, oldest first. */
  function Missing(t: Table, s: Series, start: Day, end: Day, now: int): seq<Day> {
    Sorted(Gaps(t, Canon(s), PlanQuery(start, end, now)))
  }

  /** The work list cut from `m`: greedy runs, newest first, the first `maxChunks` of them. */
  function PlanFrom(s: Series, m: seq<Day>, chunkDays: int, maxChunks: int): seq<Chunk> {
    Slice(Reverse(MakeChunks(s, Greedy(m, chunkDays))), maxChunks)
  }

  function PlanOf(t: Table, s: Series, start: Day, end: Day, chunkDays: int, maxChunks: int, now: int): seq<Chunk> {
    PlanFrom(s, Missing(t, s, start, end, now), chunkDays, maxChunks)
  }

  method Plan(ledger: Ledger, s: Series, start: Day, end: Day, chunkDays: int, maxChunks: int, now: int)
    returns (plan: seq<Chunk>)
    ensures plan == PlanOf(ledger.table, s, start, end, chunkDays, maxChunks, now)
  {
    var missing := ledger.FindGaps(s, PlanQuery(start, end, now));
    if missing == [] {
      return [];
    }
    SortedLength(missing);
    var runs := SplitRuns(Sorted(missing), chunkDays);
    plan := Slice(Reverse(MakeChunks(s, runs)), maxChunks);
  }

  lemma SortedLength(s: seq<Day>)
    ensures |Sorted(s)| == |s|
  {
    if s != [] {
      SortedLength(s[1..]);
      InsertLength(s[0], Sorted(s[1..]));
    }
  }

  lemma InsertLength(d: Day, s: seq<Day>)
    ensures |Insert(d, s)| == |s| + 1
  {
  }

  /** How many periods are still unsettled, counted past the plan's own limit. */
  method Remaining(ledger: Ledger, s: Series, start: Day, end: Day, now: int) returns (n: nat)
    ensures n == |Gaps(ledger.table, Canon(s), PlanQuery(start, end, now).(limit := 10_000_000))|
  {
    var out := ledger.FindGaps(s, PlanQuery(start, end, now).(limit := 10_000_000));
    n := |out|;
  }

  // ------------------------------------------------------------ one chunk
  /** `onclick.clamp`: the range trimmed to the provider's rolling window. */
  function Clamp(start: Day, end: Day, today: Day): (Day, Day) {
    (Max(start, today - WINDOW_DAYS), Min(end, today - 1))
  }

  /** The range actually asked for, decided at execution. */
  function Asked(c: Chunk, today: Day): (Day, Day) {
    if c.series.provider == Onclick then Clamp(c.start, c.end, today) else (c.start, c.end)
  }

  predicate OutsideWindow(c: Chunk, today: Day) {
    c.series.provider == Onclick && Asked(c, today).1 < Asked(c, today).0
  }

  function DaysIn(stamps: seq<Option<Day>>): set<Day> {
    set x | x in stamps && x.Some? :: x.value
  }

  function AllClaims(s: Series, days: seq<Day>, state: State, at: int): seq<Claim> {
    seq(|days|, i requires 0 <= i < |days| => Claim(Key(s, days[i]), state, 0, at))
  }

  /** The marks one executed chunk makes, in order. */
  function Verdict(t: Table, c: Chunk, r: Reply): seq<Claim> {
    var s := Canon(c.series);
    if OutsideWindow(c, r.today) then AllClaims(s, c.days, Unknown, r.at)
    else if r.answer.Raised? then AllClaims(s, c.days, Failed, r.at)
    else if r.answer.stamps == [] && !HasOlder(t, s, c.start) then AllClaims(s, c.days, Unknown, r.at)
    else FetchClaims(s, c.days, DaysIn(r.answer.stamps), r.at)
  }

  function ReportOf(t: Table, c: Chunk, r: Reply): Report {
    if OutsideWindow(c, r.today) then Skipped
    else if r.answer.Raised? then FetchFailed
    else if r.answer.stamps == [] && !HasOlder(t, Canon(c.series), c.start) then EmptyWindow(|c.days|)
    else
      var claims := Verdict(t, c, r);
      Done(|r.answer.stamps|, Count(claims, Have), Count(claims, Absent), Count(claims, Unknown))
  }

  method MarkEach(ledger: Ledger, c: Chunk, state: State, at: int)
    requires state != Absent
    modifies ledger
    ensures ledger.history == old(ledger.history) + AllClaims(Canon(c.series), c.days, state, at)
    ensures ledger.table == MarkAll(old(ledger.table), AllClaims(Canon(c.series), c.days, state, at))
  {
    ghost var claims: seq<Claim> := [];
    for i := 0 to |c.days|
      invariant claims == AllClaims(Canon(c.series), c.days[..i], state, at)
      invariant ledger.history == old(ledger.history) + claims
      invariant ledger.table == MarkAll(old(ledger.table), claims)
    {
      ledger.Mark(c.series, c.days[i], state, 0, at);
      MarkAllSnoc(old(ledger.table), claims, Claim(Key(Canon(c.series), c.days[i]), state, 0, at));
      claims := claims + [Claim(Key(Canon(c.series), c.days[i]), state, 0, at)];
    }
    assert c.days[..|c.days|] == c.days;
  }

  lemma NoClaims(t: Table)
    ensures MarkAll(t, []) == t && forall s :: Count([], s) == 0
  {
  }

  method RunOne(ledger: Ledger, c: Chunk, fetch: (Day, Day) -> Answer, today: Day, at: int)
    returns (report: Report)
    modifies ledger
    ensures var r := Reply(fetch(Asked(c, today).0, Asked(c, today).1), today, at);
            && ledger.history == old(ledger.history) + Verdict(old(ledger.table), c, r)
            && ledger.table == MarkAll(old(ledger.table), Verdict(old(ledger.table), c, r))
            && report == ReportOf(old(ledger.table), c, r)
  {
    var start, end := c.start, c.end;
    if c.series.provider == Onclick {
      var trimmed := Clamp(start, end, today);
      start, end := trimmed.0, trimmed.1;
      if end < start {
        MarkEach(ledger, c, Unknown, at);
        return Skipped;
      }
    }
    var answer := fetch(start, end);
    if answer.Raised? {
      MarkEach(ledger, c, Failed, at);
      return FetchFailed;
    }
    var got := DaysIn(answer.stamps);
    if answer.stamps == [] && !HasOlder(ledger.table, Canon(c.series), c.start) {
      MarkEach(ledger, c, Unknown, at);
      return EmptyWindow(|c.days|);
    }
    report := SettleDays(ledger, c, got, |answer.stamps|, at);
  }

  /** The last branch of `run_one`: every day of an answered chunk, one by one. */
  method SettleDays(ledger: Ledger, c: Chunk, got: set<Day>, rows: nat, at: int) returns (report: Report)
    modifies ledger
    ensures var claims := FetchClaims(Canon(c.series), c.days, got, at);
            && ledger.history == old(ledger.history) + claims
            && ledger.table == MarkAll(old(ledger.table), claims)
            && report == Done(rows, Count(claims, Have), Count(claims, Absent), Count(claims, Unknown))
  {
    hide MarkAll, Marked, Count, Canon;
    var have, absent, unknown := 0, 0, 0;
    ghost var claims: seq<Claim> := [];
    NoClaims(ledger.table);
    for i := 0 to |c.days|
      invariant claims == FetchClaims(Canon(c.series), c.days[..i], got, at)
      invariant ledger.history == old(ledger.history) + claims
      invariant ledger.table == MarkAll(old(ledger.table), claims)
      invariant have == Count(claims, Have)
      invariant absent == Count(claims, Absent)
      invariant unknown == Count(claims, Unknown)
    {
      MarkAllSnoc(old(ledger.table), claims, DayClaim(Canon(c.series), c.days[i], got, at));
      CountSnoc(claims, DayClaim(Canon(c.series), c.days[i], got, at));
      var claim := ledger.MarkDay(c.series, c.days[i], got, at);
      match claim {
        case Have => have := have + 1;
        case Absent => absent := absent + 1;
        case _ => unknown := unknown + 1;
      }
      claims := claims + [DayClaim(Canon(c.series), c.days[i], got, at)];
    }
    assert c.days[..|c.days|] == c.days;
    report := Done(rows, have, absent, unknown);
  }

  // ------------------------------------------------------------ a run
  /** The world a run meets: the answer, day and second of each step, and the stop signal. */
  datatype World = World(fetch: (nat, Day, Day) -> Answer, today: nat -> Day, clock: nat -> int, stop: nat -> bool)

  function ReplyAt(w: World, i: nat, c: Chunk): Reply {
    Reply(w.fetch(i, Asked(c, w.today(i)).0, Asked(c, w.today(i)).1), w.today(i), w.clock(i))
  }

  /** What the first `n` chunks were answered. */
  function Replies(w: World, chunks: seq<Chunk>, n: nat): seq<Reply>
    requires n <= |chunks|
  {
    seq(n, i requires 0 <= i < n => ReplyAt(w, i, chunks[i]))
  }

  /** The table after the first `|replies|` chunks. */
  function RunTable(t: Table, chunks: seq<Chunk>, replies: seq<Reply>): Table
    requires |replies| <= |chunks|
  {
    if replies == [] then t
    else
      var n := |replies| - 1;
      var before := RunTable(t, chunks, replies[..n]);
      MarkAll(before, Verdict(before, chunks[n], replies[n]))
  }

  /** Everything they marked, chunk after chunk. */
  function RunClaims(t: Table, chunks: seq<Chunk>, replies: seq<Reply>): seq<Claim>
    requires |replies| <= |chunks|
  {
    if replies == [] then []
    else
      var n := |replies| - 1;
      RunClaims(t, chunks, replies[..n])
      + Verdict(RunTable(t, chunks, replies[..n]), chunks[n], replies[n])
  }

  function RunReports(t: Table, chunks: seq<Chunk>, replies: seq<Reply>): seq<Report>
    requires |replies| <= |chunks|
  {
    if replies == [] then []
    else
      var n := |replies| - 1;
      var before := RunTable(t, chunks, replies[..n]);
      RunReports(t, chunks, replies[..n]) + [ReportOf(before, chunks[n], replies[n])]
  }

  /** A run so far: `replies` of its chunks are in the table and in the history. */
  ghost predicate Reached(ledger: Ledger, t: Table, h: seq<Claim>, chunks: seq<Chunk>, replies: seq<Reply>)
    requires |replies| <= |chunks|
    reads ledger
  {
    && ledger.table == RunTable(t, chunks, replies)
    && ledger.history == h + RunClaims(t, chunks, replies)
  }

  method RunNext(ledger: Ledger, chunks: seq<Chunk>, w: World, i: nat, ghost t: Table, ghost h: seq<Claim>)
    returns (report: Report)
    requires i < |chunks| && Reached(ledger, t, h, chunks, Replies(w, chunks, i))
    modifies ledger
    ensures Reached(ledger, t, h, chunks, Replies(w, chunks, i + 1))
    ensures RunReports(t, chunks, Replies(w, chunks, i + 1))
         == RunReports(t, chunks, Replies(w, chunks, i)) + [report]
  {
    hide Verdict, MarkAll, ReportOf, RunTable, RunClaims, RunReports;
    report := RunOne(ledger, chunks[i], (a, b) => w.fetch(i, a, b), w.today(i), w.clock(i));
    RunSnoc(t, chunks, Replies(w, chunks, i), ReplyAt(w, i, chunks[i]));
    assert Replies(w, chunks, i + 1) == Replies(w, chunks, i) + [ReplyAt(w, i, chunks[i])];
  }

  /** Work the list until it ends or `stop` says so; what was done stays done. */
  method Run(ledger: Ledger, chunks: seq<Chunk>, w: World) returns (stopped: bool, results: seq<Report>)
    modifies ledger
    ensures |results| <= |chunks| && (stopped <==> |results| < |chunks|)
    ensures stopped ==> w.stop(|results|)
    ensures forall i :: 0 <= i < |results| ==> !w.stop(i)
    ensures var replies := Replies(w, chunks, |results|);
            && Reached(ledger, old(ledger.table), old(ledger.history), chunks, replies)
            && results == RunReports(old(ledger.table), chunks, replies)
  {
    hide Verdict, MarkAll, ReportOf, ReplyAt;
    results := [];
    for i := 0 to |chunks|
      invariant |results| == i
      invariant forall j :: 0 <= j < i ==> !w.stop(j)
      invariant Reached(ledger, old(ledger.table), old(ledger.history), chunks, Replies(w, chunks, i))
      invariant results == RunReports(old(ledger.table), chunks, Replies(w, chunks, i))
    {
      if w.stop(i) {
        return true, results;
      }
      var report := RunNext(ledger, chunks, w, i, old(ledger.table), old(ledger.history));
      results := results + [report];
    }
    stopped := false;
  }

  lemma RunSnoc(t: Table, chunks: seq<Chunk>, replies: seq<Reply>, r: Reply)
    requires |replies| < |chunks|
    ensures var before, c := RunTable(t, chunks, replies), chunks[|replies|];
            && RunTable(t, chunks, replies + [r]) == MarkAll(before, Verdict(before, c, r))
            && RunClaims(t, chunks, replies + [r]) == RunClaims(t, chunks, replies) + Verdict(before, c, r)
            && RunReports(t, chunks, replies + [r]) == RunReports(t, chunks, replies) + [ReportOf(before, c, r)]
  {
    assert (replies + [r])[..|replies|] == replies;
  }

  /** A run is one list of marks applied in order. */
  lemma {:induction false} RunIsItsClaims(t: Table, chunks: seq<Chunk>, replies: seq<Reply>)
    requires |replies| <= |chunks|
    ensures RunTable(t, chunks, replies) == MarkAll(t, RunClaims(t, chunks, replies))
  {
    if replies != [] {
      var n := |replies| - 1;
      RunIsItsClaims(t, chunks, replies[..n]);
      MarkAllAppend(t, RunClaims(t, chunks, replies[..n]),
                    Verdict(RunTable(t, chunks, replies[..n]), chunks[n], replies[n]));
    }
  }
}
