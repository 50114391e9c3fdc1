/** The backfill over any series of cycles: it terminates against any provider, and what a
    provider's horizon can cost is bounded. */
module BackfillRuns {
  import opened Common
  import opened Days
  import opened Coverage
  import opened CoverageFacts
  import opened Chunking
  import opened Backfill
  import opened BackfillFacts

  /** One event for a series: a cycle (plan, then run as many chunks as were answered before it
      was stopped), or coverage being told of days already on disk. */
  datatype Step =
    | Cycle(start: Day, end: Day, chunkDays: int, maxChunks: int, now: int, replies: seq<Reply>)
    | Reconcile(days: seq<Option<Day>>, at: int)

  function StepPlan(t: Table, s: Series, c: Step): seq<Chunk>
    requires c.Cycle?
  {
    PlanOf(t, s, c.start, c.end, c.chunkDays, c.maxChunks, c.now)
  }

  function Answered(t: Table, s: Series, c: Step): (r: seq<Reply>)
    requires c.Cycle?
    ensures |r| <= |StepPlan(t, s, c)| && r <= c.replies
  {
    Slice(c.replies, |StepPlan(t, s, c)|)
  }

  function After(t: Table, s: Series, c: Step): Table {
    match c
    case Cycle(_, _, _, _, _, _) => RunTable(t, StepPlan(t, s, c), Answered(t, s, c))
    case Reconcile(days, at) => MarkAll(t, HaveClaims(Canon(s), days, at))
  }

  /** The days one event asks the provider about. */
  function AskedDays(t: Table, s: Series, c: Step): seq<Day> {
    match c
    case Cycle(_, _, _, _, _, _) => ClaimDays(RunClaims(t, StepPlan(t, s, c), Answered(t, s, c)))
    case Reconcile(_, _) => []
  }

  function AfterAll(t: Table, s: Series, cs: seq<Step>): Table {
    if cs == [] then t else After(AfterAll(t, s, cs[..|cs| - 1]), s, cs[|cs| - 1])
  }

  function AllAsked(t: Table, s: Series, cs: seq<Step>): seq<Day> {
    if cs == [] then []
    else
      var front := cs[..|cs| - 1];
      AllAsked(t, s, front) + AskedDays(AfterAll(t, s, front), s, cs[|cs| - 1])
  }

  // ------------------------------------------------------------ termination
  /** How often a day can still be asked about inside the rest window that opens at `t0`. */
  function Work(t: Table, s: Series, t0: int, d: Day): nat {
    var k := Key(s, d);
    if k !in t then MAX_ATTEMPTS
    else if Settled(t[k].state) then 0
    else if t[k].checkedAt >= t0 then Max(0, MAX_ATTEMPTS - t[k].attempts)
    else Max(1, MAX_ATTEMPTS - t[k].attempts)
  }

  /** An event belongs to the window and to the range. */
  ghost predicate InWindow(c: Step, t0: int, start: Day, end: Day) {
    c.Cycle? ==>
      && start <= c.start && c.end <= end
      && c.now <= t0 + RETRY_COOLDOWN
      && forall i :: 0 <= i < |c.replies| ==> t0 <= c.replies[i].at
  }

  function Times(days: seq<Day>, d: Day): nat {
    if days == [] then 0
    else Times(days[..|days| - 1], d) + if days[|days| - 1] == d then 1 else 0
  }

  lemma {:induction false} TimesAppend(a: seq<Day>, b: seq<Day>, d: Day)
    ensures Times(a + b, d) == Times(a, d) + Times(b, d)
  {
    if b == [] {
      assert a + b == a;
    } else {
      assert (a + b)[..|a + b| - 1] == a + b[..|b| - 1];
      TimesAppend(a, b[..|b| - 1], d);
    }
  }

  lemma {:induction false} TimesDistinct(days: seq<Day>, d: Day)
    requires Distinct(days)
    ensures Times(days, d) == if d in days then 1 else 0
  {
    if days != [] {
      var front, last := days[..|days| - 1], days[|days| - 1];
      assert days == front + [last];
      TimesDistinct(front, d);
    }
  }

  function Sum(days: seq<Day>, f: Day -> nat): nat {
    if days == [] then 0 else Sum(days[..|days| - 1], f) + f(days[|days| - 1])
  }

  lemma {:induction false} SumTimes(days: seq<Day>, d: Day, w: seq<Day>)
    requires Distinct(w)
    ensures Sum(w, x => Times(days + [d], x)) == Sum(w, x => Times(days, x)) + if d in w then 1 else 0
  {
    if w != [] {
      var front, last := w[..|w| - 1], w[|w| - 1];
      assert w == front + [last];
      SumTimes(days, d, front);
      TimesAppend(days, [d], last);
    }
  }

  /** A list of days is as long as its members' counts add up to. */
  lemma {:induction false} LengthIsTimes(days: seq<Day>, w: seq<Day>)
    requires Distinct(w) && forall d :: d in days ==> d in w
    ensures |days| == Sum(w, x => Times(days, x))
  {
    if days == [] {
      SumLe(w, x => Times(days, x), x => 0, x => 0);
      SumLe(w, x => 0, x => 0, x => 0);
    } else {
      var front, last := days[..|days| - 1], days[|days| - 1];
      assert days == front + [last];
      LengthIsTimes(front, w);
      SumTimes(front, last, w);
    }
  }

  lemma {:induction false} SumLe(w: seq<Day>, f: Day -> nat, g: Day -> nat, h: Day -> nat)
    requires forall d :: d in w ==> f(d) + g(d) <= h(d)
    ensures Sum(w, f) + Sum(w, g) <= Sum(w, h)
  {
    if w != [] {
      var front, last := w[..|w| - 1], w[|w| - 1];
      assert w == front + [last];
      assert last in w;
      SumLe(front, f, g, h);
    }
  }

  lemma {:induction false} SumConst(w: seq<Day>, n: nat)
    ensures Sum(w, x => n) == n * |w|
  {
    if w != [] {
      SumConst(w[..|w| - 1], n);
    }
  }

  lemma WorkBound(t: Table, s: Series, t0: int, d: Day)
    ensures Work(t, s, t0, d) <= MAX_ATTEMPTS
  {
  }

  /** An open day still has work in it. */
  lemma OpenHasWork(t: Table, s: Series, t0: int, q: Query, d: Day)
    requires q.cooldown == 0 && q.maxAttempts == MAX_ATTEMPTS && q.now <= t0 + RETRY_COOLDOWN
    requires Asks(t, s, q, d)
    ensures 0 < Work(t, s, t0, d)
  {
    if Key(s, d) in t {
      RestWindow(t[Key(s, d)].checkedAt, q.now, RETRY_COOLDOWN);
    }
  }

  /** A day that a plan takes has work left, and asking about it uses some up. */
  lemma AskUsesWork(t: Table, s: Series, t0: int, q: Query, cs: seq<Claim>, d: Day)
    requires OfSeries(cs, s) && Distinct(ClaimDays(cs))
    requires forall i :: 0 <= i < |cs| ==> t0 <= cs[i].at
    requires q.cooldown == 0 && q.maxAttempts == MAX_ATTEMPTS && q.now <= t0 + RETRY_COOLDOWN
    requires forall x :: x in ClaimDays(cs) ==> Asks(t, s, q, x)
    ensures Times(ClaimDays(cs), d) + Work(MarkAll(t, cs), s, t0, d) <= Work(t, s, t0, d)
  {
    hide MarkAll, Effective, Times;
    TimesDistinct(ClaimDays(cs), d);
    OnlyTheirRows(t, s, cs);
    if d in ClaimDays(cs) {
      var i :| 0 <= i < |cs| && ClaimDays(cs)[i] == d;
      OnceEach(t, s, cs, Key(s, d));
      assert cs[i].key == Key(s, d) && Asks(t, s, q, d);
      OpenHasWork(t, s, t0, q, d);
    }
  }

  lemma {:induction false} ReconcileWork(t: Table, s: Series, t0: int, days: seq<Option<Day>>, at: int, d: Day)
    ensures Work(MarkAll(t, HaveClaims(s, days, at)), s, t0, d) <= Work(t, s, t0, d)
  {
    if days != [] {
      var front, last := days[..|days| - 1], days[|days| - 1];
      ReconcileWork(t, s, t0, front, at, d);
      if last.Some? {
        MarkAllSnoc(t, HaveClaims(s, front, at), Claim(Key(s, last.value), Have, 1, at));
      }
    }
  }

  lemma StepUsesWork(t: Table, s: Series, t0: int, start: Day, end: Day, c: Step, d: Day)
    requires InWindow(c, t0, start, end)
    ensures Times(AskedDays(t, s, c), d) + Work(After(t, s, c), Canon(s), t0, d) <= Work(t, Canon(s), t0, d)
    ensures forall x :: x in AskedDays(t, s, c) ==> x in Weekdays(start, end)
  {
    hide Work, RunTable, RunClaims, PlanOf, MarkAll, Weekdays;
    WeekdaysExact(start, end);
    match c {
      case Cycle(_, _, _, _, _, _) =>
        var plan, replies := StepPlan(t, s, c), Answered(t, s, c);
        RunAsksOpenDays(t, s, c.start, c.end, c.chunkDays, c.maxChunks, c.now, replies);
        RunIsItsClaims(t, plan, replies);
        var cs := RunClaims(t, plan, replies);
        forall i | 0 <= i < |cs| ensures t0 <= cs[i].at {
          var j :| 0 <= j < |replies| && replies[j].at == cs[i].at;
          assert replies[j] == c.replies[j];
        }
        AskUsesWork(t, Canon(s), t0, PlanQuery(c.start, c.end, c.now), cs, d);
      case Reconcile(days, at) =>
        ReconcileWork(t, Canon(s), t0, days, at, d);
    }
  }

  /** Inside one rest window a day is asked about at most three times, whatever is answered. */
  lemma {:induction false} AskedAtMostThreeTimes(t: Table, s: Series, t0: int, start: Day, end: Day,
                                                 cs: seq<Step>, d: Day)
    requires forall i :: 0 <= i < |cs| ==> InWindow(cs[i], t0, start, end)
    ensures Times(AllAsked(t, s, cs), d) + Work(AfterAll(t, s, cs), Canon(s), t0, d) <= Work(t, Canon(s), t0, d)
    ensures Times(AllAsked(t, s, cs), d) <= 3
    ensures forall x :: x in AllAsked(t, s, cs) ==> x in Weekdays(start, end)
  {
    hide Work, After, AskedDays, Weekdays, InWindow;
    WorkBound(t, Canon(s), t0, d);
    if cs != [] {
      var front := cs[..|cs| - 1];
      AskedAtMostThreeTimes(t, s, t0, start, end, front, d);
      StepUsesWork(AfterAll(t, s, front), s, t0, start, end, cs[|cs| - 1], d);
      TimesAppend(AllAsked(t, s, front), AskedDays(AfterAll(t, s, front), s, cs[|cs| - 1]), d);
    }
  }

  function TotalWork(t: Table, s: Series, t0: int, w: seq<Day>): nat {
    Sum(w, d => Work(t, s, t0, d))
  }

  /** The measure: each asked day takes one from it, and it starts at no more than
      three for every weekday of the range. */
  lemma BackfillTerminates(t: Table, s: Series, t0: int, start: Day, end: Day, cs: seq<Step>)
    requires forall i :: 0 <= i < |cs| ==> InWindow(cs[i], t0, start, end)
    ensures var w := Weekdays(start, end);
            && |AllAsked(t, s, cs)| + TotalWork(AfterAll(t, s, cs), Canon(s), t0, w) <= TotalWork(t, Canon(s), t0, w)
            && TotalWork(t, Canon(s), t0, w) <= 3 * |w|
  {
    hide Work, Times, AllAsked, AfterAll, Weekdays;
    var w, asked, after := Weekdays(start, end), AllAsked(t, s, cs), AfterAll(t, s, cs);
    var can := Canon(s);
    WeekdaysExact(start, end);
    forall d ensures Times(asked, d) + Work(after, can, t0, d) <= Work(t, can, t0, d)
             ensures forall x :: x in asked ==> x in w
    {
      AskedAtMostThreeTimes(t, s, t0, start, end, cs, d);
    }
    AskedAtMostThreeTimes(t, s, t0, start, end, cs, 0);
    LengthIsTimes(asked, w);
    SumLe(w, d => Times(asked, d), d => Work(after, can, t0, d), d => Work(t, can, t0, d));
    forall d ensures Work(t, can, t0, d) + 0 <= MAX_ATTEMPTS { WorkBound(t, can, t0, d); }
    SumLe(w, d => Work(t, can, t0, d), d => 0, d => MAX_ATTEMPTS);
    SumConst(w, MAX_ATTEMPTS);
  }

  lemma {:induction false} SumPositive(w: seq<Day>, f: Day -> nat, d: Day)
    requires d in w
    ensures f(d) <= Sum(w, f)
  {
    var front, last := w[..|w| - 1], w[|w| - 1];
    assert w == front + [last];
    if d != last {
      SumPositive(front, f, d);
    }
  }

  lemma EmptyPlan(s: Series, chunkDays: int, maxChunks: int)
    ensures PlanFrom(s, [], chunkDays, maxChunks) == []
  {
  }

  /** No work left: nothing more to plan inside the window. */
  lemma NoWorkNoPlan(t: Table, s: Series, t0: int, c: Step, w: seq<Day>)
    requires c.Cycle? && InWindow(c, t0, c.start, c.end) && w == Weekdays(c.start, c.end)
    requires TotalWork(t, Canon(s), t0, w) == 0
    ensures StepPlan(t, s, c) == []
  {
    hide Work, PlanFrom, Weekdays, Missing, Sum;
    var m := Missing(t, s, c.start, c.end, c.now);
    if m != [] {
      MissingHasWork(t, s, t0, c, m[0]);
      SumPositive(w, d => Work(t, Canon(s), t0, d), m[0]);
    }
    assert m == [];
    EmptyPlan(s, c.chunkDays, c.maxChunks);
  }

  lemma MissingHasWork(t: Table, s: Series, t0: int, c: Step, d: Day)
    requires c.Cycle? && c.now <= t0 + RETRY_COOLDOWN && d in Missing(t, s, c.start, c.end, c.now)
    ensures d in Weekdays(c.start, c.end) && 0 < Work(t, Canon(s), t0, d)
  {
    hide Work, Weekdays, Missing, Open;
    MissingAsks(t, s, c.start, c.end, c.now);
    assert Asks(t, Canon(s), PlanQuery(c.start, c.end, c.now), d);
    WeekdaysExact(c.start, c.end);
    OpenHasWork(t, Canon(s), t0, PlanQuery(c.start, c.end, c.now), d);
  }

  /** A cycle that has a plan and gets one answer asks about something. */
  lemma CycleAsks(t: Table, s: Series, c: Step)
    requires c.Cycle? && StepPlan(t, s, c) != [] && c.replies != []
    ensures AskedDays(t, s, c) != []
  {
    hide RunClaims, RunTable, PlanFrom, Missing, Asks;
    var plan, replies := StepPlan(t, s, c), Answered(t, s, c);
    RunAsksOpenDays(t, s, c.start, c.end, c.chunkDays, c.maxChunks, c.now, replies);
    MissingAsks(t, s, c.start, c.end, c.now);
    PlanChunks(s, Missing(t, s, c.start, c.end, c.now), c.chunkDays, c.maxChunks);
    var n := |replies| - 1;
    assert plan[..n + 1][..n] == plan[..n] && plan[n].days != [];
  }

  /** However the provider behaves, no more than 3 cycles for every weekday of the range can ask
      anything before the window closes, and once that many days were asked the plan is empty. */
  lemma {:induction false} BackfillFinishes(t: Table, s: Series, t0: int, start: Day, end: Day,
                                            cs: seq<Step>, next: Step)
    requires forall i :: 0 <= i < |cs| ==> InWindow(cs[i], t0, start, end)
    requires next.Cycle? && next.start == start && next.end == end && InWindow(next, t0, start, end)
    ensures |AllAsked(t, s, cs)| <= 3 * |Weekdays(start, end)|
    ensures |AllAsked(t, s, cs)| == 3 * |Weekdays(start, end)| ==>
              StepPlan(AfterAll(t, s, cs), s, next) == []
    ensures (forall i :: 0 <= i < |cs| ==> AskedDays(AfterAll(t, s, cs[..i]), s, cs[i]) != []) ==>
              |cs| <= |AllAsked(t, s, cs)|
  {
    hide AllAsked, AfterAll, TotalWork, StepPlan, Weekdays, InWindow, AskedDays;
    BackfillTerminates(t, s, t0, start, end, cs);
    if |AllAsked(t, s, cs)| == 3 * |Weekdays(start, end)| {
      NoWorkNoPlan(AfterAll(t, s, cs), s, t0, next, Weekdays(start, end));
    }
    if forall i :: 0 <= i < |cs| ==> AskedDays(AfterAll(t, s, cs[..i]), s, cs[i]) != [] {
      OneAskEach(t, s, cs);
    }
  }

  lemma {:induction false} OneAskEach(t: Table, s: Series, cs: seq<Step>)
    requires forall i :: 0 <= i < |cs| ==> AskedDays(AfterAll(t, s, cs[..i]), s, cs[i]) != []
    ensures |cs| <= |AllAsked(t, s, cs)|
  {
    hide AfterAll, AskedDays;
    if cs != [] {
      var front := cs[..|cs| - 1];
      forall i | 0 <= i < |front| ensures AskedDays(AfterAll(t, s, front[..i]), s, front[i]) != [] {
        assert front[..i] == cs[..i];
      }
      OneAskEach(t, s, front);
    }
  }

  // ------------------------------------------------------------ the horizon
  /** No row before `h`, and every row inside the range that was asked. */
  ghost predicate Honest(c: Chunk, r: Reply, h: Day) {
    r.answer.Rows? ==> forall x :: x in r.answer.stamps ==>
      x.Some? && h <= x.value && Asked(c, r.today).0 <= x.value <= Asked(c, r.today).1
  }

  /** Data only from `h` on, and nothing written off more than `cap - 1` days before it. */
  ghost predicate LossBounded(t: Table, s: Series, h: Day, cap: int) {
    forall k :: k in t && k.series == s ==>
      (t[k].state == Have ==> h <= k.day) && (t[k].state == Absent ==> h - (cap - 1) <= k.day)
  }

  ghost predicate ClaimsBounded(cs: seq<Claim>, s: Series, h: Day, cap: int) {
    forall i :: 0 <= i < |cs| && cs[i].key.series == s ==>
      (cs[i].state == Have ==> h <= cs[i].key.day) && (cs[i].state == Absent ==> h - (cap - 1) <= cs[i].key.day)
  }

  lemma {:induction false} MarksKeepBound(t: Table, s: Series, cs: seq<Claim>, h: Day, cap: int)
    requires LossBounded(t, s, h, cap) && ClaimsBounded(cs, s, h, cap)
    ensures LossBounded(MarkAll(t, cs), s, h, cap)
  {
    if cs != [] {
      MarksKeepBound(t, s, cs[..|cs| - 1], h, cap);
    }
  }

  /** One chunk: a day is written off only inside a chunk that reaches the horizon, or behind it. */
  lemma VerdictBounded(t: Table, s: Series, m: seq<Day>, c: Chunk, r: Reply, chunkDays: int, h: Day, cap: int)
    requires Stretch(c, s, m, chunkDays) && chunkDays <= cap && 1 <= cap
    requires LossBounded(t, Canon(s), h, cap) && Honest(c, r, h)
    ensures ClaimsBounded(Verdict(t, c, r), Canon(s), h, cap)
  {
    if r.answer.Rows? && r.answer.stamps != [] {
      assert r.answer.stamps[0] in r.answer.stamps;
      assert forall x :: x in DaysIn(r.answer.stamps) ==> Some(x) in r.answer.stamps;
    }
    forall d | d in c.days ensures c.start <= d {
      var i :| 0 <= i < |c.days| && c.days[i] == d;
    }
    assert forall i :: 0 <= i < |c.days| ==> c.days[i] in c.days;
  }

  lemma {:induction false} RunKeepsBound(t: Table, s: Series, m: seq<Day>, chunks: seq<Chunk>, replies: seq<Reply>,
                                         chunkDays: int, h: Day, cap: int)
    requires |replies| <= |chunks| && chunkDays <= cap && 1 <= cap
    requires forall i :: 0 <= i < |chunks| ==> Stretch(chunks[i], s, m, chunkDays)
    requires forall i :: 0 <= i < |replies| ==> Honest(chunks[i], replies[i], h)
    requires LossBounded(t, Canon(s), h, cap)
    ensures LossBounded(RunTable(t, chunks, replies), Canon(s), h, cap)
  {
    hide Stretch, Honest, LossBounded, Verdict, MarkAll, ClaimsBounded;
    if replies != [] {
      var n := |replies| - 1;
      RunKeepsBound(t, s, m, chunks, replies[..n], chunkDays, h, cap);
      var before := RunTable(t, chunks, replies[..n]);
      VerdictBounded(before, s, m, chunks[n], replies[n], chunkDays, h, cap);
      MarksKeepBound(before, Canon(s), Verdict(before, chunks[n], replies[n]), h, cap);
    }
  }

  /** A provider that carries nothing before `h`, told of nothing before `h`. */
  ghost predicate HonestStep(t: Table, s: Series, c: Step, h: Day, cap: int) {
    match c
    case Cycle(_, _, chunkDays, _, _, _) =>
      && chunkDays <= cap
      && forall i :: 0 <= i < |Answered(t, s, c)| ==> Honest(StepPlan(t, s, c)[i], Answered(t, s, c)[i], h)
    case Reconcile(days, _) => forall x :: x in days && x.Some? ==> h <= x.value
  }

  lemma {:induction false} HaveClaimsBounded(s: Series, days: seq<Option<Day>>, at: int, h: Day, cap: int)
    requires forall x :: x in days && x.Some? ==> h <= x.value
    ensures ClaimsBounded(HaveClaims(s, days, at), s, h, cap)
  {
    if days != [] {
      var front, last := days[..|days| - 1], days[|days| - 1];
      assert days == front + [last];
      assert last in days;
      HaveClaimsBounded(s, front, at, h, cap);
    }
  }

  lemma StepKeepsBound(t: Table, s: Series, c: Step, h: Day, cap: int)
    requires 1 <= cap && LossBounded(t, Canon(s), h, cap) && HonestStep(t, s, c, h, cap)
    ensures LossBounded(After(t, s, c), Canon(s), h, cap)
  {
    hide LossBounded, RunTable, MarkAll, PlanFrom, Missing, HaveClaims, Honest, ClaimsBounded;
    match c {
      case Cycle(start, end, chunkDays, maxChunks, now, _) =>
        MissingAsks(t, s, start, end, now);
        PlanChunks(s, Missing(t, s, start, end, now), chunkDays, maxChunks);
        RunKeepsBound(t, s, Missing(t, s, start, end, now), StepPlan(t, s, c), Answered(t, s, c), chunkDays, h, cap);
      case Reconcile(days, at) =>
        HaveClaimsBounded(Canon(s), days, at, h, cap);
        MarksKeepBound(t, Canon(s), HaveClaims(Canon(s), days, at), h, cap);
    }
  }

  /** A provider's horizon costs at most one chunk: after any series of cycles no day more than
      `cap - 1` before the first day it carries has been written off. */
  lemma {:induction false} HorizonLossIsBounded(t: Table, s: Series, cs: seq<Step>, h: Day, cap: int)
    requires 1 <= cap
    requires forall k :: k in t && k.series == Canon(s) ==> t[k].state != Absent && (t[k].state == Have ==> h <= k.day)
    requires forall i :: 0 <= i < |cs| ==> HonestStep(AfterAll(t, s, cs[..i]), s, cs[i], h, cap)
    ensures LossBounded(AfterAll(t, s, cs), Canon(s), h, cap)
  {
    hide HonestStep, After;
    if cs != [] {
      var front := cs[..|cs| - 1];
      assert forall i :: 0 <= i < |front| ==> front[..i] == cs[..i];
      HorizonLossIsBounded(t, s, front, h, cap);
      StepKeepsBound(AfterAll(t, s, front), s, cs[|cs| - 1], h, cap);
    }
  }

  // ------------------------------------------------------------ exactly what is lost
  predicate IsAbsent(t: Table, k: Key) { k in t && t[k].state == Absent }

  /** A chunk that straddles the horizon, and got rows. */
  predicate Loses(c: Chunk, r: Reply, h: Day, d: Day) {
    d in c.days && c.start < h <= c.end && r.answer.Rows? && r.answer.stamps != []
  }

  ghost predicate RunLoses(chunks: seq<Chunk>, replies: seq<Reply>, h: Day, d: Day) {
    exists i :: 0 <= i < |replies| && i < |chunks| && Loses(chunks[i], replies[i], h, d)
  }

  /** Before the horizon one chunk writes off its days exactly when its provider may and its rows begin inside it. */
  lemma VerdictLoses(t: Table, s: Series, m: seq<Day>, c: Chunk, r: Reply, chunkDays: int, h: Day, cap: int, i: nat)
    requires Stretch(c, s, m, chunkDays) && LossBounded(t, Canon(s), h, cap) && Honest(c, r, h)
    requires i < |c.days| && c.days[i] < h
    ensures Verdict(t, c, r)[i].state == Absent <==> Outright(Canon(s)) && Loses(c, r, h, c.days[i])
    ensures r.answer.Rows? && r.answer.stamps != [] ==> Loses(c, r, h, c.days[i])
  {
    hide LossBounded, Legal;
    assert c.start <= c.days[i];
    if r.answer.Rows? && r.answer.stamps != [] {
      assert r.answer.stamps[0] in r.answer.stamps;
    }
    assert r.answer.Rows? ==> forall x :: x in r.answer.stamps ==> x != Some(c.days[i]);
    NothingOlder(t, Canon(s), h, cap, c.start);
  }

  lemma NothingOlder(t: Table, s: Series, h: Day, cap: int, before: Day)
    requires LossBounded(t, s, h, cap) && before <= h
    ensures !HasOlder(t, s, before)
  {
  }

  lemma ChunkLoses(t: Table, s: Series, m: seq<Day>, c: Chunk, r: Reply, chunkDays: int, h: Day, cap: int, d: Day)
    requires Stretch(c, s, m, chunkDays) && LossBounded(t, Canon(s), h, cap) && Honest(c, r, h) && d < h
    ensures var k := Key(Canon(s), d);
            IsAbsent(MarkAll(t, Verdict(t, c, r)), k) <==>
              if d in c.days then Outright(Canon(s)) && Loses(c, r, h, d) else IsAbsent(t, k)
  {
    hide Verdict, MarkAll, LossBounded, Honest, Loses, Legal;
    var cs := Verdict(t, c, r);
    VerdictDays(t, c, r);
    OnceEach(t, Canon(s), cs, Key(Canon(s), d));
    assert forall i :: 0 <= i < |cs| ==> ClaimDays(cs)[i] == cs[i].key.day && c.days[i] == cs[i].key.day;
    if d in c.days {
      var i :| 0 <= i < |c.days| && c.days[i] == d;
      assert cs[i].key == Key(Canon(s), d);
      VerdictLoses(t, s, m, c, r, chunkDays, h, cap, i);
    }
  }

  /** The days of a plan that is being run were not written off when it was made, and no two chunks share a day. */
  lemma PlanIsFresh(t: Table, s: Series, start: Day, end: Day, chunkDays: int, maxChunks: int, now: int, n: nat, d: Day)
    requires n < |PlanOf(t, s, start, end, chunkDays, maxChunks, now)|
    requires d in PlanOf(t, s, start, end, chunkDays, maxChunks, now)[n].days
    ensures !IsAbsent(t, Key(Canon(s), d))
    ensures forall j :: 0 <= j < n ==> d !in PlanOf(t, s, start, end, chunkDays, maxChunks, now)[j].days
  {
    hide PlanFrom, Missing, Legal;
    MissingAsks(t, s, start, end, now);
    PlanChunks(s, Missing(t, s, start, end, now), chunkDays, maxChunks);
    assert Asks(t, Canon(s), PlanQuery(start, end, now), d);
  }

  lemma RunLosesSnoc(chunks: seq<Chunk>, replies: seq<Reply>, h: Day, d: Day)
    requires 0 < |replies| <= |chunks|
    ensures var n := |replies| - 1;
            RunLoses(chunks, replies, h, d) <==>
              RunLoses(chunks, replies[..n], h, d) || Loses(chunks[n], replies[n], h, d)
  {
    hide Loses;
    var n := |replies| - 1;
    assert forall i :: 0 <= i < n ==> replies[..n][i] == replies[i];
    if RunLoses(chunks, replies[..n], h, d) {
      var i :| 0 <= i < n && Loses(chunks[i], replies[..n][i], h, d);
      assert Loses(chunks[i], replies[i], h, d);
    }
    if RunLoses(chunks, replies, h, d) {
      var i :| 0 <= i < |replies| && Loses(chunks[i], replies[i], h, d);
      assert i < n ==> Loses(chunks[i], replies[..n][i], h, d);
    }
  }

  lemma {:induction false} RunLosesExactly(t: Table, s: Series, c: Step, replies: seq<Reply>, h: Day, cap: int, d: Day)
    requires c.Cycle? && |replies| <= |StepPlan(t, s, c)| && c.chunkDays <= cap && 1 <= cap && d < h
    requires LossBounded(t, Canon(s), h, cap)
    requires forall i :: 0 <= i < |replies| ==> Honest(StepPlan(t, s, c)[i], replies[i], h)
    ensures IsAbsent(RunTable(t, StepPlan(t, s, c), replies), Key(Canon(s), d)) <==>
      IsAbsent(t, Key(Canon(s), d)) || (Outright(Canon(s)) && RunLoses(StepPlan(t, s, c), replies, h, d))
  {
    hide LossBounded, Honest, Verdict, MarkAll, PlanFrom, Missing, IsAbsent, RunLoses, Outright;
    var plan, m := StepPlan(t, s, c), Missing(t, s, c.start, c.end, c.now);
    if replies == [] {
      NoneLost(plan, h, d);
    } else {
      var n := |replies| - 1;
      RunLosesExactly(t, s, c, replies[..n], h, cap, d);
      MissingAsks(t, s, c.start, c.end, c.now);
      PlanChunks(s, m, c.chunkDays, c.maxChunks);
      RunKeepsBound(t, s, m, plan, replies[..n], c.chunkDays, h, cap);
      ChunkLoses(RunTable(t, plan, replies[..n]), s, m, plan[n], replies[n], c.chunkDays, h, cap, d);
      RunLosesSnoc(plan, replies, h, d);
      if d in plan[n].days {
        PlanIsFresh(t, s, c.start, c.end, c.chunkDays, c.maxChunks, c.now, n, d);
        NotLostBefore(plan, replies[..n], h, d);
      }
    }
  }

  lemma NoneLost(chunks: seq<Chunk>, h: Day, d: Day)
    ensures !RunLoses(chunks, [], h, d)
  {
  }

  lemma NotLostBefore(chunks: seq<Chunk>, replies: seq<Reply>, h: Day, d: Day)
    requires |replies| <= |chunks| && forall j :: 0 <= j < |replies| ==> d !in chunks[j].days
    ensures !RunLoses(chunks, replies, h, d)
  {
  }

  lemma {:induction false} OtherRows(t: Table, cs: seq<Claim>, k: Key)
    requires forall i :: 0 <= i < |cs| ==> cs[i].key != k
    ensures IsAbsent(MarkAll(t, cs), k) <==> IsAbsent(t, k)
  {
    if cs != [] {
      OtherRows(t, cs[..|cs| - 1], k);
    }
  }

  lemma {:induction false} HaveClaimsFrom(s: Series, days: seq<Option<Day>>, at: int, h: Day)
    requires forall x :: x in days && x.Some? ==> h <= x.value
    ensures forall i :: 0 <= i < |HaveClaims(s, days, at)| ==> h <= HaveClaims(s, days, at)[i].key.day
  {
    if days != [] {
      var front, last := days[..|days| - 1], days[|days| - 1];
      assert days == front + [last];
      HaveClaimsFrom(s, front, at, h);
    }
  }

  ghost predicate StepLoses(t: Table, s: Series, c: Step, h: Day, d: Day) {
    c.Cycle? && RunLoses(StepPlan(t, s, c), Answered(t, s, c), h, d)
  }

  lemma StepLosesExactly(t: Table, s: Series, c: Step, h: Day, cap: int, d: Day)
    requires 1 <= cap && d < h && LossBounded(t, Canon(s), h, cap) && HonestStep(t, s, c, h, cap)
    ensures IsAbsent(After(t, s, c), Key(Canon(s), d)) <==>
      IsAbsent(t, Key(Canon(s), d)) || (Outright(Canon(s)) && StepLoses(t, s, c, h, d))
  {
    hide LossBounded, Honest, MarkAll, PlanOf, RunTable, IsAbsent, RunLoses, Outright, HaveClaims;
    match c {
      case Cycle(_, _, _, _, _, _) => RunLosesExactly(t, s, c, Answered(t, s, c), h, cap, d);
      case Reconcile(days, at) =>
        HaveClaimsFrom(Canon(s), days, at, h);
        OtherRows(t, HaveClaims(Canon(s), days, at), Key(Canon(s), d));
    }
  }

  ghost predicate LostIn(t: Table, s: Series, cs: seq<Step>, h: Day, d: Day) {
    exists j :: 0 <= j < |cs| && StepLoses(AfterAll(t, s, cs[..j]), s, cs[j], h, d)
  }

  lemma LostInSnoc(t: Table, s: Series, cs: seq<Step>, h: Day, d: Day)
    requires cs != []
    ensures var n := |cs| - 1;
            LostIn(t, s, cs, h, d) <==>
              LostIn(t, s, cs[..n], h, d) || StepLoses(AfterAll(t, s, cs[..n]), s, cs[n], h, d)
  {
    hide StepLoses, AfterAll;
    var n := |cs| - 1;
    assert forall j :: 0 <= j < n ==> cs[..n][..j] == cs[..j] && cs[..n][j] == cs[j];
    if LostIn(t, s, cs[..n], h, d) {
      var j :| 0 <= j < n && StepLoses(AfterAll(t, s, cs[..n][..j]), s, cs[..n][j], h, d);
      assert StepLoses(AfterAll(t, s, cs[..j]), s, cs[j], h, d);
    }
    if LostIn(t, s, cs, h, d) {
      var j :| 0 <= j < |cs| && StepLoses(AfterAll(t, s, cs[..j]), s, cs[j], h, d);
      assert j < n ==> StepLoses(AfterAll(t, s, cs[..n][..j]), s, cs[..n][j], h, d);
    }
  }

  /**
   * Over any series of cycles a day before the horizon is written off exactly when the provider is an outright
   * authority and some executed chunk that holds the day straddles the horizon and got rows.
   */
  lemma {:induction false} HorizonLossExactly(t: Table, s: Series, cs: seq<Step>, h: Day, cap: int, d: Day)
    requires 1 <= cap && d < h
    requires forall k :: k in t && k.series == Canon(s) ==> t[k].state != Absent && (t[k].state == Have ==> h <= k.day)
    requires forall i :: 0 <= i < |cs| ==> HonestStep(AfterAll(t, s, cs[..i]), s, cs[i], h, cap)
    ensures IsAbsent(AfterAll(t, s, cs), Key(Canon(s), d)) <==> Outright(Canon(s)) && LostIn(t, s, cs, h, d)
  {
    hide HonestStep, After, Outright, StepLoses, LossBounded, LostIn;
    if cs == [] {
      assert !LostIn(t, s, cs, h, d) by { NothingLostYet(t, s, h, d); }
    } else {
      var front := cs[..|cs| - 1];
      assert forall i :: 0 <= i < |front| ==> front[..i] == cs[..i];
      HorizonLossExactly(t, s, front, h, cap, d);
      HorizonLossIsBounded(t, s, front, h, cap);
      StepLosesExactly(AfterAll(t, s, front), s, cs[|cs| - 1], h, cap, d);
      LostInSnoc(t, s, cs, h, d);
    }
  }

  lemma NothingLostYet(t: Table, s: Series, h: Day, d: Day)
    ensures !LostIn(t, s, [], h, d)
  {
  }

  // ------------------------------------------------------------ the bound is met
  lemma {:induction false} ReverseTwice<T>(s: seq<T>)
    ensures Reverse(Reverse(s)) == s
  {
  }

  lemma EmptyTableMisses(s: Series, a: Day, h: Day, now: int)
    requires |Weekdays(a, h)| <= DEFAULT_LIMIT
    ensures Missing(map[], s, a, h, now) == Weekdays(a, h)
  {
    hide Weekdays, Reverse, Sorted;
    var w, q := Weekdays(a, h), PlanQuery(a, h, now);
    WeekdaysExact(a, h);
    KeepAll(w, d => Open(map[], Canon(s), q, d));
    assert Gaps(map[], Canon(s), q) == Reverse(w);
    GapsExact(map[], Canon(s), q);
    SortedDescending(Reverse(w));
    ReverseTwice(w);
  }

  /** Weekdays follow each other by at most three days. */
  lemma WeekdaysNear(a: Day, h: Day, j: nat)
    requires 0 < j < |Weekdays(a, h)|
    ensures Near(Weekdays(a, h), j)
  {
    hide Weekdays;
    var w := Weekdays(a, h);
    WeekdaysExact(a, h);
    var x, y := w[j - 1], w[j];
    assert forall i :: 0 <= i < |w| ==> w[i] <= x || y <= w[i];
    assert forall d :: d in w ==> d <= x || y <= d;
    assert x in w && y in w;
    assert Weekday(x + 1) || Weekday(x + 2) || Weekday(x + 3);
    assert x + 3 < h ==> x + 1 in w || x + 2 in w || x + 3 in w;
  }

  lemma WeekdayEnds(a: Day, h: Day)
    requires Weekday(a) && Weekday(h) && a <= h
    ensures var w := Weekdays(a, h); w != [] && w[0] == a && w[|w| - 1] == h
  {
    hide Weekdays;
    var w := Weekdays(a, h);
    WeekdaysExact(a, h);
    assert a in w && h in w && w[0] in w && w[|w| - 1] in w;
  }

  lemma OneRun(a: Day, h: Day)
    requires Weekday(a) && Weekday(h) && a <= h
    ensures Greedy(Weekdays(a, h), h - a + 1) == [Weekdays(a, h)]
  {
    hide Weekdays, Near;
    var w, cap := Weekdays(a, h), h - a + 1;
    WeekdayEnds(a, h);
    WeekdaysExact(a, h);
    forall i | 1 <= i < |w| ensures Joins(w, 0, i, cap) {
      WeekdaysNear(a, h, i);
      assert w[i] in w;
    }
    var n := Reach(w, 0, 1, cap);
    assert n == |w|;
    assert w[0..n] == w && GreedyFrom(w, n, cap) == [];
  }

  /** A first cycle from `a` to the provider's first day, with chunks of just that length. */
  function FirstCycle(a: Day, h: Day, now: int, today: Day, at: int): Step {
    Cycle(a, h, h - a + 1, 1, now, [Reply(Rows([Some(h)]), today, at)])
  }

  lemma FirstPlan(s: Series, a: Day, h: Day, now: int, today: Day, at: int)
    requires Weekday(a) && Weekday(h) && a <= h && |Weekdays(a, h)| <= DEFAULT_LIMIT
    ensures StepPlan(map[], s, FirstCycle(a, h, now, today, at)) == [Chunk(s, a, h, Weekdays(a, h))]
  {
    hide Missing, Weekdays, Greedy, Reverse, Canon;
    EmptyTableMisses(s, a, h, now);
    OneRun(a, h);
    WeekdayEnds(a, h);
    var w := Weekdays(a, h);
    assert MakeChunks(s, [w]) == [Chunk(s, a, h, w)];
    assert |Reverse([Chunk(s, a, h, w)])| == 1;
  }

  /** For every cap whose chunk a plan can hold, the full `cap - 1` days before the first one carried can be lost. */
  lemma HorizonBoundIsMet(s: Series, a: Day, h: Day, now: int, today: Day, at: int)
    requires Outright(Canon(s)) && Weekday(a) && Weekday(h) && a < h && |Weekdays(a, h)| <= DEFAULT_LIMIT
    ensures var cap, c := h - a + 1, FirstCycle(a, h, now, today, at);
            && HonestStep(map[], s, c, h, cap) && a == h - (cap - 1)
            && IsAbsent(After(map[], s, c), Key(Canon(s), a))
  {
    hide PlanOf, Weekdays, IsAbsent, RunTable;
    var cap, c := h - a + 1, FirstCycle(a, h, now, today, at);
    FirstPlan(s, a, h, now, today, at);
    WeekdaysExact(a, h);
    NothingHeld(Canon(s), h, cap);
    assert Answered(map[], s, c) == c.replies;
    assert Loses(StepPlan(map[], s, c)[0], c.replies[0], h, a);
    assert RunLoses(StepPlan(map[], s, c), c.replies, h, a);
    StepLosesExactly(map[], s, c, h, cap, a);
  }

  lemma NothingHeld(s: Series, h: Day, cap: int)
    ensures LossBounded(map[], s, h, cap)
  {
  }
}
