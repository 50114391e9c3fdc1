/** The queue of symbols to deepen: any submitters and any workers, one fill per accepted submit. */
module DeepQueue {
  import opened Common

  datatype Job = Job(user: int, symbol: string)

  /**
   * The desk between submitters and workers. Every accepted submit is a ticket, numbered in order of acceptance:
   * `aboutTo` are accepted and not yet queued, `inFlight` are with a worker, `filled` have had their fill.
   */
  datatype Desk = Desk(jobs: seq<Job>, seen: set<string>, aboutTo: set<int>, queue: seq<int>, inFlight: set<int>,
                       filled: seq<int>)

  const EMPTY := Desk([], {}, {}, [], {}, [])

  /** The atomic steps of `submit` (under the lock, then the put) and of a worker (the get, then the discard). */
  datatype Action = Submit(user: int, symbol: string) | Enqueue(ticket: int) | Take | Finish(ticket: int)

  predicate Space(c: char) { c == ' ' || '\t' <= c <= '\r' }

  function Strip(s: string): string {
    if s == [] then []
    else if Space(s[0]) then Strip(s[1..])
    else if Space(s[|s| - 1]) then Strip(s[..|s| - 1])
    else s
  }

  predicate Spaces(s: string) { forall i :: 0 <= i < |s| ==> Space(s[i]) }

  /** What is stripped is the space on both sides, all of it, and nothing else. */
  lemma {:induction false} StripExactly(s: string) returns (a: string, b: string)
    ensures s == a + Strip(s) + b && Spaces(a) && Spaces(b)
    ensures var r := Strip(s); r != [] ==> !Space(r[0]) && !Space(r[|r| - 1])
  {
    hide Space;
    var r := Strip(s);
    a, b := [], [];
    if s == [] {
    } else if Space(s[0]) {
      a, b := StripExactly(s[1..]);
      assert s == [s[0]] + s[1..] == [s[0]] + (a + r + b) == ([s[0]] + a) + r + b;
      a := [s[0]] + a;
    } else if Space(s[|s| - 1]) {
      var front, last := s[..|s| - 1], [s[|s| - 1]];
      a, b := StripExactly(front);
      assert s == front + last == (a + r + b) + last == a + r + (b + last);
      b := b + last;
    }
  }

  /** Space around a text is no part of it. */
  lemma {:induction false} SameSymbol(a: string, s: string, b: string)
    requires Spaces(a) && Spaces(b)
    ensures Strip(a + s + b) == Strip(s)
    decreases |a| + |s| + |b|
  {
    var all := a + s + b;
    if a != [] {
      assert all[1..] == a[1..] + s + b;
      SameSymbol(a[1..], s, b);
    } else if b != [] && s != [] && Space(s[0]) {
      assert all[1..] == [] + s[1..] + b;
      SameSymbol([], s[1..], b);
    } else if b != [] {
      assert all == s + b;
      if s == [] {
        assert all[1..] == [] + s + b[1..];
        SameSymbol([], s, b[1..]);
      } else {
        assert all[..|all| - 1] == [] + s + b[..|b| - 1];
        SameSymbol([], s, b[..|b| - 1]);
      }
    } else {
      assert all == s;
    }
  }

  function Canonical(symbol: string): string { Strip(Upper(symbol)) }

  /** A symbol is known by its characters between the spaces, small letters as capitals. */
  lemma CanonicalExactly(symbol: string) returns (k: nat)
    ensures var c := Canonical(symbol);
            && k + |c| <= |symbol|
            && (forall i :: 0 <= i < k || k + |c| <= i < |symbol| ==> Space(symbol[i]))
            && (forall i :: 0 <= i < |c| ==>
                  c[i] == if 'a' <= symbol[k + i] <= 'z' then symbol[k + i] - 'a' + 'A' else symbol[k + i])
            && (c != [] ==> !Space(c[0]) && !Space(c[|c| - 1]))
  {
    hide Strip, Upper;
    var up, c := Upper(symbol), Canonical(symbol);
    var a, b := StripExactly(up);
    k := |a|;
    assert forall i :: 0 <= i < k ==> up[i] == a[i];
    assert forall i :: k + |c| <= i < |symbol| ==> up[i] == b[i - k - |c|];
    assert forall i :: 0 <= i < |c| ==> up[k + i] == c[i];
  }

  predicate Accepts(s: Desk, symbol: string) { Canonical(symbol) != "" && Canonical(symbol) !in s.seen }

  predicate Enabled(s: Desk, a: Action) {
    match a
    case Submit(_, _) => true
    case Enqueue(t) => t in s.aboutTo
    case Take => s.queue != []
    case Finish(t) => t in s.inFlight && 0 <= t < |s.jobs|
  }

  function Step(s: Desk, a: Action): Desk
    requires Enabled(s, a)
  {
    match a
    case Submit(user, symbol) =>
      if !Accepts(s, symbol) then s
      else s.(jobs := s.jobs + [Job(user, Canonical(symbol))], seen := s.seen + {Canonical(symbol)},
              aboutTo := s.aboutTo + {|s.jobs|})
    case Enqueue(t) => s.(aboutTo := s.aboutTo - {t}, queue := s.queue + [t])
    case Take => s.(queue := s.queue[1..], inFlight := s.inFlight + {s.queue[0]})
    case Finish(t) => s.(inFlight := s.inFlight - {t}, filled := s.filled + [t], seen := s.seen - {s.jobs[t].symbol})
  }

  predicate Possible(s: Desk, run: seq<Action>)
    decreases |run|, 0
  {
    run == [] || (Possible(s, run[..|run| - 1]) && Enabled(Run(s, run[..|run| - 1]), run[|run| - 1]))
  }

  function Run(s: Desk, run: seq<Action>): Desk
    requires Possible(s, run)
    decreases |run|, 1
  {
    if run == [] then s else Step(Run(s, run[..|run| - 1]), run[|run| - 1])
  }

  /** Accepted and not yet filled. */
  predicate Pending(s: Desk, t: int) { t in s.aboutTo || t in s.queue || t in s.inFlight }

  /** Each ticket is in one place, once. */
  ghost predicate InOnePlace(s: Desk) {
    && Distinct(s.queue) && Distinct(s.filled)
    && (forall t :: 0 <= t < |s.jobs| <==> Pending(s, t) || t in s.filled)
    && (forall t :: t in s.aboutTo ==> t !in s.queue && t !in s.inFlight && t !in s.filled)
    && (forall t :: t in s.queue ==> t !in s.inFlight && t !in s.filled)
    && (forall t :: t in s.inFlight ==> t !in s.filled)
  }

  /** `seen` names exactly the symbols of the pending tickets, and no two of those share a symbol. */
  ghost predicate SeenIsPending(s: Desk) {
    && (forall t :: Pending(s, t) ==> 0 <= t < |s.jobs| && s.jobs[t].symbol in s.seen)
    && (forall name :: name in s.seen ==> exists t :: Pending(s, t) && 0 <= t < |s.jobs| && s.jobs[t].symbol == name)
    && (forall t, u :: Pending(s, t) && Pending(s, u) && 0 <= t < |s.jobs| && 0 <= u < |s.jobs| && t != u ==>
          s.jobs[t].symbol != s.jobs[u].symbol)
  }

  ghost predicate Sound(s: Desk) { InOnePlace(s) && SeenIsPending(s) }

  lemma SubmitKeeps(s: Desk, user: int, symbol: string)
    requires Sound(s) && Accepts(s, symbol)
    ensures Sound(Step(s, Submit(user, symbol)))
  {
    hide Canonical;
    var s', n := Step(s, Submit(user, symbol)), |s.jobs|;
    assert forall t :: Pending(s', t) <==> Pending(s, t) || t == n;
    forall name | name in s'.seen ensures exists t :: Pending(s', t) && 0 <= t < n + 1 && s'.jobs[t].symbol == name {
      if name in s.seen {
        var t :| Pending(s, t) && 0 <= t < n && s.jobs[t].symbol == name;
        assert Pending(s', t) && s'.jobs[t].symbol == name;
      } else {
        assert Pending(s', n) && s'.jobs[n].symbol == name;
      }
    }
  }

  /** Moving a ticket between places changes neither what is pending nor what is filled. */
  lemma MoveKeeps(s: Desk, s': Desk)
    requires SeenIsPending(s) && s'.jobs == s.jobs && s'.seen == s.seen
    requires forall t :: Pending(s', t) <==> Pending(s, t)
    ensures SeenIsPending(s')
  {
  }

  lemma EnqueueKeeps(s: Desk, t: int)
    requires Sound(s) && t in s.aboutTo
    ensures Sound(Step(s, Enqueue(t)))
  {
    var s' := Step(s, Enqueue(t));
    assert s'.queue[|s.queue|] == t;
    assert forall u :: Pending(s', u) <==> Pending(s, u);
    MoveKeeps(s, s');
  }

  lemma TakeKeeps(s: Desk)
    requires Sound(s) && s.queue != []
    ensures Sound(Step(s, Take))
  {
    var s' := Step(s, Take);
    assert s.queue == [s.queue[0]] + s'.queue;
    assert forall u :: Pending(s', u) <==> Pending(s, u);
    MoveKeeps(s, s');
  }

  lemma FinishKeeps(s: Desk, t: int)
    requires Sound(s) && t in s.inFlight && 0 <= t < |s.jobs|
    ensures Sound(Step(s, Finish(t)))
  {
    var s' := Step(s, Finish(t));
    assert forall u :: Pending(s', u) <==> Pending(s, u) && u != t;
    assert forall u :: u in s'.filled <==> u in s.filled || u == t;
    forall name | name in s'.seen ensures exists u :: Pending(s', u) && 0 <= u < |s.jobs| && s'.jobs[u].symbol == name {
      var u :| Pending(s, u) && 0 <= u < |s.jobs| && s.jobs[u].symbol == name;
      assert Pending(s', u);
    }
  }

  lemma StepKeeps(s: Desk, a: Action)
    requires Sound(s) && Enabled(s, a)
    ensures Sound(Step(s, a))
  {
    hide InOnePlace, SeenIsPending;
    match a {
      case Submit(user, symbol) =>
        if Accepts(s, symbol) {
          SubmitKeeps(s, user, symbol);
        }
      case Enqueue(t) => EnqueueKeeps(s, t);
      case Take => TakeKeeps(s);
      case Finish(t) => FinishKeeps(s, t);
    }
  }

  /** After any interleaving of submitters and workers. */
  lemma {:induction false} AlwaysSound(run: seq<Action>)
    requires Possible(EMPTY, run)
    ensures Sound(Run(EMPTY, run))
  {
    hide Step, Enabled;
    if run != [] {
      AlwaysSound(run[..|run| - 1]);
      StepKeeps(Run(EMPTY, run[..|run| - 1]), run[|run| - 1]);
    }
  }

  /** A submit is turned away exactly when it names nothing or its symbol still waits for its fill. */
  lemma AcceptedWhenNotPending(run: seq<Action>, symbol: string)
    requires Possible(EMPTY, run)
    ensures var s := Run(EMPTY, run);
            Accepts(s, symbol) <==>
              Canonical(symbol) != "" &&
              forall t :: Pending(s, t) && 0 <= t < |s.jobs| ==> s.jobs[t].symbol != Canonical(symbol)
  {
    hide Step, Run, Canonical;
    AlwaysSound(run);
  }

  // ------------------------------------------------------------ in order, and for whom
  /** The tickets queued in a run, and those taken, in order. */
  function Queued(run: seq<Action>): seq<int> {
    if run == [] then []
    else
      var before := Queued(run[..|run| - 1]);
      if run[|run| - 1].Enqueue? then before + [run[|run| - 1].ticket] else before
  }

  function Taken(run: seq<Action>): seq<int>
    requires Possible(EMPTY, run)
  {
    if run == [] then []
    else
      var front := run[..|run| - 1];
      if run[|run| - 1].Take? then Taken(front) + [Run(EMPTY, front).queue[0]] else Taken(front)
  }

  /** First in, first out. */
  lemma {:induction false} TakenInOrder(run: seq<Action>)
    requires Possible(EMPTY, run)
    ensures Queued(run) == Taken(run) + Run(EMPTY, run).queue
  {
    hide Accepts;
    if run != [] {
      var front, a := run[..|run| - 1], run[|run| - 1];
      TakenInOrder(front);
      var q := Run(EMPTY, front).queue;
      match a {
        case Take => assert q == [q[0]] + q[1..];
        case _ =>
      }
    }
  }

  /** A ticket keeps the user and the symbol it was accepted for. */
  lemma JobsStay(s: Desk, a: Action, t: int)
    requires Enabled(s, a)
    ensures |s.jobs| <= |Step(s, a).jobs| && (0 <= t < |s.jobs| ==> Step(s, a).jobs[t] == s.jobs[t])
    ensures a.Submit? && Accepts(s, a.symbol) ==> Step(s, a).jobs == s.jobs + [Job(a.user, Canonical(a.symbol))]
    ensures !(a.Submit? && Accepts(s, a.symbol)) ==> Step(s, a).jobs == s.jobs
  {
    hide Canonical;
  }

  function Load(s: Desk): nat { 3 * |s.aboutTo| + 2 * |s.queue| + |s.inFlight| }

  /** Every step but a submit brings the desk nearer to empty. */
  lemma WorkShrinks(s: Desk, a: Action)
    requires Sound(s) && Enabled(s, a) && !a.Submit?
    ensures Load(Step(s, a)) < Load(s)
  {
    match a {
      case Enqueue(t) => OneLess(s.aboutTo, t);
      case Take => AtMostOneMore(s.inFlight, s.queue[0]);
      case Finish(t) => OneLess(s.inFlight, t);
    }
  }

  /** ... and such a step is possible while anything is left: nothing waits for another submit. */
  lemma WorkIsPossible(s: Desk) returns (a: Action)
    requires Sound(s) && 0 < Load(s)
    ensures Enabled(s, a) && !a.Submit?
  {
    if s.queue != [] {
      a := Take;
    } else if s.aboutTo != {} {
      var t := Member(s.aboutTo);
      a := Enqueue(t);
    } else {
      var t := Member(s.inFlight);
      assert Pending(s, t);
      a := Finish(t);
    }
  }

  /** An idle desk has filled each accepted submit exactly once. */
  lemma IdleMeansAllFilled(run: seq<Action>)
    requires Possible(EMPTY, run) && Load(Run(EMPTY, run)) == 0
    ensures var s := Run(EMPTY, run);
            && s.seen == {} && Distinct(s.filled) && |s.filled| == |s.jobs|
            && forall t :: 0 <= t < |s.jobs| <==> t in s.filled
  {
    hide Step, Run;
    AlwaysSound(run);
    var s := Run(EMPTY, run);
    assert s.aboutTo == {} && s.queue == [] && s.inFlight == {};
    assert forall t :: !Pending(s, t);
    CountDistinct(s.filled, |s.jobs|);
  }

  lemma WithoutAt(a: seq<int>, i: nat)
    requires Distinct(a) && i < |a|
    ensures var rest := a[..i] + a[i + 1..]; Distinct(rest) && forall t :: t in rest <==> t in a && t != a[i]
  {
    var rest := a[..i] + a[i + 1..];
    assert forall j :: 0 <= j < |rest| ==> rest[j] == a[if j < i then j else j + 1];
    forall t ensures t in rest <==> t in a && t != a[i] {
      if t in a && t != a[i] {
        var j :| 0 <= j < |a| && a[j] == t;
        assert rest[if j < i then j else j - 1] == t;
      }
      if t in rest {
        var j :| 0 <= j < |rest| && rest[j] == t;
        assert a[if j < i then j else j + 1] == t;
      }
    }
  }

  lemma {:induction false} CountDistinct(a: seq<int>, n: nat)
    requires Distinct(a) && forall t :: 0 <= t < n <==> t in a
    ensures |a| == n
    decreases n
  {
    assert |a| > 0 ==> a[0] in a && 0 <= a[0] < n;
    if n > 0 {
      assert n - 1 in a;
      var i :| 0 <= i < |a| && a[i] == n - 1;
      var rest := a[..i] + a[i + 1..];
      WithoutAt(a, i);
      CountDistinct(rest, n - 1);
    }
  }

  /** `Deepener`, step by step; its real fields are the queue and `_seen`. */
  class Deepener {
    var q: seq<Job>
    var seen: set<string>
    ghost var desk: Desk

    ghost predicate Valid() reads this {
      && Sound(desk) && desk.seen == seen && |q| == |desk.queue|
      && forall i :: 0 <= i < |q| ==> 0 <= desk.queue[i] < |desk.jobs| && q[i] == desk.jobs[desk.queue[i]]
    }

    constructor ()
      ensures Valid() && desk == EMPTY
    {
      q, seen, desk := [], {}, EMPTY;
      new;
      assert Possible(EMPTY, []);
      AlwaysSound([]);
    }

    /** The part of `submit` under the lock. */
    method Check(user: int, symbol: string) returns (job: Option<Job>, ghost ticket: int)
      requires Valid()
      modifies this`seen, this`desk
      ensures Valid() && desk == Step(old(desk), Submit(user, symbol))
      ensures job.Some? <==> Accepts(old(desk), symbol)
      ensures job.Some? ==> ticket in desk.aboutTo && 0 <= ticket < |desk.jobs| && desk.jobs[ticket] == job.value
      ensures job.Some? ==> job.value == Job(user, Canonical(symbol))
    {
      hide Sound, Canonical;
      StepKeeps(desk, Submit(user, symbol));
      var sym := Canonical(symbol);
      job, ticket := None, 0;
      if sym == "" {
        return;
      }
      if sym in seen {
        return;
      }
      seen := seen + {sym};
      ticket := |desk.jobs|;
      desk := Step(desk, Submit(user, symbol));
      job := Some(Job(user, sym));
    }

    method Put(job: Job, ghost ticket: int)
      requires Valid() && ticket in desk.aboutTo && 0 <= ticket < |desk.jobs| && desk.jobs[ticket] == job
      modifies this`q, this`desk
      ensures Valid() && desk == Step(old(desk), Enqueue(ticket))
    {
      hide Sound;
      StepKeeps(desk, Enqueue(ticket));
      q := q + [job];
      desk := Step(desk, Enqueue(ticket));
    }

    /** A worker's `get`; nothing when the queue is empty. */
    method Get() returns (job: Option<Job>, ghost ticket: int)
      requires Valid()
      modifies this`q, this`desk
      ensures Valid() && (job.None? <==> old(q) == [])
      ensures job.None? ==> desk == old(desk)
      ensures job.Some? ==> desk == Step(old(desk), Take) && ticket == old(desk).queue[0]
      ensures job.Some? ==> ticket in desk.inFlight && 0 <= ticket < |desk.jobs| && desk.jobs[ticket] == job.value
    {
      hide Sound;
      job, ticket := None, 0;
      if q == [] {
        return;
      }
      StepKeeps(desk, Take);
      ticket := desk.queue[0];
      job := Some(q[0]);
      q := q[1..];
      desk := Step(desk, Take);
    }

    /** After the fill, however it ended. */
    method Done(job: Job, ghost ticket: int)
      requires Valid() && ticket in desk.inFlight && 0 <= ticket < |desk.jobs| && desk.jobs[ticket] == job
      modifies this`seen, this`desk
      ensures Valid() && desk == Step(old(desk), Finish(ticket))
    {
      hide Sound;
      StepKeeps(desk, Finish(ticket));
      seen := seen - {job.symbol};
      desk := Step(desk, Finish(ticket));
    }
  }
}
