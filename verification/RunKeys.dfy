/** Report keys beside the runs they are for: row ids are given out again, and keys are kept by id. */
module RunKeys {
  import opened Common
  import B = Backtests
  import K = ReportKeys

  /** A finished row that a request has read before it asks for a key. */
  datatype Seen = Seen(run: int, birth: int)

  /** A use of a key, and the start whose directory it was served from. */
  datatype Opened = Opened(token: string, found: Option<int>)

  /** The runs, the keys, the rows requests have read, and as history what each token was asked for and opened. */
  datatype Both = Both(desk: B.Desk, ring: K.Ring, known: set<Seen>, askedFor: map<string, int>, uses: seq<Opened>)

  const EMPTY := Both(B.EMPTY, K.EMPTY, {}, map[], [])

  datatype Action =
    | OfRuns(step: B.Action)
    | Read(run: int)
    | Mint(run: int, birth: int, file: string, token: string, now: real)
    | Consume(run: int, supplied: string, now: real)

  /** Only a run that is done has reports to ask for. */
  predicate Enabled(s: Both, a: Action) {
    match a
    case OfRuns(step) => B.Enabled(s.desk, step)
    case Read(run) => run in s.desk.rows && s.desk.rows[run].status.Done?
    case Mint(run, birth, _, token, _) => Seen(run, birth) in s.known && token !in s.ring.minted
    case Consume(_, _, _) => true
  }

  /** A deletion past its first check has popped the run's key. */
  function Popped(ring: K.Ring, desk: B.Desk, step: B.Action): K.Ring {
    if step.CheckDelete? && desk.runId != Some(step.run) then K.Step(ring, K.Drop(step.run)) else ring
  }

  function Birth(desk: B.Desk, run: int): Option<int> { if run in desk.rows then Some(desk.rows[run].birth) else None }

  function Step(s: Both, a: Action): Both
    requires Enabled(s, a)
  {
    match a
    case OfRuns(step) => s.(desk := B.Step(s.desk, step), ring := Popped(s.ring, s.desk, step))
    case Read(run) => s.(known := s.known + {Seen(run, s.desk.rows[run].birth)})
    case Mint(run, birth, file, token, now) =>
      s.(ring := K.Step(s.ring, K.Mint(run, file, token, now)), askedFor := s.askedFor[token := birth])
    case Consume(run, supplied, now) =>
      var s' := s.(ring := K.Step(s.ring, K.Consume(run, supplied, now)));
      if K.Accepts(s.ring, run, supplied, now) then s'.(uses := s.uses + [Opened(supplied, Birth(s.desk, run))])
      else s'
  }

  ghost predicate Possible(s: Both, run: seq<Action>)
    decreases |run|, 0
  {
    run == [] || (Possible(s, run[..|run| - 1]) && Enabled(Run(s, run[..|run| - 1]), run[|run| - 1]))
  }

  ghost function Run(s: Both, run: seq<Action>): Both
    requires Possible(s, run)
    decreases |run|, 1
  {
    if run == [] then s else Step(Run(s, run[..|run| - 1]), run[|run| - 1])
  }

  // ------------------------------------------------------------ what holds under any interleaving
  /** Every key and every use is of a minted token, and a row that was read is still done while it is there. */
  ghost predicate Tidy(s: Both) {
    && (forall r :: r in s.ring.keys ==> s.ring.keys[r].token in s.ring.minted)
    && (forall i :: 0 <= i < |s.uses| ==> s.uses[i].token in s.ring.minted)
    && (forall token :: token in s.ring.minted <==> token in s.askedFor)
    && (forall e :: e in s.known ==>
          e.birth < |s.desk.procs| && (Birth(s.desk, e.run) == Some(e.birth) ==> s.desk.rows[e.run].status.Done?))
  }

  lemma KnownStayDone(desk: B.Desk, a: B.Action, e: Seen)
    requires B.Sound(desk) && B.Enabled(desk, a) && e.birth < |desk.procs|
    requires Birth(desk, e.run) == Some(e.birth) ==> desk.rows[e.run].status.Done?
    ensures e.birth < |B.Step(desk, a).procs|
    ensures Birth(B.Step(desk, a), e.run) == Some(e.birth) ==> B.Step(desk, a).rows[e.run].status.Done?
  {
    hide B.Step, B.Enabled, B.Sound;
    B.SlotsGrow(desk, a);
    if e.run in B.Step(desk, a).rows {
      B.StepAndBirths(desk, a, e.run);
    }
    if e.run in desk.rows {
      B.StepAndRow(desk, a, e.run);
    }
  }

  lemma StepStaysTidy(s: Both, a: Action)
    requires Tidy(s) && B.Sound(s.desk) && Enabled(s, a)
    ensures Tidy(Step(s, a))
  {
    hide B.Step, B.Enabled, B.Sound;
    if a.OfRuns? {
      forall e | e in s.known
        ensures e.birth < |B.Step(s.desk, a.step).procs|
        ensures Birth(B.Step(s.desk, a.step), e.run) == Some(e.birth) ==>
          B.Step(s.desk, a.step).rows[e.run].status.Done?
      {
        KnownStayDone(s.desk, a.step, e);
      }
    } else if a.Read? {
      RowsHaveSlots(s.desk, a.run);
    }
  }

  lemma RowsHaveSlots(desk: B.Desk, run: int)
    requires B.Sound(desk) && run in desk.rows
    ensures desk.rows[run].birth < |desk.procs|
  {
  }

  lemma StepStaysSound(s: Both, a: Action)
    requires B.Sound(s.desk) && Enabled(s, a)
    ensures B.Sound(Step(s, a).desk)
  {
    hide B.Step, B.Enabled, B.Sound;
    if a.OfRuns? {
      B.StepKeeps(s.desk, a.step);
    }
  }

  lemma {:induction false} AlwaysTidy(run: seq<Action>)
    requires Possible(EMPTY, run)
    ensures Tidy(Run(EMPTY, run)) && B.Sound(Run(EMPTY, run).desk)
  {
    hide Step, Enabled, Tidy, B.Sound;
    if run == [] {
      NothingYet();
    } else {
      var s, a := Run(EMPTY, run[..|run| - 1]), run[|run| - 1];
      AlwaysTidy(run[..|run| - 1]);
      StepStaysTidy(s, a);
      StepStaysSound(s, a);
    }
  }

  lemma NothingYet()
    ensures Tidy(EMPTY) && B.Sound(EMPTY.desk)
  {
    B.NoneYet();
  }

  // ------------------------------------------------------------ when a key is safe
  /** The run is still the one that was read, and its own user has no deletion of it past the first check. */
  predicate SafeToMint(desk: B.Desk, run: int, birth: int) {
    Birth(desk, run) == Some(birth) && B.Deletion(run, desk.rows[run].user) !in desk.deleting
  }

  /** A token's key, while it is in the table, is safe, and each of its uses opened the start it was asked for. */
  ghost predicate SafeToken(s: Both, token: string)
    requires token in s.askedFor
  {
    && (forall r :: r in s.ring.keys && s.ring.keys[r].token == token ==> SafeToMint(s.desk, r, s.askedFor[token]))
    && OpensOwn(s, token, s.askedFor[token])
  }

  ghost predicate OpensOwn(s: Both, token: string, birth: int) {
    forall i :: 0 <= i < |s.uses| && s.uses[i].token == token ==> s.uses[i].found == Some(birth)
  }

  /** Only the user's own deletion removes a row, and it cannot be under way while the key is in the table. */
  lemma SafeRowStays(desk: B.Desk, a: B.Action, r: int, birth: int)
    requires B.Enabled(desk, a) && SafeToMint(desk, r, birth)
    ensures SafeToMint(B.Step(desk, a), r, birth) || (a.CheckDelete? && a.run == r && desk.runId != Some(r))
  {
  }

  lemma RunsKeepSafe(s: Both, step: B.Action, token: string)
    requires B.Enabled(s.desk, step) && token in s.askedFor && SafeToken(s, token)
    ensures SafeToken(Step(s, OfRuns(step)), token)
  {
    hide B.Step, B.Enabled, SafeToMint;
    var s' := Step(s, OfRuns(step));
    forall r | r in s'.ring.keys && s'.ring.keys[r].token == token ensures SafeToMint(s'.desk, r, s.askedFor[token]) {
      SafeRowStays(s.desk, step, r, s.askedFor[token]);
    }
  }

  /** Whatever else happens, other mints included, a safe token stays safe. */
  lemma StaysSafe(s: Both, a: Action, token: string)
    requires Tidy(s) && Enabled(s, a) && token in s.askedFor && SafeToken(s, token)
    ensures token in Step(s, a).askedFor && Step(s, a).askedFor[token] == s.askedFor[token]
    ensures SafeToken(Step(s, a), token)
  {
    hide B.Step, B.Enabled;
    if a.OfRuns? {
      RunsKeepSafe(s, a.step, token);
    }
  }

  lemma {:induction false} SafeForGood(s: Both, more: seq<Action>, token: string)
    requires Tidy(s) && B.Sound(s.desk) && token in s.askedFor && SafeToken(s, token) && Possible(s, more)
    ensures var s' := Run(s, more);
            Tidy(s') && B.Sound(s'.desk) && token in s'.askedFor && s'.askedFor[token] == s.askedFor[token]
            && SafeToken(s', token)
  {
    hide Step, Enabled, Tidy, B.Sound, SafeToken;
    if more != [] {
      var m, a := Run(s, more[..|more| - 1]), more[|more| - 1];
      SafeForGood(s, more[..|more| - 1], token);
      StepStaysTidy(m, a);
      StepStaysSound(m, a);
      StaysSafe(m, a, token);
    }
  }

  lemma SafeAfterMint(s: Both, m: Action)
    requires Tidy(s) && m.Mint? && Enabled(s, m) && SafeToMint(s.desk, m.run, m.birth)
    ensures SafeToken(Step(s, m), m.token)
  {
    hide SafeToMint;
  }

  lemma AfterOne(s: Both, a: Action)
    requires Enabled(s, a)
    ensures Possible(s, [a]) && Run(s, [a]) == Step(s, a)
  {
    hide Step, Enabled;
    assert [a][..|[a]| - 1] == [];
  }

  lemma OneMore(s: Both, run: seq<Action>, a: Action)
    requires Possible(s, run) && Enabled(Run(s, run), a)
    ensures Possible(s, run + [a]) && Run(s, run + [a]) == Step(Run(s, run), a)
  {
    hide Step, Enabled;
    assert (run + [a])[..|run + [a]| - 1] == run;
  }

  /** An unsafe mint: the key can be used at once, or after the user's deletion, when its run is not there. */
  lemma UnsafeMint(s: Both, m: Action) returns (more: seq<Action>)
    requires Tidy(s) && m.Mint? && Enabled(s, m) && !SafeToMint(s.desk, m.run, m.birth)
    ensures Possible(Step(s, m), more) && !OpensOwn(Run(Step(s, m), more), m.token, m.birth)
  {
    hide Run, Possible;
    var s', use := Step(s, m), Consume(m.run, m.token, m.now);
    assert K.Accepts(s'.ring, m.run, m.token, m.now);
    if Birth(s.desk, m.run) != Some(m.birth) {
      AfterOne(s', use);
      more := [use];
      assert Run(s', more).uses[|s.uses|] == Opened(m.token, Birth(s.desk, m.run));
    } else {
      var delete := OfRuns(B.DeleteRow(m.run, s.desk.rows[m.run].user));
      assert Seen(m.run, m.birth) in s.known;
      AfterOne(s', delete);
      OneMore(s', [delete], use);
      more := [delete] + [use];
      assert Run(s', more).uses[|s.uses|] == Opened(m.token, None);
    }
  }

  /**
   * A key opens nothing but the start it was asked for, in every continuation and whatever else is minted, exactly
   * when at the mint that run is still there and its own user has no deletion of it past the first check.
   */
  lemma MintIsSafe(run: seq<Action>, m: Action)
    requires Possible(EMPTY, run) && m.Mint? && Enabled(Run(EMPTY, run), m)
    ensures var s := Run(EMPTY, run);
            (forall more :: Possible(Step(s, m), more) ==> OpensOwn(Run(Step(s, m), more), m.token, m.birth)) <==>
            SafeToMint(s.desk, m.run, m.birth)
  {
    hide Run, Possible, Tidy, OpensOwn, SafeToMint, B.Sound;
    var s := Run(EMPTY, run);
    AlwaysTidy(run);
    StepStaysTidy(s, m);
    if SafeToMint(s.desk, m.run, m.birth) {
      SafeAfterMint(s, m);
      forall more | Possible(Step(s, m), more) ensures OpensOwn(Run(Step(s, m), more), m.token, m.birth) {
        SafeForGood(Step(s, m), more, m.token);
      }
    } else {
      var more := UnsafeMint(s, m);
      assert !OpensOwn(Run(Step(s, m), more), m.token, m.birth);
    }
  }

  ghost predicate SafeMints(s: Both, run: seq<Action>)
    requires Possible(s, run)
  {
    run == [] || (SafeMints(s, run[..|run| - 1]) && SafeMint(Run(s, run[..|run| - 1]), run[|run| - 1]))
  }

  predicate SafeMint(s: Both, a: Action) { a.Mint? ==> SafeToMint(s.desk, a.run, a.birth) }

  lemma {:induction false} AlwaysSafe(run: seq<Action>)
    requires Possible(EMPTY, run) && SafeMints(EMPTY, run)
    ensures forall token :: token in Run(EMPTY, run).askedFor ==> SafeToken(Run(EMPTY, run), token)
  {
    hide Enabled, SafeToMint, SafeToken, Tidy, B.Sound, B.Step;
    if run != [] {
      var s, a := Run(EMPTY, run[..|run| - 1]), run[|run| - 1];
      AlwaysSafe(run[..|run| - 1]);
      AlwaysTidy(run[..|run| - 1]);
      forall token | token in Step(s, a).askedFor ensures SafeToken(Step(s, a), token) {
        if token in s.askedFor {
          StaysSafe(s, a, token);
        } else {
          SafeAfterMint(s, a);
        }
      }
    }
  }

  /** So while every mint is safe, no key ever opens another run, or a run that is gone. */
  lemma KeyOpensItsRun(run: seq<Action>, i: nat)
    requires Possible(EMPTY, run) && SafeMints(EMPTY, run) && i < |Run(EMPTY, run).uses|
    ensures var s := Run(EMPTY, run);
            var u := s.uses[i];
            u.token in s.askedFor && u.found == Some(s.askedFor[u.token])
  {
    hide Run, Possible, SafeMints, SafeToMint;
    AlwaysSafe(run);
    AlwaysTidy(run);
  }

  // ------------------------------------------------------------ opening the next run's report
  /** The row is gone, or its own user's deletion of it is past the first check. */
  predicate Going(desk: B.Desk, run: int, who: int) {
    run !in desk.rows || (B.Deletion(run, who) in desk.deleting && B.Deletes(desk, run, who))
  }

  /** The runs after the deletion and one whole further run under the same id. */
  ghost function NextRun(desk: B.Desk, run: int, who: int): seq<B.Action> {
    var p := |desk.procs|;
    (if run in desk.rows then [B.DeleteRow(run, who)] else [])
    + [B.Start(who, run, true), B.Exit(p, 0), B.Check(p), B.Write(p, B.Good)]
  }

  lemma DeletedFirst(desk: B.Desk, run: int, who: int)
    requires B.Sound(desk) && Going(desk, run, who) && !B.Busy(desk) && B.NextId(desk.rows - {run}, run)
    ensures var first := if run in desk.rows then [B.DeleteRow(run, who)] else [];
            && B.Possible(desk, first)
            && var after := B.Run(desk, first);
               B.Sound(after) && B.Enabled(after, B.Start(who, run, true)) && |after.procs| == |desk.procs|
  {
    hide B.Sound, B.NextId;
    if run in desk.rows {
      var a := B.DeleteRow(run, who);
      B.StepKeeps(desk, a);
      B.NoSteps(desk);
      B.OneMore(desk, [], a);
      assert [] + [a] == [a];
      assert B.Step(desk, a).rows == desk.rows - {run};
    } else {
      B.NoSteps(desk);
      assert desk.rows - {run} == desk.rows;
    }
  }

  /** A launch, an exit with 0, the reader's look and its write: the row is done. */
  lemma WholeRun(desk: B.Desk, run: int, who: int, p: int)
    requires B.Sound(desk) && B.Enabled(desk, B.Start(who, run, true)) && p == |desk.procs|
    ensures var s1 := B.Step(desk, B.Start(who, run, true));
            && B.Enabled(s1, B.Exit(p, 0))
            && var s2 := B.Step(s1, B.Exit(p, 0));
               B.Enabled(s2, B.Check(p)) && B.Enabled(B.Step(s2, B.Check(p)), B.Write(p, B.Good))
               && var s' := B.Step(B.Step(s2, B.Check(p)), B.Write(p, B.Good));
                  run in s'.rows && s'.rows[run] == B.Row(who, B.Done, p)
  {
    hide B.NextId, B.OwnRows, B.HonestRows, B.NoEarlyReuse, B.MarkAgrees;
  }

  lemma NextRunEnds(desk: B.Desk, run: int, who: int)
    requires B.Sound(desk) && Going(desk, run, who) && !B.Busy(desk) && B.NextId(desk.rows - {run}, run)
    ensures var acts := NextRun(desk, run, who);
            && B.Possible(desk, acts)
            && var after := B.Run(desk, acts); run in after.rows && after.rows[run] == B.Row(who, B.Done, |desk.procs|)
  {
    hide B.Possible, B.Run, B.Step, B.Enabled, B.Sound, B.NextId, B.Busy, Going;
    var p := |desk.procs|;
    var acts := if run in desk.rows then [B.DeleteRow(run, who)] else [];
    DeletedFirst(desk, run, who);
    WholeRun(B.Run(desk, acts), run, who, p);
    B.OneMore(desk, acts, B.Start(who, run, true));
    acts := acts + [B.Start(who, run, true)];
    B.OneMore(desk, acts, B.Exit(p, 0));
    acts := acts + [B.Exit(p, 0)];
    B.OneMore(desk, acts, B.Check(p));
    acts := acts + [B.Check(p)];
    B.OneMore(desk, acts, B.Write(p, B.Good));
    acts := acts + [B.Write(p, B.Good)];
    assert acts == NextRun(desk, run, who);
  }

  function Lifted(acts: seq<B.Action>): seq<Action> { seq(|acts|, i requires 0 <= i < |acts| => OfRuns(acts[i])) }

  /** Steps of the runs alone, without the first half of a deletion, leave the keys as they are. */
  lemma {:induction false} RunsAlone(s: Both, acts: seq<B.Action>)
    requires B.Possible(s.desk, acts) && forall i :: 0 <= i < |acts| ==> !acts[i].CheckDelete?
    ensures Possible(s, Lifted(acts)) && Run(s, Lifted(acts)) == s.(desk := B.Run(s.desk, acts))
  {
    hide B.Step, B.Enabled;
    if acts == [] {
      assert Lifted(acts) == [];
    } else {
      var front := acts[..|acts| - 1];
      RunsAlone(s, front);
      assert Lifted(acts) == Lifted(front) + [OfRuns(acts[|acts| - 1])];
      OneMore(s, Lifted(front), OfRuns(acts[|acts| - 1]));
    }
  }

  /**
   * A key minted for a run that is gone or going opens the next run under that id once that run is done, while the
   * key has not expired. The file it serves is the one of the same name.
   */
  lemma LateMintOpensAnother(s: Both, m: Action, who: int, later: real) returns (more: seq<Action>)
    requires Tidy(s) && B.Sound(s.desk) && m.Mint? && Enabled(s, m) && later <= m.now + K.REPORT_KEY_TTL
    requires Going(s.desk, m.run, who) && !B.Busy(s.desk) && B.NextId(s.desk.rows - {m.run}, m.run)
    ensures Possible(Step(s, m), more)
    ensures var s', p := Run(Step(s, m), more), |s.desk.procs|;
            && p != m.birth && m.run in s'.desk.rows && s'.desk.rows[m.run] == B.Row(who, B.Done, p)
            && |s'.uses| == |s.uses| + 1 && s'.uses[|s.uses|] == Opened(m.token, Some(p))
  {
    hide Run, Possible, B.Run, B.Possible, B.Sound, B.Step, B.Enabled, B.NextId, B.Busy, Going;
    var s1, acts := Step(s, m), NextRun(s.desk, m.run, who);
    NextRunEnds(s.desk, m.run, who);
    RunsAlone(s1, acts);
    var use := Consume(m.run, m.token, later);
    OneMore(s1, Lifted(acts), use);
    more := Lifted(acts) + [use];
    assert Seen(m.run, m.birth) in s.known;
  }

  /** Such a mint is reached: one finished run is read, and the first half of its deletion is done. */
  lemma LateMintIsPossible() returns (run: seq<Action>)
    ensures Possible(EMPTY, run)
    ensures var s := Run(EMPTY, run);
            && Enabled(s, Mint(1, 0, "report.html", "key", 0.0))
            && Going(s.desk, 1, 7) && !B.Busy(s.desk) && B.NextId(s.desk.rows - {1}, 1)
  {
    hide B.Possible, B.Run, Possible, Run;
    var acts := B.FirstRunWritten();
    B.OneMore(B.EMPTY, acts, B.Cleanup(0));
    acts := acts + [B.Cleanup(0)];
    RunsAlone(EMPTY, acts);
    OneMore(EMPTY, Lifted(acts), Read(1));
    run := Lifted(acts) + [Read(1)];
    OneMore(EMPTY, run, OfRuns(B.CheckDelete(1, 7)));
    run := run + [OfRuns(B.CheckDelete(1, 7))];
    var s := Run(EMPTY, run);
    assert s.desk.rows == map[1 := B.Row(7, B.Done, 0)];
    assert s.desk.rows - {1} == map[];
  }
}
