/** The manager object itself: each method is one step taken under its lock, or one statement on the table. */
module Manager {
  import opened Common
  import opened Backtests
  import Days

  datatype StartResult = RunActive | LaunchFailed(id: int) | Started(id: int)

  class BacktestManager {
    var rows: map<int, Row>
    var procs: seq<Proc>
    var readers: seq<Reader>
    var proc: Option<int>
    var runId: Option<int>
    var cancelledRun: Option<int>
    ghost var deleting: multiset<Deletion>
    ghost var latest: Option<int>
    ghost var cancels: set<int>
    ghost var looks: set<int>
    ghost var wrote: map<int, Report>

    ghost function State(): Desk reads this {
      Desk(rows, procs, readers, proc, runId, cancelledRun, deleting, latest, cancels, looks, wrote)
    }

    ghost predicate Valid() reads this { Sound(State()) }

    constructor ()
      ensures Valid() && State() == EMPTY
    {
      rows, procs, readers, proc, runId, cancelledRun := map[], [], [], None, None, None;
      deleting, latest, cancels, looks, wrote := multiset{}, None, {}, {}, map[];
      new;
      NoneYet();
    }

    predicate StillRunning() reads this {
      proc.Some? && 0 <= proc.value < |procs| && (procs[proc.value].Running? || procs[proc.value].Killed?)
    }

    method NextRowId() returns (id: int)
      ensures NextId(rows, id)
      ensures rows == map[] ==> id == 1
      ensures rows != map[] ==> id - 1 in rows && forall k :: k in rows ==> k < id
    {
      if rows == map[] {
        return 1;
      }
      Days.Extremes(rows.Keys);
      var hi :| Days.IsMost(hi, rows.Keys);
      id := hi + 1;
    }

    method Finish(run: int, status: Status)
      modifies this`rows
      ensures rows == Finished(old(rows), run, status)
    {
      if run in rows {
        rows := rows[run := rows[run].(status := status)];
      }
    }

    /** The insert, the launch and the new state are one step: the lock is held throughout. */
    method Start(user: int, launches: bool) returns (r: StartResult)
      requires Valid()
      modifies this
      ensures Valid()
      ensures r.RunActive? <==> Busy(old(State()))
      ensures r.RunActive? ==> State() == old(State())
      ensures !r.RunActive? ==>
        && (r.Started? <==> launches) && Enabled(old(State()), Backtests.Start(user, r.id, launches))
        && State() == Step(old(State()), Backtests.Start(user, r.id, launches))
        && r.id in rows && rows[r.id].user == user && rows[r.id].status == (if launches then Active else Error)
    {
      hide Sound, NextId;
      ShapeOf(State());
      if StillRunning() {
        return RunActive;
      }
      var id := NextRowId();
      StepKeeps(State(), Backtests.Start(user, id, launches));
      rows := rows[id := Row(user, Active, |procs|)];
      if !launches {
        procs, readers := procs + [NeverRan], readers + [Reader(id, Gone)];
        Finish(id, Error);
        assert rows == old(rows)[id := Row(user, Error, old(|procs|))];
        return LaunchFailed(id);
      }
      proc := Some(|procs|);
      latest := proc;
      procs, readers := procs + [Running], readers + [Reader(id, Following)];
      runId, cancelledRun := Some(id), None;
      r := Started(id);
    }

    method Cancel(run: int) returns (ok: bool)
      requires Valid()
      modifies this
      ensures Valid() && State() == Step(old(State()), Backtests.Cancel(run))
      ensures ok <==> Cancels(old(State()), run)
      ensures ok ==> cancelledRun == Some(run) && proc.Some? && 0 <= proc.value < |procs| && procs[proc.value] == Killed
    {
      hide Sound;
      ShapeOf(State());
      StepKeeps(State(), Backtests.Cancel(run));
      if runId != Some(run) || !StillRunning() {
        return false;
      }
      cancelledRun := Some(run);
      procs := procs[proc.value := Killed];
      cancels := cancels + {proc.value};
      ok := true;
    }

    /** The reader's first look after its process has ended. */
    method IngestCheck(p: int) returns (cancelled: bool)
      requires Valid() && Enabled(State(), Check(p))
      modifies this
      ensures Valid() && State() == Step(old(State()), Check(p))
      ensures cancelled <==> p in cancels && latest == Some(p)
    {
      hide Sound;
      MarkedWhenLatest(State(), p);
      StepKeeps(State(), Check(p));
      cancelled := cancelledRun == Some(readers[p].run);
      if cancelled {
        cancelledRun := None;
      }
      readers := readers[p := readers[p].(phase := Ingesting(cancelled))];
      looks := if latest == Some(p) then looks + {p} else looks;
    }

    method IngestWrite(p: int, report: Report)
      requires Valid() && Enabled(State(), Write(p, report))
      modifies this
      ensures Valid() && State() == Step(old(State()), Write(p, report))
    {
      hide Sound;
      StepKeeps(State(), Write(p, report));
      var run := readers[p].run;
      if readers[p].phase.cancelled {
        Finish(run, Cancelled);
      } else if procs[p].code != 0 || report.NoFile? {
        Finish(run, Error);
      } else if report.Unreadable? {
        Finish(run, Error);
      } else if report.Refused? {
        Finish(run, Error);
      } else {
        Finish(run, Done);
      }
      readers := readers[p := readers[p].(phase := Cleaning)];
      wrote := wrote[p := report];
    }

    /** The `finally` of a reader: it clears the manager only for its own run id. */
    method CleanUp(p: int)
      requires Valid() && Enabled(State(), Cleanup(p))
      modifies this
      ensures Valid() && State() == Step(old(State()), Cleanup(p))
    {
      hide Sound;
      StepKeeps(State(), Cleanup(p));
      if runId == Some(readers[p].run) {
        runId, proc := None, None;
      }
      readers := readers[p := readers[p].(phase := Gone)];
    }

    method CheckDelete(run: int, who: int) returns (goOn: bool)
      requires Valid()
      modifies this
      ensures Valid() && State() == Step(old(State()), Backtests.CheckDelete(run, who))
      ensures goOn <==> old(runId) != Some(run)
    {
      hide Sound;
      StepKeeps(State(), Backtests.CheckDelete(run, who));
      if runId == Some(run) {
        return false;
      }
      deleting := deleting + multiset{Deletion(run, who)};
      goOn := true;
    }

    method DeleteRow(run: int, who: int) returns (deleted: bool)
      requires Valid() && Deletion(run, who) in deleting
      modifies this
      ensures Valid() && State() == Step(old(State()), Backtests.DeleteRow(run, who))
      ensures deleted <==> run in old(rows) && old(rows)[run].user == who && !old(rows)[run].status.Active?
      ensures rows == if deleted then old(rows) - {run} else old(rows)
    {
      hide Sound;
      StepKeeps(State(), Backtests.DeleteRow(run, who));
      deleting := deleting - multiset{Deletion(run, who)};
      deleted := run in rows && rows[run].user == who && !rows[run].status.Active?;
      if deleted {
        rows := rows - {run};
      }
    }
  }

  lemma ShapeOf(s: Desk)
    requires Sound(s)
    ensures |s.procs| == |s.readers|
  {
  }
}
