/** One backtest at a time: requests, runner processes and reader threads around one manager. */
module Backtests {
  import opened Common

  datatype Status = Active | Done | Error | Cancelled

  /** `birth` names the start that made the row; it is not stored, and tells apart rows that reuse an id. */
  datatype Row = Row(user: int, status: Status, birth: int)

  /** `Killed`: the kill was sent and the process has not ended yet. `NeverRan`: the launch failed. */
  datatype Proc = Running | Killed | Exited(code: int) | NeverRan

  /** A reader follows its process, decides and writes the row's end, cleans up, and is gone. */
  datatype Phase = Following | Ingesting(cancelled: bool) | Failing | Cleaning | Gone

  datatype Reader = Reader(run: int, phase: Phase)

  /** What lies in the run's directory when the reader looks. */
  datatype Report = NoFile | Unreadable | Refused | Good

  datatype Deletion = Deletion(run: int, user: int)

  /**
   * The table of runs; per start its process and its reader; the manager's `_proc`, `_run_id` and
   * `_cancelled_run`; deletions past their first check; and, as history, the latest start that launched a runner,
   * the starts whose cancel succeeded, those that were the latest when their reader looked at the mark, and, for
   * those whose reader wrote an end, the report it had found.
   */
  datatype Desk = Desk(rows: map<int, Row>, procs: seq<Proc>, readers: seq<Reader>, proc: Option<int>,
                       runId: Option<int>, cancelled: Option<int>, deleting: multiset<Deletion>,
                       latest: Option<int>, cancels: set<int>, looks: set<int>, wrote: map<int, Report>)

  const EMPTY := Desk(map[], [], [], None, None, None, multiset{}, None, {}, {}, map[])

  datatype Action =
    | Start(user: int, id: int, launches: bool)
    | Cancel(run: int)
    | Exit(p: int, code: int)
    | Check(p: int)
    | Write(p: int, report: Report)
    | Fail(p: int)
    | WriteFailure(p: int, recorded: bool)
    | Cleanup(p: int)
    | CheckDelete(run: int, who: int)
    | DeleteRow(run: int, who: int)

  /** SQLite's next row id: one above the greatest in the table. */
  predicate NextId(rows: map<int, Row>, id: int) {
    if rows == map[] then id == 1 else id - 1 in rows && forall k :: k in rows ==> k < id
  }

  predicate Slot(s: Desk, p: int) { 0 <= p < |s.procs| && p < |s.readers| }

  /** `poll()` answers nothing: not ended yet. */
  predicate Alive(s: Desk, p: int) { Slot(s, p) && (s.procs[p].Running? || s.procs[p].Killed?) }

  predicate Busy(s: Desk) { s.proc.Some? && Alive(s, s.proc.value) }

  predicate Cancels(s: Desk, run: int) { s.runId == Some(run) && Busy(s) }

  predicate Enabled(s: Desk, a: Action) {
    match a
    case Start(_, id, _) => !Busy(s) && NextId(s.rows, id)
    case Cancel(_) => true
    case Exit(p, _) => Alive(s, p)
    case Check(p) => Slot(s, p) && s.readers[p].phase.Following? && s.procs[p].Exited?
    case Write(p, _) => Slot(s, p) && s.readers[p].phase.Ingesting? && s.procs[p].Exited?
    case Fail(p) => Slot(s, p) && (s.readers[p].phase.Following? || s.readers[p].phase.Ingesting?)
    case WriteFailure(p, _) => Slot(s, p) && s.readers[p].phase.Failing?
    case Cleanup(p) => Slot(s, p) && s.readers[p].phase.Cleaning?
    case CheckDelete(_, _) => true
    case DeleteRow(run, who) => Deletion(run, who) in s.deleting
  }

  function EndStatus(cancelled: bool, code: int, report: Report): Status {
    if cancelled then Cancelled else if code == 0 && report.Good? then Done else Error
  }

  function Finished(rows: map<int, Row>, run: int, status: Status): map<int, Row> {
    if run in rows then rows[run := rows[run].(status := status)] else rows
  }

  function Moved(readers: seq<Reader>, p: int, phase: Phase): seq<Reader>
    requires 0 <= p < |readers|
  {
    readers[p := readers[p].(phase := phase)]
  }

  function Launched(s: Desk, user: int, id: int): Desk {
    var p := |s.procs|;
    s.(rows := s.rows[id := Row(user, Active, p)], procs := s.procs + [Running],
       readers := s.readers + [Reader(id, Following)], proc := Some(p), runId := Some(id), cancelled := None,
       latest := Some(p))
  }

  function NotLaunched(s: Desk, user: int, id: int): Desk {
    s.(rows := s.rows[id := Row(user, Error, |s.procs|)], procs := s.procs + [NeverRan],
       readers := s.readers + [Reader(id, Gone)])
  }

  function Cancelling(s: Desk, run: int): Desk
    requires Cancels(s, run)
  {
    s.(cancelled := Some(run), procs := s.procs[s.proc.value := Killed], cancels := s.cancels + {s.proc.value})
  }

  function Checked(s: Desk, p: int): Desk
    requires Slot(s, p)
  {
    var c := s.cancelled == Some(s.readers[p].run);
    s.(readers := Moved(s.readers, p, Ingesting(c)), cancelled := if c then None else s.cancelled,
       looks := if s.latest == Some(p) then s.looks + {p} else s.looks)
  }

  function Written(s: Desk, p: int, report: Report): Desk
    requires Enabled(s, Write(p, report))
  {
    var status := EndStatus(s.readers[p].phase.cancelled, s.procs[p].code, report);
    s.(rows := Finished(s.rows, s.readers[p].run, status), readers := Moved(s.readers, p, Cleaning),
       wrote := s.wrote[p := report])
  }

  function Failed(s: Desk, p: int): Desk
    requires Slot(s, p)
  {
    s.(procs := if Alive(s, p) then s.procs[p := Killed] else s.procs, readers := Moved(s.readers, p, Failing))
  }

  function FailureWritten(s: Desk, p: int, recorded: bool): Desk
    requires Slot(s, p)
  {
    s.(rows := if recorded then Finished(s.rows, s.readers[p].run, Error) else s.rows,
       readers := Moved(s.readers, p, Cleaning))
  }

  function Cleaned(s: Desk, p: int): Desk
    requires Slot(s, p)
  {
    var s' := s.(readers := Moved(s.readers, p, Gone));
    if s.runId == Some(s.readers[p].run) then s'.(runId := None, proc := None) else s'
  }

  predicate Deletes(s: Desk, run: int, who: int) {
    run in s.rows && s.rows[run].user == who && !s.rows[run].status.Active?
  }

  function Step(s: Desk, a: Action): Desk
    requires Enabled(s, a)
  {
    match a
    case Start(user, id, launches) => if launches then Launched(s, user, id) else NotLaunched(s, user, id)
    case Cancel(run) => if Cancels(s, run) then Cancelling(s, run) else s
    case Exit(p, code) => s.(procs := s.procs[p := Exited(code)])
    case Check(p) => Checked(s, p)
    case Write(p, report) => Written(s, p, report)
    case Fail(p) => Failed(s, p)
    case WriteFailure(p, recorded) => FailureWritten(s, p, recorded)
    case Cleanup(p) => Cleaned(s, p)
    case CheckDelete(run, who) =>
      if s.runId == Some(run) then s else s.(deleting := s.deleting + multiset{Deletion(run, who)})
    case DeleteRow(run, who) =>
      var s' := s.(deleting := s.deleting - multiset{Deletion(run, who)});
      if Deletes(s, run, who) then s'.(rows := s.rows - {run}) else s'
  }

  predicate Possible(s: Desk, run: seq<Action>)
    decreases |run|, 0
  {
    run == [] || (Possible(s, run[..|run| - 1]) && Enabled(Run(s, run[..|run| - 1]), run[|run| - 1]))
  }

  function Run(s: Desk, run: seq<Action>): Desk
    requires Possible(s, run)
    decreases |run|, 1
  {
    if run == [] then s else Step(Run(s, run[..|run| - 1]), run[|run| - 1])
  }

  // ------------------------------------------------------------ what holds under any interleaving
  /** The reader has not yet written how its run ended. */
  predicate Unwritten(r: Reader) { r.phase.Following? || r.phase.Ingesting? || r.phase.Failing? }

  /** The manager's fields name one start that launched a runner, the latest one. */
  ghost predicate FieldsAgree(s: Desk) {
    && |s.procs| == |s.readers| && (s.proc.Some? <==> s.runId.Some?)
    && (s.latest.Some? ==> Slot(s, s.latest.value))
    && (s.proc.Some? ==> s.latest == s.proc && Slot(s, s.proc.value) && s.readers[s.proc.value].run == s.runId.value
                         && !s.readers[s.proc.value].phase.Gone?)
    && (forall p :: Slot(s, p) && s.procs[p].Running? ==> s.readers[p].phase.Following?)
    && (forall p :: Slot(s, p) && !s.readers[p].phase.Gone? ==> s.latest.Some? && p <= s.latest.value)
  }

  /** A run whose end is not written has its own row, still active. */
  ghost predicate OwnRows(s: Desk) {
    forall p :: Slot(s, p) && Unwritten(s.readers[p]) ==>
      s.readers[p].run in s.rows && s.rows[s.readers[p].run].status.Active? && s.rows[s.readers[p].run].birth == p
  }

  /** `done` means the runner exited with 0; `cancelled` means a cancel of that very start succeeded. */
  ghost predicate HonestRows(s: Desk) {
    forall k :: k in s.rows ==>
      && Slot(s, s.rows[k].birth) && s.readers[s.rows[k].birth].run == k
      && (s.rows[k].status.Done? ==> s.procs[s.rows[k].birth] == Exited(0))
      && (s.rows[k].status.Cancelled? ==> s.rows[k].birth in s.cancels)
  }

  /** An id is not given out again while its run's end is unwritten. */
  ghost predicate NoEarlyReuse(s: Desk) {
    forall p, q :: Slot(s, p) && Slot(s, q) && p < q && Unwritten(s.readers[p]) ==> s.readers[p].run != s.readers[q].run
  }

  /** The cancel mark belongs to the latest runner, and stays until that runner's reader looks. */
  ghost predicate MarkAgrees(s: Desk) {
    && (s.cancelled.Some? ==>
          s.latest.Some? && Slot(s, s.latest.value) && s.latest.value in s.cancels
          && s.readers[s.latest.value].run == s.cancelled.value)
    && (s.latest.Some? && Slot(s, s.latest.value) && s.readers[s.latest.value].phase.Following? ==>
          (s.latest.value in s.cancels <==> s.cancelled == Some(s.readers[s.latest.value].run)))
    && (forall p :: Slot(s, p) && s.readers[p].phase == Ingesting(true) ==> p in s.cancels)
    && (forall p :: p in s.cancels ==> Slot(s, p))
  }

  ghost predicate Sound(s: Desk) {
    FieldsAgree(s) && OwnRows(s) && HonestRows(s) && NoEarlyReuse(s) && MarkAgrees(s)
  }

  lemma NewSlot(s: Desk, s': Desk, proc: Proc, reader: Reader)
    requires |s.procs| == |s.readers| && s'.procs == s.procs + [proc] && s'.readers == s.readers + [reader]
    ensures forall p :: Slot(s', p) <==> Slot(s, p) || p == |s.procs|
    ensures forall p :: Slot(s, p) ==> s'.readers[p] == s.readers[p] && s'.procs[p] == s.procs[p]
    ensures s'.readers[|s.procs|] == reader && s'.procs[|s.procs|] == proc
  {
  }

  lemma LaunchKeeps(s: Desk, user: int, id: int)
    requires Sound(s) && !Busy(s) && id !in s.rows
    ensures Sound(Launched(s, user, id))
  {
    hide Busy, Unwritten;
    NewSlot(s, Launched(s, user, id), Running, Reader(id, Following));
    assert |s.procs| !in s.cancels;
  }

  lemma NoLaunchKeeps(s: Desk, user: int, id: int)
    requires Sound(s) && !Busy(s) && id !in s.rows
    ensures Sound(NotLaunched(s, user, id))
  {
    hide Busy;
    NewSlot(s, NotLaunched(s, user, id), NeverRan, Reader(id, Gone));
  }

  lemma StartKeeps(s: Desk, user: int, id: int, launches: bool)
    requires Sound(s) && Enabled(s, Start(user, id, launches))
    ensures Sound(Step(s, Start(user, id, launches)))
  {
    hide Sound, Launched, NotLaunched;
    assert id !in s.rows;
    LaunchKeeps(s, user, id);
    NoLaunchKeeps(s, user, id);
  }

  lemma CancelKeeps(s: Desk, run: int)
    requires Sound(s) && Cancels(s, run)
    ensures Sound(Cancelling(s, run))
  {
  }

  lemma ExitKeeps(s: Desk, p: int, code: int)
    requires Sound(s) && Alive(s, p)
    ensures Sound(Step(s, Exit(p, code)))
  {
  }

  lemma CheckKeeps(s: Desk, p: int)
    requires Sound(s) && Enabled(s, Check(p))
    ensures Sound(Checked(s, p))
  {
  }

  lemma FailKeeps(s: Desk, p: int)
    requires Sound(s) && Enabled(s, Fail(p))
    ensures Sound(Failed(s, p))
  {
    var s' := Failed(s, p);
    assert forall q :: Slot(s', q) <==> Slot(s, q);
  }

  /** A reader writing how its run ended touches its own row only. */
  lemma EndKeepsRows(s: Desk, s': Desk, p: int, status: Status)
    requires Slot(s, p) && Unwritten(s.readers[p]) && OwnRows(s) && HonestRows(s)
    requires status.Done? ==> s.procs[p] == Exited(0)
    requires status.Cancelled? ==> p in s.cancels
    requires s'.rows == Finished(s.rows, s.readers[p].run, status) && s'.readers == Moved(s.readers, p, Cleaning)
    requires s'.procs == s.procs && s'.cancels == s.cancels
    ensures OwnRows(s') && HonestRows(s')
  {
    assert forall q :: Slot(s', q) <==> Slot(s, q);
  }

  lemma EndKeepsFields(s: Desk, s': Desk, p: int)
    requires Slot(s, p) && !s.readers[p].phase.Following? && Unwritten(s.readers[p])
    requires FieldsAgree(s) && NoEarlyReuse(s) && MarkAgrees(s) && s'.readers == Moved(s.readers, p, Cleaning)
    requires s'.procs == s.procs && s'.proc == s.proc && s'.runId == s.runId
    requires s'.cancelled == s.cancelled && s'.latest == s.latest && s'.cancels == s.cancels
    ensures FieldsAgree(s') && NoEarlyReuse(s') && MarkAgrees(s')
  {
    assert forall q :: Slot(s', q) <==> Slot(s, q);
  }

  lemma MarkedWasCancelled(s: Desk, p: int)
    requires MarkAgrees(s) && Slot(s, p) && s.readers[p].phase == Ingesting(true)
    ensures p in s.cancels
  {
  }

  lemma WriteKeeps(s: Desk, p: int, report: Report)
    requires Sound(s) && Enabled(s, Write(p, report))
    ensures Sound(Written(s, p, report))
  {
    hide FieldsAgree, OwnRows, HonestRows, NoEarlyReuse, MarkAgrees, Finished, Moved;
    var cancelled := s.readers[p].phase.cancelled;
    if cancelled {
      MarkedWasCancelled(s, p);
    }
    EndKeepsRows(s, Written(s, p, report), p, EndStatus(cancelled, s.procs[p].code, report));
    EndKeepsFields(s, Written(s, p, report), p);
  }

  lemma WriteFailureKeeps(s: Desk, p: int, recorded: bool)
    requires Sound(s) && Enabled(s, WriteFailure(p, recorded))
    ensures Sound(FailureWritten(s, p, recorded))
  {
    hide FieldsAgree, OwnRows, HonestRows, NoEarlyReuse, MarkAgrees, Finished, Moved;
    var s' := FailureWritten(s, p, recorded);
    EndKeepsFields(s, s', p);
    if recorded {
      EndKeepsRows(s, s', p, Error);
    } else {
      StrandedKeepsRows(s, s', p);
    }
  }

  lemma StrandedKeepsRows(s: Desk, s': Desk, p: int)
    requires Slot(s, p) && OwnRows(s) && HonestRows(s)
    requires s'.rows == s.rows && s'.readers == Moved(s.readers, p, Cleaning)
    requires s'.procs == s.procs && s'.cancels == s.cancels
    ensures OwnRows(s') && HonestRows(s')
  {
    assert forall q :: Slot(s', q) <==> Slot(s, q);
  }

  /** A reader that has written moves on: nothing said of the rows or of unwritten readers changes. */
  lemma MovingOnKeeps(s: Desk, s': Desk, p: int)
    requires Slot(s, p) && s.readers[p].phase.Cleaning? && s'.readers == Moved(s.readers, p, Gone)
    requires s'.rows == s.rows && s'.procs == s.procs && s'.cancels == s.cancels
    requires OwnRows(s) && HonestRows(s) && NoEarlyReuse(s)
    ensures OwnRows(s') && HonestRows(s') && NoEarlyReuse(s')
  {
    assert forall q :: Slot(s', q) <==> Slot(s, q);
    assert forall q :: Slot(s, q) ==>
      s'.readers[q].run == s.readers[q].run && (Unwritten(s'.readers[q]) <==> Unwritten(s.readers[q]));
  }

  lemma CleanupKeeps(s: Desk, p: int)
    requires Sound(s) && Enabled(s, Cleanup(p))
    ensures Sound(Cleaned(s, p))
  {
    hide OwnRows, HonestRows, NoEarlyReuse;
    MovingOnKeeps(s, Cleaned(s, p), p);
  }

  lemma OnlyRowsChange(s: Desk, s': Desk)
    requires FieldsAgree(s) && NoEarlyReuse(s) && MarkAgrees(s)
    requires s'.procs == s.procs && s'.readers == s.readers && s'.proc == s.proc && s'.runId == s.runId
    requires s'.cancelled == s.cancelled && s'.latest == s.latest && s'.cancels == s.cancels
    ensures FieldsAgree(s') && NoEarlyReuse(s') && MarkAgrees(s')
  {
  }

  lemma DeleteKeeps(s: Desk, run: int, who: int)
    requires Sound(s) && Enabled(s, DeleteRow(run, who))
    ensures Sound(Step(s, DeleteRow(run, who)))
  {
    hide FieldsAgree, NoEarlyReuse, MarkAgrees;
    OnlyRowsChange(s, Step(s, DeleteRow(run, who)));
  }

  lemma StepKeeps(s: Desk, a: Action)
    requires Sound(s) && Enabled(s, a)
    ensures Sound(Step(s, a))
  {
    hide FieldsAgree, OwnRows, HonestRows, NoEarlyReuse, MarkAgrees;
    match a {
      case Start(user, id, launches) => StartKeeps(s, user, id, launches);
      case Cancel(run) =>
        if Cancels(s, run) {
          CancelKeeps(s, run);
        }
      case Exit(p, code) => ExitKeeps(s, p, code);
      case Check(p) => CheckKeeps(s, p);
      case Write(p, report) => WriteKeeps(s, p, report);
      case Fail(p) => FailKeeps(s, p);
      case WriteFailure(p, recorded) => WriteFailureKeeps(s, p, recorded);
      case Cleanup(p) => CleanupKeeps(s, p);
      case CheckDelete(run, who) => CheckDeleteKeeps(s, run, who);
      case DeleteRow(run, who) => DeleteKeeps(s, run, who);
    }
  }

  lemma CheckDeleteKeeps(s: Desk, run: int, who: int)
    requires Sound(s)
    ensures Sound(Step(s, CheckDelete(run, who)))
  {
    hide OwnRows, HonestRows;
    var s' := Step(s, CheckDelete(run, who));
    OnlyRowsChange(s, s');
    SameRows(s, s');
  }

  lemma SameRows(s: Desk, s': Desk)
    requires OwnRows(s) && HonestRows(s)
    requires s'.rows == s.rows && s'.procs == s.procs && s'.readers == s.readers && s'.cancels == s.cancels
    ensures OwnRows(s') && HonestRows(s')
  {
  }

  lemma NoneYet()
    ensures Sound(EMPTY)
  {
  }

  /** Requests, processes and readers in any order. */
  lemma {:induction false} AlwaysSound(run: seq<Action>)
    requires Possible(EMPTY, run)
    ensures Sound(Run(EMPTY, run))
  {
    hide Step, Enabled, Sound;
    if run == [] {
      NoneYet();
    } else {
      AlwaysSound(run[..|run| - 1]);
      StepKeeps(Run(EMPTY, run[..|run| - 1]), run[|run| - 1]);
    }
  }

  // ------------------------------------------------------------ the life of a row
  /** The same row at two moments: an id that was given out again has another birth. */
  predicate SameRow(s: Desk, s': Desk, k: int) { k in s.rows && k in s'.rows && s.rows[k].birth == s'.rows[k].birth }

  /** One step takes a row from active to one end, or leaves it as it is; an active row is never removed. */
  lemma StepAndRow(s: Desk, a: Action, k: int)
    requires Sound(s) && Enabled(s, a) && k in s.rows
    ensures s.rows[k].status.Active? ==> k in Step(s, a).rows
    ensures k in Step(s, a).rows ==> SameRow(s, Step(s, a), k)
    ensures k in Step(s, a).rows && !s.rows[k].status.Active? ==> Step(s, a).rows[k] == s.rows[k]
  {
    hide HonestRows, NoEarlyReuse, MarkAgrees, FieldsAgree;
  }

  /** Births are given out once, so a row that is gone stays gone. */
  lemma StepAndBirths(s: Desk, a: Action, k: int)
    requires Sound(s) && Enabled(s, a) && k in Step(s, a).rows
    ensures |s.procs| <= |Step(s, a).procs| && 0 <= Step(s, a).rows[k].birth < |Step(s, a).procs|
    ensures k in s.rows || Step(s, a).rows[k].birth == |s.procs|
  {
    hide OwnRows, NoEarlyReuse, MarkAgrees, FieldsAgree;
  }

  /** From the moment a row has ended, whatever happens: the same row is never seen with another end. */
  lemma {:induction false} EndedForGood(s: Desk, run: seq<Action>, k: int)
    requires Sound(s) && Possible(s, run) && k in s.rows && !s.rows[k].status.Active?
    ensures var s' := Run(s, run);
            Sound(s') && |s.procs| <= |s'.procs| && (SameRow(s, s', k) ==> s'.rows[k] == s.rows[k])
  {
    hide Step, Enabled, FieldsAgree, OwnRows, NoEarlyReuse, MarkAgrees;
    if run != [] {
      var front, a := run[..|run| - 1], run[|run| - 1];
      EndedForGood(s, front, k);
      var m := Run(s, front);
      StepKeeps(m, a);
      if k in m.rows {
        StepAndRow(m, a, k);
      }
      if k in Step(m, a).rows {
        StepAndBirths(m, a, k);
      }
      SlotsGrow(m, a);
    }
  }

  lemma SlotsGrow(s: Desk, a: Action)
    requires Enabled(s, a)
    ensures |s.procs| <= |Step(s, a).procs|
  {
  }

  /** `done` was exit code 0, and `cancelled` was a successful cancel of that start, whatever came between. */
  lemma EndsAreEarned(run: seq<Action>, k: int)
    requires Possible(EMPTY, run) && k in Run(EMPTY, run).rows
    ensures var s := Run(EMPTY, run);
            var row := s.rows[k];
            && Slot(s, row.birth) && s.readers[row.birth].run == k
            && (row.status.Done? ==> s.procs[row.birth] == Exited(0))
            && (row.status.Cancelled? ==> row.birth in s.cancels)
  {
    hide Run, Step, FieldsAgree, OwnRows, NoEarlyReuse, MarkAgrees;
    AlwaysSound(run);
  }

  // ------------------------------------------------------------ what a successful cancel is worth
  lemma MarkedWhenLatest(s: Desk, p: int)
    requires Sound(s) && Enabled(s, Check(p))
    ensures s.cancelled == Some(s.readers[p].run) <==> p in s.cancels && s.latest == Some(p)
  {
    hide OwnRows, HonestRows;
  }

  /** Who looked has a process that ended; a look found the mark exactly for a cancelled start that was the latest. */
  ghost predicate LooksAgree(s: Desk) {
    && (forall p :: p in s.looks ==> Slot(s, p) && s.procs[p].Exited? && !s.readers[p].phase.Following?)
    && (forall p :: p in s.wrote ==> Slot(s, p) && s.procs[p].Exited? && !Unwritten(s.readers[p]))
    && (forall p :: Slot(s, p) && s.readers[p].phase.Ingesting? ==>
          s.procs[p].Exited? && (s.readers[p].phase.cancelled <==> p in s.cancels && p in s.looks))
  }

  predicate SeenCancelled(s: Desk, p: int) { p in s.cancels && p in s.looks }

  /** How a row stands, told from what happened to its start. */
  predicate Explained(s: Desk, row: Row) {
    var p := row.birth;
    if p !in s.wrote then row.status.Active? || row.status.Error?
    else if SeenCancelled(s, p) then row.status.Cancelled?
    else if Slot(s, p) && s.procs[p] == Exited(0) && s.wrote[p].Good? then row.status.Done?
    else row.status.Error?
  }

  ghost predicate EndsExplained(s: Desk) { forall k :: k in s.rows ==> Explained(s, s.rows[k]) }

  lemma StartLooks(s: Desk, user: int, id: int)
    requires FieldsAgree(s) && MarkAgrees(s) && LooksAgree(s)
    ensures LooksAgree(Launched(s, user, id)) && LooksAgree(NotLaunched(s, user, id))
  {
    NewSlot(s, Launched(s, user, id), Running, Reader(id, Following));
    NewSlot(s, NotLaunched(s, user, id), NeverRan, Reader(id, Gone));
  }

  lemma CancelLooks(s: Desk, run: int)
    requires LooksAgree(s) && Cancels(s, run)
    ensures LooksAgree(Cancelling(s, run))
  {
  }

  lemma CheckLooks(s: Desk, p: int)
    requires Sound(s) && LooksAgree(s) && Enabled(s, Check(p))
    ensures LooksAgree(Checked(s, p))
  {
    hide FieldsAgree, OwnRows, HonestRows, NoEarlyReuse, MarkAgrees;
    MarkedWhenLatest(s, p);
  }

  lemma WriteLooks(s: Desk, p: int, report: Report)
    requires LooksAgree(s) && |s.procs| == |s.readers| && Enabled(s, Write(p, report))
    ensures LooksAgree(Written(s, p, report))
  {
    hide Finished;
  }

  /** The other steps move one reader on, or end or kill one process, and cancel and write nothing. */
  lemma MoveLooks(s: Desk, a: Action)
    requires LooksAgree(s) && |s.procs| == |s.readers| && Enabled(s, a)
    requires !a.Start? && !a.Cancel? && !a.Check? && !a.Write?
    ensures LooksAgree(Step(s, a))
  {
    hide Finished;
  }

  lemma StepLooks(s: Desk, a: Action)
    requires Sound(s) && LooksAgree(s) && Enabled(s, a)
    ensures LooksAgree(Step(s, a))
  {
    hide OwnRows, HonestRows, NoEarlyReuse, LooksAgree, Launched, NotLaunched, NextId, MarkAgrees;
    match a {
      case Start(user, id, _) => StartLooks(s, user, id);
      case Cancel(run) =>
        if Cancels(s, run) {
          CancelLooks(s, run);
        }
      case Check(p) => CheckLooks(s, p);
      case Write(p, report) => WriteLooks(s, p, report);
      case _ => MoveLooks(s, a);
    }
  }

  /** Once a reader has written, nothing that explains its row changes; and only `Write` makes it one that has. */
  lemma StepEvidence(s: Desk, a: Action, p: int)
    requires Sound(s) && LooksAgree(s) && Enabled(s, a) && Slot(s, p)
    ensures var s' := Step(s, a);
            && (p in s.wrote ==>
                  && p in s'.wrote && s'.wrote[p] == s.wrote[p] && s'.procs[p] == s.procs[p]
                  && (SeenCancelled(s', p) <==> SeenCancelled(s, p)))
            && (p !in s.wrote ==> (p in s'.wrote <==> a.Write? && a.p == p))
  {
    hide OwnRows, HonestRows, NoEarlyReuse, Finished, NextId;
  }

  lemma WriteEvidence(s: Desk, p: int, report: Report)
    requires LooksAgree(s) && Enabled(s, Write(p, report))
    ensures var s', c := Written(s, p, report), s.readers[p].phase.cancelled;
            && p in s'.wrote && s'.wrote[p] == report && s'.procs[p] == s.procs[p] && (SeenCancelled(s', p) <==> c)
  {
    hide Finished;
  }

  lemma StepExplains(s: Desk, a: Action)
    requires Sound(s) && LooksAgree(s) && EndsExplained(s) && Enabled(s, a)
    ensures EndsExplained(Step(s, a))
  {
    hide Sound, LooksAgree, Explained, Step, Enabled;
    var s' := Step(s, a);
    forall k | k in s'.rows ensures Explained(s', s'.rows[k]) {
      RowExplained(s, a, k);
    }
  }

  lemma RowExplained(s: Desk, a: Action, k: int)
    requires Sound(s) && LooksAgree(s) && EndsExplained(s) && Enabled(s, a) && k in Step(s, a).rows
    ensures Explained(Step(s, a), Step(s, a).rows[k])
  {
    hide LooksAgree, NoEarlyReuse, MarkAgrees;
    if k in s.rows {
      StepEvidence(s, a, s.rows[k].birth);
      StepAndRow(s, a, k);
      if a.Write? {
        WriteEvidence(s, a.p, a.report);
      }
    } else {
      NewIsUnwritten(s);
    }
  }

  lemma NewIsUnwritten(s: Desk)
    requires LooksAgree(s)
    ensures |s.procs| !in s.wrote
  {
  }

  lemma {:induction false} AlwaysExplained(run: seq<Action>)
    requires Possible(EMPTY, run)
    ensures LooksAgree(Run(EMPTY, run)) && EndsExplained(Run(EMPTY, run))
  {
    hide Step, Enabled, Sound, LooksAgree, EndsExplained;
    if run == [] {
      NothingToExplain();
    } else {
      var s, a := Run(EMPTY, run[..|run| - 1]), run[|run| - 1];
      AlwaysExplained(run[..|run| - 1]);
      AlwaysSound(run[..|run| - 1]);
      StepLooks(s, a);
      StepExplains(s, a);
    }
  }

  lemma NothingToExplain()
    ensures LooksAgree(EMPTY) && EndsExplained(EMPTY)
  {
  }

  /**
   * Over any interleaving a row reads `cancelled` exactly when a cancel of its start succeeded, no later run was
   * launched before its reader looked at the mark, and that reader then wrote what it had found without failing.
   */
  lemma CancelOutcome(run: seq<Action>, k: int)
    requires Possible(EMPTY, run) && k in Run(EMPTY, run).rows
    ensures var s := Run(EMPTY, run);
            var p := s.rows[k].birth;
            s.rows[k].status.Cancelled? <==> p in s.cancels && p in s.looks && p in s.wrote
  {
    hide Run, Step, LooksAgree;
    AlwaysExplained(run);
  }

  /**
   * A row reads `done` exactly when its reader wrote, its process had ended with exit code 0, the report it found was
   * a good one, and no cancel was seen in time. Any other end is an `error`, and a row whose reader has not written
   * is active or an `error`.
   */
  lemma EndOutcome(run: seq<Action>, k: int)
    requires Possible(EMPTY, run) && k in Run(EMPTY, run).rows
    ensures var s := Run(EMPTY, run);
            var row := s.rows[k];
            var p := row.birth;
            && Slot(s, p)
            && (row.status.Done? <==>
                  p in s.wrote && s.procs[p] == Exited(0) && s.wrote[p] == Good && !(p in s.cancels && p in s.looks))
            && (p in s.wrote && !row.status.Done? && !row.status.Cancelled? ==> row.status == Error)
            && (p !in s.wrote ==> row.status == Active || row.status == Error)
  {
    hide Run, Step, LooksAgree, FieldsAgree, OwnRows, NoEarlyReuse, MarkAgrees;
    AlwaysExplained(run);
    AlwaysSound(run);
  }

  lemma OneMore(s: Desk, run: seq<Action>, a: Action)
    requires Possible(s, run) && Enabled(Run(s, run), a)
    ensures Possible(s, run + [a]) && Run(s, run + [a]) == Step(Run(s, run), a)
  {
    hide Step, Enabled;
    assert (run + [a])[..|run + [a]| - 1] == run;
  }

  /** A run cancelled and then recorded as an error: the next run started first. */
  lemma CancelCanBeLost() returns (run: seq<Action>)
    ensures Possible(EMPTY, run)
    ensures var s := Run(EMPTY, run); 0 in s.cancels && 1 in s.rows && s.rows[1] == Row(7, Error, 0)
  {
    hide Possible, Run;
    run := [];
    assert Possible(EMPTY, run) && Run(EMPTY, run) == EMPTY by { NoSteps(EMPTY); }
    OneMore(EMPTY, run, Start(7, 1, true));
    run := run + [Start(7, 1, true)];
    OneMore(EMPTY, run, Cancel(1));
    run := run + [Cancel(1)];
    OneMore(EMPTY, run, Exit(0, -9));
    run := run + [Exit(0, -9)];
    assert NextId(Run(EMPTY, run).rows, 2) by { assert 1 in Run(EMPTY, run).rows; }
    OneMore(EMPTY, run, Start(7, 2, true));
    run := run + [Start(7, 2, true)];
    OneMore(EMPTY, run, Check(0));
    run := run + [Check(0)];
    OneMore(EMPTY, run, Write(0, NoFile));
    run := run + [Write(0, NoFile)];
  }

  /** Another: the latest run, cancelled and seen as cancelled, whose reader fails before it has written. */
  lemma CancelCanFail() returns (run: seq<Action>)
    ensures Possible(EMPTY, run)
    ensures var s := Run(EMPTY, run);
            0 in s.cancels && s.latest == Some(0) && 0 in s.looks && 1 in s.rows && s.rows[1] == Row(7, Error, 0)
  {
    hide Possible, Run;
    run := [];
    NoSteps(EMPTY);
    OneMore(EMPTY, run, Start(7, 1, true));
    run := run + [Start(7, 1, true)];
    OneMore(EMPTY, run, Cancel(1));
    run := run + [Cancel(1)];
    OneMore(EMPTY, run, Exit(0, -9));
    run := run + [Exit(0, -9)];
    OneMore(EMPTY, run, Check(0));
    run := run + [Check(0)];
    OneMore(EMPTY, run, Fail(0));
    run := run + [Fail(0)];
    OneMore(EMPTY, run, WriteFailure(0, true));
    run := run + [WriteFailure(0, true)];
  }

  lemma NoSteps(s: Desk)
    ensures Possible(s, []) && Run(s, []) == s
  {
  }

  // ------------------------------------------------------------ one runner at a time
  ghost predicate IdsApart(s: Desk) {
    forall p, q :: Slot(s, p) && Slot(s, q) && p != q && !s.readers[p].phase.Gone? && !s.readers[q].phase.Gone? ==>
      s.readers[p].run != s.readers[q].run
  }

  /** The only runner neither ended nor killed is the one the manager holds. */
  ghost predicate OneRunner(s: Desk) { forall p :: Slot(s, p) && s.procs[p].Running? ==> s.proc == Some(p) }

  /** A new run does not get the id of a run whose reader is still there. */
  ghost predicate FreshId(s: Desk, a: Action) {
    a.Start? && a.launches ==> forall p :: Slot(s, p) && !s.readers[p].phase.Gone? ==> s.readers[p].run != a.id
  }

  ghost predicate FreshIds(s: Desk, run: seq<Action>)
    requires Possible(s, run)
  {
    run == [] || (FreshIds(s, run[..|run| - 1]) && FreshId(Run(s, run[..|run| - 1]), run[|run| - 1]))
  }

  lemma StartStaysApart(s: Desk, user: int, id: int, launches: bool)
    requires FieldsAgree(s) && IdsApart(s) && OneRunner(s)
    requires Enabled(s, Start(user, id, launches)) && FreshId(s, Start(user, id, launches))
    ensures var s' := Step(s, Start(user, id, launches)); IdsApart(s') && OneRunner(s')
  {
    var s', n := Step(s, Start(user, id, launches)), |s.procs|;
    assert forall p :: Slot(s', p) <==> Slot(s, p) || p == n;
    assert forall p :: Slot(s, p) ==> s'.readers[p] == s.readers[p] && s'.procs[p] == s.procs[p];
  }

  /** Under fresh ids a reader that cleans up clears its own run's state, never a later one's. */
  lemma CleansItsOwn(s: Desk, p: int)
    requires FieldsAgree(s) && IdsApart(s) && Enabled(s, Cleanup(p))
    ensures if s.proc == Some(p) then Cleaned(s, p).proc == Cleaned(s, p).runId == None
            else Cleaned(s, p).proc == s.proc && Cleaned(s, p).runId == s.runId
  {
  }

  lemma CleanupStaysApart(s: Desk, p: int)
    requires FieldsAgree(s) && IdsApart(s) && OneRunner(s) && Enabled(s, Cleanup(p))
    ensures IdsApart(Cleaned(s, p)) && OneRunner(Cleaned(s, p))
  {
    CleansItsOwn(s, p);
    assert forall q :: Slot(Cleaned(s, p), q) <==> Slot(s, q);
  }

  ghost predicate NothingNew(s: Desk, s': Desk) {
    && |s'.procs| == |s.procs| && |s'.readers| == |s.readers| && s'.proc == s.proc
    && forall p :: Slot(s, p) ==>
         && s'.readers[p].run == s.readers[p].run && (s.readers[p].phase.Gone? ==> s'.readers[p].phase.Gone?)
         && (s'.procs[p].Running? ==> s.procs[p].Running?)
  }

  lemma NothingNewStaysApart(s: Desk, s': Desk)
    requires IdsApart(s) && OneRunner(s) && NothingNew(s, s')
    ensures IdsApart(s') && OneRunner(s')
  {
    assert forall q :: Slot(s', q) <==> Slot(s, q);
  }

  lemma OthersAddNothing(s: Desk, a: Action)
    requires Enabled(s, a) && |s.procs| == |s.readers| && !a.Start? && !a.Cleanup?
    ensures NothingNew(s, Step(s, a))
  {
    hide Finished, NextId;
  }

  lemma StaysApart(s: Desk, a: Action)
    requires Sound(s) && IdsApart(s) && OneRunner(s) && Enabled(s, a) && FreshId(s, a)
    ensures IdsApart(Step(s, a)) && OneRunner(Step(s, a))
  {
    hide OwnRows, HonestRows, NoEarlyReuse, MarkAgrees, FreshId, IdsApart, OneRunner, NothingNew;
    match a {
      case Start(user, id, launches) => StartStaysApart(s, user, id, launches);
      case Cleanup(p) => CleanupStaysApart(s, p);
      case _ =>
        OthersAddNothing(s, a);
        NothingNewStaysApart(s, Step(s, a));
    }
  }

  /** While ids are fresh there is at most one runner, under any interleaving. */
  lemma {:induction false} AtMostOneRunner(run: seq<Action>)
    requires Possible(EMPTY, run) && FreshIds(EMPTY, run)
    ensures IdsApart(Run(EMPTY, run)) && OneRunner(Run(EMPTY, run))
  {
    hide Step, Enabled, Sound, FreshId;
    if run != [] {
      AtMostOneRunner(run[..|run| - 1]);
      AlwaysSound(run[..|run| - 1]);
      StaysApart(Run(EMPTY, run[..|run| - 1]), run[|run| - 1]);
    }
  }

  // ------------------------------------------------------------ ... counting those that were killed and have not ended
  /** The only process `poll()` still finds alive is the one the manager holds, and its reader follows it. */
  ghost predicate OneAlive(s: Desk) {
    forall p :: Alive(s, p) ==> s.proc == Some(p) && s.readers[p].phase.Following?
  }

  /** No reader fails while its process is alive: a failing reader kills and does not wait. */
  predicate Waits(s: Desk, a: Action) { a.Fail? ==> !Alive(s, a.p) }

  ghost predicate AllWait(s: Desk, run: seq<Action>)
    requires Possible(s, run)
  {
    run == [] || (AllWait(s, run[..|run| - 1]) && Waits(Run(s, run[..|run| - 1]), run[|run| - 1]))
  }

  lemma StartOneAlive(s: Desk, user: int, id: int)
    requires FieldsAgree(s) && OneAlive(s) && !Busy(s)
    ensures OneAlive(Launched(s, user, id)) && OneAlive(NotLaunched(s, user, id))
  {
    NewSlot(s, Launched(s, user, id), Running, Reader(id, Following));
    NewSlot(s, NotLaunched(s, user, id), NeverRan, Reader(id, Gone));
  }

  lemma CleanupOneAlive(s: Desk, p: int)
    requires FieldsAgree(s) && IdsApart(s) && OneAlive(s) && Enabled(s, Cleanup(p))
    ensures OneAlive(Cleaned(s, p))
  {
    CleansItsOwn(s, p);
  }

  lemma OthersOneAlive(s: Desk, a: Action)
    requires FieldsAgree(s) && OneAlive(s) && Enabled(s, a) && Waits(s, a) && !a.Start? && !a.Cleanup?
    ensures OneAlive(Step(s, a))
  {
    hide Finished;
  }

  lemma StaysOneAlive(s: Desk, a: Action)
    requires Sound(s) && IdsApart(s) && OneAlive(s) && Enabled(s, a) && Waits(s, a)
    ensures OneAlive(Step(s, a))
  {
    hide OwnRows, HonestRows, NoEarlyReuse, MarkAgrees, IdsApart, OneAlive, Waits, NextId;
    match a {
      case Start(user, id, _) => StartOneAlive(s, user, id);
      case Cleanup(p) => CleanupOneAlive(s, p);
      case _ => OthersOneAlive(s, a);
    }
  }

  /** With fresh ids and no reader failing beside a live process, at most one process is alive, killed ones counted. */
  lemma {:induction false} AtMostOneAlive(run: seq<Action>)
    requires Possible(EMPTY, run) && FreshIds(EMPTY, run) && AllWait(EMPTY, run)
    ensures OneAlive(Run(EMPTY, run))
  {
    hide Step, Enabled, Sound, FreshId, Waits, IdsApart, OneRunner;
    if run != [] {
      var front := run[..|run| - 1];
      AtMostOneAlive(front);
      AtMostOneRunner(front);
      AlwaysSound(front);
      StaysOneAlive(Run(EMPTY, front), run[|run| - 1]);
    }
  }

  ghost predicate TwoAlive(s: Desk) { exists p, q :: p < q && Alive(s, p) && Alive(s, q) }

  /** Whenever the followed live process's reader fails, the next launch is admitted beside the killed process. */
  lemma FailingReaderMakesTwoAlive(s: Desk, p: int, recorded: bool, user: int, id: int)
    requires Sound(s) && s.proc == Some(p) && Alive(s, p) && s.readers[p].phase.Following? && NextId(s.rows, id)
    ensures Enabled(s, Fail(p))
    ensures var s1 := Step(s, Fail(p));
            && Enabled(s1, WriteFailure(p, recorded))
            && var s2 := Step(s1, WriteFailure(p, recorded));
               && Enabled(s2, Cleanup(p))
               && var s3 := Step(s2, Cleanup(p));
                  Enabled(s3, Start(user, id, true)) && TwoAlive(Step(s3, Start(user, id, true)))
  {
    hide OwnRows, HonestRows, NoEarlyReuse, MarkAgrees, NextId;
    var s1 := Step(s, Fail(p));
    var s2 := Step(s1, WriteFailure(p, recorded));
    var s3 := Step(s2, Cleanup(p));
    assert s3.proc == None && Alive(s3, p) && s1.rows == s.rows;
    SameIds(s.rows, s2.rows, id);
    var s4 := Step(s3, Start(user, id, true));
    assert Alive(s4, p) && Alive(s4, |s.procs|);
  }

  lemma SameIds(rows: map<int, Row>, rows': map<int, Row>, id: int)
    requires NextId(rows, id) && rows'.Keys == rows.Keys
    ensures NextId(rows', id)
  {
    assert rows == map[] <==> rows.Keys == {};
    assert rows' == map[] <==> rows'.Keys == {};
    assert forall k :: k in rows' <==> k in rows'.Keys;
    assert forall k :: k in rows <==> k in rows.Keys;
  }

  ghost predicate TwoRunners(s: Desk) {
    exists p, q :: Slot(s, p) && Slot(s, q) && p < q && s.procs[p].Running? && s.procs[q].Running?
  }

  /** Whenever a start reuses the id of a run whose reader is still there, two more steps make a second runner. */
  lemma StaleReaderMakesTwo(s: Desk, user: int, id: int, p: int)
    requires Sound(s) && Enabled(s, Start(user, id, true))
    requires Slot(s, p) && !s.readers[p].phase.Gone? && s.readers[p].run == id
    ensures var s1 := Step(s, Start(user, id, true));
            && Enabled(s1, Cleanup(p))
            && Enabled(Step(s1, Cleanup(p)), Start(user, id + 1, true))
            && TwoRunners(Step(Step(s1, Cleanup(p)), Start(user, id + 1, true)))
  {
    hide HonestRows, NoEarlyReuse, MarkAgrees;
    assert id !in s.rows && s.readers[p].phase.Cleaning?;
    var n := |s.procs|;
    var s1 := Step(s, Start(user, id, true));
    assert s1.readers[p] == s.readers[p] && s1.runId == Some(id);
    var s2 := Step(s1, Cleanup(p));
    assert s2.proc == None && s2.rows == s1.rows && id in s2.rows;
    var s3 := Step(s2, Start(user, id + 1, true));
    assert Slot(s3, n) && Slot(s3, n + 1) && s3.procs[n].Running? && s3.procs[n + 1].Running?;
  }

  /** A table that hands an id out again while the reader that used it before has not cleaned up. */
  lemma StaleReaderIsPossible() returns (run: seq<Action>)
    ensures Possible(EMPTY, run)
    ensures var s := Run(EMPTY, run);
            Enabled(s, Start(7, 1, true)) && Slot(s, 0) && s.readers[0] == Reader(1, Cleaning)
  {
    hide Possible, Run;
    run := FirstRunWritten();
    run := SecondRunStarted(run);
    run := FirstRowDeleted(run);
    run := SecondRunOver(run);
    run := SecondRowDeleted(run);
  }

  function Two(rows: map<int, Row>, second: Proc, phase: Phase, proc: Option<int>, ended: set<int>): Desk {
    Desk(rows, [Exited(0), second], [Reader(1, Cleaning), Reader(2, phase)], proc,
         if proc.Some? then Some(2) else None, None, multiset{}, Some(1), {}, ended, map p | p in ended :: Good)
  }

  lemma FirstRunWritten() returns (run: seq<Action>)
    ensures Possible(EMPTY, run) && forall i :: 0 <= i < |run| ==> !run[i].CheckDelete?
    ensures Run(EMPTY, run) == Desk(map[1 := Row(7, Done, 0)], [Exited(0)], [Reader(1, Cleaning)], Some(0), Some(1),
                                    None, multiset{}, Some(0), {}, {0}, map[0 := Good])
  {
    hide Possible, Run;
    run := [];
    NoSteps(EMPTY);
    OneMore(EMPTY, run, Start(7, 1, true));
    run := run + [Start(7, 1, true)];
    OneMore(EMPTY, run, Exit(0, 0));
    run := run + [Exit(0, 0)];
    OneMore(EMPTY, run, Check(0));
    run := run + [Check(0)];
    OneMore(EMPTY, run, Write(0, Good));
    run := run + [Write(0, Good)];
  }

  lemma SecondRunStarted(before: seq<Action>) returns (run: seq<Action>)
    requires Possible(EMPTY, before)
    requires Run(EMPTY, before) == Desk(map[1 := Row(7, Done, 0)], [Exited(0)], [Reader(1, Cleaning)], Some(0), Some(1),
                                        None, multiset{}, Some(0), {}, {0}, map[0 := Good])
    ensures Possible(EMPTY, run)
    ensures Run(EMPTY, run) == Two(map[1 := Row(7, Done, 0), 2 := Row(7, Active, 1)], Running, Following, Some(1), {0})
  {
    hide Possible, Run;
    assert NextId(Run(EMPTY, before).rows, 2) by { assert 1 in Run(EMPTY, before).rows; }
    OneMore(EMPTY, before, Start(7, 2, true));
    run := before + [Start(7, 2, true)];
  }

  lemma FirstRowDeleted(before: seq<Action>) returns (run: seq<Action>)
    requires Possible(EMPTY, before)
    requires Run(EMPTY, before)
          == Two(map[1 := Row(7, Done, 0), 2 := Row(7, Active, 1)], Running, Following, Some(1), {0})
    ensures Possible(EMPTY, run)
    ensures Run(EMPTY, run) == Two(map[2 := Row(7, Active, 1)], Running, Following, Some(1), {0})
  {
    hide Possible, Run;
    OneMore(EMPTY, before, CheckDelete(1, 7));
    run := before + [CheckDelete(1, 7)];
    OneMore(EMPTY, run, DeleteRow(1, 7));
    run := run + [DeleteRow(1, 7)];
    assert Run(EMPTY, run).rows == map[2 := Row(7, Active, 1)];
  }

  lemma SecondRunOver(before: seq<Action>) returns (run: seq<Action>)
    requires Possible(EMPTY, before)
    requires Run(EMPTY, before) == Two(map[2 := Row(7, Active, 1)], Running, Following, Some(1), {0})
    ensures Possible(EMPTY, run)
    ensures Run(EMPTY, run) == Two(map[2 := Row(7, Done, 1)], Exited(0), Gone, None, {0, 1})
  {
    hide Possible, Run;
    OneMore(EMPTY, before, Exit(1, 0));
    run := before + [Exit(1, 0)];
    OneMore(EMPTY, run, Check(1));
    run := run + [Check(1)];
    OneMore(EMPTY, run, Write(1, Good));
    run := run + [Write(1, Good)];
    OneMore(EMPTY, run, Cleanup(1));
    run := run + [Cleanup(1)];
  }

  lemma SecondRowDeleted(before: seq<Action>) returns (run: seq<Action>)
    requires Possible(EMPTY, before)
    requires Run(EMPTY, before) == Two(map[2 := Row(7, Done, 1)], Exited(0), Gone, None, {0, 1})
    ensures Possible(EMPTY, run)
    ensures Run(EMPTY, run) == Two(map[], Exited(0), Gone, None, {0, 1})
  {
    hide Possible, Run;
    OneMore(EMPTY, before, CheckDelete(2, 7));
    run := before + [CheckDelete(2, 7)];
    OneMore(EMPTY, run, DeleteRow(2, 7));
    run := run + [DeleteRow(2, 7)];
    assert Run(EMPTY, run).rows == map[];
  }
}
