/** Single-use keys for report pages. */
module ReportKeys {
  import opened Common

  const REPORT_KEY_TTL := 60.0

  datatype Key = Key(token: string, file: string, expires: real)

  datatype Minted = Minted(run: int, file: string, at: real)

  datatype Use = Use(token: string, run: int, file: string, at: real)

  /** The table of keys, and as history what was minted and what was accepted. */
  datatype Ring = Ring(keys: map<int, Key>, minted: map<string, Minted>, used: seq<Use>)

  const EMPTY := Ring(map[], map[], [])

  datatype Action =
    | Mint(run: int, file: string, token: string, now: real)
    | Consume(run: int, supplied: string, now: real)
    | Drop(run: int)

  /** Tokens come from a random source that does not repeat itself. */
  predicate Enabled(s: Ring, a: Action) { a.Mint? ==> a.token !in s.minted }

  predicate Accepts(s: Ring, run: int, supplied: string, now: real) {
    run in s.keys && now <= s.keys[run].expires && supplied == s.keys[run].token
  }

  function Step(s: Ring, a: Action): Ring {
    match a
    case Mint(run, file, token, now) =>
      s.(keys := s.keys[run := Key(token, file, now + REPORT_KEY_TTL)],
         minted := s.minted[token := Minted(run, file, now)])
    case Consume(run, supplied, now) =>
      if Accepts(s, run, supplied, now) then
        s.(keys := s.keys - {run}, used := s.used + [Use(supplied, run, s.keys[run].file, now)])
      else if run in s.keys && now > s.keys[run].expires then s.(keys := s.keys - {run})
      else s
    case Drop(run) => s.(keys := s.keys - {run})
  }

  ghost predicate Possible(s: Ring, run: seq<Action>) {
    run == [] || (Possible(s, run[..|run| - 1]) && Enabled(Run(s, run[..|run| - 1]), run[|run| - 1]))
  }

  function Run(s: Ring, run: seq<Action>): Ring {
    if run == [] then s else Step(Run(s, run[..|run| - 1]), run[|run| - 1])
  }

  predicate Used(s: Ring, token: string) { exists i :: 0 <= i < |s.used| && s.used[i].token == token }

  /** Each key in the table is as minted and unused; each use was of a key for its run and file, in time, and once. */
  ghost predicate Sound(s: Ring) {
    && (forall r :: r in s.keys ==>
          var k := s.keys[r];
          && k.token in s.minted && s.minted[k.token] == Minted(r, k.file, k.expires - REPORT_KEY_TTL)
          && !Used(s, k.token))
    && (forall i :: 0 <= i < |s.used| ==> Fair(s, s.used[i]))
    && (forall i, j :: 0 <= i < j < |s.used| ==> s.used[i].token != s.used[j].token)
  }

  predicate Fair(s: Ring, u: Use) {
    u.token in s.minted && s.minted[u.token].run == u.run && s.minted[u.token].file == u.file
    && u.at <= s.minted[u.token].at + REPORT_KEY_TTL
  }

  lemma StepKeeps(s: Ring, a: Action)
    requires Sound(s) && Enabled(s, a)
    ensures Sound(Step(s, a))
  {
    var s' := Step(s, a);
    assert forall i :: 0 <= i < |s.used| ==> s'.used[i] == s.used[i] && Fair(s, s.used[i]);
    assert a.Mint? ==> !Used(s, a.token);
  }

  lemma {:induction false} AlwaysSound(run: seq<Action>)
    requires Possible(EMPTY, run)
    ensures Sound(Run(EMPTY, run))
  {
    hide Step, Enabled, Sound;
    if run == [] {
      NoneYet();
    } else {
      AlwaysSound(run[..|run| - 1]);
      StepKeeps(Run(EMPTY, run[..|run| - 1]), run[|run| - 1]);
    }
  }

  /** Over any history, a key opened a report at most once, for the run and file it was minted for, and in time. */
  lemma OpensOnceAndInTime(run: seq<Action>, i: nat)
    requires Possible(EMPTY, run) && i < |Run(EMPTY, run).used|
    ensures var s := Run(EMPTY, run);
            var u := s.used[i];
            && u.token in s.minted && s.minted[u.token].run == u.run && s.minted[u.token].file == u.file
            && u.at <= s.minted[u.token].at + REPORT_KEY_TTL
            && forall j :: 0 <= j < |s.used| && s.used[j].token == u.token ==> j == i
  {
    hide Run, Step, Enabled, Used;
    AlwaysSound(run);
    assert Fair(Run(EMPTY, run), Run(EMPTY, run).used[i]);
  }

  lemma NoneYet()
    ensures Sound(EMPTY)
  {
  }

  /** Minted once and no longer in the table. */
  ghost predicate Retired(s: Ring, token: string) {
    token in s.minted && forall r :: r in s.keys ==> s.keys[r].token != token
  }

  lemma StaysRetired(s: Ring, a: Action, token: string)
    requires Enabled(s, a) && Retired(s, token)
    ensures Retired(Step(s, a), token)
    ensures Used(Step(s, a), token) <==> Used(s, token)
  {
    var s' := Step(s, a);
    assert |s.used| <= |s'.used| && forall i :: 0 <= i < |s.used| ==> s'.used[i] == s.used[i];
  }

  /** A key that left the table, by use, expiry, deletion or a newer key, never opens anything again. */
  lemma {:induction false} RetiredForGood(s: Ring, run: seq<Action>, token: string)
    requires Possible(s, run) && Retired(s, token)
    ensures Retired(Run(s, run), token) && (Used(Run(s, run), token) <==> Used(s, token))
  {
    hide Step, Enabled, Retired, Used;
    if run != [] {
      RetiredForGood(s, run[..|run| - 1], token);
      StaysRetired(Run(s, run[..|run| - 1]), run[|run| - 1], token);
    }
  }

  /** Minting for a run retires the run's key before it. */
  lemma MintingRetires(s: Ring, run: int, file: string, token: string, now: real)
    requires Sound(s) && token !in s.minted && run in s.keys
    ensures Retired(Step(s, Mint(run, file, token, now)), s.keys[run].token)
  {
    hide Used;
  }

  /** Steps that leave a run's key alone: no newer key, no deletion, and no use of it, in time or late. */
  predicate Leaves(run: int, token: string, expires: real, a: Action) {
    match a
    case Mint(other, _, _, _) => other != run
    case Consume(other, supplied, now) => other != run || (supplied != token && now <= expires)
    case Drop(other) => other != run
  }

  /** A minted key works for its minute, whatever wrong tokens are tried, until it is used, replaced or dropped. */
  lemma {:induction false} KeyWorksForAMinute(s: Ring, run: int, file: string, token: string, now: real,
                                              more: seq<Action>, later: real)
    requires forall i :: 0 <= i < |more| ==> Leaves(run, token, now + 60.0, more[i])
    ensures var s' := Run(Step(s, Mint(run, file, token, now)), more);
            && run in s'.keys && s'.keys[run] == Key(token, file, now + 60.0)
            && (Accepts(s', run, token, later) <==> later <= now + 60.0)
  {
    if more != [] {
      KeyWorksForAMinute(s, run, file, token, now, more[..|more| - 1], later);
    }
  }

  class KeyRing {
    var reportKeys: map<int, Key>
    ghost var minted: map<string, Minted>
    ghost var used: seq<Use>

    ghost function State(): Ring reads this { Ring(reportKeys, minted, used) }

    constructor ()
      ensures State() == EMPTY
    {
      reportKeys, minted, used := map[], map[], [];
    }

    method MintReportKey(run: int, file: string, token: string, now: real)
      requires Enabled(State(), Mint(run, file, token, now))
      modifies this
      ensures State() == Step(old(State()), Mint(run, file, token, now))
      ensures reportKeys == old(reportKeys)[run := Key(token, file, now + 60.0)]
    {
      reportKeys := reportKeys[run := Key(token, file, now + REPORT_KEY_TTL)];
      minted := minted[token := Minted(run, file, now)];
    }

    method ConsumeReportKey(run: int, supplied: string, now: real) returns (file: Option<string>)
      modifies this
      ensures State() == Step(old(State()), Consume(run, supplied, now))
      ensures file.Some? <==> Accepts(old(State()), run, supplied, now)
      ensures file.Some? ==> file.value == old(reportKeys)[run].file
      ensures var k := old(reportKeys);
              reportKeys == if run in k && (now > k[run].expires || supplied == k[run].token) then k - {run} else k
    {
      if run !in reportKeys {
        return None;
      }
      var entry := reportKeys[run];
      if now > entry.expires {
        reportKeys := reportKeys - {run};
        return None;
      }
      if supplied != entry.token {
        return None;
      }
      reportKeys := reportKeys - {run};
      used := used + [Use(supplied, run, entry.file, now)];
      file := Some(entry.file);
    }

    /** Part of deleting a run. */
    method DropReportKey(run: int)
      modifies this
      ensures State() == Step(old(State()), Drop(run))
    {
      reportKeys := reportKeys - {run};
    }
  }
}
