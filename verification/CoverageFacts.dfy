/** What the claim table guarantees over every history of marks, and what `gaps` returns. */
module CoverageFacts {
  import opened Common
  import opened Days
  import opened Coverage

  // ------------------------------------------------------------ histories
  function Replay(h: seq<Claim>): Table { MarkAll(map[], h) }

  /** The states one period was given, oldest first, after any downgrade. */
  function Answers(h: seq<Claim>, k: Key): seq<State> {
    if h == [] then []
    else
      var before, c := h[..|h| - 1], h[|h| - 1];
      if c.key == k then Answers(before, k) + [Effective(Replay(before), c)] else Answers(before, k)
  }

  /** A row is the last answer, and `attempts` is the length of the unresolved run that ends it. */
  lemma {:induction false} AttemptsCountTheUnresolvedRun(h: seq<Claim>, k: Key)
    ensures k in Replay(h) <==> Answers(h, k) != []
    ensures k in Replay(h) ==>
              var a, n := Answers(h, k), Replay(h)[k].attempts;
              && Replay(h)[k].state == a[|a| - 1]
              && n <= |a|
              && (forall i :: |a| - n <= i < |a| ==> !Settled(a[i]))
              && (n < |a| ==> Settled(a[|a| - n - 1]))
  {
    if h != [] {
      AttemptsCountTheUnresolvedRun(h[..|h| - 1], k);
    }
  }

  /** The last mark of a period, if any. */
  function LastMark(h: seq<Claim>, k: Key): (r: Option<nat>)
    ensures r.None? ==> forall i :: 0 <= i < |h| ==> h[i].key != k
    ensures r.Some? ==> r.value < |h| && h[r.value].key == k
                        && forall i :: r.value < i < |h| ==> h[i].key != k
  {
    if h == [] then None
    else if h[|h| - 1].key == k then Some(|h| - 1)
    else
      var before := h[..|h| - 1];
      assert forall i :: 0 <= i < |before| ==> before[i] == h[i];
      LastMark(before, k)
  }

  /** Last writer wins, and a stored row is exactly what that writer was entitled to write. */
  lemma {:induction false} RowIsTheLastMark(h: seq<Claim>, k: Key)
    ensures k in Replay(h) <==> LastMark(h, k).Some?
    ensures k in Replay(h) ==>
              var i := LastMark(h, k).value;
              var row := Replay(h)[k];
              && row.state == Effective(Replay(h[..i]), h[i])
              && row.rows == h[i].rows
              && row.checkedAt == h[i].at
  {
    if h != [] && h[|h| - 1].key != k {
      var before := h[..|h| - 1];
      RowIsTheLastMark(before, k);
      if LastMark(before, k).Some? {
        assert before[..LastMark(before, k).value] == h[..LastMark(before, k).value];
      }
    }
  }

  /** The `have` that stands for a period: the last mark of that period, and no later one. */
  ghost predicate StandingHave(h: seq<Claim>, s: Series, m: int) {
    0 <= m < |h| && h[m].key.series == s && h[m].state == Have && LastMark(h, h[m].key) == Some(m)
  }

  /** A series reaches further back exactly when an older day's last mark is a `have`. */
  lemma HasOlderMeaning(h: seq<Claim>, s: Series, before: Day)
    ensures HasOlder(Replay(h), s, before) <==> exists m :: StandingHave(h, s, m) && h[m].key.day < before
    ensures Holds(Replay(h), s) <==> exists m :: StandingHave(h, s, m)
  {
    hide LastMark;
    forall k | k in Replay(h) && k.series == s && Replay(h)[k].state == Have
      ensures exists m :: StandingHave(h, s, m) && h[m].key == k
    {
      RowIsTheLastMark(h, k);
      assert StandingHave(h, s, LastMark(h, k).value);
    }
    forall m | StandingHave(h, s, m)
      ensures h[m].key in Replay(h) && Replay(h)[h[m].key].state == Have
    {
      RowIsTheLastMark(h, h[m].key);
    }
  }

  /** Who may say that there is nothing: the two Alpaca feeds outright, and onclick for chains once it has data. */
  lemma AuthorityTable(s: Series)
    ensures Outright(s) <==> (s.kind.Bars? || s.kind.Chain?) && (s.provider.AlpacaIex? || s.provider.AlpacaSip?)
    ensures Earns(s) <==> s.kind.Chain? && s.provider.Onclick?
  {
  }

  /** A series holds data only if some mark said so. */
  lemma {:induction false} HeldWasMarked(h: seq<Claim>, s: Series)
    ensures Holds(Replay(h), s) ==>
              exists m :: 0 <= m < |h| && h[m].key.series == s && h[m].state == Have
  {
    if Holds(Replay(h), s) {
      var k :| k in Replay(h) && k.series == s && Replay(h)[k].state == Have;
      RowIsTheLastMark(h, k);
      assert h[LastMark(h, k).value].state == Have;
    }
  }

  /** A stored `Absent` was claimed by a provider entitled to it at that very step: outright, or
      by a `Have` it had already been marked with for the same series. Nothing else is `Absent`. */
  lemma AbsenceProvenance(h: seq<Claim>, k: Key)
    ensures (k in Replay(h) && Replay(h)[k].state == Absent) <==>
            (LastMark(h, k).Some?
             && var i := LastMark(h, k).value;
                h[i].state == Absent
                && (Outright(k.series) || (Earns(k.series) && Holds(Replay(h[..i]), k.series))))
    ensures k in Replay(h) && Replay(h)[k].state == Absent && !Outright(k.series) ==>
              exists m :: 0 <= m < LastMark(h, k).value
                          && h[m].key.series == k.series && h[m].state == Have
  {
    RowIsTheLastMark(h, k);
    if k in Replay(h) && Replay(h)[k].state == Absent && !Outright(k.series) {
      var i := LastMark(h, k).value;
      HeldWasMarked(h[..i], k.series);
      var m :| 0 <= m < i && h[..i][m].key.series == k.series && h[..i][m].state == Have;
      assert h[m] == h[..i][m];
    }
  }

  /** The evidence may be gone from the table afterwards, which is why the claim is about
      the history and not about the rows that are left. */
  lemma EvidenceMayBeOverwritten()
    ensures var s := Series(Onclick, Chain, "SPY", "");
            var t := Replay([Claim(Key(s, 1), Have, 1, 10), Claim(Key(s, 2), Absent, 0, 20),
                             Claim(Key(s, 1), Failed, 0, 30)]);
            Key(s, 2) in t && t[Key(s, 2)].state == Absent && !Holds(t, s)
  {
    var s := Series(Onclick, Chain, "SPY", "");
    var a, b, c := Claim(Key(s, 1), Have, 1, 10), Claim(Key(s, 2), Absent, 0, 20), Claim(Key(s, 1), Failed, 0, 30);
    MarkAllSnoc(map[], [], a);
    assert [] + [a] == [a];
    MarkAllSnoc(map[], [a], b);
    assert [a] + [b] == [a, b];
    MarkAllSnoc(map[], [a, b], c);
    assert [a, b] + [c] == [a, b, c];
    var t1 := Replay([a]);
    assert Key(s, 1) in t1 && t1[Key(s, 1)].state == Have;
    assert Holds(t1, s) && MayClaimAbsent(t1, s);
  }

  // ------------------------------------------------------------ resting
  /** `checked_at` ends in 'T..', the threshold in ' ..', so a period rests to the end of its own
      day plus the span: longer than the span, and never a full day longer. */
  lemma RestWindow(checkedAt: int, now: int, span: int)
    ensures Recent(checkedAt, now, span) <==> now < (checkedAt / 86400 + 1) * 86400 + span
    ensures now <= checkedAt + span ==> Recent(checkedAt, now, span)
    ensures checkedAt + span + 86400 <= now ==> !Recent(checkedAt, now, span)
  {
  }

  /** Inside `plan`'s query a period is shut out only while settled, or used up and resting. */
  lemma UsedUpThenOpenAgain(t: Table, s: Series, q: Query, d: Day)
    requires q.cooldown == 0 && q.maxAttempts == MAX_ATTEMPTS && Key(s, d) in t
    ensures var row := t[Key(s, d)];
            && (Settled(row.state) ==> !Open(t, s, q, d))
            && (!Settled(row.state) ==>
                  && (row.attempts < 3 ==> Open(t, s, q, d))
                  && (row.attempts >= 3 && q.now <= row.checkedAt + 20 * 3600 ==> !Open(t, s, q, d))
                  && (q.now >= row.checkedAt + 44 * 3600 ==> Open(t, s, q, d)))
  {
    RestWindow(t[Key(s, d)].checkedAt, q.now, RETRY_COOLDOWN);
  }

  /** The second at which a period marked at `checkedAt` stops resting for `span` seconds. */
  function RestEnds(checkedAt: int, span: int): int { (checkedAt / 86400 + 1) * 86400 + span }

  /** For every query, exactly when a day is worth asking about. */
  lemma OpenExactly(t: Table, s: Series, q: Query, d: Day)
    ensures Open(t, s, q, d) <==>
      (Key(s, d) in t ==>
        var row := t[Key(s, d)];
        && (row.state == Failed || row.state == Unknown)
        && (q.cooldown <= 0 || RestEnds(row.checkedAt, q.cooldown) <= q.now)
        && (q.maxAttempts <= 0 || row.attempts < q.maxAttempts || RestEnds(row.checkedAt, 20 * 3600) <= q.now))
  {
    hide Recent;
    if Key(s, d) in t {
      RestWindow(t[Key(s, d)].checkedAt, q.now, q.cooldown);
      RestWindow(t[Key(s, d)].checkedAt, q.now, RETRY_COOLDOWN);
    }
  }

  // ------------------------------------------------------------ one fetch
  /** What a fetch leaves for every asked day, however often it was asked; and no other row changes. */
  lemma {:induction false} FetchMeaning(t: Table, s: Series, asked: seq<Day>, got: set<Day>, at: int, k: Key)
    ensures var after := MarkAll(t, FetchClaims(s, asked, got, at));
            && (k.series == s && k.day in asked ==>
                  && k in after && after[k].checkedAt == at
                  && after[k].rows == (if k.day in got then 1 else 0)
                  && after[k].state == (if k.day in got then Have else if Outright(s) then Absent else Unknown))
            && (!(k.series == s && k.day in asked) ==>
                  (k in after <==> k in t) && (k in after ==> after[k] == t[k]))
  {
    hide Outright;
    if asked != [] {
      var front, last := asked[..|asked| - 1], asked[|asked| - 1];
      assert asked == front + [last];
      FetchMeaning(t, s, front, got, at, k);
      assert FetchClaims(s, asked, got, at) == FetchClaims(s, front, got, at) + [DayClaim(s, last, got, at)];
      MarkAllSnoc(t, FetchClaims(s, front, got, at), DayClaim(s, last, got, at));
    }
  }

  // ------------------------------------------------------------ gaps
  ghost predicate Asks(t: Table, s: Series, q: Query, d: Day) {
    q.start <= d <= q.end && Weekday(d) && Open(t, s, q, d)
  }

  lemma CandidatesOrdered(t: Table, s: Series, q: Query)
    ensures q.newestFirst ==> Descending(Candidates(t, s, q))
    ensures !q.newestFirst ==> Ascending(Candidates(t, s, q))
  {
    WeekdaysExact(q.start, q.end);
    KeepOrder(Weekdays(q.start, q.end), d => Open(t, s, q, d));
  }

  lemma UntriedFirstFacts(t: Table, s: Series, days: seq<Day>)
    ensures var r := UntriedFirst(t, s, days);
            && (forall d :: d in r <==> d in days)
            && (Ascending(days) || Descending(days) ==> Distinct(r))
  {
    var untried, failed := Keep(days, d => !HasFailed(t, s, d)), Keep(days, d => HasFailed(t, s, d));
    KeepOrder(days, d => !HasFailed(t, s, d));
    KeepOrder(days, d => HasFailed(t, s, d));
    forall i, j | 0 <= i < |untried| && 0 <= j < |failed| ensures untried[i] != failed[j] {
      assert untried[i] in untried && failed[j] in failed;
    }
  }

  lemma PrefixFacts(full: seq<Day>, g: seq<Day>)
    requires g <= full
    ensures Distinct(full) ==> Distinct(g)
    ensures Descending(full) ==> Descending(g)
    ensures Ascending(full) ==> Ascending(g)
    ensures forall d :: d in g ==> d in full
  {
    assert g == full[..|g|];
  }

  /** The whole list, before `limit` cuts it. */
  lemma WholeFacts(t: Table, s: Series, q: Query) returns (full: seq<Day>)
    ensures Gaps(t, s, q) == Slice(full, q.limit)
    ensures forall d :: d in full <==> Asks(t, s, q, d)
    ensures Distinct(full)
    ensures !q.preferUntried ==> if q.newestFirst then Descending(full) else Ascending(full)
  {
    var out := Candidates(t, s, q);
    InRange(t, s, q);
    CandidatesOrdered(t, s, q);
    UntriedFirstFacts(t, s, out);
    full := if q.preferUntried then UntriedFirst(t, s, out) else out;
  }

  /** What a cut leaves out of a newest-first list is older than what it keeps. */
  lemma CutIsOldest(full: seq<Day>, g: seq<Day>, d: Day)
    requires g <= full && Descending(full) && d in full && d !in g
    ensures |g| < |full| && forall x :: x in g ==> d < x
  {
    assert g == full[..|g|];
    var i :| 0 <= i < |full| && full[i] == d;
    assert i >= |g|;
  }

  /** ... and newer, when the list is oldest first. */
  lemma CutIsNewest(full: seq<Day>, g: seq<Day>, d: Day)
    requires g <= full && Ascending(full) && d in full && d !in g
    ensures |g| < |full| && forall x :: x in g ==> x < d
  {
    assert g == full[..|g|];
    var i :| 0 <= i < |full| && full[i] == d;
    assert i >= |g|;
  }

  /** `d` comes after `x` in the order that was asked for. */
  predicate Later(q: Query, x: Day, d: Day) { if q.newestFirst then d < x else x < d }

  lemma CutIsLast(q: Query, full: seq<Day>, g: seq<Day>, d: Day)
    requires g <= full && d in full && d !in g
    requires if q.newestFirst then Descending(full) else Ascending(full)
    ensures |g| < |full| && forall x :: x in g ==> Later(q, x, d)
  {
    hide Ascending, Descending;
    if q.newestFirst {
      CutIsOldest(full, g, d);
    } else {
      CutIsNewest(full, g, d);
    }
  }

  /** Every returned day is worth asking about, once, in order; a cut by `limit` loses only the last days of it. */
  lemma GapsExact(t: Table, s: Series, q: Query)
    ensures Distinct(Gaps(t, s, q))
    ensures forall d :: d in Gaps(t, s, q) ==> Asks(t, s, q, d)
    ensures 0 <= q.limit && |Gaps(t, s, q)| < q.limit ==>
              forall d :: Asks(t, s, q, d) ==> d in Gaps(t, s, q)
    ensures !q.preferUntried ==> if q.newestFirst then Descending(Gaps(t, s, q)) else Ascending(Gaps(t, s, q))
    ensures !q.preferUntried && 0 <= q.limit ==>
              forall d :: Asks(t, s, q, d) && d !in Gaps(t, s, q) ==>
                |Gaps(t, s, q)| == q.limit && forall x :: x in Gaps(t, s, q) ==> Later(q, x, d)
  {
    hide Gaps, Asks, Later, Ascending, Descending;
    var full := WholeFacts(t, s, q);
    var g := Slice(full, q.limit);
    PrefixFacts(full, g);
    if !q.preferUntried && 0 <= q.limit {
      forall d | Asks(t, s, q, d) && d !in g ensures |g| == q.limit && forall x :: x in g ==> Later(q, x, d) {
        CutIsLast(q, full, g, d);
      }
    }
    if 0 <= q.limit && |g| < q.limit {
      assert g == full;
    }
  }

  /** The two groups of `prefer_untried`, each in the order that was asked for. */
  lemma Groups(t: Table, s: Series, q: Query) returns (untried: seq<Day>, failed: seq<Day>)
    requires q.preferUntried
    ensures Gaps(t, s, q) == Slice(untried + failed, q.limit)
    ensures forall d :: d in untried <==> Asks(t, s, q, d) && !HasFailed(t, s, d)
    ensures forall d :: d in failed <==> Asks(t, s, q, d) && HasFailed(t, s, d)
    ensures q.newestFirst ==> Descending(untried) && Descending(failed)
    ensures !q.newestFirst ==> Ascending(untried) && Ascending(failed)
  {
    hide HasFailed, Ascending, Descending, Open;
    var out := Candidates(t, s, q);
    untried, failed := Keep(out, d => !HasFailed(t, s, d)), Keep(out, d => HasFailed(t, s, d));
    CandidatesOrdered(t, s, q);
    KeepOrder(out, d => !HasFailed(t, s, d));
    KeepOrder(out, d => HasFailed(t, s, d));
    InRange(t, s, q);
  }

  /** `prefer_untried`: a stable partition, and a failed day is returned only when every
      open day that has not failed is returned before it. */
  lemma UntriedComesFirst(t: Table, s: Series, q: Query) returns (k: nat)
    requires q.preferUntried
    ensures k <= |Gaps(t, s, q)|
    ensures var g := Gaps(t, s, q);
            && (forall d :: d in g[..k] ==> !(Key(s, d) in t && t[Key(s, d)].state == Failed))
            && (forall d :: d in g[k..] ==> Key(s, d) in t && t[Key(s, d)].state == Failed)
            && (q.newestFirst ==> Descending(g[..k]) && Descending(g[k..]))
            && (!q.newestFirst ==> Ascending(g[..k]) && Ascending(g[k..]))
            && (k < |g| ==> forall d :: Asks(t, s, q, d) && !HasFailed(t, s, d) ==> d in g[..k])
            && (forall d :: Asks(t, s, q, d) && d !in g ==>
                  forall x :: x in g && HasFailed(t, s, x) == HasFailed(t, s, d) ==> Later(q, x, d))
  {
    hide Gaps, Asks, HasFailed, Later, Ascending, Descending;
    var untried, failed := Groups(t, s, q);
    var g := Gaps(t, s, q);
    k := PartsOf(untried, failed, g);
    FailedInTable(t, s);
    PrefixFacts(untried, g[..k]);
    PrefixFacts(failed, g[k..]);
    forall d | Asks(t, s, q, d) && d !in g
      ensures forall x :: x in g && HasFailed(t, s, x) == HasFailed(t, s, d) ==> Later(q, x, d)
    {
      GroupCut(t, s, q, untried, failed, g, k, d);
    }
  }

  lemma FailedInTable(t: Table, s: Series)
    ensures forall d :: HasFailed(t, s, d) <==> Key(s, d) in t && t[Key(s, d)].state == Failed
  {
  }

  /** A cut day comes after the returned days of its own group. */
  lemma GroupCut(t: Table, s: Series, q: Query, untried: seq<Day>, failed: seq<Day>, g: seq<Day>, k: nat, d: Day)
    requires k <= |g| && g[..k] <= untried && g[k..] <= failed && d !in g
    requires if HasFailed(t, s, d) then d in failed else d in untried
    requires forall x :: x in untried ==> !HasFailed(t, s, x)
    requires forall x :: x in failed ==> HasFailed(t, s, x)
    requires q.newestFirst ==> Descending(untried) && Descending(failed)
    requires !q.newestFirst ==> Ascending(untried) && Ascending(failed)
    ensures forall x :: x in g && HasFailed(t, s, x) == HasFailed(t, s, d) ==> Later(q, x, d)
  {
    hide HasFailed, Later, Ascending, Descending;
    var head, tail := g[..k], g[k..];
    assert g == head + tail;
    assert forall x :: x in head ==> x in untried;
    assert forall x :: x in tail ==> x in failed;
    if HasFailed(t, s, d) {
      CutFromGroup(q, failed, tail, d);
    } else {
      CutFromGroup(q, untried, head, d);
    }
  }

  lemma CutFromGroup(q: Query, full: seq<Day>, g: seq<Day>, d: Day)
    requires g <= full && d in full && d !in g
    requires (q.newestFirst ==> Descending(full)) && (!q.newestFirst ==> Ascending(full))
    ensures forall x :: x in g ==> Later(q, x, d)
  {
    hide Ascending, Descending, Later;
    CutIsLast(q, full, g, d);
  }

  /** A prefix of `a + b` is a prefix of `a` and then, once `a` is whole, a prefix of `b`. */
  lemma PartsOf(a: seq<Day>, b: seq<Day>, g: seq<Day>) returns (k: nat)
    requires g <= a + b
    ensures k <= |g| && g[..k] <= a && g[k..] <= b && (k < |g| ==> g[..k] == a)
  {
    k := Min(|a|, |g|);
    assert g == (a + b)[..|g|];
    assert g[..k] == a[..k] && g[k..] == b[..|g| - k];
  }
}
