/** Syncs that crash, repeat and interleave with the recorder, against one sync of everything. */
module SyncFacts {
  import opened Common
  import opened Civil
  import opened OptStore

  // ------------------------------------------------------------ stopping between two days
  lemma {:induction false} NothingNewer(inbox: seq<Snap>, w: nat)
    requires forall i :: 0 <= i < |inbox| ==> inbox[i].ts <= w
    ensures Pending(inbox, w) == []
  {
    hide InHours;
    if inbox != [] {
      NothingNewer(inbox[..|inbox| - 1], w);
    }
  }

  lemma Newest(inbox: seq<Snap>, w: nat)
    requires InOrder(inbox) && inbox != [] && w == inbox[|inbox| - 1].ts
    ensures Pending(inbox, w) == []
  {
    hide InHours, Pending;
    forall i | 0 <= i < |inbox| ensures inbox[i].ts <= w {
      assert i < |inbox| - 1 ==> inbox[i].ts < inbox[|inbox| - 1].ts;
    }
    NothingNewer(inbox, w);
  }

  lemma FrontInOrder(inbox: seq<Snap>)
    requires InOrder(inbox) && inbox != []
    ensures InOrder(inbox[..|inbox| - 1])
  {
    hide Ymd;
    var front := inbox[..|inbox| - 1];
    assert forall i :: 0 <= i < |front| ==> front[i] == inbox[i];
  }

  /** A day a sync writes was recorded after the watermark. */
  lemma ListedIsPending(inbox: seq<Snap>, w: nat, i: nat)
    requires i < |DayList(inbox, w)|
    ensures var s := DayList(inbox, w)[i]; s in Pending(inbox, w) && s in inbox && s.ts > w
  {
    hide InHours, Pending, LastOfDays;
    LastOfDaysIn(Pending(inbox, w), DayList(inbox, w)[i]);
    PendingIn(inbox, w);
  }

  /** One more pending snapshot: a new day, or the newest day again. */
  function Snoc(r: seq<DaySnap>, s: DaySnap): seq<DaySnap> {
    if r != [] && DateOf(r[|r| - 1]) == DateOf(s) then r[..|r| - 1] + [s] else r + [s]
  }

  lemma SnocRest(r: seq<DaySnap>, s: DaySnap, k: nat)
    requires k <= |r|
    ensures k < |Snoc(r, s)| && (k < |r| || Snoc(r, s) == r + [s]) ==> Snoc(r[k..], s) == Snoc(r, s)[k..]
    ensures forall i :: 0 <= i < |r| - 1 || 0 <= i < |r| < |Snoc(r, s)| ==> Snoc(r, s)[i] == r[i]
  {
    hide InHours;
    if r != [] && DateOf(r[|r| - 1]) == DateOf(s) && k < |r| {
      assert r[k..][..|r| - k - 1] + [s] == Snoc(r, s)[k..];
    } else {
      assert r[k..] + [s] == (r + [s])[k..];
    }
  }

  lemma NextPending(inbox: seq<Snap>, w: nat)
    requires inbox != []
    ensures var s := inbox[|inbox| - 1];
            DayList(inbox, w) == if s.ts > w && InHours(s) then Snoc(DayList(inbox[..|inbox| - 1], w), s)
                                 else DayList(inbox[..|inbox| - 1], w)
  {
    hide InHours, LastOfDays;
    var front, s := inbox[..|inbox| - 1], inbox[|inbox| - 1];
    if s.ts > w && InHours(s) {
      SnocDay(Pending(front, w), s);
    }
  }

  /** After the first `k` days of a sync, what is left to do is the rest of the same list. */
  lemma {:induction false} RestOfTheList(inbox: seq<Snap>, w: nat, k: nat)
    requires InOrder(inbox) && k <= |DayList(inbox, w)|
    ensures var list := DayList(inbox, w); DayList(inbox, Watermark(w, list[..k])) == list[k..]
  {
    hide InHours, InOrder, DayList, Snoc;
    var list := DayList(inbox, w);
    if k == 0 {
      assert list[0..] == list;
    } else {
      ListedIsPending(inbox, w, k - 1);
      var w' := list[k - 1].ts;
      assert Watermark(w, list[..k]) == w';
      var front, s := inbox[..|inbox| - 1], inbox[|inbox| - 1];
      var list0 := DayList(front, w);
      FrontInOrder(inbox);
      NextPending(inbox, w);
      if !(s.ts > w && InHours(s)) {
        RestOfTheList(front, w, k);
        NextPending(inbox, w');
      } else if k == |list| {
        SnocEnds(list0, s);
        Newest(inbox, w');
        NoPending(inbox, w');
      } else {
        SnocSize(list0, s);
        SnocRest(list0, s, k);
        assert list0[k - 1] == list[k - 1];
        RestOfTheList(front, w, k);
        ListedIsPending(front, w, k - 1);
        NewestIsLast(inbox, w, list0[k - 1]);
        NextPending(inbox, w');
      }
    }
  }

  lemma SnocEnds(r: seq<DaySnap>, s: DaySnap)
    ensures Snoc(r, s) != [] && Snoc(r, s)[|Snoc(r, s)| - 1] == s
  {
  }

  lemma SnocSize(r: seq<DaySnap>, s: DaySnap)
    ensures |Snoc(r, s)| == |r| || Snoc(r, s) == r + [s]
  {
  }

  lemma NoPending(inbox: seq<Snap>, w: nat)
    requires Pending(inbox, w) == []
    ensures DayList(inbox, w) == []
  {
  }

  lemma EmptyList()
    ensures LastOfDays([]) == []
  {
  }

  lemma SnocDay(p: seq<DaySnap>, s: DaySnap)
    ensures LastOfDays(p + [s]) == Snoc(LastOfDays(p), s)
  {
    hide InHours;
    assert (p + [s])[..|p|] == p;
  }

  lemma {:induction false} WriteMore(o: Opt, a: seq<DaySnap>, b: seq<DaySnap>, sid: nat)
    ensures WriteDays(WriteDays(o, a, sid), b, sid) == WriteDays(o, a + b, sid)
    decreases |b|
  {
    hide Upsert, RowsOf, InHours;
    if b == [] {
      assert a + b == a;
    } else {
      WriteMore(o, a, b[..|b| - 1], sid);
      assert (a + b)[..|a + b| - 1] == a + b[..|b| - 1];
    }
  }

  /** What a chain of attempts writes: each starts at the watermark the one before left. */
  function Attempts(inbox: seq<Snap>, w: nat, budgets: seq<nat>): seq<DaySnap> {
    if budgets == [] then []
    else
      var before := Attempts(inbox, w, budgets[..|budgets| - 1]);
      var list := DayList(inbox, Watermark(w, before));
      before + list[..Min(budgets[|budgets| - 1], |list|)]
  }

  function Total(budgets: seq<nat>): nat {
    if budgets == [] then 0 else Total(budgets[..|budgets| - 1]) + budgets[|budgets| - 1]
  }

  /** However often a sync dies between days, the attempts together are one uninterrupted sync. */
  lemma {:induction false} AttemptsAddUp(inbox: seq<Snap>, w: nat, budgets: seq<nat>)
    requires InOrder(inbox)
    ensures var list := DayList(inbox, w);
            Attempts(inbox, w, budgets) == list[..Min(Total(budgets), |list|)]
  {
    hide InOrder, DayList, Watermark;
    if budgets != [] {
      var list := DayList(inbox, w);
      var b := budgets[..|budgets| - 1];
      AttemptsAddUp(inbox, w, b);
      RestOfTheList(inbox, w, Min(Total(b), |list|));
    }
  }

  /** The watermark only moves forward, and a sync with nothing new to see copies no day. */
  lemma WatermarkMovesForward(inbox: seq<Snap>, w: nat, k: nat)
    requires InOrder(inbox) && k <= |DayList(inbox, w)|
    ensures var list := DayList(inbox, w);
            && Watermark(w, list[..k]) >= w
            && (Watermark(w, list[..k]) == w <==> k == 0)
            && (DayList(inbox, Watermark(w, list[..k])) == [] <==> k == |list|)
  {
    hide InHours, InOrder, DayList;
    var list := DayList(inbox, w);
    if k > 0 {
      ListedIsPending(inbox, w, k - 1);
      assert list[..k][k - 1] == list[k - 1];
    }
    RestOfTheList(inbox, w, k);
  }

  // ------------------------------------------------------------ syncing while the recorder runs
  /** A sync that saw the first `seen` snapshots and committed at most `budget` days. */
  datatype Visit = Visit(seen: nat, budget: nat)

  function VisitDays(inbox: seq<Snap>, w: nat, v: Visit): seq<DaySnap> {
    var list := DayList(inbox[..Min(v.seen, |inbox|)], w);
    list[..Min(v.budget, |list|)]
  }

  /** Every day transaction of a history of visits, in order. */
  function Written(inbox: seq<Snap>, visits: seq<Visit>): seq<DaySnap> {
    if visits == [] then []
    else
      var before := Written(inbox, visits[..|visits| - 1]);
      before + VisitDays(inbox, Watermark(0, before), visits[|visits| - 1])
  }

  ghost predicate Rising(days: seq<DaySnap>) {
    forall i, j :: 0 <= i < j < |days| ==> days[i].ts < days[j].ts
  }

  /** No later in-hours snapshot of its day was ever recorded. */
  ghost predicate Final(inbox: seq<Snap>, s: DaySnap) {
    s in inbox && forall t :: t in inbox && InHours(t) && t.et.value.date == DateOf(s) ==> t.ts <= s.ts
  }

  /** Exactly the final snapshots of their days are kept. */
  lemma {:induction false} LastOfDaysExact(p: seq<DaySnap>, s: DaySnap)
    requires DaysInOrder(p)
    ensures s in LastOfDays(p) <==> s in p && forall t :: t in p && DateOf(t) == DateOf(s) ==> t.ts <= s.ts
  {
    hide InHours, Ymd, LastOfDays, DaysInOrder, StrictDays;
    if p == [] {
      EmptyList();
    } else {
      var front, last := p[..|p| - 1], p[|p| - 1];
      assert p == front + [last];
      FrontDays(p);
      LastOfDaysExact(front, s);
      SnocDay(front, last);
      LastOfDaysStrict(front);
      var r := LastOfDays(front);
      if front == [] {
        EmptyList();
      } else {
        LastStays(front);
        assert r == r[..|r| - 1] + [r[|r| - 1]];
        if s in r[..|r| - 1] {
          StrictDatesIn(r, s);
        }
        if s in front && DateOf(r[|r| - 1]) != DateOf(last) {
          NewDay(front, last, s);
        }
      }
    }
  }

  lemma StrictDatesIn(r: seq<DaySnap>, s: DaySnap)
    requires StrictDays(r) && r != [] && s in r[..|r| - 1]
    ensures DateOf(s) != DateOf(r[|r| - 1])
  {
    hide InHours, Ymd, StrictDays;
    var i :| 0 <= i < |r| - 1 && r[..|r| - 1][i] == s;
    StrictDates(r, i);
  }

  lemma FrontDays(p: seq<DaySnap>)
    requires DaysInOrder(p) && p != []
    ensures DaysInOrder(p[..|p| - 1])
    ensures forall t :: t in p[..|p| - 1] ==> t.ts < p[|p| - 1].ts && Ymd(DateOf(t)) <= Ymd(DateOf(p[|p| - 1]))
  {
    hide InHours, Ymd;
  }

  /** Once the date has moved on, nothing before it has the new date. */
  lemma NewDay(front: seq<DaySnap>, last: DaySnap, s: DaySnap)
    requires DaysInOrder(front + [last]) && front != [] && s in front
    requires DateOf(front[|front| - 1]) != DateOf(last)
    ensures DateOf(s) != DateOf(last)
  {
    hide InHours, Ymd;
    var p, n := front + [last], |front|;
    var i :| 0 <= i < n && front[i] == s;
    assert p[i] == s && p[n] == last && p[n - 1] == front[n - 1];
    assert Ymd(DateOf(p[n - 1])) <= Ymd(DateOf(p[n]));
    assert i < n - 1 ==> Ymd(DateOf(p[i])) <= Ymd(DateOf(p[n - 1]));
    YmdKeepsOrder(DateOf(p[n - 1]), DateOf(last));
  }

  lemma PrefixInOrder(inbox: seq<Snap>, n: nat)
    requires InOrder(inbox) && n <= |inbox|
    ensures InOrder(inbox[..n])
  {
    hide Ymd;
  }

  /** A visit copies snapshots that were there to see and are newer than the watermark, in time order. */
  lemma VisitCopies(inbox: seq<Snap>, w: nat, v: Visit)
    requires InOrder(inbox)
    ensures Rising(VisitDays(inbox, w, v))
    ensures forall s :: s in VisitDays(inbox, w, v) ==> s in inbox && s.ts > w
  {
    hide InHours, InOrder, Pending, LastOfDays;
    var seen := inbox[..Min(v.seen, |inbox|)];
    PrefixInOrder(inbox, |seen|);
    PendingInOrder(seen, w);
    LastOfDaysStrict(Pending(seen, w));
    var list, days := DayList(seen, w), VisitDays(inbox, w, v);
    forall i, j | 0 <= i < j < |days| ensures days[i].ts < days[j].ts {
      assert Before(list[i], list[j]);
    }
    forall s | s in days ensures s in inbox && s.ts > w {
      var i :| 0 <= i < |days| && days[i] == s;
      ListedIsPending(seen, w, i);
    }
  }

  lemma RisingAppend(a: seq<DaySnap>, b: seq<DaySnap>, w: nat)
    requires Rising(a) && Rising(b) && forall s :: s in b ==> s.ts > Watermark(w, a)
    ensures Rising(a + b)
  {
    hide InHours;
    var days := a + b;
    forall i, j | 0 <= i < j < |days| ensures days[i].ts < days[j].ts {
      assert i < |a| ==> days[i] == a[i] && (i < |a| - 1 ==> a[i].ts < a[|a| - 1].ts);
      assert j >= |a| ==> days[j] == b[j - |a|] && days[j] in b;
      assert i >= |a| ==> days[i] == b[i - |a|];
    }
  }

  lemma {:induction false} WrittenCopies(inbox: seq<Snap>, visits: seq<Visit>)
    requires InOrder(inbox)
    ensures Rising(Written(inbox, visits))
    ensures forall s :: s in Written(inbox, visits) ==> s in inbox
  {
    hide InHours, InOrder, VisitDays, Rising, Watermark;
    if visits == [] {
      NoneRise();
    } else {
      var before := Written(inbox, visits[..|visits| - 1]);
      WrittenCopies(inbox, visits[..|visits| - 1]);
      VisitCopies(inbox, Watermark(0, before), visits[|visits| - 1]);
      RisingAppend(before, VisitDays(inbox, Watermark(0, before), visits[|visits| - 1]), 0);
    }
  }

  lemma NoneRise()
    ensures Rising([])
  {
  }

  lemma InTime(inbox: seq<Snap>, s: Snap, t: Snap)
    requires InOrder(inbox) && s in inbox && t in inbox
    ensures s.ts == t.ts ==> s == t
  {
    hide Ymd;
    var i :| 0 <= i < |inbox| && inbox[i] == s;
    var j :| 0 <= j < |inbox| && inbox[j] == t;
    assert i < j ==> inbox[i].ts < inbox[j].ts;
    assert j < i ==> inbox[j].ts < inbox[i].ts;
  }

  /** What was recorded no later than something a visit saw, the visit saw too. */
  lemma SeenToo(inbox: seq<Snap>, n: nat, s: Snap, t: Snap)
    requires InOrder(inbox) && n <= |inbox| && s in inbox && t in inbox[..n] && s.ts <= t.ts
    ensures s in inbox[..n]
  {
    hide Ymd;
    var i :| 0 <= i < |inbox| && inbox[i] == s;
    var j :| 0 <= j < n && inbox[..n][j] == t;
    assert i <= j;
    assert inbox[..n][i] == s;
  }

  /** A visit lists every final snapshot it can see and has not passed. */
  lemma FinalIsListed(inbox: seq<Snap>, n: nat, w: nat, s: DaySnap)
    requires InOrder(inbox) && n <= |inbox| && Final(inbox, s) && s in inbox[..n] && s.ts > w
    ensures s in DayList(inbox[..n], w)
  {
    hide InHours, InOrder, Pending, LastOfDays;
    var p := Pending(inbox[..n], w);
    PrefixInOrder(inbox, n);
    PendingIn(inbox[..n], w);
    PendingInOrder(inbox[..n], w);
    forall t | t in p && DateOf(t) == DateOf(s) ensures t.ts <= s.ts {
      assert t in inbox[..n];
      assert t in inbox;
    }
    LastOfDaysExact(p, s);
  }

  lemma UpTo(list: seq<DaySnap>, n: nat, s: DaySnap)
    requires n <= |list| && Rising(list) && s in list && n > 0 && s.ts <= list[n - 1].ts
    ensures s in list[..n]
  {
    hide InHours;
    var i :| 0 <= i < |list| && list[i] == s;
    assert i <= n - 1;
    assert list[..n][i] == s;
  }

  lemma ListRises(inbox: seq<Snap>, w: nat)
    requires InOrder(inbox)
    ensures Rising(DayList(inbox, w))
  {
    hide InHours, InOrder, Pending, LastOfDays;
    PendingInOrder(inbox, w);
    LastOfDaysStrict(Pending(inbox, w));
    var list := DayList(inbox, w);
    forall i, j | 0 <= i < j < |list| ensures list[i].ts < list[j].ts {
      assert Before(list[i], list[j]);
    }
  }

  /** No visit ever steps over the final snapshot of a day. */
  lemma {:induction false} NoFinalSkipped(inbox: seq<Snap>, visits: seq<Visit>, s: DaySnap)
    requires InOrder(inbox) && Final(inbox, s) && s.ts <= Watermark(0, Written(inbox, visits))
    requires 0 < s.ts
    ensures s in Written(inbox, visits)
  {
    hide InHours, InOrder, Rising, DayList, Final;
    if visits != [] {
      var before, v := Written(inbox, visits[..|visits| - 1]), visits[|visits| - 1];
      var w := Watermark(0, before);
      var days := VisitDays(inbox, w, v);
      if s.ts <= w {
        NoFinalSkipped(inbox, visits[..|visits| - 1], s);
      } else {
        var n := Min(v.seen, |inbox|);
        var list := DayList(inbox[..n], w);
        var last := days[|days| - 1];
        assert last == list[|days| - 1];
        ListedIsPending(inbox[..n], w, |days| - 1);
        FinalWasSeen(inbox, n, s, last);
        FinalIsListed(inbox, n, w, s);
        PrefixInOrder(inbox, n);
        ListRises(inbox[..n], w);
        UpTo(list, |days|, s);
      }
    }
  }

  lemma FinalWasSeen(inbox: seq<Snap>, n: nat, s: DaySnap, t: Snap)
    requires InOrder(inbox) && n <= |inbox| && Final(inbox, s) && t in inbox[..n] && s.ts <= t.ts
    ensures s in inbox[..n]
  {
    SeenToo(inbox, n, s, t);
  }

  // ------------------------------------------------------------ what the table holds in the end
  /** The last written snapshot that listed a contract. */
  function Lister(days: seq<DaySnap>, k: OptKey, sid: nat): Option<DaySnap> {
    if days == [] then None
    else if k in Content(days[|days| - 1], sid) then Some(days[|days| - 1])
    else Lister(days[..|days| - 1], k, sid)
  }

  lemma {:induction false} HeldFromLister(days: seq<DaySnap>, k: OptKey, sid: nat)
    ensures var o, l := WriteDays(map[], days, sid), Lister(days, k, sid);
            && (k in o <==> l.Some?)
            && (k in o ==> k in Content(l.value, sid) && o[k] == Content(l.value, sid)[k])
  {
    hide RowsOf, InHours, Upsert;
    if days != [] {
      var s := days[|days| - 1];
      HeldFromLister(days[..|days| - 1], k, sid);
      UpsertIsOverride(WriteDays(map[], days[..|days| - 1], sid), RowsOf(s, s.quotes, sid));
    }
  }

  /** `s` listed the contract and nothing written later did. */
  ghost predicate ListsLast(days: seq<DaySnap>, s: DaySnap, k: OptKey, sid: nat) {
    && s in days && k in Content(s, sid)
    && forall t :: t in days && t.ts > s.ts ==> k !in Content(t, sid)
  }

  lemma {:induction false} ListerListsLast(days: seq<DaySnap>, k: OptKey, sid: nat)
    requires Rising(days)
    ensures var l := Lister(days, k, sid);
            && (l.Some? ==> ListsLast(days, l.value, k, sid))
            && (l.None? ==> forall t :: t in days ==> k !in Content(t, sid))
  {
    hide Content, InHours;
    if days != [] {
      var front, last := days[..|days| - 1], days[|days| - 1];
      assert days == front + [last];
      ListerListsLast(front, k, sid);
      forall t | t in days ensures t.ts <= last.ts {
        var i :| 0 <= i < |days| && days[i] == t;
        assert i < |days| - 1 ==> days[i].ts < last.ts;
      }
    }
  }

  lemma {:induction false} UpsertKeys(rows: seq<Entry>, k: OptKey)
    requires k in Upsert(map[], rows)
    ensures exists i :: 0 <= i < |rows| && rows[i].key == k
  {
    var front, last := rows[..|rows| - 1], rows[|rows| - 1];
    if k == last.key {
      assert rows[|rows| - 1].key == k;
    } else {
      UpsertKeys(front, k);
      var i :| 0 <= i < |front| && front[i].key == k;
      assert rows[i].key == k;
    }
  }

  lemma ContentDay(s: DaySnap, sid: nat, k: OptKey)
    requires k in Content(s, sid)
    ensures k.d == Ymd(DateOf(s))
  {
    hide RowsOf, InHours, Ymd, Upsert;
    RowsOfDay(s, s.quotes, sid);
    UpsertKeys(RowsOf(s, s.quotes, sid), k);
  }

  /** One sync of everything writes exactly the final snapshots. */
  lemma OneShotIsFinals(inbox: seq<Snap>, s: DaySnap)
    requires InOrder(inbox)
    ensures s in DayList(inbox, 0) <==> Final(inbox, s)
  {
    hide InHours, Pending, LastOfDays, Ymd;
    var p := Pending(inbox, 0);
    PendingIn(inbox, 0);
    PendingInOrder(inbox, 0);
    LastOfDaysExact(p, s);
  }

  /** Once a history of visits has caught up, every final snapshot has been written. */
  lemma CaughtUp(inbox: seq<Snap>, visits: seq<Visit>, s: DaySnap)
    requires InOrder(inbox) && Final(inbox, s)
    requires DayList(inbox, Watermark(0, Written(inbox, visits))) == []
    ensures s in Written(inbox, visits)
  {
    hide InHours, LastOfDays, Ymd, Written, Watermark, DayList;
    var w := Watermark(0, Written(inbox, visits));
    assert inbox[..|inbox|] == inbox;
    if s.ts > w {
      FinalIsListed(inbox, |inbox|, w, s);
      assert false;
    } else {
      NoFinalSkipped(inbox, visits, s);
    }
  }

  /** Where an entry of the incremental table came from. */
  ghost predicate CameFrom(inbox: seq<Snap>, days: seq<DaySnap>, s: DaySnap, k: OptKey, row: OptRow, sid: nat) {
    s in inbox && k.d == Ymd(DateOf(s)) && ListsLast(days, s, k, sid) && row == Content(s, sid)[k]
  }

  lemma FinalListerWins(inbox: seq<Snap>, days: seq<DaySnap>, s: DaySnap, k: OptKey, sid: nat)
    requires InOrder(inbox) && Rising(days) && forall t :: t in days ==> t in inbox
    requires Final(inbox, s) && s in days && k in Content(s, sid)
    ensures Lister(days, k, sid) == Some(s)
  {
    hide InHours, InOrder, Ymd, Content, Lister, Rising;
    ListerListsLast(days, k, sid);
    var u := Lister(days, k, sid).value;
    ContentDay(s, sid, k);
    ContentDay(u, sid, k);
    YmdKeepsOrder(DateOf(s), DateOf(u));
    assert u.ts <= s.ts by { assert u in inbox && InHours(u); }
    InTime(inbox, s, u);
  }

  /**
   * Syncing at any points while snapshots arrive, dying between days or not, and catching up in the end:
   * the table agrees with one sync of everything on each of that sync's contracts, and each further contract
   * comes from the last snapshot of its own day that was written and listed it, a snapshot later superseded.
   */
  lemma IncrementalRefinesOneShot(inbox: seq<Snap>, visits: seq<Visit>, sid: nat, k: OptKey)
    requires InOrder(inbox) && DayList(inbox, Watermark(0, Written(inbox, visits))) == []
    ensures var days := Written(inbox, visits);
            var incremental, once := WriteDays(map[], days, sid), WriteDays(map[], DayList(inbox, 0), sid);
            && (k in once ==> k in incremental && incremental[k] == once[k])
            && (k in incremental ==> exists s :: CameFrom(inbox, days, s, k, incremental[k], sid)
                                                 && (Final(inbox, s) <==> k in once))
  {
    hide InHours, InOrder, Ymd, Content, Rising, Written, Watermark, DayList, WriteDays, Lister, Final;
    var days, all := Written(inbox, visits), DayList(inbox, 0);
    var once := WriteDays(map[], all, sid);
    WrittenCopies(inbox, visits);
    HeldFromLister(days, k, sid);
    HeldFromLister(all, k, sid);
    ListerListsLast(days, k, sid);
    ListRises(inbox, 0);
    ListerListsLast(all, k, sid);
    if k in once {
      var s := Lister(all, k, sid).value;
      OneShotIsFinals(inbox, s);
      CaughtUp(inbox, visits, s);
      FinalListerWins(inbox, days, s, k, sid);
    }
    if k in WriteDays(map[], days, sid) {
      var s := Lister(days, k, sid).value;
      ContentDay(s, sid, k);
      OneShotIsFinals(inbox, s);
      assert CameFrom(inbox, days, s, k, WriteDays(map[], days, sid)[k], sid);
    }
  }

  /** Any history of visits, run on the store itself. */
  method RunVisits(inbox: seq<Snap>, visits: seq<Visit>) returns (store: Store)
    requires InOrder(inbox)
    ensures fresh(store) && store.Valid()
    ensures store.lastTs == Watermark(0, Written(inbox, visits))
    ensures visits != [] ==>
      RECORDED in store.sources && store.opt == WriteDays(map[], Written(inbox, visits), store.sources[RECORDED])
  {
    hide InHours, InOrder, DayList, OnlySessions, Content;
    store := new Store();
    for i := 0 to |visits|
      invariant fresh(store) && store.Valid()
      invariant store.lastTs == Watermark(0, Written(inbox, visits[..i]))
      invariant i == 0 ==> store.opt == map[] && store.sources == map[]
      invariant i > 0 ==>
        RECORDED in store.sources && store.opt == WriteDays(map[], Written(inbox, visits[..i]), store.sources[RECORDED])
    {
      assert visits[..i + 1][..i] == visits[..i];
      var n := Min(visits[i].seen, |inbox|);
      PrefixInOrder(inbox, n);
      ghost var before := Written(inbox, visits[..i]);
      var days, contracts := store.Sync(inbox[..n], visits[i].budget);
      WriteMore(map[], before, VisitDays(inbox, Watermark(0, before), visits[i]), store.sources[RECORDED]);
    }
    assert visits[..|visits|] == visits;
  }

  // ------------------------------------------------------------ the other writer
  /** Importing a file again changes nothing, also when the first import died after some of its days. */
  lemma ImportTwice(o: Opt, rows: seq<ChainRow>, days: set<nat>, sid: nat)
    ensures var whole := Upsert(o, Entries(rows, sid));
            && Upsert(whole, Entries(rows, sid)) == whole
            && Upsert(o + Restrict(FileMap(rows, sid), days), Entries(rows, sid)) == whole
  {
    hide Upsert, Entries;
    UpsertIsOverride(o, Entries(rows, sid));
    UpsertIsOverride(o + FileMap(rows, sid), Entries(rows, sid));
    UpsertIsOverride(o + Restrict(FileMap(rows, sid), days), Entries(rows, sid));
  }

  /** The two writers store one quote alike, and a mark lies inside its quote or is a real trade. */
  lemma WritersAgree(s: DaySnap, q: Quote, r: ChainRow, sid: nat)
    requires q.expiration == Some(r.expiration) && r.date == DateOf(s) && r.strike == q.strike && r.right == q.right
    requires r.bid == q.bid && r.ask == q.ask && r.last == q.last && r.volume == q.volume
    requires r.openInterest == q.openInterest && r.iv == q.iv && r.delta == q.delta && r.mark == None
    ensures RowsOf(s, [q], sid) == [RowEntry(r, sid)]
    ensures var m := RowEntry(r, sid).row.mark;
            m.Some? ==>
              m.value > 0.0 && (m == q.last || (q.bid.Some? && q.ask.Some? && q.bid.value <= m.value <= q.ask.value))
  {
    hide InHours, Ymd, StrikeKey;
    assert [q][..|[q]| - 1] == [];
  }

  // ------------------------------------------------------------ what the rows say
  /** Market hours on the clock: weekdays from 9:30 to 16:15, both included. */
  lemma MarketHours(s: Snap)
    requires s.et.Some? && s.et.value.minute < 60
    ensures var et := s.et.value;
            InHours(s) <==>
              && WeekdayOf(et.date) < 5
              && (et.hour > 9 || (et.hour == 9 && et.minute >= 30))
              && (et.hour < 16 || (et.hour == 16 && et.minute <= 15))
  {
    hide WeekdayOf;
  }

  /** A mark for a quote: its exact middle, else the last trade, else nothing. */
  predicate MarkOf(mark: Option<real>, bid: Option<real>, ask: Option<real>, last: Option<real>) {
    if bid.Some? && ask.Some? && bid.value > 0.0 && ask.value >= bid.value then
      mark.Some? && 2.0 * mark.value == bid.value + ask.value
    else if last.Some? && last.value > 0.0 then mark == last
    else mark == None
  }

  /** The key of a contract, on the numbers that are stored. */
  predicate KeySays(k: OptKey, day: RealDate, expiration: RealDate, right: Right, strike: real) {
    && FromYmd(k.d) == day && FromYmd(k.exp) == expiration && (k.cp == 0 <==> right == Call) && k.cp <= 1
    && -0.5 <= 1000.0 * strike - k.strike as real <= 0.5
  }

  predicate QuoteSays(e: Entry, s: DaySnap, q: Quote, sid: nat) {
    && q.expiration.Some? && KeySays(e.key, DateOf(s), q.expiration.value, q.right, q.strike)
    && e.row.bid == q.bid && e.row.ask == q.ask && MarkOf(e.row.mark, q.bid, q.ask, q.last)
    && e.row.volume == q.volume && e.row.openInterest == q.openInterest && e.row.delta == q.delta && e.row.iv == q.iv
    && e.row.src == sid
  }

  predicate FileRowSays(e: Entry, r: ChainRow, sid: nat) {
    && KeySays(e.key, r.date, r.expiration, r.right, r.strike)
    && e.row.bid == r.bid && e.row.ask == r.ask
    && (if r.mark.Some? then e.row.mark == r.mark else MarkOf(e.row.mark, r.bid, r.ask, r.last))
    && e.row.volume == r.volume && e.row.openInterest == r.openInterest && e.row.delta == r.delta && e.row.iv == r.iv
    && e.row.src == sid
  }

  lemma MarkIsOf(bid: Option<real>, ask: Option<real>, last: Option<real>)
    ensures MarkOf(MarkFrom(bid, ask, last), bid, ask, last)
  {
  }

  lemma KeyOfSays(day: RealDate, expiration: RealDate, right: Right, strike: real)
    ensures KeySays(KeyOf(day, expiration, right, strike), day, expiration, right, strike)
  {
    hide Ymd, FromYmd, Round;
    YmdNamesOneDate(day);
    YmdNamesOneDate(expiration);
  }

  /** The quotes of a snapshot that name an expiration. */
  function Dated(quotes: seq<Quote>): (r: seq<Quote>)
    ensures forall q :: q in r <==> q in quotes && q.expiration.Some?
  {
    if quotes == [] then []
    else
      var front, last := quotes[..|quotes| - 1], quotes[|quotes| - 1];
      assert quotes == front + [last];
      if last.expiration.None? then Dated(front) else Dated(front) + [last]
  }

  /** A synced snapshot gives one entry for each quote that names an expiration, in order, and says what it says. */
  lemma {:induction false} SnapshotRows(s: DaySnap, quotes: seq<Quote>, sid: nat)
    ensures var es, qs := RowsOf(s, quotes, sid), Dated(quotes);
            |es| == |qs| && forall i :: 0 <= i < |es| ==> QuoteSays(es[i], s, qs[i], sid)
  {
    hide InHours, KeySays, KeyOf, MarkOf, MarkFrom;
    if quotes != [] {
      var q := quotes[|quotes| - 1];
      SnapshotRows(s, quotes[..|quotes| - 1], sid);
      MarkIsOf(q.bid, q.ask, q.last);
      if q.expiration.Some? {
        KeyOfSays(DateOf(s), q.expiration.value, q.right, q.strike);
      }
    }
  }

  /** An imported file gives one entry for each row, in order, and a mark of its own is kept as given. */
  lemma FileRows(rows: seq<ChainRow>, sid: nat)
    ensures |Entries(rows, sid)| == |rows|
    ensures forall i :: 0 <= i < |rows| ==> FileRowSays(Entries(rows, sid)[i], rows[i], sid)
  {
    hide KeySays, KeyOf, MarkOf, MarkFrom;
    forall i | 0 <= i < |rows| ensures FileRowSays(Entries(rows, sid)[i], rows[i], sid) {
      var r := rows[i];
      MarkIsOf(r.bid, r.ask, r.last);
      KeyOfSays(r.date, r.expiration, r.right, r.strike);
    }
  }

  /** Of entries under one key the last is stored. */
  lemma {:induction false} StoredIsLast(es: seq<Entry>, i: int, k: OptKey)
    requires LastEntry(es, i, k)
    ensures k in Upsert(map[], es) && Upsert(map[], es)[k] == es[i].row
    decreases |es|
  {
    var front := es[..|es| - 1];
    if i < |front| {
      assert forall j :: i <= j < |front| ==> front[j] == es[j];
      StoredIsLast(front, i, k);
    }
  }

  lemma {:induction false} UpsertMore(o: Opt, a: seq<Entry>, b: seq<Entry>)
    ensures Upsert(o, a + b) == Upsert(Upsert(o, a), b)
    decreases |b|
  {
    if b == [] {
      assert a + b == a;
    } else {
      UpsertMore(o, a, b[..|b| - 1]);
      assert (a + b)[..|a + b| - 1] == a + b[..|b| - 1];
    }
  }

  /** The days of a sync write their rows one after another, so the rows it counts are the rows it writes. */
  lemma {:induction false} CountedIsWritten(o: Opt, days: seq<DaySnap>, sid: nat)
    ensures WriteDays(o, days, sid) == Upsert(o, AllRows(days, sid))
  {
    hide RowsOf, InHours;
    if days != [] {
      var s := days[|days| - 1];
      CountedIsWritten(o, days[..|days| - 1], sid);
      UpsertMore(o, AllRows(days[..|days| - 1], sid), RowsOf(s, s.quotes, sid));
    }
  }

  /** ... and they are one for each quote that names an expiration. */
  lemma CountedIsDated(days: seq<DaySnap>, s: DaySnap, sid: nat)
    ensures |AllRows(days + [s], sid)| == |AllRows(days, sid)| + |Dated(s.quotes)| && AllRows([], sid) == []
  {
    hide InHours;
    SnapshotRows(s, s.quotes, sid);
    assert (days + [s])[..|days + [s]| - 1] == days;
  }

  ghost predicate LastEntry(es: seq<Entry>, i: int, k: OptKey) {
    0 <= i < |es| && es[i].key == k && forall j :: i < j < |es| ==> es[j].key != k
  }
}
