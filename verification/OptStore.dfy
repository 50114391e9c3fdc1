/** The backtest store: the incremental sync and the chain import that fill one table. */
module OptStore {
  import opened Common
  import opened Civil

  datatype Right = Call | Put

  datatype OptKey = OptKey(d: nat, exp: nat, cp: nat, strike: int)

  datatype OptRow = OptRow(bid: Option<real>, ask: Option<real>, mark: Option<real>, volume: Option<real>,
                           openInterest: Option<real>, delta: Option<real>, iv: Option<real>, src: nat)

  type Opt = map<OptKey, OptRow>

  /** The source name under which recorded snapshots are filed. */
  const RECORDED := "recorded"

  datatype Entry = Entry(key: OptKey, row: OptRow)

  // ------------------------------------------------------------ what both writers share
  /** Python's `round`: to the nearest, halves to the even neighbour. */
  function Round(x: real): (r: int)
    ensures -0.5 <= x - r as real <= 0.5
    ensures x - x.Floor as real == 0.5 ==> r % 2 == 0
  {
    var f := x.Floor;
    var rest := x - f as real;
    if rest < 0.5 || (rest == 0.5 && f % 2 == 0) then f else f + 1
  }

  function StrikeKey(strike: real): int { Round(strike * 1000.0) }

  function KeyOf(day: Date, expiration: Date, right: Right, strike: real): OptKey {
    OptKey(Ymd(day), Ymd(expiration), if right == Call then 0 else 1, StrikeKey(strike))
  }

  /** A mark from the quote, else from the last trade, else nothing. */
  function MarkFrom(bid: Option<real>, ask: Option<real>, last: Option<real>): Option<real> {
    var b := if bid.Some? then bid.value else 0.0;
    var a := if ask.Some? then ask.value else 0.0;
    if b > 0.0 && a >= b then Some(0.5 * (b + a))
    else if last.Some? && last.value > 0.0 then last
    else None
  }

  /** `INSERT OR REPLACE`, row after row. */
  function Upsert(o: Opt, rows: seq<Entry>): Opt {
    if rows == [] then o else Upsert(o, rows[..|rows| - 1])[rows[|rows| - 1].key := rows[|rows| - 1].row]
  }

  lemma {:induction false} UpsertIsOverride(o: Opt, rows: seq<Entry>)
    ensures Upsert(o, rows) == o + Upsert(map[], rows)
  {
    if rows != [] {
      UpsertIsOverride(o, rows[..|rows| - 1]);
    }
  }

  // ------------------------------------------------------------ recorded snapshots
  datatype Quote = Quote(expiration: Option<RealDate>, strike: real, right: Right, bid: Option<real>,
                         ask: Option<real>, last: Option<real>, iv: Option<real>, delta: Option<real>,
                         volume: Option<real>, openInterest: Option<real>)

  /** A snapshot time in New York. */
  datatype Et = Et(date: RealDate, hour: nat, minute: nat)

  /** All rows recorded under one timestamp; `et` is `None` when the text does not parse. */
  datatype Snap = Snap(ts: nat, et: Option<Et>, quotes: seq<Quote>)

  predicate InHours(s: Snap) {
    && s.et.Some? && WeekdayOf(s.et.value.date) < 5
    && var minutes := s.et.value.hour * 60 + s.et.value.minute; 9 * 60 + 30 <= minutes <= 16 * 60 + 15
  }

  type DaySnap = s: Snap | InHours(s) witness Snap(0, Some(Et(Date(1, 1, 1), 10, 0)), [])

  function DateOf(s: DaySnap): RealDate { s.et.value.date }

  function RowsOf(s: DaySnap, quotes: seq<Quote>, sid: nat): seq<Entry> {
    if quotes == [] then []
    else
      var q := quotes[|quotes| - 1];
      var before := RowsOf(s, quotes[..|quotes| - 1], sid);
      if q.expiration.None? then before
      else before + [Entry(KeyOf(DateOf(s), q.expiration.value, q.right, q.strike),
                           OptRow(q.bid, q.ask, MarkFrom(q.bid, q.ask, q.last), q.volume, q.openInterest,
                                  q.delta, q.iv, sid))]
  }

  /** What writing one snapshot puts into the table. */
  function Content(s: DaySnap, sid: nat): Opt { Upsert(map[], RowsOf(s, s.quotes, sid)) }

  /** In-hours snapshots newer than the watermark, in time order. */
  function Pending(inbox: seq<Snap>, watermark: nat): seq<DaySnap> {
    if inbox == [] then []
    else
      var s, before := inbox[|inbox| - 1], Pending(inbox[..|inbox| - 1], watermark);
      if s.ts > watermark && InHours(s) then before + [s] else before
  }

  /** The last snapshot of each day of a list in time order. */
  function LastOfDays(p: seq<DaySnap>): seq<DaySnap> {
    if p == [] then []
    else
      var r, s := LastOfDays(p[..|p| - 1]), p[|p| - 1];
      if r != [] && DateOf(r[|r| - 1]) == DateOf(s) then r[..|r| - 1] + [s] else r + [s]
  }

  /** The day transactions a sync makes, in order. */
  function DayList(inbox: seq<Snap>, watermark: nat): seq<DaySnap> { LastOfDays(Pending(inbox, watermark)) }

  function WriteDays(o: Opt, days: seq<DaySnap>, sid: nat): Opt {
    if days == [] then o
    else
      var s := days[|days| - 1];
      Upsert(WriteDays(o, days[..|days| - 1], sid), RowsOf(s, s.quotes, sid))
  }

  /** All rows that the days of a sync write, in order. */
  function AllRows(days: seq<DaySnap>, sid: nat): seq<Entry> {
    if days == [] then []
    else
      var s := days[|days| - 1];
      AllRows(days[..|days| - 1], sid) + RowsOf(s, s.quotes, sid)
  }

  function Watermark(w: nat, days: seq<DaySnap>): nat { if days == [] then w else days[|days| - 1].ts }

  /** Snapshots arrive in time, and the New York date never runs backwards. */
  ghost predicate InOrder(inbox: seq<Snap>) {
    && (forall i :: 0 <= i < |inbox| ==> 0 < inbox[i].ts)
    && (forall i, j :: 0 <= i < j < |inbox| ==> inbox[i].ts < inbox[j].ts)
    && (forall i, j :: 0 <= i < j < |inbox| && inbox[i].et.Some? && inbox[j].et.Some? ==>
          Ymd(inbox[i].et.value.date) <= Ymd(inbox[j].et.value.date))
  }

  ghost predicate DaysInOrder(p: seq<DaySnap>) {
    && (forall i, j :: 0 <= i < j < |p| ==> p[i].ts < p[j].ts)
    && (forall i, j :: 0 <= i < j < |p| ==> Ymd(DateOf(p[i])) <= Ymd(DateOf(p[j])))
  }

  lemma {:induction false} PendingIn(inbox: seq<Snap>, w: nat)
    ensures forall s :: s in Pending(inbox, w) <==> s in inbox && InHours(s) && s.ts > w
  {
    if inbox != [] {
      var front, last := inbox[..|inbox| - 1], inbox[|inbox| - 1];
      assert inbox == front + [last];
      PendingIn(front, w);
    }
  }

  /** Everything pending before the newest snapshot is older than it, and not of a later day. */
  lemma NewestIsLast(inbox: seq<Snap>, w: nat, s: DaySnap)
    requires InOrder(inbox) && inbox != [] && s in Pending(inbox[..|inbox| - 1], w)
    ensures s.ts < inbox[|inbox| - 1].ts
    ensures InHours(inbox[|inbox| - 1]) ==> Ymd(DateOf(s)) <= Ymd(DateOf(inbox[|inbox| - 1]))
  {
    hide Ymd, WeekdayOf, Pending;
    PendingIn(inbox[..|inbox| - 1], w);
    var j :| 0 <= j < |inbox| - 1 && inbox[..|inbox| - 1][j] == s;
    assert inbox[j] == s;
  }

  lemma {:induction false} PendingInOrder(inbox: seq<Snap>, w: nat)
    requires InOrder(inbox)
    ensures DaysInOrder(Pending(inbox, w))
  {
    hide Ymd, WeekdayOf, InHours;
    if inbox != [] {
      var front := inbox[..|inbox| - 1];
      PendingInOrder(front, w);
      var p := Pending(front, w);
      forall i | 0 <= i < |p|
        ensures p[i].ts < inbox[|front|].ts
        ensures InHours(inbox[|front|]) ==> Ymd(DateOf(p[i])) <= Ymd(DateOf(inbox[|front|]))
      {
        NewestIsLast(inbox, w, p[i]);
      }
    }
  }

  lemma LastStays(p: seq<DaySnap>)
    requires p != []
    ensures var a := LastOfDays(p); a != [] && a[|a| - 1] == p[|p| - 1]
  {
  }

  lemma {:induction false} LastOfDaysIn(p: seq<DaySnap>, s: DaySnap)
    requires s in LastOfDays(p)
    ensures s in p
  {
    hide InHours, Ymd;
    var front, last := p[..|p| - 1], p[|p| - 1];
    assert p == front + [last];
    if s != last {
      var r := LastOfDays(front);
      assert s in r;
      LastOfDaysIn(front, s);
    }
  }

  predicate Before(a: DaySnap, b: DaySnap) { a.ts < b.ts && Ymd(DateOf(a)) < Ymd(DateOf(b)) }

  ghost predicate StrictDays(a: seq<DaySnap>) {
    forall i, j :: 0 <= i < j < |a| ==> Before(a[i], a[j])
  }

  lemma StrictSnoc(r: seq<DaySnap>, s: DaySnap)
    requires StrictDays(r) && (r != [] ==> Before(r[|r| - 1], s))
    ensures StrictDays(r + [s])
  {
    hide InHours, Ymd;
    forall i | 0 <= i < |r| ensures Before(r[i], s) {
      assert i < |r| - 1 ==> Before(r[i], r[|r| - 1]);
    }
  }

  /** One snapshot a day, in date order. */
  lemma {:induction false} LastOfDaysStrict(p: seq<DaySnap>)
    requires DaysInOrder(p)
    ensures StrictDays(LastOfDays(p))
  {
    hide InHours, Ymd, StrictDays;
    if |p| <= 1 {
      assert |p| == 1 ==> p[..0] == [] && LastOfDays(p[..0]) == [];
      StrictShort(LastOfDays(p));
    } else {
      var front, last := p[..|p| - 1], p[|p| - 1];
      LastOfDaysStrict(front);
      LastStays(front);
      var r := LastOfDays(front);
      var n := |r| - 1;
      assert r[n] == p[|p| - 2];
      if DateOf(r[n]) == DateOf(last) {
        StrictFront(r);
        assert n > 0 ==> r[..n][n - 1] == r[n - 1] && Before(r[n - 1], last);
        StrictSnoc(r[..n], last);
      } else {
        YmdKeepsOrder(DateOf(r[n]), DateOf(last));
        StrictSnoc(r, last);
      }
    }
  }

  lemma StrictShort(r: seq<DaySnap>)
    requires |r| <= 1
    ensures StrictDays(r)
  {
  }

  lemma StrictFront(r: seq<DaySnap>)
    requires StrictDays(r) && r != []
    ensures StrictDays(r[..|r| - 1])
    ensures |r| > 1 ==> Before(r[|r| - 2], r[|r| - 1])
  {
  }

  lemma StrictDates(a: seq<DaySnap>, i: nat)
    requires StrictDays(a) && i < |a| - 1
    ensures DateOf(a[i]) != DateOf(a[|a| - 1])
  {
    hide InHours, Ymd;
    assert Before(a[i], a[|a| - 1]);
  }

  /** The dictionary `by_day`: a later snapshot replaces an earlier one of the same day. */
  function ByDay(p: seq<DaySnap>): map<RealDate, DaySnap> {
    if p == [] then map[] else ByDay(p[..|p| - 1])[DateOf(p[|p| - 1]) := p[|p| - 1]]
  }

  /** The dictionary holds each day under its own date: the same snapshots, without the order. */
  lemma {:induction false} ByDayIsLastOfDays(p: seq<DaySnap>)
    requires DaysInOrder(p)
    ensures var a := LastOfDays(p);
            && (forall i :: 0 <= i < |a| ==> DateOf(a[i]) in ByDay(p) && ByDay(p)[DateOf(a[i])] == a[i])
            && (forall d :: d in ByDay(p) ==> ByDay(p)[d] in a && DateOf(ByDay(p)[d]) == d)
  {
    hide InHours, Ymd, StrictDays, Before;
    if |p| > 0 {
      var front, last := p[..|p| - 1], p[|p| - 1];
      ByDayIsLastOfDays(front);
      LastOfDaysStrict(p);
      LastStays(p);
      var r, a := LastOfDays(front), LastOfDays(p);
      var n := |a| - 1;
      forall i | 0 <= i < |a| ensures DateOf(a[i]) in ByDay(p) && ByDay(p)[DateOf(a[i])] == a[i] {
        if i < n {
          StrictDates(a, i);
          assert a[i] == r[i];
        }
      }
      forall d | d in ByDay(p) ensures ByDay(p)[d] in a && DateOf(ByDay(p)[d]) == d {
        if d != DateOf(last) {
          var i :| 0 <= i < |r| && r[i] == ByDay(front)[d];
          assert i < |a| && a[i] == r[i];
        } else {
          assert a[n] == last;
        }
      }
    }
  }

  /** `sorted(by_day)`. */
  method SortDates(dates: set<RealDate>) returns (r: seq<RealDate>)
    ensures forall i, j :: 0 <= i < j < |r| ==> Ymd(r[i]) < Ymd(r[j])
    ensures forall d :: d in r <==> d in dates
    ensures |r| == |dates|
  {
    r := [];
    var left := dates;
    while left != {}
      invariant left <= dates && |r| + |left| == |dates|
      invariant forall i, j :: 0 <= i < j < |r| ==> Ymd(r[i]) < Ymd(r[j])
      invariant forall d :: d in r <==> d in dates - left
      invariant forall d, e :: d in r && e in left ==> Ymd(d) < Ymd(e)
      decreases left
    {
      Earliest(left);
      var d :| d in left && forall e :: e in left ==> Ymd(d) <= Ymd(e);
      forall e | e in left && e != d ensures Ymd(d) < Ymd(e) { YmdKeepsOrder(d, e); }
      assert forall i :: 0 <= i < |r| ==> r[i] in r;
      r := r + [d];
      left := left - {d};
    }
  }

  lemma {:induction false} Earliest(s: set<RealDate>)
    requires s != {}
    ensures exists d :: d in s && forall e :: e in s ==> Ymd(d) <= Ymd(e)
    decreases |s|
  {
    hide Ymd;
    var x :| x in s;
    if s != {x} {
      var rest := s - {x};
      assert s == rest + {x};
      Earliest(rest);
      var d :| d in rest && forall e :: e in rest ==> Ymd(d) <= Ymd(e);
      var m := if Ymd(d) <= Ymd(x) then d else x;
      assert m in s && forall e :: e in s ==> Ymd(m) <= Ymd(e);
    }
  }

  lemma WithoutFirst(a: seq<RealDate>)
    requires a != [] && forall i, j :: 0 <= i < j < |a| ==> Ymd(a[i]) < Ymd(a[j])
    ensures forall d :: d in a[1..] <==> d in a && d != a[0]
  {
    hide Ymd;
    assert a == [a[0]] + a[1..];
  }

  /** Two increasing lists of the same dates are the same list. */
  lemma {:induction false} SameDates(a: seq<RealDate>, b: seq<RealDate>)
    requires forall i, j :: 0 <= i < j < |a| ==> Ymd(a[i]) < Ymd(a[j])
    requires forall i, j :: 0 <= i < j < |b| ==> Ymd(b[i]) < Ymd(b[j])
    requires forall d :: d in a <==> d in b
    ensures a == b
  {
    hide Ymd;
    assert a != [] ==> a[0] in a;
    assert b != [] ==> b[0] in b;
    if a != [] && b != [] {
      assert a[0] in b && b[0] in a;
      assert a[0] == b[0];
      WithoutFirst(a);
      WithoutFirst(b);
      SameDates(a[1..], b[1..]);
    }
  }

  // ------------------------------------------------------------ imported files
  datatype ChainRow = ChainRow(date: RealDate, symbol: string, expiration: RealDate, strike: real, right: Right,
                               bid: Option<real>, ask: Option<real>, last: Option<real>, mark: Option<real>,
                               volume: Option<real>, openInterest: Option<real>, iv: Option<real>, delta: Option<real>)

  datatype Outcome = Refused | Imported(days: nat, contracts: nat)

  function RowKey(r: ChainRow): OptKey { KeyOf(r.date, r.expiration, r.right, r.strike) }

  function RowEntry(r: ChainRow, sid: nat): Entry {
    Entry(RowKey(r), OptRow(r.bid, r.ask, if r.mark.Some? then r.mark else MarkFrom(r.bid, r.ask, r.last),
                            r.volume, r.openInterest, r.delta, r.iv, sid))
  }

  function Entries(rows: seq<ChainRow>, sid: nat): seq<Entry> {
    seq(|rows|, i requires 0 <= i < |rows| => RowEntry(rows[i], sid))
  }

  predicate Importable(rows: seq<ChainRow>, underlying: string) {
    forall i :: 0 <= i < |rows| ==> rows[i].symbol == underlying && WeekdayOf(rows[i].date) < 5
  }

  /** The rows of one day, in file order. */
  function OnDay(rows: seq<ChainRow>, d: RealDate): seq<ChainRow> {
    if rows == [] then []
    else
      var before := OnDay(rows[..|rows| - 1], d);
      if rows[|rows| - 1].date == d then before + [rows[|rows| - 1]] else before
  }

  /** Only real weekdays are sessions, whoever wrote the row. */
  predicate OnlySessions(o: Opt) { forall k :: k in o ==> Session(k.d) }

  function DatesOf(rows: seq<ChainRow>): set<RealDate> { set i | 0 <= i < |rows| :: rows[i].date }

  function DatesYmd(dates: seq<RealDate>): set<nat> { set i | 0 <= i < |dates| :: Ymd(dates[i]) }

  function Restrict(m: Opt, days: set<nat>): Opt { map k | k in m && k.d in days :: m[k] }

  /** After each day transaction the table holds the file's rows of exactly the days so far. */
  ghost predicate ImportStates(o: Opt, rows: seq<ChainRow>, order: seq<RealDate>, sid: nat, states: seq<Opt>) {
    && |states| == |order|
    && forall i :: 0 <= i < |order| ==> states[i] == o + Restrict(FileMap(rows, sid), DatesYmd(order[..i + 1]))
  }

  function FileMap(rows: seq<ChainRow>, sid: nat): Opt { Upsert(map[], Entries(rows, sid)) }

  lemma EntriesSnoc(rows: seq<ChainRow>, sid: nat)
    requires rows != []
    ensures var front, last := rows[..|rows| - 1], rows[|rows| - 1];
            && Entries(rows, sid) == Entries(front, sid) + [RowEntry(last, sid)]
            && FileMap(rows, sid) == FileMap(front, sid)[RowKey(last) := RowEntry(last, sid).row]
  {
    hide MarkFrom, KeyOf;
    var front, last := rows[..|rows| - 1], rows[|rows| - 1];
    assert Entries(rows, sid) == Entries(front, sid) + [RowEntry(last, sid)];
    assert Entries(rows, sid)[..|rows| - 1] == Entries(front, sid);
    assert RowEntry(last, sid).key == RowKey(last);
  }

  lemma EmptyFile(sid: nat)
    ensures FileMap([], sid) == map[]
  {
    assert Entries([], sid) == [];
  }

  /** The rows of one day write exactly the part of the file that belongs to it. */
  lemma {:induction false} OnDayIsAPart(rows: seq<ChainRow>, d: RealDate, sid: nat)
    ensures FileMap(OnDay(rows, d), sid) == Restrict(FileMap(rows, sid), {Ymd(d)})
  {
    hide FileMap, RowEntry, Ymd, StrikeKey;
    if rows == [] {
      EmptyFile(sid);
    } else {
      var front, last := rows[..|rows| - 1], rows[|rows| - 1];
      assert RowKey(last).d == Ymd(last.date);
      OnDayIsAPart(front, d, sid);
      EntriesSnoc(rows, sid);
      YmdKeepsOrder(last.date, d);
      if last.date == d {
        var day := OnDay(rows, d);
        assert day[..|day| - 1] == OnDay(front, d);
        EntriesSnoc(day, sid);
      }
    }
  }

  lemma {:induction false} FileMapDays(rows: seq<ChainRow>, sid: nat, k: OptKey)
    requires k in FileMap(rows, sid)
    ensures exists i :: 0 <= i < |rows| && Ymd(rows[i].date) == k.d
  {
    hide Ymd, RowEntry, StrikeKey;
    EntriesSnoc(rows, sid);
    var front, last := rows[..|rows| - 1], rows[|rows| - 1];
    if k == RowKey(last) {
      assert Ymd(rows[|rows| - 1].date) == k.d;
    } else {
      FileMapDays(front, sid, k);
      var i :| 0 <= i < |front| && Ymd(front[i].date) == k.d;
      assert Ymd(rows[i].date) == k.d;
    }
  }

  /** Rows whose date is one of `dates`. */
  function RowsIn(rows: seq<ChainRow>, dates: set<RealDate>): nat {
    if rows == [] then 0 else RowsIn(rows[..|rows| - 1], dates) + if rows[|rows| - 1].date in dates then 1 else 0
  }

  lemma {:induction false} NoDays(rows: seq<ChainRow>)
    ensures RowsIn(rows, {}) == 0
  {
    if rows != [] {
      NoDays(rows[..|rows| - 1]);
    }
  }

  lemma {:induction false} OneMoreDay(rows: seq<ChainRow>, dates: set<RealDate>, d: RealDate)
    requires d !in dates
    ensures RowsIn(rows, dates + {d}) == RowsIn(rows, dates) + |OnDay(rows, d)|
  {
    if rows != [] {
      OneMoreDay(rows[..|rows| - 1], dates, d);
    }
  }

  lemma {:induction false} AllDays(rows: seq<ChainRow>, dates: set<RealDate>)
    requires forall i :: 0 <= i < |rows| ==> rows[i].date in dates
    ensures RowsIn(rows, dates) == |rows|
  {
    if rows != [] {
      AllDays(rows[..|rows| - 1], dates);
    }
  }

  lemma {:induction false} UpsertSessions(o: Opt, rows: seq<Entry>)
    requires OnlySessions(o) && forall i :: 0 <= i < |rows| ==> Session(rows[i].key.d)
    ensures OnlySessions(Upsert(o, rows))
  {
    hide Session;
    if rows != [] {
      UpsertSessions(o, rows[..|rows| - 1]);
    }
  }

  lemma WeekdayIsSession(d: RealDate)
    requires WeekdayOf(d) < 5
    ensures Session(Ymd(d))
  {
    hide Ymd, WeekdayOf;
    YmdNamesOneDate(d);
  }

  lemma {:induction false} RowsOfDay(s: DaySnap, quotes: seq<Quote>, sid: nat)
    ensures forall i :: 0 <= i < |RowsOf(s, quotes, sid)| ==> RowsOf(s, quotes, sid)[i].key.d == Ymd(DateOf(s))
  {
    hide Ymd, StrikeKey, MarkFrom, InHours;
    if quotes != [] {
      RowsOfDay(s, quotes[..|quotes| - 1], sid);
    }
  }

  lemma {:induction false} SyncWritesSessions(o: Opt, days: seq<DaySnap>, sid: nat)
    requires OnlySessions(o)
    ensures OnlySessions(WriteDays(o, days, sid))
  {
    hide OnlySessions, Ymd, Session, RowsOf, Upsert;
    if days != [] {
      var s := days[|days| - 1];
      SyncWritesSessions(o, days[..|days| - 1], sid);
      RowsOfDay(s, s.quotes, sid);
      WeekdayIsSession(DateOf(s));
      UpsertSessions(WriteDays(o, days[..|days| - 1], sid), RowsOf(s, s.quotes, sid));
    }
  }

  /** Going through the dictionary in date order is going through the list of days. */
  lemma OrderIsDayList(inbox: seq<Snap>, w: nat, order: seq<RealDate>)
    requires InOrder(inbox)
    requires forall i, j :: 0 <= i < j < |order| ==> Ymd(order[i]) < Ymd(order[j])
    requires forall d :: d in order <==> d in ByDay(Pending(inbox, w))
    ensures var list := DayList(inbox, w);
            |order| == |list| && forall i :: 0 <= i < |list| ==>
              order[i] in ByDay(Pending(inbox, w)) && ByDay(Pending(inbox, w))[order[i]] == list[i]
  {
    hide Ymd, InHours, InOrder, Pending, ByDay, LastOfDays;
    var p := Pending(inbox, w);
    var list := LastOfDays(p);
    PendingInOrder(inbox, w);
    LastOfDaysStrict(p);
    ByDayIsLastOfDays(p);
    var dates := seq(|list|, i requires 0 <= i < |list| => DateOf(list[i]));
    forall i, j | 0 <= i < j < |dates| ensures Ymd(dates[i]) < Ymd(dates[j]) {
      assert Before(list[i], list[j]);
    }
    forall d ensures d in order <==> d in dates {
      if d in ByDay(p) {
        var i :| 0 <= i < |list| && list[i] == ByDay(p)[d];
        assert dates[i] == d;
      }
    }
    SameDates(order, dates);
  }

  /** Writing one more day of a file. */
  lemma NextDay(o: Opt, now: Opt, rows: seq<ChainRow>, order: seq<RealDate>, n: nat, sid: nat)
    requires n < |order| && now == o + Restrict(FileMap(rows, sid), DatesYmd(order[..n]))
    ensures Upsert(now, Entries(OnDay(rows, order[n]), sid))
         == o + Restrict(FileMap(rows, sid), DatesYmd(order[..n + 1]))
  {
    hide Ymd, Entries, OnDay, FileMap, Upsert, DatesYmd;
    UpsertIsOverride(now, Entries(OnDay(rows, order[n]), sid));
    DayContent(rows, order[n], sid);
    OneMoreDate(order, n);
  }

  lemma OneMoreDate(order: seq<RealDate>, n: nat)
    requires n < |order|
    ensures DatesYmd(order[..n + 1]) == DatesYmd(order[..n]) + {Ymd(order[n])}
  {
    hide Ymd;
    var now, before := order[..n + 1], order[..n];
    assert now[n] == order[n];
    assert forall i :: 0 <= i < n ==> now[i] == before[i];
    forall y | y in DatesYmd(before) + {Ymd(order[n])} ensures y in DatesYmd(now) {
      if y in DatesYmd(before) {
        var i :| 0 <= i < n && y == Ymd(before[i]);
        assert y == Ymd(now[i]);
      } else {
        assert y == Ymd(now[n]);
      }
    }
  }

  lemma DayContent(rows: seq<ChainRow>, d: RealDate, sid: nat)
    ensures Upsert(map[], Entries(OnDay(rows, d), sid)) == Restrict(FileMap(rows, sid), {Ymd(d)})
  {
    OnDayIsAPart(rows, d, sid);
  }

  lemma WholeFile(rows: seq<ChainRow>, order: seq<RealDate>, sid: nat)
    requires forall i :: 0 <= i < |rows| ==> rows[i].date in order
    ensures Restrict(FileMap(rows, sid), DatesYmd(order)) == FileMap(rows, sid)
  {
    hide Ymd, FileMap;
    forall k | k in FileMap(rows, sid) ensures k.d in DatesYmd(order) {
      FileMapDays(rows, sid, k);
      var i :| 0 <= i < |rows| && Ymd(rows[i].date) == k.d;
      var j :| 0 <= j < |order| && order[j] == rows[i].date;
      assert Ymd(order[j]) == k.d;
    }
  }

  method SnapRows(s: DaySnap, sid: nat) returns (out: seq<Entry>)
    ensures out == RowsOf(s, s.quotes, sid)
  {
    out := [];
    for i := 0 to |s.quotes|
      invariant out == RowsOf(s, s.quotes[..i], sid)
    {
      assert s.quotes[..i + 1][..i] == s.quotes[..i];
      var q := s.quotes[i];
      if q.expiration.Some? {
        var row := OptRow(q.bid, q.ask, MarkFrom(q.bid, q.ask, q.last), q.volume, q.openInterest, q.delta, q.iv, sid);
        out := out + [Entry(KeyOf(DateOf(s), q.expiration.value, q.right, q.strike), row)];
      }
    }
    assert s.quotes[..|s.quotes|] == s.quotes;
  }

  /** The loop that fills `by_day`, oldest snapshot first: the last one stands. */
  method LatestByDay(inbox: seq<Snap>, watermark: nat) returns (byDay: map<RealDate, DaySnap>)
    ensures byDay == ByDay(Pending(inbox, watermark))
  {
    hide Ymd, WeekdayOf;
    byDay := map[];
    for i := 0 to |inbox|
      invariant byDay == ByDay(Pending(inbox[..i], watermark))
    {
      assert inbox[..i + 1][..i] == inbox[..i];
      ghost var before := Pending(inbox[..i], watermark);
      if inbox[i].ts > watermark && InHours(inbox[i]) {
        assert (before + [inbox[i]])[..|before|] == before;
        byDay := byDay[inbox[i].et.value.date := inbox[i]];
      }
    }
    assert inbox[..|inbox|] == inbox;
  }

  method ImportRows(rows: seq<ChainRow>, sid: nat) returns (out: seq<Entry>)
    ensures out == Entries(rows, sid)
  {
    out := [];
    for i := 0 to |rows|
      invariant |out| == i && forall j :: 0 <= j < i ==> out[j] == RowEntry(rows[j], sid)
    {
      var mark := rows[i].mark;
      if mark.None? {
        mark := MarkFrom(rows[i].bid, rows[i].ask, rows[i].last);
      }
      out := out + [Entry(RowKey(rows[i]), OptRow(rows[i].bid, rows[i].ask, mark, rows[i].volume,
                                                  rows[i].openInterest, rows[i].delta, rows[i].iv, sid))];
    }
  }

  /** The table of sources after one more has written: ids count up. */
  function WithSource(sources: map<string, nat>, src: string): map<string, nat> {
    if src in sources then sources else sources[src := |sources| + 1]
  }

  class Store {
    var opt: Opt
    var lastTs: nat
    var sources: map<string, nat>

    ghost predicate Valid() reads this { OnlySessions(opt) }

    constructor ()
      ensures Valid() && opt == map[] && lastTs == 0 && sources == map[]
    {
      opt, lastTs, sources := map[], 0, map[];
    }

    method SourceId(src: string) returns (id: nat)
      modifies this`sources
      ensures sources == WithSource(old(sources), src) && id == sources[src]
    {
      if src !in sources {
        sources := sources[src := |sources| + 1];
      }
      id := sources[src];
    }

    /** One transaction per day: the day's rows and the watermark together. */
    method WriteList(order: seq<RealDate>, byDay: map<RealDate, DaySnap>, ghost list: seq<DaySnap>, sid: nat,
                     budget: nat)
        returns (days: nat, contracts: nat)
      requires |order| == |list|
      requires forall i :: 0 <= i < |list| ==> order[i] in byDay && byDay[order[i]] == list[i]
      modifies this`opt, this`lastTs
      ensures days == Min(budget, |list|) && contracts == |AllRows(list[..days], sid)|
      ensures opt == WriteDays(old(opt), list[..days], sid)
      ensures lastTs == Watermark(old(lastTs), list[..days])
    {
      hide Upsert, RowsOf, InHours, Ymd, Content;
      days, contracts := 0, 0;
      while days < |order| && days < budget
        invariant days <= |order| && days <= budget
        invariant contracts == |AllRows(list[..days], sid)|
        invariant opt == WriteDays(old(opt), list[..days], sid)
        invariant lastTs == Watermark(old(lastTs), list[..days])
      {
        var snap := byDay[order[days]];
        assert list[..days + 1][..days] == list[..days];
        var out := SnapRows(snap, sid);
        opt := Upsert(opt, out);
        lastTs := snap.ts;
        days := days + 1;
        contracts := contracts + |out|;
      }
    }

    /** One sync; `budget` day transactions commit before the process dies (all, if it does not). */
    method Sync(inbox: seq<Snap>, budget: nat) returns (days: nat, contracts: nat)
      requires InOrder(inbox)
      modifies this
      ensures RECORDED == "recorded" && sources == WithSource(old(sources), RECORDED)
      ensures var list := DayList(inbox, old(lastTs));
              && days == Min(budget, |list|) && contracts == |AllRows(list[..days], sources[RECORDED])|
              && opt == WriteDays(old(opt), list[..days], sources[RECORDED])
              && lastTs == Watermark(old(lastTs), list[..days])
      ensures old(Valid()) ==> Valid()
    {
      hide InOrder, Upsert, RowsOf, InHours, ByDay, Pending, OnlySessions, Ymd, WriteDays, Watermark, LastOfDays;
      var sid := SourceId(RECORDED);
      ghost var list := DayList(inbox, lastTs);
      var byDay := LatestByDay(inbox, lastTs);
      var order := SortDates(byDay.Keys);
      OrderIsDayList(inbox, lastTs, order);
      days, contracts := WriteList(order, byDay, list, sid, budget);
      if OnlySessions(old(opt)) {
        SyncWritesSessions(old(opt), list[..days], sid);
      }
    }

    /** All rows of a file, or none of them; `states` are the tables its day transactions leave, one after another. */
    method ImportChain(underlying: string, rows: seq<ChainRow>, source: string)
        returns (r: Outcome, ghost order: seq<RealDate>, ghost states: seq<Opt>)
      modifies this
      ensures sources == WithSource(old(sources), source) && lastTs == old(lastTs)
      ensures r.Imported? <==> Importable(rows, underlying)
      ensures r.Refused? <==>
        exists i :: 0 <= i < |rows| && (rows[i].symbol != underlying || WeekdayOf(rows[i].date) > 4)
      ensures r.Refused? ==> opt == old(opt) && states == []
      ensures r.Imported? ==> r.contracts == |rows| && opt == Upsert(old(opt), Entries(rows, sources[source]))
      ensures r.Imported? ==>
        && r.days == |DatesOf(rows)| && (forall d :: d in order <==> d in DatesOf(rows))
        && (forall i, j :: 0 <= i < j < |order| ==> Ymd(order[i]) < Ymd(order[j]))
        && ImportStates(old(opt), rows, order, sources[source], states)
      ensures old(Valid()) ==> Valid()
    {
      hide ImportStates, Ymd;
      order, states := [], [];
      var sid := SourceId(source);
      if exists i :: 0 <= i < |rows| && rows[i].symbol != underlying {
        return Refused, [], [];
      }
      var dates := DatesOf(rows);
      if exists d :: d in dates && WeekdayOf(d) >= 5 {
        assert !Importable(rows, underlying);
        return Refused, [], [];
      }
      var days := SortDates(dates);
      order := days;
      r, states := WriteFile(rows, days, dates, sid);
      UpsertIsOverride(old(opt), Entries(rows, sid));
      if old(Valid()) {
        forall i | 0 <= i < |rows| ensures Session(RowKey(rows[i]).d) { WeekdayIsSession(rows[i].date); }
        UpsertSessions(old(opt), Entries(rows, sid));
      }
    }

    /** One short transaction per day of the file. */
    method WriteFile(rows: seq<ChainRow>, order: seq<RealDate>, dates: set<RealDate>, sid: nat)
        returns (r: Outcome, ghost states: seq<Opt>)
      requires forall i, j :: 0 <= i < j < |order| ==> Ymd(order[i]) < Ymd(order[j])
      requires forall d :: d in order <==> d in dates
      requires forall i :: 0 <= i < |rows| ==> rows[i].date in dates
      modifies this`opt
      ensures r == Imported(|order|, |rows|)
      ensures opt == old(opt) + FileMap(rows, sid)
      ensures ImportStates(old(opt), rows, order, sid, states)
    {
      hide Ymd, FileMap, OnDay, Restrict, DatesYmd;
      var days, contracts := 0, 0;
      states := [];
      NoDays(rows);
      NoDates(old(opt), rows, sid);
      ghost var done: set<RealDate> := {};
      while days < |order|
        invariant days <= |order| && |states| == days
        invariant forall d :: d in done <==> d in order[..days]
        invariant contracts == RowsIn(rows, done)
        invariant opt == old(opt) + Restrict(FileMap(rows, sid), DatesYmd(order[..days]))
        invariant forall i :: 0 <= i < days ==>
          states[i] == old(opt) + Restrict(FileMap(rows, sid), DatesYmd(order[..i + 1]))
      {
        var out := ImportRows(OnDay(rows, order[days]), sid);
        NextDay(old(opt), opt, rows, order, days, sid);
        OneMoreDay(rows, done, order[days]);
        opt := Upsert(opt, out);
        states := states + [opt];
        done := done + {order[days]};
        days := days + 1;
        contracts := contracts + |out|;
      }
      WholeFile(rows, order, sid);
      AllDays(rows, done);
      assert order[..|order|] == order;
      r := Imported(days, contracts);
    }
  }

  lemma NoDates(o: Opt, rows: seq<ChainRow>, sid: nat)
    ensures o + Restrict(FileMap(rows, sid), DatesYmd([])) == o
  {
    hide Ymd, FileMap;
  }
}
