/** Any number of visits, each dying wherever it likes: the kept history has no hole. */
module DepthFacts {
  import Civil
  import opened Common
  import opened Days
  import opened Depth

  // ------------------------------------------------------------ one fill does no duplicate work
  /** No answer names a day twice, and the broker keeps to the range it was asked for. */
  ghost predicate TidyFeeds(v: Visit) {
    && Ascending(v.keyless)
    && forall from :: from in v.broker ==> Ascending(v.broker[from]) && forall x :: x in v.broker[from] ==> from <= x
  }

  lemma SetOf(days: seq<Day>)
    requires Ascending(days)
    ensures |set x | x in days| == |days|
  {
    if days != [] {
      var front, last := days[..|days| - 1], days[|days| - 1];
      assert days == front + [last];
      SetOf(front);
      assert (set x | x in days) == (set x | x in front) + {last};
      assert last !in front;
    }
  }

  lemma StoredGrows(d: Disk, days: seq<Day>, feed: Feed)
    requires Ascending(days) && forall x :: x in days ==> x !in d.rows
    ensures |Stored(d, days, feed).rows| == |d.rows| + |days|
    ensures forall x :: x in d.rows ==> x in Stored(d, days, feed).rows && Stored(d, days, feed).rows[x] == d.rows[x]
  {
    SetOf(days);
    assert Stored(d, days, feed).rows.Keys == d.rows.Keys + (set x | x in days);
    assert |d.rows| == |d.rows.Keys|;
  }

  /** The head lies strictly before what is stored, the tail strictly after. */
  lemma OlderIsOutside(d: Disk, v: Visit)
    requires TidyFeeds(v)
    ensures var older := Older(v.keyless, SpanOf(d).lo);
            Ascending(older) && forall x, y :: x in older && y in d.rows ==> x < y
  {
    var lo := SpanOf(d).lo;
    KeepOrder(v.keyless, x => lo.None? || x < lo.value);
  }

  lemma TailIsOutside(d: Disk, tailFrom: Option<Day>, v: Visit)
    requires TidyFeeds(v)
    requires tailFrom.Some? ==> SpanOf(d).hi.Some? && tailFrom.value == SpanOf(d).hi.value + 1
    requires tailFrom.Some? || SpanOf(d).n == 0
    ensures var got := Tail(d, tailFrom, v).0;
            Ascending(got) && forall x, y :: x in got && y in d.rows ==> y < x
  {
    var s := SpanOf(d);
    KeepOrder(v.keyless, x => s.hi.None? || x > s.hi.value);
  }

  lemma PlannedTail(s: Span, asset: Option<AssetClass>, today: Day)
    ensures var t := Plan(s, asset, today).tailFrom;
            t.Some? ==> s.n > 0 && s.hi.Some? && t.value == s.hi.value + 1 && today >= t.value
  {
  }

  /** Rows handed over are rows gained, no stored day is written again, and no stored day changes its feed. */
  lemma NoDuplicateWork(d: Disk, v: Visit)
    requires TidyFeeds(v)
    ensures var end := Last(d, FillStates(d, v));
            && |end.rows| == |d.rows| + Wrote(d, v)
            && forall x :: x in d.rows ==> x in end.rows && end.rows[x] == d.rows[x]
  {
    hide SpanIs, Plan, Older, Newer, FromBroker, Fresh, Stored, TidyFeeds;
    var s := SpanOf(d);
    var head := HeadStates(d, v);
    var d1 := Last(d, head);
    HeadGrows(d, v);
    var tailFrom := TodoAfterHead(d, v).tailFrom;
    PlannedTail(s, v.asset, v.planDay);
    PlannedTail(SpanOf(d1), v.asset, DateAt(v.now));
    TailGrows(d1, tailFrom, v);
  }

  lemma HeadGrows(d: Disk, v: Visit)
    requires TidyFeeds(v)
    ensures var end := Last(d, HeadStates(d, v));
            && |end.rows| == |d.rows| +
                 (if Plan(SpanOf(d), v.asset, v.planDay).head then |Older(v.keyless, SpanOf(d).lo)| else 0)
            && forall x :: x in d.rows ==> x in end.rows && end.rows[x] == d.rows[x]
  {
    hide SpanIs, Plan, TidyFeeds, Older, Stored;
    OlderIsOutside(d, v);
    var older := Older(v.keyless, SpanOf(d).lo);
    StoredGrows(d, older, Keyless);
    StoreNone(d, Keyless);
  }

  lemma StoreNone(d: Disk, feed: Feed)
    ensures Stored(d, [], feed) == d
  {
    assert Stored(d, [], feed).rows == d.rows;
  }

  lemma TailGrows(d: Disk, tailFrom: Option<Day>, v: Visit)
    requires TidyFeeds(v)
    requires tailFrom.Some? ==> SpanOf(d).hi.Some? && tailFrom.value == SpanOf(d).hi.value + 1
    ensures var end := Last(d, TailStates(d, tailFrom, v));
            && |end.rows| == |d.rows| + (if TailDue(d, tailFrom, v) then |Tail(d, tailFrom, v).0| else 0)
            && forall x :: x in d.rows ==> x in end.rows && end.rows[x] == d.rows[x]
  {
    hide SpanIs, Fresh, Tail, TidyFeeds, Stored;
    if TailDue(d, tailFrom, v) {
      TailIsOutside(d, tailFrom, v);
      var (got, feed) := Tail(d, tailFrom, v);
      StoredGrows(d, got, feed);
      StoreNone(d, feed);
    }
  }

  /** At no point does the disk say a symbol is deep before the head rows are on it. */
  lemma MarkAfterRows(d: Disk, v: Visit, t: Disk, x: Day)
    requires t in FillStates(d, v) && t.deepAt != d.deepAt
    requires x in v.keyless && forall y :: y in d.rows ==> x < y
    ensures x in t.rows
  {
    hide SpanIs, Older, Stored, Tail, Plan;
    OlderDays(d, v);
    var older := Older(v.keyless, SpanOf(d).lo);
    StillReaches(d, older, Keyless, 0);
    var d' := Last(d, HeadStates(d, v));
    var (got, feed) := Tail(d', TodoAfterHead(d, v).tailFrom, v);
    StillReaches(d', got, feed, 0);
    assert x in older;
  }

  /** A class without bar sources is never marked deep, yet a first visit does store the keyless answer. */
  lemma UnservedClassIsStored(d: Disk, v: Visit)
    requires ProvidersFor(v.asset) == []
    ensures forall t :: t in FillStates(d, v) ==> t.deepAt == d.deepAt
    ensures d.rows != map[] ==> FillStates(d, v) == []
    ensures d.rows == map[] && !Fresh(SpanOf(d), v.now) ==>
      forall x :: x in Last(d, FillStates(d, v)).rows <==> x in v.keyless
  {
    hide SpanIs, Newer, Stored;
    HiBounds(d);
    NewerDays(d, v);
    StillReaches(d, Newer(v.keyless, SpanOf(d).hi), Keyless, 0);
    assert HeadStates(d, v) == [];
    assert FromBroker(v, None) == [];
    NoneNewer(SpanOf(d).hi);
  }

  // ------------------------------------------------------------ who is asked, and when
  /** The two fixed days are 1 January 1970 and 1 January 2016. */
  lemma FixedDays()
    ensures EPOCH == Civil.Ordinal(Civil.Date(1970, 1, 1)) - 1
    ensures BROKER_FLOOR == Civil.Ordinal(Civil.Date(2016, 1, 1)) - 1
  {
    Civil.KnownDays();
  }

  /** Only crypto has no source; only equities, known or taken for one, go to the broker, and only with credentials. */
  lemma WhoIsAsked(v: Visit)
    ensures ProvidersFor(v.asset) == [] <==> v.asset == Some(Crypto)
    ensures Broker in ProvidersFor(v.asset) <==> v.asset !in {Some(Index), Some(Future), Some(Crypto)}
    ensures AsksBroker(v) <==> v.creds && v.asset in {None, Some(UsEquity)}
    ensures AsksBroker(v) ==> ProvidersFor(v.asset) == [Broker, Keyless]
  {
  }

  /** A visit plans nothing without sources, all when nothing is stored, else an unmarked head and the days since. */
  lemma PlanExactly(d: Disk, asset: Option<AssetClass>, today: Day)
    ensures var todo := Plan(SpanOf(d), asset, today);
            && (todo.head <==> asset != Some(Crypto) && (d.rows == map[] || d.deepAt.None?))
            && (todo.tailFrom.Some? <==>
                  asset != Some(Crypto) && d.rows != map[] && forall x :: x in d.rows ==> x < today)
            && (todo.tailFrom.Some? ==>
                  todo.tailFrom.value - 1 in d.rows && forall x :: x in d.rows ==> x < todo.tailFrom.value)
  {
    HiBounds(d);
  }

  /** For fifteen minutes after a look at the tail there is no other; from then on there is, if one is due. */
  lemma CooldownExactly(d: Disk, tailFrom: Option<Day>, v: Visit)
    ensures TailStates(d, tailFrom, v) != [] <==>
      (tailFrom.Some? || d.rows == map[]) && (d.tailAt.Some? ==> v.now - d.tailAt.value >= 15 * 60)
  {
    HiBounds(d);
  }

  /** The broker is asked from the day after the newest stored one, or from 2016 when nothing is stored. */
  lemma BrokerIsAskedFrom(v: Visit, tailFrom: Option<Day>)
    ensures FromBroker(v, tailFrom) != [] ==> v.creds && (v.asset.None? || v.asset.value.UsEquity?)
    ensures AsksBroker(v) ==>
      var from := if tailFrom.Some? then tailFrom.value else Civil.Ordinal(Civil.Date(2016, 1, 1)) - 1;
      FromBroker(v, tailFrom) == if from in v.broker then v.broker[from] else []
  {
    FixedDays();
  }

  /** When a tail is due and the broker answers, its days are what is stored, under its name. */
  lemma BrokerComesFirst(d: Disk, v: Visit, x: Day)
    requires var d' := Last(d, HeadStates(d, v)); TailDue(d', TodoAfterHead(d, v).tailFrom, v)
    requires x in FromBroker(v, TodoAfterHead(d, v).tailFrom)
    ensures var rows := Last(d, FillStates(d, v)).rows; x in rows && rows[x] == Broker
  {
    hide SpanIs, HeadStates, TodoAfterHead, TailDue, FromBroker;
  }

  // ------------------------------------------------------------ what the disk says of itself
  /** A row and both marks of a state are as before, or name what this visit brought and its moment. */
  ghost predicate SaysItsVisit(d: Disk, v: Visit, t: Disk) {
    && (forall x :: x in t.rows && (x !in d.rows || t.rows[x] != d.rows[x]) ==>
          match t.rows[x]
          case Keyless => x in v.keyless
          case Broker => exists from :: from in v.broker && x in v.broker[from])
    && (t.deepAt == d.deepAt || t.deepAt == Some(v.now)) && (t.tailAt == d.tailAt || t.tailAt == Some(v.now))
  }

  lemma StoredSays(d: Disk, t: Disk, days: seq<Day>, feed: Feed, v: Visit)
    requires SaysItsVisit(d, v, t)
    requires forall x :: x in days ==>
      if feed.Keyless? then x in v.keyless else exists from :: from in v.broker && x in v.broker[from]
    ensures SaysItsVisit(d, v, Stored(t, days, feed))
  {
  }

  lemma TailSource(d: Disk, tailFrom: Option<Day>, v: Visit)
    ensures var (got, feed) := Tail(d, tailFrom, v);
            forall x :: x in got ==>
              if feed.Keyless? then x in v.keyless else exists from :: from in v.broker && x in v.broker[from]
  {
    hide SpanIs;
  }

  /** At every durable state, each row names the feed it came from, and each mark the moment it was made. */
  lemma EveryRowNamesItsFeed(d: Disk, v: Visit, t: Disk)
    requires t in FillStates(d, v)
    ensures SaysItsVisit(d, v, t)
  {
    hide SpanIs, Plan, Older, Stored, Tail, TailDue, TodoAfterHead, SaysItsVisit;
    var older := Older(v.keyless, SpanOf(d).lo);
    OlderDays(d, v);
    Unchanged(d, v);
    StoredSays(d, d, older, Keyless, v);
    var d1 := Stored(d, older, Keyless);
    MarksSay(d, v, d1);
    var d' := Last(d, HeadStates(d, v));
    var tailFrom := TodoAfterHead(d, v).tailFrom;
    var (got, feed) := Tail(d', tailFrom, v);
    TailSource(d', tailFrom, v);
    StoredSays(d, d', got, feed, v);
    MarksSay(d, v, Stored(d', got, feed));
  }

  lemma Unchanged(d: Disk, v: Visit)
    ensures SaysItsVisit(d, v, d)
  {
  }

  lemma MarksSay(d: Disk, v: Visit, t: Disk)
    requires SaysItsVisit(d, v, t)
    ensures SaysItsVisit(d, v, t.(deepAt := Some(v.now))) && SaysItsVisit(d, v, t.(tailAt := Some(v.now)))
  {
  }

  // ------------------------------------------------------------ no hole, ever
  /** Every session between two stored days is stored, and only sessions are. */
  ghost predicate GapFree(rows: map<Day, Feed>, session: Day -> bool) {
    && (forall x :: x in rows ==> session(x))
    && (forall x, y, d :: x in rows && y in rows && x < d < y && session(d) ==> d in rows)
  }

  /** An answer holding every session from `from` up to its own end. */
  ghost predicate Covers(days: seq<Day>, from: Day, session: Day -> bool) {
    && (forall x :: x in days ==> session(x) && from <= x)
    && (forall x, d :: x in days && from <= d <= x && session(d) ==> d in days)
  }

  /** The keyless feed begins at `first` and reaches yesterday, when it answers at all. */
  ghost predicate HonestKeyless(v: Visit, session: Day -> bool, first: Day) {
    && Covers(v.keyless, first, session) && first in v.keyless
    && (forall d :: first <= d < v.planDay && session(d) ==> d in v.keyless)
    && (forall x :: x in v.keyless ==> x <= DateAt(v.now))
  }

  /** The broker holds every session from the day it is asked for to the end of its answer. */
  ghost predicate HonestBroker(v: Visit, session: Day -> bool) {
    forall from :: from in v.broker ==>
      Covers(v.broker[from], from, session) && forall x :: x in v.broker[from] ==> x <= DateAt(v.now)
  }

  ghost predicate Honest(v: Visit, session: Day -> bool, first: Day) {
    && v.planDay <= DateAt(v.now)
    && (v.keyless == [] || HonestKeyless(v, session, first))
    && HonestBroker(v, session)
  }

  ghost predicate OneAtMost(session: Day -> bool, first: Day) {
    forall a, b :: BROKER_FLOOR <= a < b < first && session(a) ==> !session(b)
  }

  ghost predicate Reaches(rows: map<Day, Feed>, first: Day) { exists x :: x in rows && x <= first }

  /** No session lies between the stored days and the beginning of the keyless feed. */
  ghost predicate Touches(rows: map<Day, Feed>, session: Day -> bool, first: Day) {
    forall x, d :: x in rows && x < d < first && session(d) ==> d in rows
  }

  /** What every durable state satisfies. */
  ghost predicate Kept(d: Disk, session: Day -> bool, first: Day, today: Day) {
    && GapFree(d.rows, session) && Touches(d.rows, session, first)
    && (forall x :: x in d.rows ==> x <= today)
  }

  /** A symbol is marked deep only with rows back to the beginning of the keyless feed. */
  ghost predicate Truthful(d: Disk, first: Day) { d.deepAt.Some? ==> Reaches(d.rows, first) }

  /** An answer that starts right after the stored days leaves no hole. */
  lemma Joins(d: Disk, days: seq<Day>, from: Day, session: Day -> bool, feed: Feed)
    requires GapFree(d.rows, session) && Covers(days, from, session)
    requires forall y :: y in d.rows ==> y < from
    requires forall y, x :: y in d.rows && y < x < from && session(x) ==> x in d.rows
    ensures GapFree(Stored(d, days, feed).rows, session)
  {
    var rows := Stored(d, days, feed).rows;
    forall x, y, z | x in rows && y in rows && x < z < y && session(z) ensures z in rows {
      assert y in days || y in d.rows;
      assert x in days || x in d.rows;
    }
  }

  /** The keyless days before `lo` close up to it. */
  lemma HeadJoins(d: Disk, v: Visit, session: Day -> bool, first: Day, older: seq<Day>)
    requires GapFree(d.rows, session) && HonestKeyless(v, session, first)
    requires forall x :: x in d.rows ==> x <= v.planDay
    requires forall x :: x in older <==> x in v.keyless && forall y :: y in d.rows ==> x < y
    ensures GapFree(Stored(d, older, Keyless).rows, session)
  {
    hide HonestKeyless, Covers, GapFree;
    var rows := Stored(d, older, Keyless).rows;
    forall x | x in rows ensures session(x) { MemberIsSession(d, v, session, first, older, x); }
    forall x, y, z | x in rows && y in rows && x < z < y && session(z) ensures z in rows {
      HeadFills(d, v, session, first, older, x, y, z);
    }
    assert GapFree(rows, session) by { GapFreeIf(rows, session); }
  }

  lemma GapFreeIf(rows: map<Day, Feed>, session: Day -> bool)
    requires forall x :: x in rows ==> session(x)
    requires forall x, y, d :: x in rows && y in rows && x < d < y && session(d) ==> d in rows
    ensures GapFree(rows, session)
  {
  }

  lemma MemberIsSession(d: Disk, v: Visit, session: Day -> bool, first: Day, older: seq<Day>, x: Day)
    requires GapFree(d.rows, session) && HonestKeyless(v, session, first)
    requires x in d.rows || x in v.keyless
    ensures session(x) && (x in v.keyless ==> first <= x)
  {
  }

  lemma HeadFills(d: Disk, v: Visit, session: Day -> bool, first: Day, older: seq<Day>, x: Day, y: Day, z: Day)
    requires GapFree(d.rows, session) && HonestKeyless(v, session, first)
    requires forall u :: u in d.rows ==> u <= v.planDay
    requires forall u :: u in older <==> u in v.keyless && forall w :: w in d.rows ==> u < w
    requires (x in older || x in d.rows) && (y in older || y in d.rows) && x < z < y && session(z)
    ensures z in older || z in d.rows
  {
    if u :| u in d.rows && u <= z {
      assert y in d.rows;
    } else {
      assert x in older;
      assert z in v.keyless;
    }
  }

  lemma HeadTouches(d: Disk, v: Visit, session: Day -> bool, first: Day, older: seq<Day>)
    requires Touches(d.rows, session, first) && HonestKeyless(v, session, first)
    requires forall x :: x in older <==> x in v.keyless && forall y :: y in d.rows ==> x < y
    ensures Touches(Stored(d, older, Keyless).rows, session, first)
  {
    assert first in v.keyless;
  }

  /** The head pass stores the first day of the keyless feed, unless the rows reach further back already. */
  lemma HeadReaches(d: Disk, v: Visit, first: Day, older: seq<Day>)
    requires first in v.keyless
    requires forall x :: x in older <==> x in v.keyless && forall y :: y in d.rows ==> x < y
    ensures Reaches(Stored(d, older, Keyless).rows, first)
  {
    var rows := Stored(d, older, Keyless).rows;
    if forall y :: y in d.rows ==> first < y {
      assert first in rows;
    } else {
      var y :| y in d.rows && y <= first;
      assert y in rows;
    }
  }

  lemma OlderDays(d: Disk, v: Visit)
    ensures forall x :: x in Older(v.keyless, SpanOf(d).lo) <==> x in v.keyless && forall y :: y in d.rows ==> x < y
  {
  }

  lemma HeadKeeps(d: Disk, v: Visit, session: Day -> bool, first: Day, today: Day, t: Disk)
    requires Kept(d, session, first, today) && Honest(v, session, first) && today <= v.planDay
    requires t in HeadStates(d, v)
    ensures Kept(t, session, first, DateAt(v.now))
  {
    hide SpanIs, Plan, Older, Covers, GapFree, Touches, Reaches;
    var older := Older(v.keyless, SpanOf(d).lo);
    OlderDays(d, v);
    assert v.keyless != [] by { NoneOlder(SpanOf(d).lo); }
    HeadJoins(d, v, session, first, older);
    HeadTouches(d, v, session, first, older);
    var d' := Stored(d, older, Keyless);
    assert t.rows == d'.rows;
    assert forall x :: x in d'.rows ==> x in d.rows || x in v.keyless;
  }

  lemma NoneOlder(lo: Option<Day>)
    ensures Older([], lo) == []
  {
  }

  lemma NewerDays(d: Disk, v: Visit)
    ensures forall x :: x in Newer(v.keyless, SpanOf(d).hi) <==> x in v.keyless && forall y :: y in d.rows ==> y < x
  {
  }

  /** The keyless days after `hi` start right after it, or where nothing is missing. */
  lemma KeylessTail(d: Disk, v: Visit, session: Day -> bool, first: Day, got: seq<Day>, from: Day)
    requires HonestKeyless(v, session, first) && Touches(d.rows, session, first) && GapFree(d.rows, session)
    requires forall x :: x in got <==> x in v.keyless && forall y :: y in d.rows ==> y < x
    requires from == first || (from - 1 in d.rows && from > first)
    requires forall y :: y in d.rows ==> y < from
    ensures Covers(got, from, session)
    ensures forall y, x :: y in d.rows && y < x < from && session(x) ==> x in d.rows
  {
    hide HonestKeyless, Covers, GapFree, Touches;
    PartCovers(d, v, session, first, got, from);
    NoneBetween(d, session, first, from);
  }

  lemma PartCovers(d: Disk, v: Visit, session: Day -> bool, first: Day, got: seq<Day>, from: Day)
    requires HonestKeyless(v, session, first)
    requires forall x :: x in got <==> x in v.keyless && forall y :: y in d.rows ==> y < x
    requires from == first || (from - 1 in d.rows && from > first)
    requires forall y :: y in d.rows ==> y < from
    ensures Covers(got, from, session)
  {
    forall x, z | x in got && from <= z <= x && session(z) ensures z in got {
      assert x in v.keyless && first <= z <= x;
    }
  }

  lemma NoneBetween(d: Disk, session: Day -> bool, first: Day, from: Day)
    requires Touches(d.rows, session, first) && GapFree(d.rows, session)
    requires from == first || from - 1 in d.rows
    ensures forall y, x :: y in d.rows && y < x < from && session(x) ==> x in d.rows
  {
    forall y, x | y in d.rows && y < x < from && session(x) ensures x in d.rows {
      if from != first {
        assert x == from - 1 || x < from - 1;
      }
    }
  }

  /** What a tail brings joins what is stored. */
  lemma TailJoins(d: Disk, tailFrom: Option<Day>, v: Visit, session: Day -> bool, first: Day)
    requires GapFree(d.rows, session) && Touches(d.rows, session, first) && Honest(v, session, first)
    requires tailFrom.Some? ==> SpanOf(d).hi == Some(tailFrom.value - 1)
    requires tailFrom.Some? || SpanOf(d).n == 0
    ensures var (got, feed) := Tail(d, tailFrom, v); GapFree(Stored(d, got, feed).rows, session)
  {
    hide GapFree, Touches, Covers, HonestKeyless, Newer, Stored;
    var (got, feed) := Tail(d, tailFrom, v);
    var broker := FromBroker(v, tailFrom);
    if broker != [] {
      var from := if tailFrom.Some? then tailFrom.value else BROKER_FLOOR;
      assert Covers(broker, from, session);
      RightAfter(d, from, session);
      Joins(d, broker, from, session, feed);
    } else if v.keyless == [] {
      NoneNewer(SpanOf(d).hi);
      StoreNone(d, feed);
    } else {
      var from := if tailFrom.Some? && tailFrom.value > first then tailFrom.value else first;
      NewerDays(d, v);
      KeylessTail(d, v, session, first, got, from);
      Joins(d, got, from, session, feed);
    }
  }

  lemma RightAfter(d: Disk, from: Day, session: Day -> bool)
    requires GapFree(d.rows, session)
    requires d.rows == map[] || (from - 1 in d.rows && forall y :: y in d.rows ==> y < from)
    ensures forall y, x :: y in d.rows && y < x < from && session(x) ==> x in d.rows
  {
    forall y, x | y in d.rows && y < x < from && session(x) ensures x in d.rows {
      assert x == from - 1 || x < from - 1;
    }
  }

  lemma NoneNewer(hi: Option<Day>)
    ensures Newer([], hi) == []
  {
  }

  /** Nothing of a tail lies in the future, and from an empty store the broker starts at its floor. */
  lemma TailDays(d: Disk, tailFrom: Option<Day>, v: Visit, session: Day -> bool, first: Day)
    requires Honest(v, session, first) && Kept(d, session, first, DateAt(v.now)) && OneAtMost(session, first)
    requires tailFrom.Some? ==> SpanOf(d).hi == Some(tailFrom.value - 1)
    requires tailFrom.Some? || SpanOf(d).n == 0
    ensures var (got, feed) := Tail(d, tailFrom, v);
            && (forall x :: x in got ==> x <= DateAt(v.now) && session(x))
            && Touches(Stored(d, got, feed).rows, session, first)
  {
    hide GapFree, Newer, SpanIs, Reaches;
    NewerDays(d, v);
    var (got, feed) := Tail(d, tailFrom, v);
    var rows := Stored(d, got, feed).rows;
    forall x, y | x in rows && x < y < first && session(y) ensures y in rows {
      if x !in d.rows {
        assert x in got;
        if FromBroker(v, tailFrom) != [] {
          BrokerStart(d, tailFrom, v, session, first, x);
        }
      }
    }
  }

  /** Between a broker day of a tail and the beginning of the keyless feed there is no session. */
  lemma BrokerStart(d: Disk, tailFrom: Option<Day>, v: Visit, session: Day -> bool, first: Day, x: Day)
    requires HonestBroker(v, session) && Touches(d.rows, session, first) && OneAtMost(session, first)
    requires tailFrom.Some? ==> SpanOf(d).hi == Some(tailFrom.value - 1)
    requires x in FromBroker(v, tailFrom)
    ensures forall y :: x < y < first ==> !session(y)
  {
    hide SpanIs;
    var from := if tailFrom.Some? then tailFrom.value else BROKER_FLOOR;
    assert from <= x && session(x);
    forall y | x < y < first ensures !session(y) { HiIsLast(d, y); }
  }

  lemma HiIsLast(d: Disk, y: Day)
    ensures SpanOf(d).hi.Some? ==> SpanOf(d).hi.value in d.rows && (y > SpanOf(d).hi.value ==> y !in d.rows)
  {
  }

  lemma TailKeeps(d: Disk, tailFrom: Option<Day>, v: Visit, session: Day -> bool, first: Day, t: Disk)
    requires Honest(v, session, first) && Kept(d, session, first, DateAt(v.now)) && OneAtMost(session, first)
    requires tailFrom.Some? ==> SpanOf(d).hi == Some(tailFrom.value - 1)
    requires t in TailStates(d, tailFrom, v)
    ensures Kept(t, session, first, DateAt(v.now))
  {
    hide GapFree, Touches, Reaches, Honest, Stored, SpanIs, Tail, Fresh, OneAtMost;
    var (got, feed) := Tail(d, tailFrom, v);
    TailJoins(d, tailFrom, v, session, first);
    TailDays(d, tailFrom, v, session, first);
    StillReaches(d, got, feed, first);
    assert t.rows == Stored(d, got, feed).rows && t.deepAt == Stored(d, got, feed).deepAt;
  }

  lemma StillReaches(d: Disk, got: seq<Day>, feed: Feed, first: Day)
    ensures Stored(d, got, feed).deepAt == d.deepAt
    ensures forall x :: x in Stored(d, got, feed).rows <==> x in d.rows || x in got
    ensures Reaches(d.rows, first) ==> Reaches(Stored(d, got, feed).rows, first)
  {
    if Reaches(d.rows, first) {
      var x :| x in d.rows && x <= first;
      assert x in Stored(d, got, feed).rows;
    }
  }

  lemma TailStart(d: Disk, v: Visit)
    ensures var d' := Last(d, HeadStates(d, v));
            var tailFrom := TodoAfterHead(d, v).tailFrom;
            tailFrom.Some? ==> SpanOf(d').hi == Some(tailFrom.value - 1)
  {
    hide SpanIs, Older, Stored;
  }

  /** Every durable state of a visit, so every place it can die at, is as good as where it started. */
  lemma FillKeeps(d: Disk, v: Visit, session: Day -> bool, first: Day, today: Day, t: Disk)
    requires Kept(d, session, first, today) && Honest(v, session, first) && today <= v.planDay
    requires OneAtMost(session, first) && t in FillStates(d, v)
    ensures Kept(t, session, first, DateAt(v.now))
  {
    hide HeadStates, TailStates, TodoAfterHead, GapFree, Touches, HonestKeyless, HonestBroker, OneAtMost, SpanIs;
    var head := HeadStates(d, v);
    var d' := Last(d, head);
    if t in head {
      HeadKeeps(d, v, session, first, today, t);
    } else {
      if head != [] {
        assert d' in head;
        HeadKeeps(d, v, session, first, today, d');
      }
      TailStart(d, v);
      TailKeeps(d', TodoAfterHead(d, v).tailFrom, v, session, first, t);
    }
  }

  // ------------------------------------------------------------ all visits
  /** A visit of which at most `writes` durable writes were committed. */
  datatype Stop = Stop(visit: Visit, writes: nat)

  ghost function After(d: Disk, s: Stop): Disk {
    Last(d, FillStates(d, s.visit)[..Min(s.writes, |FillStates(d, s.visit)|)])
  }

  ghost function DiskAfter(run: seq<Stop>): Disk {
    if run == [] then NOTHING else After(DiskAfter(run[..|run| - 1]), run[|run| - 1])
  }

  /** Honest feeds at every visit, and a clock that does not run backwards. */
  ghost predicate HonestRun(run: seq<Stop>, session: Day -> bool, first: Day) {
    run == [] ||
    (var front, v := run[..|run| - 1], run[|run| - 1].visit;
     && HonestRun(front, session, first) && Honest(v, session, first)
     && (front != [] ==> DateAt(front[|front| - 1].visit.now) <= v.planDay))
  }

  ghost predicate AlwaysKept(run: seq<Stop>, session: Day -> bool, first: Day) {
    if run == [] then DiskAfter(run) == NOTHING
    else Kept(DiskAfter(run), session, first, DateAt(run[|run| - 1].visit.now))
  }

  lemma NothingIsKept(session: Day -> bool, first: Day, today: Day)
    ensures Kept(NOTHING, session, first, today)
  {
  }

  lemma {:induction false} RunsKeep(run: seq<Stop>, session: Day -> bool, first: Day)
    requires HonestRun(run, session, first) && OneAtMost(session, first)
    ensures AlwaysKept(run, session, first)
  {
    hide Honest, Kept, FillStates, OneAtMost;
    if run != [] {
      var front, s := run[..|run| - 1], run[|run| - 1];
      RunsKeep(front, session, first);
      var d := DiskAfter(front);
      var today := if front == [] then s.visit.planDay else DateAt(front[|front| - 1].visit.now);
      if front == [] {
        NothingIsKept(session, first, today);
      }
      VisitKeeps(d, s, session, first, today);
    }
  }

  lemma VisitKeeps(d: Disk, s: Stop, session: Day -> bool, first: Day, today: Day)
    requires Kept(d, session, first, today) && Honest(s.visit, session, first) && today <= s.visit.planDay
    requires OneAtMost(session, first)
    ensures Kept(After(d, s), session, first, DateAt(s.visit.now))
  {
    hide FillStates, OneAtMost, GapFree, Touches, Reaches, HonestKeyless, HonestBroker;
    var states := FillStates(d, s.visit);
    var n := Min(s.writes, |states|);
    if n > 0 {
      assert states[..n][n - 1] == states[n - 1];
      FillKeeps(d, s.visit, session, first, today, states[n - 1]);
    }
  }

  // ------------------------------------------------------------ the exact condition
  lemma {:induction false} EarliestSession(session: Day -> bool, from: Day, a: Day) returns (e: Day)
    requires from <= a && session(a)
    ensures from <= e <= a && session(e) && forall d :: from <= d < e ==> !session(d)
    decreases a - from
  {
    if session(from) {
      e := from;
    } else {
      e := EarliestSession(session, from + 1, a);
    }
  }

  /** At noon of a day. */
  function Noon(day: Day): int { (day - EPOCH) * 86400 + 43200 }

  lemma NoonIsThatDay(day: Day)
    ensures DateAt(Noon(day)) == day
  {
    assert Noon(day) == (day - EPOCH) * 86400 + 43200;
  }

  /** First the broker alone, and only for its first session. */
  function BrokerOnly(a: Day): Visit { Visit(a, Noon(a), None, true, [], map[BROKER_FLOOR := [a]]) }

  /** Then the keyless feed alone, on the first day it has. */
  function KeylessOnly(first: Day): Visit { Visit(first, Noon(first), None, false, [first], map[]) }

  function AfterBroker(a: Day): Disk { Disk(map[a := Broker], None, Some(Noon(a))) }

  lemma BrokerVisit(a: Day)
    ensures After(NOTHING, Stop(BrokerOnly(a), 4)) == AfterBroker(a)
  {
    var v := BrokerOnly(a);
    SpanIsOne(NOTHING, Span(None, None, 0, None, None));
    NoneOlder(None);
    assert HeadStates(NOTHING, v) == [];
    var d' := Stored(NOTHING, [a], Broker);
    assert d'.rows == map[a := Broker];
    assert FillStates(NOTHING, v) == [d', AfterBroker(a)];
  }

  function AfterHead(a: Day, first: Day): Disk { AfterBroker(a).(deepAt := Some(Noon(first))) }

  lemma KeylessHead(a: Day, first: Day)
    requires a < first
    ensures HeadStates(AfterBroker(a), KeylessOnly(first)) == [AfterHead(a, first)]
  {
    hide SpanIs, Noon, Older, Stored;
    OneDaySpan(AfterBroker(a), a);
    KeepNone(first, a);
    StoreNone(AfterBroker(a), Keyless);
  }

  lemma KeylessTailDue(a: Day, first: Day)
    requires a < first
    ensures TodoAfterHead(AfterBroker(a), KeylessOnly(first)).tailFrom == Some(a + 1)
    ensures TailDue(AfterHead(a, first), Some(a + 1), KeylessOnly(first))
  {
    hide SpanIs, Noon, HeadStates, DateAt;
    Apart(a, first);
    NoonIsThatDay(first);
    KeylessHead(a, first);
    OneDaySpan(AfterBroker(a), a);
    OneDaySpan(AfterHead(a, first), a);
  }

  lemma KeylessVisit(a: Day, first: Day)
    requires a < first
    ensures After(AfterBroker(a), Stop(KeylessOnly(first), 4)).rows.Keys == {a, first}
  {
    hide SpanIs, Noon, Older, Newer, HeadStates, TodoAfterHead, TailDue;
    var d, v, d' := AfterBroker(a), KeylessOnly(first), AfterHead(a, first);
    KeylessHead(a, first);
    KeylessTailDue(a, first);
    OneDaySpan(d', a);
    KeepOne(first, a);
    var grown := Stored(d', [first], Keyless);
    assert grown.rows.Keys == {a, first};
    assert Tail(d', Some(a + 1), v) == ([first], Keyless);
    assert FillStates(d, v) == [d', grown, grown.(tailAt := Some(Noon(first)))];
  }

  lemma Apart(a: Day, b: Day)
    requires a < b
    ensures Noon(b) - Noon(a) >= 86400
  {
  }

  lemma OneDaySpan(d: Disk, a: Day)
    requires d.rows == map[a := Broker]
    ensures SpanOf(d) == Span(Some(a), Some(a), 1, d.deepAt, d.tailAt)
  {
    SpanIsOne(d, Span(Some(a), Some(a), 1, d.deepAt, d.tailAt));
  }

  lemma KeepNone(first: Day, a: Day)
    requires a < first
    ensures Older([first], Some(a)) == []
  {
    KeepNothing([first], x => Some(a).None? || x < Some(a).value);
  }

  lemma KeepOne(first: Day, a: Day)
    requires a < first
    ensures Newer([first], Some(a)) == [first]
  {
    var one := [first];
    assert one[..|one| - 1] == [];
    assert Keep(one[..|one| - 1], x => x > a) == [];
    KeepSame(one, x => x > a, x => Some(a).None? || x > Some(a).value);
  }

  lemma TwoVisitsAreHonest(session: Day -> bool, first: Day, a: Day)
    requires session(first) && session(a) && BROKER_FLOOR <= a < first
    requires forall d :: BROKER_FLOOR <= d < a ==> !session(d)
    ensures HonestRun([Stop(BrokerOnly(a), 4), Stop(KeylessOnly(first), 4)], session, first)
  {
    hide Noon, DateAt;
    NoonIsThatDay(a);
    NoonIsThatDay(first);
    var run := [Stop(BrokerOnly(a), 4), Stop(KeylessOnly(first), 4)];
    assert Honest(BrokerOnly(a), session, first);
    assert Honest(KeylessOnly(first), session, first) by { assert HonestKeyless(KeylessOnly(first), session, first); }
    assert run[..1][..0] == [];
    assert HonestRun(run[..1], session, first);
  }

  lemma TwoVisitsLeaveAHole(session: Day -> bool, first: Day, a: Day, b: Day)
    requires a < b < first && session(b)
    ensures !GapFree(DiskAfter([Stop(BrokerOnly(a), 4), Stop(KeylessOnly(first), 4)]).rows, session)
  {
    hide After, FillStates;
    var run := [Stop(BrokerOnly(a), 4), Stop(KeylessOnly(first), 4)];
    assert run[..1] == [Stop(BrokerOnly(a), 4)] && run[..1][..0] == [];
    BrokerVisit(a);
    assert DiskAfter(run[..1]) == AfterBroker(a);
    KeylessVisit(a, first);
    var rows := DiskAfter(run).rows;
    assert rows.Keys == {a, first};
    assert a in rows && first in rows && b !in rows;
  }

  lemma NoGapInRun(run: seq<Stop>, session: Day -> bool, first: Day)
    requires HonestRun(run, session, first) && OneAtMost(session, first)
    ensures GapFree(DiskAfter(run).rows, session)
  {
    hide HonestRun, OneAtMost, Touches, Reaches, DiskAfter;
    RunsKeep(run, session, first);
    NothingIsKept(session, first, 0);
  }

  /**
   * The kept history never has a hole, whatever the visits and wherever they die, exactly when at most one
   * session between the broker's floor and the keyless feed's first day is missing from the keyless feed.
   */
  lemma NeverAGap(session: Day -> bool, first: Day)
    requires session(first)
    ensures (forall run :: HonestRun(run, session, first) ==> GapFree(DiskAfter(run).rows, session))
       <==> OneAtMost(session, first)
  {
    hide HonestRun, DiskAfter, GapFree, OneAtMost;
    if OneAtMost(session, first) {
      forall run | HonestRun(run, session, first) ensures GapFree(DiskAfter(run).rows, session) {
        NoGapInRun(run, session, first);
      }
    } else {
      var run := RunWithAHole(session, first);
      assert HonestRun(run, session, first) && !GapFree(DiskAfter(run).rows, session);
    }
  }

  lemma RunWithAHole(session: Day -> bool, first: Day) returns (run: seq<Stop>)
    requires session(first) && !OneAtMost(session, first)
    ensures HonestRun(run, session, first) && !GapFree(DiskAfter(run).rows, session)
  {
    hide HonestRun, DiskAfter, BrokerOnly, KeylessOnly, GapFree;
    var a, b :| BROKER_FLOOR <= a < b < first && session(a) && session(b);
    var e := EarliestSession(session, BROKER_FLOOR, a);
    TwoVisitsAreHonest(session, first, e);
    TwoVisitsLeaveAHole(session, first, e, b);
    run := [Stop(BrokerOnly(e), 4), Stop(KeylessOnly(first), 4)];
  }

  // ------------------------------------------------------------ the deep mark
  /** The keyless feed, when it answers, answers from its first day on. */
  ghost predicate AnswersFrom(v: Visit, first: Day) { v.keyless == [] || first in v.keyless }

  lemma HeadStaysTruthful(d: Disk, v: Visit, first: Day, t: Disk)
    requires AnswersFrom(v, first) && t in HeadStates(d, v)
    ensures Reaches(t.rows, first)
  {
    hide SpanIs, Plan, Older, Reaches;
    var older := Older(v.keyless, SpanOf(d).lo);
    NoneOlder(SpanOf(d).lo);
    OlderDays(d, v);
    HeadReaches(d, v, first, older);
    assert t.rows == Stored(d, older, Keyless).rows;
  }

  /** Whatever the broker does and wherever a visit dies, a mark stands only on rows that reach that far. */
  lemma FillStaysTruthful(d: Disk, v: Visit, first: Day, t: Disk)
    requires Truthful(d, first) && AnswersFrom(v, first) && t in FillStates(d, v)
    ensures Truthful(t, first)
  {
    hide SpanIs, HeadStates, TodoAfterHead, Tail, TailDue, Stored, Reaches, AnswersFrom;
    var head := HeadStates(d, v);
    var d' := Last(d, head);
    if t in head {
      HeadStaysTruthful(d, v, first, t);
    } else {
      if head != [] {
        assert d' in head;
        HeadStaysTruthful(d, v, first, d');
      }
      var (got, feed) := Tail(d', TodoAfterHead(d, v).tailFrom, v);
      StillReaches(d', got, feed, first);
    }
  }

  lemma VisitStaysTruthful(d: Disk, s: Stop, first: Day)
    requires Truthful(d, first) && AnswersFrom(s.visit, first)
    ensures Truthful(After(d, s), first)
  {
    hide FillStates, Truthful, AnswersFrom;
    var states := FillStates(d, s.visit);
    var n := Min(s.writes, |states|);
    if n > 0 {
      assert states[..n][n - 1] == states[n - 1];
      FillStaysTruthful(d, s.visit, first, states[n - 1]);
    }
  }

  /** A symbol marked as walked to its horizon has rows back to the beginning of the keyless feed, always. */
  lemma {:induction false} DeepMeansDeep(run: seq<Stop>, first: Day)
    requires forall i :: 0 <= i < |run| ==> AnswersFrom(run[i].visit, first)
    ensures DiskAfter(run).deepAt.Some? ==> Reaches(DiskAfter(run).rows, first)
  {
    hide After, AnswersFrom, Reaches;
    if run != [] {
      DeepMeansDeep(run[..|run| - 1], first);
      VisitStaysTruthful(DiskAfter(run[..|run| - 1]), run[|run| - 1], first);
    }
  }

  // ------------------------------------------------------------ catching up
  lemma HeadRows(d: Disk, v: Visit)
    ensures var rows := Last(d, HeadStates(d, v)).rows;
            forall x :: x in rows <==>
              x in d.rows || (Plan(SpanOf(d), v.asset, v.planDay).head && x in Older(v.keyless, SpanOf(d).lo))
  {
    hide SpanIs, Older, Plan, Stored;
    var older := Older(v.keyless, SpanOf(d).lo);
    StillReaches(d, older, Keyless, 0);
    NoneOlder(SpanOf(d).lo);
  }

  /** After the head pass a session of the keyless feed is stored, or later than everything stored. */
  lemma HeadHas(d: Disk, v: Visit, session: Day -> bool, first: Day, day: Day)
    requires Kept(d, session, first, v.planDay) && Truthful(d, first)
    requires HonestKeyless(v, session, first) && ProvidersFor(v.asset) != []
    requires session(day) && first <= day < v.planDay
    ensures var rows := Last(d, HeadStates(d, v)).rows; day in rows || forall y :: y in rows ==> y < day
  {
    hide SpanIs, Older, Covers, Touches, Stored, ProvidersFor, HeadStates, GapFree;
    OlderDays(d, v);
    HiBounds(d);
    HeadRows(d, v);
    assert day in v.keyless;
    if x :| x in d.rows && x <= day {
      Between(d, session, x, day);
    } else {
      assert Plan(SpanOf(d), v.asset, v.planDay).head;
      assert day in Older(v.keyless, SpanOf(d).lo);
    }
  }

  lemma Between(d: Disk, session: Day -> bool, x: Day, day: Day)
    requires GapFree(d.rows, session) && x in d.rows && x <= day && session(day)
    ensures day in d.rows || forall y :: y in d.rows ==> y < day
  {
  }

  /** The broker's answer, unless it is empty, reaches yesterday. */
  ghost predicate BrokerReaches(v: Visit, session: Day -> bool) {
    forall from, day :: from in v.broker && v.broker[from] != [] && from <= day < v.planDay && session(day) ==>
      day in v.broker[from]
  }

  /** The keyless feed answers, or the rows reach its beginning already and the broker answers a tail that is due. */
  ghost predicate Supplied(d: Disk, v: Visit, session: Day -> bool, first: Day) {
    || HonestKeyless(v, session, first)
    || (v.keyless == [] && Reaches(d.rows, first)
        && (TodoAfterHead(d, v).tailFrom.Some? ==> FromBroker(v, TodoAfterHead(d, v).tailFrom) != []))
  }

  /** A finished visit outside the cooldown holds every session up to yesterday, whichever feed gave the tail. */
  lemma CatchesUp(d: Disk, v: Visit, session: Day -> bool, first: Day, day: Day)
    requires Kept(d, session, first, v.planDay) && Truthful(d, first) && v.planDay <= DateAt(v.now)
    requires Supplied(d, v, session, first) && BrokerReaches(v, session)
    requires ProvidersFor(v.asset) != [] && !Fresh(SpanOf(d), v.now)
    requires session(day) && first <= day < v.planDay
    ensures day in Last(d, FillStates(d, v)).rows
  {
    hide SpanIs, HonestKeyless, BrokerReaches, GapFree, Covers, Touches, Fresh, Stored, HeadStates, Truthful, Tail;
    hide Supplied, TodoAfterHead;
    var d' := Last(d, HeadStates(d, v));
    var tailFrom := TodoAfterHead(d, v).tailFrom;
    var (got, feed) := Tail(d', tailFrom, v);
    EitherHeadHas(d, v, session, first, day);
    MarksOnly(d, v);
    StillReaches(d', got, feed, first);
    if day !in d'.rows {
      TailIsDue(d, v, session, first, day);
      TailStart(d, v);
      EitherTailHas(d, v, session, first, day);
      assert Last(d', TailStates(d', tailFrom, v)).rows == Stored(d', got, feed).rows by { StoreNone(d', feed); }
    } else {
      assert day in Last(d', TailStates(d', tailFrom, v)).rows;
    }
  }

  lemma EitherHeadHas(d: Disk, v: Visit, session: Day -> bool, first: Day, day: Day)
    requires Kept(d, session, first, v.planDay) && Truthful(d, first) && Supplied(d, v, session, first)
    requires ProvidersFor(v.asset) != [] && session(day) && first <= day < v.planDay
    ensures var rows := Last(d, HeadStates(d, v)).rows; day in rows || forall y :: y in rows ==> y < day
  {
    hide SpanIs, HonestKeyless, GapFree, Touches, TodoAfterHead, FromBroker, ProvidersFor, Plan;
    if HonestKeyless(v, session, first) {
      HeadHas(d, v, session, first, day);
    } else {
      NoneOlder(SpanOf(d).lo);
      var x :| x in d.rows && x <= first;
      Between(d, session, x, day);
    }
  }

  lemma EitherTailHas(d: Disk, v: Visit, session: Day -> bool, first: Day, day: Day)
    requires Supplied(d, v, session, first) && BrokerReaches(v, session)
    requires session(day) && first <= day < v.planDay && TodoAfterHead(d, v).tailFrom.Some?
    requires var rows := Last(d, HeadStates(d, v)).rows; forall y :: y in rows ==> y < day
    ensures day in Tail(Last(d, HeadStates(d, v)), TodoAfterHead(d, v).tailFrom, v).0
  {
    hide SpanIs, HonestKeyless, HeadStates, TodoAfterHead, Newer;
    TailStart(d, v);
    var d', tailFrom := Last(d, HeadStates(d, v)), TodoAfterHead(d, v).tailFrom;
    if HonestKeyless(v, session, first) {
      TailHas(d', tailFrom, v, session, first, day);
    } else {
      HiBounds(d');
    }
  }

  lemma TailIsDue(d: Disk, v: Visit, session: Day -> bool, first: Day, day: Day)
    requires ProvidersFor(v.asset) != [] && v.planDay <= DateAt(v.now) && day < v.planDay
    requires Supplied(d, v, session, first)
    requires var rows := Last(d, HeadStates(d, v)).rows; forall y :: y in rows ==> y < day
    ensures TodoAfterHead(d, v).tailFrom.Some?
  {
    hide SpanIs, Older, Stored, ProvidersFor, Covers, FromBroker;
    HiBounds(d);
    HiBounds(Last(d, HeadStates(d, v)));
    if HonestKeyless(v, session, first) {
      HeadStored(d, v, first);
    } else {
      NoneOlder(SpanOf(d).lo);
    }
  }

  /** A working keyless feed leaves nothing empty. */
  lemma HeadStored(d: Disk, v: Visit, first: Day)
    requires first in v.keyless && ProvidersFor(v.asset) != []
    ensures Last(d, HeadStates(d, v)).rows != map[]
  {
    hide SpanIs, Older, ProvidersFor;
    HiBounds(d);
    OlderDays(d, v);
    HeadRows(d, v);
    assert d.rows == map[] ==> first in Last(d, HeadStates(d, v)).rows;
  }

  lemma TailHas(d: Disk, tailFrom: Option<Day>, v: Visit, session: Day -> bool, first: Day, day: Day)
    requires HonestKeyless(v, session, first) && BrokerReaches(v, session)
    requires tailFrom.Some? && SpanOf(d).hi == Some(tailFrom.value - 1)
    requires session(day) && first <= day < v.planDay && forall y :: y in d.rows ==> y < day
    ensures day in Tail(d, tailFrom, v).0
  {
    hide SpanIs, Newer, Covers;
    NewerDays(d, v);
    HiBounds(d);
  }

  lemma HiBounds(d: Disk)
    ensures SpanOf(d).deepAt == d.deepAt && (SpanOf(d).n == 0 <==> d.rows == map[])
    ensures SpanOf(d).hi.Some? <==> d.rows != map[]
    ensures SpanOf(d).hi.Some? ==> SpanOf(d).hi.value in d.rows && forall y :: y in d.rows ==> y <= SpanOf(d).hi.value
  {
  }

  lemma MarksOnly(d: Disk, v: Visit)
    ensures Fresh(SpanOf(Last(d, HeadStates(d, v))), v.now) == Fresh(SpanOf(d), v.now)
  {
    hide Older;
  }
}
