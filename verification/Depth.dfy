/** Permanent daily history: one visit fetches only a head and a tail. */
module Depth {
  import opened Common
  import opened Days

  datatype Feed = Broker | Keyless

  datatype AssetClass = UsEquity | Index | Future | Crypto | OtherClass

  const TAIL_COOLDOWN := 900

  /** 1 January 1970 and 1 January 2016, counted in days from a Monday. */
  const EPOCH: Day := 719162
  const BROKER_FLOOR: Day := 735963

  /** The UTC date of a moment in seconds. */
  function DateAt(now: int): Day { EPOCH + now / 86400 }

  function ProvidersFor(asset: Option<AssetClass>): seq<Feed> {
    match asset
    case None => [Broker, Keyless]
    case Some(UsEquity) => [Broker, Keyless]
    case Some(Index) => [Keyless]
    case Some(Future) => [Keyless]
    case Some(Crypto) => []
    case Some(OtherClass) => [Broker, Keyless]
  }

  /** What is kept of one symbol: each stored day with the feed it came from, and two marks. */
  datatype Disk = Disk(rows: map<Day, Feed>, deepAt: Option<int>, tailAt: Option<int>)

  const NOTHING := Disk(map[], None, None)

  datatype Span = Span(lo: Option<Day>, hi: Option<Day>, n: nat, deepAt: Option<int>, tailAt: Option<int>)

  datatype Todo = Todo(head: bool, tailFrom: Option<Day>)

  function Plan(s: Span, asset: Option<AssetClass>, today: Day): Todo {
    if ProvidersFor(asset) == [] then Todo(false, None)
    else if s.n == 0 then Todo(true, None)
    else Todo(s.deepAt.None?, if s.hi.Some? && today - s.hi.value >= 1 then Some(s.hi.value + 1) else None)
  }

  /** MIN, MAX and COUNT over the stored days, and the marks. */
  ghost predicate SpanIs(d: Disk, s: Span) {
    && s.n == |d.rows| && s.deepAt == d.deepAt && s.tailAt == d.tailAt
    && (s.lo.Some? <==> d.rows != map[]) && (s.hi.Some? <==> d.rows != map[])
    && (s.lo.Some? ==> s.lo.value in d.rows && forall x :: x in d.rows ==> s.lo.value <= x)
    && (s.hi.Some? ==> s.hi.value in d.rows && forall x :: x in d.rows ==> x <= s.hi.value)
  }

  lemma SpanExists(d: Disk)
    ensures exists s :: SpanIs(d, s)
  {
    var days := d.rows.Keys;
    if days == {} {
      assert SpanIs(d, Span(None, None, 0, d.deepAt, d.tailAt));
    } else {
      Extremes(days);
      var lo :| IsLeast(lo, days);
      var hi :| IsMost(hi, days);
      assert SpanIs(d, Span(Some(lo), Some(hi), |d.rows|, d.deepAt, d.tailAt));
    }
  }

  ghost function SpanOf(d: Disk): (s: Span)
    ensures SpanIs(d, s)
  {
    SpanExists(d);
    var s :| SpanIs(d, s);
    s
  }

  lemma SpanIsOne(d: Disk, s: Span)
    requires SpanIs(d, s)
    ensures s == SpanOf(d)
  {
    var t := SpanOf(d);
    if s.lo.Some? {
      assert s.lo.value <= t.lo.value <= s.lo.value && s.hi.value <= t.hi.value <= s.hi.value;
    }
  }

  /** `INSERT OR REPLACE` of one answer. */
  function Stored(d: Disk, days: seq<Day>, feed: Feed): Disk {
    d.(rows := d.rows + map x | x in days :: feed)
  }

  // ------------------------------------------------------------ one visit
  /**
   * What a visit meets: two clock readings, the symbol's class, and what the feeds answer: the keyless one its
   * whole series, the broker one answer for each start day; a start day without an answer is a failed request.
   */
  datatype Visit = Visit(planDay: Day, now: int, asset: Option<AssetClass>, creds: bool,
                         keyless: seq<Day>, broker: map<Day, seq<Day>>)

  function Older(days: seq<Day>, lo: Option<Day>): seq<Day> { Keep(days, x => lo.None? || x < lo.value) }

  function Newer(days: seq<Day>, hi: Option<Day>): seq<Day> { Keep(days, x => hi.None? || x > hi.value) }

  predicate AsksBroker(v: Visit) { v.creds && (v.asset.None? || v.asset.value.UsEquity?) }

  predicate Fresh(s: Span, now: int) { s.tailAt.Some? && now - s.tailAt.value < TAIL_COOLDOWN }

  /** What the broker gives for the tail; nothing when it is not asked or fails. */
  function FromBroker(v: Visit, tailFrom: Option<Day>): seq<Day> {
    if !AsksBroker(v) then []
    else
      var from := if tailFrom.Some? then tailFrom.value else BROKER_FLOOR;
      if from in v.broker then v.broker[from] else []
  }

  /** The durable states the head pass goes through: rows first, then the mark. */
  ghost function HeadStates(d: Disk, v: Visit): seq<Disk> {
    var s := SpanOf(d);
    if !Plan(s, v.asset, v.planDay).head then []
    else
      var older := Older(v.keyless, s.lo);
      var d' := Stored(d, older, Keyless);
      (if older == [] then [] else [d']) + (if v.keyless == [] then [] else [d'.(deepAt := Some(v.now))])
  }

  function Last(d: Disk, states: seq<Disk>): Disk { if states == [] then d else states[|states| - 1] }

  ghost function TodoAfterHead(d: Disk, v: Visit): Todo {
    var todo := Plan(SpanOf(d), v.asset, v.planDay);
    if todo.head then Plan(SpanOf(Last(d, HeadStates(d, v))), v.asset, DateAt(v.now)) else todo
  }

  /** The days of the tail and the feed they are filed under. */
  ghost function Tail(d: Disk, tailFrom: Option<Day>, v: Visit): (seq<Day>, Feed) {
    var got := FromBroker(v, tailFrom);
    if got != [] then (got, Broker) else (Newer(v.keyless, SpanOf(d).hi), Keyless)
  }

  ghost predicate TailDue(d: Disk, tailFrom: Option<Day>, v: Visit) {
    (tailFrom.Some? || SpanOf(d).n == 0) && !Fresh(SpanOf(d), v.now)
  }

  ghost function TailStates(d: Disk, tailFrom: Option<Day>, v: Visit): seq<Disk> {
    if !TailDue(d, tailFrom, v) then []
    else
      var (got, feed) := Tail(d, tailFrom, v);
      var d' := Stored(d, got, feed);
      (if got == [] then [] else [d']) + [d'.(tailAt := Some(v.now))]
  }

  /** Every durable state of one fill, in order; the process may die at any of them. */
  ghost function FillStates(d: Disk, v: Visit): seq<Disk> {
    var head := HeadStates(d, v);
    head + TailStates(Last(d, head), TodoAfterHead(d, v).tailFrom, v)
  }

  /** The rows one fill hands to the store. */
  ghost function Wrote(d: Disk, v: Visit): nat {
    var d' := Last(d, HeadStates(d, v));
    var tailFrom := TodoAfterHead(d, v).tailFrom;
    (if Plan(SpanOf(d), v.asset, v.planDay).head then |Older(v.keyless, SpanOf(d).lo)| else 0)
    + (if TailDue(d', tailFrom, v) then |Tail(d', tailFrom, v).0| else 0)
  }

  /** The permanent store, by symbol. */
  class BarHist {
    var disks: map<string, Disk>

    constructor ()
      ensures disks == map[]
    {
      disks := map[];
    }

    function On(symbol: string): Disk reads this { if symbol in disks then disks[symbol] else NOTHING }

    twostate predicate OnlyAt(symbol: string) reads this {
      forall other :: other != symbol ==> On(other) == old(On(other))
    }

    method Store(symbol: string, days: seq<Day>, feed: Feed) returns (count: nat)
      modifies this
      ensures On(symbol) == Stored(old(On(symbol)), days, feed) && OnlyAt(symbol)
      ensures count == |days|
    {
      disks := disks[symbol := Stored(On(symbol), days, feed)];
      count := |days|;
    }

    /** A mark that is not given stays as it was. */
    method Mark(symbol: string, deepAt: Option<int>, tailAt: Option<int>)
      modifies this
      ensures OnlyAt(symbol) && On(symbol).rows == old(On(symbol)).rows
      ensures On(symbol).deepAt == if deepAt.Some? then deepAt else old(On(symbol)).deepAt
      ensures On(symbol).tailAt == if tailAt.Some? then tailAt else old(On(symbol)).tailAt
    {
      var d := On(symbol);
      disks := disks[symbol := Disk(d.rows, if deepAt.Some? then deepAt else d.deepAt,
                                            if tailAt.Some? then tailAt else d.tailAt)];
    }

    method ReadSpan(symbol: string) returns (s: Span)
      ensures s == SpanOf(On(symbol))
    {
      var d := On(symbol);
      var days := d.rows.Keys;
      if days == {} {
        s := Span(None, None, 0, d.deepAt, d.tailAt);
      } else {
        Extremes(days);
        var lo :| IsLeast(lo, days);
        var hi :| IsMost(hi, days);
        s := Span(Some(lo), Some(hi), |d.rows|, d.deepAt, d.tailAt);
      }
      SpanIsOne(d, s);
    }

    /** The keyless series is fetched whole, for the days before `lo`. */
    method FillHead(symbol: string, v: Visit, span: Span) returns (wrote: nat, ghost states: seq<Disk>)
      requires span == SpanOf(On(symbol)) && Plan(span, v.asset, v.planDay).head
      modifies this
      ensures states == HeadStates(old(On(symbol)), v) && wrote == |Older(v.keyless, span.lo)|
      ensures On(symbol) == Last(old(On(symbol)), states) && OnlyAt(symbol)
    {
      hide SpanIs;
      wrote, states := 0, [];
      var older := Older(v.keyless, span.lo);
      if older != [] {
        wrote := Store(symbol, older, Keyless);
        states := states + [On(symbol)];
      }
      if v.keyless != [] {
        assert On(symbol) == Stored(old(On(symbol)), older, Keyless);
        Mark(symbol, Some(v.now), None);
        states := states + [On(symbol)];
      }
    }

    /** `deep` is the keyless series if it was already fetched. */
    method FillTail(symbol: string, v: Visit, span: Span, tailFrom: Option<Day>, deep: Option<seq<Day>>)
        returns (wrote: nat, fetches: nat, ghost states: seq<Disk>)
      requires span == SpanOf(On(symbol)) && TailDue(On(symbol), tailFrom, v)
      requires deep.Some? ==> deep.value == v.keyless
      modifies this
      ensures states == TailStates(old(On(symbol)), tailFrom, v) && wrote == |Tail(old(On(symbol)), tailFrom, v).0|
      ensures fetches == if deep.None? && FromBroker(v, tailFrom) == [] then 1 else 0
      ensures On(symbol) == Last(old(On(symbol)), states) && OnlyAt(symbol)
    {
      hide SpanIs, FromBroker;
      wrote, fetches, states := 0, 0, [];
      var got, feed := FromBroker(v, tailFrom), Broker;
      if got == [] {
        var series := v.keyless;
        if deep.Some? {
          series := deep.value;
        } else {
          fetches := 1;
        }
        got, feed := Newer(series, span.hi), Keyless;
      }
      if got != [] {
        wrote := Store(symbol, got, feed);
        states := states + [On(symbol)];
      }
      assert On(symbol) == Stored(old(On(symbol)), got, feed);
      Mark(symbol, None, Some(v.now));
      states := states + [On(symbol)];
    }

    /** `fetches` counts the questions put to the keyless feed. */
    method Fill(symbol: string, v: Visit) returns (wrote: nat, fetches: nat, ghost states: seq<Disk>)
      modifies this
      ensures states == FillStates(old(On(symbol)), v) && wrote == Wrote(old(On(symbol)), v)
      ensures On(symbol) == Last(old(On(symbol)), states) && OnlyAt(symbol)
      ensures fetches <= 1
    {
      hide SpanIs, FromBroker, Plan, Fresh, HeadStates, TailStates, Tail;
      var span := ReadSpan(symbol);
      var todo := Plan(span, v.asset, v.planDay);
      var deep: Option<seq<Day>> := None;
      wrote, fetches, states := 0, 0, [];
      if todo.head {
        deep, fetches := Some(v.keyless), 1;
        wrote, states := FillHead(symbol, v, span);
        span := ReadSpan(symbol);
        todo := Plan(span, v.asset, DateAt(v.now));
      } else {
        NoHead(On(symbol), v);
      }
      if (todo.tailFrom.Some? || span.n == 0) && !Fresh(span, v.now) {
        var more, asked;
        ghost var after;
        more, asked, after := FillTail(symbol, v, span, todo.tailFrom, deep);
        wrote, fetches, states := wrote + more, fetches + asked, states + after;
      } else {
        NoTail(On(symbol), todo.tailFrom, v);
        assert states + [] == states;
      }
    }
  }

  lemma NoHead(d: Disk, v: Visit)
    requires !Plan(SpanOf(d), v.asset, v.planDay).head
    ensures HeadStates(d, v) == []
  {
  }

  lemma NoTail(d: Disk, tailFrom: Option<Day>, v: Visit)
    requires !TailDue(d, tailFrom, v)
    ensures TailStates(d, tailFrom, v) == []
  {
  }
}
