/** The claim table `data_cover`: what is known about each period, who may say
    "there is nothing here", and which periods are still worth asking about. */
module Coverage {
  import opened Common
  import opened Days

  datatype State = Have | Absent | Failed | Unknown

  datatype Provider = AlpacaIex | AlpacaSip | Onclick | OtherProvider(name: string)

  datatype Kind = Bars | Chain | OtherKind(name: string)

  datatype Series = Series(provider: Provider, kind: Kind, symbol: string, timeframe: string)

  datatype Key = Key(series: Series, day: Day)

  datatype Row = Row(state: State, rows: int, checkedAt: int, attempts: nat)

  type Table = map<Key, Row>

  /** One call of `mark`: the state asked for and the second it happened. */
  datatype Claim = Claim(key: Key, state: State, rows: int, at: int)

  const AUTHORITATIVE: map<Kind, set<Provider>> :=
    map[Bars := {AlpacaIex, AlpacaSip}, Chain := {AlpacaIex, AlpacaSip}]
  const EARNS_AUTHORITY: map<Kind, set<Provider>> := map[Chain := {Onclick}]
  const MAX_ATTEMPTS := 3
  const RETRY_COOLDOWN := 20 * 3600
  const DEFAULT_LIMIT := 5000

  predicate Settled(s: State) { s == Have || s == Absent }

  /** The series a call reads and writes: its symbol in capitals. */
  function Canon(s: Series): Series { s.(symbol := Upper(s.symbol)) }

  predicate Outright(s: Series) { s.kind in AUTHORITATIVE && s.provider in AUTHORITATIVE[s.kind] }

  predicate Earns(s: Series) { s.kind in EARNS_AUTHORITY && s.provider in EARNS_AUTHORITY[s.kind] }

  predicate Holds(t: Table, s: Series) { exists k :: k in t && k.series == s && t[k].state == Have }

  predicate MayClaimAbsent(t: Table, s: Series) { Outright(s) || (Earns(s) && Holds(t, s)) }

  predicate HasOlder(t: Table, s: Series, before: Day) {
    exists k :: k in t && k.series == s && t[k].state == Have && k.day < before
  }

  /** The state a mark stores: an unearned `Absent` is downgraded. */
  function Effective(t: Table, c: Claim): State {
    if c.state == Absent && !MayClaimAbsent(t, c.key.series) then Unknown else c.state
  }

  function Marked(t: Table, c: Claim): Table {
    var state := Effective(t, c);
    var before := if c.key in t then t[c.key].attempts else 0;
    t[c.key := Row(state, c.rows, c.at, if Settled(state) then 0 else before + 1)]
  }

  function MarkAll(t: Table, cs: seq<Claim>): Table {
    if cs == [] then t else Marked(MarkAll(t, cs[..|cs| - 1]), cs[|cs| - 1])
  }

  lemma {:induction false} MarkAllAppend(t: Table, a: seq<Claim>, b: seq<Claim>)
    ensures MarkAll(t, a + b) == MarkAll(MarkAll(t, a), b)
  {
    if b == [] {
      assert a + b == a;
    } else {
      assert (a + b)[..|a + b| - 1] == a + b[..|b| - 1];
      MarkAllAppend(t, a, b[..|b| - 1]);
    }
  }

  lemma MarkAllSnoc(t: Table, a: seq<Claim>, c: Claim)
    ensures MarkAll(t, a + [c]) == Marked(MarkAll(t, a), c)
  {
    assert (a + [c])[..|a + [c]| - 1] == a;
  }

  // ------------------------------------------------------------ resting
  /** A stored time as the text SQLite compares: date, separator, second of day. */
  datatype Text = Text(date: int, sep: char, second: int)

  predicate TextLess(a: Text, b: Text) {
    a.date < b.date
    || (a.date == b.date && (a.sep < b.sep || (a.sep == b.sep && a.second < b.second)))
  }

  /** `strftime('%Y-%m-%dT%H:%M:%SZ')` and `datetime(...)` differ in the separator. */
  function IsoText(t: int): Text { Text(t / 86400, 'T', t % 86400) }
  function SqlText(t: int): Text { Text(t / 86400, ' ', t % 86400) }

  /** `checked_at > datetime('now', '-span seconds')`. */
  predicate Recent(checkedAt: int, now: int, span: int) {
    TextLess(SqlText(now - span), IsoText(checkedAt))
  }

  /** What one call of `gaps` was given. */
  datatype Query = Query(start: Day, end: Day, limit: int, preferUntried: bool, cooldown: int,
                         newestFirst: bool, maxAttempts: int, now: int)

  /** The table does not rule the day out: not settled, not resting, not used up. */
  predicate Open(t: Table, s: Series, q: Query, d: Day) {
    var k := Key(s, d);
    k in t ==>
      && !Settled(t[k].state)
      && !(q.cooldown > 0 && Recent(t[k].checkedAt, q.now, q.cooldown))
      && !(q.maxAttempts > 0 && t[k].attempts >= q.maxAttempts
           && Recent(t[k].checkedAt, q.now, RETRY_COOLDOWN))
  }

  predicate HasFailed(t: Table, s: Series, d: Day) {
    Key(s, d) in t && t[Key(s, d)].state == Failed
  }

  function Candidates(t: Table, s: Series, q: Query): seq<Day> {
    var days := Keep(Weekdays(q.start, q.end), d => Open(t, s, q, d));
    if q.newestFirst then Reverse(days) else days
  }

  /** Days never asked about, or not failed, and then the failed ones. */
  function UntriedFirst(t: Table, s: Series, days: seq<Day>): seq<Day> {
    Keep(days, d => !HasFailed(t, s, d)) + Keep(days, d => HasFailed(t, s, d))
  }

  function Gaps(t: Table, s: Series, q: Query): seq<Day> {
    var out := Candidates(t, s, q);
    Slice(if q.preferUntried then UntriedFirst(t, s, out) else out, q.limit)
  }

  // ------------------------------------------------------------ the table
  class Ledger {
    var table: Table
    ghost var history: seq<Claim>

    constructor ()
      ensures table == map[] && history == []
    {
      table := map[];
      history := [];
    }

    /** The table is what its recorded marks produce from empty. */
    ghost predicate Valid() reads this { table == MarkAll(map[], history) }

    method Mark(series: Series, day: Day, state: State, rows: int, at: int)
      modifies this
      ensures table == Marked(old(table), Claim(Key(Canon(series), day), state, rows, at))
      ensures history == old(history) + [Claim(Key(Canon(series), day), state, rows, at)]
      ensures old(Valid()) ==> Valid()
    {
      var key := Key(Canon(series), day);
      var stored := state;
      if state == Absent && !MayClaimAbsent(table, key.series) {
        stored := Unknown;
      }
      var attempts := 0;
      if !Settled(stored) {
        attempts := if key in table then table[key].attempts + 1 else 1;
      }
      table := table[key := Row(stored, rows, at, attempts)];
      history := history + [Claim(key, state, rows, at)];
      assert history[..|history| - 1] == old(history);
    }

    method StateOf(series: Series, day: Day) returns (state: State)
      ensures state == if Key(Canon(series), day) in table
                       then table[Key(Canon(series), day)].state else Unknown
    {
      var key := Key(Canon(series), day);
      state := if key in table then table[key].state else Unknown;
    }

    /** The three queries of `gaps`: days that are settled, resting or used up. */
    method ShutDays(s: Series, q: Query) returns (shut: set<Day>)
      ensures forall d :: q.start <= d <= q.end ==> (d in shut <==> !Open(table, s, q, d))
    {
      shut := DaysWhere(table, s, q, (r: Row) => Settled(r.state));
      if q.cooldown > 0 {
        shut := shut + DaysWhere(table, s, q, (r: Row) => Recent(r.checkedAt, q.now, q.cooldown));
      }
      if q.maxAttempts > 0 {
        shut := shut + DaysWhere(table, s, q, (r: Row) =>
          r.attempts >= q.maxAttempts && Recent(r.checkedAt, q.now, RETRY_COOLDOWN));
      }
    }

    method FindGaps(series: Series, q: Query) returns (out: seq<Day>)
      ensures out == Gaps(table, Canon(series), q)
    {
      var s, t := Canon(series), table;
      var shut := ShutDays(s, q);
      var days := TradingDays(q.start, q.end);
      out := Keep(days, d => d !in shut);
      KeepSame(days, d => d !in shut, d => Open(t, s, q, d));
      if q.newestFirst {
        out := Reverse(out);
      }
      assert out == Candidates(t, s, q);
      if q.preferUntried {
        var failed := DaysWhere(t, s, q, (r: Row) => r.state == Failed);
        InRange(t, s, q);
        KeepSame(out, d => d !in failed, d => !HasFailed(t, s, d));
        KeepSame(out, d => d in failed, d => HasFailed(t, s, d));
        out := Keep(out, d => d !in failed) + Keep(out, d => d in failed);
      }
      out := Slice(out, q.limit);
    }

    /** Every stored session day of `days` becomes `Have`; returns how many were marked. */
    method ReconcileDays(series: Series, days: seq<Option<Day>>, at: int) returns (n: nat)
      modifies this
      ensures history == old(history) + HaveClaims(Canon(series), days, at)
      ensures table == MarkAll(old(table), HaveClaims(Canon(series), days, at))
      ensures n == |days| - multiset(days)[None]
      ensures forall k: Key :: k.series == Canon(series) && Some(k.day) in days ==>
                k in table && table[k] == Row(Have, 1, at, 0)
      ensures forall k: Key :: !(k.series == Canon(series) && Some(k.day) in days) ==>
                (k in table <==> k in old(table)) && (k in table ==> table[k] == old(table)[k])
      ensures old(Valid()) ==> Valid()
    {
      n := 0;
      for i := 0 to |days|
        invariant history == old(history) + HaveClaims(Canon(series), days[..i], at)
        invariant table == MarkAll(old(table), HaveClaims(Canon(series), days[..i], at))
        invariant n == |HaveClaims(Canon(series), days[..i], at)|
      {
        assert days[..i + 1][..i] == days[..i];
        if days[i].Some? {
          ghost var done := HaveClaims(Canon(series), days[..i], at);
          Mark(series, days[i].value, Have, 1, at);
          MarkAllSnoc(old(table), done, Claim(Key(Canon(series), days[i].value), Have, 1, at));
          assert HaveClaims(Canon(series), days[..i + 1], at)
              == done + [Claim(Key(Canon(series), days[i].value), Have, 1, at)];
          n := n + 1;
        }
      }
      assert days[..|days|] == days;
      HaveClaimsCount(Canon(series), days, at);
      forall k: Key
        ensures k.series == Canon(series) && Some(k.day) in days ==> k in table && table[k] == Row(Have, 1, at, 0)
        ensures !(k.series == Canon(series) && Some(k.day) in days) ==>
          (k in table <==> k in old(table)) && (k in table ==> table[k] == old(table)[k])
      {
        HaveClaimsMeaning(old(table), Canon(series), days, at, k);
      }
      MarkAllAppend(map[], old(history), HaveClaims(Canon(series), days, at));
    }

    /** One answered day: `Have` if it came back, else what its provider may say. */
    method MarkDay(series: Series, d: Day, got: set<Day>, at: int) returns (claim: State)
      modifies this
      ensures claim == DayClaim(Canon(series), d, got, at).state
      ensures table == Marked(old(table), DayClaim(Canon(series), d, got, at))
      ensures history == old(history) + [DayClaim(Canon(series), d, got, at)]
    {
      if d in got {
        claim := Have;
        Mark(series, d, Have, 1, at);
      } else {
        claim := if Outright(series) then Absent else Unknown;
        Mark(series, d, claim, 0, at);
      }
    }

    /** One fetch reconciled: every asked day is `Have`, or what its provider may say. */
    method RecordBarDays(series: Series, asked: seq<Day>, got: set<Day>, at: int)
      returns (have: nat, absent: nat, unknown: nat)
      requires series.kind == Bars
      modifies this
      ensures var claims := FetchClaims(Canon(series), asked, got, at);
              && history == old(history) + claims
              && table == MarkAll(old(table), claims)
              && have == Count(claims, Have)
              && absent == Count(claims, Absent)
              && unknown == Count(claims, Unknown)
      ensures old(Valid()) ==> Valid()
    {
      have, absent, unknown := 0, 0, 0;
      ghost var claims: seq<Claim> := [];
      for i := 0 to |asked|
        invariant claims == FetchClaims(Canon(series), asked[..i], got, at)
        invariant history == old(history) + claims
        invariant table == MarkAll(old(table), claims)
        invariant have == Count(claims, Have)
        invariant absent == Count(claims, Absent)
        invariant unknown == Count(claims, Unknown)
      {
        MarkAllSnoc(old(table), claims, DayClaim(Canon(series), asked[i], got, at));
        var claim := MarkDay(series, asked[i], got, at);
        match claim {
          case Have => have := have + 1;
          case Absent => absent := absent + 1;
          case _ => unknown := unknown + 1;
        }
        CountSnoc(claims, DayClaim(Canon(series), asked[i], got, at));
        claims := claims + [DayClaim(Canon(series), asked[i], got, at)];
      }
      assert asked[..|asked|] == asked;
      MarkAllAppend(map[], old(history), claims);
    }
  }

  /** How many of the claims ask for one state. */
  function Count(cs: seq<Claim>, s: State): nat {
    if cs == [] then 0
    else Count(cs[..|cs| - 1], s) + if cs[|cs| - 1].state == s then 1 else 0
  }

  lemma CountSnoc(cs: seq<Claim>, c: Claim)
    ensures forall s :: Count(cs + [c], s) == Count(cs, s) + if c.state == s then 1 else 0
  {
    assert (cs + [c])[..|cs + [c]| - 1] == cs;
  }

  /** The days of one series, in the asked range, whose row satisfies `f`. */
  function DaysWhere(t: Table, s: Series, q: Query, f: Row -> bool): (r: set<Day>)
    ensures forall d :: d in r <==> q.start <= d <= q.end && Key(s, d) in t && f(t[Key(s, d)])
  {
    var r := set k | k in t && k.series == s && q.start <= k.day <= q.end && f(t[k]) :: k.day;
    assert forall d :: q.start <= d <= q.end && Key(s, d) in t && f(t[Key(s, d)]) ==> Key(s, d).day in r;
    r
  }

  lemma InRange(t: Table, s: Series, q: Query)
    ensures forall d :: d in Candidates(t, s, q) <==>
                        q.start <= d <= q.end && Weekday(d) && Open(t, s, q, d)
  {
    var days := Keep(Weekdays(q.start, q.end), d => Open(t, s, q, d));
    WeekdaysExact(q.start, q.end);
    forall d ensures d in Reverse(days) <==> d in days {
      ReverseMember(days, d);
    }
  }

  /** The marks of `reconcile_bars` and `reconcile_chain`: a blank day is skipped. */
  function HaveClaims(s: Series, days: seq<Option<Day>>, at: int): seq<Claim> {
    if days == [] then []
    else
      var d := days[|days| - 1];
      var before := HaveClaims(s, days[..|days| - 1], at);
      if d.Some? then before + [Claim(Key(s, d.value), Have, 1, at)] else before
  }

  lemma {:induction false} HaveClaimsCount(s: Series, days: seq<Option<Day>>, at: int)
    ensures |HaveClaims(s, days, at)| == |days| - multiset(days)[None]
  {
    if days != [] {
      var front, last := days[..|days| - 1], days[|days| - 1];
      assert days == front + [last];
      HaveClaimsCount(s, front, at);
    }
  }

  /** Each named day of the series is held from then on, whatever its row was, and no other row changes. */
  lemma {:induction false} HaveClaimsMeaning(t: Table, s: Series, days: seq<Option<Day>>, at: int, k: Key)
    ensures var after := MarkAll(t, HaveClaims(s, days, at));
            && (k.series == s && Some(k.day) in days ==> k in after && after[k] == Row(Have, 1, at, 0))
            && (!(k.series == s && Some(k.day) in days) ==>
                  (k in after <==> k in t) && (k in after ==> after[k] == t[k]))
  {
    if days != [] {
      var front, last := days[..|days| - 1], days[|days| - 1];
      assert days == front + [last];
      HaveClaimsMeaning(t, s, front, at, k);
      if last.Some? {
        MarkAllSnoc(t, HaveClaims(s, front, at), Claim(Key(s, last.value), Have, 1, at));
      }
    }
  }

  /** What one answered day claims: data, a permitted absence, or nothing known. */
  function DayClaim(s: Series, d: Day, got: set<Day>, at: int): Claim {
    if d in got then Claim(Key(s, d), Have, 1, at)
    else Claim(Key(s, d), if Outright(s) then Absent else Unknown, 0, at)
  }

  function FetchClaims(s: Series, days: seq<Day>, got: set<Day>, at: int): seq<Claim> {
    seq(|days|, i requires 0 <= i < |days| => DayClaim(s, days[i], got, at))
  }
}
