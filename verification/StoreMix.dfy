/** Syncs and imports in any order on one store: the last writer of a contract has the say. */
module StoreMix {
  import opened Common
  import opened OptStore
  import opened SyncFacts

  datatype Event = Sync(visit: Visit) | Import(underlying: string, rows: seq<ChainRow>, source: string)

  /** The store as a value: the table of quotes, the watermark, the ids of the sources. */
  datatype Books = Books(opt: Opt, lastTs: nat, sources: map<string, nat>)

  const NO_BOOKS := Books(map[], 0, map[])

  /** What one event writes, one map per transaction of a sync, one for a whole file. */
  function Writes(b: Books, inbox: seq<Snap>, e: Event): seq<Opt> {
    match e
    case Sync(v) =>
      var sid, days := WithSource(b.sources, RECORDED)[RECORDED], VisitDays(inbox, b.lastTs, v);
      seq(|days|, i requires 0 <= i < |days| => Content(days[i], sid))
    case Import(underlying, rows, source) =>
      if Importable(rows, underlying) then [FileMap(rows, WithSource(b.sources, source)[source])] else []
  }

  function Overlay(o: Opt, writes: seq<Opt>): Opt {
    if writes == [] then o else Overlay(o, writes[..|writes| - 1]) + writes[|writes| - 1]
  }

  function After(b: Books, inbox: seq<Snap>, e: Event): Books {
    match e
    case Sync(v) =>
      var sources, days := WithSource(b.sources, RECORDED), VisitDays(inbox, b.lastTs, v);
      Books(WriteDays(b.opt, days, sources[RECORDED]), Watermark(b.lastTs, days), sources)
    case Import(underlying, rows, source) =>
      var sources := WithSource(b.sources, source);
      Books(if Importable(rows, underlying) then Upsert(b.opt, Entries(rows, sources[source])) else b.opt, b.lastTs,
            sources)
  }

  function AfterAll(b: Books, inbox: seq<Snap>, es: seq<Event>): Books {
    if es == [] then b else After(AfterAll(b, inbox, es[..|es| - 1]), inbox, es[|es| - 1])
  }

  function AllWrites(b: Books, inbox: seq<Snap>, es: seq<Event>): seq<Opt> {
    if es == [] then []
    else
      var front := es[..|es| - 1];
      AllWrites(b, inbox, front) + Writes(AfterAll(b, inbox, front), inbox, es[|es| - 1])
  }

  lemma {:induction false} OverlayAppend(o: Opt, a: seq<Opt>, b: seq<Opt>)
    ensures Overlay(o, a + b) == Overlay(Overlay(o, a), b)
    decreases |b|
  {
    if b == [] {
      assert a + b == a;
    } else {
      OverlayAppend(o, a, b[..|b| - 1]);
      assert (a + b)[..|a + b| - 1] == a + b[..|b| - 1];
    }
  }

  lemma {:induction false} DaysOverlay(o: Opt, days: seq<DaySnap>, sid: nat)
    ensures WriteDays(o, days, sid) == Overlay(o, seq(|days|, i requires 0 <= i < |days| => Content(days[i], sid)))
  {
    hide Upsert, RowsOf, InHours;
    var writes := seq(|days|, i requires 0 <= i < |days| => Content(days[i], sid));
    if days != [] {
      var front, s := days[..|days| - 1], days[|days| - 1];
      DaysOverlay(o, front, sid);
      assert writes[..|days| - 1] == seq(|front|, i requires 0 <= i < |front| => Content(front[i], sid));
      UpsertIsOverride(WriteDays(o, front, sid), RowsOf(s, s.quotes, sid));
    }
  }

  /** The table after one event is the table before, overlaid with what the event writes. */
  lemma EventOverlays(b: Books, inbox: seq<Snap>, e: Event)
    ensures After(b, inbox, e).opt == Overlay(b.opt, Writes(b, inbox, e))
  {
    hide Upsert, Entries, VisitDays, WriteDays, Importable, InHours, Content, Overlay;
    match e {
      case Sync(v) => DaysOverlay(b.opt, VisitDays(inbox, b.lastTs, v), WithSource(b.sources, RECORDED)[RECORDED]);
      case Import(underlying, rows, source) =>
        var sid := WithSource(b.sources, source)[source];
        UpsertIsOverride(b.opt, Entries(rows, sid));
        OverlayOne(b.opt, FileMap(rows, sid));
    }
  }

  lemma OverlayOne(o: Opt, m: Opt)
    ensures Overlay(o, [m]) == o + m && Overlay(o, []) == o
  {
    assert [m][..|[m]| - 1] == [];
  }

  lemma {:induction false} MixOverlays(b: Books, inbox: seq<Snap>, es: seq<Event>)
    ensures AfterAll(b, inbox, es).opt == Overlay(b.opt, AllWrites(b, inbox, es))
  {
    hide After, Writes;
    if es != [] {
      var front := es[..|es| - 1];
      MixOverlays(b, inbox, front);
      EventOverlays(AfterAll(b, inbox, front), inbox, es[|es| - 1]);
      OverlayAppend(b.opt, AllWrites(b, inbox, front), Writes(AfterAll(b, inbox, front), inbox, es[|es| - 1]));
    }
  }

  /** The last of the writes that lists the contract. */
  ghost predicate LastLists(writes: seq<Opt>, i: int, k: OptKey) {
    0 <= i < |writes| && k in writes[i] && forall j :: i < j < |writes| ==> k !in writes[j]
  }

  lemma {:induction false} OverlayFromWriter(o: Opt, writes: seq<Opt>, i: int, k: OptKey)
    requires LastLists(writes, i, k)
    ensures k in Overlay(o, writes) && Overlay(o, writes)[k] == writes[i][k]
    decreases |writes|
  {
    var front := writes[..|writes| - 1];
    if i < |front| {
      assert forall j :: i <= j < |front| ==> front[j] == writes[j];
      OverlayFromWriter(o, front, i, k);
    }
  }

  lemma {:induction false} OverlayFromNone(o: Opt, writes: seq<Opt>, k: OptKey)
    requires forall i :: 0 <= i < |writes| ==> k !in writes[i]
    ensures (k in Overlay(o, writes) <==> k in o) && (k in o ==> Overlay(o, writes)[k] == o[k])
  {
    if writes != [] {
      OverlayFromNone(o, writes[..|writes| - 1], k);
    }
  }

  /**
   * After any mix of syncs and imports, on any store, each row is that of the last transaction or file that listed
   * its contract, and a contract that none listed is as it was.
   */
  lemma LastWriterWins(b: Books, inbox: seq<Snap>, es: seq<Event>, k: OptKey)
    ensures var o, writes := AfterAll(b, inbox, es).opt, AllWrites(b, inbox, es);
            && (forall i :: LastLists(writes, i, k) ==> k in o && o[k] == writes[i][k])
            && ((forall i :: 0 <= i < |writes| ==> k !in writes[i]) ==>
                  (k in o <==> k in b.opt) && (k in b.opt ==> o[k] == b.opt[k]))
  {
    hide AfterAll, AllWrites, Overlay;
    var writes := AllWrites(b, inbox, es);
    MixOverlays(b, inbox, es);
    forall i | LastLists(writes, i, k)
      ensures k in Overlay(b.opt, writes) && Overlay(b.opt, writes)[k] == writes[i][k]
    {
      OverlayFromWriter(b.opt, writes, i, k);
    }
    if forall i :: 0 <= i < |writes| ==> k !in writes[i] {
      OverlayFromNone(b.opt, writes, k);
    }
  }

  /** No two sources share an id. */
  ghost predicate SourcesApart(m: map<string, nat>) {
    && (forall a :: a in m ==> 1 <= m[a] <= |m|)
    && (forall a, b :: a in m && b in m && a != b ==> m[a] != m[b])
  }

  lemma OneMoreSource(m: map<string, nat>, src: string)
    requires SourcesApart(m)
    ensures SourcesApart(WithSource(m, src)) && src in WithSource(m, src)
    ensures forall a :: a in m ==> a in WithSource(m, src) && WithSource(m, src)[a] == m[a]
  {
    if src !in m {
      assert WithSource(m, src).Keys == m.Keys + {src};
    }
  }

  /** A row's source id names one source, for good, whatever is synced and imported. */
  lemma {:induction false} SourcesStayApart(inbox: seq<Snap>, es: seq<Event>)
    ensures SourcesApart(AfterAll(NO_BOOKS, inbox, es).sources)
  {
    hide VisitDays, WriteDays, Upsert, Entries, InHours, Importable, SourcesApart;
    if es == [] {
      assert SourcesApart(map[]) by { NoSources(); }
    } else {
      SourcesStayApart(inbox, es[..|es| - 1]);
      var b, e := AfterAll(NO_BOOKS, inbox, es[..|es| - 1]), es[|es| - 1];
      OneMoreSource(b.sources, if e.Sync? then RECORDED else e.source);
    }
  }

  lemma NoSources()
    ensures SourcesApart(map[])
  {
  }

  /** The syncs of a mix. */
  function Visits(es: seq<Event>): seq<Visit> {
    if es == [] then []
    else
      var before := Visits(es[..|es| - 1]);
      match es[|es| - 1]
      case Sync(v) => before + [v]
      case Import(_, _, _) => before
  }

  /** Imports leave the syncs alone: the watermark is that of the visits without them. */
  lemma {:induction false} ImportsLeaveSyncs(inbox: seq<Snap>, es: seq<Event>)
    ensures AfterAll(NO_BOOKS, inbox, es).lastTs == Watermark(0, Written(inbox, Visits(es)))
  {
    hide VisitDays, WriteDays, InHours, Upsert, Entries;
    if es != [] {
      ImportsLeaveSyncs(inbox, es[..|es| - 1]);
      if es[|es| - 1].Sync? {
        var before, v := Visits(es[..|es| - 1]), es[|es| - 1].visit;
        assert (before + [v])[..|before|] == before;
      }
    }
  }

  /** Any mix, run on the store itself. */
  method RunMix(inbox: seq<Snap>, es: seq<Event>) returns (store: Store)
    requires InOrder(inbox)
    ensures fresh(store) && store.Valid()
    ensures Books(store.opt, store.lastTs, store.sources) == AfterAll(NO_BOOKS, inbox, es)
  {
    hide InHours, InOrder, OnlySessions, Content, WriteDays, Upsert, Entries, Importable, DayList, ImportStates;
    store := new Store();
    for i := 0 to |es|
      invariant fresh(store) && store.Valid()
      invariant Books(store.opt, store.lastTs, store.sources) == AfterAll(NO_BOOKS, inbox, es[..i])
    {
      assert es[..i + 1][..i] == es[..i];
      match es[i] {
        case Sync(v) =>
          var n := Min(v.seen, |inbox|);
          PrefixInOrder(inbox, n);
          var days, contracts := store.Sync(inbox[..n], v.budget);
        case Import(underlying, rows, source) =>
          var r, order, states := store.ImportChain(underlying, rows, source);
      }
    }
    assert es[..|es|] == es;
  }
}
