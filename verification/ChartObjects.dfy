/** Chart documents: the strict reader, its inverse, and the table of one document per user and chart. */
module ChartObjects {
  import opened Common
  import opened ChartItems

  const DOC_VERSION := 1
  const MAX_KEY := 120
  const MAX_PER_KIND := 500
  const MAX_LEGS := 12
  const MAX_DOC_BYTES := 256 * 1024

  datatype Doc = Doc(drawings: seq<Drawing>, measures: seq<Measure>, pins: seq<Pin>, constraints: seq<Constraint>,
                     legs: seq<Leg>, preset: Option<string>)

  const EMPTY_DOC := Doc([], [], [], [], [], None)

  /** What the reader asks of its libraries: is this text a date, and how long is this document as text. */
  datatype Env = Env(isDate: string -> bool, size: Json -> nat)

  // ------------------------------------------------------------ lists of objects
  function Ids<T>(xs: seq<T>, idOf: T -> string): seq<string> { seq(|xs|, i requires 0 <= i < |xs| => idOf(xs[i])) }

  function Seen(ids: seq<string>): set<string> { set i | 0 <= i < |ids| :: ids[i] }

  /** Reads a list while no id repeats, here or in `seen`. */
  function ReadList<T>(items: seq<Json>, read: Json -> Result<T>, idOf: T -> string, seen: set<string>):
    Result<seq<T>>
  {
    if items == [] then Ok([])
    else
      var before :- ReadList(items[..|items| - 1], read, idOf, seen);
      var x :- read(items[|items| - 1]);
      if idOf(x) in seen + Seen(Ids(before, idOf)) then Err else Ok(before + [x])
  }

  /** Ids that are new: none twice, none in `seen`. */
  ghost predicate NewIds(ids: seq<string>, seen: set<string>) {
    Distinct(ids) && forall i :: 0 <= i < |ids| ==> ids[i] !in seen
  }

  ghost predicate ReadsAs<T(!new)>(items: seq<Json>, read: Json -> Result<T>, xs: seq<T>) {
    |xs| == |items| && forall i :: 0 <= i < |items| ==> read(items[i]) == Ok(xs[i])
  }

  lemma IdsSnoc<T>(xs: seq<T>, x: T, idOf: T -> string)
    ensures Ids(xs + [x], idOf) == Ids(xs, idOf) + [idOf(x)]
  {
  }

  lemma NewIdsSnoc(ids: seq<string>, id: string, seen: set<string>)
    ensures NewIds(ids + [id], seen) <==> NewIds(ids, seen) && id !in seen + Seen(ids)
  {
    var more := ids + [id];
    if NewIds(more, seen) {
      assert more[|ids|] == id;
      assert forall i :: 0 <= i < |ids| ==> more[i] == ids[i];
    }
    if id in Seen(ids) {
      var i :| 0 <= i < |ids| && ids[i] == id;
      assert more[i] == more[|ids|];
    }
  }

  /** Reading a list succeeds with `xs` exactly when each item reads as its element and all ids are new. */
  lemma {:induction false} ReadListExact<T(!new)>(items: seq<Json>, read: Json -> Result<T>, idOf: T -> string,
                                                  seen: set<string>, xs: seq<T>)
    ensures ReadList(items, read, idOf, seen) == Ok(xs) <==> ReadsAs(items, read, xs) && NewIds(Ids(xs, idOf), seen)
    decreases items
  {
    hide NewIds, Seen, Ids;
    if items == [] {
      assert xs == [] ==> NewIds(Ids(xs, idOf), seen) by { NoIds<T>(idOf, seen); }
    } else if xs == [] {
      assert ReadList(items, read, idOf, seen) != Ok(xs);
    } else {
      var front, last := xs[..|xs| - 1], xs[|xs| - 1];
      assert xs == front + [last];
      ReadListExact(items[..|items| - 1], read, idOf, seen, front);
      IdsSnoc(front, last, idOf);
      NewIdsSnoc(Ids(front, idOf), idOf(last), seen);
      ReadsAsSnoc(items, read, front, last);
      var before := ReadList(items[..|items| - 1], read, idOf, seen);
      if ReadList(items, read, idOf, seen) == Ok(xs) {
        assert before.Ok? && before.value + [read(items[|items| - 1]).value] == front + [last];
        assert before.value == front;
      }
    }
  }

  lemma NoIds<T>(idOf: T -> string, seen: set<string>)
    ensures NewIds(Ids<T>([], idOf), seen)
  {
  }

  lemma ReadsAsSnoc<T(!new)>(items: seq<Json>, read: Json -> Result<T>, front: seq<T>, last: T)
    requires items != []
    ensures ReadsAs(items, read, front + [last]) <==>
      ReadsAs(items[..|items| - 1], read, front) && read(items[|items| - 1]) == Ok(last)
  {
    var xs := front + [last];
    if ReadsAs(items, read, xs) {
      assert forall i :: 0 <= i < |front| ==> items[..|items| - 1][i] == items[i] && xs[i] == front[i];
    }
  }

  method ReadItems<T>(items: seq<Json>, read: Json -> Result<T>, idOf: T -> string, seen: set<string>)
      returns (r: Result<seq<T>>, after: set<string>)
    ensures r == ReadList(items, read, idOf, seen)
    ensures r.Ok? ==> after == seen + Seen(Ids(r.value, idOf))
  {
    var out: seq<T> := [];
    after := seen;
    for i := 0 to |items|
      invariant ReadList(items[..i], read, idOf, seen) == Ok(out)
      invariant after == seen + Seen(Ids(out, idOf))
    {
      assert items[..i + 1][..i] == items[..i];
      var x := read(items[i]);
      if x.Err? || idOf(x.value) in after {
        ErrStays(items, i, read, idOf, seen);
        return Err, after;
      }
      IdsSnoc(out, x.value, idOf);
      SeenSnoc(Ids(out, idOf), idOf(x.value));
      out, after := out + [x.value], after + {idOf(x.value)};
    }
    assert items[..|items|] == items;
    r := Ok(out);
  }

  lemma SeenSnoc(ids: seq<string>, id: string)
    ensures Seen(ids + [id]) == Seen(ids) + {id}
  {
    var more := ids + [id];
    assert more[|ids|] == id && forall i :: 0 <= i < |ids| ==> more[i] == ids[i];
    forall s | s in Seen(ids) + {id} ensures s in Seen(more) {
      if s != id {
        var i :| 0 <= i < |ids| && ids[i] == s;
        assert more[i] == s;
      }
    }
  }

  /** A list that fails somewhere fails. */
  lemma {:induction false} ErrStays<T>(items: seq<Json>, i: nat, read: Json -> Result<T>, idOf: T -> string,
                                       seen: set<string>)
    requires i < |items| && ReadList(items[..i + 1], read, idOf, seen).Err?
    ensures ReadList(items, read, idOf, seen).Err?
    decreases |items|
  {
    if i == |items| - 1 {
      assert items[..i + 1] == items;
    } else {
      assert items[..|items| - 1][..i + 1] == items[..i + 1];
      ErrStays(items[..|items| - 1], i, read, idOf, seen);
    }
  }

  // ------------------------------------------------------------ the document
  function Items(f: Fields, k: Key): Result<seq<Json>> {
    var items := Get(f, k);
    if items.JNull? then Ok([])
    else if !items.JArr? || |items.items| > MAX_PER_KIND then Err
    else Ok(items.items)
  }

  predicate PresetChar(c: char) { 'a' <= c <= 'z' || '0' <= c <= '9' || c == '_' || c == '-' }

  predicate PresetOk(s: string) { 1 <= |s| <= 32 && forall i :: 0 <= i < |s| ==> PresetChar(s[i]) }

  /** The view is never refused: what is not a preset is dropped. */
  function ReadPreset(v: Json): Option<string> {
    if !v.JObj? then None
    else
      var p := Get(v.fields, Preset);
      if p.JStr? && PresetOk(p.s) then Some(p.s) else None
  }

  function IdOfDrawing(d: Drawing): string { d.id }

  function IdOfMeasure(m: Measure): string { m.id }

  function IdOfPin(p: Pin): string { p.id }

  function IdOfConstraint(c: Constraint): string { c.id }

  function IdOfLeg(l: Leg): string { l.id }

  function Known(drawings: seq<Drawing>): set<string> { Seen(Ids(drawings, IdOfDrawing)) }

  function WriteList<T>(xs: seq<T>, write: T -> Json): seq<Json> { seq(|xs|, i requires 0 <= i < |xs| => write(xs[i])) }

  /** The stored form. */
  function DocRecord(d: Doc): Fields {
    var base: Fields :=
      map[Version := JInt(DOC_VERSION),
          Drawings := JArr(WriteList(d.drawings, WriteDrawing)),
          Measures := JArr(WriteList(d.measures, WriteMeasure)),
          Pins := JArr(WriteList(d.pins, WritePin)),
          Constraints := JArr(WriteList(d.constraints, WriteConstraint)),
          Legs := JArr(WriteList(d.legs, WriteLeg))];
    if d.preset.Some? then base[View := JObj(map[Preset := JStr(d.preset.value)])] else base
  }

  function WriteDoc(d: Doc): Json { JObj(DocRecord(d)) }

  function Validate(doc: Json, env: Env): Result<Doc> {
    if !doc.JObj? then Err
    else
      var f := doc.fields;
      var di :- Items(f, Drawings);
      var drawings :- ReadList(di, ReadDrawing, IdOfDrawing, {});
      var s1 := Seen(Ids(drawings, IdOfDrawing));
      var mi :- Items(f, Measures);
      var measures :- ReadList(mi, ReadMeasure, IdOfMeasure, s1);
      var s2 := s1 + Seen(Ids(measures, IdOfMeasure));
      var pi :- Items(f, Pins);
      var pins :- ReadList(pi, ReadPin, IdOfPin, s2);
      var s3 := s2 + Seen(Ids(pins, IdOfPin));
      var ci :- Items(f, Constraints);
      var constraints :- ReadList(ci, c => ReadConstraint(c, s1), IdOfConstraint, s3);
      var s4 := s3 + Seen(Ids(constraints, IdOfConstraint));
      var li :- Items(f, Legs);
      if |li| > MAX_LEGS then Err
      else
        var legs :- ReadList(li, l => ReadLeg(l, env.isDate), IdOfLeg, s4);
        var clean := Doc(drawings, measures, pins, constraints, legs, ReadPreset(Get(f, View)));
        if env.size(WriteDoc(clean)) > MAX_DOC_BYTES then Err else Ok(clean)
  }

  /** What every accepted document is. */
  ghost predicate Good(d: Doc, env: Env) {
    && |d.drawings| <= MAX_PER_KIND && |d.measures| <= MAX_PER_KIND && |d.pins| <= MAX_PER_KIND
    && |d.constraints| <= MAX_PER_KIND && |d.legs| <= MAX_LEGS
    && GoodItems(d, env) && NewEverywhere(d)
    && (d.preset.Some? ==> PresetOk(d.preset.value))
    && env.size(WriteDoc(d)) <= MAX_DOC_BYTES
  }

  /** Each object is well formed, and a constraint names drawings of the same document. */
  ghost predicate GoodItems(d: Doc, env: Env) {
    && (forall i :: 0 <= i < |d.drawings| ==> GoodDrawing(d.drawings[i]))
    && (forall i :: 0 <= i < |d.measures| ==> GoodMeasure(d.measures[i]))
    && (forall i :: 0 <= i < |d.pins| ==> GoodPin(d.pins[i]))
    && (forall i :: 0 <= i < |d.constraints| ==> GoodConstraint(d.constraints[i], Known(d.drawings)))
    && (forall i :: 0 <= i < |d.legs| ==> GoodLeg(d.legs[i], env.isDate))
  }

  ghost predicate NewEverywhere(d: Doc) {
    var s1 := Seen(Ids(d.drawings, IdOfDrawing));
    var s2 := s1 + Seen(Ids(d.measures, IdOfMeasure));
    var s3 := s2 + Seen(Ids(d.pins, IdOfPin));
    var s4 := s3 + Seen(Ids(d.constraints, IdOfConstraint));
    && NewIds(Ids(d.drawings, IdOfDrawing), {}) && NewIds(Ids(d.measures, IdOfMeasure), s1)
    && NewIds(Ids(d.pins, IdOfPin), s2)
    && NewIds(Ids(d.constraints, IdOfConstraint), s3) && NewIds(Ids(d.legs, IdOfLeg), s4)
  }

  method ValidateDoc(doc: Json, env: Env) returns (r: Result<Doc>)
    ensures r == Validate(doc, env)
  {
    hide ReadDrawing, ReadMeasure, ReadPin, ReadConstraint, ReadLeg, ReadList, ReadPreset, WriteDoc, Items;
    hide Seen, Ids, DocRecord;
    if !doc.JObj? {
      return Err;
    }
    var f := doc.fields;
    var di :- Items(f, Drawings);
    var drawings, s1 := ReadItems(di, ReadDrawing, IdOfDrawing, {});
    if drawings.Err? {
      return Err;
    }
    assert s1 == Seen(Ids(drawings.value, IdOfDrawing));
    var mi :- Items(f, Measures);
    var measures, s2 := ReadItems(mi, ReadMeasure, IdOfMeasure, s1);
    if measures.Err? {
      return Err;
    }
    var pi :- Items(f, Pins);
    var pins, s3 := ReadItems(pi, ReadPin, IdOfPin, s2);
    if pins.Err? {
      return Err;
    }
    var ci :- Items(f, Constraints);
    var constraints, s4 := ReadItems(ci, c => ReadConstraint(c, s1), IdOfConstraint, s3);
    if constraints.Err? {
      return Err;
    }
    var li :- Items(f, Legs);
    if |li| > MAX_LEGS {
      return Err;
    }
    var legs, s5 := ReadItems(li, l => ReadLeg(l, env.isDate), IdOfLeg, s4);
    if legs.Err? {
      return Err;
    }
    var preset := ReadPreset(Get(f, View));
    var clean := Doc(drawings.value, measures.value, pins.value, constraints.value, legs.value, preset);
    if env.size(WriteDoc(clean)) > MAX_DOC_BYTES {
      return Err;
    }
    r := Ok(clean);
  }
}
