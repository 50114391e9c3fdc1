/** Reader and writer undo each other, ids are unique, and the table gives back what was put. */
module ChartFacts {
  import opened Common
  import opened ChartItems
  import opened ChartObjects

  // ------------------------------------------------------------ what is accepted
  lemma DrawingsAreGood(items: seq<Json>, xs: seq<Drawing>)
    requires ReadsAs(items, ReadDrawing, xs)
    ensures forall i :: 0 <= i < |xs| ==> GoodDrawing(xs[i])
  {
    hide ReadDrawing, GoodDrawing;
    forall i | 0 <= i < |xs| ensures GoodDrawing(xs[i]) {
      ReadDrawingIsGood(items[i]);
      assert ReadDrawing(items[i]) == Ok(xs[i]);
    }
  }

  lemma MeasuresAreGood(items: seq<Json>, xs: seq<Measure>)
    requires ReadsAs(items, ReadMeasure, xs)
    ensures forall i :: 0 <= i < |xs| ==> GoodMeasure(xs[i])
  {
    hide ReadMeasure, GoodMeasure;
    forall i | 0 <= i < |xs| ensures GoodMeasure(xs[i]) {
      ReadMeasureIsGood(items[i]);
      assert ReadMeasure(items[i]) == Ok(xs[i]);
    }
  }

  lemma PinsAreGood(items: seq<Json>, xs: seq<Pin>)
    requires ReadsAs(items, ReadPin, xs)
    ensures forall i :: 0 <= i < |xs| ==> GoodPin(xs[i])
  {
    forall i | 0 <= i < |xs| ensures GoodPin(xs[i]) {
      assert ReadPin(items[i]) == Ok(xs[i]);
    }
  }

  lemma ConstraintsAreGood(items: seq<Json>, xs: seq<Constraint>, known: set<string>)
    requires ReadsAs(items, c => ReadConstraint(c, known), xs)
    ensures forall i :: 0 <= i < |xs| ==> GoodConstraint(xs[i], known)
  {
    hide ReadConstraint, GoodConstraint;
    forall i | 0 <= i < |xs| ensures GoodConstraint(xs[i], known) {
      ReadConstraintIsGood(items[i], known);
      assert ReadConstraint(items[i], known) == Ok(xs[i]);
    }
  }

  lemma LegsAreGood(items: seq<Json>, xs: seq<Leg>, isDate: string -> bool)
    requires ReadsAs(items, l => ReadLeg(l, isDate), xs)
    ensures forall i :: 0 <= i < |xs| ==> GoodLeg(xs[i], isDate)
  {
    hide ReadLeg, GoodLeg;
    forall i | 0 <= i < |xs| ensures GoodLeg(xs[i], isDate) {
      ReadLegIsGood(items[i], isDate);
      assert ReadLeg(items[i], isDate) == Ok(xs[i]);
    }
  }

  /** Whatever is accepted is well formed throughout. */
  lemma AcceptedIsGood(doc: Json, env: Env)
    requires Validate(doc, env).Ok?
    ensures Good(Validate(doc, env).value, env)
  {
    hide ReadDrawing, ReadMeasure, ReadPin, ReadConstraint, ReadLeg, ReadList, WriteDoc, Seen, Ids, ReadsAs, NewIds;
    hide GoodDrawing, GoodMeasure, GoodPin, GoodConstraint, GoodLeg, PresetOk, DocRecord;
    var d, f := Validate(doc, env).value, doc.fields;
    var s1 := Seen(Ids(d.drawings, IdOfDrawing));
    var s2 := s1 + Seen(Ids(d.measures, IdOfMeasure));
    var s3 := s2 + Seen(Ids(d.pins, IdOfPin));
    var s4 := s3 + Seen(Ids(d.constraints, IdOfConstraint));
    var di, mi, pi := Items(f, Drawings).value, Items(f, Measures).value, Items(f, Pins).value;
    var ci, li := Items(f, Constraints).value, Items(f, Legs).value;
    ReadListExact(di, ReadDrawing, IdOfDrawing, {}, d.drawings);
    ReadListExact(mi, ReadMeasure, IdOfMeasure, s1, d.measures);
    ReadListExact(pi, ReadPin, IdOfPin, s2, d.pins);
    ReadListExact(ci, c => ReadConstraint(c, s1), IdOfConstraint, s3, d.constraints);
    ReadListExact(li, l => ReadLeg(l, env.isDate), IdOfLeg, s4, d.legs);
    DrawingsAreGood(di, d.drawings);
    MeasuresAreGood(mi, d.measures);
    PinsAreGood(pi, d.pins);
    ConstraintsAreGood(ci, d.constraints, s1);
    LegsAreGood(li, d.legs, env.isDate);
    SameLengths(di, d.drawings, ReadDrawing);
    SameLengths(mi, d.measures, ReadMeasure);
    SameLengths(pi, d.pins, ReadPin);
    SameLengths(ci, d.constraints, c => ReadConstraint(c, s1));
    SameLengths(li, d.legs, l => ReadLeg(l, env.isDate));
  }

  lemma SameLengths<T(!new)>(items: seq<Json>, xs: seq<T>, read: Json -> Result<T>)
    requires ReadsAs(items, read, xs)
    ensures |items| == |xs|
  {
  }

  // ------------------------------------------------------------ reading back
  lemma ListReadsBack<T(!new)>(xs: seq<T>, write: T -> Json, read: Json -> Result<T>)
    requires forall i :: 0 <= i < |xs| ==> read(write(xs[i])) == Ok(xs[i])
    ensures ReadsAs(WriteList(xs, write), read, xs)
  {
  }

  lemma FieldsOf(d: Doc)
    ensures var f := DocRecord(d);
            && Get(f, Drawings) == JArr(WriteList(d.drawings, WriteDrawing))
            && Get(f, Measures) == JArr(WriteList(d.measures, WriteMeasure))
            && Get(f, Pins) == JArr(WriteList(d.pins, WritePin))
            && Get(f, Constraints) == JArr(WriteList(d.constraints, WriteConstraint))
            && Get(f, Legs) == JArr(WriteList(d.legs, WriteLeg)) && Get(f, Version) == JInt(1)
            && Get(f, View) == if d.preset.Some? then JObj(map[Preset := JStr(d.preset.value)]) else JNull
  {
    hide WriteList;
  }

  lemma PresetReadsBack(d: Doc)
    requires d.preset.Some? ==> PresetOk(d.preset.value)
    ensures ReadPreset(Get(DocRecord(d), View)) == d.preset
  {
    hide DocRecord, PresetOk;
    FieldsOf(d);
  }

  lemma ItemsOf<T>(f: Fields, k: Key, xs: seq<T>, write: T -> Json)
    requires Get(f, k) == JArr(WriteList(xs, write)) && |xs| <= MAX_PER_KIND
    ensures Items(f, k) == Ok(WriteList(xs, write)) && |WriteList(xs, write)| == |xs|
  {
    hide Get;
  }

  lemma DrawingsReadBack(xs: seq<Drawing>)
    requires forall i :: 0 <= i < |xs| ==> GoodDrawing(xs[i])
    ensures ReadsAs(WriteList(xs, WriteDrawing), ReadDrawing, xs)
  {
    hide ReadDrawing, GoodDrawing, WriteDrawing, WriteList, ReadsAs;
    forall i | 0 <= i < |xs| ensures ReadDrawing(WriteDrawing(xs[i])) == Ok(xs[i]) { DrawingReadsBack(xs[i]); }
    ListReadsBack(xs, WriteDrawing, ReadDrawing);
  }

  lemma MeasuresReadBack(xs: seq<Measure>)
    requires forall i :: 0 <= i < |xs| ==> GoodMeasure(xs[i])
    ensures ReadsAs(WriteList(xs, WriteMeasure), ReadMeasure, xs)
  {
    hide ReadMeasure, GoodMeasure, WriteMeasure, WriteList, ReadsAs;
    forall i | 0 <= i < |xs| ensures ReadMeasure(WriteMeasure(xs[i])) == Ok(xs[i]) { MeasureReadsBack(xs[i]); }
    ListReadsBack(xs, WriteMeasure, ReadMeasure);
  }

  lemma PinsReadBack(xs: seq<Pin>)
    requires forall i :: 0 <= i < |xs| ==> GoodPin(xs[i])
    ensures ReadsAs(WriteList(xs, WritePin), ReadPin, xs)
  {
    hide WriteList, ReadsAs;
    forall i | 0 <= i < |xs| ensures ReadPin(WritePin(xs[i])) == Ok(xs[i]) {
      assert GoodPin(xs[i]);
    }
    ListReadsBack(xs, WritePin, ReadPin);
  }

  lemma ConstraintsReadBack(xs: seq<Constraint>, known: set<string>)
    requires forall i :: 0 <= i < |xs| ==> GoodConstraint(xs[i], known)
    ensures ReadsAs(WriteList(xs, WriteConstraint), c => ReadConstraint(c, known), xs)
  {
    hide ReadConstraint, GoodConstraint, WriteConstraint, WriteList, ReadsAs;
    var read := c => ReadConstraint(c, known);
    forall i | 0 <= i < |xs| ensures read(WriteConstraint(xs[i])) == Ok(xs[i]) { ConstraintReadsBack(xs[i], known); }
    ListReadsBack(xs, WriteConstraint, read);
  }

  lemma LegsReadBack(xs: seq<Leg>, isDate: string -> bool)
    requires forall i :: 0 <= i < |xs| ==> GoodLeg(xs[i], isDate)
    ensures ReadsAs(WriteList(xs, WriteLeg), l => ReadLeg(l, isDate), xs)
  {
    hide ReadLeg, GoodLeg, WriteLeg, WriteList, ReadsAs;
    var read := l => ReadLeg(l, isDate);
    forall i | 0 <= i < |xs| ensures read(WriteLeg(xs[i])) == Ok(xs[i]) { LegReadsBack(xs[i], isDate); }
    ListReadsBack(xs, WriteLeg, read);
  }

  /** A well-formed document is read back from its stored form unchanged. */
  lemma GoodReadsBack(d: Doc, env: Env)
    requires Good(d, env)
    ensures Validate(WriteDoc(d), env) == Ok(d)
  {
    hide ReadDrawing, ReadMeasure, ReadPin, ReadConstraint, ReadLeg, ReadList, Seen, Ids, ReadsAs, NewIds;
    hide WriteList, Items;
    hide GoodDrawing, GoodMeasure, GoodPin, GoodConstraint, GoodLeg, PresetOk, DocRecord, ReadPreset;
    var f := DocRecord(d);
    var s1 := Seen(Ids(d.drawings, IdOfDrawing));
    var s2 := s1 + Seen(Ids(d.measures, IdOfMeasure));
    var s3 := s2 + Seen(Ids(d.pins, IdOfPin));
    var s4 := s3 + Seen(Ids(d.constraints, IdOfConstraint));
    FieldsOf(d);
    PresetReadsBack(d);
    ItemsOf(f, Drawings, d.drawings, WriteDrawing);
    ItemsOf(f, Measures, d.measures, WriteMeasure);
    ItemsOf(f, Pins, d.pins, WritePin);
    ItemsOf(f, Constraints, d.constraints, WriteConstraint);
    ItemsOf(f, Legs, d.legs, WriteLeg);
    DrawingsReadBack(d.drawings);
    MeasuresReadBack(d.measures);
    PinsReadBack(d.pins);
    ConstraintsReadBack(d.constraints, s1);
    LegsReadBack(d.legs, env.isDate);
    ReadListExact(WriteList(d.drawings, WriteDrawing), ReadDrawing, IdOfDrawing, {}, d.drawings);
    ReadListExact(WriteList(d.measures, WriteMeasure), ReadMeasure, IdOfMeasure, s1, d.measures);
    ReadListExact(WriteList(d.pins, WritePin), ReadPin, IdOfPin, s2, d.pins);
    var written := WriteList(d.constraints, WriteConstraint);
    ReadListExact(written, c => ReadConstraint(c, s1), IdOfConstraint, s3, d.constraints);
    ReadListExact(WriteList(d.legs, WriteLeg), l => ReadLeg(l, env.isDate), IdOfLeg, s4, d.legs);
  }

  /** Validating an accepted document again changes nothing, and every well-formed document is accepted as itself. */
  lemma NormalForm(doc: Json, d: Doc, env: Env)
    ensures Validate(doc, env) == Ok(d) ==> Validate(WriteDoc(d), env) == Ok(d)
    ensures Good(d, env) <==> exists j :: Validate(j, env) == Ok(d)
  {
    hide Validate, Good, WriteDoc;
    if Validate(doc, env) == Ok(d) {
      AcceptedIsGood(doc, env);
      GoodReadsBack(d, env);
    }
    if Good(d, env) {
      GoodReadsBack(d, env);
    }
    if j :| Validate(j, env) == Ok(d) {
      AcceptedIsGood(j, env);
    }
  }

  predicate DocKey(k: Key) {
    k.Drawings? || k.Measures? || k.Pins? || k.Constraints? || k.Legs? || k.View?
  }

  /** A missing key and a null are the same, and so are documents that differ in other keys, the version among them. */
  lemma OnlyDocKeysMatter(f: Fields, g: Fields, env: Env)
    requires forall k :: DocKey(k) ==> Get(f, k) == Get(g, k)
    ensures Validate(JObj(f), env) == Validate(JObj(g), env)
  {
    hide Get, Items, ReadList, ReadDrawing, ReadMeasure, ReadPin, ReadConstraint, ReadLeg, ReadPreset, WriteDoc;
    hide Ids, Seen;
    SameItems(f, g, Drawings);
    SameItems(f, g, Measures);
    SameItems(f, g, Pins);
    SameItems(f, g, Constraints);
    SameItems(f, g, Legs);
    assert DocKey(View);
  }

  lemma SameItems(f: Fields, g: Fields, k: Key)
    requires forall k :: DocKey(k) ==> Get(f, k) == Get(g, k)
    ensures DocKey(k) ==> Items(f, k) == Items(g, k)
  {
    hide Get;
  }

  // ------------------------------------------------------------ ids and references
  function AllIds(d: Doc): seq<string> {
    Ids(d.drawings, IdOfDrawing) + Ids(d.measures, IdOfMeasure) + Ids(d.pins, IdOfPin)
    + Ids(d.constraints, IdOfConstraint) + Ids(d.legs, IdOfLeg)
  }

  lemma NewAfter(a: seq<string>, b: seq<string>)
    requires Distinct(a) && NewIds(b, Seen(a))
    ensures Distinct(a + b) && Seen(a + b) == Seen(a) + Seen(b)
  {
    var ab := a + b;
    assert forall i :: 0 <= i < |a| ==> ab[i] == a[i] && a[i] in Seen(a);
    assert forall i :: 0 <= i < |b| ==> ab[|a| + i] == b[i];
    forall i, j | 0 <= i < j < |ab| ensures ab[i] != ab[j] {
      assert i >= |a| ==> ab[i] == b[i - |a|];
      assert j >= |a| ==> ab[j] == b[j - |a|];
    }
    forall s | s in Seen(ab) ensures s in Seen(a) + Seen(b) {
      var i :| 0 <= i < |ab| && ab[i] == s;
      assert i >= |a| ==> b[i - |a|] == s;
    }
    forall s | s in Seen(b) ensures s in Seen(ab) {
      var i :| 0 <= i < |b| && b[i] == s;
      assert ab[|a| + i] == s;
    }
  }

  /** No id occurs twice in an accepted document, across all five collections. */
  lemma IdsAreUnique(doc: Json, env: Env)
    requires Validate(doc, env).Ok?
    ensures Distinct(AllIds(Validate(doc, env).value))
  {
    hide Validate, Ids, Seen, NewIds, GoodItems, WriteDoc, PresetOk, Distinct;
    AcceptedIsGood(doc, env);
    var d := Validate(doc, env).value;
    var a, b, c := Ids(d.drawings, IdOfDrawing), Ids(d.measures, IdOfMeasure), Ids(d.pins, IdOfPin);
    var e, g := Ids(d.constraints, IdOfConstraint), Ids(d.legs, IdOfLeg);
    OwnIds(a);
    NewAfter(a, b);
    NewAfter(a + b, c);
    NewAfter(a + b + c, e);
    NewAfter(a + b + c + e, g);
  }

  lemma OwnIds(ids: seq<string>)
    ensures NewIds(ids, {}) ==> Distinct(ids)
  {
  }

  lemma KnownDrawing(drawings: seq<Drawing>, id: string)
    requires id in Known(drawings)
    ensures exists n :: 0 <= n < |drawings| && drawings[n].id == id
  {
    var n :| 0 <= n < |Ids(drawings, IdOfDrawing)| && Ids(drawings, IdOfDrawing)[n] == id;
    assert IdOfDrawing(drawings[n]) == id;
  }

  /** Every reference of a constraint names a drawing that is there: without drawings there are no constraints. */
  lemma NoDanglingReference(doc: Json, env: Env, i: nat)
    requires Validate(doc, env).Ok? && i < |Validate(doc, env).value.constraints|
    ensures var d := Validate(doc, env).value;
            var c := d.constraints[i];
            && (exists n :: 0 <= n < |d.drawings| && d.drawings[n].id == c.a.id)
            && (c.On? ==> c.b.id != c.a.id && exists n :: 0 <= n < |d.drawings| && d.drawings[n].id == c.b.id)
  {
    hide Validate, Known, NewEverywhere, PresetOk, WriteDoc;
    AcceptedIsGood(doc, env);
    var d := Validate(doc, env).value;
    assert GoodConstraint(d.constraints[i], Known(d.drawings));
    KnownDrawing(d.drawings, d.constraints[i].a.id);
    if d.constraints[i].On? {
      KnownDrawing(d.drawings, d.constraints[i].b.id);
    }
  }

  // ------------------------------------------------------------ the table
  datatype RowKey = RowKey(user: int, key: string)

  predicate KeyOk(key: string) { 1 <= |key| <= MAX_KEY }

  /** The view does not count: a document with nothing but a view is empty. */
  predicate IsEmpty(d: Doc) {
    d.drawings == [] && d.measures == [] && d.pins == [] && d.constraints == [] && d.legs == []
  }

  /** Python's `== 1`. */
  predicate IsCurrent(v: Json) { v == JInt(DOC_VERSION) || v == JReal(1.0) || v == JBool(true) }

  /** No row, or an object; on any other JSON the code calls `.get` and raises an error that it does not catch. */
  predicate Showable(rows: map<RowKey, Json>, k: RowKey) { k in rows ==> rows[k].JObj? }

  /** What is read for a key; a missing, outdated or unreadable row reads as the empty document. */
  function Shown(rows: map<RowKey, Json>, k: RowKey, env: Env): Doc
    requires Showable(rows, k)
  {
    if k !in rows || !IsCurrent(Get(rows[k].fields, Version)) then EMPTY_DOC
    else
      var r := Validate(rows[k], env);
      if r.Ok? then r.value else EMPTY_DOC
  }

  datatype Answer = Raised | BadKey | Got(doc: Doc)

  class ChartTable {
    var rows: map<RowKey, Json>
    const env: Env

    /** The rows the table writes itself are objects, so reading them never raises. */
    ghost predicate Valid() reads this { forall k :: k in rows ==> Showable(rows, k) }

    constructor (env: Env)
      ensures Valid() && rows == map[] && this.env == env
    {
      rows, this.env := map[], env;
    }

    method GetDoc(user: int, key: string) returns (r: Answer)
      ensures r.BadKey? <==> !(1 <= |key| <= 120)
      ensures r.Raised? <==> KeyOk(key) && !Showable(rows, RowKey(user, key))
      ensures r.Got? ==> r.doc == Shown(rows, RowKey(user, key), env)
    {
      hide Validate;
      if !KeyOk(key) {
        return BadKey;
      }
      var k := RowKey(user, key);
      if k !in rows {
        return Got(EMPTY_DOC);
      }
      if !rows[k].JObj? {
        return Raised;
      }
      if !IsCurrent(Get(rows[k].fields, Version)) {
        return Got(EMPTY_DOC);
      }
      var d := ValidateDoc(rows[k], env);
      r := Got(if d.Ok? then d.value else EMPTY_DOC);
    }

    method PutDoc(user: int, key: string, doc: Json) returns (r: Result<Doc>)
      modifies this
      ensures old(Valid()) ==> Valid()
      ensures r == if KeyOk(key) then Validate(doc, env) else Err
      ensures r.Err? ==> rows == old(rows)
      ensures r.Ok? ==>
        var k := RowKey(user, key);
        rows == if IsEmpty(r.value) then old(rows) - {k} else old(rows)[k := WriteDoc(r.value)]
    {
      hide Validate, DocRecord;
      if !KeyOk(key) {
        return Err;
      }
      r := ValidateDoc(doc, env);
      if r.Ok? {
        var k := RowKey(user, key);
        rows := if IsEmpty(r.value) then rows - {k} else rows[k := WriteDoc(r.value)];
      }
    }
  }

  /** The rows after putting an accepted document. */
  function AfterPut(rows: map<RowKey, Json>, k: RowKey, d: Doc): map<RowKey, Json> {
    if IsEmpty(d) then rows - {k} else rows[k := WriteDoc(d)]
  }

  /** What was put is what is got, unless it was a view alone; and no other chart changes. */
  lemma PutThenGet(rows: map<RowKey, Json>, k: RowKey, doc: Json, env: Env, other: RowKey)
    requires Validate(doc, env).Ok?
    ensures var d := Validate(doc, env).value;
            && Showable(AfterPut(rows, k, d), k)
            && (Shown(AfterPut(rows, k, d), k, env) == d <==> !IsEmpty(d) || d.preset.None?)
            && (other != k ==> (Showable(AfterPut(rows, k, d), other) <==> Showable(rows, other)))
            && (other != k && Showable(rows, other) ==>
                  Shown(AfterPut(rows, k, d), other, env) == Shown(rows, other, env))
  {
    hide Validate, DocRecord, Good;
    AcceptedIsGood(doc, env);
    var d := Validate(doc, env).value;
    GoodReadsBack(d, env);
    FieldsOf(d);
  }

  /** A row that reads as nothing: another generation, unreadable, or empty already. */
  predicate ReadsAsNothing(row: Json, env: Env)
    requires row.JObj?
  {
    !IsCurrent(Get(row.fields, Version)) || Validate(row, env).Err? || IsEmpty(Validate(row, env).value)
  }

  /**
   * What is got is the document stored under the current version, which Python's `== 1` also finds in 1.0 and in true,
   * or else the blank one. Putting it back is accepted and shows the same drawings again. That removes the row that was
   * there exactly when the row reads as nothing, so also when it is outdated or unreadable; and no other chart changes.
   */
  lemma GetThenPut(rows: map<RowKey, Json>, k: RowKey, env: Env, other: RowKey)
    requires Showable(rows, k) && env.size(WriteDoc(EMPTY_DOC)) <= MAX_DOC_BYTES
    ensures var d := Shown(rows, k, env);
            && Validate(WriteDoc(d), env) == Ok(d) && Showable(AfterPut(rows, k, d), k)
            && (Shown(AfterPut(rows, k, d), k, env) == d <==> !IsEmpty(d) || d.preset.None?)
            && (k in rows ==> (k !in AfterPut(rows, k, d) <==> ReadsAsNothing(rows[k], env)))
            && (d == if k in rows && Get(rows[k].fields, Version) in {JInt(1), JReal(1.0), JBool(true)}
                        && Validate(rows[k], env).Ok?
                     then Validate(rows[k], env).value
                     else Doc([], [], [], [], [], None))
            && (other != k ==> (Showable(AfterPut(rows, k, d), other) <==> Showable(rows, other)))
            && (other != k && Showable(rows, other) ==>
                  Shown(AfterPut(rows, k, d), other, env) == Shown(rows, other, env))
  {
    hide Validate, DocRecord, Good;
    var d := Shown(rows, k, env);
    if k in rows && Validate(rows[k], env).Ok? {
      AcceptedIsGood(rows[k], env);
    }
    EmptyIsGood(env);
    GoodReadsBack(d, env);
    PutThenGet(rows, k, WriteDoc(d), env, other);
  }

  lemma EmptyIsGood(env: Env)
    requires env.size(WriteDoc(EMPTY_DOC)) <= MAX_DOC_BYTES
    ensures Good(EMPTY_DOC, env)
  {
  }

  /** A row that the table wrote itself is never removed by putting back what it shows. */
  lemma OwnRowsStay(rows: map<RowKey, Json>, k: RowKey, doc: Json, env: Env)
    requires Validate(doc, env).Ok? && !IsEmpty(Validate(doc, env).value)
    requires k in rows && rows[k] == WriteDoc(Validate(doc, env).value)
    ensures Showable(rows, k) && AfterPut(rows, k, Shown(rows, k, env)) == rows
  {
    hide Validate, DocRecord, Good;
    AcceptedIsGood(doc, env);
    GoodReadsBack(Validate(doc, env).value, env);
    FieldsOf(Validate(doc, env).value);
  }
}
