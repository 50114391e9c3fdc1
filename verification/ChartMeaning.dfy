/** What an accepted document has to do with the JSON that was sent, told on the JSON itself. */
module ChartMeaning {
  import opened Common
  import opened ChartItems
  import opened ChartObjects
  import opened ChartFacts

  // ------------------------------------------------------------ values
  predicate SaysNum(v: Json, x: real) { (v.JInt? && v.n as real == x) || (v.JReal? && v.x == x) }

  /** A whole number of seconds, sent as an integer or not. */
  predicate SaysTime(v: Json, t: int) { SaysNum(v, t as real) }

  predicate SaysText(v: Json, s: string) { v == JStr(s) }

  /** Off is false, null or nothing at all. */
  predicate SaysFlag(v: Json, on: bool) { if on then v == JBool(true) else v == JBool(false) || v == JNull }

  predicate SaysDrawKind(v: Json, k: DrawKind) {
    match k
    case Trend => v == JStr("trend")
    case HLine => v == JStr("hline")
    case VLine => v == JStr("vline")
    case Circle => v == JStr("circle")
  }

  predicate SaysAxis(v: Json, a: AxisName) { if a == TimeAxis then v == JStr("time") else v == JStr("price") }

  predicate SaysPart(v: Json, p: Part) {
    match p
    case WholeLine => v == JStr("line")
    case EndA => v == JStr("a")
    case EndB => v == JStr("b")
  }

  lemma NumExactly(v: Json, x: real)
    ensures ReadNum(v) == Ok(x) <==> SaysNum(v, x)
  {
  }

  lemma TimeExactly(v: Json, t: int)
    ensures ReadTime(v) == Ok(t) <==> SaysTime(v, t) && t > 0
  {
  }

  lemma FlagExactly(v: Json, on: bool)
    ensures ReadFlag(v) == Ok(on) <==> SaysFlag(v, on)
  {
  }

  lemma IdExactly(v: Json, s: string)
    ensures ReadId(v) == Ok(s) <==> SaysText(v, s) && 1 <= |s| <= 64
  {
  }

  lemma DrawKindExactly(v: Json, k: DrawKind)
    ensures ReadDrawKind(v) == Ok(k) <==> SaysDrawKind(v, k)
  {
    WordsReadBack(k, TimeAxis, EndA, Long, PutRight);
  }

  lemma AxisExactly(v: Json, a: AxisName)
    ensures ReadAxis(v) == Ok(a) <==> SaysAxis(v, a)
  {
    WordsReadBack(Trend, a, EndA, Long, PutRight);
  }

  lemma PartExactly(v: Json, p: Part)
    ensures ReadPart(v) == Ok(p) <==> SaysPart(v, p)
  {
    WordsReadBack(Trend, TimeAxis, p, Long, PutRight);
  }

  // ------------------------------------------------------------ objects
  predicate SaysPoint(v: Json, p: Point) {
    v.JObj? && SaysTime(Get(v.fields, Time), p.time) && SaysNum(Get(v.fields, Price), p.price)
  }

  predicate SaysDrawing(v: Json, d: Drawing) {
    && v.JObj? && SaysText(Get(v.fields, Id), d.id) && SaysDrawKind(Get(v.fields, Kind), d.kind)
    && SaysFlag(Get(v.fields, LegOwned), d.legOwned)
    && var points := Get(v.fields, Points);
       points.JArr? && |points.items| == |d.points|
       && forall i :: 0 <= i < |d.points| ==> SaysPoint(points.items[i], d.points[i])
  }

  predicate SaysAnchor(v: Json, a: Anchor) {
    && v.JObj? && SaysTime(Get(v.fields, Time), a.time)
    && match a
       case Candle(_) => SaysText(Get(v.fields, Kind), "candle")
       case Free(_, price) => SaysText(Get(v.fields, Kind), "free") && SaysNum(Get(v.fields, Price), price)
       case OnLine(drawingId, u, _, price) =>
         && SaysText(Get(v.fields, Kind), "line") && SaysText(Get(v.fields, DrawingId), drawingId)
         && SaysNum(Get(v.fields, U), u) && SaysNum(Get(v.fields, Price), price)
  }

  predicate SaysPlace(v: Json, p: Option<Placement>) {
    match p
    case None => v == JNull
    case Some(AtTime(t)) => v.JObj? && SaysAxis(Get(v.fields, Axis), TimeAxis) && SaysTime(Get(v.fields, At), t)
    case Some(AtPrice(x)) => v.JObj? && SaysAxis(Get(v.fields, Axis), PriceAxis) && SaysNum(Get(v.fields, At), x)
  }

  predicate SaysMeasure(v: Json, m: Measure) {
    && v.JObj? && SaysText(Get(v.fields, Id), m.id) && SaysAnchor(Get(v.fields, A), m.a)
    && SaysAnchor(Get(v.fields, B), m.b) && SaysPlace(Get(v.fields, Place), m.place)
  }

  predicate SaysPin(v: Json, p: Pin) {
    v.JObj? && SaysText(Get(v.fields, Id), p.id) && SaysTime(Get(v.fields, Time), p.time)
  }

  predicate SaysRef(v: Json, r: Ref) {
    && v.JObj? && SaysText(Get(v.fields, Id), r.id) && SaysPart(Get(v.fields, PartOf), r.part)
    && var axis := Get(v.fields, Axis); if r.axis.Some? then SaysAxis(axis, r.axis.value) else axis == JNull
  }

  predicate SaysConstraint(v: Json, c: Constraint) {
    && v.JObj? && SaysText(Get(v.fields, Id), c.id) && SaysRef(Get(v.fields, A), c.a)
    && match c
       case Lock(_, _) =>
         SaysText(Get(v.fields, Kind), "lock") && Get(v.fields, B) == JNull && Get(v.fields, Value) == JNull
       case On(_, _, b) =>
         SaysText(Get(v.fields, Kind), "on") && SaysRef(Get(v.fields, B), b) && Get(v.fields, Value) == JNull
       case Slope(_, _, value) =>
         SaysText(Get(v.fields, Kind), "slope") && Get(v.fields, B) == JNull && SaysNum(Get(v.fields, Value), value)
  }

  /** Each optional text is null or missing when the leg has none, and the text it has otherwise. */
  predicate SaysTags(f: Fields, tags: map<Key, string>) {
    forall k :: k in LEG_TAGS ==> if k in tags then SaysText(Get(f, k), tags[k]) else Get(f, k) == JNull
  }

  predicate SaysLeg(v: Json, l: Leg) {
    && v.JObj? && SaysText(Get(v.fields, Id), l.id)
    && SaysText(Get(v.fields, Side), if l.side == Long then "long" else "short")
    && SaysText(Get(v.fields, RightOf), if l.right == PutRight then "P" else "C")
    && SaysText(Get(v.fields, Expiration), l.expiration) && SaysNum(Get(v.fields, Strike), l.strike)
    && SaysNum(Get(v.fields, DteTol), l.dteTol) && SaysNum(Get(v.fields, StrikeTol), l.strikeTol)
    && Get(v.fields, Slot) == JInt(l.slot) && SaysTags(v.fields, l.tags) && SaysFlag(Get(v.fields, Hidden), l.hidden)
  }

  // ------------------------------------------------------------ each reader, exactly
  lemma PointExactly(v: Json, p: Point)
    ensures ReadPoint(v) == Ok(p) <==> SaysPoint(v, p) && p.time > 0
  {
    hide ReadNum, ReadTime, SaysNum, SaysTime, Get;
    if v.JObj? {
      TimeExactly(Get(v.fields, Time), p.time);
      NumExactly(Get(v.fields, Price), p.price);
    }
  }

  ghost predicate SayPoints(items: seq<Json>, points: seq<Point>) {
    |items| == |points| && forall i :: 0 <= i < |points| ==> SaysPoint(items[i], points[i]) && points[i].time > 0
  }

  lemma SayPointsSnoc(items: seq<Json>, front: seq<Point>, last: Point)
    requires items != []
    ensures SayPoints(items, front + [last]) <==>
      SayPoints(items[..|items| - 1], front) && SaysPoint(items[|items| - 1], last) && last.time > 0
  {
    hide SaysPoint;
    var points := front + [last];
    if SayPoints(items, points) {
      assert forall i :: 0 <= i < |front| ==> points[i] == front[i];
      assert points[|front|] == last;
    }
  }

  lemma {:induction false} PointsExactly(items: seq<Json>, points: seq<Point>)
    ensures ReadPoints(items) == Ok(points) <==> SayPoints(items, points)
    decreases |items|
  {
    hide ReadPoint, SaysPoint;
    if items == [] {
    } else if points != [] {
      var front, last := points[..|points| - 1], points[|points| - 1];
      assert points == front + [last];
      PointsExactly(items[..|items| - 1], front);
      PointExactly(items[|items| - 1], last);
      SayPointsSnoc(items, front, last);
      var before := ReadPoints(items[..|items| - 1]);
      if ReadPoints(items) == Ok(points) {
        assert before.value + [ReadPoint(items[|items| - 1]).value] == front + [last];
        assert before.value == front;
      }
    }
  }

  lemma DrawingExactly(v: Json, d: Drawing)
    ensures ReadDrawing(v) == Ok(d) <==> SaysDrawing(v, d) && GoodDrawing(d)
  {
    hide ReadDrawKind, ReadFlag, ReadPoints, ReadId, SaysPoint, SaysFlag, SaysDrawKind, SaysText, Get;
    if v.JObj? {
      DrawKindExactly(Get(v.fields, Kind), d.kind);
      IdExactly(Get(v.fields, Id), d.id);
      FlagExactly(Get(v.fields, LegOwned), d.legOwned);
      if Get(v.fields, Points).JArr? {
        PointsExactly(Get(v.fields, Points).items, d.points);
      }
    }
  }

  lemma AnchorExactly(v: Json, a: Anchor)
    ensures ReadAnchor(v) == Ok(a) <==> SaysAnchor(v, a) && GoodAnchor(a)
  {
    hide ReadNum, ReadTime, ReadId, SaysNum, SaysTime, Get, ShortText;
    assert ShortText("x") by { ShortExactly("x"); }
    assert "candle"[0] == 'c' && "free"[0] == 'f' && "line"[0] == 'l';
    if v.JObj? {
      var f := v.fields;
      TimeExactly(Get(f, Time), a.time);
      if !a.Candle? {
        NumExactly(Get(f, Price), a.price);
      }
      if a.OnLine? {
        IdExactly(Get(f, DrawingId), a.drawingId);
        ShortExactly(a.drawingId);
        NumExactly(Get(f, U), a.u);
      }
    }
  }

  lemma ShortExactly(s: string)
    ensures ShortText(s) <==> 1 <= |s| <= 64
  {
  }

  lemma PlaceExactly(v: Json, p: Option<Placement>)
    ensures ReadPlace(v) == Ok(p) <==> SaysPlace(v, p) && (p.Some? && p.value.AtTime? ==> p.value.time > 0)
  {
    hide ReadNum, ReadTime, SaysNum, SaysTime, Get, ReadAxis, SaysAxis;
    if v.JObj? && p.Some? {
      var axis, at := Get(v.fields, Axis), Get(v.fields, At);
      AxisExactly(axis, TimeAxis);
      AxisExactly(axis, PriceAxis);
      match p.value {
        case AtTime(t) => TimeExactly(at, t);
        case AtPrice(x) => NumExactly(at, x);
      }
    }
  }

  lemma MeasureExactly(v: Json, m: Measure)
    ensures ReadMeasure(v) == Ok(m) <==> SaysMeasure(v, m) && GoodMeasure(m)
  {
    hide ReadId, ReadAnchor, ReadPlace, SaysAnchor, SaysPlace, GoodAnchor, Get, ShortText;
    if v.JObj? {
      IdExactly(Get(v.fields, Id), m.id);
      ShortExactly(m.id);
      AnchorExactly(Get(v.fields, A), m.a);
      AnchorExactly(Get(v.fields, B), m.b);
      PlaceExactly(Get(v.fields, Place), m.place);
    }
  }

  lemma PinExactly(v: Json, p: Pin)
    ensures ReadPin(v) == Ok(p) <==> SaysPin(v, p) && GoodPin(p)
  {
    hide ReadId, ReadTime, SaysTime, Get, ShortText;
    if v.JObj? {
      IdExactly(Get(v.fields, Id), p.id);
      ShortExactly(p.id);
      TimeExactly(Get(v.fields, Time), p.time);
    }
  }

  lemma RefExactly(v: Json, r: Ref, known: set<string>)
    ensures ReadRef(v, known) == Ok(r) <==> SaysRef(v, r) && r.id in known
  {
    hide ReadPart, ReadAxis, SaysPart, SaysAxis, Get;
    if v.JObj? {
      PartExactly(Get(v.fields, PartOf), r.part);
      AxisNotNull(r.axis);
      if r.axis.Some? {
        AxisExactly(Get(v.fields, Axis), r.axis.value);
      }
    }
  }

  lemma AxisNotNull(a: Option<AxisName>)
    ensures a.Some? ==> !SaysAxis(JNull, a.value)
  {
  }

  lemma ConstraintExactly(v: Json, c: Constraint, known: set<string>)
    ensures ReadConstraint(v, known) == Ok(c) <==> SaysConstraint(v, c) && GoodConstraint(c, known)
  {
    hide ReadRef, SaysRef, ReadNum, SaysNum, ReadId, Get, ShortText;
    assert "lock"[0] == 'l' && "on"[0] == 'o' && "slope"[0] == 's';
    RefIsObject(c.a);
    if v.JObj? {
      var f := v.fields;
      IdExactly(Get(f, Id), c.id);
      ShortExactly(c.id);
      RefExactly(Get(f, A), c.a, known);
      if c.On? {
        RefIsObject(c.b);
        RefExactly(Get(f, B), c.b, known);
      }
      if c.Slope? {
        NumNotNull(c.value);
        NumExactly(Get(f, Value), c.value);
      }
    }
  }

  lemma RefIsObject(r: Ref)
    ensures !SaysRef(JNull, r)
  {
  }

  lemma NumNotNull(x: real)
    ensures !SaysNum(JNull, x)
  {
  }

  /** The nine texts that survive a save. */
  lemma TagNames(k: Key)
    ensures k in LEG_TAGS <==>
      k.HostId? || k.TimeHostId? || k.PriceHostId? || k.StrikeHostA? || k.StrikeHostB? || k.TimeHostA? || k.TimeHostB?
      || k.Group? || k.Pick?
  {
  }

  lemma TagsExactly(f: Fields, tags: map<Key, string>)
    ensures ReadTags(f) == Ok(tags) <==>
      SaysTags(f, tags) && forall k :: k in tags ==> k in LEG_TAGS && 1 <= |tags[k]| <= 64
  {
    hide Get;
    if ReadTags(f).Ok? {
      var read := ReadTags(f).value;
      assert forall k :: k in LEG_TAGS ==> TagOk(Get(f, k));
      if SaysTags(f, tags) && forall k :: k in tags ==> k in LEG_TAGS && 1 <= |tags[k]| <= 64 {
        assert forall k :: k in read <==> k in tags;
        assert forall k :: k in tags ==> read[k] == tags[k];
        assert read == tags;
      }
    }
  }

  lemma SideExactly(v: Json, s: LegSide)
    ensures ReadSide(v) == Ok(s) <==> SaysText(v, if s == Long then "long" else "short")
  {
    WordsReadBack(Trend, TimeAxis, EndA, s, PutRight);
  }

  lemma RightExactly(v: Json, r: LegRight)
    ensures ReadRight(v) == Ok(r) <==> SaysText(v, if r == PutRight then "P" else "C")
  {
    WordsReadBack(Trend, TimeAxis, EndA, Long, r);
  }

  lemma LegExactly(v: Json, l: Leg, isDate: string -> bool)
    ensures ReadLeg(v, isDate) == Ok(l) <==> SaysLeg(v, l) && GoodLeg(l, isDate)
  {
    hide ReadId, ReadNum, ReadSide, ReadRight, ReadTags, ReadFlag, SaysNum, SaysTags, SaysFlag, Get, ShortText;
    if v.JObj? {
      var f := v.fields;
      IdExactly(Get(f, Id), l.id);
      ShortExactly(l.id);
      SideExactly(Get(f, Side), l.side);
      RightExactly(Get(f, RightOf), l.right);
      NumExactly(Get(f, Strike), l.strike);
      NumExactly(Get(f, DteTol), l.dteTol);
      NumExactly(Get(f, StrikeTol), l.strikeTol);
      TagsExactly(f, l.tags);
      forall k | k in l.tags ensures ShortText(l.tags[k]) <==> 1 <= |l.tags[k]| <= 64 { ShortExactly(l.tags[k]); }
      FlagExactly(Get(f, Hidden), l.hidden);
    }
  }

  // ------------------------------------------------------------ the whole document
  /** A collection is null or missing when there is nothing of its kind, or a list of just its objects, in order. */
  ghost predicate SaysList<T(!new)>(v: Json, xs: seq<T>, says: (Json, T) -> bool) {
    (v == JNull && xs == [])
    || (v.JArr? && |v.items| == |xs| && forall i :: 0 <= i < |xs| ==> says(v.items[i], xs[i]))
  }

  predicate PresetText(s: string) {
    1 <= |s| <= 32 && forall c :: c in s ==> 'a' <= c <= 'z' || '0' <= c <= '9' || c == '_' || c == '-'
  }

  /** The view is the preset it names, if it names one; anything else counts as no view. */
  predicate SaysPreset(v: Json, preset: Option<string>) {
    var named := v.JObj? && Get(v.fields, Preset).JStr? && PresetText(Get(v.fields, Preset).s);
    if named then preset == Some(Get(v.fields, Preset).s) else preset == None
  }

  ghost predicate SaysDoc(v: Json, d: Doc) {
    && v.JObj?
    && SaysList(Get(v.fields, Drawings), d.drawings, SaysDrawing)
    && SaysList(Get(v.fields, Measures), d.measures, SaysMeasure)
    && SaysList(Get(v.fields, Pins), d.pins, SaysPin)
    && SaysList(Get(v.fields, Constraints), d.constraints, SaysConstraint)
    && SaysList(Get(v.fields, Legs), d.legs, SaysLeg)
    && SaysPreset(Get(v.fields, View), d.preset)
  }

  /** A collection is read as `xs` exactly when the JSON says `xs`, each is good, the ids are new, and it is short. */
  lemma CollectionExactly<T(!new)>(f: Fields, k: Key, xs: seq<T>, read: Json -> Result<T>, idOf: T -> string,
                                   seen: set<string>, says: (Json, T) -> bool, good: T -> bool)
    requires forall v, x :: read(v) == Ok(x) <==> says(v, x) && good(x)
    ensures (Items(f, k).Ok? && ReadList(Items(f, k).value, read, idOf, seen) == Ok(xs)) <==>
      && SaysList(Get(f, k), xs, says) && |xs| <= MAX_PER_KIND
      && (forall i :: 0 <= i < |xs| ==> good(xs[i])) && NewIds(Ids(xs, idOf), seen)
  {
    hide ReadList, Ids, NewIds, Get;
    if Items(f, k).Ok? {
      ReadListExact(Items(f, k).value, read, idOf, seen, xs);
    }
  }

  lemma DrawingsExactly(f: Fields, xs: seq<Drawing>)
    ensures (Items(f, Drawings).Ok? && ReadList(Items(f, Drawings).value, ReadDrawing, IdOfDrawing, {}) == Ok(xs)) <==>
      && SaysList(Get(f, Drawings), xs, SaysDrawing) && |xs| <= MAX_PER_KIND
      && (forall i :: 0 <= i < |xs| ==> GoodDrawing(xs[i])) && NewIds(Ids(xs, IdOfDrawing), {})
  {
    hide ReadDrawing, SaysDrawing, GoodDrawing, ReadList, SaysList, Items, NewIds, Ids;
    forall v, x ensures ReadDrawing(v) == Ok(x) <==> SaysDrawing(v, x) && GoodDrawing(x) { DrawingExactly(v, x); }
    CollectionExactly(f, Drawings, xs, ReadDrawing, IdOfDrawing, {}, SaysDrawing, GoodDrawing);
  }

  lemma MeasuresExactly(f: Fields, xs: seq<Measure>, seen: set<string>)
    ensures (Items(f, Measures).Ok?
             && ReadList(Items(f, Measures).value, ReadMeasure, IdOfMeasure, seen) == Ok(xs)) <==>
      && SaysList(Get(f, Measures), xs, SaysMeasure) && |xs| <= MAX_PER_KIND
      && (forall i :: 0 <= i < |xs| ==> GoodMeasure(xs[i])) && NewIds(Ids(xs, IdOfMeasure), seen)
  {
    hide ReadMeasure, SaysMeasure, GoodMeasure, ReadList, SaysList, Items, NewIds, Ids;
    forall v, x ensures ReadMeasure(v) == Ok(x) <==> SaysMeasure(v, x) && GoodMeasure(x) { MeasureExactly(v, x); }
    CollectionExactly(f, Measures, xs, ReadMeasure, IdOfMeasure, seen, SaysMeasure, GoodMeasure);
  }

  lemma PinsExactly(f: Fields, xs: seq<Pin>, seen: set<string>)
    ensures (Items(f, Pins).Ok? && ReadList(Items(f, Pins).value, ReadPin, IdOfPin, seen) == Ok(xs)) <==>
      && SaysList(Get(f, Pins), xs, SaysPin) && |xs| <= MAX_PER_KIND
      && (forall i :: 0 <= i < |xs| ==> GoodPin(xs[i])) && NewIds(Ids(xs, IdOfPin), seen)
  {
    hide ReadPin, SaysPin, GoodPin, ReadList, SaysList, Items, NewIds, Ids;
    forall v, x ensures ReadPin(v) == Ok(x) <==> SaysPin(v, x) && GoodPin(x) { PinExactly(v, x); }
    CollectionExactly(f, Pins, xs, ReadPin, IdOfPin, seen, SaysPin, GoodPin);
  }

  lemma ConstraintsExactly(f: Fields, xs: seq<Constraint>, known: set<string>, seen: set<string>)
    ensures var read := c => ReadConstraint(c, known);
      (Items(f, Constraints).Ok? && ReadList(Items(f, Constraints).value, read, IdOfConstraint, seen) == Ok(xs)) <==>
      && SaysList(Get(f, Constraints), xs, SaysConstraint) && |xs| <= MAX_PER_KIND
      && (forall i :: 0 <= i < |xs| ==> GoodConstraint(xs[i], known)) && NewIds(Ids(xs, IdOfConstraint), seen)
  {
    hide ReadConstraint, SaysConstraint, GoodConstraint, ReadList, SaysList, Items, NewIds, Ids;
    var read, good := c => ReadConstraint(c, known), (c: Constraint) => GoodConstraint(c, known);
    forall v, x ensures read(v) == Ok(x) <==> SaysConstraint(v, x) && good(x) { ConstraintExactly(v, x, known); }
    CollectionExactly(f, Constraints, xs, read, IdOfConstraint, seen, SaysConstraint, good);
  }

  lemma LegsExactly(f: Fields, xs: seq<Leg>, isDate: string -> bool, seen: set<string>)
    ensures (Items(f, Legs).Ok?
             && ReadList(Items(f, Legs).value, l => ReadLeg(l, isDate), IdOfLeg, seen) == Ok(xs)) <==>
      && SaysList(Get(f, Legs), xs, SaysLeg) && |xs| <= MAX_PER_KIND
      && (forall i :: 0 <= i < |xs| ==> GoodLeg(xs[i], isDate)) && NewIds(Ids(xs, IdOfLeg), seen)
  {
    hide ReadLeg, SaysLeg, GoodLeg, ReadList, SaysList, Items, NewIds, Ids;
    var read, good := l => ReadLeg(l, isDate), (l: Leg) => GoodLeg(l, isDate);
    forall v, x ensures read(v) == Ok(x) <==> SaysLeg(v, x) && good(x) { LegExactly(v, x, isDate); }
    CollectionExactly(f, Legs, xs, read, IdOfLeg, seen, SaysLeg, good);
  }

  lemma PresetExactly(v: Json, preset: Option<string>)
    ensures ReadPreset(v) == preset <==> SaysPreset(v, preset)
    ensures ReadPreset(v).Some? ==> PresetOk(ReadPreset(v).value)
  {
    if v.JObj? && Get(v.fields, Preset).JStr? {
      var s := Get(v.fields, Preset).s;
      assert forall i :: 0 <= i < |s| ==> s[i] in s;
      assert PresetText(s) ==> PresetOk(s);
      if PresetOk(s) {
        forall c | c in s ensures PresetChar(c) {
          var i :| 0 <= i < |s| && s[i] == c;
        }
      }
    }
  }

  /** A collection that is said is as long as its list. */
  lemma SaidLength<T(!new)>(f: Fields, k: Key, xs: seq<T>, says: (Json, T) -> bool)
    requires SaysList(Get(f, k), xs, says) && Items(f, k).Ok?
    ensures |Items(f, k).value| == |xs|
  {
    hide Get;
  }

  lemma AcceptedSays(doc: Json, env: Env)
    requires Validate(doc, env).Ok?
    ensures SaysDoc(doc, Validate(doc, env).value)
  {
    hide Items, ReadList, SaysList, NewIds, Ids, Seen, SaysPreset, ReadPreset, WriteDoc, Get, DocRecord;
    hide GoodDrawing, GoodMeasure, GoodPin, GoodConstraint, GoodLeg, ReadDrawing, ReadMeasure, ReadPin, ReadConstraint;
    hide ReadLeg, SaysDrawing, SaysMeasure, SaysPin, SaysConstraint, SaysLeg;
    var d, f := Validate(doc, env).value, doc.fields;
    var s1 := Seen(Ids(d.drawings, IdOfDrawing));
    var s2 := s1 + Seen(Ids(d.measures, IdOfMeasure));
    var s3 := s2 + Seen(Ids(d.pins, IdOfPin));
    var s4 := s3 + Seen(Ids(d.constraints, IdOfConstraint));
    DrawingsExactly(f, d.drawings);
    MeasuresExactly(f, d.measures, s1);
    PinsExactly(f, d.pins, s2);
    ConstraintsExactly(f, d.constraints, s1, s3);
    LegsExactly(f, d.legs, env.isDate, s4);
    PresetExactly(Get(f, View), d.preset);
  }

  lemma SaidIsAccepted(doc: Json, d: Doc, env: Env)
    requires SaysDoc(doc, d) && Good(d, env)
    ensures Validate(doc, env) == Ok(d)
  {
    hide Items, ReadList, SaysList, NewIds, Ids, Seen, SaysPreset, ReadPreset, WriteDoc, Get, DocRecord;
    hide GoodDrawing, GoodMeasure, GoodPin, GoodConstraint, GoodLeg, ReadDrawing, ReadMeasure, ReadPin, ReadConstraint;
    hide ReadLeg, SaysDrawing, SaysMeasure, SaysPin, SaysConstraint, SaysLeg, PresetOk;
    var f := doc.fields;
    var s1 := Seen(Ids(d.drawings, IdOfDrawing));
    var s2 := s1 + Seen(Ids(d.measures, IdOfMeasure));
    var s3 := s2 + Seen(Ids(d.pins, IdOfPin));
    var s4 := s3 + Seen(Ids(d.constraints, IdOfConstraint));
    DrawingsExactly(f, d.drawings);
    MeasuresExactly(f, d.measures, s1);
    PinsExactly(f, d.pins, s2);
    ConstraintsExactly(f, d.constraints, s1, s3);
    LegsExactly(f, d.legs, env.isDate, s4);
    SaidLength(f, Legs, d.legs, SaysLeg);
    PresetExactly(Get(f, View), d.preset);
  }

  /** The limits, in numbers. */
  lemma GoodExactly(d: Doc, env: Env)
    ensures Good(d, env) <==>
      && |d.drawings| <= 500 && |d.measures| <= 500 && |d.pins| <= 500 && |d.constraints| <= 500 && |d.legs| <= 12
      && GoodItems(d, env) && NewEverywhere(d) && (d.preset.Some? ==> PresetText(d.preset.value))
      && env.size(WriteDoc(d)) <= 262144
  {
    hide GoodItems, NewEverywhere, WriteDoc;
    if d.preset.Some? {
      PresetExactly(JObj(map[Preset := JStr(d.preset.value)]), d.preset);
    }
  }

  lemma GoodLegExactly(l: Leg, isDate: string -> bool)
    ensures GoodLeg(l, isDate) <==>
      && 1 <= |l.id| <= 64 && isDate(l.expiration) && l.strike > 0.0 && 0.0 <= l.dteTol <= 60.0
      && 0.0 <= l.strikeTol <= 500.0 && 0 <= l.slot <= 63
      && forall k :: k in l.tags ==> k in LEG_TAGS && 1 <= |l.tags[k]| <= 64
  {
  }

  /**
   * A document is accepted as `d` if and only if the JSON says `d`, object by object and value by value, and `d` is
   * well formed. So no number, text, flag or reference is changed on the way in, and nothing well formed is refused.
   */
  lemma ValidateExactly(doc: Json, d: Doc, env: Env)
    ensures Validate(doc, env) == Ok(d) <==> SaysDoc(doc, d) && Good(d, env)
  {
    hide Validate, SaysDoc, Good;
    if Validate(doc, env) == Ok(d) {
      AcceptedSays(doc, env);
      AcceptedIsGood(doc, env);
    }
    if SaysDoc(doc, d) && Good(d, env) {
      SaidIsAccepted(doc, d, env);
    }
  }
}
