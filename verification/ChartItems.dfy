/** The objects a chart document holds: how each is read from JSON and written back. */
module ChartItems {
  import opened Common

  // ------------------------------------------------------------ JSON
  /** The keys the reader looks for; every other key is ignored. */
  datatype Key =
    | Version | Drawings | Measures | Pins | Constraints | Legs | View | Preset
    | Id | Kind | Points | LegOwned | Time | Price | DrawingId | U | Axis | At | A | B | Place | PartOf | Value
    | Side | RightOf | Expiration | Strike | DteTol | StrikeTol | Slot | Hidden
    | HostId | TimeHostId | PriceHostId | StrikeHostA | StrikeHostB | TimeHostA | TimeHostB | Group | Pick
    | Other(name: string)

  type Fields = map<Key, Json>

  /** A parsed JSON value; `JNonFinite` stands for the NaN and the infinities that Python's reader lets in. */
  datatype Json = JNull | JBool(b: bool) | JInt(n: int) | JReal(x: real) | JNonFinite | JStr(s: string)
                | JArr(items: seq<Json>) | JObj(fields: map<Key, Json>)

  /** `dict.get`: a missing key reads as null. */
  function Get(f: Fields, k: Key): Json { if k in f then f[k] else JNull }

  datatype Result<+T> = Ok(value: T) | Err {
    predicate IsFailure() { Err? }
    function PropagateFailure<S>(): Result<S>
      requires Err?
    {
      Err
    }
    function Extract(): T
      requires Ok?
    {
      value
    }
  }

  const MAX_ID := 64
  const MAX_DTE_TOL_DAYS := 60.0
  const MAX_STRIKE_TOL := 500.0

  function ReadNum(v: Json): Result<real> {
    match v
    case JInt(n) => Ok(n as real)
    case JReal(x) => Ok(x)
    case _ => Err
  }

  /** Whole seconds after the epoch. */
  function ReadTime(v: Json): Result<int> {
    match v
    case JInt(n) => if n > 0 then Ok(n) else Err
    case JReal(x) => if x == x.Floor as real && x > 0.0 then Ok(x.Floor) else Err
    case _ => Err
  }

  predicate ShortText(s: string) { 1 <= |s| <= MAX_ID }

  function ReadId(v: Json): Result<string> { if v.JStr? && ShortText(v.s) then Ok(v.s) else Err }

  function ReadFlag(v: Json): Result<bool> {
    match v
    case JNull => Ok(false)
    case JBool(b) => Ok(b)
    case _ => Err
  }

  function Flag(k: Key, on: bool): Fields { if on then map[k := JBool(true)] else map[] }

  // ------------------------------------------------------------ vocabularies
  datatype DrawKind = Trend | HLine | VLine | Circle

  datatype AxisName = TimeAxis | PriceAxis

  datatype Part = WholeLine | EndA | EndB

  datatype ConstraintKind = LockKind | OnKind | SlopeKind

  datatype LegSide = Long | Short

  datatype LegRight = PutRight | CallRight

  function DrawKindText(k: DrawKind): string {
    match k
    case Trend => "trend"
    case HLine => "hline"
    case VLine => "vline"
    case Circle => "circle"
  }

  function ReadDrawKind(v: Json): Result<DrawKind> {
    if v == JStr("trend") then Ok(Trend)
    else if v == JStr("hline") then Ok(HLine)
    else if v == JStr("vline") then Ok(VLine)
    else if v == JStr("circle") then Ok(Circle)
    else Err
  }

  function PointsFor(k: DrawKind): nat { if k.Trend? || k.Circle? then 2 else 1 }

  function AxisText(a: AxisName): string { if a.TimeAxis? then "time" else "price" }

  function ReadAxis(v: Json): Result<AxisName> {
    if v == JStr("time") then Ok(TimeAxis) else if v == JStr("price") then Ok(PriceAxis) else Err
  }

  function PartText(p: Part): string { if p.WholeLine? then "line" else if p.EndA? then "a" else "b" }

  function ReadPart(v: Json): Result<Part> {
    if v == JStr("line") then Ok(WholeLine)
    else if v == JStr("a") then Ok(EndA)
    else if v == JStr("b") then Ok(EndB)
    else Err
  }

  function ReadConstraintKind(v: Json): Result<ConstraintKind> {
    if v == JStr("lock") then Ok(LockKind)
    else if v == JStr("on") then Ok(OnKind)
    else if v == JStr("slope") then Ok(SlopeKind)
    else Err
  }

  function SideText(s: LegSide): string { if s.Long? then "long" else "short" }

  function ReadSide(v: Json): Result<LegSide> {
    if v == JStr("long") then Ok(Long) else if v == JStr("short") then Ok(Short) else Err
  }

  function RightText(r: LegRight): string { if r.PutRight? then "P" else "C" }

  function ReadRight(v: Json): Result<LegRight> {
    if v == JStr("P") then Ok(PutRight) else if v == JStr("C") then Ok(CallRight) else Err
  }

  lemma WordsReadBack(k: DrawKind, a: AxisName, p: Part, s: LegSide, r: LegRight)
    ensures ReadDrawKind(JStr(DrawKindText(k))) == Ok(k)
    ensures ReadAxis(JStr(AxisText(a))) == Ok(a)
    ensures ReadPart(JStr(PartText(p))) == Ok(p)
    ensures ReadSide(JStr(SideText(s))) == Ok(s)
    ensures ReadRight(JStr(RightText(r))) == Ok(r)
  {
    assert "trend"[0] == 't' && "hline"[0] == 'h' && "vline"[0] == 'v' && "circle"[0] == 'c';
    assert "time"[0] == 't' && "price"[0] == 'p';
    assert "line"[0] == 'l' && "a"[0] == 'a' && "b"[0] == 'b';
    assert "long"[0] == 'l' && "short"[0] == 's';
    assert "P"[0] == 'P' && "C"[0] == 'C';
  }

  lemma ConstraintWords()
    ensures ReadConstraintKind(JStr("lock")) == Ok(LockKind)
    ensures ReadConstraintKind(JStr("on")) == Ok(OnKind)
    ensures ReadConstraintKind(JStr("slope")) == Ok(SlopeKind)
  {
    assert "lock"[0] == 'l' && "on"[0] == 'o' && "slope"[0] == 's';
  }

  // ------------------------------------------------------------ drawings
  datatype Point = Point(time: int, price: real)

  datatype Drawing = Drawing(id: string, kind: DrawKind, points: seq<Point>, legOwned: bool)

  function ReadPoint(p: Json): Result<Point> {
    if !p.JObj? then Err
    else
      var time :- ReadTime(Get(p.fields, Time));
      var price :- ReadNum(Get(p.fields, Price));
      Ok(Point(time, price))
  }

  function WritePoint(p: Point): Json { JObj(map[Time := JInt(p.time), Price := JReal(p.price)]) }

  function ReadPoints(items: seq<Json>): Result<seq<Point>> {
    if items == [] then Ok([])
    else
      var before :- ReadPoints(items[..|items| - 1]);
      var p :- ReadPoint(items[|items| - 1]);
      Ok(before + [p])
  }

  function WritePoints(points: seq<Point>): seq<Json> {
    seq(|points|, i requires 0 <= i < |points| => WritePoint(points[i]))
  }

  function ReadDrawing(d: Json): Result<Drawing> {
    if !d.JObj? then Err
    else
      var f := d.fields;
      var kind :- ReadDrawKind(Get(f, Kind));
      var id :- ReadId(Get(f, Id));
      var points := Get(f, Points);
      if !points.JArr? || |points.items| != PointsFor(kind) then Err
      else
        var owned :- ReadFlag(Get(f, LegOwned));
        var pts :- ReadPoints(points.items);
        Ok(Drawing(id, kind, pts, owned))
  }

  function WriteDrawing(d: Drawing): Json {
    JObj(map[Id := JStr(d.id), Kind := JStr(DrawKindText(d.kind)), Points := JArr(WritePoints(d.points))]
         + Flag(LegOwned, d.legOwned))
  }

  predicate GoodDrawing(d: Drawing) {
    && ShortText(d.id) && |d.points| == PointsFor(d.kind)
    && forall i :: 0 <= i < |d.points| ==> d.points[i].time > 0
  }

  lemma {:induction false} PointsAreGood(items: seq<Json>)
    ensures ReadPoints(items).Ok? ==>
      var pts := ReadPoints(items).value;
      |pts| == |items| && forall i :: 0 <= i < |pts| ==> pts[i].time > 0
  {
    if items != [] {
      PointsAreGood(items[..|items| - 1]);
    }
  }

  lemma {:induction false} PointsReadBack(points: seq<Point>)
    requires forall i :: 0 <= i < |points| ==> points[i].time > 0
    ensures ReadPoints(WritePoints(points)) == Ok(points)
  {
    if points != [] {
      var front, last := points[..|points| - 1], points[|points| - 1];
      PointsReadBack(front);
      assert WritePoints(points)[..|points| - 1] == WritePoints(front);
      assert ReadPoint(WritePoint(last)) == Ok(last);
      assert front + [last] == points;
    }
  }

  lemma ReadDrawingIsGood(j: Json)
    ensures ReadDrawing(j).Ok? ==> GoodDrawing(ReadDrawing(j).value)
  {
    hide ReadDrawKind, ReadFlag;
    if j.JObj? && Get(j.fields, Points).JArr? {
      PointsAreGood(Get(j.fields, Points).items);
    }
  }

  lemma DrawingReadsBack(d: Drawing)
    requires GoodDrawing(d)
    ensures ReadDrawing(WriteDrawing(d)) == Ok(d)
  {
    hide ReadDrawKind, DrawKindText;
    PointsReadBack(d.points);
    WordsReadBack(d.kind, TimeAxis, EndA, Long, PutRight);
  }

  // ------------------------------------------------------------ measures
  datatype Anchor =
    | Candle(time: int)
    | OnLine(drawingId: string, u: real, time: int, price: real)
    | Free(time: int, price: real)

  datatype Placement = AtTime(time: int) | AtPrice(price: real)

  datatype Measure = Measure(id: string, a: Anchor, b: Anchor, place: Option<Placement>)

  function ReadAnchor(a: Json): Result<Anchor> {
    if !a.JObj? then Err
    else
      var f := a.fields;
      var kind := Get(f, Kind);
      if kind == JStr("candle") then
        var time :- ReadTime(Get(f, Time));
        Ok(Candle(time))
      else if kind == JStr("free") then
        var time :- ReadTime(Get(f, Time));
        var price :- ReadNum(Get(f, Price));
        Ok(Free(time, price))
      else if kind == JStr("line") then
        var drawingId :- ReadId(Get(f, DrawingId));
        var u :- ReadNum(Get(f, U));
        var time :- ReadTime(Get(f, Time));
        var price :- ReadNum(Get(f, Price));
        Ok(OnLine(drawingId, u, time, price))
      else Err
  }

  function WriteAnchor(a: Anchor): Json {
    match a
    case Candle(time) => JObj(map[Kind := JStr("candle"), Time := JInt(time)])
    case Free(time, price) => JObj(map[Kind := JStr("free"), Time := JInt(time), Price := JReal(price)])
    case OnLine(drawingId, u, time, price) =>
      JObj(map[Kind := JStr("line"), DrawingId := JStr(drawingId), U := JReal(u), Time := JInt(time),
               Price := JReal(price)])
  }

  predicate GoodAnchor(a: Anchor) { a.time > 0 && (a.OnLine? ==> ShortText(a.drawingId)) }

  lemma AnchorReadsBack(a: Anchor)
    requires GoodAnchor(a)
    ensures ReadAnchor(WriteAnchor(a)) == Ok(a)
  {
    assert "candle"[0] == 'c' && "free"[0] == 'f' && "line"[0] == 'l';
  }

  function ReadPlace(p: Json): Result<Option<Placement>> {
    if p.JNull? then Ok(None)
    else if !p.JObj? then Err
    else
      var axis :- ReadAxis(Get(p.fields, Axis));
      if axis.TimeAxis? then
        var time :- ReadTime(Get(p.fields, At));
        Ok(Some(AtTime(time)))
      else
        var price :- ReadNum(Get(p.fields, At));
        Ok(Some(AtPrice(price)))
  }

  function WritePlace(p: Option<Placement>): Fields {
    match p
    case None => map[]
    case Some(AtTime(time)) => map[Place := JObj(map[Axis := JStr("time"), At := JInt(time)])]
    case Some(AtPrice(price)) => map[Place := JObj(map[Axis := JStr("price"), At := JReal(price)])]
  }

  function ReadMeasure(m: Json): Result<Measure> {
    if !m.JObj? then Err
    else
      var id :- ReadId(Get(m.fields, Id));
      var a :- ReadAnchor(Get(m.fields, A));
      var b :- ReadAnchor(Get(m.fields, B));
      var place :- ReadPlace(Get(m.fields, Place));
      Ok(Measure(id, a, b, place))
  }

  function WriteMeasure(m: Measure): Json {
    JObj(map[Id := JStr(m.id), A := WriteAnchor(m.a), B := WriteAnchor(m.b)] + WritePlace(m.place))
  }

  predicate GoodMeasure(m: Measure) {
    && ShortText(m.id) && GoodAnchor(m.a) && GoodAnchor(m.b)
    && (m.place.Some? && m.place.value.AtTime? ==> m.place.value.time > 0)
  }

  lemma ReadMeasureIsGood(j: Json)
    ensures ReadMeasure(j).Ok? ==> GoodMeasure(ReadMeasure(j).value)
  {
    hide ReadAxis;
  }

  lemma MeasureReadsBack(m: Measure)
    requires GoodMeasure(m)
    ensures ReadMeasure(WriteMeasure(m)) == Ok(m)
  {
    hide ReadAxis, ReadAnchor, WriteAnchor;
    AnchorReadsBack(m.a);
    AnchorReadsBack(m.b);
    WordsReadBack(Trend, TimeAxis, EndA, Long, PutRight);
    WordsReadBack(Trend, PriceAxis, EndA, Long, PutRight);
    assert AxisText(TimeAxis) == "time" && AxisText(PriceAxis) == "price";
  }

  // ------------------------------------------------------------ pins
  datatype Pin = Pin(id: string, time: int)

  function ReadPin(p: Json): Result<Pin> {
    if !p.JObj? then Err
    else
      var id :- ReadId(Get(p.fields, Id));
      var time :- ReadTime(Get(p.fields, Time));
      Ok(Pin(id, time))
  }

  function WritePin(p: Pin): Json { JObj(map[Id := JStr(p.id), Time := JInt(p.time)]) }

  predicate GoodPin(p: Pin) { ShortText(p.id) && p.time > 0 }

  // ------------------------------------------------------------ constraints
  datatype Ref = Ref(id: string, part: Part, axis: Option<AxisName>)

  datatype Constraint =
    | Lock(id: string, a: Ref)
    | On(id: string, a: Ref, b: Ref)
    | Slope(id: string, a: Ref, value: real)

  function ReadRef(v: Json, known: set<string>): Result<Ref> {
    if !v.JObj? then Err
    else
      var part :- ReadPart(Get(v.fields, PartOf));
      var target, axis := Get(v.fields, Id), Get(v.fields, Axis);
      if !target.JStr? || target.s !in known then Err
      else if axis.JNull? then Ok(Ref(target.s, part, None))
      else
        var a :- ReadAxis(axis);
        Ok(Ref(target.s, part, Some(a)))
  }

  function WriteRef(r: Ref): Json {
    var base: Fields := map[Id := JStr(r.id), PartOf := JStr(PartText(r.part))];
    JObj(if r.axis.Some? then base[Axis := JStr(AxisText(r.axis.value))] else base)
  }

  lemma RefReadsBack(r: Ref, known: set<string>)
    requires r.id in known
    ensures ReadRef(WriteRef(r), known) == Ok(r)
  {
    hide ReadPart, ReadAxis, PartText, AxisText;
    WordsReadBack(Trend, if r.axis.Some? then r.axis.value else TimeAxis, r.part, Long, PutRight);
  }

  function ReadConstraint(c: Json, known: set<string>): Result<Constraint> {
    if !c.JObj? then Err
    else
      var f := c.fields;
      var kind :- ReadConstraintKind(Get(f, Kind));
      var id :- ReadId(Get(f, Id));
      var a :- ReadRef(Get(f, A), known);
      if kind.OnKind? != !Get(f, B).JNull? then Err
      else if kind.SlopeKind? != !Get(f, Value).JNull? then Err
      else if kind.LockKind? then Ok(Lock(id, a))
      else if kind.OnKind? then
        var b :- ReadRef(Get(f, B), known);
        if b.id == a.id then Err else Ok(On(id, a, b))
      else
        var value :- ReadNum(Get(f, Value));
        if !a.part.WholeLine? || a.axis.Some? then Err else Ok(Slope(id, a, value))
  }

  function WriteConstraint(c: Constraint): Json {
    match c
    case Lock(id, a) => JObj(map[Id := JStr(id), Kind := JStr("lock"), A := WriteRef(a)])
    case On(id, a, b) => JObj(map[Id := JStr(id), Kind := JStr("on"), A := WriteRef(a), B := WriteRef(b)])
    case Slope(id, a, value) =>
      JObj(map[Id := JStr(id), Kind := JStr("slope"), A := WriteRef(a), Value := JReal(value)])
  }

  predicate GoodConstraint(c: Constraint, known: set<string>) {
    && ShortText(c.id) && c.a.id in known
    && (c.On? ==> c.b.id in known && c.b.id != c.a.id)
    && (c.Slope? ==> c.a.part.WholeLine? && c.a.axis.None?)
  }

  lemma ReadConstraintIsGood(j: Json, known: set<string>)
    ensures ReadConstraint(j, known).Ok? ==> GoodConstraint(ReadConstraint(j, known).value, known)
  {
    hide ReadPart, ReadAxis, ReadConstraintKind;
  }

  lemma ConstraintReadsBack(c: Constraint, known: set<string>)
    requires GoodConstraint(c, known)
    ensures ReadConstraint(WriteConstraint(c), known) == Ok(c)
  {
    hide ReadRef, ReadConstraintKind;
    ConstraintWords();
    RefReadsBack(c.a, known);
    if c.On? {
      RefReadsBack(c.b, known);
    }
  }

  // ------------------------------------------------------------ legs
  /** The optional texts of a leg: seven hosts, the strategy tag and the chosen contract. */
  const LEG_TAGS: set<Key> :=
    {HostId, TimeHostId, PriceHostId, StrikeHostA, StrikeHostB, TimeHostA, TimeHostB, Group, Pick}

  datatype Leg = Leg(id: string, side: LegSide, right: LegRight, expiration: string, strike: real, dteTol: real,
                     strikeTol: real, slot: int, tags: map<Key, string>, hidden: bool)

  predicate TagOk(v: Json) { v.JNull? || (v.JStr? && ShortText(v.s)) }

  function ReadTags(f: Fields): Result<map<Key, string>> {
    if forall k :: k in LEG_TAGS ==> TagOk(Get(f, k)) then Ok(map k | k in LEG_TAGS && Get(f, k).JStr? :: Get(f, k).s)
    else Err
  }

  function ReadSlot(v: Json): Result<int> { if v.JInt? && 0 <= v.n < 64 then Ok(v.n) else Err }

  function ReadExpiration(v: Json, isDate: string -> bool): Result<string> {
    if v.JStr? && isDate(v.s) then Ok(v.s) else Err
  }

  function ReadLeg(l: Json, isDate: string -> bool): Result<Leg> {
    if !l.JObj? then Err
    else
      var f := l.fields;
      var id :- ReadId(Get(f, Id));
      var side :- ReadSide(Get(f, Side));
      var right :- ReadRight(Get(f, RightOf));
      var expiration :- ReadExpiration(Get(f, Expiration), isDate);
      var strike :- ReadNum(Get(f, Strike));
      if strike <= 0.0 then Err
      else
        var dteTol :- ReadNum(Get(f, DteTol));
        if !(0.0 <= dteTol <= MAX_DTE_TOL_DAYS) then Err
        else
          var strikeTol :- ReadNum(Get(f, StrikeTol));
          if !(0.0 <= strikeTol <= MAX_STRIKE_TOL) then Err
          else
            var slot :- ReadSlot(Get(f, Slot));
            var tags :- ReadTags(f);
            var hidden :- ReadFlag(Get(f, Hidden));
            Ok(Leg(id, side, right, expiration, strike, dteTol, strikeTol, slot, tags, hidden))
  }

  function LegBase(l: Leg): Fields {
    map[Id := JStr(l.id), Side := JStr(SideText(l.side)), RightOf := JStr(RightText(l.right)),
        Expiration := JStr(l.expiration), Strike := JReal(l.strike), DteTol := JReal(l.dteTol),
        StrikeTol := JReal(l.strikeTol), Slot := JInt(l.slot)]
  }

  function LegRecord(l: Leg): Fields {
    LegBase(l) + (map k | k in l.tags :: JStr(l.tags[k])) + Flag(Hidden, l.hidden)
  }

  function WriteLeg(l: Leg): Json { JObj(LegRecord(l)) }

  predicate GoodLeg(l: Leg, isDate: string -> bool) {
    && ShortText(l.id) && isDate(l.expiration) && l.strike > 0.0
    && 0.0 <= l.dteTol <= MAX_DTE_TOL_DAYS && 0.0 <= l.strikeTol <= MAX_STRIKE_TOL && 0 <= l.slot < 64
    && forall k :: k in l.tags ==> k in LEG_TAGS && ShortText(l.tags[k])
  }

  predicate PlainKey(k: Key) {
    k.Id? || k.Side? || k.RightOf? || k.Expiration? || k.Strike? || k.DteTol? || k.StrikeTol? || k.Slot?
  }

  lemma BaseKeys(l: Leg, k: Key)
    ensures k in LegBase(l) <==> PlainKey(k)
  {
    hide SideText, RightText;
  }

  lemma TagKeys(k: Key)
    requires k in LEG_TAGS
    ensures !PlainKey(k) && !k.Hidden?
  {
  }

  /** A key of a written leg is a plain field, a tag, or the flag. */
  lemma LegKey(l: Leg, k: Key)
    requires forall k :: k in l.tags ==> k in LEG_TAGS
    ensures var f := LegRecord(l);
            && (PlainKey(k) ==> Get(f, k) == Get(LegBase(l), k))
            && (k in LEG_TAGS ==> Get(f, k) == if k in l.tags then JStr(l.tags[k]) else JNull)
            && (k.Hidden? ==> Get(f, k) == if l.hidden then JBool(true) else JNull)
  {
    hide LegBase, PlainKey;
    BaseKeys(l, k);
    if k in LEG_TAGS {
      TagKeys(k);
    }
    assert k.Hidden? ==> !PlainKey(k) by { HiddenIsNotPlain(k); }
    assert PlainKey(k) ==> k !in LEG_TAGS;
  }

  lemma HiddenIsNotPlain(k: Key)
    ensures k.Hidden? ==> !PlainKey(k)
  {
  }

  lemma TagsReadBack(l: Leg)
    requires forall k :: k in l.tags ==> k in LEG_TAGS && ShortText(l.tags[k])
    ensures ReadTags(LegRecord(l)) == Ok(l.tags)
  {
    hide Get, LegRecord, ShortText;
    var f := LegRecord(l);
    forall k | k in LEG_TAGS ensures Get(f, k) == if k in l.tags then JStr(l.tags[k]) else JNull {
      LegKey(l, k);
    }
    TagsFrom(f, l.tags);
  }

  lemma TagsFrom(f: Fields, tags: map<Key, string>)
    requires forall k :: k in tags ==> k in LEG_TAGS && ShortText(tags[k])
    requires forall k :: k in LEG_TAGS ==> Get(f, k) == if k in tags then JStr(tags[k]) else JNull
    ensures ReadTags(f) == Ok(tags)
  {
    hide Get;
    var read := map k | k in LEG_TAGS && Get(f, k).JStr? :: Get(f, k).s;
    assert forall k :: k in tags ==> k in read && read[k] == tags[k];
    assert forall k :: k in read ==> k in tags;
    assert read == tags;
  }

  lemma LegFields(l: Leg)
    requires forall k :: k in l.tags ==> k in LEG_TAGS
    ensures var f := LegRecord(l);
            && Get(f, Id) == JStr(l.id) && Get(f, Side) == JStr(SideText(l.side))
            && Get(f, RightOf) == JStr(RightText(l.right)) && Get(f, Expiration) == JStr(l.expiration)
            && Get(f, Strike) == JReal(l.strike) && Get(f, DteTol) == JReal(l.dteTol)
            && Get(f, StrikeTol) == JReal(l.strikeTol) && Get(f, Slot) == JInt(l.slot)
            && Get(f, Hidden) == if l.hidden then JBool(true) else JNull
  {
    hide SideText, RightText, LegRecord;
    LegKey(l, Id);
    LegKey(l, Side);
    LegKey(l, RightOf);
    LegKey(l, Expiration);
    LegKey(l, Strike);
    LegKey(l, DteTol);
    LegKey(l, StrikeTol);
    LegKey(l, Slot);
    LegKey(l, Hidden);
  }

  lemma LegReadsBack(l: Leg, isDate: string -> bool)
    requires GoodLeg(l, isDate)
    ensures ReadLeg(WriteLeg(l), isDate) == Ok(l)
  {
    hide ReadSide, ReadRight, ReadTags, LegBase, SideText, RightText, Get, LegRecord;
    WordsReadBack(Trend, TimeAxis, EndA, l.side, l.right);
    TagsReadBack(l);
    LegFields(l);
  }

  lemma ReadLegIsGood(j: Json, isDate: string -> bool)
    ensures ReadLeg(j, isDate).Ok? ==> GoodLeg(ReadLeg(j, isDate).value, isDate)
  {
    hide ReadSide, ReadRight, ReadFlag;
  }
}
