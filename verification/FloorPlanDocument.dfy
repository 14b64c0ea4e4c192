/** The floor-plan document: what validation accepts, what it normalises, and that accepted documents re-validate. */
module FloorPlanDocument {
  import opened Wrappers
  import opened JsText

  /** A JSON value as the database's jsonb column keeps it: object keys have no order. */
  datatype Value =
    | Null
    | Bool(flag: bool)
    | Num(number: real)
    | Str(text: string)
    | List(items: seq<Value>)
    | Record(fields: map<string, Value>)

  datatype Shape =
    | Wall | Rectangle | Ellipse
    | Text(text: string, fontSize: real)
    | Table(diningTableId: string, round: bool)

  datatype Element = Element(id: string, shape: Shape, x: real, y: real, width: real, height: real, rotation: real)

  datatype Document = Document(width: real, height: real, gridSize: real, elements: seq<Element>)

  datatype Invalid =
    | NotARecord | UnsupportedVersion | NotANumber(field: string) | Required(field: string) | CanvasOutOfRange
    | GridOutOfRange
    | ElementsNotAList | TooManyElements | BadIdentifier | BadType | BadSize | OutsideCanvas | BadRotation
    | TextTooLong | BadFontSize | BadTable | BadTableShape | DuplicateId | DuplicateTable

  const MAX_ELEMENTS := 500

  const EMPTY := Document(1200.0, 800.0, 20.0, [])

  // ---------------------------------------------------------------------------------------------
  // Reading fields
  // ---------------------------------------------------------------------------------------------

  function FiniteNumber(v: Value, field: string): Result<real, Invalid>
    requires v.Record?
  {
    if field in v.fields && v.fields[field].Num? then Ok(v.fields[field].number) else Err(NotANumber(field))
  }

  function StringValue(v: Value, field: string): Result<string, Invalid>
    requires v.Record?
  {
    if field in v.fields && v.fields[field].Str? && Trim(v.fields[field].text) != ""
    then Ok(Trim(v.fields[field].text)) else Err(Required(field))
  }

  predicate IdentifierChar(c: char) {
    'a' <= c <= 'z' || 'A' <= c <= 'Z' || '0' <= c <= '9' || c == '_' || c == '-'
  }

  predicate Identifier(s: string) {
    1 <= |s| <= 80 && forall i :: 0 <= i < |s| ==> IdentifierChar(s[i])
  }

  predicate HexDigit(c: char) {
    '0' <= c <= '9' || 'a' <= c <= 'f' || 'A' <= c <= 'F'
  }

  predicate Uuid(s: string) {
    && |s| == 36
    && (forall i :: 0 <= i < 36 ==> if i == 8 || i == 13 || i == 18 || i == 23 then s[i] == '-' else HexDigit(s[i]))
    && '1' <= s[14] <= '5'
    && s[19] in {'8', '9', 'a', 'b', 'A', 'B'}
  }

  // ---------------------------------------------------------------------------------------------
  // Validation
  // ---------------------------------------------------------------------------------------------

  /** The geometry of an element, checked in the order of the fields. */
  function ReadGeometry(v: Value, canvasWidth: real, canvasHeight: real): Result<Element, Invalid>
    requires v.Record?
  {
    var id := StringValue(v, "id");
    if id.Err? then Err(id.error) else
    if !Identifier(id.value) then Err(BadIdentifier) else
    if !("type" in v.fields && v.fields["type"].Str?
         && v.fields["type"].text in {"WALL", "RECTANGLE", "ELLIPSE", "TEXT", "TABLE"})
    then Err(BadType) else
    var x, y := FiniteNumber(v, "x"), FiniteNumber(v, "y");
    var width, height := FiniteNumber(v, "width"), FiniteNumber(v, "height");
    var rotation := FiniteNumber(v, "rotation");
    if x.Err? then Err(x.error) else
    if y.Err? then Err(y.error) else
    if width.Err? then Err(width.error) else
    if height.Err? then Err(height.error) else
    if rotation.Err? then Err(rotation.error) else
    if width.value < 8.0 || height.value < 8.0 || width.value > 3000.0 || height.value > 3000.0 then Err(BadSize) else
    if x.value < -width.value || y.value < -height.value || x.value > canvasWidth || y.value > canvasHeight
    then Err(OutsideCanvas) else
    if rotation.value < -3600.0 || rotation.value > 3600.0 then Err(BadRotation) else
    Ok(Element(id.value, Wall, x.value, y.value, width.value, height.value, rotation.value))
  }

  function ReadShape(v: Value): Result<Shape, Invalid>
    requires v.Record? && "type" in v.fields && v.fields["type"].Str?
  {
    var kind := v.fields["type"].text;
    if kind == "TEXT" then
      var text := StringValue(v, "text");
      if text.Err? then Err(text.error) else
      if |text.value| > 240 then Err(TextTooLong) else
      var fontSize := FiniteNumber(v, "fontSize");
      if fontSize.Err? then Err(fontSize.error) else
      if fontSize.value < 8.0 || fontSize.value > 120.0 then Err(BadFontSize) else Ok(Text(text.value, fontSize.value))
    else if kind == "TABLE" then
      var table := StringValue(v, "diningTableId");
      if table.Err? then Err(table.error) else
      if !Uuid(table.value) then Err(BadTable) else
      if "tableShape" in v.fields && v.fields["tableShape"] == Str("ROUND") then Ok(Table(table.value, true)) else
      if "tableShape" in v.fields && v.fields["tableShape"] == Str("RECTANGLE") then Ok(Table(table.value, false)) else
      Err(BadTableShape)
    else Ok(if kind == "WALL" then Wall else if kind == "RECTANGLE" then Rectangle else Ellipse)
  }

  function ReadElement(v: Value, canvasWidth: real, canvasHeight: real): Result<Element, Invalid> {
    if !v.Record? then Err(NotARecord) else
    var base := ReadGeometry(v, canvasWidth, canvasHeight);
    if base.Err? then Err(base.error) else
    var shape := ReadShape(v);
    if shape.Err? then Err(shape.error) else Ok(base.value.(shape := shape.value))
  }

  predicate IdTaken(elements: seq<Element>, id: string) {
    exists i :: 0 <= i < |elements| && elements[i].id == id
  }

  predicate TableTaken(elements: seq<Element>, table: string) {
    exists i :: 0 <= i < |elements| && elements[i].shape.Table? && elements[i].shape.diningTableId == table
  }

  /** One more element after those already accepted. */
  function Accept(before: seq<Element>, read: Result<Element, Invalid>): Result<seq<Element>, Invalid> {
    if read.Err? then Err(read.error) else
    if IdTaken(before, read.value.id) then Err(DuplicateId) else
    if read.value.shape.Table? && TableTaken(before, read.value.shape.diningTableId) then Err(DuplicateTable) else
    Ok(before + [read.value])
  }

  /** The elements in order, stopping at the first invalid or duplicate one. */
  function ReadElements(items: seq<Value>, canvasWidth: real, canvasHeight: real): Result<seq<Element>, Invalid> {
    if items == [] then Ok([]) else
    var before := ReadElements(items[..|items| - 1], canvasWidth, canvasHeight);
    if before.Err? then before else Accept(before.value, ReadElement(items[|items| - 1], canvasWidth, canvasHeight))
  }

  function ReadCanvas(v: Value): Result<Document, Invalid> {
    if !v.Record? then Err(NotARecord) else
    if !("schemaVersion" in v.fields && v.fields["schemaVersion"] == Num(1.0)) then Err(UnsupportedVersion) else
    var width, height, gridSize := FiniteNumber(v, "width"), FiniteNumber(v, "height"), FiniteNumber(v, "gridSize");
    if width.Err? then Err(width.error) else
    if height.Err? then Err(height.error) else
    if gridSize.Err? then Err(gridSize.error) else
    if width.value < 400.0 || width.value > 5000.0 || height.value < 300.0 || height.value > 5000.0
    then Err(CanvasOutOfRange) else
    if gridSize.value < 5.0 || gridSize.value > 100.0 then Err(GridOutOfRange) else
    if !("elements" in v.fields && v.fields["elements"].List?) then Err(ElementsNotAList) else
    if |v.fields["elements"].items| > MAX_ELEMENTS then Err(TooManyElements) else
    Ok(Document(width.value, height.value, gridSize.value, []))
  }

  function Validate(v: Value): Result<Document, Invalid> {
    var canvas := ReadCanvas(v);
    if canvas.Err? then canvas else
    var elements := ReadElements(v.fields["elements"].items, canvas.value.width, canvas.value.height);
    if elements.Err? then Err(elements.error) else Ok(canvas.value.(elements := elements.value))
  }

  /** The sets of identifiers and tables seen so far. */
  ghost predicate Seen(elements: seq<Element>, ids: set<string>, tableIds: set<string>) {
    && (forall id :: id in ids <==> IdTaken(elements, id))
    && (forall t :: t in tableIds <==> TableTaken(elements, t))
  }

  /** The callback of the element loop: one element read, checked against the two sets and added to them. */
  method AddElement(elements: seq<Element>, ids: set<string>, tableIds: set<string>, read: Result<Element, Invalid>)
    returns (result: Result<seq<Element>, Invalid>, ids': set<string>, tableIds': set<string>)
    requires Seen(elements, ids, tableIds)
    ensures result == Accept(elements, read)
    ensures result.Ok? ==> Seen(result.value, ids', tableIds')
  {
    ids', tableIds' := ids, tableIds;
    if read.Err? {
      return Err(read.error), ids, tableIds;
    }
    var element := read.value;
    if element.id in ids {
      return Err(DuplicateId), ids, tableIds;
    }
    ids' := ids + {element.id};
    if element.shape.Table? {
      if element.shape.diningTableId in tableIds {
        return Err(DuplicateTable), ids, tableIds;
      }
      tableIds' := tableIds + {element.shape.diningTableId};
    }
    TakenSnoc(elements, element);
    result := Ok(elements + [element]);
  }

  method MapElements(items: seq<Value>, width: real, height: real) returns (result: Result<seq<Element>, Invalid>)
    ensures result == ReadElements(items, width, height)
  {
    var ids: set<string>, tableIds: set<string>, elements := {}, {}, [];
    for i := 0 to |items|
      invariant ReadElements(items[..i], width, height) == Ok(elements)
      invariant Seen(elements, ids, tableIds)
    {
      var read := ReadElement(items[i], width, height);
      ReadElementsSnoc(items, i, width, height);
      result, ids, tableIds := AddElement(elements, ids, tableIds, read);
      if result.Err? {
        ErrorsStop(items, i + 1, width, height);
        return;
      }
      elements := result.value;
    }
    assert items[..|items|] == items;
    result := Ok(elements);
  }

  lemma ReadElementsSnoc(items: seq<Value>, i: nat, width: real, height: real)
    requires i < |items|
    ensures var before := ReadElements(items[..i], width, height);
            ReadElements(items[..i + 1], width, height) ==
              if before.Err? then before else Accept(before.value, ReadElement(items[i], width, height))
  {
    assert items[..i + 1][..i] == items[..i];
  }

  /** `validateFloorPlanDocument`. */
  method ValidateFloorPlanDocument(v: Value) returns (result: Result<Document, Invalid>)
    ensures result == Validate(v)
  {
    var canvas := ReadCanvas(v);
    if canvas.Err? {
      return canvas;
    }
    var elements := MapElements(v.fields["elements"].items, canvas.value.width, canvas.value.height);
    if elements.Err? {
      return Err(elements.error);
    }
    result := Ok(canvas.value.(elements := elements.value));
  }

  lemma TakenSnoc(elements: seq<Element>, e: Element)
    ensures forall id :: IdTaken(elements + [e], id) <==> IdTaken(elements, id) || id == e.id
    ensures forall t :: TableTaken(elements + [e], t) <==>
              TableTaken(elements, t) || (e.shape.Table? && t == e.shape.diningTableId)
  {
    var longer := elements + [e];
    assert longer[|elements|] == e;
    forall id
      ensures IdTaken(longer, id) <==> IdTaken(elements, id) || id == e.id
    {
      if i :| 0 <= i < |elements| && elements[i].id == id {
        assert longer[i].id == id;
      }
    }
    forall t
      ensures TableTaken(longer, t) <==> TableTaken(elements, t) || (e.shape.Table? && t == e.shape.diningTableId)
    {
      if i :| 0 <= i < |elements| && elements[i].shape.Table? && elements[i].shape.diningTableId == t {
        assert longer[i].shape.Table? && longer[i].shape.diningTableId == t;
      }
    }
  }

  /** The first error is the answer, however many elements follow. */
  lemma {:induction false} ErrorsStop(items: seq<Value>, n: nat, width: real, height: real)
    requires n <= |items| && ReadElements(items[..n], width, height).Err?
    ensures ReadElements(items, width, height) == ReadElements(items[..n], width, height)
  {
    if n < |items| {
      assert items[..|items| - 1][..n] == items[..n];
      ErrorsStop(items[..|items| - 1], n, width, height);
    } else {
      assert items[..n] == items;
    }
  }

  // ---------------------------------------------------------------------------------------------
  // Well-formed documents, and writing them back
  // ---------------------------------------------------------------------------------------------

  predicate ShapeOk(s: Shape) {
    match s
    case Text(text, fontSize) => 1 <= |text| <= 240 && Trimmed(text) && 8.0 <= fontSize <= 120.0
    case Table(table, _) => Uuid(table)
    case _ => true
  }

  predicate ElementOk(e: Element, canvasWidth: real, canvasHeight: real) {
    && Identifier(e.id) && ShapeOk(e.shape)
    && 8.0 <= e.width <= 3000.0 && 8.0 <= e.height <= 3000.0
    && -e.width <= e.x <= canvasWidth && -e.height <= e.y <= canvasHeight
    && -3600.0 <= e.rotation <= 3600.0
  }

  ghost predicate DistinctIds(elements: seq<Element>) {
    forall i, j :: 0 <= i < j < |elements| ==> elements[i].id != elements[j].id
  }

  ghost predicate DistinctTables(elements: seq<Element>) {
    forall i, j :: 0 <= i < j < |elements| && elements[i].shape.Table? && elements[j].shape.Table? ==>
      elements[i].shape.diningTableId != elements[j].shape.diningTableId
  }

  ghost predicate ElementsOk(elements: seq<Element>, canvasWidth: real, canvasHeight: real) {
    && (forall i :: 0 <= i < |elements| ==> ElementOk(elements[i], canvasWidth, canvasHeight))
    && DistinctIds(elements) && DistinctTables(elements)
  }

  ghost predicate WellFormed(d: Document) {
    && 400.0 <= d.width <= 5000.0 && 300.0 <= d.height <= 5000.0 && 5.0 <= d.gridSize <= 100.0
    && |d.elements| <= 500 && ElementsOk(d.elements, d.width, d.height)
  }

  function KindName(s: Shape): string {
    match s
    case Wall => "WALL"
    case Rectangle => "RECTANGLE"
    case Ellipse => "ELLIPSE"
    case Text(_, _) => "TEXT"
    case Table(_, _) => "TABLE"
  }

  function EncodeElement(e: Element): Value {
    var base := map["id" := Str(e.id), "type" := Str(KindName(e.shape)), "x" := Num(e.x), "y" := Num(e.y),
                    "width" := Num(e.width), "height" := Num(e.height), "rotation" := Num(e.rotation)];
    Record(match e.shape
           case Text(text, fontSize) => base["text" := Str(text)]["fontSize" := Num(fontSize)]
           case Table(table, round) =>
             base["diningTableId" := Str(table)]["tableShape" := Str(if round then "ROUND" else "RECTANGLE")]
           case _ => base)
  }

  function EncodeElements(elements: seq<Element>): (r: seq<Value>)
    ensures |r| == |elements|
  {
    if elements == [] then []
    else EncodeElements(elements[..|elements| - 1]) + [EncodeElement(elements[|elements| - 1])]
  }

  function Encode(d: Document): Value {
    Record(map["schemaVersion" := Num(1.0), "width" := Num(d.width), "height" := Num(d.height),
               "gridSize" := Num(d.gridSize), "elements" := List(EncodeElements(d.elements))])
  }

  lemma TextIsItself(s: string)
    requires Identifier(s) || Uuid(s) || (s != "" && Trimmed(s))
    ensures Trim(s) == s && s != ""
  {
    assert Trimmed(s);
    TrimIsTrimmed(s);
  }

  lemma ReadElementOk(v: Value, w: real, h: real)
    ensures ReadElement(v, w, h).Ok? ==> ElementOk(ReadElement(v, w, h).value, w, h)
  {
    if ReadElement(v, w, h).Ok? && v.fields["type"].text == "TEXT" {
      TrimIsTrimmed(v.fields["text"].text);
    }
  }

  lemma EncodedFields(e: Element)
    ensures var fields := EncodeElement(e).fields;
            && {"id", "type", "x", "y", "width", "height", "rotation"} <= fields.Keys
            && fields["id"] == Str(e.id) && fields["type"] == Str(KindName(e.shape)) && fields["x"] == Num(e.x)
            && fields["y"] == Num(e.y)
            && fields["width"] == Num(e.width) && fields["height"] == Num(e.height)
            && fields["rotation"] == Num(e.rotation)
  {
  }

  lemma GeometryRoundTrip(e: Element, w: real, h: real)
    requires ElementOk(e, w, h)
    ensures ReadGeometry(EncodeElement(e), w, h) == Ok(e.(shape := Wall))
  {
    TextIsItself(e.id);
    EncodedFields(e);
  }

  lemma ShapeRoundTrip(e: Element)
    requires ShapeOk(e.shape)
    ensures var v := EncodeElement(e);
            "type" in v.fields && v.fields["type"].Str? && ReadShape(v) == Ok(e.shape)
  {
    var fields := EncodeElement(e).fields;
    assert fields["type"] == Str(KindName(e.shape));
    match e.shape {
      case Text(text, fontSize) =>
        TextIsItself(text);
        assert fields["text"] == Str(text) && fields["fontSize"] == Num(fontSize);
      case Table(table, round) =>
        TextIsItself(table);
        assert fields["diningTableId"] == Str(table)
               && fields["tableShape"] == Str(if round then "ROUND" else "RECTANGLE");
      case _ =>
    }
  }

  lemma ElementRoundTrip(e: Element, w: real, h: real)
    requires ElementOk(e, w, h)
    ensures ReadElement(EncodeElement(e), w, h) == Ok(e)
  {
    GeometryRoundTrip(e, w, h);
    ShapeRoundTrip(e);
  }

  lemma AcceptOk(before: seq<Element>, e: Element, w: real, h: real)
    requires ElementsOk(before, w, h) && ElementOk(e, w, h)
    ensures Accept(before, Ok(e)).Ok? <==> ElementsOk(before + [e], w, h)
  {
    var after := before + [e];
    assert after[|before|] == e;
    assert forall i :: 0 <= i < |before| ==> after[i] == before[i];
  }

  lemma PrefixOk(elements: seq<Element>, w: real, h: real)
    requires ElementsOk(elements, w, h) && elements != []
    ensures ElementsOk(elements[..|elements| - 1], w, h) && ElementOk(elements[|elements| - 1], w, h)
    ensures elements == elements[..|elements| - 1] + [elements[|elements| - 1]]
  {
  }

  lemma {:induction false} ReadElementsOk(items: seq<Value>, w: real, h: real)
    ensures ReadElements(items, w, h).Ok? ==>
              |ReadElements(items, w, h).value| == |items| && ElementsOk(ReadElements(items, w, h).value, w, h)
  {
    if items != [] && ReadElements(items, w, h).Ok? {
      var n := |items| - 1;
      ReadElementsOk(items[..n], w, h);
      ReadElementOk(items[n], w, h);
      AcceptOk(ReadElements(items[..n], w, h).value, ReadElement(items[n], w, h).value, w, h);
    }
  }

  lemma {:induction false} ElementsRoundTrip(elements: seq<Element>, w: real, h: real)
    requires ElementsOk(elements, w, h)
    ensures ReadElements(EncodeElements(elements), w, h) == Ok(elements)
  {
    if elements != [] {
      var n := |elements| - 1;
      var values := EncodeElements(elements);
      PrefixOk(elements, w, h);
      ElementsRoundTrip(elements[..n], w, h);
      ElementRoundTrip(elements[n], w, h);
      AcceptOk(elements[..n], elements[n], w, h);
      assert values[..n] == EncodeElements(elements[..n]) && values[n] == EncodeElement(elements[n]);
      ReadElementsSnoc(values, n, w, h);
      assert values[..n + 1] == values;
    }
  }

  lemma CanvasRoundTrip(d: Document)
    requires WellFormed(d)
    ensures ReadCanvas(Encode(d)) == Ok(d.(elements := []))
    ensures Encode(d).fields["elements"] == List(EncodeElements(d.elements))
  {
    var fields := Encode(d).fields;
    assert fields["schemaVersion"] == Num(1.0) && fields["gridSize"] == Num(d.gridSize);
    assert fields["width"] == Num(d.width) && fields["height"] == Num(d.height);
  }

  /** A well-formed document, written back and validated, is itself. */
  lemma DocumentRoundTrip(d: Document)
    requires WellFormed(d)
    ensures Validate(Encode(d)) == Ok(d)
  {
    CanvasRoundTrip(d);
    ElementsRoundTrip(d.elements, d.width, d.height);
  }

  /** Only well-formed documents come out of validation. */
  lemma ValidatedIsWellFormed(v: Value)
    requires Validate(v).Ok?
    ensures WellFormed(Validate(v).value)
  {
    var canvas := ReadCanvas(v).value;
    ReadElementsOk(v.fields["elements"].items, canvas.width, canvas.height);
  }

  /** Exactly the well-formed documents come out of validation. */
  lemma ValidDocuments(d: Document)
    ensures WellFormed(d) <==> exists v :: Validate(v) == Ok(d)
  {
    if WellFormed(d) {
      DocumentRoundTrip(d);
    }
    if v :| Validate(v) == Ok(d) {
      ValidatedIsWellFormed(v);
    }
  }

  /** Validation is idempotent: what it returned, saved and read back, is accepted unchanged. */
  lemma ValidationIsIdempotent(v: Value)
    ensures Validate(v).Ok? ==> Validate(Encode(Validate(v).value)) == Validate(v)
  {
    if Validate(v).Ok? {
      ValidatedIsWellFormed(v);
      DocumentRoundTrip(Validate(v).value);
    }
  }

  // ---------------------------------------------------------------------------------------------
  // The tables a document names
  // ---------------------------------------------------------------------------------------------

  function TableIds(elements: seq<Element>): seq<string> {
    if elements == [] then [] else
    TableIds(elements[..|elements| - 1])
    + if elements[|elements| - 1].shape.Table? then [elements[|elements| - 1].shape.diningTableId] else []
  }

  function LowerChar(c: char): char {
    if 'A' <= c <= 'Z' then c - 'A' + 'a' else c
  }

  /** The identifier the database compares: letter case does not matter in a uuid. */
  function Canonical(id: string): string {
    seq(|id|, i requires 0 <= i < |id| => LowerChar(id[i]))
  }

  function CanonicalIds(ids: seq<string>): (r: seq<string>)
    ensures |r| == |ids|
  {
    seq(|ids|, i requires 0 <= i < |ids| => Canonical(ids[i]))
  }

  /** The rows that the reference check counts: active tables named by the document, each once. */
  function Counted<T(==)>(ids: seq<T>, active: set<T>): set<T> {
    set id | id in ids && id in active
  }

  predicate ReferencesOk(d: Document, active: set<string>) {
    |Counted(CanonicalIds(TableIds(d.elements)), active)| == |TableIds(d.elements)|
  }

  lemma {:induction false} CountsAll<T>(ids: seq<T>, active: set<T>)
    ensures |Counted(ids, active)| <= |ids|
    ensures |Counted(ids, active)| == |ids| ==>
              && (forall i :: 0 <= i < |ids| ==> ids[i] in active)
              && (forall i, j :: 0 <= i < j < |ids| ==> ids[i] != ids[j])
  {
    if ids != [] {
      var rest, last := ids[..|ids| - 1], ids[|ids| - 1];
      CountsAll(rest, active);
      assert ids == rest + [last];
      assert Counted(ids, active) == Counted(rest, active) + (if last in active then {last} else {});
    }
  }

  lemma {:induction false} AllCounted<T>(ids: seq<T>, active: set<T>)
    requires forall i :: 0 <= i < |ids| ==> ids[i] in active
    requires forall i, j :: 0 <= i < j < |ids| ==> ids[i] != ids[j]
    ensures |Counted(ids, active)| == |ids|
  {
    if ids != [] {
      var rest, last := ids[..|ids| - 1], ids[|ids| - 1];
      AllCounted(rest, active);
      assert ids == rest + [last];
      assert last !in rest;
      assert Counted(ids, active) == Counted(rest, active) + {last};
    }
  }

  /** The tables a document names are all in service, and no two of them are one table, whatever the letter case. */
  ghost predicate NamesActiveTables(ids: seq<string>, active: set<string>) {
    && (forall i :: 0 <= i < |ids| ==> Canonical(ids[i]) in active)
    && (forall i, j :: 0 <= i < j < |ids| ==> Canonical(ids[i]) != Canonical(ids[j]))
  }

  /** Exactly what the reference check accepts. */
  lemma ReferencesExactly(d: Document, active: set<string>)
    ensures ReferencesOk(d, active) <==> NamesActiveTables(TableIds(d.elements), active)
  {
    var ids := TableIds(d.elements);
    var canonical := CanonicalIds(ids);
    CountsAll(canonical, active);
    if NamesActiveTables(ids, active) {
      AllCounted(canonical, active);
    }
    if ReferencesOk(d, active) {
      assert forall i :: 0 <= i < |ids| ==> canonical[i] == Canonical(ids[i]);
    }
  }

  const LOWER := "aaaaaaaa-aaaa-1aaa-8aaa-aaaaaaaaaaaa"
  const MIXED := "Aaaaaaaa-aaaa-1aaa-8aaa-aaaaaaaaaaaa"

  function OneTable(id: string, table: string): Element {
    Element(id, Table(table, true), 0.0, 0.0, 8.0, 8.0, 0.0)
  }

  lemma BothAreUuids()
    ensures Uuid(LOWER) && Uuid(MIXED) && LOWER != MIXED
  {
    assert LOWER[0] != MIXED[0];
  }

  lemma SameTable()
    ensures Canonical(LOWER) == Canonical(MIXED)
  {
  }

  lemma TwoTables(first: Element, second: Element)
    requires first.shape.Table? && second.shape.Table?
    ensures TableIds([first, second]) == [first.shape.diningTableId, second.shape.diningTableId]
  {
    assert [first, second][..1] == [first];
    assert [first][..0] == [];
    assert TableIds([first]) == [first.shape.diningTableId];
  }

  lemma TwoElementsOk(first: Element, second: Element, w: real, h: real)
    requires ElementOk(first, w, h) && ElementOk(second, w, h) && first.id != second.id
    requires first.shape.Table? && second.shape.Table? && first.shape.diningTableId != second.shape.diningTableId
    ensures ElementsOk([first, second], w, h)
  {
  }

  /** A document with one table under two spellings. */
  function TwoSpellings(): Document {
    EMPTY.(elements := [OneTable("a", LOWER), OneTable("b", MIXED)])
  }

  lemma RefusedWhenRepeated(d: Document, active: set<string>)
    requires |TableIds(d.elements)| == 2 && Canonical(TableIds(d.elements)[0]) == Canonical(TableIds(d.elements)[1])
    ensures !ReferencesOk(d, active)
  {
    ReferencesExactly(d, active);
  }

  lemma SpellingsAreRefused(active: set<string>)
    ensures TableIds(TwoSpellings().elements) == [LOWER, MIXED] && !ReferencesOk(TwoSpellings(), active)
  {
    TwoTables(OneTable("a", LOWER), OneTable("b", MIXED));
    SameTable();
    RefusedWhenRepeated(TwoSpellings(), active);
  }

  /** Validation alone lets one table through under two spellings; the reference check always refuses it. */
  lemma SpellingsEscapeValidation(active: set<string>)
    ensures Validate(Encode(TwoSpellings())) == Ok(TwoSpellings()) && !ReferencesOk(TwoSpellings(), active)
  {
    SpellingsAreWellFormed();
    SpellingsAreRefused(active);
    DocumentRoundTrip(TwoSpellings());
  }

  lemma SpellingsAreWellFormed()
    ensures WellFormed(TwoSpellings())
  {
    BothAreUuids();
    assert "a"[0] != "b"[0];
    TwoElementsOk(OneTable("a", LOWER), OneTable("b", MIXED), 1200.0, 800.0);
  }
}
