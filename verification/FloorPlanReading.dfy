/**
 * Which JSON values stand for which floor plan. Validation accepts exactly the values that say a well-formed
 * document, field by field, and returns that document: texts trimmed, unknown fields ignored.
 */
module FloorPlanReading {
  import opened Wrappers
  import opened JsText
  import opened FloorPlanDocument

  ghost predicate NumberAt(v: Value, field: string, x: real) {
    v.Record? && field in v.fields && v.fields[field] == Num(x)
  }

  /** The field holds a text that is s between spaces. */
  ghost predicate TextAt(v: Value, field: string, s: string) {
    v.Record? && field in v.fields && v.fields[field].Str? && s == Trim(v.fields[field].text) && s != ""
  }

  ghost predicate ExactlyAt(v: Value, field: string, s: string) {
    v.Record? && field in v.fields && v.fields[field] == Str(s)
  }

  ghost predicate SaysShape(v: Value, s: Shape) {
    match s
    case Wall => ExactlyAt(v, "type", "WALL")
    case Rectangle => ExactlyAt(v, "type", "RECTANGLE")
    case Ellipse => ExactlyAt(v, "type", "ELLIPSE")
    case Text(text, fontSize) =>
      ExactlyAt(v, "type", "TEXT") && TextAt(v, "text", text) && NumberAt(v, "fontSize", fontSize)
    case Table(table, round) =>
      && ExactlyAt(v, "type", "TABLE") && TextAt(v, "diningTableId", table)
      && ExactlyAt(v, "tableShape", if round then "ROUND" else "RECTANGLE")
  }

  ghost predicate SaysElement(v: Value, e: Element) {
    && TextAt(v, "id", e.id) && SaysShape(v, e.shape)
    && NumberAt(v, "x", e.x) && NumberAt(v, "y", e.y)
    && NumberAt(v, "width", e.width) && NumberAt(v, "height", e.height) && NumberAt(v, "rotation", e.rotation)
  }

  ghost predicate SaysElements(items: seq<Value>, elements: seq<Element>) {
    |items| == |elements| && forall i :: 0 <= i < |items| ==> SaysElement(items[i], elements[i])
  }

  ghost predicate Says(v: Value, d: Document) {
    && NumberAt(v, "schemaVersion", 1.0) && NumberAt(v, "gridSize", d.gridSize)
    && NumberAt(v, "width", d.width) && NumberAt(v, "height", d.height)
    && "elements" in v.fields && v.fields["elements"].List? && SaysElements(v.fields["elements"].items, d.elements)
  }

  /** An identifier has 1 to 80 letters, digits, underscores and hyphens. */
  lemma IdentifierMeans(s: string)
    ensures Identifier(s) <==>
              && 1 <= |s| <= 80
              && forall i :: 0 <= i < |s| ==>
                   var c := s[i] as int;
                   97 <= c <= 122 || 65 <= c <= 90 || 48 <= c <= 57 || c == 95 || c == 45
  {
  }

  /** A uuid: 36 characters, hyphens at 8, 13, 18 and 23, else hex digits; version 1 to 5, variant 8, 9, a or b. */
  lemma UuidMeans(s: string)
    ensures Uuid(s) <==>
              && |s| == 36 && s[8] == s[13] == s[18] == s[23] == '-'
              && (forall i :: 0 <= i < 36 && i !in {8, 13, 18, 23} ==>
                    var c := s[i] as int;
                    48 <= c <= 57 || 97 <= c <= 102 || 65 <= c <= 70)
              && s[14] in "12345" && s[19] in "89abAB"
  {
    assert "12345"[0] == '1' && "12345"[1] == '2' && "12345"[2] == '3' && "12345"[3] == '4' && "12345"[4] == '5';
    assert "89abAB"[0] == '8' && "89abAB"[1] == '9' && "89abAB"[2] == 'a' && "89abAB"[3] == 'b';
    assert "89abAB"[4] == 'A' && "89abAB"[5] == 'B';
  }

  ghost predicate KnownKind(v: Value) {
    v.Record? && "type" in v.fields
    && v.fields["type"] in {Str("WALL"), Str("RECTANGLE"), Str("ELLIPSE"), Str("TEXT"), Str("TABLE")}
  }

  lemma GeometryReads(v: Value, e: Element, w: real, h: real)
    requires v.Record? && e.shape == Wall
    ensures ReadGeometry(v, w, h) == Ok(e) <==>
              && TextAt(v, "id", e.id) && Identifier(e.id) && KnownKind(v)
              && NumberAt(v, "x", e.x) && NumberAt(v, "y", e.y)
              && NumberAt(v, "width", e.width) && NumberAt(v, "height", e.height)
              && NumberAt(v, "rotation", e.rotation)
              && 8.0 <= e.width <= 3000.0 && 8.0 <= e.height <= 3000.0
              && -e.width <= e.x <= w && -e.height <= e.y <= h && -3600.0 <= e.rotation <= 3600.0
  {
  }

  lemma ShapeReads(v: Value, s: Shape)
    requires KnownKind(v)
    ensures ReadShape(v) == Ok(s) <==> SaysShape(v, s) && ShapeOk(s)
  {
    if s.Text? && TextAt(v, "text", s.text) {
      TrimIsTrimmed(v.fields["text"].text);
    }
  }

  lemma ElementReads(v: Value, e: Element, w: real, h: real)
    ensures ReadElement(v, w, h) == Ok(e) <==> SaysElement(v, e) && ElementOk(e, w, h)
  {
    if v.Record? {
      GeometryReads(v, e.(shape := Wall), w, h);
      if KnownKind(v) {
        ShapeReads(v, e.shape);
      }
    }
  }

  lemma SaysSnoc(items: seq<Value>, elements: seq<Element>)
    requires items != [] && |items| == |elements|
    ensures var n := |items| - 1;
            SaysElements(items, elements) <==>
              SaysElements(items[..n], elements[..n]) && SaysElement(items[n], elements[n])
  {
  }

  /** One more element is accepted exactly when the list with it is well-formed. */
  lemma AcceptReads(before: seq<Element>, read: Result<Element, Invalid>, elements: seq<Element>, w: real, h: real)
    requires elements != [] && ElementsOk(before, w, h) && (read.Ok? ==> ElementOk(read.value, w, h))
    ensures var n := |elements| - 1;
            Accept(before, read) == Ok(elements) <==>
              before == elements[..n] && read == Ok(elements[n]) && ElementsOk(elements, w, h)
  {
    var n := |elements| - 1;
    assert elements == elements[..n] + [elements[n]];
    if read.Ok? {
      AcceptOk(before, read.value, w, h);
      assert (before + [read.value])[..|before|] == before;
    }
  }

  lemma {:induction false} ElementsRead(items: seq<Value>, elements: seq<Element>, w: real, h: real)
    ensures ReadElements(items, w, h) == Ok(elements) <==> SaysElements(items, elements) && ElementsOk(elements, w, h)
  {
    ReadElementsOk(items, w, h);
    if items != [] && |items| == |elements| {
      var n := |items| - 1;
      ElementsRead(items[..n], elements[..n], w, h);
      ElementReads(items[n], elements[n], w, h);
      SaysSnoc(items, elements);
      if ElementsOk(elements, w, h) {
        PrefixOk(elements, w, h);
      }
      if ReadElements(items[..n], w, h).Ok? {
        ReadElementsOk(items[..n], w, h);
        ReadElementOk(items[n], w, h);
        AcceptReads(ReadElements(items[..n], w, h).value, ReadElement(items[n], w, h), elements, w, h);
      }
    }
  }

  lemma CanvasReads(v: Value, d: Document)
    requires d.elements == []
    ensures ReadCanvas(v) == Ok(d) <==>
              && NumberAt(v, "schemaVersion", 1.0) && NumberAt(v, "gridSize", d.gridSize)
              && NumberAt(v, "width", d.width) && NumberAt(v, "height", d.height)
              && 400.0 <= d.width <= 5000.0 && 300.0 <= d.height <= 5000.0 && 5.0 <= d.gridSize <= 100.0
              && "elements" in v.fields && v.fields["elements"].List? && |v.fields["elements"].items| <= 500
  {
  }

  /** Validation returns a document exactly when the value says it and it is well-formed. */
  lemma ValidatesExactly(v: Value, d: Document)
    ensures Validate(v) == Ok(d) <==> Says(v, d) && WellFormed(d)
  {
    CanvasReads(v, d.(elements := []));
    if v.Record? && "elements" in v.fields && v.fields["elements"].List? {
      ElementsRead(v.fields["elements"].items, d.elements, d.width, d.height);
    }
  }

  // ---------------------------------------------------------------------------------------------
  // Refusals
  // ---------------------------------------------------------------------------------------------

  /** A refused canvas: the error names a fault of the value. */
  lemma CanvasRefusalIsTrue(v: Value)
    requires ReadCanvas(v).Err?
    ensures match ReadCanvas(v).error
            case NotARecord => !v.Record?
            case UnsupportedVersion => !NumberAt(v, "schemaVersion", 1.0)
            case NotANumber(field) => field in {"width", "height", "gridSize"} && forall x :: !NumberAt(v, field, x)
            case CanvasOutOfRange =>
              forall w, h | NumberAt(v, "width", w) && NumberAt(v, "height", h) ::
                !(400.0 <= w <= 5000.0 && 300.0 <= h <= 5000.0)
            case GridOutOfRange => forall g | NumberAt(v, "gridSize", g) :: !(5.0 <= g <= 100.0)
            case ElementsNotAList => v.Record? && !("elements" in v.fields && v.fields["elements"].List?)
            case TooManyElements =>
              v.Record? && "elements" in v.fields && v.fields["elements"].List?
              && |v.fields["elements"].items| > 500
            case _ => false
  {
  }

  /** A refused geometry. */
  lemma GeometryRefusalIsTrue(v: Value, w: real, h: real)
    requires v.Record? && ReadGeometry(v, w, h).Err?
    ensures match ReadGeometry(v, w, h).error
            case Required(field) => field == "id" && forall s :: !TextAt(v, "id", s)
            case BadIdentifier => exists s :: TextAt(v, "id", s) && !Identifier(s)
            case BadType => !KnownKind(v)
            case NotANumber(field) =>
              field in {"x", "y", "width", "height", "rotation"} && forall x :: !NumberAt(v, field, x)
            case BadSize =>
              forall a, b | NumberAt(v, "width", a) && NumberAt(v, "height", b) ::
                !(8.0 <= a <= 3000.0 && 8.0 <= b <= 3000.0)
            case OutsideCanvas =>
              forall x, y, a, b | NumberAt(v, "x", x) && NumberAt(v, "y", y)
                                  && NumberAt(v, "width", a) && NumberAt(v, "height", b) ::
                !(-a <= x <= w && -b <= y <= h)
            case BadRotation => forall r | NumberAt(v, "rotation", r) :: !(-3600.0 <= r <= 3600.0)
            case _ => false
  {
    assert ReadGeometry(v, w, h).error.BadIdentifier? ==> TextAt(v, "id", StringValue(v, "id").value);
  }

  /** A refused shape. */
  lemma ShapeRefusalIsTrue(v: Value)
    requires KnownKind(v) && ReadShape(v).Err?
    ensures match ReadShape(v).error
            case Required(field) => field in {"text", "diningTableId"} && forall s :: !TextAt(v, field, s)
            case TextTooLong => exists s :: TextAt(v, "text", s) && |s| > 240
            case NotANumber(field) => field == "fontSize" && forall x :: !NumberAt(v, "fontSize", x)
            case BadFontSize => forall x | NumberAt(v, "fontSize", x) :: !(8.0 <= x <= 120.0)
            case BadTable => exists s :: TextAt(v, "diningTableId", s) && !Uuid(s)
            case BadTableShape => !ExactlyAt(v, "tableShape", "ROUND") && !ExactlyAt(v, "tableShape", "RECTANGLE")
            case _ => false
  {
    assert ReadShape(v).error.TextTooLong? ==> TextAt(v, "text", StringValue(v, "text").value);
    assert ReadShape(v).error.BadTable? ==> TextAt(v, "diningTableId", StringValue(v, "diningTableId").value);
  }

  /** A refused element is refused for its own fault, or because its identifier or table was there before. */
  lemma ElementRefusalIsTrue(before: seq<Element>, v: Value, w: real, h: real)
    requires Accept(before, ReadElement(v, w, h)).Err?
    ensures var error := Accept(before, ReadElement(v, w, h)).error;
            || (error == NotARecord && !v.Record?)
            || (v.Record? && ReadGeometry(v, w, h) == Err(error))
            || (KnownKind(v) && ReadGeometry(v, w, h).Ok? && ReadShape(v) == Err(error))
            || (error == DuplicateId && exists i, e ::
                  0 <= i < |before| && SaysElement(v, e) && before[i].id == e.id)
            || (error == DuplicateTable && exists i, e ::
                  0 <= i < |before| && SaysElement(v, e) && before[i].shape.Table? && e.shape.Table?
                  && before[i].shape.diningTableId == e.shape.diningTableId)
  {
    var read := ReadElement(v, w, h);
    if read.Ok? {
      ElementReads(v, read.value, w, h);
    }
  }
}
