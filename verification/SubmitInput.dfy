/** Validation of the document a submit request carries. */
module SubmitInput {
  import opened Wrappers
  import opened JsText

  const MAX_ITEMS: nat := 50
  const MAX_DESCRIPTION_LENGTH: nat := 200
  const MAX_QUANTITY: int := 999
  const MAX_UNIT_PRICE_CENTS: int := 100_000_000
  const MAX_OPERATION_ID_LENGTH: nat := 128
  const MAX_SAFE_INTEGER: int := 0x1F_FFFF_FFFF_FFFF

  predicate IsSafeInteger(x: int) {
    -MAX_SAFE_INTEGER <= x <= MAX_SAFE_INTEGER
  }

  /** A JSON value where an integer is expected; anything else is `NotAnInteger`. */
  datatype RawNumber = NotAnInteger | Integer(value: int)

  /** A JSON value where an object is expected; a missing or non-string text is `None`. */
  datatype RawItem = NotAnItem | RawItem(
    description: Option<string>, quantity: RawNumber, grossUnitPriceCents: RawNumber, vatRate: RawNumber)

  datatype RawPayment = NotAPayment | RawPayment(cashCents: RawNumber, electronicCents: RawNumber)

  datatype RawInput = NotAnInput | RawInput(
    operationId: Option<string>, fiscalId: Option<string>, items: Option<seq<RawItem>>, payment: RawPayment)

  datatype Item = Item(description: string, quantity: int, grossUnitPriceCents: int, vatRate: int)

  datatype Payment = Payment(cashCents: int, electronicCents: int)

  datatype SubmitRequest = SubmitRequest(
    operationId: string, fiscalId: string, items: seq<Item>, payment: Payment, grossTotalCents: int)

  function SafeInteger(n: RawNumber): Option<int> {
    if n.Integer? && IsSafeInteger(n.value) then Some(n.value) else None
  }

  function Text(s: Option<string>): string {
    if s.Some? then Trim(s.value) else ""
  }

  predicate SupportedVatRate(rate: int) {
    rate in {4, 5, 10, 22}
  }

  /** The limits of a line, in numbers. */
  predicate ItemOk(item: Item) {
    && 1 <= |item.description| <= 200 && 1 <= item.quantity <= 999 && 1 <= item.grossUnitPriceCents <= 100_000_000
    && item.vatRate in {4, 5, 10, 22}
  }

  /** The item a raw one stands for, when every field is acceptable. */
  ghost predicate Represents(raw: RawItem, item: Item) {
    && raw.RawItem?
    && raw.quantity == Integer(item.quantity) && raw.grossUnitPriceCents == Integer(item.grossUnitPriceCents)
    && raw.vatRate == Integer(item.vatRate)
    && raw.description.Some? && item.description == Trim(raw.description.value)
    && ItemOk(item)
  }

  ghost predicate Unreadable(raw: RawItem) {
    forall item :: !Represents(raw, item)
  }

  function ReadItem(raw: RawItem): (item: Option<Item>)
    ensures item.Some? ==> Represents(raw, item.value)
    ensures item.None? ==> Unreadable(raw)
  {
    if raw.NotAnItem? then None else
    var description := Text(raw.description);
    var quantity := SafeInteger(raw.quantity);
    var price := SafeInteger(raw.grossUnitPriceCents);
    var vatRate := SafeInteger(raw.vatRate);
    if description == "" || |description| > MAX_DESCRIPTION_LENGTH then None
    else if quantity.None? || quantity.value < 1 || quantity.value > MAX_QUANTITY then None
    else if price.None? || price.value < 1 || price.value > MAX_UNIT_PRICE_CENTS then None
    else if vatRate.None? || !SupportedVatRate(vatRate.value) then None
    else Some(Item(description, quantity.value, price.value, vatRate.value))
  }

  function LineGross(item: Item): int {
    item.quantity * item.grossUnitPriceCents
  }

  ghost function GrossTotal(items: seq<Item>): int {
    if items == [] then 0 else GrossTotal(items[..|items| - 1]) + LineGross(items[|items| - 1])
  }

  /** What a caller may rely on after validation. */
  ghost predicate ValidRequest(r: SubmitRequest) {
    && 1 <= |r.operationId| <= 128
    && |r.fiscalId| == 11 && (forall c :: c in r.fiscalId ==> '0' <= c <= '9')
    && 1 <= |r.items| <= 50 && (forall i :: 0 <= i < |r.items| ==> ItemOk(r.items[i]))
    && 0 <= r.payment.cashCents && 0 <= r.payment.electronicCents
    && r.grossTotalCents == GrossTotal(r.items) == r.payment.cashCents + r.payment.electronicCents
  }

  /** The raw input carries exactly the data of the request. */
  ghost predicate Carries(raw: RawInput, r: SubmitRequest) {
    && raw.RawInput? && raw.operationId.Some? && raw.fiscalId.Some? && raw.items.Some? && raw.payment.RawPayment?
    && r.operationId == Trim(raw.operationId.value) && r.fiscalId == Trim(raw.fiscalId.value)
    && |raw.items.value| == |r.items|
    && (forall i :: 0 <= i < |r.items| ==> Represents(raw.items.value[i], r.items[i]))
    && raw.payment.cashCents == Integer(r.payment.cashCents)
    && raw.payment.electronicCents == Integer(r.payment.electronicCents)
  }

  lemma ProductGrows(q: int, a: int, b: int)
    requires q >= 0 && a <= b
    ensures q * a <= q * b
  {
    assert q * (b - a) >= 0;
  }

  lemma LineGrossBounded(item: Item)
    requires ItemOk(item)
    ensures 1 <= item.quantity * item.grossUnitPriceCents == LineGross(item) <= 99_900_000_000
  {
    ProductGrows(item.quantity, 1, item.grossUnitPriceCents);
    ProductGrows(item.quantity, item.grossUnitPriceCents, 100_000_000);
  }

  lemma {:induction false} GrossTotalBounded(items: seq<Item>)
    requires forall i :: 0 <= i < |items| ==> ItemOk(items[i])
    ensures 0 <= GrossTotal(items) <= |items| * 99_900_000_000
  {
    if items != [] {
      GrossTotalBounded(items[..|items| - 1]);
      LineGrossBounded(items[|items| - 1]);
    }
  }

  /** Every accepted document stays far inside the integers a double holds exactly. */
  lemma AcceptedTotalIsSafe(r: SubmitRequest)
    requires ValidRequest(r)
    ensures 1 <= r.grossTotalCents < 5_000_000_000_000 < 9_007_199_254_740_991 == MAX_SAFE_INTEGER
  {
    var n := |r.items| - 1;
    GrossTotalBounded(r.items[..n]);
    LineGrossBounded(r.items[n]);
    assert n * 99_900_000_000 <= 49 * 99_900_000_000;
  }

  lemma RepresentsOne(raw: RawItem, first: Item, second: Item)
    requires Represents(raw, first) && Represents(raw, second)
    ensures first == second
  {
  }

  /** The mapping over the lines; it stops at the first unacceptable one. */
  method ReadItems(rawItems: seq<RawItem>) returns (items: Option<seq<Item>>)
    ensures items.Some? ==> |items.value| == |rawItems|
                            && forall j :: 0 <= j < |rawItems| ==> Represents(rawItems[j], items.value[j])
    ensures items.None? ==> exists j :: 0 <= j < |rawItems| && Unreadable(rawItems[j])
  {
    var read: seq<Item> := [];
    for i := 0 to |rawItems|
      invariant |read| == i
      invariant forall j :: 0 <= j < i ==> Represents(rawItems[j], read[j])
    {
      var item := ReadItem(rawItems[i]);
      if item.None? {
        return None;
      }
      read := read + [item.value];
    }
    items := Some(read);
  }

  /** The summing loop; its two range checks never fire on acceptable lines. */
  method SumGross(items: seq<Item>) returns (grossTotalCents: int)
    requires |items| <= MAX_ITEMS && forall i :: 0 <= i < |items| ==> ItemOk(items[i])
    ensures grossTotalCents == GrossTotal(items) && IsSafeInteger(grossTotalCents)
  {
    grossTotalCents := 0;
    for i := 0 to |items|
      invariant grossTotalCents == GrossTotal(items[..i])
      invariant 0 <= grossTotalCents <= i * 99_900_000_000
    {
      LineGrossBounded(items[i]);
      assert items[..i + 1][..i] == items[..i];
      var lineTotal := items[i].quantity * items[i].grossUnitPriceCents;
      assert IsSafeInteger(lineTotal);
      grossTotalCents := grossTotalCents + lineTotal;
      assert IsSafeInteger(grossTotalCents);
    }
    assert items[..|items|] == items;
  }

  /** Two valid requests carried by the same input have the same lines. */
  lemma SameLines(raw: RawInput, r: SubmitRequest, items: seq<Item>)
    requires Carries(raw, r) && ValidRequest(r)
    requires |items| == |raw.items.value| && forall j :: 0 <= j < |items| ==> Represents(raw.items.value[j], items[j])
    ensures r.items == items
    ensures IsSafeInteger(r.payment.cashCents) && IsSafeInteger(r.payment.electronicCents)
  {
    forall j | 0 <= j < |items|
      ensures r.items[j] == items[j]
    {
      RepresentsOne(raw.items.value[j], r.items[j], items[j]);
    }
    AcceptedTotalIsSafe(r);
  }

  lemma UnreadableLine(raw: RawInput, j: nat, r: SubmitRequest)
    requires raw.RawInput? && raw.items.Some? && j < |raw.items.value| && Unreadable(raw.items.value[j])
    ensures !Carries(raw, r)
  {
    if |r.items| == |raw.items.value| {
      assert !Represents(raw.items.value[j], r.items[j]);
    }
  }

  /** Validation accepts exactly the inputs that carry a valid request. */
  method NormalizeInput(raw: RawInput) returns (result: Option<SubmitRequest>)
    ensures result.Some? ==> ValidRequest(result.value) && Carries(raw, result.value)
    ensures result.None? ==> forall r :: Carries(raw, r) ==> !ValidRequest(r)
  {
    if raw.NotAnInput? {
      return None;
    }
    var operationId := Text(raw.operationId);
    if operationId == "" || |operationId| > MAX_OPERATION_ID_LENGTH {
      return None;
    }
    var fiscalId := Text(raw.fiscalId);
    if |fiscalId| != 11 || !AllDigits(fiscalId) {
      return None;
    }
    if raw.items.None? || |raw.items.value| < 1 || |raw.items.value| > MAX_ITEMS {
      return None;
    }
    var items := ReadItems(raw.items.value);
    if items.None? {
      ghost var j :| 0 <= j < |raw.items.value| && Unreadable(raw.items.value[j]);
      forall r
        ensures !Carries(raw, r)
      {
        UnreadableLine(raw, j, r);
      }
      return None;
    }
    if raw.payment.NotAPayment? {
      return None;
    }
    var cash := SafeInteger(raw.payment.cashCents);
    var electronic := SafeInteger(raw.payment.electronicCents);
    forall r | Carries(raw, r) && ValidRequest(r)
      ensures r.items == items.value && cash == Some(r.payment.cashCents)
              && electronic == Some(r.payment.electronicCents)
    {
      SameLines(raw, r, items.value);
    }
    if cash.None? || cash.value < 0 {
      return None;
    }
    if electronic.None? || electronic.value < 0 {
      return None;
    }
    var grossTotalCents := SumGross(items.value);
    var paymentTotalCents := cash.value + electronic.value;
    if !IsSafeInteger(paymentTotalCents) || paymentTotalCents != grossTotalCents {
      return None;
    }
    result := Some(SubmitRequest(operationId, fiscalId, items.value, Payment(cash.value, electronic.value),
                                 grossTotalCents));
  }
}
