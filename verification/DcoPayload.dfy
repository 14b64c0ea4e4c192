/**
 * The VAT arithmetic of the posted payload, in exact numbers: each line's taxable amount and VAT, the header sums,
 * and what is left of their identities once every amount is printed with eight decimals.
 */
module DcoPayload {
  import opened Wrappers
  import opened SubmitInput
  import opened DecimalText
  import FastSubmit

  datatype PayloadLine = PayloadLine(
    quantita: string, descrizioneProdotto: string, prezzoLordo: string, prezzoUnitario: string, aliquotaIVA: string,
    importoIVA: string, imponibile: string, totale: string)

  datatype Payload = Payload(
    importoTotaleIva: string, totaleImponibile: string, ammontareComplessivo: string,
    elementiContabili: seq<PayloadLine>,
    contanti: string, elettronico: string)

  datatype MapperError = TotalMismatch | PaymentMismatch

  /** An item the arithmetic is defined for; every normalised item is one. */
  predicate NonNegative(item: Item) {
    item.quantity >= 0 && item.grossUnitPriceCents >= 0 && item.vatRate >= 0
  }

  /** `rationalEuroFromGrossCents`: the part of a gross amount that is not VAT. */
  function Taxable(grossCents: int, vatRate: int): real
    requires vatRate >= 0
  {
    grossCents as real / (100 + vatRate) as real
  }

  function LineTaxable(item: Item): real
    requires NonNegative(item)
  {
    Taxable(LineGross(item), item.vatRate)
  }

  function LineVat(item: Item): real
    requires NonNegative(item)
  {
    LineGross(item) as real / 100.0 - LineTaxable(item)
  }

  predicate AllNonNegative(items: seq<Item>) {
    forall i :: 0 <= i < |items| ==> NonNegative(items[i])
  }

  ghost function TaxableSum(items: seq<Item>): real
    requires AllNonNegative(items)
  {
    if items == [] then 0.0 else TaxableSum(items[..|items| - 1]) + LineTaxable(items[|items| - 1])
  }

  ghost function VatSum(items: seq<Item>): real
    requires AllNonNegative(items)
  {
    if items == [] then 0.0 else VatSum(items[..|items| - 1]) + LineVat(items[|items| - 1])
  }

  function LineTexts(item: Item, taxable: real, vat: real, grossCents: int): PayloadLine
    requires NonNegative(item)
  {
    PayloadLine(
      ToFixed(item.quantity as real, 2), item.description, EuroFromCents(item.grossUnitPriceCents, 8),
      ToFixed(Taxable(item.grossUnitPriceCents, item.vatRate), 8), Digits(item.vatRate),
      ToFixed(vat, 8), ToFixed(taxable, 8), EuroFromCents(grossCents, 8))
  }

  function MapLine(item: Item): PayloadLine
    requires NonNegative(item)
  {
    LineTexts(item, LineTaxable(item), LineVat(item), LineGross(item))
  }

  function MappedLines(items: seq<Item>): (r: seq<PayloadLine>)
    requires AllNonNegative(items)
    ensures |r| == |items|
  {
    if items == [] then [] else MappedLines(items[..|items| - 1]) + [MapLine(items[|items| - 1])]
  }

  lemma {:induction false} MappedLinesAt(items: seq<Item>, i: nat)
    requires AllNonNegative(items) && i < |items|
    ensures MappedLines(items)[i] == MapLine(items[i])
  {
    if i < |items| - 1 {
      MappedLinesAt(items[..|items| - 1], i);
    }
  }

  lemma SumsSnoc(items: seq<Item>, i: nat)
    requires AllNonNegative(items) && i < |items|
    ensures GrossTotal(items[..i + 1]) == GrossTotal(items[..i]) + LineGross(items[i])
    ensures TaxableSum(items[..i + 1]) == TaxableSum(items[..i]) + LineTaxable(items[i])
    ensures VatSum(items[..i + 1]) == VatSum(items[..i]) + LineVat(items[i])
    ensures MappedLines(items[..i + 1]) == MappedLines(items[..i]) + [MapLine(items[i])]
  {
    assert items[..i + 1][..i] == items[..i];
  }

  /** The callback: one line's three amounts and its texts. */
  method OneLine(item: Item) returns (lineGrossCents: int, lineTaxable: real, lineVat: real, line: PayloadLine)
    requires NonNegative(item)
    ensures lineGrossCents == LineGross(item) && lineTaxable == LineTaxable(item) && lineVat == LineVat(item)
    ensures line == MapLine(item)
    ensures lineTaxable + lineVat == lineGrossCents as real / 100.0
  {
    lineGrossCents := item.grossUnitPriceCents * item.quantity;
    assert lineGrossCents == LineGross(item);
    lineTaxable := Taxable(lineGrossCents, item.vatRate);
    lineVat := lineGrossCents as real / 100.0 - lineTaxable;
    line := LineTexts(item, lineTaxable, lineVat, lineGrossCents);
  }

  /** The mapping over the lines, with its three accumulators. */
  method MapLines(items: seq<Item>)
    returns (calculatedGrossCents: int, taxableTotal: real, vatTotal: real, lines: seq<PayloadLine>)
    requires AllNonNegative(items)
    ensures calculatedGrossCents == GrossTotal(items) && taxableTotal == TaxableSum(items) && vatTotal == VatSum(items)
    ensures lines == MappedLines(items)
  {
    calculatedGrossCents, taxableTotal, vatTotal, lines := 0, 0.0, 0.0, [];
    for i := 0 to |items|
      invariant calculatedGrossCents == GrossTotal(items[..i])
      invariant taxableTotal == TaxableSum(items[..i]) && vatTotal == VatSum(items[..i])
      invariant lines == MappedLines(items[..i])
    {
      SumsSnoc(items, i);
      var lineGrossCents, lineTaxable, lineVat, line := OneLine(items[i]);
      calculatedGrossCents := calculatedGrossCents + lineGrossCents;
      taxableTotal := taxableTotal + lineTaxable;
      vatTotal := vatTotal + lineVat;
      lines := lines + [line];
    }
    assert items[..|items|] == items;
  }

  /** `mapAdeDcoSalePayload`: the two totals are checked after the lines were mapped. */
  method MapSalePayload(items: seq<Item>, payment: Payment, expectedGrossTotalCents: int)
    returns (result: Result<Payload, MapperError>)
    requires AllNonNegative(items)
    ensures result == Err(TotalMismatch) <==> GrossTotal(items) != expectedGrossTotalCents
    ensures result == Err(PaymentMismatch) <==>
              GrossTotal(items) == expectedGrossTotalCents
                && payment.cashCents + payment.electronicCents != expectedGrossTotalCents
    ensures result.Ok? ==>
              && result.value.importoTotaleIva == ToFixed(VatSum(items), 8)
              && result.value.totaleImponibile == ToFixed(TaxableSum(items), 8)
              && result.value.ammontareComplessivo == EuroFromCents(GrossTotal(items), 8)
              && result.value.elementiContabili == MappedLines(items)
              && result.value.contanti == EuroFromCents(payment.cashCents, 2)
              && result.value.elettronico == EuroFromCents(payment.electronicCents, 2)
  {
    var calculatedGrossCents, taxableTotal, vatTotal, lines := MapLines(items);
    if calculatedGrossCents != expectedGrossTotalCents {
      return Err(TotalMismatch);
    }
    if payment.cashCents + payment.electronicCents != expectedGrossTotalCents {
      return Err(PaymentMismatch);
    }
    result := Ok(Payload(
      ToFixed(vatTotal, 8), ToFixed(taxableTotal, 8), EuroFromCents(expectedGrossTotalCents, 8), lines,
      EuroFromCents(payment.cashCents, 2), EuroFromCents(payment.electronicCents, 2)));
  }

  // ---------------------------------------------------------------------------------------------
  // Exact identities
  // ---------------------------------------------------------------------------------------------

  /** Taxable amount and VAT make the gross, and the VAT is the rate's share of the taxable amount. */
  lemma VatDecomposition(grossCents: nat, vatRate: nat)
    ensures var taxable := Taxable(grossCents, vatRate);
            var vat := grossCents as real / 100.0 - taxable;
            && taxable >= 0.0 && vat >= 0.0
            && vat * 100.0 == taxable * vatRate as real
  {
    var taxable, divisor := Taxable(grossCents, vatRate), (100 + vatRate) as real;
    assert taxable * divisor == grossCents as real;
    assert taxable * divisor == taxable * 100.0 + taxable * vatRate as real;
    assert taxable >= 0.0 by {
      if taxable < 0.0 {
        NegativeProduct(taxable, divisor);
      }
    }
    assert taxable * vatRate as real >= 0.0;
  }

  lemma NegativeProduct(x: real, d: real)
    requires x < 0.0 && d > 0.0
    ensures x * d < 0.0
  {
  }

  lemma {:induction false} SumsAddUp(items: seq<Item>)
    requires AllNonNegative(items)
    ensures TaxableSum(items) + VatSum(items) == GrossTotal(items) as real / 100.0
    ensures TaxableSum(items) >= 0.0 && VatSum(items) >= 0.0 && GrossTotal(items) >= 0
  {
    if items != [] {
      var item := items[|items| - 1];
      SumsAddUp(items[..|items| - 1]);
      assert LineGross(item) >= 0;
      VatDecomposition(LineGross(item), item.vatRate);
    }
  }

  // ---------------------------------------------------------------------------------------------
  // Rounding
  // ---------------------------------------------------------------------------------------------

  const SCALE := 100_000_000.0

  /** Units of the eighth decimal. */
  function Rounded(x: real): int {
    (x * SCALE + 0.5).Floor
  }

  /** Exactly half way between two printable amounts. */
  predicate Tie(x: real) {
    (x * SCALE).Floor as real + 0.5 == x * SCALE
  }

  lemma RoundedIsUnits(x: real)
    requires x >= 0.0
    ensures Rounded(x) == Units(x, 8) && ToFixed(x, 8) == Fixed(Rounded(x), 8)
  {
    ScaledEight(x);
  }

  lemma FloorParts(y: real, n: int)
    ensures (y + 0.5).Floor + (n as real - y + 0.5).Floor == n + if y.Floor as real + 0.5 == y then 1 else 0
  {
    var f := y.Floor;
    assert y < f as real + 0.5 ==> (y + 0.5).Floor == f && (n as real - y + 0.5).Floor == n - f;
    assert y == f as real + 0.5 ==> (y + 0.5).Floor == f + 1 && (n as real - y + 0.5).Floor == n - f;
    assert y > f as real + 0.5 ==> (y + 0.5).Floor == f + 1 && (n as real - y + 0.5).Floor == n - f - 1;
  }

  /** The two printed parts of a printable whole: equal to it, or one unit more exactly when they are ties. */
  lemma RoundedParts(x: real, units: int)
    ensures Rounded(x) + Rounded(units as real / SCALE - x) == units + if Tie(x) then 1 else 0
  {
    var y := x * SCALE;
    assert (units as real / SCALE - x) * SCALE == units as real - y;
    FloorParts(y, units);
  }

  lemma CentsArePrintable(cents: int)
    ensures cents as real / 100.0 == (cents * 1_000_000) as real / SCALE
    ensures Rounded(cents as real / 100.0) == cents * 1_000_000
  {
    assert cents as real / 100.0 * SCALE == (cents * 1_000_000) as real;
  }

  /** For any rate: the printed taxable amount and VAT exceed the printed gross by one unit exactly on a tie. */
  lemma LineRounding(item: Item)
    requires NonNegative(item)
    ensures Rounded(LineTaxable(item)) + Rounded(LineVat(item))
            == Rounded(LineGross(item) as real / 100.0) + if Tie(LineTaxable(item)) then 1 else 0
  {
    CentsArePrintable(LineGross(item));
    RoundedParts(LineTaxable(item), LineGross(item) * 1_000_000);
  }

  /** The same for the header, over any lines. */
  lemma HeaderRounding(items: seq<Item>)
    requires AllNonNegative(items)
    ensures Rounded(TaxableSum(items)) + Rounded(VatSum(items))
            == Rounded(GrossTotal(items) as real / 100.0) + if Tie(TaxableSum(items)) then 1 else 0
  {
    SumsAddUp(items);
    CentsArePrintable(GrossTotal(items));
    RoundedParts(TaxableSum(items), GrossTotal(items) * 1_000_000);
  }

  ghost function RoundedLines(items: seq<Item>): int
    requires AllNonNegative(items)
  {
    if items == [] then 0 else RoundedLines(items[..|items| - 1]) + Rounded(LineTaxable(items[|items| - 1]))
  }

  lemma {:induction false} RoundedLinesDrift(items: seq<Item>)
    requires AllNonNegative(items)
    ensures -(|items| as real) <= 2.0 * (RoundedLines(items) as real - TaxableSum(items) * SCALE) <= |items| as real
  {
    if items != [] {
      RoundedLinesDrift(items[..|items| - 1]);
      var x := LineTaxable(items[|items| - 1]);
      assert TaxableSum(items) * SCALE == TaxableSum(items[..|items| - 1]) * SCALE + x * SCALE;
    }
  }

  /** The printed lines add up to the printed total within (n + 1) / 2 units of the eighth decimal. */
  lemma RoundedLinesNearTotal(items: seq<Item>)
    requires AllNonNegative(items)
    ensures -(|items| + 1) <= 2 * (RoundedLines(items) - Rounded(TaxableSum(items))) <= |items| + 1
  {
    RoundedLinesDrift(items);
  }

  // ---------------------------------------------------------------------------------------------
  // The rates in use never tie
  // ---------------------------------------------------------------------------------------------

  /** A common denominator of 104, 105, 110 and 122. */
  const DENOMINATOR := 7_327_320

  function Weight(vatRate: int): int
    requires SupportedVatRate(vatRate)
  {
    if vatRate == 4 then 70_455 else if vatRate == 5 then 69_784 else if vatRate == 10 then 66_612 else 60_060
  }

  predicate AllSupported(items: seq<Item>) {
    AllNonNegative(items) && forall i :: 0 <= i < |items| ==> SupportedVatRate(items[i].vatRate)
  }

  ghost function Numerator(items: seq<Item>): int
    requires AllSupported(items)
  {
    if items == [] then 0
    else Numerator(items[..|items| - 1]) + LineGross(items[|items| - 1]) * Weight(items[|items| - 1].vatRate)
  }

  lemma WeightedTaxable(grossCents: int, vatRate: int)
    requires SupportedVatRate(vatRate)
    ensures Taxable(grossCents, vatRate) * DENOMINATOR as real == (grossCents * Weight(vatRate)) as real
  {
    var c := grossCents as real;
    assert c / 104.0 * 7_327_320.0 == c * 70_455.0;
    assert c / 105.0 * 7_327_320.0 == c * 69_784.0;
    assert c / 110.0 * 7_327_320.0 == c * 66_612.0;
    assert c / 122.0 * 7_327_320.0 == c * 60_060.0;
  }

  lemma {:induction false} WeightedSum(items: seq<Item>)
    requires AllSupported(items)
    ensures TaxableSum(items) * DENOMINATOR as real == Numerator(items) as real
  {
    if items != [] {
      var item := items[|items| - 1];
      WeightedSum(items[..|items| - 1]);
      WeightedTaxable(LineGross(item), item.vatRate);
      assert TaxableSum(items) * DENOMINATOR as real
             == TaxableSum(items[..|items| - 1]) * DENOMINATOR as real + LineTaxable(item) * DENOMINATOR as real;
    }
  }

  lemma OddIsNotEven(a: int, k: int)
    ensures 200_000_000 * a != (2 * k + 1) * 7_327_320
  {
    assert 5_000_000 * a != 2 * (183_183 * k) + 183_183;
  }

  /** A fraction over the common denominator is never half a unit: one side would be odd, the other even. */
  lemma NoTie(x: real, numerator: int)
    requires x * DENOMINATOR as real == numerator as real
    ensures !Tie(x)
  {
    var k := (x * SCALE).Floor;
    OddIsNotEven(numerator, k);
    assert Tie(x) ==> (200_000_000 * numerator) as real == ((2 * k + 1) * 7_327_320) as real;
  }

  /** Under the supported rates every line's printed taxable amount and VAT add up to its printed gross. */
  lemma LinePartsAddUp(item: Item)
    requires NonNegative(item) && SupportedVatRate(item.vatRate)
    ensures Rounded(LineTaxable(item)) + Rounded(LineVat(item)) == Rounded(LineGross(item) as real / 100.0)
  {
    LineRounding(item);
    WeightedTaxable(LineGross(item), item.vatRate);
    NoTie(LineTaxable(item), LineGross(item) * Weight(item.vatRate));
  }

  /** And so do the header's, whatever mix of rates the lines have. */
  lemma HeaderPartsAddUp(items: seq<Item>)
    requires AllSupported(items)
    ensures Rounded(TaxableSum(items)) + Rounded(VatSum(items)) == Rounded(GrossTotal(items) as real / 100.0)
  {
    HeaderRounding(items);
    WeightedSum(items);
    NoTie(TaxableSum(items), Numerator(items));
  }

  // ---------------------------------------------------------------------------------------------
  // The printed payload
  // ---------------------------------------------------------------------------------------------

  /** The three texts read as amounts of eight decimals, the first two adding up to the third. */
  ghost predicate TextsAddUp(taxable: string, vat: string, total: string) {
    exists t: nat, v: nat ::
      && Plain(taxable) == Some(Decimal(false, t, 8)) && Plain(vat) == Some(Decimal(false, v, 8))
      && Plain(total) == Some(Decimal(false, t + v, 8))
  }

  lemma ReadsAs(x: real)
    requires x >= 0.0
    ensures Rounded(x) >= 0 && Plain(ToFixed(x, 8)) == Some(Decimal(false, Rounded(x), 8))
  {
    RoundedIsUnits(x);
    FixedReadsBack(Rounded(x), 8);
  }

  /** Three texts that print two parts and their whole add up. */
  lemma PartsRead(taxable: real, vat: real, gross: real, first: string, second: string, whole: string)
    requires taxable >= 0.0 && vat >= 0.0 && gross >= 0.0 && Rounded(taxable) + Rounded(vat) == Rounded(gross)
    requires first == ToFixed(taxable, 8) && second == ToFixed(vat, 8) && whole == ToFixed(gross, 8)
    ensures TextsAddUp(first, second, whole)
  {
    ReadsAs(taxable);
    ReadsAs(vat);
    ReadsAs(gross);
  }

  lemma ValidItems(r: SubmitRequest)
    requires ValidRequest(r)
    ensures AllSupported(r.items) && GrossTotal(r.items) == r.grossTotalCents >= 1
  {
    AcceptedTotalIsSafe(r);
  }

  lemma LineSigns(item: Item)
    requires ItemOk(item)
    ensures LineGross(item) as real / 100.0 >= 0.0 && LineTaxable(item) >= 0.0 && LineVat(item) >= 0.0
  {
    LineGrossBounded(item);
    VatDecomposition(LineGross(item), item.vatRate);
  }

  lemma LineAmounts(item: Item)
    requires NonNegative(item)
    ensures var line := MapLine(item);
            && line.imponibile == ToFixed(LineTaxable(item), 8) && line.importoIVA == ToFixed(LineVat(item), 8)
            && line.totale == ToFixed(LineGross(item) as real / 100.0, 8)
  {
  }

  lemma LinePartsRead(item: Item, imponibile: string, importoIVA: string, totale: string)
    requires ItemOk(item)
    requires imponibile == ToFixed(LineTaxable(item), 8) && importoIVA == ToFixed(LineVat(item), 8)
    requires totale == ToFixed(LineGross(item) as real / 100.0, 8)
    ensures TextsAddUp(imponibile, importoIVA, totale)
  {
    LineSigns(item);
    LinePartsAddUp(item);
    PartsRead(LineTaxable(item), LineVat(item), LineGross(item) as real / 100.0, imponibile, importoIVA, totale);
  }

  /** Every line of the payload of an accepted document adds up, as printed. */
  lemma PrintedLineAddsUp(item: Item)
    requires ItemOk(item)
    ensures TextsAddUp(MapLine(item).imponibile, MapLine(item).importoIVA, MapLine(item).totale)
  {
    var line := MapLine(item);
    LineAmounts(item);
    LinePartsRead(item, line.imponibile, line.importoIVA, line.totale);
  }

  /** The header of the payload of an accepted document adds up, as printed. */
  lemma PrintedHeaderAddsUp(r: SubmitRequest)
    requires ValidRequest(r)
    ensures AllNonNegative(r.items)
    ensures TextsAddUp(ToFixed(TaxableSum(r.items), 8), ToFixed(VatSum(r.items), 8),
                       EuroFromCents(r.grossTotalCents, 8))
  {
    ValidItems(r);
    SumsAddUp(r.items);
    HeaderPartsAddUp(r.items);
    PartsRead(TaxableSum(r.items), VatSum(r.items), r.grossTotalCents as real / 100.0,
              ToFixed(TaxableSum(r.items), 8), ToFixed(VatSum(r.items), 8), EuroFromCents(r.grossTotalCents, 8));
  }

  /** Rounding goes to the nearest unit, upwards from half way. */
  lemma RoundedIsNearest(x: real)
    ensures -1.0 < 2.0 * (Rounded(x) as real - x * 100_000_000.0) <= 1.0
  {
  }

  /** The text reads as so many units of the k-th decimal. */
  ghost predicate Reads(text: string, units: int, k: nat) {
    units >= 0 && Plain(text) == Some(Decimal(false, units, k))
  }

  /** An amount of cents, printed with eight decimals, reads as that amount. */
  lemma CentsRead(cents: nat)
    ensures Reads(EuroFromCents(cents, 8), cents * 1_000_000, 8)
  {
    CentsArePrintable(cents);
    ReadsAs(cents as real / 100.0);
  }

  /** And with two. */
  lemma EurosRead(cents: nat)
    ensures Reads(EuroFromCents(cents, 2), cents, 2)
  {
    UnitsOfCents(cents);
    FixedReadsBack(cents, 2);
  }

  lemma WholeReads(n: nat)
    ensures Reads(ToFixed(n as real, 2), n * 100, 2)
  {
    var cents := n * 100;
    assert cents as real / 100.0 == n as real;
    EurosRead(cents);
  }

  lemma RealReads(x: real)
    requires x >= 0.0
    ensures Reads(ToFixed(x, 8), Rounded(x), 8)
  {
    ReadsAs(x);
  }

  /** The fields of a line, as printed: quantity, prices, amounts and rate, each in its place. */
  lemma PrintedLineSays(item: Item)
    requires ItemOk(item)
    ensures var line, divisor := MapLine(item), (100 + item.vatRate) as real;
            && line.descrizioneProdotto == item.description
            && Reads(line.quantita, item.quantity * 100, 2)
            && Reads(line.prezzoLordo, item.grossUnitPriceCents * 1_000_000, 8)
            && Reads(line.totale, item.quantity * item.grossUnitPriceCents * 1_000_000, 8)
            && Reads(line.prezzoUnitario, Rounded(item.grossUnitPriceCents as real / divisor), 8)
            && Reads(line.imponibile, Rounded((item.quantity * item.grossUnitPriceCents) as real / divisor), 8)
            && line.aliquotaIVA == (if item.vatRate == 4 then "4" else if item.vatRate == 5 then "5"
                                    else if item.vatRate == 10 then "10" else "22")
  {
    LineGrossBounded(item);
    LineSigns(item);
    VatDecomposition(item.grossUnitPriceCents, item.vatRate);
    WholeReads(item.quantity);
    CentsRead(item.grossUnitPriceCents);
    CentsRead(LineGross(item));
    RealReads(Taxable(item.grossUnitPriceCents, item.vatRate));
    RealReads(LineTaxable(item));
    RateDigits(item.vatRate);
  }

  lemma RateDigits(vatRate: int)
    requires vatRate in {4, 5, 10, 22}
    ensures Digits(vatRate) == (if vatRate == 4 then "4" else if vatRate == 5 then "5"
                                else if vatRate == 10 then "10" else "22")
  {
    assert Digits(1) == "1" && Digits(2) == "2";
  }

  /** Mapping an accepted document: never refused, and its total, echoed by the service, proves the new document. */
  method MapAccepted(r: SubmitRequest) returns (payload: Payload)
    requires ValidRequest(r)
    ensures DecimalToCents(payload.ammontareComplessivo) == Some(r.grossTotalCents)
    ensures TextsAddUp(payload.totaleImponibile, payload.importoTotaleIva, payload.ammontareComplessivo)
    ensures Reads(payload.contanti, r.payment.cashCents, 2)
    ensures Reads(payload.elettronico, r.payment.electronicCents, 2)
    ensures |payload.elementiContabili| == |r.items|
    ensures forall i :: 0 <= i < |r.items| ==> payload.elementiContabili[i] == MapLine(r.items[i])
    ensures forall i :: 0 <= i < |r.items| ==>
              TextsAddUp(payload.elementiContabili[i].imponibile, payload.elementiContabili[i].importoIVA,
                         payload.elementiContabili[i].totale)
  {
    ValidItems(r);
    var result := MapSalePayload(r.items, r.payment, r.grossTotalCents);
    assert result.Err? ==> result.error == TotalMismatch || result.error == PaymentMismatch;
    payload := result.value;
    AcceptedTotalIsSafe(r);
    EchoedTotal(r.grossTotalCents);
    PrintedHeaderAddsUp(r);
    EurosRead(r.payment.cashCents);
    EurosRead(r.payment.electronicCents);
    forall i | 0 <= i < |r.items|
      ensures payload.elementiContabili[i] == MapLine(r.items[i])
      ensures TextsAddUp(payload.elementiContabili[i].imponibile, payload.elementiContabili[i].importoIVA,
                         payload.elementiContabili[i].totale)
    {
      MappedLinesAt(r.items, i);
      PrintedLineAddsUp(r.items[i]);
    }
  }

  /** What the reconciliation reads off a document that echoes a total. */
  function EchoedCents(total: string): Option<int> {
    var cents := DecimalToCents(total);
    if cents.Some? then Some(cents.value) else None
  }

  /** A last document that echoes the posted total under a new identifier is taken for the new document. */
  lemma EchoReconciles(r: SubmitRequest, before: FastSubmit.Evidence, after: FastSubmit.Evidence)
    requires ValidRequest(r)
    ensures after.grossTotalCents == EchoedCents(EuroFromCents(r.grossTotalCents, 8)) ==>
              (FastSubmit.ReconcilesNewDocument(before, after, r.grossTotalCents) <==>
               FastSubmit.HasIdentifier(after) && !FastSubmit.SameIdentifier(before, after))
  {
    AcceptedTotalIsSafe(r);
    EchoedTotal(r.grossTotalCents);
  }
}
