/** Amounts as text: printing with a fixed number of decimals, and the two parsers that read euros back as cents. */
module DecimalText {
  import opened Wrappers
  import opened JsText
  import SubmitInput

  function Pow10(k: nat): (p: nat)
    ensures p >= 1
  {
    if k == 0 then 1 else 10 * Pow10(k - 1)
  }

  function Quotient(n: nat, p: nat): (q: nat)
    requires p >= 1
    ensures q * p <= n < q * p + p
  {
    n / p
  }

  function Digit(n: nat): (c: char)
    requires n < 10
    ensures IsDigit(c) && c as int - '0' as int == n
  {
    '0' + n as char
  }

  function Digits(n: nat): (s: string)
    ensures s != ""
  {
    if n < 10 then [Digit(n)] else Digits(n / 10) + [Digit(n % 10)]
  }

  /** The last k digits of n, with leading zeros. */
  function Padded(n: nat, k: nat): (s: string)
    ensures |s| == k
  {
    if k == 0 then "" else Padded(n / 10, k - 1) + [Digit(n % 10)]
  }

  /** n without its last k digits. */
  function Whole(n: nat, k: nat): nat {
    if k == 0 then n else Whole(n / 10, k - 1)
  }

  /** The text of n units of the k-th decimal. */
  function Fixed(n: nat, k: nat): string {
    if k == 0 then Digits(n) else Digits(Whole(n, k)) + "." + Padded(n, k)
  }

  /** `toFixed` of an exact number: rounded to the nearest unit, halves away from zero. */
  function ToFixed(x: real, k: nat): string {
    if x < 0.0 then "-" + Fixed(Units(-x, k), k) else Fixed(Units(x, k), k)
  }

  /** x times 10^k. */
  function Scaled(x: real, k: nat): (r: real)
    ensures x >= 0.0 ==> r >= x
    decreases k
  {
    if k == 0 then x else Scaled(10.0 * x, k - 1)
  }

  /** How many units of the k-th decimal a number rounds to, halves upwards. */
  function Units(x: real, k: nat): (n: nat)
    requires x >= 0.0
  {
    (Scaled(x, k) + 0.5).Floor
  }

  // ---------------------------------------------------------------------------------------------
  // Reading
  // ---------------------------------------------------------------------------------------------

  /** The number `-?numerator / 10^decimals`. */
  datatype Decimal = Decimal(negative: bool, numerator: nat, decimals: nat)

  function ValueOf(s: string): nat
    requires AllDigits(s)
  {
    if s == "" then 0
    else
      assert s[|s| - 1] in s;
      assert forall c :: c in s[..|s| - 1] ==> c in s;
      10 * ValueOf(s[..|s| - 1]) + (s[|s| - 1] as int - '0' as int)
  }

  function PointAt(s: string): (r: Option<nat>)
    ensures r.Some? ==> r.value < |s| && s[r.value] == '.' && '.' !in s[..r.value]
    ensures r.None? ==> '.' !in s
  {
    if s == "" then None
    else if s[0] == '.' then Some(0)
    else
      var rest := PointAt(s[1..]);
      if rest.None? then None else
      assert s[..rest.value + 1] == [s[0]] + s[1..][..rest.value];
      Some(rest.value + 1)
  }

  /** The grammar `\d+(\.\d+)?`. */
  function Unsigned(s: string): Option<Decimal> {
    var point := PointAt(s);
    if point.None? then
      if s != "" && AllDigits(s) then Some(Decimal(false, ValueOf(s), 0)) else None
    else
      var whole, fraction := s[..point.value], s[point.value + 1..];
      if whole == "" || fraction == "" || !AllDigits(whole) || !AllDigits(fraction) then None
      else
        assert AllDigits(whole + fraction);
        Some(Decimal(false, ValueOf(whole + fraction), |fraction|))
  }

  /** The grammar `-?\d+(\.\d+)?`. */
  function Plain(s: string): Option<Decimal> {
    if s != "" && s[0] == '-' then
      var rest := Unsigned(s[1..]);
      if rest.None? then None else Some(rest.value.(negative := true))
    else Unsigned(s)
  }

  /** `Math.round(value * 100)` of a number that is not negative. */
  function RoundToCents(d: Decimal): nat {
    Quotient(200 * d.numerator + Pow10(d.decimals), 2 * Pow10(d.decimals))
  }

  predicate Negative(d: Decimal) {
    d.negative && d.numerator > 0
  }

  function ReplaceFirst(s: string, from: char, to: char): string {
    if s == "" then "" else if s[0] == from then [to] + s[1..] else [s[0]] + ReplaceFirst(s[1..], from, to)
  }

  function RemoveSpaces(s: string): string {
    if s == "" then "" else (if IsSpace(s[0]) then "" else [s[0]]) + RemoveSpaces(s[1..])
  }

  /** `decimalToCents` of a text. */
  function DecimalToCents(s: string): Option<nat> {
    var parsed := Plain(ReplaceFirst(Trim(s), ',', '.'));
    if parsed.None? || Negative(parsed.value) then None
    else
      var cents := RoundToCents(parsed.value);
      if cents <= SubmitInput.MAX_SAFE_INTEGER then Some(cents) else None
  }

  /** The other spellings that `Number` accepts, such as exponents, are kept apart. */
  datatype EuroInput = Cents(cents: nat) | Rejected | OtherSpelling

  /** `parseEuroInputToCents`; an empty field counts as zero. */
  function ParseEuroInput(s: string): EuroInput {
    var normalized := ReplaceFirst(RemoveSpaces(Trim(s)), ',', '.');
    if normalized == "" then Cents(0) else
    var parsed := Plain(normalized);
    if parsed.None? then OtherSpelling
    else if Negative(parsed.value) then Rejected
    else Cents(RoundToCents(parsed.value))
  }

  /** `formatEuroInput`: the browser form's amount, with the form's own separator. */
  function FormatEuroInput(cents: int, separator: char): string {
    var value := ToFixed(cents as real / 100.0, 2);
    if separator == ',' then ReplaceFirst(value, '.', ',') else value
  }

  /** `euroFromCents`. */
  function EuroFromCents(cents: int, decimals: nat): string {
    ToFixed(cents as real / 100.0, decimals)
  }

  // ---------------------------------------------------------------------------------------------
  // Printing and reading digits
  // ---------------------------------------------------------------------------------------------

  lemma {:induction false} DigitsValue(n: nat)
    ensures AllDigits(Digits(n)) && ValueOf(Digits(n)) == n
  {
    if n >= 10 {
      DigitsValue(n / 10);
      var s := Digits(n);
      assert s[..|s| - 1] == Digits(n / 10);
    } else {
      assert Digits(n)[..0] == "";
    }
  }

  lemma {:induction false} PaddedDigits(n: nat, k: nat)
    ensures AllDigits(Padded(n, k))
  {
    if k > 0 {
      PaddedDigits(n / 10, k - 1);
    }
  }

  /** The digits before and after the point, read together, are the number of units. */
  lemma {:induction false} UnitsRead(n: nat, k: nat)
    ensures AllDigits(Digits(Whole(n, k)) + Padded(n, k)) && ValueOf(Digits(Whole(n, k)) + Padded(n, k)) == n
  {
    DigitsValue(Whole(n, k));
    PaddedDigits(n, k);
    if k == 0 {
      assert Digits(n) + "" == Digits(n);
    } else {
      UnitsRead(n / 10, k - 1);
      var s, front := Digits(Whole(n, k)) + Padded(n, k), Digits(Whole(n / 10, k - 1)) + Padded(n / 10, k - 1);
      assert s == front + [Digit(n % 10)];
      assert s[..|s| - 1] == front;
    }
  }

  lemma NoPointInDigits(s: string)
    requires AllDigits(s)
    ensures '.' !in s && ',' !in s && '-' !in s
  {
  }

  lemma PointFound(whole: string, fraction: string)
    requires '.' !in whole
    ensures PointAt(whole + "." + fraction) == Some(|whole|)
  {
    var s := whole + "." + fraction;
    assert s[|whole|] == '.';
    FirstPoint(s, |whole|);
  }

  lemma FirstPoint(s: string, i: nat)
    requires i < |s| && s[i] == '.' && '.' !in s[..i]
    ensures PointAt(s) == Some(i)
  {
    var at := PointAt(s).value;
    assert forall j :: 0 <= j < i ==> s[j] == s[..i][j];
    assert forall j :: 0 <= j < at ==> s[j] == s[..at][j];
  }

  lemma SplitReadsBack(whole: string, fraction: string)
    requires whole != "" && fraction != "" && AllDigits(whole) && AllDigits(fraction)
    ensures AllDigits(whole + fraction)
    ensures Plain(whole + "." + fraction) == Some(Decimal(false, ValueOf(whole + fraction), |fraction|))
  {
    var s := whole + "." + fraction;
    NoPointInDigits(whole);
    PointFound(whole, fraction);
    assert s[..|whole|] == whole && s[|whole| + 1..] == fraction;
    assert whole[0] in whole && s[0] == whole[0];
  }

  /** What is printed with k decimals reads back as exactly that many units. */
  lemma FixedReadsBack(n: nat, k: nat)
    requires k > 0
    ensures Plain(Fixed(n, k)) == Some(Decimal(false, n, k))
  {
    DigitsValue(Whole(n, k));
    PaddedDigits(n, k);
    UnitsRead(n, k);
    SplitReadsBack(Digits(Whole(n, k)), Padded(n, k));
  }

  /** The characters of a printed number: digits and one point. */
  lemma FixedCharacters(n: nat, k: nat)
    requires k > 0
    ensures Fixed(n, k) != ""
            && (forall i :: 0 <= i < |Fixed(n, k)| ==> IsDigit(Fixed(n, k)[i]) || Fixed(n, k)[i] == '.')
  {
    DigitsValue(Whole(n, k));
    PaddedDigits(n, k);
    var whole, fraction := Digits(Whole(n, k)), Padded(n, k);
    assert forall i :: 0 <= i < |whole| ==> whole[i] in whole;
    assert forall i :: 0 <= i < |fraction| ==> fraction[i] in fraction;
  }

  // ---------------------------------------------------------------------------------------------
  // White space and separators
  // ---------------------------------------------------------------------------------------------

  lemma {:induction false} NothingToReplace(s: string, from: char, to: char)
    requires forall i :: 0 <= i < |s| ==> s[i] != from
    ensures ReplaceFirst(s, from, to) == s
  {
    if s != "" {
      NothingToReplace(s[1..], from, to);
    }
  }

  lemma {:induction false} ReplaceThere(s: string, t: string, from: char, to: char)
    requires forall i :: 0 <= i < |s| ==> s[i] != from
    ensures ReplaceFirst(s + [from] + t, from, to) == s + [to] + t
  {
    var all := s + [from] + t;
    if s == "" {
      assert all[1..] == t;
    } else {
      ReplaceThere(s[1..], t, from, to);
      assert all[1..] == s[1..] + [from] + t;
      assert s == [s[0]] + s[1..];
    }
  }

  predicate NoSpace(s: string) {
    forall i :: 0 <= i < |s| ==> !IsSpace(s[i])
  }

  lemma {:induction false} NoSpacesToRemove(s: string)
    requires NoSpace(s)
    ensures RemoveSpaces(s) == s
  {
    if s != "" {
      NoSpacesToRemove(s[1..]);
    }
  }

  lemma NoSpacesToTrim(s: string)
    requires NoSpace(s)
    ensures Trim(s) == s
  {
    TrimIsTrimmed(s);
  }

  lemma DigitsAreNoSpaces(s: string)
    requires AllDigits(s)
    ensures NoSpace(s)
    ensures forall i :: 0 <= i < |s| ==> s[i] != '.' && s[i] != ','
  {
    assert forall i :: 0 <= i < |s| ==> s[i] in s;
  }

  lemma CommaForPoint(whole: string, fraction: string)
    requires AllDigits(whole) && AllDigits(fraction)
    ensures ReplaceFirst(whole + "." + fraction, '.', ',') == whole + "," + fraction
    ensures ReplaceFirst(whole + "," + fraction, ',', '.') == whole + "." + fraction
    ensures NoSpace(whole + "," + fraction)
  {
    DigitsAreNoSpaces(whole);
    DigitsAreNoSpaces(fraction);
    ReplaceThere(whole, fraction, '.', ',');
    ReplaceThere(whole, fraction, ',', '.');
  }

  /** The comma of an Italian form is turned back into the point it replaced. */
  lemma CommaComesBack(n: nat, k: nat)
    requires k > 0
    ensures var shown := ReplaceFirst(Fixed(n, k), '.', ',');
            shown != "" && NoSpace(shown) && ReplaceFirst(shown, ',', '.') == Fixed(n, k)
  {
    DigitsValue(Whole(n, k));
    PaddedDigits(n, k);
    CommaForPoint(Digits(Whole(n, k)), Padded(n, k));
  }

  // ---------------------------------------------------------------------------------------------
  // Cents
  // ---------------------------------------------------------------------------------------------

  lemma Powers()
    ensures Pow10(2) == 100 && Pow10(8) == 100_000_000
  {
    assert Pow10(1) == 10 && Pow10(2) == 100 && Pow10(3) == 1000 && Pow10(4) == 10_000;
    assert Pow10(5) == 100_000 && Pow10(6) == 1_000_000 && Pow10(7) == 10_000_000;
  }

  lemma TimesMonotone(a: int, b: int, p: int)
    requires p >= 0
    ensures a <= b ==> a * p <= b * p
  {
    assert a <= b ==> (b - a) * p >= 0;
  }

  lemma QuotientIs(n: nat, p: nat, q: nat)
    requires p >= 1 && q * p <= n < q * p + p
    ensures Quotient(n, p) == q
  {
    TimesMonotone(Quotient(n, p) + 1, q, p);
    TimesMonotone(q + 1, Quotient(n, p), p);
  }

  lemma ScaledTwo(x: real)
    ensures Scaled(x, 2) == x * 100.0
  {
    assert Scaled(x, 2) == Scaled(10.0 * x, 1) == Scaled(100.0 * x, 0);
  }

  lemma ScaledEight(x: real)
    ensures Scaled(x, 8) == x * 100_000_000.0
  {
    assert Scaled(x, 8) == Scaled(10.0 * x, 7) == Scaled(100.0 * x, 6);
    assert Scaled(100.0 * x, 6) == Scaled(1000.0 * x, 5) == Scaled(10_000.0 * x, 4);
    ScaledTwo(1_000_000.0 * x);
  }

  lemma UnitsOfCents(cents: nat)
    ensures Units(cents as real / 100.0, 2) == cents && Units(cents as real / 100.0, 8) == cents * 1_000_000
  {
    ScaledTwo(cents as real / 100.0);
    ScaledEight(cents as real / 100.0);
  }

  lemma CentsOfUnits(cents: nat)
    ensures RoundToCents(Decimal(false, cents, 2)) == cents
    ensures RoundToCents(Decimal(false, cents * 1_000_000, 8)) == cents
  {
    Powers();
    QuotientIs(200 * cents + 100, 200, cents);
    QuotientIs(200 * (cents * 1_000_000) + 100_000_000, 200_000_000, cents);
  }

  /** The browser form's amount reads back as the same cents, with either separator. */
  lemma EuroInputRoundTrip(cents: nat, separator: char)
    requires separator == '.' || separator == ','
    ensures ParseEuroInput(FormatEuroInput(cents, separator)) == Cents(cents)
  {
    var value := Fixed(cents, 2);
    UnitsOfCents(cents);
    CentsOfUnits(cents);
    FixedReadsBack(cents, 2);
    FixedCharacters(cents, 2);
    CommaComesBack(cents, 2);
    assert EuroFromCents(cents, 2) == value;
    var shown := FormatEuroInput(cents, separator);
    assert shown == if separator == ',' then ReplaceFirst(value, '.', ',') else value;
    NoSpacesToTrim(shown);
    NoSpacesToRemove(shown);
    if separator == '.' {
      NothingToReplace(value, ',', '.');
    }
    assert ReplaceFirst(shown, ',', '.') == value;
  }

  /** A total posted with eight decimals and echoed back is recognised exactly when it is a safe integer of cents. */
  lemma EchoedTotal(cents: nat)
    ensures DecimalToCents(EuroFromCents(cents, 8)) ==
              if cents <= SubmitInput.MAX_SAFE_INTEGER then Some(cents) else None
  {
    var n := cents * 1_000_000;
    UnitsOfCents(cents);
    CentsOfUnits(cents);
    assert EuroFromCents(cents, 8) == Fixed(n, 8);
    FixedReadsBack(n, 8);
    FixedCharacters(n, 8);
    NoSpacesToTrim(Fixed(n, 8));
    NothingToReplace(Fixed(n, 8), ',', '.');
  }

  lemma NegativeTextRefused(n: nat, k: nat)
    requires n > 0 && k > 0
    ensures ParseEuroInput("-" + Fixed(n, k)) == Rejected && DecimalToCents("-" + Fixed(n, k)) == None
  {
    var s := "-" + Fixed(n, k);
    FixedReadsBack(n, k);
    FixedCharacters(n, k);
    NoSpacesToTrim(s);
    NoSpacesToRemove(s);
    NothingToReplace(s, ',', '.');
    assert s[1..] == Fixed(n, k);
  }

  lemma SomeUnits(cents: nat, k: nat)
    requires cents > 0 && k >= 2
    ensures Units(cents as real / 100.0, k) > 0
  {
    var x := cents as real / 100.0;
    assert Scaled(x, k) == Scaled(10.0 * x, k - 1) == Scaled(100.0 * x, k - 2);
  }

  lemma NegativePrintRefused(x: real, k: nat)
    requires x < 0.0 && k > 0 && Units(-x, k) > 0
    ensures ParseEuroInput(ToFixed(x, k)) == Rejected && DecimalToCents(ToFixed(x, k)) == None
  {
    NegativeTextRefused(Units(-x, k), k);
  }

  lemma NegativeCents(cents: int, k: nat)
    requires cents < 0 && k >= 2
    ensures cents as real / 100.0 < 0.0 && Units(-(cents as real / 100.0), k) > 0
  {
    assert -(cents as real / 100.0) == (-cents) as real / 100.0;
    SomeUnits(-cents, k);
  }

  /** An amount below zero, printed with at least two decimals, is refused by both parsers. */
  lemma NegativeAmountIsRefused(cents: int, k: nat)
    requires cents < 0 && k >= 2
    ensures ParseEuroInput(EuroFromCents(cents, k)) == Rejected && DecimalToCents(EuroFromCents(cents, k)) == None
  {
    NegativeCents(cents, k);
    NegativePrintRefused(cents as real / 100.0, k);
  }
}
