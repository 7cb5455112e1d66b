/** Decimal money text and the int64 smallest unit: the parser of
    wallet/service.go and the printer of wallet/wallet.go. */
module Money {
  import opened Int64

  datatype Currency = USD | IDR | EUR

  const DECIMAL_PLACES: nat := 2
  const SMALLEST_UNIT_FACTOR: int := 100

  // ---- digit strings ------------------------------------------------------

  predicate IsDigit(c: char) {
    '0' <= c <= '9'
  }

  predicate AllDigits(s: string) {
    forall i | 0 <= i < |s| :: IsDigit(s[i])
  }

  function DigitVal(c: char): (v: nat)
    requires IsDigit(c)
    ensures v < 10
  {
    c as int - '0' as int
  }

  /** The number a digit string denotes, in base ten. */
  function DigitsVal(s: string): nat
    requires AllDigits(s)
  {
    if s == "" then 0 else 10 * DigitsVal(s[..|s| - 1]) + DigitVal(s[|s| - 1])
  }

  function Pow10(n: nat): (p: nat)
    ensures p >= 1
  {
    if n == 0 then 1 else 10 * Pow10(n - 1)
  }

  // ---- the library calls the parser makes ---------------------------------

  /** Unicode White_Space, the set strings.TrimSpace removes. */
  predicate IsSpace(c: char) {
    || '\t' <= c <= '\r' || c == ' ' || c == '\U{85}' || c == '\U{A0}' || c == '\U{1680}'
    || '\U{2000}' <= c <= '\U{200A}' || c == '\U{2028}' || c == '\U{2029}'
    || c == '\U{202F}' || c == '\U{205F}' || c == '\U{3000}'
  }

  function TrimLeft(s: string): string {
    if s != "" && IsSpace(s[0]) then TrimLeft(s[1..]) else s
  }

  function TrimRight(s: string): string {
    if s != "" && IsSpace(s[|s| - 1]) then TrimRight(s[..|s| - 1]) else s
  }

  function TrimSpace(s: string): string {
    TrimRight(TrimLeft(s))
  }

  /** Position of the first '.', or the length when there is none. */
  function DotIndex(s: string): (i: nat)
    ensures i <= |s|
    ensures '.' !in s[..i]
    ensures i < |s| ==> s[i] == '.'
  {
    if s == "" || s[0] == '.' then 0
    else
      var j := DotIndex(s[1..]);
      assert s[..j + 1] == [s[0]] + s[1..][..j];
      j + 1
  }

  function WholePart(s: string): string {
    s[..DotIndex(s)]
  }

  function FracPart(s: string): string {
    if DotIndex(s) == |s| then "" else s[DotIndex(s) + 1..]
  }

  /** The string without a leading sign. */
  function Unsigned(s: string): string {
    if s != "" && (s[0] == '+' || s[0] == '-') then s[1..] else s
  }

  /** strconv.ParseInt(s, 10, 64); None stands for its two errors, syntax and range. */
  function ParseInt64(s: string): (r: Option<int>)
    ensures r.Some? ==> InRange(r.value)
    ensures r.Some? && (s == "" || s[0] != '-') ==> r.value >= 0
  {
    var body := Unsigned(s);
    if body == "" || !AllDigits(body) then None
    else
      var v: int := if s[0] == '-' then -(DigitsVal(body) as int) else DigitsVal(body);
      if InRange(v) then Some(v) else None
  }

  function PadZeros(s: string, n: nat): (r: string)
    ensures |r| == if |s| < n then n else |s|
    decreases n - |s|
  {
    if |s| < n then PadZeros(s + "0", n) else s
  }

  // ---- the parser ---------------------------------------------------------

  /** What the USD/EUR branch does with the parsed whole part and a fraction of
      at least three characters: it looks at three of them only, and every
      int64 operation wraps. */
  function ToCents(whole: int, frac: string): (r: Option<int>)
    requires InRange(whole) && |frac| > DECIMAL_PLACES
    ensures r.Some? ==> 0 < r.value <= MAX64
  {
    match ParseInt64(frac[..DECIMAL_PLACES])
    case None => None
    case Some(kept) =>
      var rounded := Wrap64(kept + if frac[DECIMAL_PLACES] >= '5' then 1 else 0);
      var carried := Wrap64(whole + TruncDiv(rounded, SMALLEST_UNIT_FACTOR));
      var cents := Wrap64(Wrap64(carried * SMALLEST_UNIT_FACTOR) + TruncMod(rounded, SMALLEST_UNIT_FACTOR));
      if cents <= 0 then None else Some(cents)
  }

  /** The parser as a function of its arguments, for use in specifications. */
  function ParseAmount(amount: string, currency: Currency): (r: Option<int>)
    ensures r.Some? ==> 0 <= r.value <= MAX64
    ensures r.Some? && currency != IDR ==> 0 < r.value
  {
    var s := TrimSpace(amount);
    if s == "" || s[0] == '-' then None
    else
      match ParseInt64(WholePart(s))
      case None => None
      case Some(whole) =>
        if currency == IDR then Some(whole)
        else ToCents(whole, PadZeros(FracPart(s), DECIMAL_PLACES + 1))
  }

  /** parseAmountToCents, statement by statement. Its rounding half is RoundToCents below. */
  method ParseAmountToCents(amount: string, currency: Currency) returns (r: Option<int>)
    ensures r == ParseAmount(amount, currency)
  {
    var amountStr := TrimSpace(amount);
    if amountStr == "" {
      return None;
    }
    if amountStr[0] == '-' {
      return None;
    }
    var dot := DotIndex(amountStr);
    var wholeStr := amountStr[..dot];
    var fracStr := "";
    if dot < |amountStr| {
      fracStr := amountStr[dot + 1..];
    }
    var whole := ParseInt64(wholeStr);
    if whole.None? {
      return None;
    }
    if currency == IDR {
      return whole;
    }
    while |fracStr| < DECIMAL_PLACES + 1
      invariant PadZeros(fracStr, DECIMAL_PLACES + 1) == PadZeros(FracPart(amountStr), DECIMAL_PLACES + 1)
      decreases DECIMAL_PLACES + 1 - |fracStr|
    {
      fracStr := fracStr + "0";
    }
    r := RoundToCents(whole.value, fracStr);
  }

  /** Rounding, carry and scaling, on the padded fraction. */
  method RoundToCents(wholePart: int, fracStr: string) returns (r: Option<int>)
    requires InRange(wholePart) && |fracStr| > DECIMAL_PLACES
    ensures r == ToCents(wholePart, fracStr)
  {
    var whole := wholePart;
    var keptDigits := fracStr[..DECIMAL_PLACES];
    var roundingDigit := fracStr[DECIMAL_PLACES];
    var kept := ParseInt64(keptDigits);
    if kept.None? {
      return None;
    }
    var fracValue := kept.value;
    if roundingDigit >= '5' {
      fracValue := Wrap64(fracValue + 1);
    }
    var carry := TruncDiv(fracValue, SMALLEST_UNIT_FACTOR);
    fracValue := TruncMod(fracValue, SMALLEST_UNIT_FACTOR);
    whole := Wrap64(whole + carry);
    whole := Wrap64(Wrap64(whole * SMALLEST_UNIT_FACTOR) + fracValue);
    if whole <= 0 {
      return None;
    }
    return Some(whole);
  }

  // ---- the printer --------------------------------------------------------

  function DigitChar(d: nat): (c: char)
    requires d < 10
    ensures IsDigit(c) && DigitVal(c) == d
  {
    ('0' as int + d) as char
  }

  /** Decimal digits of a natural number. */
  function Itoa(n: nat): (s: string)
    ensures s != "" && AllDigits(s) && DigitsVal(s) == n
  {
    if n < 10 then [DigitChar(n)]
    else
      var s := Itoa(n / 10) + [DigitChar(n % 10)];
      assert s[..|s| - 1] == Itoa(n / 10);
      s
  }

  /** fmt's %d. */
  function FormatInt(n: int): string {
    if n < 0 then "-" + Itoa(-n) else Itoa(n)
  }

  /** fmt's %02d. */
  function FormatInt2(n: int): string {
    if 0 <= n < 10 then "0" + Itoa(n) else FormatInt(n)
  }

  /** Go's unary minus on an int64: the least one is its own negation. */
  function Negate64(x: int): int {
    if x == MIN64 then MIN64 else -x
  }

  /** The text of an amount whose sign has been dealt with. */
  function AmountText(cents: int, currency: Currency): string {
    if currency != IDR then
      FormatInt(TruncDiv(cents, SMALLEST_UNIT_FACTOR)) + "." + FormatInt2(TruncMod(cents, SMALLEST_UNIT_FACTOR))
    else
      FormatInt(cents)
  }

  /** FormatCents. */
  function FormatCents(cents: int, currency: Currency): string {
    if cents < 0 then "-" + AmountText(Negate64(cents), currency) else AmountText(cents, currency)
  }
}
