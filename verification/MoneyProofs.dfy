/** What the amount parser and the balance printer promise: exact half-up
    rounding on every numeric string, a round trip, and monotonicity. */
module MoneyProofs {
  import opened Int64
  import opened Money

  // ---- the true value of an amount string ---------------------------------

  /** The `numeric` rule of handler.go: optional sign, digits, optional '.' and digits. */
  predicate Numeric(s: string) {
    var u := Unsigned(s);
    && WholePart(u) != "" && AllDigits(WholePart(u))
    && AllDigits(FracPart(u))
    && (DotIndex(u) < |u| ==> FracPart(u) != "")
  }

  predicate Negative(s: string) {
    s != "" && s[0] == '-'
  }

  /** The number a numeric string denotes, sign left out. */
  ghost function Magnitude(s: string): real
    requires Numeric(s)
  {
    var u := Unsigned(s);
    DigitsVal(WholePart(u) + FracPart(u)) as real / Pow10(|FracPart(u)|) as real
  }

  /** Half-up rounding of an amount to hundredths: floor(100 v + 1/2). */
  ghost function HalfUp(v: real): int {
    (100.0 * v + 0.5).Floor
  }

  /** The smallest-unit amount a numeric string ought to be read as. */
  ghost function TrueAmount(s: string, currency: Currency): int
    requires Numeric(s)
  {
    if currency == IDR then Magnitude(s).Floor else HalfUp(Magnitude(s))
  }

  // ---- arithmetic ---------------------------------------------------------

  lemma CancelRealLe(a: real, b: real, t: real)
    requires t > 0.0 && a * t <= b * t
    ensures a <= b
  {
  }

  lemma CancelRealLess(a: real, b: real, t: real)
    requires t > 0.0 && a * t < b * t
    ensures a < b
  {
  }

  /** a/den is at least p/q once the cross products say so. */
  lemma RatioAtLeast(num: int, den: int, p: int, q: int)
    requires den >= 1 && q >= 1 && p * den <= q * num
    ensures p as real <= q as real * (num as real / den as real)
  {
    var v := num as real / den as real;
    assert v * den as real == num as real;
    assert (q as real * v) * den as real == q as real * num as real == (q * num) as real;
    assert p as real * den as real == (p * den) as real;
    CancelRealLe(p as real, q as real * v, den as real);
  }

  lemma RatioBelow(num: int, den: int, p: int, q: int)
    requires den >= 1 && q >= 1 && q * num < p * den
    ensures q as real * (num as real / den as real) < p as real
  {
    var v := num as real / den as real;
    assert v * den as real == num as real;
    assert (q as real * v) * den as real == q as real * num as real == (q * num) as real;
    assert p as real * den as real == (p * den) as real;
    CancelRealLess(q as real * v, p as real, den as real);
  }

  lemma HalfUpOfRatio(num: int, den: int, c: int)
    requires den >= 1 && (2 * c - 1) * den <= 200 * num < (2 * c + 1) * den
    ensures HalfUp(num as real / den as real) == c
  {
    RatioAtLeast(num, den, 2 * c - 1, 200);
    RatioBelow(num, den, 2 * c + 1, 200);
  }

  lemma FloorOfRatio(num: int, den: int, c: int)
    requires den >= 1 && c * den <= num < (c + 1) * den
    ensures (num as real / den as real).Floor == c
  {
    RatioAtLeast(num, den, c, 1);
    RatioBelow(num, den, c + 1, 1);
  }

  lemma TimesTen(a: int, b: int)
    ensures a * (10 * b) == 10 * (a * b)
  {
  }

  lemma TenTimes(a: int, b: int)
    ensures (10 * a) * b == a * (10 * b)
  {
  }

  lemma {:induction false} Pow10Sum(a: nat, b: nat)
    ensures Pow10(a + b) == Pow10(a) * Pow10(b)
  {
    if b == 0 {
    } else {
      Pow10Sum(a, b - 1);
      TimesTen(Pow10(a), Pow10(b - 1));
    }
  }

  // ---- digit strings ------------------------------------------------------

  lemma {:induction false} DigitsBelow(s: string)
    requires AllDigits(s)
    ensures DigitsVal(s) < Pow10(|s|)
  {
    if s == "" {
    } else {
      DigitsBelow(s[..|s| - 1]);
    }
  }

  lemma {:induction false} DigitsConcat(s: string, t: string)
    requires AllDigits(s) && AllDigits(t)
    ensures AllDigits(s + t)
    ensures DigitsVal(s + t) == DigitsVal(s) * Pow10(|t|) + DigitsVal(t)
  {
    if t == "" {
      assert s + t == s;
    } else {
      var front := t[..|t| - 1];
      DigitsConcat(s, front);
      assert (s + t)[..|s + t| - 1] == s + front;
      assert (s + t)[|s + t| - 1] == t[|t| - 1];
      TimesTen(DigitsVal(s), Pow10(|front|));
    }
  }

  lemma {:induction false} PadKeepsValue(s: string, n: nat)
    requires AllDigits(s)
    ensures AllDigits(PadZeros(s, n)) && |s| <= |PadZeros(s, n)|
    ensures DigitsVal(PadZeros(s, n)) == DigitsVal(s) * Pow10(|PadZeros(s, n)| - |s|)
    decreases n - |s|
  {
    if |s| < n {
      var longer := s + "0";
      assert longer[..|longer| - 1] == s;
      PadKeepsValue(longer, n);
      TenTimes(DigitsVal(s), Pow10(|PadZeros(s, n)| - |longer|));
    }
  }

  lemma NoSpaceNoTrim(s: string)
    requires s != "" && !IsSpace(s[0]) && !IsSpace(s[|s| - 1])
    ensures TrimSpace(s) == s
  {
  }

  /** Removing a sign moves neither the '.' nor the fraction. */
  lemma UnsignedParts(s: string)
    requires Unsigned(s) != s
    ensures s != "" && WholePart(s) == [s[0]] + WholePart(Unsigned(s)) && FracPart(s) == FracPart(Unsigned(s))
  {
    assert DotIndex(s) == DotIndex(s[1..]) + 1;
  }

  /** The parser's view of a numeric string: trimming does nothing, and the
      whole part is read as the number its digits denote when that fits. */
  lemma NumericParts(s: string)
    requires Numeric(s)
    ensures s != "" && TrimSpace(s) == s
    ensures FracPart(s) == FracPart(Unsigned(s))
    ensures var w := DigitsVal(WholePart(Unsigned(s)));
            !Negative(s) ==> ParseInt64(WholePart(s)) == if w <= MAX64 then Some(w) else None
  {
    var u := Unsigned(s);
    assert u[0] == WholePart(u)[0];
    if DotIndex(u) < |u| {
      assert u[|u| - 1] == FracPart(u)[|FracPart(u)| - 1];
    } else {
      assert u == WholePart(u);
    }
    NoSpaceNoTrim(s);
    if u != s {
      UnsignedParts(s);
      assert Unsigned(WholePart(s)) == WholePart(u);
    }
  }

  // ---- exactness ----------------------------------------------------------

  /** With three fraction digits k0 k1 r followed by t out of m, the rounded
      value is within half a cent of the exact one. */
  lemma ThreeDigitsArithmetic(whole: int, k: int, r: int, t: int, m: int)
    requires 0 <= t < m && 0 <= r < 10
    ensures var c := 100 * whole + k + if r >= 5 then 1 else 0;
            var num := whole * (1000 * m) + (10 * k + r) * m + t;
            (2 * c - 1) * (1000 * m) <= 200 * num < (2 * c + 1) * (1000 * m)
  {
    var a, b := whole * m, k * m;
    assert whole * (1000 * m) == 1000 * a;
    assert (10 * k + r) * m == 10 * b + r * m;
    if r >= 5 {
      assert (2 * (100 * whole + k + 1) - 1) * (1000 * m) == 200000 * a + 2000 * b + 1000 * m;
      assert (2 * (100 * whole + k + 1) + 1) * (1000 * m) == 200000 * a + 2000 * b + 3000 * m;
      assert 5 * m <= r * m <= 9 * m;
    } else {
      assert (2 * (100 * whole + k) - 1) * (1000 * m) == 200000 * a + 2000 * b - 1000 * m;
      assert (2 * (100 * whole + k) + 1) * (1000 * m) == 200000 * a + 2000 * b + 1000 * m;
      assert 0 <= r * m <= 4 * m;
    }
  }

  /** A digit string of three or more digits, taken apart at its third digit. */
  lemma ThirdDigit(frac: string)
    requires AllDigits(frac) && |frac| >= 3
    ensures var m := Pow10(|frac| - 3);
            && Pow10(|frac|) == 1000 * m
            && DigitsVal(frac[3..]) < m
            && DigitsVal(frac) == (10 * DigitsVal(frac[..2]) + DigitVal(frac[2])) * m + DigitsVal(frac[3..])
  {
    var head, rest := frac[..3], frac[3..];
    assert head[..|head| - 1] == frac[..2];
    assert frac == head + rest;
    DigitsConcat(head, rest);
    DigitsBelow(rest);
  }

  /** The rounded whole number of cents, computed from the three digits the parser looks at. */
  ghost function CentsOf(whole: nat, frac: string): int
    requires AllDigits(frac) && |frac| >= 3
  {
    100 * whole + DigitsVal(frac[..2]) + if frac[2] >= '5' then 1 else 0
  }

  lemma Reassociate(a: int, b: int, t: int)
    ensures a * (b * t) == (a * b) * t
  {
  }

  lemma Distribute(a: int, b: int, c: int, t: int, b': int)
    requires b' == b * t
    ensures a * b' + c * t == (a * b + c) * t
  {
    Reassociate(a, b, t);
  }

  /** Three digits decide the half-up rounding of any digit string. */
  lemma ThreeDigitsDecide(whole: nat, frac: string)
    requires AllDigits(frac) && |frac| >= 3
    ensures var c, den := CentsOf(whole, frac), Pow10(|frac|);
            (2 * c - 1) * den <= 200 * (whole * den + DigitsVal(frac)) < (2 * c + 1) * den
  {
    ThirdDigit(frac);
    ThreeDigitsArithmetic(whole, DigitsVal(frac[..2]), DigitVal(frac[2]), DigitsVal(frac[3..]), Pow10(|frac| - 3));
  }

  /** Padding multiplies the fraction and its denominator by the same power of ten. */
  lemma PaddedFraction(f: string)
    requires AllDigits(f)
    ensures AllDigits(PadZeros(f, 3))
    ensures exists t: nat :: t >= 1 && Scaled(f, PadZeros(f, 3), t)
  {
    var frac := PadZeros(f, 3);
    PadKeepsValue(f, 3);
    Pow10Sum(|f|, |frac| - |f|);
    assert Scaled(f, frac, Pow10(|frac| - |f|));
  }

  ghost predicate Scaled(f: string, frac: string, t: nat)
    requires AllDigits(f) && AllDigits(frac)
  {
    DigitsVal(frac) == DigitsVal(f) * t && Pow10(|frac|) == Pow10(|f|) * t
  }

  /** The same for the whole amount. */
  lemma PaddedAmount(w: string, f: string) returns (t: nat)
    requires AllDigits(w) && AllDigits(f)
    ensures AllDigits(PadZeros(f, 3)) && AllDigits(w + f) && t >= 1
    ensures var frac := PadZeros(f, 3);
            && Pow10(|frac|) == Pow10(|f|) * t
            && DigitsVal(w) * Pow10(|frac|) + DigitsVal(frac) == DigitsVal(w + f) * t
  {
    PaddedFraction(f);
    t :| t >= 1 && Scaled(f, PadZeros(f, 3), t);
    DigitsConcat(w, f);
    Distribute(DigitsVal(w), Pow10(|f|), DigitsVal(f), t, Pow10(|PadZeros(f, 3)|));
  }

  lemma RatioScale(num: int, den: int, t: int)
    requires den >= 1 && t >= 1
    ensures den * t >= 1 && (num * t) as real / (den * t) as real == num as real / den as real
  {
    var x := num as real / den as real;
    assert x * den as real == num as real;
    assert (num * t) as real == num as real * t as real && (den * t) as real == den as real * t as real;
    assert x * (den as real * t as real) == num as real * t as real;
  }

  /** A bound on a ratio is one on the same ratio in lower terms. */
  lemma RoundedScaled(num: int, den: int, t: int, num': int, den': int, c: int)
    requires den >= 1 && t >= 1 && num' == num * t && den' == den * t && den' >= 1
    requires (2 * c - 1) * den' <= 200 * num' < (2 * c + 1) * den'
    ensures HalfUp(num as real / den as real) == c
  {
    HalfUpOfRatio(num', den', c);
    RatioScale(num, den, t);
  }

  lemma PaddedBounds(w: string, f: string) returns (t: nat, num: int, den: int, c: int)
    requires AllDigits(w) && AllDigits(f)
    ensures AllDigits(PadZeros(f, 3)) && AllDigits(w + f) && t >= 1 && den >= 1
    ensures num == DigitsVal(w + f) * t && den == Pow10(|f|) * t && c == CentsOf(DigitsVal(w), PadZeros(f, 3))
    ensures (2 * c - 1) * den <= 200 * num < (2 * c + 1) * den
  {
    var frac := PadZeros(f, 3);
    t := PaddedAmount(w, f);
    ThreeDigitsDecide(DigitsVal(w), frac);
    num, den, c := DigitsVal(w) * Pow10(|frac|) + DigitsVal(frac), Pow10(|frac|), CentsOf(DigitsVal(w), frac);
  }

  lemma RoundedRatio(w: string, f: string)
    requires AllDigits(w) && AllDigits(f)
    ensures AllDigits(PadZeros(f, 3)) && AllDigits(w + f)
    ensures HalfUp(DigitsVal(w + f) as real / Pow10(|f|) as real) == CentsOf(DigitsVal(w), PadZeros(f, 3))
  {
    var t, num, den, c := PaddedBounds(w, f);
    RoundedScaled(DigitsVal(w + f), Pow10(|f|), t, num, den, c);
  }

  lemma TrueCents(s: string)
    requires Numeric(s)
    ensures AllDigits(PadZeros(FracPart(s), 3))
    ensures HalfUp(Magnitude(s)) == CentsOf(DigitsVal(WholePart(Unsigned(s))), PadZeros(FracPart(s), 3))
  {
    NumericParts(s);
    RoundedRatio(WholePart(Unsigned(s)), FracPart(s));
  }

  lemma FloorRatio(w: string, f: string)
    requires AllDigits(w) && AllDigits(f)
    ensures AllDigits(w + f)
    ensures (DigitsVal(w + f) as real / Pow10(|f|) as real).Floor == DigitsVal(w)
  {
    DigitsConcat(w, f);
    DigitsBelow(f);
    var den := Pow10(|f|);
    assert (DigitsVal(w) + 1) * den == DigitsVal(w) * den + den;
    FloorOfRatio(DigitsVal(w + f), den, DigitsVal(w));
  }

  /** Two digits always parse. */
  lemma TwoDigits(s: string)
    requires AllDigits(s) && |s| == 2
    ensures ParseInt64(s) == Some(DigitsVal(s)) && DigitsVal(s) < 100
  {
    DigitsBelow(s);
    assert Pow10(2) == 100;
  }

  /** The four wrapping operations together wrap the exact sum once. */
  lemma ToCentsWraps(whole: int, frac: string)
    requires 0 <= whole <= MAX64 && AllDigits(frac) && |frac| >= 3
    ensures var c := Wrap64(CentsOf(whole, frac));
            ToCents(whole, frac) == if c > 0 then Some(c) else None
  {
    TwoDigits(frac[..2]);
    var rounded := DigitsVal(frac[..2]) + if frac[2] >= '5' then 1 else 0;
    var carry := rounded / 100;
    WrapMul(whole + carry, 100);
    WrapAdd((whole + carry) * 100, rounded % 100);
  }

  /** What the parser returns on every numeric string: nothing for a negative
      amount or one whose whole part is beyond int64; otherwise the true
      amount, wrapped to int64 and, outside IDR, only when that is positive. */
  lemma ParseNumeric(s: string, currency: Currency)
    requires Numeric(s)
    ensures TrueAmount(s, currency) >= 0
    ensures ParseAmount(s, currency)
            == if Negative(s) || Magnitude(s).Floor > MAX64 then None
               else if currency == IDR || Wrap64(TrueAmount(s, currency)) > 0
               then Some(Wrap64(TrueAmount(s, currency))) else None
  {
    NumericParts(s);
    var whole := DigitsVal(WholePart(Unsigned(s)));
    FloorRatio(WholePart(Unsigned(s)), FracPart(s));
    if currency != IDR {
      TrueCents(s);
      if whole <= MAX64 {
        ToCentsWraps(whole, PadZeros(FracPart(s), 3));
      }
    }
  }

  /** Parser exactness. On every numeric string and in every currency the
      parser returns the true amount exactly when the string is not negative
      and the true amount fits int64 and, outside IDR, is not zero; when the
      amount fits, the only other outcome is a rejection. */
  lemma ParseExact(s: string, currency: Currency)
    requires Numeric(s)
    ensures var c := TrueAmount(s, currency);
            ParseAmount(s, currency) == Some(c)
            <==> !Negative(s) && c <= MAX64 && (currency == IDR || c > 0)
    ensures TrueAmount(s, currency) <= MAX64 ==>
              ParseAmount(s, currency) in {None, Some(TrueAmount(s, currency))}
  {
    ParseNumeric(s, currency);
  }

  /** Rounding never reorders amounts, whatever the two strings look like. */
  lemma ParseMonotone(s: string, t: string, currency: Currency)
    requires Numeric(s) && Numeric(t) && Magnitude(s) <= Magnitude(t)
    requires ParseAmount(s, currency).Some? && ParseAmount(t, currency).Some?
    requires TrueAmount(t, currency) <= MAX64
    ensures ParseAmount(s, currency).value <= ParseAmount(t, currency).value
  {
    assert TrueAmount(s, currency) <= TrueAmount(t, currency);
    ParseExact(s, currency);
    ParseExact(t, currency);
  }

  // ---- rupiah -------------------------------------------------------------

  ghost function NearestRupiah(v: real): int {
    (v + 0.5).Floor
  }

  lemma BelowHalfArithmetic(d: nat, p: nat, r: nat)
    requires r < p
    ensures 2 * (d * p + r) < 10 * p <==> d < 5
  {
    if d < 5 {
      assert (d + 1) * p <= 5 * p;
    } else {
      assert 5 * p <= d * p;
    }
  }

  /** The first fraction digit says whether a fraction is below one half. */
  lemma BelowHalf(f: string)
    requires AllDigits(f) && f != ""
    ensures 2 * DigitsVal(f) < Pow10(|f|) <==> f[0] < '5'
  {
    assert f == f[..1] + f[1..];
    DigitsConcat(f[..1], f[1..]);
    DigitsBelow(f[1..]);
    assert f[..1][..0] == "";
    assert DigitsVal(f[..1]) == DigitVal(f[0]);
    BelowHalfArithmetic(DigitVal(f[0]), Pow10(|f| - 1), DigitsVal(f[1..]));
  }

  lemma NearestOfRatio(w: nat, f: nat, den: nat)
    requires f < den
    ensures NearestRupiah((w * den + f) as real / den as real) == w <==> 2 * f < den
  {
    var num := w * den + f;
    RatioAtLeast(num, den, w, 1);
    RatioBelow(num, den, w + 1, 1);
    if 2 * f < den {
      assert 2 * num < (2 * w + 1) * den;
      RatioBelow(num, den, 2 * w + 1, 2);
    } else {
      assert (2 * w + 1) * den <= 2 * num;
      RatioAtLeast(num, den, 2 * w + 1, 2);
    }
  }

  /** Rupiah amounts are meant to be rounded to the nearest rupiah and to be
      positive. The parser truncates them and checks no sign, so an accepted
      amount is the nearest rupiah exactly when its fraction starts with a digit
      below 5, and it is positive exactly when its whole part is. */
  lemma RupiahExact(s: string)
    requires Numeric(s) && ParseAmount(s, IDR).Some?
    ensures ParseAmount(s, IDR).value == NearestRupiah(Magnitude(s)) <==> FracPart(s) == "" || FracPart(s)[0] < '5'
    ensures var whole := WholePart(Unsigned(s));
            ParseAmount(s, IDR).value > 0 <==> exists i | 0 <= i < |whole| :: whole[i] != '0'
  {
    ParseNumeric(s, IDR);
    NumericParts(s);
    var w, f := WholePart(Unsigned(s)), FracPart(s);
    FloorRatio(w, f);
    DigitsConcat(w, f);
    DigitsBelow(f);
    NearestOfRatio(DigitsVal(w), DigitsVal(f), Pow10(|f|));
    if f != "" {
      BelowHalf(f);
    }
    ZeroDigits(w);
  }

  lemma {:induction false} ZeroDigits(w: string)
    requires AllDigits(w)
    ensures DigitsVal(w) > 0 <==> exists i | 0 <= i < |w| :: w[i] != '0'
  {
    if w != "" {
      var n := |w| - 1;
      ZeroDigits(w[..n]);
      if w[n] != '0' {
        assert DigitsVal(w) > 0;
      } else if i :| 0 <= i < n && w[..n][i] != '0' {
        assert w[i] != '0';
      }
    }
  }

  lemma HalfParts()
    ensures Unsigned("0.5") == "0.5" && WholePart("0.5") == "0" && FracPart("0.5") == "5"
    ensures AllDigits("0") && AllDigits("5") && DigitsVal("0") == 0
  {
    assert "0.5" == "0" + "." + "5";
    DotAfterDigits("0", "5");
    assert "0"[..0] == "";
    assert DigitsVal("0"[..0]) == 0;
  }

  /** Half a rupiah is accepted, as nothing, and is not the nearest rupiah. */
  lemma HalfRupiah()
    ensures Numeric("0.5") && ParseAmount("0.5", IDR) == Some(0)
    ensures NearestRupiah(Magnitude("0.5")) != 0
  {
    HalfParts();
    NumericHalf();
    RupiahExact("0.5");
  }

  lemma NumericHalf()
    ensures Numeric("0.5") && ParseAmount("0.5", IDR) == Some(0)
  {
    HalfParts();
    FloorRatio("0", "5");
    ParseNumeric("0.5", IDR);
  }

  // ---- round trip ---------------------------------------------------------

  lemma {:induction false} TwoDigitText(n: nat)
    requires n < 100
    ensures |FormatInt2(n)| == 2 && AllDigits(FormatInt2(n)) && DigitsVal(FormatInt2(n)) == n
  {
    if n < 10 {
      DigitsConcat("0", Itoa(n));
      assert DigitsVal("0") == 0;
    } else {
      assert Itoa(n) == Itoa(n / 10) + [DigitChar(n % 10)];
    }
  }

  lemma {:induction false} DotAfterDigits(w: string, f: string)
    requires AllDigits(w)
    ensures DotIndex(w + "." + f) == |w|
    ensures WholePart(w + "." + f) == w && FracPart(w + "." + f) == f
  {
    var s := w + "." + f;
    if w != "" {
      assert s[1..] == w[1..] + "." + f;
      DotAfterDigits(w[1..], f);
    }
    assert s[..|w|] == w;
    assert s[|w| + 1..] == f;
  }

  lemma {:induction false} DigitsHaveNoDot(w: string)
    requires AllDigits(w)
    ensures DotIndex(w) == |w| && WholePart(w) == w && FracPart(w) == ""
  {
    if w != "" {
      DigitsHaveNoDot(w[1..]);
    }
    assert w[..|w|] == w;
  }

  /** The text with two decimals of any number of hundredths, however large. */
  lemma TwoDecimals(c: nat)
    ensures var text := Itoa(c / 100) + "." + FormatInt2(c % 100);
            && Numeric(text) && !Negative(text) && |FracPart(text)| == 2
            && HalfUp(Magnitude(text)) == c && Magnitude(text).Floor == c / 100
  {
    var w, f := Itoa(c / 100), FormatInt2(c % 100);
    TwoDigitText(c % 100);
    DotAfterDigits(w, f);
    assert (w + "." + f)[0] == w[0];
    DigitsConcat(w, f);
    assert Pow10(2) == 100;
    HalfUpOfRatio(c, 100, c);
    FloorRatio(w, f);
  }

  lemma NoDecimals(c: nat)
    ensures var text := Itoa(c);
            && Numeric(text) && !Negative(text) && FracPart(text) == ""
            && Magnitude(text).Floor == c
  {
    var w := Itoa(c);
    DigitsHaveNoDot(w);
    FloorRatio(w, "");
  }

  /** Printed amounts are numeric strings, and reading one back gives it exactly:
      every int64 from 1 in USD and EUR, from 0 in IDR. */
  lemma RoundTrip(c: int, currency: Currency)
    requires 0 <= c <= MAX64 && (currency == IDR || c > 0)
    ensures Numeric(FormatCents(c, currency))
    ensures |FracPart(FormatCents(c, currency))| == if currency == IDR then 0 else 2
    ensures ParseAmount(FormatCents(c, currency), currency) == Some(c)
  {
    FormatNonNegative(c, currency);
    if currency == IDR {
      NoDecimals(c);
    } else {
      TwoDecimals(c);
    }
    ParseExact(FormatCents(c, currency), currency);
  }

  lemma FormatNonNegative(c: nat, currency: Currency)
    ensures FormatCents(c, currency) == AmountText(c, currency)
    ensures AmountText(c, currency) == if currency == IDR then Itoa(c) else Itoa(c / 100) + "." + FormatInt2(c % 100)
  {
    assert TruncDiv(c, 100) == c / 100 && TruncMod(c, 100) == c % 100;
  }

  // ---- any balance --------------------------------------------------------

  /** The texts of amounts without a sign. */
  lemma AmountIsNumeric(n: nat, currency: Currency)
    ensures var text := AmountText(n, currency);
            && Numeric(text) && text != "" && IsDigit(text[0])
            && (if currency == IDR then Magnitude(text).Floor == n else HalfUp(Magnitude(text)) == n)
  {
    FormatNonNegative(n, currency);
    if currency == IDR {
      NoDecimals(n);
    } else {
      TwoDecimals(n);
    }
    NumericStart(AmountText(n, currency));
  }

  lemma NumericStart(s: string)
    requires Numeric(s) && !Negative(s)
    ensures s != "" && (IsDigit(s[0]) || s[0] == '+')
  {
    assert Unsigned(s)[..DotIndex(Unsigned(s))][0] == Unsigned(s)[0];
  }

  /** A sign in front of an unsigned numeric text leaves it numeric. */
  lemma SignedIsNumeric(s: string)
    requires s != "" && s[0] != '-' && s[0] != '+'
    ensures Numeric("-" + s) <==> Numeric(s)
  {
    assert ("-" + s)[1..] == s;
  }

  lemma TwoSigns(s: string)
    requires s != "" && s[0] == '-'
    ensures !Numeric("-" + s)
  {
    assert Unsigned("-" + s) == s;
    assert WholePart(s) != "" ==> WholePart(s)[0] == s[0];
  }

  /** The text of the least int64, which stays negative when negated. */
  lemma LeastAmount(currency: Currency)
    ensures var text := AmountText(MIN64, currency);
            text != "" && text[0] == '-'
  {
    assert TruncDiv(MIN64, 100) < 0;
  }

  /** Negative balances are printed with a minus sign, others without one. */
  lemma PrintedSign(c: int, currency: Currency)
    requires InRange(c)
    ensures Negative(FormatCents(c, currency)) <==> c < 0
  {
    if c >= 0 {
      AmountIsNumeric(c, currency);
    }
  }

  /** What the sign has been taken from: a natural number, or the least int64. */
  predicate Unsignable(n: int) {
    n >= 0 || n == MIN64
  }

  lemma AmountsApart(m: int, n: int, currency: Currency)
    requires Unsignable(m) && Unsignable(n) && m != n
    ensures AmountText(m, currency) != AmountText(n, currency)
  {
    LeastAmount(currency);
    if m >= 0 {
      AmountIsNumeric(m, currency);
    }
    if n >= 0 {
      AmountIsNumeric(n, currency);
    }
  }

  /** No two balances print alike, whatever their signs. */
  lemma {:induction false} PrintedApart(c: int, d: int, currency: Currency)
    requires InRange(c) && InRange(d) && c != d
    ensures FormatCents(c, currency) != FormatCents(d, currency)
  {
    PrintedSign(c, currency);
    PrintedSign(d, currency);
    if c < 0 && d < 0 {
      AmountsApart(Negate64(c), Negate64(d), currency);
      SameTail(AmountText(Negate64(c), currency), AmountText(Negate64(d), currency));
    } else if c >= 0 && d >= 0 {
      AmountsApart(c, d, currency);
    }
  }

  lemma SameTail(s: string, t: string)
    requires s != t
    ensures "-" + s != "-" + t
  {
    assert ("-" + s)[1..] == s && ("-" + t)[1..] == t;
  }

  lemma AmountIsPlain(n: nat, currency: Currency) returns (text: string)
    ensures text == AmountText(n, currency) && Numeric(text) && text != "" && IsDigit(text[0])
  {
    AmountIsNumeric(n, currency);
    text := AmountText(n, currency);
  }

  lemma PlainSigned(n: nat, currency: Currency) returns (signed: string)
    ensures signed == "-" + AmountText(n, currency) && Numeric(signed)
  {
    var text := AmountIsPlain(n, currency);
    SignedIsNumeric(text);
    signed := "-" + text;
  }

  lemma NegativePrinted(c: int, currency: Currency)
    requires MIN64 < c < 0
    ensures Numeric(FormatCents(c, currency)) <==> c > MIN64
  {
    var signed := PlainSigned(Negate64(c), currency);
    assert FormatCents(c, currency) == signed;
  }

  lemma NonNegativePrinted(n: nat, currency: Currency)
    ensures Numeric(FormatCents(n, currency)) <==> n > MIN64
  {
    var text := AmountIsPlain(n, currency);
    assert FormatCents(n, currency) == text;
  }

  lemma LeastPrinted(currency: Currency)
    ensures Numeric(FormatCents(MIN64, currency)) <==> MIN64 > MIN64
  {
    LeastAmount(currency);
    TwoSigns(AmountText(MIN64, currency));
  }

  /** Every balance but the least int64 is printed as a numeric string; that one
      gets a second minus sign. */
  lemma {:induction false} PrintedNumeric(c: int, currency: Currency)
    requires InRange(c)
    ensures Numeric(FormatCents(c, currency)) <==> c > MIN64
  {
    if c == MIN64 {
      LeastPrinted(currency);
    } else if c < 0 {
      NegativePrinted(c, currency);
    } else {
      NonNegativePrinted(c, currency);
    }
  }

  // ---- the printed value --------------------------------------------------

  /** Written without needless zeros in front. */
  predicate NoLeadingZero(whole: string) {
    whole == "0" || (whole != "" && whole[0] != '0')
  }

  lemma {:induction false} ItoaNoLeadingZero(n: nat)
    ensures NoLeadingZero(Itoa(n)) && (n > 0 ==> Itoa(n)[0] != '0')
  {
    if n >= 10 {
      ItoaNoLeadingZero(n / 10);
      assert Itoa(n)[0] == Itoa(n / 10)[0];
    }
  }

  /** The parts of an unsigned amount's text: two decimals, or none in rupiah,
      and a whole part without leading zeros. */
  lemma AmountParts(n: nat, currency: Currency) returns (text: string)
    ensures text == FormatCents(n, currency) == AmountText(n, currency)
    ensures NoLeadingZero(WholePart(text)) && |FracPart(text)| == if currency == IDR then 0 else 2
    ensures Numeric(text) && TrueAmount(text, currency) == n
  {
    text := AmountText(n, currency);
    FormatNonNegative(n, currency);
    if currency == IDR {
      ItoaNoLeadingZero(n);
      DigitsHaveNoDot(Itoa(n));
      NoDecimals(n);
    } else {
      ItoaNoLeadingZero(n / 100);
      TwoDigitText(n % 100);
      DotAfterDigits(Itoa(n / 100), FormatInt2(n % 100));
      TwoDecimals(n);
    }
  }

  /** Every balance that is not negative is printed as its exact amount, in
      canonical form: two decimals, none in rupiah, no leading zero. */
  lemma {:induction false} PrintedExactly(c: int, currency: Currency)
    requires 0 <= c <= MAX64
    ensures var text := FormatCents(c, currency);
            && Numeric(text) && TrueAmount(text, currency) == c
            && |FracPart(text)| == (if currency == IDR then 0 else 2) && NoLeadingZero(WholePart(text))
  {
    var text := AmountParts(c, currency);
  }

  lemma NegatedText(c: int, currency: Currency)
    requires MIN64 < c < 0
    ensures FormatCents(c, currency) == "-" + AmountText(Negate64(c), currency) && Negate64(c) == -c
  {
  }

  /** Every negative balance but the least is printed as a minus sign and the
      text of the amount owed, which parses to exactly that amount. */
  lemma {:induction false} PrintedNegative(c: int, currency: Currency) returns (owed: string)
    requires MIN64 < c < 0
    ensures FormatCents(c, currency) == "-" + owed
    ensures ParseAmount(owed, currency) == Some(-c)
    ensures |FracPart(owed)| == (if currency == IDR then 0 else 2) && NoLeadingZero(WholePart(owed))
  {
    NegatedText(c, currency);
    owed := AmountParts(Negate64(c), currency);
    RoundTrip(Negate64(c), currency);
  }

  /** What becomes of the least int64: its digits are right, its signs are not. */
  lemma {:induction false} PrintedLeast(currency: Currency) returns (whole: string)
    ensures AllDigits(whole) && NoLeadingZero(whole)
    ensures DigitsVal(whole) == if currency == IDR then 9223372036854775808 else 92233720368547758
    ensures FormatCents(MIN64, currency) == "--" + whole + if currency == IDR then "" else ".-8"
  {
    LeastText(currency);
    if currency == IDR {
      whole := Itoa(9223372036854775808);
      ItoaNoLeadingZero(9223372036854775808);
    } else {
      whole := Itoa(92233720368547758);
      ItoaNoLeadingZero(92233720368547758);
    }
    TwoSignsInFront(whole, ".-8");
    LeastIsItsOwnNegation(currency);
  }

  lemma TwoSignsInFront(whole: string, rest: string)
    ensures "-" + ("-" + whole) == "--" + whole + ""
    ensures "-" + ("-" + whole + rest) == "--" + whole + rest
  {
  }

  lemma LeastIsItsOwnNegation(currency: Currency)
    ensures FormatCents(MIN64, currency) == "-" + AmountText(MIN64, currency)
  {
  }

  lemma LeastText(currency: Currency)
    ensures AmountText(MIN64, currency)
            == if currency == IDR then "-" + Itoa(9223372036854775808)
               else "-" + Itoa(92233720368547758) + ".-8"
  {
    if currency != IDR {
      LeastCents();
      TailOfLeast(Itoa(92233720368547758));
    }
  }

  lemma LeastCents()
    ensures TruncDiv(MIN64, 100) == -92233720368547758 && TruncMod(MIN64, 100) == -8
    ensures FormatInt2(-8) == "-8"
  {
    assert Itoa(8) == "8";
    assert "-" + "8" == "-8";
  }

  lemma TailOfLeast(whole: string)
    ensures "-" + whole + "." + "-8" == "-" + whole + ".-8"
  {
    assert "." + "-8" == ".-8";
    assert "-" + whole + "." + "-8" == "-" + whole + ("." + "-8");
  }

  // ---- white space --------------------------------------------------------

  predicate AllSpaces(s: string) {
    forall i | 0 <= i < |s| :: IsSpace(s[i])
  }

  lemma {:induction false} TrimLeftSpaces(l: string, s: string)
    requires AllSpaces(l)
    ensures TrimLeft(l + s) == TrimLeft(s)
  {
    if l == "" {
      assert l + s == s;
    } else {
      assert (l + s)[1..] == l[1..] + s;
      TrimLeftSpaces(l[1..], s);
    }
  }

  lemma {:induction false} TrimRightSpaces(s: string, r: string)
    requires AllSpaces(r)
    ensures TrimRight(s + r) == TrimRight(s)
  {
    if r == "" {
      assert s + r == s;
    } else {
      assert (s + r)[..|s + r| - 1] == s + r[..|r| - 1];
      TrimRightSpaces(s, r[..|r| - 1]);
    }
  }

  lemma {:induction false} TrimLeftAppend(s: string, r: string)
    requires AllSpaces(r)
    ensures TrimLeft(s + r) == TrimLeft(s) + r || (TrimLeft(s) == "" && AllSpaces(TrimLeft(s + r)))
  {
    if s == "" {
      assert s + r == r;
      TrimLeftSpaces(r, "");
      assert r + "" == r;
    } else if IsSpace(s[0]) {
      assert (s + r)[1..] == s[1..] + r;
      TrimLeftAppend(s[1..], r);
    }
  }

  lemma TrimmedSpaces(s: string)
    requires AllSpaces(s)
    ensures TrimRight(s) == ""
  {
    TrimRightSpaces("", s);
    assert "" + s == s;
  }

  /** Spaces around an amount, any number of them, change nothing. */
  lemma {:induction false} SpacesIgnored(l: string, s: string, r: string, currency: Currency)
    requires AllSpaces(l) && AllSpaces(r)
    ensures ParseAmount(l + s + r, currency) == ParseAmount(s, currency)
  {
    assert l + s + r == l + (s + r);
    TrimLeftSpaces(l, s + r);
    TrimLeftAppend(s, r);
    if TrimLeft(s + r) == TrimLeft(s) + r {
      TrimRightSpaces(TrimLeft(s), r);
    } else {
      TrimmedSpaces(TrimLeft(s + r));
    }
  }

  /** So in particular blanks, tabs and line ends. */
  lemma {:induction false} BlanksIgnored(l: string, s: string, r: string, currency: Currency)
    requires forall i | 0 <= i < |l| :: l[i] in " \t\r\n"
    requires forall i | 0 <= i < |r| :: r[i] in " \t\r\n"
    ensures ParseAmount(l + s + r, currency) == ParseAmount(s, currency)
  {
    SpacesIgnored(l, s, r, currency);
  }

  // ---- any string ---------------------------------------------------------

  /** Every accepted string, numeric or not: without the spaces around it, it
      starts with no minus sign and its whole part is a digit string, with at
      most a plus sign, that fits int64. In rupiah that is enough, and the whole
      part is the amount. */
  lemma {:induction false} AcceptedStrings(s: string, currency: Currency)
    ensures var whole := WholePart(TrimSpace(s));
            var digits := if whole != "" && whole[0] == '+' then whole[1..] else whole;
            && (ParseAmount(s, currency).Some? ==> digits != "" && AllDigits(digits) && DigitsVal(digits) <= MAX64)
            && (digits != "" && AllDigits(digits) && DigitsVal(digits) <= MAX64 ==>
                  ParseAmount(s, IDR) == Some(DigitsVal(digits)))
  {
    var t := TrimSpace(s);
    assert WholePart(t) != "" ==> WholePart(t)[0] == t[0];
  }

  /** Printing what was parsed gives the canonical text: it reads back as the
      same amount, and in USD and EUR it has exactly two decimals. */
  lemma Canonical(s: string, currency: Currency)
    requires ParseAmount(s, currency).Some?
    ensures var text := FormatCents(ParseAmount(s, currency).value, currency);
            && Numeric(text)
            && ParseAmount(text, currency) == ParseAmount(s, currency)
            && |FracPart(text)| == if currency == IDR then 0 else 2
  {
    RoundTrip(ParseAmount(s, currency).value, currency);
  }

  /** Exactness fails beyond int64: what is accepted is the wrapped amount, so
      that the text of 2^64 + 1 cents, for one, is accepted as a single cent. */
  lemma {:induction false} OversizedAmount(c: nat) returns (text: string)
    requires MAX64 < c && c / 100 <= MAX64
    ensures Numeric(text) && TrueAmount(text, USD) == c
    ensures ParseAmount(text, USD) == if Wrap64(c) > 0 then Some(Wrap64(c)) else None
  {
    TwoDecimals(c);
    text := Itoa(c / 100) + "." + FormatInt2(c % 100);
    ParseNumeric(text, USD);
  }
}
