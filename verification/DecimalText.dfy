/**
 The venue's decimal strings: printing a decimal in plain notation, reading one back, what rounding to
 the context's precision does to it, and which texts are the canonical ones.
 */
module DecimalText {
  import opened Common
  import opened Decimals
  import opened OrderRounding
  import opened Rounding

  const MAX_WIRE_DECIMALS: int := 8

  // ----- Digits as text

  function DigitChar(n: nat): (c: char)
    requires n < 10
    ensures '0' <= c <= '9'
  {
    ('0' as int + n) as char
  }

  predicate IsDigit(c: char) { '0' <= c <= '9' }

  function DigitValue(c: char): (n: nat)
    requires IsDigit(c)
    ensures n < 10
  {
    c as int - '0' as int
  }

  predicate AllDigits(s: string) { forall i :: 0 <= i < |s| ==> IsDigit(s[i]) }

  function Text(n: nat): (s: string)
    ensures AllDigits(s) && |s| == Digits(n)
    ensures n > 0 ==> s[0] != '0'
    ensures n > 0 && n % 10 != 0 ==> Last(s) != '0'
  {
    if n < 10 then [DigitChar(n)] else Text(n / 10) + [DigitChar(n % 10)]
  }

  function Zeros(n: nat): (s: string)
    ensures AllDigits(s) && |s| == n
  {
    if n == 0 then "" else Zeros(n - 1) + "0"
  }

  function Number(s: string): nat
    requires AllDigits(s)
  {
    if s == "" then 0 else 10 * Number(Front(s)) + DigitValue(Last(s))
  }

  lemma {:induction false} NumberOfText(n: nat)
    ensures Number(Text(n)) == n
  {
    if n < 10 {
      assert Front(Text(n)) == "";
    } else {
      NumberOfText(n / 10);
      assert Front(Text(n)) == Text(n / 10);
    }
  }

  lemma {:induction false} TextOfNumber(s: string)
    requires s != "" && AllDigits(s) && (|s| == 1 || s[0] != '0')
    ensures Text(Number(s)) == s
    ensures |s| > 1 ==> Number(s) >= 10
  {
    if |s| == 1 {
      assert Number(Front(s)) == 0;
    } else {
      if |s| == 2 { assert Front(s) == [s[0]] && Number(Front(Front(s))) == 0; }
      TextOfNumber(Front(s));
      assert Front(s) + [Last(s)] == s;
    }
  }

  lemma OneMoreZero(s: string)
    requires AllDigits(s)
    ensures AllDigits(s + "0") && Number(s + "0") == 10 * Number(s)
  {
    assert Front(s + "0") == s;
  }

  lemma TenTimes(a: int, b: int)
    ensures a * (10 * b) == 10 * (a * b)
  {
  }

  lemma {:induction false} NumberWithZeros(s: string, k: nat)
    requires AllDigits(s)
    ensures AllDigits(s + Zeros(k)) && Number(s + Zeros(k)) == Number(s) * Pow10(k)
  {
    if k == 0 {
      assert s + Zeros(0) == s;
    } else {
      NumberWithZeros(s, k - 1);
      assert s + Zeros(k) == (s + Zeros(k - 1)) + "0";
      OneMoreZero(s + Zeros(k - 1));
      TenTimes(Number(s), Pow10(k - 1));
    }
  }

  lemma {:induction false} NumberAfterZeros(k: nat, s: string)
    requires AllDigits(s)
    ensures AllDigits(Zeros(k) + s) && Number(Zeros(k) + s) == Number(s)
  {
    if s == "" {
      NumberWithZeros("", k);
      assert Zeros(k) + s == "" + Zeros(k);
    } else {
      NumberAfterZeros(k, Front(s));
      assert Front(Zeros(k) + s) == Zeros(k) + Front(s);
    }
  }

  // ----- Printing

  /** A result as the decimal context leaves it: at most 28 digits, rounded half to even. */
  function Rounded(d: Dec): Dec {
    if Digits(d.coeff) <= PRECISION then d
    else
      var n := Digits(d.coeff) - PRECISION;
      Dec(d.negative, HalfEven(d.coeff, Pow10(n)), d.exp + n)
  }

  function Stripped(d: Dec): Dec
    decreases d.coeff
  {
    if d.coeff == 0 then Dec(d.negative, 0, 0)
    else if d.coeff % 10 == 0 then Stripped(Dec(d.negative, d.coeff / 10, d.exp + 1))
    else d
  }

  function Normalized(d: Dec): Dec {
    Stripped(Rounded(d))
  }

  /** A coefficient and a power of ten in plain notation. */
  function Body(coeff: nat, exp: int): string {
    var digits := Text(coeff);
    var point := |digits| + exp;
    if exp >= 0 then digits + Zeros(exp)
    else if point > 0 then digits[..point] + "." + digits[point..]
    else "0." + (Zeros(-point) + digits)
  }

  /** `format(d, "f")`. */
  function Plain(d: Dec): string {
    (if d.negative then "-" else "") + Body(d.coeff, d.exp)
  }

  /** Whether a number with more than eight places still fits the eight exactly. */
  predicate FitsEightPlaces(d: Dec)
    requires d.exp < -MAX_WIRE_DECIMALS
  {
    match Quantize(d, -MAX_WIRE_DECIMALS, Down)
    case None => false
    case Some(q) => q.coeff * Pow10(-MAX_WIRE_DECIMALS - d.exp) == d.coeff
  }

  function DecimalToWire(d: Dec): Result<string, OrderError> {
    if d.exp < -MAX_WIRE_DECIMALS && !FitsEightPlaces(d) then Err(OrderFormat)
    else
      var text := Plain(Normalized(d));
      Ok(if text == "-0" then "0" else text)
  }

  // ----- Reading

  function PointAt(s: string): (i: nat)
    ensures i <= |s| && (i < |s| ==> s[i] == '.') && forall j :: 0 <= j < i ==> s[j] != '.'
  {
    if s == "" || s[0] == '.' then 0 else 1 + PointAt(s[1..])
  }

  function Whole(s: string): string { s[..PointAt(s)] }

  function Fraction(s: string): string { if PointAt(s) < |s| then s[PointAt(s) + 1..] else "" }

  /** An unsigned number in plain notation. */
  function Unsigned(s: string, negative: bool): Option<Dec> {
    var digits := Whole(s) + Fraction(s);
    if digits != "" && AllDigits(digits) then Some(Dec(negative, Number(digits), -|Fraction(s)|)) else None
  }

  /** `to_decimal` on a text in plain notation; anything else is not a number here. */
  function ToDecimal(s: string): Option<Dec> {
    if s != "" && s[0] in {'-', '+'} then Unsigned(s[1..], s[0] == '-') else Unsigned(s, false)
  }

  lemma PartsOf(whole: string, fraction: string)
    requires AllDigits(whole) && AllDigits(fraction)
    ensures var s := whole + "." + fraction; PointAt(s) == |whole| && Whole(s) == whole && Fraction(s) == fraction
    ensures PointAt(whole) == |whole| && Whole(whole) == whole && Fraction(whole) == ""
  {
    var s := whole + "." + fraction;
    assert s[|whole|] == '.';
    assert forall j :: 0 <= j < |whole| ==> s[j] == whole[j] && IsDigit(whole[j]);
    assert PointAt(s) == |whole|;
    assert PointAt(whole) == |whole|;
  }

  lemma UnsignedParts(whole: string, fraction: string, negative: bool)
    requires AllDigits(whole) && AllDigits(fraction) && whole != ""
    ensures Unsigned(whole + "." + fraction, negative) == Some(Dec(negative, Number(whole + fraction), -|fraction|))
    ensures Unsigned(whole, negative) == Some(Dec(negative, Number(whole), 0))
  {
    PartsOf(whole, fraction);
    assert whole + "" == whole;
  }

  lemma ReadsWhole(coeff: nat, exp: nat, negative: bool)
    ensures Unsigned(Body(coeff, exp), negative) == Some(Dec(negative, coeff * Pow10(exp), 0))
  {
    var digits := Text(coeff);
    NumberOfText(coeff);
    NumberWithZeros(digits, exp);
    UnsignedParts(digits + Zeros(exp), "", negative);
  }

  lemma AllDigitsParts(a: string, b: string)
    requires AllDigits(a + b)
    ensures AllDigits(a) && AllDigits(b)
  {
    assert forall i :: 0 <= i < |a| ==> (a + b)[i] == a[i];
    assert forall i :: 0 <= i < |b| ==> (a + b)[|a| + i] == b[i];
  }

  lemma UnsignedIs(s: string, digits: string, places: nat, negative: bool)
    requires Whole(s) + Fraction(s) == digits && |Fraction(s)| == places && digits != "" && AllDigits(digits)
    ensures Unsigned(s, negative) == Some(Dec(negative, Number(digits), -(places as int)))
  {
  }

  lemma Pointed(whole: string, fraction: string, digits: string, negative: bool)
    requires digits == whole + fraction && AllDigits(digits) && digits != ""
    ensures Unsigned(whole + "." + fraction, negative) == Some(Dec(negative, Number(digits), -|fraction|))
  {
    AllDigitsParts(whole, fraction);
    PartsOf(whole, fraction);
    UnsignedIs(whole + "." + fraction, digits, |fraction|, negative);
  }

  lemma CutAt(s: string, i: nat)
    requires i <= |s|
    ensures s == s[..i] + s[i..]
  {
  }

  lemma PointInside(digits: string, point: nat, negative: bool)
    requires AllDigits(digits) && 0 < point < |digits|
    ensures Unsigned(digits[..point] + "." + digits[point..], negative)
      == Some(Dec(negative, Number(digits), point - |digits|))
  {
    CutAt(digits, point);
    Pointed(digits[..point], digits[point..], digits, negative);
  }

  lemma ReadsPointed(coeff: nat, exp: int, negative: bool)
    requires exp < 0 < |Text(coeff)| + exp
    ensures Unsigned(Body(coeff, exp), negative) == Some(Dec(negative, coeff, exp))
  {
    var digits := Text(coeff);
    NumberOfText(coeff);
    PointInside(digits, |digits| + exp, negative);
  }

  lemma LoneZero()
    ensures Zeros(1) == "0"
  {
    assert Zeros(1) == Zeros(0) + "0";
  }

  lemma SmallParts(digits: string, zeros: nat, text: string)
    requires AllDigits(digits) && text == "0." + (Zeros(zeros) + digits)
    ensures PointAt(text) == 1 && Whole(text) == "0" && Fraction(text) == Zeros(zeros) + digits
    ensures AllDigits("0" + (Zeros(zeros) + digits)) && Number("0" + (Zeros(zeros) + digits)) == Number(digits)
  {
    var fraction := Zeros(zeros) + digits;
    NumberAfterZeros(zeros, digits);
    NumberAfterZeros(1, fraction);
    LoneZero();
    PartsOf("0", fraction);
    assert text == "0" + "." + fraction;
  }

  lemma ReadsSmall(coeff: nat, exp: int, negative: bool)
    requires exp < 0 && |Text(coeff)| + exp <= 0
    ensures Unsigned(Body(coeff, exp), negative) == Some(Dec(negative, coeff, exp))
  {
    var digits := Text(coeff);
    var zeros := -(|digits| + exp);
    var text := "0." + (Zeros(zeros) + digits);
    NumberOfText(coeff);
    SmallParts(digits, zeros, text);
    UnsignedIs(text, "0" + (Zeros(zeros) + digits), -exp, negative);
  }

  lemma ReadsBody(coeff: nat, exp: int, negative: bool)
    ensures var body := Body(coeff, exp);
      && body != "" && IsDigit(body[0])
      && Unsigned(body, negative)
        == Some(Dec(negative, if exp >= 0 then coeff * Pow10(exp) else coeff, if exp >= 0 then 0 else exp))
  {
    if exp >= 0 { ReadsWhole(coeff, exp, negative); }
    else if |Text(coeff)| + exp > 0 { ReadsPointed(coeff, exp, negative); }
    else { ReadsSmall(coeff, exp, negative); }
  }

  lemma ReadsSign(body: string)
    ensures ToDecimal("-" + body) == Unsigned(body, true)
    ensures body != "" && IsDigit(body[0]) ==> ToDecimal("" + body) == Unsigned(body, false)
  {
    assert ("-" + body)[1..] == body;
    assert "" + body == body;
  }

  /** Printing and reading keep the digits; only a whole number loses its power of ten. */
  lemma ReadsPlain(d: Dec)
    ensures ToDecimal(Plain(d)) == Some(if d.exp >= 0 then Dec(d.negative, d.coeff * Pow10(d.exp), 0) else d)
  {
    ReadsBody(d.coeff, d.exp, d.negative);
    ReadsSign(Body(d.coeff, d.exp));
  }

  function Signed(d: Dec): int {
    if d.negative then -(d.coeff as int) else d.coeff
  }

  lemma NegateProduct(a: int, b: int)
    ensures (-a) * b == -(a * b)
  {
  }

  /** Moving a whole number's power of ten into its coefficient changes nothing. */
  lemma Spread(d: Dec, n: nat)
    requires d.exp >= 0 && n == d.exp
    ensures Val(Dec(d.negative, d.coeff * Pow10(n), 0)) == Val(d)
  {
    TimesFiner(Signed(d), 0, n);
    NegateProduct(d.coeff, Pow10(n));
  }

  lemma ReadsPlainValue(d: Dec)
    ensures ToDecimal(Plain(d)).Some? && Val(ToDecimal(Plain(d)).value) == Val(d)
  {
    ReadsPlain(d);
    if d.exp >= 0 { Spread(d, d.exp); }
  }

  // ----- Canonical form

  lemma {:induction false} StrippedSame(d: Dec)
    ensures Val(Stripped(d)) == Val(d) && Stripped(d).negative == d.negative
    ensures Stripped(d).coeff % 10 != 0 || Stripped(d) == Dec(d.negative, 0, 0)
    ensures d.coeff > 0 ==> Stripped(d).coeff > 0 && Stripped(d).exp >= d.exp
    ensures d.coeff > 0 ==> Digits(Stripped(d).coeff) + (Stripped(d).exp - d.exp) == Digits(d.coeff)
    decreases d.coeff
  {
    if d.coeff == 0 {
      TimesOne(d.exp);
      TimesOne(0);
    } else if d.coeff % 10 == 0 {
      var next := Dec(d.negative, d.coeff / 10, d.exp + 1);
      StrippedSame(next);
      assert Pow10(1) == 10 * Pow10(0) == 10;
      TimesFiner(if d.negative then -(next.coeff as int) else next.coeff, d.exp, 1);
    }
  }

  lemma PowTens(k: nat)
    requires k > 0
    ensures Pow10(k) % 10 == 0 && forall m: int :: (m * Pow10(k)) % 10 == 0
  {
    var p := Pow10(k - 1);
    forall m: int ensures (m * Pow10(k)) % 10 == 0 {
      assert m * Pow10(k) == (m * p) * 10;
    }
  }

  lemma SameTimes(i: int, e: int, j: int, f: int)
    requires e <= f && Times(i, e) == Times(j, f)
    ensures i == j * Pow10(f - e)
  {
    TimesFiner(j, e, f - e);
    TimesOrder(i, j * Pow10(f - e), e);
    TimesOrder(j * Pow10(f - e), i, e);
  }

  lemma TrailingZero(a: Dec, m: int, k: nat)
    requires Signed(a) == m * Pow10(k) && k > 0
    ensures a.coeff % 10 == 0
  {
    PowTens(k);
    assert Signed(a) % 10 == 0;
  }

  /** A number has one form with no trailing zero. */
  lemma StrippedUnique(a: Dec, b: Dec)
    requires Val(a) == Val(b) && a.exp <= b.exp
    requires a.coeff % 10 != 0 && b.coeff % 10 != 0
    ensures a == b
  {
    SameTimes(Signed(a), a.exp, Signed(b), b.exp);
    if a.exp < b.exp { TrailingZero(a, Signed(b), b.exp - a.exp); }
  }

  lemma {:induction false} Pow10Sum(a: nat, b: nat)
    ensures Pow10(a + b) == Pow10(a) * Pow10(b)
  {
    if a > 0 { Pow10Sum(a - 1, b); }
  }

  lemma {:induction false} DigitsTimes(n: nat, k: nat)
    requires n > 0
    ensures Digits(n * Pow10(k)) == Digits(n) + k
  {
    if k > 0 {
      DigitsTimes(n, k - 1);
      var m := n * Pow10(k - 1);
      assert n * Pow10(k) == 10 * m;
      assert m > 0;
    }
  }

  lemma Tenfold(a: nat, b: nat)
    requires a > 0 && b > 0
    ensures a * (10 * b) == 10 * (a * b) && a * b > 0
  {
  }

  lemma StripsOne(d: Dec, m: nat)
    requires d.coeff == 10 * m && m > 0
    ensures Stripped(d) == Stripped(Dec(d.negative, m, d.exp + 1))
  {
  }

  lemma {:induction false} StrippedMultiple(d: Dec, k: nat)
    requires d.coeff > 0
    ensures Stripped(Dec(d.negative, d.coeff * Pow10(k), d.exp - k)) == Stripped(d)
  {
    if k > 0 {
      var m := d.coeff * Pow10(k - 1);
      Tenfold(d.coeff, Pow10(k - 1));
      StripsOne(Dec(d.negative, 10 * m, d.exp - k), m);
      StrippedMultiple(d, k - 1);
    }
  }

  /** The digits that mean something: those left once trailing zeros are gone. */
  function SignificantDigits(d: Dec): nat {
    Digits(Stripped(d).coeff)
  }

  /** Rounding to the context's 28 digits changes a number exactly when it has more than 28 that mean something. */
  lemma RoundedExactly(d: Dec)
    ensures Val(Rounded(d)) == Val(d) <==> SignificantDigits(d) <= PRECISION
    ensures SignificantDigits(d) <= PRECISION ==> Normalized(d) == Stripped(d)
  {
    if Digits(d.coeff) <= PRECISION {
      if d.coeff > 0 { StrippedSame(d); }
    } else {
      var n := Digits(d.coeff) - PRECISION;
      var p := Pow10(n);
      var q := HalfEven(d.coeff, p);
      HalfEvenExact(d.coeff, p);
      RoundedValue(d, n);
      if d.coeff % p == 0 {
        assert d.coeff == q * p;
        DigitsTimes(q, n);
        StrippedSame(Dec(d.negative, q, d.exp + n));
        StrippedMultiple(Dec(d.negative, q, d.exp + n), n);
      } else {
        ManyDigitsLeft(d, n);
      }
    }
  }

  lemma RoundedValue(d: Dec, n: nat)
    ensures var q := HalfEven(d.coeff, Pow10(n));
      Val(Dec(d.negative, q, d.exp + n)) == Val(d) <==> q * Pow10(n) == d.coeff
  {
    var q := HalfEven(d.coeff, Pow10(n));
    var r := Dec(d.negative, q, d.exp + n);
    TimesFiner(Signed(r), d.exp, n);
    NegateProduct(q, Pow10(n));
    TimesOrder(Signed(d), Signed(r) * Pow10(n), d.exp);
    TimesOrder(Signed(r) * Pow10(n), Signed(d), d.exp);
  }

  lemma ManyDigitsLeft(d: Dec, n: nat)
    requires d.coeff > 0 && d.coeff % Pow10(n) != 0
    ensures Digits(d.coeff) < Digits(Stripped(d).coeff) + n
  {
    StrippedSame(d);
    var s := Stripped(d);
    var t := s.exp - d.exp;
    if t >= n {
      Unstripped(d, t);
      Pow10Sum(t - n, n);
      RegroupNat(s.coeff, Pow10(t - n), Pow10(n));
      NoRemainder(s.coeff * Pow10(t - n), Pow10(n));
    }
  }

  lemma RegroupNat(x: nat, y: nat, z: nat)
    ensures x * (y * z) == (x * y) * z
  {
  }

  lemma Unstripped(d: Dec, t: nat)
    requires d.coeff > 0 && t == Stripped(d).exp - d.exp
    ensures d.coeff == Stripped(d).coeff * Pow10(t)
  {
    StrippedSame(d);
    SameTimes(Signed(d), d.exp, Signed(Stripped(d)), Stripped(d).exp);
    NegateProduct(Stripped(d).coeff, Pow10(t));
  }

  lemma {:induction false} NoRemainder(k: nat, p: nat)
    requires p > 0
    ensures (k * p) % p == 0
  {
    if k > 0 {
      NoRemainder(k - 1, p);
      NextMultiple((k - 1) * p, p);
      assert k * p == (k - 1) * p + p;
    }
  }

  lemma NextMultiple(n: nat, p: nat)
    requires p > 0
    ensures (n + p) % p == n % p
  {
    var q, r := n / p, n % p;
    var q', r' := (n + p) / p, (n + p) % p;
    assert n == q * p + r && n + p == q' * p + r';
    SmallMultiple(q' - q - 1, p, r - r');
  }

  lemma AtLeastOnce(d: int, p: int)
    requires p > 0
    ensures d > 0 ==> d * p >= p
    ensures d < 0 ==> d * p <= -p
  {
    if d > 0 { assert (d - 1) * p >= 0; }
    if d < 0 { assert (-1 - d) * p >= 0; }
  }

  lemma SmallMultiple(d: int, p: int, r: int)
    requires d * p == r && -p < r < p
    ensures d == 0
  {
    AtLeastOnce(d, p);
  }

  // ----- What printing promises

  /** A number that passes the eight-place test has no more than eight places, and few enough digits. */
  lemma FitsMeansFewPlaces(d: Dec)
    requires d.exp < -MAX_WIRE_DECIMALS && FitsEightPlaces(d)
    ensures Stripped(d).exp >= -MAX_WIRE_DECIMALS && SignificantDigits(d) <= PRECISION
  {
    var q := Quantize(d, -MAX_WIRE_DECIMALS, Down).value;
    var k := -MAX_WIRE_DECIMALS - d.exp;
    if d.coeff > 0 {
      StrippedMultiple(q, k);
      StrippedSame(q);
    }
  }

  lemma ZeroTexts()
    ensures Plain(Dec(false, 0, 0)) == "0" && Plain(Dec(true, 0, 0)) == "-0"
  {
    assert Body(0, 0) == Text(0) + Zeros(0) == "0";
  }

  lemma WireOfZero(d: Dec)
    requires d.coeff == 0
    ensures DecimalToWire(d) == Ok("0")
  {
    ZeroTexts();
    if d.exp < -MAX_WIRE_DECIMALS {
      assert Quotient(0, Pow10(-MAX_WIRE_DECIMALS - d.exp)) == 0;
    }
  }

  lemma RoundedKeepsSign(d: Dec)
    requires d.coeff > 0
    ensures Normalized(d).coeff > 0
  {
    DigitsBound(d.coeff);
    if Digits(d.coeff) > PRECISION {
      var n := Digits(d.coeff) - PRECISION;
      Pow10Grows(n, Digits(d.coeff) - 1);
      QuotientBounds(d.coeff, Pow10(n), false);
    }
    StrippedSame(Rounded(d));
  }

  /**
   The printed text reads back as the number, exactly when the number has at most 28 significant digits;
   beyond that the context rounds it before it is printed.
   */
  lemma PrintedReadsBack(d: Dec)
    requires DecimalToWire(d).Ok?
    ensures var back := ToDecimal(DecimalToWire(d).value);
      back.Some? && (Val(back.value) == Val(d) <==> SignificantDigits(d) <= PRECISION)
  {
    var n := Normalized(d);
    RoundedExactly(d);
    StrippedSame(Rounded(d));
    ReadsPlainValue(n);
    if d.coeff == 0 {
      WireOfZero(d);
      TimesOne(d.exp);
      TimesOne(0);
      ReadsPlain(Dec(false, 0, 0));
      ZeroTexts();
    } else {
      RoundedKeepsSign(d);
      NotZeroText(n);
    }
  }

  lemma ReadsPositive(n: Dec)
    requires n.coeff > 0
    ensures ToDecimal(Plain(n)).Some? && ToDecimal(Plain(n)).value.coeff > 0
  {
    ReadsPlain(n);
    if n.exp >= 0 { assert n.coeff * Pow10(n.exp) > 0; }
  }

  lemma NotZeroText(n: Dec)
    requires n.coeff > 0
    ensures Plain(n) != "-0" && Plain(n) != "0"
  {
    ReadsPositive(n);
    ReadsPlain(Dec(false, 0, 0));
    ReadsPlain(Dec(true, 0, 0));
    ZeroTexts();
  }

  // ----- When printing refuses

  lemma QuotientOfProduct(x: nat, p: nat)
    requires x > 0 && p > 0
    ensures x * p > 0 && Quotient(x * p, p) == x
  {
    NoRemainder(x, p);
    var q := x * p / p;
    assert x * p == q * p;
    if q != x { AtLeastOnce(q - x, p); }
  }

  /** `n` ends in `k` zeros. */
  predicate EndsInZeros(n: nat, k: nat) {
    var c := Quotient(n, Pow10(k));
    c * Pow10(k) == n && c > 0 && Digits(n) == Digits(c) + k
  }

  lemma TensLeft(n: nat, s: nat, t: nat, k: nat)
    requires s > 0 && k <= t && n == s * Pow10(t)
    ensures EndsInZeros(n, k)
  {
    var c := s * Pow10(t - k);
    Pow10Sum(t - k, k);
    RegroupNat(s, Pow10(t - k), Pow10(k));
    QuotientOfProduct(s, Pow10(t - k));
    QuotientOfProduct(c, Pow10(k));
    DigitsTimes(c, k);
  }

  lemma PlacesOf(d: Dec)
    requires d.coeff > 0 && Stripped(d).exp >= -MAX_WIRE_DECIMALS > d.exp
    ensures EndsInZeros(d.coeff, -MAX_WIRE_DECIMALS - d.exp)
  {
    hide EndsInZeros, Stripped, Pow10, Digits;
    StrippedSame(d);
    Unstripped(d, Stripped(d).exp - d.exp);
    TensLeft(d.coeff, Stripped(d).coeff, Stripped(d).exp - d.exp, -MAX_WIRE_DECIMALS - d.exp);
  }

  lemma FitsExactly(d: Dec)
    requires d.coeff > 0 && d.exp < -MAX_WIRE_DECIMALS
    ensures FitsEightPlaces(d) <==> Stripped(d).exp >= -MAX_WIRE_DECIMALS && Adjusted(d) < 20
  {
    if FitsEightPlaces(d) { FitsMeansFewPlaces(d); }
    if Stripped(d).exp >= -MAX_WIRE_DECIMALS { PlacesOf(d); }
  }

  /**
   A number of ten to the twenty or more that is written with more than eight places is refused, and so is
   one that needs them.
   */
  lemma PrintsExactly(d: Dec)
    ensures DecimalToWire(d).Ok?
      <==> d.coeff == 0 || d.exp >= -MAX_WIRE_DECIMALS || (Stripped(d).exp >= -MAX_WIRE_DECIMALS && Adjusted(d) < 20)
  {
    if d.coeff == 0 {
      WireOfZero(d);
    } else if d.exp < -MAX_WIRE_DECIMALS {
      FitsExactly(d);
    }
  }

  /** With no more digits than the context keeps, only what needs more than eight places is refused. */
  lemma ShortPrintsExactly(d: Dec)
    requires Digits(d.coeff) <= PRECISION
    ensures DecimalToWire(d).Ok? <==> d.coeff == 0 || Stripped(d).exp >= -MAX_WIRE_DECIMALS
  {
    PrintsExactly(d);
    if d.coeff > 0 { StrippedSame(d); }
  }

  // ----- Equal numbers

  lemma RoundedStripped(d: Dec)
    requires d.coeff > 0 && Digits(Stripped(d).coeff) > PRECISION
    ensures Rounded(d) == Rounded(Stripped(d))
  {
    var s := Stripped(d);
    var t := s.exp - d.exp;
    StrippedSame(d);
    Unstripped(d, t);
    var n := Digits(s.coeff) - PRECISION;
    Pow10Sum(n, t);
    HalfEvenScaled(s.coeff, Pow10(n), Pow10(t));
  }

  /** Trailing zeros do not show in the printed number. */
  lemma NormalizedStripped(d: Dec)
    requires d.coeff > 0
    ensures Normalized(d) == Normalized(Stripped(d))
  {
    var s := Stripped(d);
    StrippedSame(d);
    if Digits(s.coeff) > PRECISION {
      RoundedStripped(d);
    } else {
      RoundedExactly(d);
      assert Stripped(s) == s;
    }
  }

  lemma EqualStripped(a: Dec, b: Dec)
    requires Val(a) == Val(b) && a.coeff > 0 && b.coeff > 0
    ensures Stripped(a) == Stripped(b) && Adjusted(a) == Adjusted(b)
  {
    StrippedSame(a);
    StrippedSame(b);
    if Stripped(a).exp <= Stripped(b).exp {
      StrippedUnique(Stripped(a), Stripped(b));
    } else {
      StrippedUnique(Stripped(b), Stripped(a));
    }
  }

  lemma EqualToZero(a: Dec, b: Dec)
    requires Val(a) == Val(b)
    ensures a.coeff == 0 <==> b.coeff == 0
  {
    TimesOne(a.exp);
    TimesOne(b.exp);
    TimesOrder(Signed(a), 0, a.exp);
    TimesOrder(0, Signed(a), a.exp);
    TimesOrder(Signed(b), 0, b.exp);
    TimesOrder(0, Signed(b), b.exp);
  }

  /**
   Two forms of the same number print the same text, or are both refused, unless the number is ten to the
   twenty or more, needs no more than eight places, and only one of the two is written with more.
   */
  lemma EqualNumbersPrintAlike(a: Dec, b: Dec)
    requires Val(a) == Val(b)
    ensures DecimalToWire(a) == DecimalToWire(b)
      <==> (a.coeff == 0 || Adjusted(a) < 20 || Stripped(a).exp < -MAX_WIRE_DECIMALS
        || (a.exp >= -MAX_WIRE_DECIMALS <==> b.exp >= -MAX_WIRE_DECIMALS))
  {
    EqualToZero(a, b);
    if a.coeff == 0 {
      WireOfZero(a);
      WireOfZero(b);
    } else {
      hide DecimalToWire, Stripped, Adjusted, Normalized;
      EqualStripped(a, b);
      PrintsAlike(a, b);
      PrintsExactly(a);
      PrintsExactly(b);
      StrippedSame(a);
      StrippedSame(b);
    }
  }

  lemma PrintsAlike(a: Dec, b: Dec)
    requires a.coeff > 0 && b.coeff > 0 && Stripped(a) == Stripped(b)
    ensures DecimalToWire(a) == DecimalToWire(b) <==> (DecimalToWire(a).Ok? <==> DecimalToWire(b).Ok?)
  {
    NormalizedStripped(a);
    NormalizedStripped(b);
  }

  /** With no more digits than the context keeps, equal numbers always print alike, refusals included. */
  lemma ShortNumbersPrintAlike(a: Dec, b: Dec)
    requires Val(a) == Val(b) && Digits(a.coeff) <= PRECISION && Digits(b.coeff) <= PRECISION
    ensures DecimalToWire(a) == DecimalToWire(b)
  {
    EqualNumbersPrintAlike(a, b);
    EqualToZero(a, b);
    if a.coeff > 0 {
      EqualStripped(a, b);
      StrippedSame(a);
      StrippedSame(b);
    }
  }

  /** One form of ten to the twenty-five prints; another is refused. */
  lemma LargeNumberTwoForms()
    ensures var a, b := Dec(false, Pow10(25), 0), Dec(false, Pow10(34), -9);
      Val(a) == Val(b) && DecimalToWire(a).Ok? && DecimalToWire(b).Err?
  {
    Pow10Sum(25, 9);
    TimesFiner(Pow10(25), -9, 9);
    DigitsTimes(1, 34);
    PrintsExactly(Dec(false, Pow10(34), -9));
  }

  lemma EndsInOne(n: nat)
    requires n % 10 == 0 && n >= Pow10(PRECISION)
    ensures SignificantDigits(Dec(false, n + 1, 0)) > PRECISION
  {
    DigitsAtMost(n + 1, PRECISION);
  }

  /** Twenty-nine digits or more with a 1 at the end print with that 1 rounded away. */
  lemma LongNumbersAreRounded(n: nat)
    requires n % 10 == 0 && n >= Pow10(PRECISION)
    ensures var wire := DecimalToWire(Dec(false, n + 1, 0));
      wire.Ok? && ToDecimal(wire.value).Some? && Val(ToDecimal(wire.value).value) != Val(Dec(false, n + 1, 0))
  {
    EndsInOne(n);
    PrintedReadsBack(Dec(false, n + 1, 0));
  }

  // ----- The texts an order may carry

  /** A text `order_wire` takes for a price or a size: it reads as a positive number and prints as itself. */
  predicate Accepted(text: string) {
    match ToDecimal(text)
    case None => false
    case Some(d) => DecimalToWire(d) == Ok(text) && !d.negative && d.coeff > 0
  }

  /**
   The venue's form of a positive number: digits with no leading zero, then nothing or a point and up to
   eight digits that do not end in zero; at most 28 significant digits in all.
   */
  predicate WireText(text: string) {
    var whole, fraction := Whole(text), Fraction(text);
    && whole != "" && AllDigits(whole + fraction)
    && (|whole| == 1 || whole[0] != '0')
    && (PointAt(text) < |text| ==> 1 <= |fraction| <= MAX_WIRE_DECIMALS && Last(fraction) != '0')
    && Number(whole + fraction) > 0
    && SignificantDigits(Dec(false, Number(whole + fraction), 0)) <= PRECISION
  }

  lemma {:induction false} StrippedShift(negative: bool, coeff: nat, e: int, f: int)
    requires coeff > 0
    ensures Stripped(Dec(negative, coeff, e)).coeff == Stripped(Dec(negative, coeff, f)).coeff
    decreases coeff
  {
    if coeff % 10 == 0 { StrippedShift(negative, coeff / 10, e + 1, f + 1); }
  }

  lemma TextTen(m: nat)
    requires m > 0
    ensures Text(10 * m) == Text(m) + "0"
  {
    assert (10 * m) / 10 == m && (10 * m) % 10 == 0;
  }

  lemma {:induction false} TextTimes(n: nat, k: nat)
    requires n > 0
    ensures n * Pow10(k) > 0 && Text(n * Pow10(k)) == Text(n) + Zeros(k)
  {
    if k > 0 {
      TextTimes(n, k - 1);
      TextTen(n * Pow10(k - 1));
      RegroupNat(n, 10, Pow10(k - 1));
      RegroupNat(10, n, Pow10(k - 1));
      assert Text(n) + Zeros(k) == Text(n) + Zeros(k - 1) + "0";
    } else {
      assert Text(n) + Zeros(0) == Text(n);
    }
  }

  lemma {:induction false} LeadingZeros(s: string) returns (zeros: nat)
    requires AllDigits(s) && s != "" && Last(s) != '0'
    ensures zeros < |s| && s == Zeros(zeros) + s[zeros..] && s[zeros] != '0'
  {
    if s[0] != '0' {
      zeros := 0;
    } else {
      assert |s| > 1 && Last(s[1..]) == Last(s);
      var rest := LeadingZeros(s[1..]);
      zeros := rest + 1;
      ZerosAhead(rest);
      assert s == "0" + s[1..] && s[zeros..] == s[1..][rest..];
    }
  }

  lemma {:induction false} ZerosAhead(n: nat)
    ensures "0" + Zeros(n) == Zeros(n + 1)
  {
    if n > 0 { ZerosAhead(n - 1); }
  }

  lemma PositiveNumber(s: string)
    requires s != "" && AllDigits(s) && Last(s) != '0'
    ensures Number(s) > 0 && Number(s) % 10 != 0
  {
  }

  /** A number with a whole part prints with the point where it was. */
  lemma PrintsPointed(whole: string, fraction: string)
    requires AllDigits(whole) && AllDigits(fraction) && whole != "" && fraction != "" && whole[0] != '0'
    ensures AllDigits(whole + fraction) && Body(Number(whole + fraction), -|fraction|) == whole + "." + fraction
  {
    var digits := whole + fraction;
    TextOfNumber(digits);
    assert digits[..|whole|] == whole && digits[|whole|..] == fraction;
  }

  /** A number below one prints the zeros after its point. */
  lemma PrintsSmall(fraction: string)
    requires AllDigits(fraction) && fraction != "" && Last(fraction) != '0'
    ensures AllDigits("0" + fraction) && Body(Number("0" + fraction), -|fraction|) == "0." + fraction
  {
    var zeros := LeadingZeros(fraction);
    var digits := fraction[zeros..];
    NumberAfterZeros(1, fraction);
    LoneZero();
    NumberAfterZeros(zeros, digits);
    TextOfNumber(digits);
  }

  lemma NormalizedItself(d: Dec)
    requires d.coeff > 0 && d.coeff % 10 != 0 && SignificantDigits(Dec(d.negative, d.coeff, 0)) <= PRECISION
    ensures Normalized(d) == d
  {
    StrippedShift(d.negative, d.coeff, d.exp, 0);
    RoundedExactly(d);
  }

  lemma PrintsParts(whole: string, fraction: string)
    requires AllDigits(whole) && AllDigits(fraction) && whole != "" && fraction != ""
    requires (|whole| == 1 || whole[0] != '0') && Last(fraction) != '0'
    ensures AllDigits(whole + fraction) && Body(Number(whole + fraction), -|fraction|) == whole + "." + fraction
  {
    if whole[0] == '0' {
      assert whole == "0";
      PrintsSmall(fraction);
      assert "0." + fraction == "0" + "." + fraction;
    } else {
      PrintsPointed(whole, fraction);
    }
  }

  lemma ReadsWireText(text: string)
    requires Whole(text) != "" && AllDigits(Whole(text) + Fraction(text))
    ensures text != "" && IsDigit(text[0])
    ensures ToDecimal(text) == Some(Dec(false, Number(Whole(text) + Fraction(text)), -|Fraction(text)|))
  {
    assert (Whole(text) + Fraction(text))[0] == text[0];
  }

  lemma FractionBody(text: string)
    requires WireText(text) && PointAt(text) < |text|
    ensures var d := Dec(false, Number(Whole(text) + Fraction(text)), -|Fraction(text)|);
      Normalized(d) == d && Body(d.coeff, d.exp) == text
  {
    var whole, fraction := Whole(text), Fraction(text);
    SplitDigits(whole, fraction);
    PositiveNumber(whole + fraction);
    NormalizedItself(Dec(false, Number(whole + fraction), -|fraction|));
    PrintsParts(whole, fraction);
    assert text == whole + "." + fraction;
  }

  lemma SplitDigits(whole: string, fraction: string)
    requires AllDigits(whole + fraction)
    ensures AllDigits(whole) && AllDigits(fraction)
    ensures fraction != "" ==> Last(whole + fraction) == Last(fraction)
  {
    AllDigitsParts(whole, fraction);
  }

  lemma PrintsItself(d: Dec, text: string)
    requires !d.negative && d.coeff > 0 && d.exp >= -MAX_WIRE_DECIMALS && ToDecimal(text) == Some(d)
    requires Body(Normalized(d).coeff, Normalized(d).exp) == text && text != "" && IsDigit(text[0])
    ensures Accepted(text)
  {
    StrippedSame(Rounded(d));
    assert Plain(Normalized(d)) == text;
    RoundedKeepsSign(d);
    NotZeroText(Normalized(d));
  }

  lemma PrintsWhole(text: string)
    requires AllDigits(text) && text != "" && (|text| == 1 || text[0] != '0') && Number(text) > 0
    ensures var s := Stripped(Dec(false, Number(text), 0)); Body(s.coeff, s.exp) == text
  {
    var d := Dec(false, Number(text), 0);
    TextOfNumber(text);
    StrippedSame(d);
    Unstripped(d, Stripped(d).exp);
    TextTimes(Stripped(d).coeff, Stripped(d).exp);
  }

  lemma WholeBody(text: string)
    requires WireText(text) && PointAt(text) == |text|
    ensures var d := Dec(false, Number(Whole(text) + Fraction(text)), -|Fraction(text)|);
      Body(Normalized(d).coeff, Normalized(d).exp) == text
  {
    assert Whole(text) == text && text + "" == text;
    PrintsWhole(text);
    RoundedExactly(Dec(false, Number(text), 0));
  }

  lemma WholeBodyParts(d: Dec, text: string)
    requires d.coeff > 0 && d.exp >= 0 && text == Body(d.coeff, d.exp)
    ensures Whole(text) == text && Fraction(text) == "" && PointAt(text) == |text| && AllDigits(text)
    ensures text != "" && text[0] != '0' && Number(text) == d.coeff * Pow10(d.exp)
  {
    NumberOfText(d.coeff);
    NumberWithZeros(Text(d.coeff), d.exp);
    PartsOf(text, "");
  }

  lemma PointedBodyParts(d: Dec, text: string)
    requires d.coeff > 0 && d.coeff % 10 != 0 && d.exp < 0 && Digits(d.coeff) + d.exp > 0
      && text == Body(d.coeff, d.exp)
    ensures Whole(text) + Fraction(text) == Text(d.coeff) && |Fraction(text)| == -d.exp && PointAt(text) < |text|
    ensures Whole(text) != "" && Whole(text)[0] != '0' && Last(Fraction(text)) != '0'
  {
    var digits := Text(d.coeff);
    var point := |digits| + d.exp;
    PartsOf(digits[..point], digits[point..]);
  }

  lemma NormalBodyIsWireText(d: Dec, text: string)
    requires !d.negative && d.coeff > 0 && d.coeff % 10 != 0 && d.exp >= -MAX_WIRE_DECIMALS
    requires Digits(d.coeff) <= PRECISION && text == Body(d.coeff, d.exp)
    ensures WireText(text)
  {
    NumberOfText(d.coeff);
    if d.exp >= 0 {
      WholeBodyParts(d, text);
      assert text + "" == text;
      StrippedMultiple(d, d.exp);
    } else if Digits(d.coeff) + d.exp > 0 {
      PointedBodyParts(d, text);
    } else {
      var digits := Text(d.coeff);
      var zeros := -(|digits| + d.exp);
      SmallParts(digits, zeros, text);
      assert Last(Zeros(zeros) + digits) == Last(digits);
    }
  }

  lemma AcceptedIsWireText(text: string)
    requires Accepted(text)
    ensures WireText(text)
  {
    var d := ToDecimal(text).value;
    var n := Normalized(d);
    StrippedSame(Rounded(d));
    RoundedKeepsSign(d);
    NotZeroText(n);
    assert text == Plain(n) == Body(n.coeff, n.exp);
    ReadsPlainValue(n);
    RoundedExactly(d);
    StrippedSame(d);
    if d.exp < -MAX_WIRE_DECIMALS { FitsMeansFewPlaces(d); }
    NormalBodyIsWireText(n, text);
  }

  /** A price or a size is taken exactly when its text is in the venue's form. */
  lemma AcceptedExactly(text: string)
    ensures Accepted(text) <==> WireText(text)
  {
    if Accepted(text) { AcceptedIsWireText(text); }
    if WireText(text) {
      ReadsWireText(text);
      if PointAt(text) < |text| { FractionBody(text); } else { WholeBody(text); }
      PrintsItself(ToDecimal(text).value, text);
    }
  }

  // ----- What is printed is taken

  lemma StrippedDigits(d: Dec)
    ensures Digits(Stripped(d).coeff) <= Digits(d.coeff)
  {
    StrippedSame(d);
  }

  lemma RoundedWithin(d: Dec)
    requires Digits(d.coeff) > PRECISION
    ensures Rounded(d).coeff <= Pow10(PRECISION)
  {
    var n := Digits(d.coeff) - PRECISION;
    DigitsBound(d.coeff);
    Pow10Sum(PRECISION, n);
    HalfEvenWithin(d.coeff, Pow10(PRECISION), Pow10(n));
  }

  lemma {:induction false} StrippedPower(negative: bool, k: nat, e: int)
    ensures Stripped(Dec(negative, Pow10(k), e)).coeff == 1
    decreases k
  {
    if k > 0 {
      StripsOne(Dec(negative, Pow10(k), e), Pow10(k - 1));
      StrippedPower(negative, k - 1, e + 1);
    }
  }

  lemma NormalizedFits(d: Dec)
    ensures Digits(Normalized(d).coeff) <= PRECISION
  {
    var r := Rounded(d);
    StrippedDigits(r);
    if Digits(d.coeff) > PRECISION {
      RoundedWithin(d);
      hide Rounded, Stripped;
      if r.coeff == Pow10(PRECISION) {
        StrippedPower(r.negative, PRECISION, r.exp);
      } else {
        DigitsAtMost(r.coeff, PRECISION);
      }
    }
  }

  lemma NormalizedPlaces(d: Dec)
    requires d.coeff > 0 && DecimalToWire(d).Ok?
    ensures Normalized(d).exp >= -MAX_WIRE_DECIMALS
  {
    RoundedKeepsSign(d);
    StrippedSame(Rounded(d));
    if d.exp < -MAX_WIRE_DECIMALS {
      FitsMeansFewPlaces(d);
      RoundedExactly(d);
    }
  }

  /** Whatever is printed of a positive number is a text an order may carry. */
  lemma PrintedIsAccepted(d: Dec)
    requires !d.negative && d.coeff > 0 && DecimalToWire(d).Ok?
    ensures Accepted(DecimalToWire(d).value)
  {
    var n := Normalized(d);
    StrippedSame(Rounded(d));
    RoundedKeepsSign(d);
    NotZeroText(n);
    NormalizedFits(d);
    NormalizedPlaces(d);
    NormalBodyIsWireText(n, Plain(n));
    AcceptedExactly(Plain(n));
  }

  /**
   A number that came out of `quantize` on a grid of at most eight places prints as itself, and is taken if
   positive.
   */
  lemma QuantizedIsSent(d: Dec)
    requires -MAX_WIRE_DECIMALS <= d.exp <= 0 && Digits(d.coeff) <= PRECISION
    ensures var wire := DecimalToWire(d);
      && wire.Ok? && ToDecimal(wire.value).Some? && Val(ToDecimal(wire.value).value) == Val(d)
      && (!d.negative && d.coeff > 0 ==> Accepted(wire.value))
  {
    PrintedReadsBack(d);
    StrippedDigits(d);
    if !d.negative && d.coeff > 0 { PrintedIsAccepted(d); }
  }

  /** A rounded price can be sent as it is, unless it was rounded down to nothing. */
  lemma RoundedPriceIsSent(price: Dec, szDecimals: int, isBuy: bool)
    requires szDecimals >= -2 && RoundPrice(price, szDecimals, isBuy).Ok?
    ensures var r := RoundPrice(price, szDecimals, isBuy).value; var wire := DecimalToWire(r);
      && wire.Ok? && ToDecimal(wire.value).Some? && Val(ToDecimal(wire.value).value) == Val(r)
      && (Accepted(wire.value) <==> !isBuy || Val(price) >= P10(szDecimals - PERP_PRICE_DECIMALS))
  {
    var r := RoundPrice(price, szDecimals, isBuy).value;
    QuantizedIsSent(r);
    RoundedPriceIsPositive(price, szDecimals, isBuy);
    PositiveIsSent(r);
  }

  lemma PositiveIsSent(r: Dec)
    requires DecimalToWire(r).Ok?
    requires !r.negative && (r.coeff > 0 ==> Accepted(DecimalToWire(r).value))
    ensures Accepted(DecimalToWire(r).value) <==> Val(r) > 0.0
  {
    TimesOne(r.exp);
    TimesOrder(0, r.coeff, r.exp);
    if r.coeff == 0 {
      WireOfZero(r);
      ZeroTexts();
      ReadsPlain(Dec(false, 0, 0));
    }
  }

  /** A size cut to the lot can be sent as it is, unless nothing was left of it. */
  lemma RoundedSizeIsSent(size: Dec, szDecimals: int)
    requires szDecimals <= MAX_WIRE_DECIMALS && RoundSize(size, szDecimals).Ok?
    ensures var r := RoundSize(size, szDecimals).value; var wire := DecimalToWire(r);
      && wire.Ok? && ToDecimal(wire.value).Some? && Val(ToDecimal(wire.value).value) == Val(r)
      && (!r.negative && r.coeff > 0 ==> Accepted(wire.value))
  {
    QuantizedIsSent(RoundSize(size, szDecimals).value);
  }
}
