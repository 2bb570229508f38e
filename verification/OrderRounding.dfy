/** Rounding a price and a size onto what the venue accepts, never past the bound that was asked for. */
module OrderRounding {
  import opened Common
  import opened Decimals

  const PERP_PRICE_DECIMALS: int := 6
  const PRICE_SIGNIFICANT_FIGURES: int := 5

  /** `OrderFormatError`, `decimal.InvalidOperation`, or a type the code cannot work with at all. */
  datatype OrderError = OrderFormat | InvalidOperation | WrongType

  function Quantized(d: Dec, exp: int, rounding: Rounding): Result<Dec, OrderError> {
    match Quantize(d, exp, rounding)
    case None => Err(InvalidOperation)
    case Some(q) => Ok(q)
  }

  function RoundSize(size: Dec, szDecimals: int): Result<Dec, OrderError> {
    if szDecimals < 0 then Err(OrderFormat) else Quantized(size, -szDecimals, Down)
  }

  function IntegerDigits(price: Dec): nat {
    if IntegerPart(price) >= 1 then Digits(IntegerPart(price)) else 0
  }

  function RoundPrice(price: Dec, szDecimals: int, isBuy: bool): Result<Dec, OrderError> {
    if price.negative || price.coeff == 0 then Err(OrderFormat)
    else
      var rounding := if isBuy then Floor else Ceiling;
      var decimals := PERP_PRICE_DECIMALS - szDecimals;
      if decimals < 0 then Err(OrderFormat)
      else if IntegerDigits(price) >= PRICE_SIGNIFICANT_FIGURES then Quantized(price, 0, rounding)
      else
        match Quantize(price, Adjusted(price) - (PRICE_SIGNIFICANT_FIGURES - 1), rounding)
        case None => Err(InvalidOperation)
        case Some(significant) => Quantized(significant, -decimals, rounding)
  }

  // ----- What the venue accepts

  ghost predicate FewFigures(x: real) {
    exists k: nat, e: int :: k < 100000 && x == Times(k, e)
  }

  /** Whole, or at most five significant figures and at most `6 - szDecimals` decimals. */
  ghost predicate ValidPrice(x: real, szDecimals: int) {
    OnGrid(x, 0) || (FewFigures(x) && OnGrid(x, szDecimals - PERP_PRICE_DECIMALS))
  }

  // ----- Magnitudes

  lemma {:induction false} P10Less(a: int, b: int)
    ensures P10(a) < P10(b) <==> a < b
  {
    if a < b {
      P10Grows(a, b - 1);
      P10Next(b - 1);
    } else {
      P10Grows(b, a);
    }
  }

  lemma TimesOne(e: int)
    ensures Times(1, e) == P10(e) && Times(0, e) == 0.0
    ensures forall f :: f <= e ==> OnGrid(P10(e), f)
  {
    assert Times(1, e) == P10(e);
    forall f | f <= e ensures OnGrid(P10(e), f) {
      GridCoarser(P10(e), e, f);
    }
  }

  lemma TimesPow(n: nat, e: int)
    ensures Times(Pow10(n), e) == P10(e + n)
  {
    TimesFiner(1, e, n);
    TimesOne(e + n);
  }

  lemma FiveIsPow()
    ensures Pow10(5) == 100000 && Pow10(4) == 10000
  {
    assert Pow10(2) == 100;
    assert Pow10(4) == 10000;
  }

  /** The leading digit stands where `adjusted()` says. */
  lemma AdjustedBounds(d: Dec)
    requires !d.negative && d.coeff > 0
    ensures P10(Adjusted(d)) <= Val(d) < P10(Adjusted(d) + 1)
  {
    var k := Digits(d.coeff);
    DigitsBound(d.coeff);
    TimesPow(k - 1, d.exp);
    TimesPow(k, d.exp);
    TimesOrder(d.coeff, Pow10(k - 1), d.exp);
    TimesOrder(d.coeff, Pow10(k), d.exp);
  }

  lemma DigitsAtMost(n: nat, k: nat)
    requires k >= 1
    ensures Digits(n) <= k <==> n < Pow10(k)
  {
    DigitsBound(n);
    if Digits(n) <= k { Pow10Grows(Digits(n), k); } else { Pow10Grows(k, Digits(n) - 1); }
  }

  /** Counting the digits of the integer part tells prices from ten thousand up from smaller ones. */
  lemma FiveDigitsMeansTenThousand(price: Dec)
    requires !price.negative && price.coeff > 0
    ensures IntegerDigits(price) >= 5 <==> P10(4) <= Val(price)
  {
    var i := IntegerPart(price);
    ShiftedIsNearest(price, 0, false);
    FiveIsPow();
    DigitsAtMost(i, 4);
    TimesPow(4, 0);
    TimesOrder(i, i + 1, 0);
    if i < Pow10(4) {
      TimesOrder(Pow10(4), i + 1, 0);
      assert OnGrid(Times(i + 1, 0), 0);
    } else {
      TimesOrder(i, Pow10(4), 0);
    }
  }

  /** A number with few figures and no smaller than `10**a` has nothing below `10**(a - 4)`. */
  lemma FewFiguresOnGrid(q: real, a: int)
    requires FewFigures(q) && P10(a) <= q
    ensures OnGrid(q, a - 4)
  {
    var k: nat, e: int :| k < 100000 && q == Times(k, e);
    FiveIsPow();
    TimesOrder(k, Pow10(5), e);
    TimesPow(5, e);
    P10Less(a, e + 5);
    GridCoarser(q, e, a - 4);
  }

  /**
   Where rounding lands: `a` is where the price's leading digit stands (or 4, for a whole price), `f` the
   grid of the allowed decimals and `g` the coarser grid that the price was rounded to.
   */
  ghost predicate Landing(p: real, a: int, f: int, g: int) {
    && P10(a) <= p && f <= g <= 0
    && (g == a - 4 || (g == f && a - 4 <= g && p < P10(a + 1)))
  }

  /** No price the venue accepts lies between the rounded price and the bound. */
  lemma NothingBetween(p: real, a: int, szDecimals: int, g: int, r: real, down: bool, q: real)
    requires Landing(p, a, szDecimals - 6, g) && Nearest(p, g, r, down)
    requires ValidPrice(q, szDecimals) && (if down then q <= p else p <= q)
    ensures if down then q <= r else r <= q
  {
    var f := szDecimals - 6;
    TimesOne(g);
    if OnGrid(q, 0) {
      GridCoarser(q, 0, g);
    } else if P10(a) <= q {
      FewFiguresOnGrid(q, a);
    } else if a >= g {
      TimesOne(a);
      assert OnGrid(P10(a), g);
    } else {
      assert down && g == f;
      var j: int :| q == Times(j, f);
      TimesOrder(j, 1, f);
      P10Grows(a + 1, f);
    }
  }

  lemma LandedIsValid(p: real, a: int, szDecimals: int, g: int, r: real, down: bool)
    requires Landing(p, a, szDecimals - 6, g) && p < P10(g + 5) && Nearest(p, g, r, down)
    ensures ValidPrice(r, szDecimals)
  {
    var m: int :| r == Times(m, g);
    FiveIsPow();
    TimesPow(5, g);
    TimesOne(g + 5);
    assert OnGrid(P10(g + 5), g);
    TimesOrder(Pow10(5), m, g);
    TimesOne(g);
    assert OnGrid(Times(0, g), g);
    P10Less(a, g + 5);
    assert 0.0 < p;
    TimesOrder(m, 0, g);
    assert 0 <= m <= Pow10(5);
    if m == Pow10(5) {
      assert r == Times(1, g + 5);
    }
    assert FewFigures(r);
    GridCoarser(r, g, szDecimals - 6);
  }

  /** `round_price` for one side: an accepted price (or nothing left at all), and the best one there is. */
  ghost predicate BestPrice(p: real, r: real, szDecimals: int, isBuy: bool) {
    && ValidPrice(r, szDecimals)
    && (if isBuy then r <= p else p <= r)
    && forall q :: ValidPrice(q, szDecimals) && (if isBuy then q <= p else p <= q) ==> if isBuy then q <= r else r <= q
  }

  lemma RoundPriceIsBest(price: Dec, szDecimals: int, isBuy: bool)
    requires RoundPrice(price, szDecimals, isBuy).Ok?
    ensures BestPrice(Val(price), Val(RoundPrice(price, szDecimals, isBuy).value), szDecimals, isBuy)
  {
    var p, r := Val(price), Val(RoundPrice(price, szDecimals, isBuy).value);
    var a, g := RoundedToGrid(price, szDecimals, isBuy);
    forall q | ValidPrice(q, szDecimals) && (if isBuy then q <= p else p <= q)
      ensures if isBuy then q <= r else r <= q
    {
      NothingBetween(p, a, szDecimals, g, r, isBuy, q);
    }
    if P10(4) <= p {
      assert OnGrid(r, 0);
    } else {
      LandedIsValid(p, a, szDecimals, g, r, isBuy);
    }
  }

  /** A rounded price is positive, unless it is a buy's and was below the smallest price there is. */
  lemma RoundedPriceIsPositive(price: Dec, szDecimals: int, isBuy: bool)
    requires RoundPrice(price, szDecimals, isBuy).Ok?
    ensures Val(RoundPrice(price, szDecimals, isBuy).value) > 0.0
      <==> !isBuy || Val(price) >= P10(szDecimals - PERP_PRICE_DECIMALS)
    ensures !RoundPrice(price, szDecimals, isBuy).value.negative
  {
    var r, f := Val(RoundPrice(price, szDecimals, isBuy).value), szDecimals - PERP_PRICE_DECIMALS;
    RoundPriceIsBest(price, szDecimals, isBuy);
    AdjustedBounds(price);
    TimesOne(f);
    if Val(price) >= P10(f) {
      assert P10(f) == Times(1, f);
      assert ValidPrice(P10(f), szDecimals);
    } else if isBuy {
      if OnGrid(r, 0) { GridCoarser(r, 0, f); }
      var k: int :| r == Times(k, f);
      TimesOrder(k, 1, f);
      TimesOrder(0, k, f);
    }
  }

  /** The two roundings amount to one, to the coarser of the two grids. */
  lemma RoundedToGrid(price: Dec, szDecimals: int, isBuy: bool) returns (a: int, g: int)
    requires RoundPrice(price, szDecimals, isBuy).Ok?
    ensures Nearest(Val(price), g, Val(RoundPrice(price, szDecimals, isBuy).value), isBuy)
    ensures Landing(Val(price), a, szDecimals - 6, g)
    ensures if P10(4) <= Val(price) then g == 0 else Val(price) < P10(g + 5)
  {
    hide Times, OnGrid, Shifted, Digits, IntegerDigits, P10, Val, Nearest, Adjusted;
    var rounding := if isBuy then Floor else Ceiling;
    FiveDigitsMeansTenThousand(price);
    AdjustedBounds(price);
    a := Adjusted(price);
    if IntegerDigits(price) >= 5 {
      QuantizeIsNearest(price, 0, rounding);
      a, g := 4, 0;
    } else {
      P10Less(a, 4);
      var e, f := a - 4, szDecimals - 6;
      var significant := Quantize(price, e, rounding).value;
      QuantizeIsNearest(price, e, rounding);
      QuantizeIsNearest(significant, f, rounding);
      NearestTwice(Val(price), e, Val(significant), f, Val(Quantize(significant, f, rounding).value), isBuy);
      g := if e < f then f else e;
      P10Grows(a + 1, g + 5);
    }
  }

  /** Where rounding succeeds: everywhere, up to the 28 digits a decimal may have. */
  lemma RoundPriceSucceeds(price: Dec, szDecimals: int, isBuy: bool)
    requires 0 <= szDecimals <= 6 && !price.negative && price.coeff > 0
    ensures RoundPrice(price, szDecimals, isBuy).Ok?
      <==> if isBuy then Val(price) < P10(28) else Val(price) <= Times(Pow10(28) - 1, 0)
  {
    FiveDigitsMeansTenThousand(price);
    TimesPow(28, 0);
    TimesOrder(Pow10(28) - 1, Pow10(28), 0);
    Pow10Grows(4, 28);
    TimesPow(4, 0);
    if IntegerDigits(price) >= 5 {
      WholeFits(price, isBuy);
    } else {
      P10Less(4, 28);
      TimesOrder(Pow10(4), Pow10(28) - 1, 0);
      FiveIsPow();
      Pow10Grows(5, 28);
      SmallFits(price, szDecimals, isBuy);
    }
  }

  lemma WholeFits(price: Dec, isBuy: bool)
    requires !price.negative
    ensures Quantize(price, 0, if isBuy then Floor else Ceiling).Some?
      <==> if isBuy then Val(price) < Times(Pow10(28), 0) else Val(price) <= Times(Pow10(28) - 1, 0)
  {
    var c := Shifted(price.coeff, price.exp, !isBuy);
    ShiftedIsNearest(price, 0, !isBuy);
    DigitsAtMost(c, 28);
    var bound := if isBuy then Pow10(28) else Pow10(28) - 1;
    assert OnGrid(Times(bound, 0), 0);
    TimesOrder(c, bound, 0);
    TimesOrder(bound, c, 0);
  }

  /** Rounding a number below a power of ten to a grid leaves at most that power of ten. */
  lemma ShiftedFits(d: Dec, exp: int, up: bool, n: nat)
    requires !d.negative && Val(d) <= P10(exp + n)
    ensures Shifted(d.coeff, d.exp - exp, up) <= Pow10(n)
  {
    ShiftedIsNearest(d, exp, up);
    TimesPow(n, exp);
    TimesOne(exp + n);
    assert OnGrid(P10(exp + n), exp);
    TimesOrder(Pow10(n), Shifted(d.coeff, d.exp - exp, up), exp);
  }

  lemma SignificantFits(price: Dec, rounding: Rounding)
    requires !price.negative && price.coeff > 0 && Val(price) < P10(4)
    ensures var q := Quantize(price, Adjusted(price) - 4, rounding);
      q.Some? && !q.value.negative && Val(q.value) <= P10(4)
  {
    AdjustedBounds(price);
    var e := Adjusted(price) - 4;
    P10Less(Adjusted(price), 4);
    ShiftedFits(price, e, rounding == Ceiling, 5);
    Pow10Below();
    DigitsAtMost(Shifted(price.coeff, price.exp - e, rounding == Ceiling), PRECISION);
    QuantizeIsNearest(price, e, rounding);
    TimesOne(4);
    assert OnGrid(P10(4), e);
  }

  lemma DecimalsFit(d: Dec, f: int, rounding: Rounding)
    requires -6 <= f <= 0 && !d.negative && Val(d) <= P10(4)
    ensures Quantize(d, f, rounding).Some?
  {
    hide Val, Shifted, Pow10, P10, Digits;
    ShiftedFits(d, f, rounding == Ceiling, 4 - f);
    Pow10Grows(4 - f, 10);
    Pow10Below();
    DigitsAtMost(Shifted(d.coeff, d.exp - f, rounding == Ceiling), PRECISION);
  }

  lemma SmallFits(price: Dec, szDecimals: int, isBuy: bool)
    requires 0 <= szDecimals <= 6 && !price.negative && price.coeff > 0 && Val(price) < P10(4)
    requires IntegerDigits(price) < 5
    ensures RoundPrice(price, szDecimals, isBuy).Ok?
  {
    var rounding := if isBuy then Floor else Ceiling;
    SignificantFits(price, rounding);
    DecimalsFit(Quantize(price, Adjusted(price) - 4, rounding).value, szDecimals - 6, rounding);
  }

  lemma Pow10Below()
    ensures Pow10(5) < Pow10(PRECISION) && Pow10(10) < Pow10(PRECISION)
  {
    Pow10Grows(5, 10);
    Pow10Grows(11, PRECISION);
  }

  /** A size is cut to the market's lot: the largest number of lots not above it, of the same sign. */
  lemma RoundSizeIsBest(size: Dec, szDecimals: int)
    requires RoundSize(size, szDecimals).Ok?
    ensures var r := RoundSize(size, szDecimals).value;
      && r.negative == size.negative
      && Nearest(Val(size.(negative := false)), -szDecimals, Val(r.(negative := false)), true)
  {
    ShiftedIsNearest(size.(negative := false), -szDecimals, false);
  }

  lemma LotsFit(x: real, e: int, c: nat)
    requires Nearest(x, e, Times(c, e), true)
    ensures Digits(c) <= 28 <==> x < P10(28 + e)
  {
    hide Pow10, P10, Digits, Times;
    DigitsAtMost(c, 28);
    TimesPow(28, e);
    assert OnGrid(Times(Pow10(28), e), e);
    TimesOrder(c, Pow10(28), e);
    TimesOrder(Pow10(28), c, e);
  }

  /** Where cutting a size succeeds: with lots of zero or more decimals, while the lots fit into 28 digits. */
  lemma RoundSizeSucceeds(size: Dec, szDecimals: int)
    ensures RoundSize(size, szDecimals).Ok? <==> szDecimals >= 0 && Val(size.(negative := false)) < P10(28 - szDecimals)
  {
    if szDecimals >= 0 {
      var d, e := size.(negative := false), -szDecimals;
      hide Shifted, Val, P10, Digits, Nearest, Times;
      ShiftedIsNearest(d, e, false);
      LotsFit(Val(d), e, Shifted(d.coeff, d.exp - e, false));
    }
  }
}
