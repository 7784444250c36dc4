/** Decimal precision: which settings `Market::new` accepts, why they make every settled amount an
    exact number of ledger units, and the rounding of deposits and withdrawals. */
module Precision {
  import opened Types
  import opened Matching

  /** A `Decimal` has at most 28 fractional digits. */
  const SCALE: nat := 28

  function Pow10(n: nat): Pos
  {
    if n == 0 then 1 else 10 * Pow10(n - 1)
  }

  /** How many steps `x` is, to the nearest, ties to even: `round_dp`. */
  function RoundHalfEven(x: int, step: Pos): int
  {
    var q, r := x / step, x % step;
    if 2 * r < step then q
    else if 2 * r > step then q + 1
    else if q % 2 == 0 then q
    else q + 1
  }

  /** A market's configured precisions and those of its two assets. */
  datatype Precisions = Precisions(amount: nat, price: nat, base: nat, quote: nat)

  predicate WithinScale(p: Precisions)
  {
    p.base <= SCALE && p.quote <= SCALE
  }

  /** The check of `Market::new`. */
  predicate ValidPrecisions(p: Precisions)
  {
    p.amount <= p.base && p.amount + p.price <= p.quote
  }

  datatype MarketSettings = MarketSettings(
    name: MarketName, base: Asset, quote: Asset, amountPrec: nat, pricePrec: nat, feePrec: nat, minAmount: Fixed,
    disableSelfTrade: bool, disableMarketOrder: bool)

  datatype SetupError = InvalidAsset | InvalidPrecision

  /** `Market::new`, over the precisions of the known assets. */
  function NewMarket(m: MarketSettings, prec: map<Asset, nat>): Result<MarketConf, SetupError>
    requires forall a | a in prec :: prec[a] <= SCALE
  {
    if m.base !in prec || m.quote !in prec then Err(InvalidAsset)
    else
      var p := Precisions(m.amountPrec, m.pricePrec, prec[m.base], prec[m.quote]);
      if !ValidPrecisions(p) then Err(InvalidPrecision)
      else
        Ok(MarketConf(m.name, m.base, m.quote, m.feePrec, m.minAmount,
                      Pow10(p.base - p.amount), Pow10(p.quote - p.amount - p.price),
                      Pow10(SCALE - p.amount), Pow10(SCALE - p.price), Pow10(SCALE - p.quote),
                      m.disableSelfTrade, m.disableMarketOrder))
  }

  lemma {:induction false} Pow10Sum(m: nat, n: nat)
    ensures Pow10(m + n) == Pow10(m) * Pow10(n)
  {
    if m > 0 {
      Pow10Sum(m - 1, n);
      assert Pow10(m) * Pow10(n) == 10 * (Pow10(m - 1) * Pow10(n));
    }
  }

  /** One, in multiples of the finest step. */
  lemma OneInSteps()
    ensures Pow10(SCALE) == FEE_ONE
  {
    assert Pow10(7) == 10_000_000;
    Pow10Sum(7, 7);
    Pow10Sum(14, 14);
  }

  lemma MultipleOfStep(x: int, step: Pos)
    ensures x % step == 0 <==> x == x / step * step
    ensures x % step == 0 ==> RoundHalfEven(x, step) == x / step
  {
  }

  lemma MultipleAtLeast(d: int, step: Pos)
    ensures d >= 1 ==> d * step >= step
    ensures d <= -1 ==> d * step + step <= 0
  {
  }

  lemma MultipleDivides(k: int, step: Pos)
    ensures (k * step) % step == 0 && k * step / step == k
  {
    var q, r := k * step / step, k * step % step;
    assert (k - q) * step == r;
    MultipleAtLeast(k - q, step);
  }

  lemma ProductOfThree(x: int, y: int, z: int)
    ensures x * (y * z) == x * y * z
  {
  }

  lemma RegroupProduct(x: int, s: int, y: int, t: int, u: int, v: int)
    requires s * t == u * v
    ensures (x * s) * (y * t) == x * u * y * v
  {
    calc {
      (x * s) * (y * t);
      (x * y) * (s * t);
      (x * y) * (u * v);
      x * u * y * v;
    }
  }

  lemma ExactMultiple(x: int, step: Pos, ratio: Pos, unit: Pos)
    requires step == ratio * unit
    ensures x * step == x * ratio * unit
    ensures (x * step) % unit == 0 && RoundHalfEven(x * step, unit) == x * ratio
  {
    ProductOfThree(x, ratio, unit);
    MultipleDivides(x * ratio, unit);
    MultipleOfStep(x * ratio * unit, unit);
  }

  lemma ExactProduct(x: int, s: Pos, y: int, t: Pos, ratio: Pos, unit: Pos)
    requires s * t == ratio * unit
    ensures (x * s) * (y * t) == x * ratio * y * unit
    ensures ((x * s) * (y * t)) % unit == 0 && RoundHalfEven((x * s) * (y * t), unit) == x * ratio * y
  {
    RegroupProduct(x, s, y, t, ratio, unit);
    MultipleDivides(x * ratio * y, unit);
    MultipleOfStep(x * ratio * y * unit, unit);
  }

  lemma StepRatios(p: Precisions)
    requires ValidPrecisions(p) && WithinScale(p)
    ensures Pow10(SCALE - p.amount) == Pow10(p.base - p.amount) * Pow10(SCALE - p.base)
    ensures Pow10(SCALE - p.price) * Pow10(SCALE - p.amount)
         == Pow10(p.quote - p.amount - p.price) * Pow10(2 * SCALE - p.quote)
  {
    Pow10Sum(p.base - p.amount, SCALE - p.base);
    Pow10Sum(SCALE - p.price, SCALE - p.amount);
    Pow10Sum(p.quote - p.amount - p.price, 2 * SCALE - p.quote);
  }

  /** With valid precisions, an amount and a trade's quote (here in units of 10^-56) are whole numbers
      of ledger units, so rounding them to the ledger's precision changes nothing. */
  lemma SettledAmountsAreExact(m: MarketSettings, prec: map<Asset, nat>, amount: Fixed, price: Fixed)
    requires forall a | a in prec :: prec[a] <= SCALE
    requires NewMarket(m, prec).Ok?
    requires var c := NewMarket(m, prec).value; amount % c.amountStep == 0 && price % c.priceStep == 0
    ensures var c := NewMarket(m, prec).value;
            var lots, perLot := amount / c.amountStep, price / c.priceStep * c.tick;
            && amount == lots * c.lot * Pow10(SCALE - prec[m.base])
            && price * amount == perLot * lots * Pow10(2 * SCALE - prec[m.quote])
            && RoundHalfEven(amount, Pow10(SCALE - prec[m.base])) == lots * c.lot
            && RoundHalfEven(price * amount, Pow10(2 * SCALE - prec[m.quote])) == perLot * lots
  {
    var c := NewMarket(m, prec).value;
    StepRatios(Precisions(m.amountPrec, m.pricePrec, prec[m.base], prec[m.quote]));
    MultipleOfStep(amount, c.amountStep);
    MultipleOfStep(price, c.priceStep);
    ExactMultiple(amount / c.amountStep, c.amountStep, c.lot, Pow10(SCALE - prec[m.base]));
    ExactProduct(price / c.priceStep, c.priceStep, amount / c.amountStep, c.amountStep,
                 c.tick, Pow10(2 * SCALE - prec[m.quote]));
  }

  /** This many lots are exact in the base ledger, and their quote at this many price steps is exact
      in the quote ledger. */
  predicate ExactTrade(p: Precisions, lots: int, ticks: int)
    requires WithinScale(p) && p.amount <= SCALE && p.price <= SCALE
  {
    && (lots * Pow10(SCALE - p.amount)) % Pow10(SCALE - p.base) == 0
    && ((ticks * Pow10(SCALE - p.price)) * (lots * Pow10(SCALE - p.amount))) % Pow10(2 * SCALE - p.quote) == 0
  }

  lemma {:induction false} Pow10Grows(m: nat, n: nat)
    requires m < n
    ensures 10 * Pow10(m) <= Pow10(n)
    decreases n
  {
    if m < n - 1 {
      Pow10Grows(m, n - 1);
    }
  }

  lemma SmallerPowerIsNoMultiple(m: nat, n: nat)
    requires m < n
    ensures Pow10(m) % Pow10(n) != 0
  {
    Pow10Grows(m, n);
    SmallModulus(Pow10(m), Pow10(n));
  }

  lemma SmallModulus(x: Pos, y: Pos)
    requires x < y
    ensures x % y == x
  {
  }

  lemma PowerOfDifference(m: nat, n: nat)
    requires n <= m
    ensures Pow10(m - n) * Pow10(n) == Pow10(m)
  {
    Pow10Sum(m - n, n);
  }

  /** When a market is set up, and what its units are worth: an amount step is the last digit of the
      amount precision, a lot is that many units of the base ledger, and so on. */
  lemma MarketUnits(m: MarketSettings, prec: map<Asset, nat>)
    requires forall a | a in prec :: prec[a] <= SCALE
    ensures NewMarket(m, prec).Ok?
       <==> m.base in prec && m.quote in prec && m.amountPrec <= prec[m.base] && m.amountPrec + m.pricePrec <= prec[m.quote]
    ensures NewMarket(m, prec).Ok? ==>
              var c := NewMarket(m, prec).value;
              && c.name == m.name && c.base == m.base && c.quote == m.quote
              && c.feePrec == m.feePrec && c.minAmount == m.minAmount
              && c.disableSelfTrade == m.disableSelfTrade && c.disableMarketOrder == m.disableMarketOrder
              && c.amountStep * Pow10(m.amountPrec) == FEE_ONE
              && c.priceStep * Pow10(m.pricePrec) == FEE_ONE
              && c.quoteStep * Pow10(prec[m.quote]) == FEE_ONE
              && c.lot * Pow10(m.amountPrec) == Pow10(prec[m.base])
              && c.tick * Pow10(m.amountPrec + m.pricePrec) == Pow10(prec[m.quote])
  {
    OneInSteps();
    if NewMarket(m, prec).Ok? {
      PowerOfDifference(SCALE, m.amountPrec);
      PowerOfDifference(SCALE, m.pricePrec);
      PowerOfDifference(SCALE, prec[m.quote]);
      PowerOfDifference(prec[m.base], m.amountPrec);
      PowerOfDifference(prec[m.quote], m.amountPrec + m.pricePrec);
      assert prec[m.quote] - (m.amountPrec + m.pricePrec) == prec[m.quote] - m.amountPrec - m.pricePrec;
    }
  }

  /** `Market::new` accepts precisely the precisions under which nothing is ever rounded. */
  lemma CheckedPrecisionsAreExact(p: Precisions)
    requires WithinScale(p) && p.amount <= SCALE && p.price <= SCALE
    ensures ValidPrecisions(p) <==> forall lots, ticks :: ExactTrade(p, lots, ticks)
  {
    if ValidPrecisions(p) {
      StepRatios(p);
      forall lots, ticks
        ensures ExactTrade(p, lots, ticks)
      {
        ExactMultiple(lots, Pow10(SCALE - p.amount), Pow10(p.base - p.amount), Pow10(SCALE - p.base));
        ExactProduct(ticks, Pow10(SCALE - p.price), lots, Pow10(SCALE - p.amount),
                     Pow10(p.quote - p.amount - p.price), Pow10(2 * SCALE - p.quote));
      }
    } else {
      if p.amount > p.base {
        SmallerPowerIsNoMultiple(SCALE - p.amount, SCALE - p.base);
      } else {
        Pow10Sum(SCALE - p.price, SCALE - p.amount);
        SmallerPowerIsNoMultiple(2 * SCALE - p.price - p.amount, 2 * SCALE - p.quote);
      }
      assert !ExactTrade(p, 1, 1);
    }
  }

  /** `q` is the number of steps nearest to `x`, the even one if two are equally near. */
  predicate Nearest(x: int, step: Pos, q: int)
  {
    && 2 * (q * step - x) <= step && 2 * (x - q * step) <= step
    && (2 * (q * step - x) == step || 2 * (x - q * step) == step ==> q % 2 == 0)
  }

  lemma NearestIsUnique(x: int, step: Pos, p: int, q: int)
    requires Nearest(x, step, p) && Nearest(x, step, q)
    ensures p == q
  {
    assert (p - q) * step == p * step - q * step;
    MultipleAtLeast(p - q, step);
    MultipleAtLeast(p - q - 1, step);
    MultipleAtLeast(p - q + 1, step);
    assert (p - q - 1) * step == (p - q) * step - step && (p - q + 1) * step == (p - q) * step + step;
  }

  /** Rounding is to the nearest step, ties to even, and never crosses zero. */
  lemma RoundingIsNearest(x: int, step: Pos, q: int)
    ensures q == RoundHalfEven(x, step) <==> Nearest(x, step, q)
    ensures 0 <= x ==> 0 <= RoundHalfEven(x, step)
    ensures x <= 0 ==> RoundHalfEven(x, step) <= 0
  {
    var p, r := x / step, x % step;
    assert x == p * step + r;
    assert (p + 1) * step == p * step + step;
    if x <= 0 {
      MultipleAtLeast(p, step);
    }
    assert Nearest(x, step, RoundHalfEven(x, step));
    if Nearest(x, step, q) {
      NearestIsUnique(x, step, q, RoundHalfEven(x, step));
    }
  }
}
