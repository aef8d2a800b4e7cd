/** Decimal division at sixteen digits and the trading-fee policy built on it.
    Addition, subtraction and multiplication of decimals are exact and are real
    arithmetic here; the two divisions are written out. */
module Fees {

  /** Ten to the sixteenth: both divisions keep sixteen fractional digits. */
  const SCALE: real := 10000000000000000.0

  const FEE_RATE: real := 0.0005

  predicate OnGrid(x: real) {
    (x * SCALE).Floor as real == x * SCALE
  }

  /** A non-negative number cut down to sixteen digits. */
  function Truncate(t: real): (q: real)
    requires t >= 0.0
    ensures 0.0 <= q <= t < q + 1.0 / SCALE
  {
    (t * SCALE).Floor as real / SCALE
  }

  lemma Scaled(t: real, lo: real, hi: real, x: real, y: real)
    requires lo <= t < hi && y > 0.0 && t * y == x
    ensures lo * y <= x < hi * y
  {
    assert (t - lo) * y >= 0.0;
    assert (hi - t) * y > 0.0;
  }

  /** Quotient cut down to sixteen digits: never more than the divisor allows, and
      short of it by less than one unit of the last digit. */
  function QuoFloor(x: real, y: real): (q: real)
    requires x >= 0.0 && y > 0.0
    ensures q >= 0.0
    ensures q * y <= x < (q + 1.0 / SCALE) * y
  {
    var t := x / y;
    var q := Truncate(t);
    Scaled(t, q, q + 1.0 / SCALE, x, y);
    q
  }

  /** Quotient rounded to sixteen digits, halves away from zero. */
  function DivRound(x: real, y: real): real
    requires y > 0.0
  {
    if x >= 0.0 then (x / y * SCALE + 0.5).Floor as real / SCALE
    else -((-x / y * SCALE + 0.5).Floor as real / SCALE)
  }

  const HALF_UNIT: real := 0.5 / SCALE

  /** The rounded quotient is off by half a unit of the last digit at most. */
  lemma DivRoundIsNearest(x: real, y: real)
    requires y > 0.0
    ensures -HALF_UNIT * y <= DivRound(x, y) * y - x <= HALF_UNIT * y
  {
    hide DivRound;
    var t := x / y;
    assert t * y == x;
    RoundsToHalf(x, y);
    NearBy(DivRound(x, y), t, HALF_UNIT, x, y);
  }

  lemma RoundsToHalf(x: real, y: real)
    requires y > 0.0
    ensures -HALF_UNIT <= DivRound(x, y) - x / y <= HALF_UNIT
  {
    if x >= 0.0 {
      HalfUnit(x / y);
    } else {
      HalfUnit(-x / y);
      assert -x / y == -(x / y);
    }
  }

  lemma HalfUnit(t: real)
    ensures -HALF_UNIT <= (t * SCALE + 0.5).Floor as real / SCALE - t <= HALF_UNIT
  {
  }

  lemma NearBy(q: real, t: real, h: real, x: real, y: real)
    requires -h <= q - t <= h && y > 0.0 && t * y == x
    ensures -h * y <= q * y - x <= h * y
  {
    assert (q - t + h) * y >= 0.0 && (h - (q - t)) * y >= 0.0;
  }

  function TradingFee(amount: real): real {
    amount * FEE_RATE
  }

  function WithFee(amount: real): real {
    amount + TradingFee(amount)
  }

  /** The part of a market buyer's budget that matching may spend before fees. */
  function ExecutableQuote(budget: real): real {
    if budget <= 0.0 then 0.0 else DivRound(budget, 1.0 + FEE_RATE)
  }

  /** Rounding puts the executable quote with its fee within half a unit of the last
      digit, fee included, of the budget: this bounds any overspend. */
  lemma ExecutableQuoteNearBudget(budget: real)
    requires budget > 0.0
    ensures ExecutableQuote(budget) >= 0.0
    ensures -(1.0 + FEE_RATE) * 0.5 / SCALE < WithFee(ExecutableQuote(budget)) - budget
                                         <= (1.0 + FEE_RATE) * 0.5 / SCALE
  {
    var t := budget / (1.0 + FEE_RATE);
    assert t * (1.0 + FEE_RATE) == budget;
  }

  /** On budgets a decimal of sixteen digits can hold, the executable quote is below
      the budget exactly when the budget exceeds half a unit times (1+r)/r. */
  lemma ExecutableQuoteBelowBudget(budget: real)
    requires budget > 0.0 && OnGrid(budget)
    ensures ExecutableQuote(budget) < budget
       <==> budget > 0.5 / SCALE * (1.0 + FEE_RATE) / FEE_RATE
  {
    var n := (budget * SCALE).Floor;
    var t := budget / (1.0 + FEE_RATE) * SCALE;
    assert budget * SCALE == n as real;
    assert t * (1.0 + FEE_RATE) == n as real;
    assert ExecutableQuote(budget) * SCALE == (t + 0.5).Floor as real;
    if t + 0.5 < n as real {
      assert (t + 0.5).Floor < n;
    } else {
      assert (t + 0.5).Floor >= n;
    }
    assert t + 0.5 < n as real <==> n as real * FEE_RATE > 0.5 * (1.0 + FEE_RATE);
  }

  /** The executable quote in units of the last digit: 2000/2001 of the budget, rounded. */
  lemma ExecutableUnits(budget: real, n: int)
    requires n > 0 && budget * SCALE == n as real
    ensures ExecutableQuote(budget) * SCALE ==
      (2000 * (n / 2001) + n % 2001 - (if n % 2001 <= 1000 then 0 else 1)) as real
  {
    var q, k := n / 2001, n % 2001;
    var t := budget / (1.0 + FEE_RATE) * SCALE;
    var m := 2000 * q + k - (if k <= 1000 then 0 else 1);
    assert t * (1.0 + FEE_RATE) == n as real;
    assert n == 2001 * q + k;
    assert t * 2001.0 == 2000.0 * (2001.0 * q as real + k as real);
    assert t == 2000.0 * q as real + k as real - k as real / 2001.0;
    assert m as real <= t + 0.5 < (m + 1) as real;
    assert (t + 0.5).Floor == m;
  }

  /** On a budget of n units of the last digit, spending the whole executable quote with
      its fee stays within the budget exactly when n is a multiple of 2001 or more than
      half way to the next one: otherwise the division by 2001/2000 rounded up. */
  lemma FullSpendFitsBudget(budget: real, n: int)
    requires n > 0 && budget * SCALE == n as real
    ensures WithFee(ExecutableQuote(budget)) <= budget <==> n % 2001 == 0 || n % 2001 >= 1001
  {
    var q, k := n / 2001, n % 2001;
    var m := 2000 * q + k - (if k <= 1000 then 0 else 1);
    ExecutableUnits(budget, n);
    assert n == 2001 * q + k;
    assert WithFee(ExecutableQuote(budget)) * SCALE * 2000.0 == m as real * 2001.0;
    assert m * 2001 <= n * 2000 <==> k == 0 || k >= 1001;
  }

  /** A budget of 10000 rounds up, and its full spend with fees exceeds it. */
  lemma FullSpendCanExceedBudget()
    ensures OnGrid(10000.0) && WithFee(ExecutableQuote(10000.0)) > 10000.0
  {
    var t := 10000.0 / (1.0 + FEE_RATE) * SCALE;
    assert t * (1.0 + FEE_RATE) == 10000.0 * SCALE;
    assert (10000.0 * SCALE).Floor as real == 10000.0 * SCALE;
    assert (t + 0.5).Floor == 99950024987506246877;
  }
}
