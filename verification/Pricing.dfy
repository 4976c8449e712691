/**
 * Pricing one call (internal/pricing/pricing.go): exact sums of tokens times rates,
 * rounded once to a whole micro-dollar. A rate is an exact real; None stands for an
 * unset, NaN or infinite one.
 */
module Pricing {
  import opened Options

  datatype Usage = Usage(input: int, output: int, cacheRead: int, cacheCreation: int)

  datatype Rates = Rates(input: Option<real>, output: Option<real>, cacheRead: Option<real>, cacheWrite: Option<real>)

  datatype Source = Configured | Unpriced | UnknownModel | Approximate

  datatype Cost = Cost(amount: Option<int>, source: Source)

  const PEAK_MULTIPLIER := 2.0

  // ------------------------------------------------------------------- rounding

  function Abs(x: real): real { if x < 0.0 then -x else x }

  /** Go's quotient, truncated toward zero. */
  function Quo(num: int, den: int): int
    requires den > 0
  {
    if num >= 0 then num / den else -(-num / den)
  }

  /**
   * roundHalfUp on numerator and denominator: quotient and remainder, then one away from zero if
   * twice the remainder reaches the denominator.
   */
  function RoundHalfUp(num: int, den: int): int
    requires den > 0
  {
    var q := Quo(num, den);
    var rem := num - q * den;
    if 2 * (if rem < 0 then -rem else rem) >= den then if num < 0 then q - 1 else q + 1 else q
  }

  /** The reference: the nearest whole number, halves away from zero. */
  predicate Nearest(x: real, n: int) {
    && Abs(n as real - x) <= 0.5
    && (Abs(n as real - x) == 0.5 ==> Abs(n as real) > Abs(x))
  }

  lemma NearestIsOne(x: real, m: int, n: int)
    requires Nearest(x, m) && Nearest(x, n)
    ensures m == n
  {
  }

  lemma Scale(f: real, g: real, d: real)
    requires d > 0.0
    ensures f <= g <==> f * d <= g * d
    ensures f == g <==> f * d == g * d
  {
    if f < g {
      assert (g - f) * d > 0.0;
    } else if g < f {
      assert (f - g) * d > 0.0;
    }
  }

  /** Where a quotient lies against a whole number of halves. */
  lemma QuotientAgainst(num: int, den: int, halves: int)
    requires den > 0
    ensures num as real / den as real <= halves as real / 2.0 <==> 2 * num <= halves * den
    ensures num as real / den as real == halves as real / 2.0 <==> 2 * num == halves * den
  {
    var d, f, g := den as real, num as real / den as real, halves as real / 2.0;
    assert f * d == num as real;
    Scale(f, g, d);
    assert 2.0 * (g * d) == (halves * den) as real;
    assert 2.0 * (f * d) == (2 * num) as real;
  }

  /** Rounding gives the nearest whole micro-dollar, halves away from zero. */
  lemma RoundIsNearest(num: int, den: int)
    requires den > 0
    ensures Nearest(num as real / den as real, RoundHalfUp(num, den))
  {
    var n := RoundHalfUp(num, den);
    RoundBounds(num, den);
    QuotientAgainst(num, den, 2 * n - 1);
    QuotientAgainst(num, den, 2 * n + 1);
    QuotientAgainst(num, den, 0);
  }

  lemma Spread(n: int, den: int)
    ensures (2 * n - 1) * den == 2 * (n * den) - den && (2 * n + 1) * den == 2 * (n * den) + den
    ensures (n + 1) * den == n * den + den && (-n) * den == -(n * den)
  {
  }

  /** The same in whole numbers: within half a denominator, and on the far side of zero when exactly there. */
  predicate Bounds(num: int, den: int, n: int) {
    && (2 * n - 1) * den <= 2 * num <= (2 * n + 1) * den
    && ((2 * n - 1) * den == 2 * num ==> n > 0)
    && ((2 * n + 1) * den == 2 * num ==> n < 0)
  }

  lemma RoundUpBounds(num: int, den: int)
    requires den > 0 && num >= 0
    ensures Bounds(num, den, RoundHalfUp(num, den))
  {
    var q := num / den;
    var p := q * den;
    var rem := num - p;
    assert 0 <= rem < den;
    Spread(q, den);
    Spread(q + 1, den);
  }

  lemma NegatedBounds(num: int, den: int, n: int)
    requires Bounds(num, den, n)
    ensures Bounds(-num, den, -n)
  {
    Spread(n, den);
    Spread(-n, den);
  }

  lemma RoundDown(num: int, den: int)
    requires den > 0 && num < 0
    ensures RoundHalfUp(num, den) == -RoundHalfUp(-num, den)
  {
    Spread(-num / den, den);
  }

  lemma RoundBounds(num: int, den: int)
    requires den > 0
    ensures Bounds(num, den, RoundHalfUp(num, den))
  {
    if num >= 0 {
      RoundUpBounds(num, den);
    } else {
      RoundDown(num, den);
      RoundUpBounds(-num, den);
      NegatedBounds(-num, den, RoundHalfUp(-num, den));
    }
  }

  /** A real's nearest whole number, halves away from zero: what rounding any of its fractions gives. */
  function Rounded(x: real): int {
    if x >= 0.0 then (x + 0.5).Floor else -((-x + 0.5).Floor)
  }

  lemma RoundedIsNearest(x: real)
    ensures Nearest(x, Rounded(x))
  {
  }

  lemma RoundIsRounded(num: int, den: int)
    requires den > 0
    ensures RoundHalfUp(num, den) == Rounded(num as real / den as real)
  {
    RoundIsNearest(num, den);
    RoundedIsNearest(num as real / den as real);
    NearestIsOne(num as real / den as real, RoundHalfUp(num, den), Rounded(num as real / den as real));
  }

  lemma RoundedIsMonotone(x: real, y: real)
    requires x <= y
    ensures Rounded(x) <= Rounded(y)
  {
    RoundedIsNearest(x);
    RoundedIsNearest(y);
  }

  // ---------------------------------------------------------------- one call

  /** A category's own rate, or the input rate where it has none. */
  function RateFor(rate: Option<real>, input: real): real { if rate.Some? then rate.value else input }

  function Weigh(u: Usage, input: real, output: real, cacheRead: real, cacheWrite: real): real {
    u.input as real * input + u.output as real * output
    + u.cacheRead as real * cacheRead + u.cacheCreation as real * cacheWrite
  }

  /** The exact off-peak cost before rounding, in micro-dollars. */
  function OffPeak(r: Rates, u: Usage): real
    requires r.input.Some?
  {
    var input := r.input.value;
    Weigh(u, input, RateFor(r.output, input), RateFor(r.cacheRead, input), RateFor(r.cacheWrite, input))
  }

  function Exact(r: Rates, u: Usage, peak: bool): real
    requires r.input.Some?
  {
    if peak then PEAK_MULTIPLIER * OffPeak(r, u) else OffPeak(r, u)
  }

  /** Some tokens have no rate of their own. */
  predicate FallsBack(r: Rates, u: Usage) {
    (u.output != 0 && r.output.None?) || (u.cacheRead != 0 && r.cacheRead.None?)
        || (u.cacheCreation != 0 && r.cacheWrite.None?)
  }

  /** The label and the amount a call gets. */
  predicate Priced(table: map<string, Rates>, model: string, u: Usage, peak: bool, cost: Cost) {
    if model !in table then cost == Cost(None, UnknownModel)
    else if table[model].input.None? then cost == Cost(None, Unpriced)
    else
      && cost.amount == Some(Rounded(Exact(table[model], u, peak)))
      && cost.source == if FallsBack(table[model], u) then Approximate else Configured
  }

  function Peaked(rate: real, peak: bool): real { if peak then rate * PEAK_MULTIPLIER else rate }

  /** What one category adds. */
  function Charge(tokens: int, rate: Option<real>, input: real, peak: bool): real {
    tokens as real * Peaked(RateFor(rate, input), peak)
  }

  /**
   * One category added to the running sum: nothing for no tokens, else at its own rate or the input
   * rate, which comes peaked.
   */
  method Add(total: real, approx: bool, tokens: int, rate: Option<real>, ghost input: real, peakedInput: real,
             peak: bool) returns (sum: real, fell: bool)
    requires peakedInput == Peaked(input, peak)
    ensures sum == total + Charge(tokens, rate, input, peak)
    ensures fell <==> approx || (tokens != 0 && rate.None?)
  {
    sum, fell := total, approx;
    if tokens == 0 {
      return;
    }
    var rr := peakedInput;
    if rate.None? {
      fell := true;
    } else if peak {
      rr := rate.value * PEAK_MULTIPLIER;
    } else {
      rr := rate.value;
    }
    sum := total + rr * tokens as real;
  }

  /** Compute: the peak multiple goes on the rates before the sum, and the sum is rounded once. */
  method Compute(model: string, u: Usage, table: map<string, Rates>, peak: bool) returns (cost: Cost)
    ensures Priced(table, model, u, peak, cost)
    ensures model !in table ==> cost == Cost(None, UnknownModel)
    ensures model in table && table[model].input.None? ==> cost == Cost(None, Unpriced)
  {
    if model !in table {
      return Cost(None, UnknownModel);
    }
    var r := table[model];
    if r.input.None? {
      return Cost(None, Unpriced);
    }
    var input := r.input.value;
    if peak {
      input := input * PEAK_MULTIPLIER;
    }
    var total, approx := Add(0.0, false, u.input, r.input, r.input.value, input, peak);
    total, approx := Add(total, approx, u.output, r.output, r.input.value, input, peak);
    total, approx := Add(total, approx, u.cacheRead, r.cacheRead, r.input.value, input, peak);
    total, approx := Add(total, approx, u.cacheCreation, r.cacheWrite, r.input.value, input, peak);
    SumIsExact(r, u, peak);
    cost := Cost(Some(Rounded(total)), if approx then Approximate else Configured);
  }

  /** The price in plain terms: every category at its own rate or else at the input rate, doubled at peak. */
  lemma PricedPlainly(table: map<string, Rates>, model: string, u: Usage, peak: bool, cost: Cost,
                      input: real, output: real, cacheRead: real, cacheWrite: real)
    requires Priced(table, model, u, peak, cost) && model in table && table[model].input == Some(input)
    requires var r := table[model].output; if r.Some? then r.value == output else output == input
    requires var r := table[model].cacheRead; if r.Some? then r.value == cacheRead else cacheRead == input
    requires var r := table[model].cacheWrite; if r.Some? then r.value == cacheWrite else cacheWrite == input
    ensures var sum := u.input as real * input + u.output as real * output
                       + u.cacheRead as real * cacheRead + u.cacheCreation as real * cacheWrite;
            cost.amount == Some(Rounded(if peak then 2.0 * sum else sum))
    ensures cost.source ==
              if || (u.output != 0 && table[model].output.None?)
                 || (u.cacheRead != 0 && table[model].cacheRead.None?)
                 || (u.cacheCreation != 0 && table[model].cacheWrite.None?) then Approximate else Configured
  {
    ExactPlainly(table[model], u, peak, input, output, cacheRead, cacheWrite);
  }

  /** The exact cost, of the rates and of the input rate where one is missing. */
  lemma ExactPlainly(r: Rates, u: Usage, peak: bool, input: real, output: real, cacheRead: real, cacheWrite: real)
    requires r.input == Some(input)
    requires if r.output.Some? then r.output.value == output else output == input
    requires if r.cacheRead.Some? then r.cacheRead.value == cacheRead else cacheRead == input
    requires if r.cacheWrite.Some? then r.cacheWrite.value == cacheWrite else cacheWrite == input
    ensures var sum := u.input as real * input + u.output as real * output
                       + u.cacheRead as real * cacheRead + u.cacheCreation as real * cacheWrite;
            Exact(r, u, peak) == if peak then 2.0 * sum else sum
  {
  }

  lemma ChargeIs(tokens: int, rate: Option<real>, input: real, peak: bool)
    ensures Charge(tokens, rate, input, peak) == Peaked(tokens as real * RateFor(rate, input), peak)
  {
    var t, v := tokens as real, RateFor(rate, input);
    assert t * (v * 2.0) == (t * v) * 2.0;
  }

  /** Multiplying the rates first is the same as multiplying the sum. */
  lemma SumIsExact(r: Rates, u: Usage, peak: bool)
    requires r.input.Some?
    ensures Charge(u.input, r.input, r.input.value, peak) + Charge(u.output, r.output, r.input.value, peak)
            + Charge(u.cacheRead, r.cacheRead, r.input.value, peak)
            + Charge(u.cacheCreation, r.cacheWrite, r.input.value, peak)
            == Exact(r, u, peak)
  {
    ChargeIs(u.input, r.input, r.input.value, peak);
    ChargeIs(u.output, r.output, r.input.value, peak);
    ChargeIs(u.cacheRead, r.cacheRead, r.input.value, peak);
    ChargeIs(u.cacheCreation, r.cacheWrite, r.input.value, peak);
  }

  // ----------------------------------------------------------------- bounds

  /**
   * A peak amount is within a micro-dollar of twice the off-peak one, and is exactly twice only
   * when the fraction rounded away was small.
   */
  lemma PeakIsAlmostDouble(r: Rates, u: Usage)
    requires r.input.Some?
    ensures Exact(r, u, true) == 2.0 * Exact(r, u, false)
    ensures var x := Abs(Exact(r, u, false));
            var off, peak := Rounded(Exact(r, u, false)), Rounded(Exact(r, u, true));
            && -1 <= peak - 2 * off <= 1
            && (peak == 2 * off <==> x - x.Floor as real < 0.25 || x - x.Floor as real >= 0.75)
  {
    RoundedDouble(Exact(r, u, false));
  }

  lemma RoundedDouble(x: real)
    ensures var a := Abs(x);
            && -1 <= Rounded(2.0 * x) - 2 * Rounded(x) <= 1
            && (Rounded(2.0 * x) == 2 * Rounded(x) <==> a - a.Floor as real < 0.25 || a - a.Floor as real >= 0.75)
  {
    var a := Abs(x);
    var f := a - a.Floor as real;
    assert (a + 0.5).Floor == if f < 0.5 then a.Floor else a.Floor + 1;
    assert (2.0 * a + 0.5).Floor == if f < 0.25 then 2 * a.Floor else if f < 0.75 then 2 * a.Floor + 1
        else 2 * a.Floor + 2;
    assert x < 0.0 ==> Rounded(x) == -((a + 0.5).Floor) && Rounded(2.0 * x) == -((2.0 * a + 0.5).Floor);
  }

  /** Doubling can fail: a token at 0.3 micro-dollars costs 0 off-peak and 1 at peak. */
  lemma PeakIsNotDouble()
    ensures var r, u := Rates(Some(0.3), None, None, None), Usage(1, 0, 0, 0);
            Rounded(Exact(r, u, false)) == 0 && Rounded(Exact(r, u, true)) == 1
  {
  }

  predicate NoNegativeRates(r: Rates) {
    && (r.input.Some? ==> r.input.value >= 0.0) && (r.output.Some? ==> r.output.value >= 0.0)
    && (r.cacheRead.Some? ==> r.cacheRead.value >= 0.0) && (r.cacheWrite.Some? ==> r.cacheWrite.value >= 0.0)
  }

  lemma TimesGrows(a: int, b: int, rate: real)
    requires a <= b && rate >= 0.0
    ensures a as real * rate <= b as real * rate
  {
  }

  lemma WeighGrows(u: Usage, v: Usage, i: real, o: real, c: real, w: real)
    requires i >= 0.0 && o >= 0.0 && c >= 0.0 && w >= 0.0
    requires u.input <= v.input && u.output <= v.output && u.cacheRead <= v.cacheRead
             && u.cacheCreation <= v.cacheCreation
    ensures Weigh(u, i, o, c, w) <= Weigh(v, i, o, c, w)
  {
    TimesGrows(u.input, v.input, i);
    TimesGrows(u.output, v.output, o);
    TimesGrows(u.cacheRead, v.cacheRead, c);
    TimesGrows(u.cacheCreation, v.cacheCreation, w);
  }

  /** With rates that are not negative, a call with no fewer tokens in any category costs no less. */
  lemma MoreTokensCostNoLess(r: Rates, u: Usage, v: Usage, peak: bool)
    requires r.input.Some? && NoNegativeRates(r)
    requires u.input <= v.input && u.output <= v.output && u.cacheRead <= v.cacheRead
             && u.cacheCreation <= v.cacheCreation
    ensures Rounded(Exact(r, u, peak)) <= Rounded(Exact(r, v, peak))
  {
    var input := r.input.value;
    WeighGrows(u, v, input, RateFor(r.output, input), RateFor(r.cacheRead, input), RateFor(r.cacheWrite, input));
    RoundedIsMonotone(Exact(r, u, peak), Exact(r, v, peak));
  }

  /** A priced call. */
  datatype Bill = Bill(rates: Rates, usage: Usage, peak: bool)

  predicate AllPriced(bills: seq<Bill>) { forall b :: b in bills ==> b.rates.input.Some? }

  function ExactTotal(bills: seq<Bill>): real
    requires AllPriced(bills)
  {
    if bills == [] then 0.0
    else
      assert bills[0] in bills;
      Exact(bills[0].rates, bills[0].usage, bills[0].peak) + ExactTotal(bills[1..])
  }

  /** The stored amounts, summed as whole numbers. */
  function Total(bills: seq<Bill>): int
    requires AllPriced(bills)
  {
    if bills == [] then 0
    else
      assert bills[0] in bills;
      Rounded(Exact(bills[0].rates, bills[0].usage, bills[0].peak)) + Total(bills[1..])
  }

  /** Over any list of calls the total drifts from the exact one by at most half a micro-dollar a call. */
  lemma {:induction false} DriftIsHalfACall(bills: seq<Bill>)
    requires AllPriced(bills)
    ensures 2.0 * Abs(Total(bills) as real - ExactTotal(bills)) <= |bills| as real
  {
    if bills != [] {
      assert bills[0] in bills;
      DriftIsHalfACall(bills[1..]);
      RoundedIsNearest(Exact(bills[0].rates, bills[0].usage, bills[0].peak));
    }
  }
}
