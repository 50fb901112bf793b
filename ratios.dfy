/**
 * The five derived columns (클릭률, 전환률, CPC, ROAS, 전환당비용) before rounding and
 * formatting, computed with plain division and no zero guard (app.py:18-22, app.py:50-54).
 */
module Ratios {
  import opened Wrappers
  import opened Frame

  /**
   * A float64 quotient of two non-negative integer columns: a finite value, `inf` for a
   * positive numerator over zero, or `nan` for zero over zero.
   */
  datatype Ratio = Finite(value: real) | Infinite | NotANumber

  /** Reference meaning: `r` is `n / d` times `scale`, with the IEEE value when `d` is zero. */
  predicate IsScaledQuotient(r: Ratio, n: nat, d: nat, scale: real) {
    if d > 0 then r.Finite? && r.value * (d as real) == (n as real) * scale
    else if n > 0 then r == Infinite
    else r == NotANumber
  }

  /** Series division `n / d` of two integer columns. */
  function Quotient(n: nat, d: nat): Ratio {
    if d > 0 then Finite(n as real / d as real)
    else if n > 0 then Infinite
    else NotANumber
  }

  lemma QuotientMeaning(n: nat, d: nat)
    ensures IsScaledQuotient(Quotient(n, d), n, d, 1.0)
  {
    if d > 0 {
      assert (n as real / d as real) * (d as real) == n as real;
    }
  }

  /** `... * 100`; `inf` and `nan` stay what they are. */
  function Percent(q: Ratio): Ratio {
    match q
    case Finite(v) => Finite(v * 100.0)
    case Infinite => Infinite
    case NotANumber => NotANumber
  }

  lemma PercentOfQuotient(n: nat, d: nat)
    ensures IsScaledQuotient(Percent(Quotient(n, d)), n, d, 100.0)
  {
    QuotientMeaning(n, d);
    if d > 0 {
      var v := n as real / d as real;
      assert v * (d as real) == n as real;
      assert (v * 100.0) * (d as real) == (v * (d as real)) * 100.0;
    }
  }

  /** A quotient is determined by its meaning: there is only one way to be `n / d`. */
  lemma ScaledQuotientUnique(r1: Ratio, r2: Ratio, n: nat, d: nat, scale: real)
    requires IsScaledQuotient(r1, n, d, scale) && IsScaledQuotient(r2, n, d, scale)
    ensures r1 == r2
  {
    if d > 0 {
      assert r1.value * (d as real) == r2.value * (d as real);
      assert r1.value == r1.value * (d as real) / (d as real);
    }
  }

  datatype Ratios = Ratios(clickRate: Ratio, conversionRate: Ratio, costPerClick: Ratio, roas: Ratio,
                           costPerConversion: Ratio)

  /**
   * The derived columns of one row, from that row's own summed counters: clicks / impressions x 100,
   * orders / clicks x 100, spend / clicks, revenue / spend x 100 and spend / orders.
   */
  function RatiosOf(c: Counters): Ratios {
    Ratios(Percent(Quotient(c.clicks, c.impressions)), Percent(Quotient(c.orders, c.clicks)),
           Quotient(c.spend, c.clicks), Percent(Quotient(c.revenue, c.spend)), Quotient(c.spend, c.orders))
  }

  /** Each derived column is its numerator over its denominator, scaled, with no zero guard. */
  lemma RatiosOfMeaning(c: Counters)
    ensures var r := RatiosOf(c);
      IsScaledQuotient(r.clickRate, c.clicks, c.impressions, 100.0) &&
      IsScaledQuotient(r.conversionRate, c.orders, c.clicks, 100.0) &&
      IsScaledQuotient(r.costPerClick, c.spend, c.clicks, 1.0) &&
      IsScaledQuotient(r.roas, c.revenue, c.spend, 100.0) &&
      IsScaledQuotient(r.costPerConversion, c.spend, c.orders, 1.0)
  {
    PercentOfQuotient(c.clicks, c.impressions);
    PercentOfQuotient(c.orders, c.clicks);
    QuotientMeaning(c.spend, c.clicks);
    PercentOfQuotient(c.revenue, c.spend);
    QuotientMeaning(c.spend, c.orders);
  }

  /** A zero count makes every ratio over it `inf` or `nan`; none becomes 0. */
  lemma NoZeroGuard(c: Counters)
    requires c.clicks == 0
    ensures !RatiosOf(c).conversionRate.Finite? && !RatiosOf(c).costPerClick.Finite?
    ensures RatiosOf(c).costPerClick == (if c.spend > 0 then Infinite else NotANumber)
  {
  }

  datatype PyError = ZeroDivisionError

  /** Python's `/` on two `int` objects, which raises instead of returning `inf` or `nan`. */
  function PyDivide(n: nat, d: nat): (r: Result<real, PyError>)
    ensures r.Err? <==> d == 0
    ensures r.Ok? ==> r.value * (d as real) == n as real
  {
    if d == 0 then Err(ZeroDivisionError) else Ok(n as real / d as real)
  }
}
