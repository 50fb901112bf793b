/**
 * The rows of a result table: one per group with its sums and derived columns, and the
 * synthetic `전체` (total) row of the placement table (app.py:25-33).
 */
module Summary {
  import opened Wrappers
  import opened Frame
  import opened Grouping
  import opened Ratios

  /** One output row: its index name (a key, or `전체`), the summed counters and the derived columns. */
  datatype MetricsRow = MetricsRow(name: string, sums: Counters, ratios: Ratios)

  /**
   * `pd.DataFrame()` when no row is left in the range (after `st.warning`), otherwise the table,
   * or the exception the function raises instead of returning.
   */
  datatype Outcome = NoData | Table(rows: seq<MetricsRow>) | Raised(error: PyError)

  const TotalLabel: string := "전체"

  /** The group rows with their derived columns added (app.py:18-22, app.py:50-54). */
  function WithRatios(gs: seq<Group>): (rows: seq<MetricsRow>)
    ensures |rows| == |gs|
    ensures forall i :: 0 <= i < |rows| ==>
      rows[i].name == gs[i].key && rows[i].sums == gs[i].sums && rows[i].ratios == RatiosOf(gs[i].sums)
  {
    seq(|gs|, i requires 0 <= i < |gs| => MetricsRow(gs[i].key, gs[i].sums, RatiosOf(gs[i].sums)))
  }

  /**
   * The total row as intended: labelled `전체`, holding the column sums of the group rows, its
   * derived columns recomputed from those sums with the same inf/nan rule as the group rows.
   */
  function TotalRow(gs: seq<Group>): MetricsRow {
    var t := SumGroups(gs);
    MetricsRow(TotalLabel, t, RatiosOf(t))
  }

  /**
   * The total row as app.py:26-31 builds it. Line 27 divides two numpy int64 scalars (inf or nan
   * on a zero denominator); its assignment of a text value enlarges the row to object dtype,
   * so lines 28-31 divide Python ints and raise on a zero denominator.
   */
  function TotalRowAsWritten(gs: seq<Group>): Result<MetricsRow, PyError> {
    var t := SumGroups(gs);
    var clickRate := Percent(Quotient(t.clicks, t.impressions));
    var conversion :- PyDivide(t.orders, t.clicks);
    // line 29 divides by the same clicks, so it cannot raise once line 28 has not
    var perClick := PyDivide(t.spend, t.clicks).value;
    var roas :- PyDivide(t.revenue, t.spend);
    var perOrder :- PyDivide(t.spend, t.orders);
    Ok(MetricsRow(TotalLabel, t, Ratios(clickRate, Finite(conversion * 100.0), Finite(perClick),
                                        Finite(roas * 100.0), Finite(perOrder))))
  }

  /**
   * app.py:26-33 as the code runs it: the totals, then one field after another, stopping at
   * the first Python division by zero.
   */
  method BuildTotalRow(gs: seq<Group>) returns (r: Result<MetricsRow, PyError>)
    ensures r == TotalRowAsWritten(gs)
    ensures r.Err? <==> TotalRaises(SumGroups(gs))
    ensures r.Ok? ==> r.value == TotalRow(gs)
  {
    TotalRowAsWrittenRaisesIff(gs);
    var t := SumGroups(gs);
    var clickRate := Percent(Quotient(t.clicks, t.impressions));
    if t.clicks == 0 {
      return Err(ZeroDivisionError);
    }
    var conversionRate := Finite(t.orders as real / t.clicks as real * 100.0);
    var costPerClick := Finite(t.spend as real / t.clicks as real);
    if t.spend == 0 {
      return Err(ZeroDivisionError);
    }
    var roas := Finite(t.revenue as real / t.spend as real * 100.0);
    if t.orders == 0 {
      return Err(ZeroDivisionError);
    }
    var costPerConversion := Finite(t.spend as real / t.orders as real);
    r := Ok(MetricsRow(TotalLabel, t, Ratios(clickRate, conversionRate, costPerClick, roas, costPerConversion)));
  }

  /** A zero summed clicks, spend or orders: a denominator of app.py:28-31 is zero. */
  predicate TotalRaises(t: Counters) {
    t.clicks == 0 || t.spend == 0 || t.orders == 0
  }

  /**
   * The total row as written raises exactly when the summed clicks, spend or orders are zero,
   * and otherwise agrees with the intended total row.
   */
  lemma TotalRowAsWrittenRaisesIff(gs: seq<Group>)
    ensures TotalRowAsWritten(gs).Err? <==> TotalRaises(SumGroups(gs))
    ensures TotalRowAsWritten(gs).Ok? ==> TotalRowAsWritten(gs).value == TotalRow(gs)
  {
    var t := SumGroups(gs);
    if t.clicks > 0 && t.spend > 0 && t.orders > 0 {
      var r := RatiosOf(t);
      RatiosOfMeaning(t);
      ScaledQuotientUnique(r.conversionRate, Finite(PyDivide(t.orders, t.clicks).value * 100.0), t.orders, t.clicks, 100.0);
      ScaledQuotientUnique(r.costPerClick, Finite(PyDivide(t.spend, t.clicks).value), t.spend, t.clicks, 1.0);
      ScaledQuotientUnique(r.roas, Finite(PyDivide(t.revenue, t.spend).value * 100.0), t.revenue, t.spend, 100.0);
      ScaledQuotientUnique(r.costPerConversion, Finite(PyDivide(t.spend, t.orders).value), t.spend, t.orders, 1.0);
    }
  }

  /** A range in which nothing was ordered: the intended total row shows `inf`, the code raises. */
  lemma NoOrdersCrashesTotalRow()
    ensures var gs := [Group("A", Counters(100, 10, 0, 0, 1000))];
      TotalRowAsWritten(gs) == Err(ZeroDivisionError) &&
      TotalRow(gs).ratios.costPerConversion == Infinite
  {
    var gs := [Group("A", Counters(100, 10, 0, 0, 1000))];
    assert SumGroups(gs) == Counters(100, 10, 0, 0, 1000) by {
      assert gs[1..] == [];
    }
    TotalRowAsWrittenRaisesIff(gs);
  }
}
