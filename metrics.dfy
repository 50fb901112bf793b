/**
 * `calculate_metrics_by_date` (grouped by 광고 노출 지면, placement) and
 * `calculate_metrics_by_keyword` (grouped by 키워드, keyword): range filter, group sums,
 * derived columns, then the total row or the sort by impressions (app.py:9-57).
 */
module Metrics {
  import opened Wrappers
  import opened Dates
  import opened Frame
  import opened Grouping
  import opened Ratios
  import opened Summary
  import opened Ordering

  /**
   * Whether a row of the converted table reaches `groupby`: its date is a timestamp (the
   * `dropna` on 날짜) lying in [start, end], both ends included; in keyword mode its keyword is
   * present too (the `dropna` on 키워드, app.py:41). Placement mode drops no row for a missing
   * placement here: only `groupby` leaves such rows out.
   */
  predicate Kept(r: Record, column: GroupBy, start: Date, end: Date) {
    r.date.Stamp? && DateLe(start, r.date.date) && DateLe(r.date.date, end) &&
    (column == ByKeyword ==> r.keyword.Some?)
  }

  /** `filtered_df` (app.py:11-12, app.py:41-42): the kept rows, in table order. */
  function Window(table: seq<Record>, column: GroupBy, start: Date, end: Date): seq<Record> {
    if table == [] then []
    else (if Kept(table[0], column, start, end) then [table[0]] else []) + Window(table[1..], column, start, end)
  }

  /** The filter is inclusive at both ends: a row dated on the first or the last day is kept. */
  lemma BoundaryDaysKept(table: seq<Record>, column: GroupBy, start: Date, end: Date, r: Record)
    requires r in table && DateLe(start, end) && (r.date == Stamp(start) || r.date == Stamp(end))
    requires column == ByKeyword ==> r.keyword.Some?
    ensures r in Window(table, column, start, end)
  {
    WindowMembers(table, column, start, end);
  }

  /** The window holds exactly the kept rows of the table: the date filter includes both ends. */
  lemma {:induction false} WindowMembers(table: seq<Record>, column: GroupBy, start: Date, end: Date)
    ensures forall r :: r in Window(table, column, start, end) <==> r in table && Kept(r, column, start, end)
  {
    if table != [] {
      WindowMembers(table[1..], column, start, end);
      assert table == [table[0]] + table[1..];
    }
  }

  lemma {:induction false} WindowAppend(a: seq<Record>, b: seq<Record>, column: GroupBy, start: Date, end: Date)
    ensures Window(a + b, column, start, end) == Window(a, column, start, end) + Window(b, column, start, end)
  {
    if a == [] {
      assert a + b == b;
    } else {
      assert (a + b)[0] == a[0] && (a + b)[1..] == a[1..] + b;
      WindowAppend(a[1..], b, column, start, end);
    }
  }

  /**
   * app.py:13-35 over `filtered_df`: empty, or the placement groups followed by the total row,
   * or the `ZeroDivisionError` the total row raises as written (app.py:28-31).
   */
  function PlacementTable(w: seq<Record>): (r: Outcome)
    ensures r.NoData? <==> w == []
  {
    if w == [] then NoData
    else
      var gs := GroupSum(w, ByPlacement);
      match TotalRowAsWritten(gs)
      case Ok(total) => Table(WithRatios(gs) + [total])
      case Err(e) => Raised(e)
  }

  /**
   * The placement table as evidently intended: the total row gets the same `inf`/`nan` rule as
   * the group rows, so a non-empty window always gives a table.
   */
  function IntendedPlacementTable(w: seq<Record>): (r: Outcome)
    ensures r.NoData? <==> w == []
    ensures !r.Raised?
    ensures r.Table? ==> |r.rows| >= 1 && r.rows[|r.rows| - 1].name == TotalLabel
  {
    if w == [] then NoData
    else
      var gs := GroupSum(w, ByPlacement);
      Table(WithRatios(gs) + [TotalRow(gs)])
  }

  /**
   * Over a non-empty window the placement table as written raises `ZeroDivisionError` exactly
   * when the summed clicks, spend or orders of the placed rows are zero; otherwise it is the
   * intended table.
   */
  lemma PlacementAgreement(w: seq<Record>)
    requires w != []
    ensures PlacementTable(w).Raised? <==> TotalRaises(SumKeyed(w, ByPlacement))
    ensures PlacementTable(w).Raised? ==> PlacementTable(w).error == ZeroDivisionError
    ensures !PlacementTable(w).Raised? ==> PlacementTable(w) == IntendedPlacementTable(w)
  {
    var gs := GroupSum(w, ByPlacement);
    GroupSumTotal(w, ByPlacement);
    TotalRowAsWrittenRaisesIff(gs);
  }

  /** app.py:44-57 over `filtered_df`: empty, or the keyword groups sorted by impressions. */
  function KeywordTable(w: seq<Record>): (r: Outcome)
    ensures r.NoData? <==> w == []
    ensures !r.Raised?
  {
    if w == [] then NoData
    else Table(SortByImpressions(WithRatios(GroupSum(w, ByKeyword))))
  }

  /**
   * Either function from app.py:11 (app.py:41) on, over a table whose date column the first
   * line of the function has converted.
   */
  function MetricsBy(column: GroupBy, table: seq<Record>, start: Date, end: Date): (r: Outcome)
    ensures r.NoData? <==> Window(table, column, start, end) == []
    ensures column == ByKeyword ==> !r.Raised?
  {
    var w := Window(table, column, start, end);
    match column
    case ByPlacement => PlacementTable(w)
    case ByKeyword => KeywordTable(w)
  }

  /**
   * The result is empty exactly when no row of the table is kept; in particular a range with
   * start after end always gives the empty result, and does so without raising.
   */
  lemma NoDataIff(column: GroupBy, table: seq<Record>, start: Date, end: Date)
    ensures MetricsBy(column, table, start, end) == NoData <==>
      forall i :: 0 <= i < |table| ==> !Kept(table[i], column, start, end)
    ensures !DateLe(start, end) ==> MetricsBy(column, table, start, end) == NoData
  {
    if !DateLe(start, end) {
      forall i | 0 <= i < |table| ensures !Kept(table[i], column, start, end) {
        if Kept(table[i], column, start, end) {
          DateLeTransitive(start, table[i].date.date, end);
        }
      }
    }
    var w := Window(table, column, start, end);
    assert MetricsBy(column, table, start, end) == NoData <==> w == [];
    WindowMembers(table, column, start, end);
    if w != [] {
      assert w[0] in w;
    } else {
      forall i | 0 <= i < |table| ensures !Kept(table[i], column, start, end) {
        assert table[i] in table;
      }
    }
  }

  /** Reference sum over the whole table: column `m` of the kept rows whose key is one of `keys`. */
  function KeptColumnSum(table: seq<Record>, column: GroupBy, start: Date, end: Date, keys: set<string>, m: Metric): nat {
    if table == [] then 0
    else (if Kept(table[0], column, start, end) then Counted(table[0], keys, column, m) else 0) +
         KeptColumnSum(table[1..], column, start, end, keys, m)
  }

  /** Filtering then summing a group is summing the kept rows of that group over the table. */
  lemma {:induction false} WindowColumnSum(table: seq<Record>, column: GroupBy, start: Date, end: Date, keys: set<string>, m: Metric)
    ensures ColumnSum(Window(table, column, start, end), keys, column, m) == KeptColumnSum(table, column, start, end, keys, m)
  {
    if table != [] {
      var rest := Window(table[1..], column, start, end);
      WindowColumnSum(table[1..], column, start, end, keys, m);
      if Kept(table[0], column, start, end) {
        var w := [table[0]] + rest;
        assert w[0] == table[0] && w[1..] == rest;
      } else {
        assert [] + rest == rest;
      }
    }
  }

  /** Some kept row of the table has key `k` in the grouping column. */
  predicate IsKeptKey(table: seq<Record>, column: GroupBy, start: Date, end: Date, k: string) {
    exists r :: r in table && Kept(r, column, start, end) && KeyOf(r, column) == Some(k)
  }

  /** Some row of `rows` is named `k`. */
  predicate Names(rows: seq<MetricsRow>, k: string) {
    exists i :: 0 <= i < |rows| && rows[i].name == k
  }

  /** The keys of the window are the keys of the kept rows of the table. */
  lemma WindowKeyIff(table: seq<Record>, column: GroupBy, start: Date, end: Date, k: string)
    ensures k in KeySet(Window(table, column, start, end), column) <==> IsKeptKey(table, column, start, end, k)
  {
    var w := Window(table, column, start, end);
    WindowMembers(table, column, start, end);
    if k in KeySet(w, column) {
      var r :| r in w && KeyOf(r, column) == Some(k);
      assert r in table && Kept(r, column, start, end);
    }
    if IsKeptKey(table, column, start, end, k) {
      var r :| r in table && Kept(r, column, start, end) && KeyOf(r, column) == Some(k);
      assert r in w;
    }
  }

  /** The intended placement table over a non-empty window: one row per group, then the total row. */
  lemma PlacementTableShape(w: seq<Record>)
    requires w != []
    ensures var gs := GroupSum(w, ByPlacement);
      var o := IntendedPlacementTable(w);
      o.Table? && |o.rows| == |gs| + 1 && o.rows[|gs|] == TotalRow(gs) &&
      forall i :: 0 <= i < |gs| ==> o.rows[i] == MetricsRow(gs[i].key, gs[i].sums, RatiosOf(gs[i].sums))
  {
    var gs := GroupSum(w, ByPlacement);
    assert IntendedPlacementTable(w).rows == WithRatios(gs) + [TotalRow(gs)];
  }

  /**
   * The group rows of the intended placement table of a non-empty window: every row but the
   * last, names strictly ascending and exactly the window's placements, each with its sums and
   * the ratios of those sums.
   */
  lemma PlacementGroupsOfWindow(w: seq<Record>)
    requires w != []
    ensures var t := IntendedPlacementTable(w).rows;
      |t| >= 1 &&
      (forall i, j :: 0 <= i < j < |t| - 1 ==> StrLess(t[i].name, t[j].name)) &&
      (forall k :: Names(t[..|t| - 1], k) <==> k in KeySet(w, ByPlacement)) &&
      (forall i :: 0 <= i < |t| - 1 ==>
         t[i].sums == SumIn(w, {t[i].name}, ByPlacement) && t[i].ratios == RatiosOf(t[i].sums))
  {
    var gs := GroupSum(w, ByPlacement);
    PlacementTableShape(w);
    var t := IntendedPlacementTable(w).rows;
    var g := t[..|t| - 1];
    assert forall i :: 0 <= i < |g| ==> g[i].name == gs[i].key;
    forall k
      ensures Names(g, k) <==> k in KeySet(w, ByPlacement)
    {
      if k in KeySet(w, ByPlacement) {
        var i :| 0 <= i < |gs| && gs[i].key == k;
        assert g[i].name == k;
      }
      if Names(g, k) {
        var i :| 0 <= i < |g| && g[i].name == k;
        assert gs[i].key == k;
      }
    }
  }

  /**
   * The total row of the intended placement table of a non-empty window: named `전체`, holding
   * the column sums of the groups, which are the sums over every placed row of the window, with
   * its derived columns recomputed from those sums.
   */
  lemma IntendedTotalRow(w: seq<Record>)
    requires w != []
    ensures var o := IntendedPlacementTable(w);
      o.Table? && |o.rows| >= 1 &&
      var last := o.rows[|o.rows| - 1];
      last.name == TotalLabel &&
      last.sums == SumGroups(GroupSum(w, ByPlacement)) &&
      last.sums == SumKeyed(w, ByPlacement) &&
      last.ratios == RatiosOf(last.sums)
  {
    PlacementTableShape(w);
    GroupSumTotal(w, ByPlacement);
  }

  /**
   * The placement report of a table, in full: empty when no row is kept, `ZeroDivisionError`
   * when the kept placed rows sum to zero clicks, spend or orders, and otherwise the intended
   * table.
   */
  lemma PlacementOutcome(table: seq<Record>, start: Date, end: Date)
    ensures var w := Window(table, ByPlacement, start, end);
      MetricsBy(ByPlacement, table, start, end) ==
        if w == [] then NoData
        else if TotalRaises(SumKeyed(w, ByPlacement)) then Raised(ZeroDivisionError)
        else IntendedPlacementTable(w)
  {
    var w := Window(table, ByPlacement, start, end);
    if w != [] {
      PlacementAgreement(w);
    }
  }

  /**
   * Placement report, group rows, when some row is kept and the total row does not raise: every
   * row but the last is a group. Their names ascend strictly (so no name appears twice), they
   * are exactly the placements of the kept rows, each holds the sums of the kept rows with that
   * placement, and its derived columns come from its own sums.
   */
  lemma PlacementGroupRows(table: seq<Record>, start: Date, end: Date)
    requires Window(table, ByPlacement, start, end) != []
    requires !TotalRaises(SumKeyed(Window(table, ByPlacement, start, end), ByPlacement))
    ensures PlacementTable(Window(table, ByPlacement, start, end)).Table?
    ensures var t := PlacementTable(Window(table, ByPlacement, start, end)).rows;
      |t| >= 1 &&
      (forall i, j :: 0 <= i < j < |t| - 1 ==> StrLess(t[i].name, t[j].name)) &&
      (forall k :: Names(t[..|t| - 1], k) <==> IsKeptKey(table, ByPlacement, start, end, k))
    ensures var w := Window(table, ByPlacement, start, end);
      var t := PlacementTable(w).rows;
      forall i :: 0 <= i < |t| - 1 ==>
        t[i].sums == SumIn(w, {t[i].name}, ByPlacement) && t[i].ratios == RatiosOf(t[i].sums)
  {
    var w := Window(table, ByPlacement, start, end);
    PlacementAgreement(w);
    assert PlacementTable(w) == IntendedPlacementTable(w);
    PlacementGroupsOfWindow(w);
    forall k {
      WindowKeyIff(table, ByPlacement, start, end, k);
    }
  }

  /**
   * Placement report, total row, when some row is kept and the total row does not raise: the
   * last row is named `전체`; its counters are the column sums of the group rows, which are the
   * sums over every kept row that has a placement; its derived columns are recomputed from
   * those sums, not averaged from the groups' columns.
   */
  lemma PlacementTotalRow(table: seq<Record>, start: Date, end: Date)
    requires Window(table, ByPlacement, start, end) != []
    requires !TotalRaises(SumKeyed(Window(table, ByPlacement, start, end), ByPlacement))
    ensures var w := Window(table, ByPlacement, start, end);
      var o := PlacementTable(w);
      o.Table? && |o.rows| >= 1 &&
      var last := o.rows[|o.rows| - 1];
      last.name == TotalLabel &&
      last.sums == SumGroups(GroupSum(w, ByPlacement)) &&
      last.sums == SumKeyed(w, ByPlacement) &&
      last.ratios == RatiosOf(last.sums)
  {
    var w := Window(table, ByPlacement, start, end);
    PlacementAgreement(w);
    assert PlacementTable(w) == IntendedPlacementTable(w);
    IntendedTotalRow(w);
  }

  /** The keyword table over a non-empty window: its groups, sorted by impressions. */
  lemma KeywordTableShape(w: seq<Record>)
    requires w != []
    ensures KeywordTable(w).Table? && KeywordTable(w).rows == SortByImpressions(WithRatios(GroupSum(w, ByKeyword)))
  {
  }

  /** An element of a sequence is an element of any rearrangement of it. */
  lemma RearrangedElement<T>(t: seq<T>, g: seq<T>, i: nat) returns (j: nat)
    requires multiset(t) == multiset(g) && i < |t|
    ensures j < |g| && g[j] == t[i]
  {
    assert t[i] in multiset(g);
    j :| 0 <= j < |g| && g[j] == t[i];
  }

  /** A row of a rearrangement of the keyword groups holds its group's sums and their ratios. */
  lemma KeywordRowSums(w: seq<Record>, t: seq<MetricsRow>, i: nat)
    requires multiset(t) == multiset(WithRatios(GroupSum(w, ByKeyword))) && i < |t|
    ensures t[i].sums == SumIn(w, {t[i].name}, ByKeyword) && t[i].ratios == RatiosOf(t[i].sums)
  {
    var j := RearrangedElement(t, WithRatios(GroupSum(w, ByKeyword)), i);
  }

  /** A rearrangement of the keyword groups names exactly the keys of the window. */
  lemma KeywordRowName(w: seq<Record>, t: seq<MetricsRow>, k: string)
    requires multiset(t) == multiset(WithRatios(GroupSum(w, ByKeyword)))
    ensures Names(t, k) <==> k in KeySet(w, ByKeyword)
  {
    var g := WithRatios(GroupSum(w, ByKeyword));
    if Names(t, k) {
      var i :| 0 <= i < |t| && t[i].name == k;
      var j := RearrangedElement(t, g, i);
      GroupKeyIsRowKey(w, ByKeyword, j);
    }
    if k in KeySet(w, ByKeyword) {
      var j := GroupOfKey(w, ByKeyword, k);
      var i := RearrangedElement(g, t, j);
      assert t[i].name == k;
    }
  }

  /** Each row of a rearrangement of the keyword groups is the row of a key of the window. */
  lemma KeywordRowsAreGroups(w: seq<Record>, t: seq<MetricsRow>)
    requires multiset(t) == multiset(WithRatios(GroupSum(w, ByKeyword)))
    ensures |t| == |GroupSum(w, ByKeyword)|
    ensures forall i :: 0 <= i < |t| ==>
      t[i].sums == SumIn(w, {t[i].name}, ByKeyword) && t[i].ratios == RatiosOf(t[i].sums)
    ensures forall k :: Names(t, k) <==> k in KeySet(w, ByKeyword)
  {
    assert |t| == |multiset(t)| == |multiset(WithRatios(GroupSum(w, ByKeyword)))|;
    forall i: nat | i < |t| {
      KeywordRowSums(w, t, i);
    }
    forall k {
      KeywordRowName(w, t, k);
    }
  }

  /**
   * Keyword table, when some row is kept: a permutation of the keyword groups ordered by
   * impressions, largest first, with no total row. Its rows are named by exactly the keywords
   * of the kept rows, and each holds its group's sums and the ratios of those sums.
   */
  lemma KeywordRows(table: seq<Record>, start: Date, end: Date)
    requires Window(table, ByKeyword, start, end) != []
    ensures KeywordTable(Window(table, ByKeyword, start, end)).Table?
    ensures var w := Window(table, ByKeyword, start, end);
      var gs := GroupSum(w, ByKeyword);
      var t := KeywordTable(w).rows;
      ImpressionsNonIncreasing(t) && multiset(t) == multiset(WithRatios(gs)) && |t| == |gs|
    ensures var t := KeywordTable(Window(table, ByKeyword, start, end)).rows;
      forall k :: Names(t, k) <==> IsKeptKey(table, ByKeyword, start, end, k)
    ensures var w := Window(table, ByKeyword, start, end);
      var t := KeywordTable(w).rows;
      forall i :: 0 <= i < |t| ==>
        t[i].sums == SumIn(w, {t[i].name}, ByKeyword) && t[i].ratios == RatiosOf(t[i].sums)
  {
    var w := Window(table, ByKeyword, start, end);
    KeywordTableShape(w);
    KeywordRowsAreGroups(w, KeywordTable(w).rows);
    forall k {
      WindowKeyIff(table, ByKeyword, start, end, k);
    }
  }

  /**
   * A row that is not kept (its date NaT or outside the range, or in keyword mode no keyword)
   * changes nothing, wherever it stands in the table.
   */
  lemma ExcludedRowIgnored(column: GroupBy, a: seq<Record>, x: Record, b: seq<Record>, start: Date, end: Date)
    requires !Kept(x, column, start, end)
    ensures MetricsBy(column, a + [x] + b, start, end) == MetricsBy(column, a + b, start, end)
  {
    WindowAppend(a + [x], b, column, start, end);
    WindowAppend(a, [x], column, start, end);
    WindowAppend(a, b, column, start, end);
    assert Window([x], column, start, end) == [] by {
      assert [x][1..] == [];
    }
    assert Window(a + [x] + b, column, start, end) == Window(a + b, column, start, end);
  }

  /**
   * A kept row without a placement is in no group. It only decides emptiness: a range holding
   * only such rows passes the emptiness test, then every total is zero and app.py:28 raises.
   */
  lemma UnplacedRowInNoGroup(a: seq<Record>, x: Record, b: seq<Record>, start: Date, end: Date)
    requires Kept(x, ByPlacement, start, end) && x.placement == None
    ensures Window(a + b, ByPlacement, start, end) != [] ==>
      MetricsBy(ByPlacement, a + [x] + b, start, end) == MetricsBy(ByPlacement, a + b, start, end)
    ensures Window(a + b, ByPlacement, start, end) == [] ==>
      MetricsBy(ByPlacement, a + [x] + b, start, end) == Raised(ZeroDivisionError)
  {
    var wa, wb := Window(a, ByPlacement, start, end), Window(b, ByPlacement, start, end);
    KeptRowInWindow(a, x, b, ByPlacement, start, end);
    if wa + wb == [] {
      assert wa + [x] + wb == [x];
      UnplacedRowAlone(x);
    } else {
      UnplacedRowInTable(wa, x, wb);
    }
  }

  /** A kept row stands in the window between the windows of the rows before and after it. */
  lemma KeptRowInWindow(a: seq<Record>, x: Record, b: seq<Record>, column: GroupBy, start: Date, end: Date)
    requires Kept(x, column, start, end)
    ensures Window(a + [x] + b, column, start, end) ==
      Window(a, column, start, end) + [x] + Window(b, column, start, end)
    ensures Window(a + b, column, start, end) == Window(a, column, start, end) + Window(b, column, start, end)
  {
    WindowAppend(a + [x], b, column, start, end);
    WindowAppend(a, [x], column, start, end);
    WindowAppend(a, b, column, start, end);
    assert Window([x], column, start, end) == [x] by {
      assert [x][1..] == [];
    }
  }

  /**
   * A window of one unplaced row: there is no group, so every total is zero and app.py:28
   * raises; the intended table would hold only a zero total row with every ratio `nan`.
   */
  lemma UnplacedRowAlone(x: Record)
    requires x.placement == None
    ensures PlacementTable([x]) == Raised(ZeroDivisionError)
    ensures IntendedPlacementTable([x]) ==
      Table([MetricsRow(TotalLabel, Counters(0, 0, 0, 0, 0),
                        Ratios(NotANumber, NotANumber, NotANumber, NotANumber, NotANumber))])
  {
    GroupSumSkipsUnkeyed([], x, [], ByPlacement);
    assert [] + [x] + [] == [x];
    assert GroupSum([], ByPlacement) == [];
    assert SumGroups([]) == Counters(0, 0, 0, 0, 0);
  }

  /** An unplaced row inside a non-empty window changes nothing in the placement table. */
  lemma UnplacedRowInTable(wa: seq<Record>, x: Record, wb: seq<Record>)
    requires x.placement == None && wa + wb != []
    ensures PlacementTable(wa + [x] + wb) == PlacementTable(wa + wb)
  {
    GroupSumSkipsUnkeyed(wa, x, wb, ByPlacement);
  }

  /**
   * Running either function again on the table it has already converted finds no date at all
   * and returns the empty result; the interface therefore passes each function its own copy.
   */
  lemma ReconvertedTableHasNoData(column: GroupBy, table: seq<Record>, start: Date, end: Date)
    ensures MetricsBy(column, ConvertDateColumn(ConvertDateColumn(table)), start, end) == NoData
  {
    ConvertTwiceLosesDates(table);
    NoDataIff(column, ConvertDateColumn(ConvertDateColumn(table)), start, end);
  }

  /**
   * `calculate_metrics_by_date(df, start_date, end_date)`: converts the caller's date column
   * in place, then computes the placement table from the converted rows, or raises while
   * building its total row.
   */
  method CalculateMetricsByDate(df: array<Record>, start: Date, end: Date) returns (result: Outcome)
    modifies df
    ensures df[..] == ConvertDateColumn(old(df[..]))
    ensures result == MetricsBy(ByPlacement, ConvertDateColumn(old(df[..])), start, end)
  {
    ConvertDateColumnInPlace(df);
    var w := Window(df[..], ByPlacement, start, end);
    if w == [] {
      return NoData;
    }
    var gs := GroupSum(w, ByPlacement);
    var rows := WithRatios(gs);
    var total := BuildTotalRow(gs);
    match total
    case Ok(row) => result := Table(rows + [row]);
    case Err(e) => result := Raised(e);
  }

  /**
   * `calculate_metrics_by_keyword(df, start_date, end_date)`: converts the caller's date column
   * in place, then computes the keyword table from the converted rows.
   */
  method CalculateMetricsByKeyword(df: array<Record>, start: Date, end: Date) returns (result: Outcome)
    modifies df
    ensures df[..] == ConvertDateColumn(old(df[..]))
    ensures result == MetricsBy(ByKeyword, ConvertDateColumn(old(df[..])), start, end)
  {
    ConvertDateColumnInPlace(df);
    var w := Window(df[..], ByKeyword, start, end);
    if w == [] {
      return NoData;
    }
    var rows := WithRatios(GroupSum(w, ByKeyword));
    result := Table(SortByImpressions(rows));
  }
}
