/**
 * Worked reports for small spreadsheets: the date column holds integers such as 20241005, as
 * the uploaded files do, and the interface asks for one range of days.
 */
module Scenarios {
  import opened Wrappers
  import opened Dates
  import opened Frame
  import opened Grouping
  import opened Ratios
  import opened Summary
  import opened Metrics

  const Oct5 := Date(2024, 10, 5)
  const Oct1 := Date(2024, 10, 1)
  const Oct10 := Date(2024, 10, 10)

  /** A sheet row as uploaded: an integer date, a placement, a keyword, the five counters. */
  function Row(placement: string, keyword: string, c: Counters): Record {
    Record(Num(20241005), Some(placement), Some(keyword), c)
  }

  /** The same row once the date column has been converted. */
  function Converted(placement: string, keyword: string, c: Counters): Record {
    Record(Stamp(Oct5), Some(placement), Some(keyword), c)
  }

  lemma RowConverts(placement: string, keyword: string, c: Counters)
    ensures ParseCell(Row(placement, keyword, c).date) == Stamp(Oct5)
  {
    IntegerDateCellParses(Oct5);
  }

  /**
   * A seven-digit integer converts through the strptime fallback: 2024105 is 5 October, the month
   * group taking `10` before it would try `1`.
   */
  lemma SevenDigitCell()
    ensures ParseCell(Num(2024105)) == Stamp(Date(2024, 10, 5))
  {
    var d := Date(2024, 10, 5);
    PowersOfTen();
    assert Pow10(3) == 1000 && Pow10(1) == 10;
    NatTextIsPadded(2024105, 7);
    PadDigitsSplit(2024, 105, 4, 3);
    PadDigitsSplit(10, 5, 2, 1);
    assert CellText(Num(2024105)) == Spelling(d, TwoDigits, OneDigit);
    ParseCellIff(Num(2024105), d);
  }

  /** A six-digit integer converts too: 202415 is 5 January. */
  lemma SixDigitCell()
    ensures ParseCell(Num(202415)) == Stamp(Date(2024, 1, 5))
  {
    var d := Date(2024, 1, 5);
    PowersOfTen();
    assert Pow10(1) == 10 && Pow10(6) == 1000000 && Pow10(5) == 100000;
    NatTextIsPadded(202415, 6);
    PadDigitsSplit(2024, 15, 4, 2);
    PadDigitsSplit(1, 5, 1, 1);
    assert CellText(Num(202415)) == Spelling(d, OneDigit, OneDigit);
    ParseCellIff(Num(202415), d);
  }

  /** `202410 5` is 5 October with the day after a space. */
  lemma SpacedText()
    ensures "202410 5" == Spelling(Date(2024, 10, 5), TwoDigits, SpaceDigit)
  {
    assert PadDigits(2024, 4) == "2024" by {
      NatTextIsPadded(2024, 4);
      PowersOfTen();
      assert Pow10(3) == 1000;
      assert NatText(2024) == "2024";
    }
    ShortPads(10);
    ShortPads(5);
  }

  /** A text with a space before a one-digit day converts to that day. */
  lemma SpacedDayCell()
    ensures ParseCell(Text("202410 5")) == Stamp(Date(2024, 10, 5))
  {
    SpacedText();
    ParseCellIff(Text("202410 5"), Date(2024, 10, 5));
  }

  /** A table whose every row is kept is its own window. */
  lemma {:induction false} AllKeptWindow(rows: seq<Record>, column: GroupBy, start: Date, end: Date)
    requires forall i :: 0 <= i < |rows| ==> Kept(rows[i], column, start, end)
    ensures Window(rows, column, start, end) == rows
  {
    if rows != [] {
      AllKeptWindow(rows[1..], column, start, end);
      assert rows == [rows[0]] + rows[1..];
    }
  }

  /** The group of one row's own key holds that row's counters. */
  lemma OneRowSum(x: Record, column: GroupBy, k: string)
    requires KeyOf(x, column) == Some(k)
    ensures SumIn([x], {k}, column) == x.counters
  {
    assert [x][1..] == [];
    forall m ensures ColumnSum([x], {k}, column, m) == Get(x.counters, m) {
      assert ColumnSum([x][1..], {k}, column, m) == 0;
    }
  }

  /** Of two rows with different keys, the group of the first key holds the first row's counters. */
  lemma FirstOfTwoSum(x: Record, y: Record, column: GroupBy, k: string)
    requires KeyOf(x, column) == Some(k) && KeyOf(y, column) != Some(k)
    ensures SumIn([x, y], {k}, column) == x.counters
  {
    assert [x, y][1..] == [y] && [y][1..] == [];
    forall m ensures ColumnSum([x, y], {k}, column, m) == Get(x.counters, m) {
      assert ColumnSum([y], {k}, column, m) == 0;
    }
  }

  /** Of two rows with different keys, the group of the second key holds the second row's counters. */
  lemma SecondOfTwoSum(x: Record, y: Record, column: GroupBy, k: string)
    requires KeyOf(x, column) != Some(k) && KeyOf(y, column) == Some(k)
    ensures SumIn([x, y], {k}, column) == y.counters
  {
    assert [x, y][1..] == [y] && [y][1..] == [];
    forall m ensures ColumnSum([x, y], {k}, column, m) == Get(y.counters, m) {
      assert ColumnSum([y], {k}, column, m) == Get(y.counters, m);
    }
  }

  /**
   * One row, in range: one placement group and the total row, both with the same sums and with
   * click rate 10 %, conversion rate 10 %, CPC 100, ROAS 500 % and cost per conversion 1000.
   */
  lemma OneRowPlacementReport()
    ensures var c := Counters(100, 10, 1, 5000, 1000);
      var r := Ratios(Finite(10.0), Finite(10.0), Finite(100.0), Finite(500.0), Finite(1000.0));
      MetricsBy(ByPlacement, ConvertDateColumn([Row("A", "shoes", c)]), Oct1, Oct10) ==
        Table([MetricsRow("A", c, r), MetricsRow(TotalLabel, c, r)])
  {
    var c := Counters(100, 10, 1, 5000, 1000);
    var x := OnePlacedRow("A", "shoes", c);
    OneGroup("A", c);
  }

  /** A one-row sheet in range converts to its own window, one placement group holding the row. */
  lemma OnePlacedRow(placement: string, keyword: string, c: Counters) returns (x: Record)
    ensures x == Converted(placement, keyword, c)
    ensures ConvertDateColumn([Row(placement, keyword, c)]) == [x]
    ensures Window([x], ByPlacement, Oct1, Oct10) == [x]
    ensures GroupSum([x], ByPlacement) == [Group(placement, c)]
  {
    x := Converted(placement, keyword, c);
    RowConverts(placement, keyword, c);
    AllKeptWindow([x], ByPlacement, Oct1, Oct10);
    assert SortedKeys([x], ByPlacement) == [placement] by {
      assert [x][1..] == [];
    }
    OneRowSum(x, ByPlacement, placement);
  }

  /** One group: its sums are the totals. */
  lemma OneGroup(k: string, c: Counters)
    ensures SumGroups([Group(k, c)]) == c
  {
    var gs := [Group(k, c)];
    assert gs[1..] == [];
    forall m ensures GroupColumnSum(gs, m) == Get(c, m) {
      assert GroupColumnSum(gs[1..], m) == 0;
    }
  }

  /**
   * One row with no orders: the group row shows `inf` per order, but the total row divides
   * Python ints and raises, so the placement function returns nothing; the intended table
   * would show `inf` in the total row too.
   */
  lemma NoOrdersRaises()
    ensures var c := Counters(100, 10, 0, 0, 1000);
      var w := Window(ConvertDateColumn([Row("A", "shoes", c)]), ByPlacement, Oct1, Oct10);
      MetricsBy(ByPlacement, ConvertDateColumn([Row("A", "shoes", c)]), Oct1, Oct10) == Raised(ZeroDivisionError) &&
      IntendedPlacementTable(w).Table? && |IntendedPlacementTable(w).rows| == 2 &&
      IntendedPlacementTable(w).rows[1].ratios.costPerConversion == Infinite
  {
    var c := Counters(100, 10, 0, 0, 1000);
    var x := OnePlacedRow("A", "shoes", c);
    OneGroup("A", c);
    TotalRowAsWrittenRaisesIff([Group("A", c)]);
  }

  /** The same sheet asked for November: no row is kept, so the warning is shown instead. */
  lemma OutOfRangeGivesNoData()
    ensures var c := Counters(100, 10, 1, 5000, 1000);
      MetricsBy(ByPlacement, ConvertDateColumn([Row("A", "shoes", c)]), Date(2024, 11, 1), Date(2024, 11, 30)) == NoData
  {
    var c := Counters(100, 10, 1, 5000, 1000);
    RowConverts("A", "shoes", c);
    assert ConvertDateColumn([Row("A", "shoes", c)]) == [Converted("A", "shoes", c)];
    NoDataIff(ByPlacement, [Converted("A", "shoes", c)], Date(2024, 11, 1), Date(2024, 11, 30));
  }

  /** The keyword groups of a row keyed "boots" and a row keyed "shoes", in key order. */
  lemma TwoKeywordGroups(xa: Record, xb: Record)
    requires xa.keyword == Some("boots") && xb.keyword == Some("shoes")
    ensures GroupSum([xa, xb], ByKeyword) == [Group("boots", xa.counters), Group("shoes", xb.counters)]
  {
    assert [xa, xb][1..] == [xb] && [xb][1..] == [];
    assert "boots" != "shoes" by {
      assert "boots"[0] != "shoes"[0];
    }
    assert StrLess("boots", "shoes");
    assert SortedKeys([xb], ByKeyword) == ["shoes"];
    assert SortedKeys([xa, xb], ByKeyword) == InsertKey("boots", ["shoes"]);
    FirstOfTwoSum(xa, xb, ByKeyword, "boots");
    SecondOfTwoSum(xa, xb, ByKeyword, "shoes");
  }

  /** Two rows in ascending order of impressions change places. */
  lemma SortSwapsTwo(ra: MetricsRow, rb: MetricsRow)
    requires ra.sums.impressions < rb.sums.impressions
    ensures Ordering.SortByImpressions([ra, rb]) == [rb, ra]
  {
    assert [ra, rb][1..] == [rb] && [rb][1..] == [];
    assert Ordering.SortByImpressions([rb]) == [rb];
  }

  /**
   * Two keywords: "boots" sorts before "shoes" but has fewer impressions, so the keyword table
   * lists "shoes" first.
   */
  lemma KeywordsByImpressions()
    ensures var a := Counters(50, 5, 1, 1000, 500);
      var b := Counters(100, 10, 1, 5000, 1000);
      var t := MetricsBy(ByKeyword, ConvertDateColumn([Row("A", "boots", a), Row("A", "shoes", b)]), Oct1, Oct10);
      t.Table? && |t.rows| == 2 && t.rows[0].name == "shoes" && t.rows[1].name == "boots"
  {
    var a := Counters(50, 5, 1, 1000, 500);
    var b := Counters(100, 10, 1, 5000, 1000);
    var xa, xb := Converted("A", "boots", a), Converted("A", "shoes", b);
    RowConverts("A", "boots", a);
    RowConverts("A", "shoes", b);
    var table := [Row("A", "boots", a), Row("A", "shoes", b)];
    assert ConvertDateColumn(table) == [xa, xb];
    AllKeptWindow([xa, xb], ByKeyword, Oct1, Oct10);
    TwoKeywordGroups(xa, xb);
    var ra, rb := MetricsRow("boots", a, RatiosOf(a)), MetricsRow("shoes", b, RatiosOf(b));
    assert WithRatios(GroupSum([xa, xb], ByKeyword)) == [ra, rb];
    SortSwapsTwo(ra, rb);
  }
}
