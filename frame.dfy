/**
 * The advertising table as the two metric functions receive it, and the first thing both do
 * to it: overwrite the caller's `날짜` (date) column with parsed timestamps (app.py:10, app.py:40).
 */
module Frame {
  import opened Wrappers
  import opened Dates

  /**
   * A `날짜` cell. Before conversion it holds what the spreadsheet gave (an integer, a text or
   * nothing); after conversion it holds a Timestamp or NaT.
   */
  datatype Cell = Num(n: int) | Text(s: string) | Missing | Stamp(date: Date) | NaT

  /** The five counters: 노출수, 클릭수, 총 주문수(1일), 총 전환매출액(1일), 광고비. */
  datatype Counters = Counters(impressions: nat, clicks: nat, orders: nat, revenue: nat, spend: nat)

  /** One spreadsheet row: its date cell, its two grouping cells (광고 노출 지면, 키워드) and its counters. */
  datatype Record = Record(date: Cell, placement: Option<string>, keyword: Option<string>, counters: Counters)

  /** Python's `str` of a non-negative integer. */
  function NatText(n: nat): (s: string)
    ensures |s| >= 1 && AllDigits(s)
  {
    if n < 10 then [DigitChar(n)] else NatText(n / 10) + [DigitChar(n % 10)]
  }

  function IntText(n: int): string {
    if n < 0 then "-" + NatText(-n) else NatText(n)
  }

  /** `astype(str)` of one cell of the column. */
  function CellText(c: Cell): string {
    match c
    case Num(n) => IntText(n)
    case Text(s) => s
    case Missing => "nan"
    case Stamp(d) => FormatIso(d)
    case NaT => "NaT"
  }

  /** One cell of `pd.to_datetime(df['날짜'].astype(str), format='%Y%m%d', errors='coerce')`. */
  function ParseCell(c: Cell): (r: Cell)
    ensures r.Stamp? || r.NaT?
    ensures r.Stamp? ==> IsValidDate(r.date) && InTimestampRange(r.date)
  {
    match ParseYmd(CellText(c))
    case Some(d) => Stamp(d)
    case None => NaT
  }

  /**
   * A cell converts to a timestamp or to NaT, and to the timestamp of `d` exactly when its text
   * spells `d` in a way the format reads back (`YYYYMMDD`, or a shorter month or day) and `d` is
   * a real day a Timestamp can hold.
   */
  lemma ParseCellIff(c: Cell, d: Date)
    ensures ParseCell(c).Stamp? || ParseCell(c).NaT?
    ensures ParseCell(c) == Stamp(d) <==> IsValidDate(d) && InTimestampRange(d) && ReadsAs(CellText(c), d)
  {
    ParseYmdIff(CellText(c), d);
  }

  lemma {:induction false} NatTextIsPadded(n: nat, w: nat)
    requires w >= 1 && Pow10(w - 1) <= n < Pow10(w)
    ensures NatText(n) == PadDigits(n, w)
  {
    if w > 1 {
      NatTextIsPadded(n / 10, w - 1);
    }
  }

  lemma {:induction false} PadDigitsSplit(a: nat, b: nat, v: nat, w: nat)
    requires b < Pow10(w)
    ensures PadDigits(a * Pow10(w) + b, v + w) == PadDigits(a, v) + PadDigits(b, w)
  {
    if w == 0 {
      assert b == 0 && a * Pow10(w) + b == a;
      assert PadDigits(b, w) == [];
    } else {
      var x := a * Pow10(w - 1);
      var q, r := b / 10, b % 10;
      assert b == 10 * q + r && r < 10;
      assert q < Pow10(w - 1);
      var n := a * Pow10(w) + b;
      assert a * Pow10(w) == 10 * x by {
        assert Pow10(w) == 10 * Pow10(w - 1);
      }
      assert n == 10 * (x + q) + r;
      DivModTen(x + q, r);
      assert PadDigits(n, v + w) == PadDigits(x + q, v + w - 1) + [DigitChar(r)];
      assert PadDigits(b, w) == PadDigits(q, w - 1) + [DigitChar(r)];
      PadDigitsSplit(a, q, v, w - 1);
      assert PadDigits(x + q, v + w - 1) == PadDigits(a, v) + PadDigits(q, w - 1);
    }
  }

  lemma DivModTen(q: nat, r: nat)
    requires r < 10
    ensures (10 * q + r) / 10 == q && (10 * q + r) % 10 == r
  {
  }

  /** An integer cell such as 20241005 converts to its day, as the spreadsheet usually supplies it. */
  lemma IntegerDateCellParses(d: Date)
    requires IsValidDate(d) && InTimestampRange(d)
    ensures ParseCell(Num(d.year * 10000 + d.month * 100 + d.day)) == Stamp(d)
  {
    var n := d.year * 10000 + d.month * 100 + d.day;
    YmdNumberText(d);
    assert CellText(Num(n)) == FormatYmd(d);
    FormattedDayParses(d);
  }

  lemma PowersOfTen()
    ensures Pow10(2) == 100 && Pow10(7) == 10000000 && Pow10(8) == 100000000
  {
    assert Pow10(1) == 10;
    assert Pow10(2) == 100;
    assert Pow10(4) == 10000;
    assert Pow10(6) == 1000000;
  }

  /** The decimal text of the number `YYYYMMDD`, for a year of four digits, is its `YYYYMMDD` text. */
  lemma YmdNumberText(d: Date)
    requires 1000 <= d.year < 10000 && d.month < 100 && d.day < 100
    ensures NatText(d.year * 10000 + d.month * 100 + d.day) == FormatYmd(d)
  {
    var n := d.year * 10000 + d.month * 100 + d.day;
    PowersOfTen();
    NatTextIsPadded(n, 8);
    YmdNumberDigits(d);
  }

  lemma YmdNumberDigits(d: Date)
    requires d.month < 100 && d.day < 100
    ensures PadDigits(d.year * 10000 + d.month * 100 + d.day, 8) == FormatYmd(d)
  {
    EightDigits(d.year, d.month, d.day);
  }

  lemma EightDigits(y: nat, m: nat, dd: nat)
    requires m < 100 && dd < 100
    ensures PadDigits(y * 10000 + m * 100 + dd, 8) == PadDigits(y, 4) + PadDigits(m, 2) + PadDigits(dd, 2)
  {
    var ym: nat := y * 100 + m;
    var n: nat := ym * 100 + dd;
    assert n == y * 10000 + m * 100 + dd;
    PadTwoDigitsSplit(y, m, 4);
    PadTwoDigitsSplit(ym, dd, 6);
    var a, b, c := PadDigits(y, 4), PadDigits(m, 2), PadDigits(dd, 2);
    assert PadDigits(n, 8) == (a + b) + c;
  }

  /** PadDigitsSplit for a two-digit tail. */
  lemma PadTwoDigitsSplit(a: nat, b: nat, v: nat)
    requires b < 100
    ensures PadDigits(a * 100 + b, v + 2) == PadDigits(a, v) + PadDigits(b, 2)
  {
    PowersOfTen();
    PadDigitsSplit(a, b, v, 2);
  }

  /** A converted cell renders as `YYYY-MM-DD` or `NaT`, so converting it again always gives NaT. */
  lemma ConvertedCellDoesNotReparse(c: Cell)
    ensures ParseCell(ParseCell(c)) == NaT
  {
    match ParseCell(c)
    case Stamp(d) => IsoTextIsNotYmd(d);
    case NaT =>
  }

  /** The table after `df['날짜'] = ...`: every date cell converted, every other column as it was. */
  function ConvertDateColumn(table: seq<Record>): seq<Record> {
    seq(|table|, i requires 0 <= i < |table| => table[i].(date := ParseCell(table[i].date)))
  }

  /** Converting a converted table again loses every date. */
  lemma ConvertTwiceLosesDates(table: seq<Record>)
    ensures var again := ConvertDateColumn(ConvertDateColumn(table));
      |again| == |table| && forall i :: 0 <= i < |again| ==> again[i].date == NaT
  {
    forall i | 0 <= i < |table|
      ensures ConvertDateColumn(ConvertDateColumn(table))[i].date == NaT
    {
      ConvertedCellDoesNotReparse(table[i].date);
    }
  }

  /**
   * The assignment to the caller's `날짜` column (app.py:10, app.py:40), cell by cell: the row
   * count and every other column stay as they were.
   */
  method ConvertDateColumnInPlace(df: array<Record>)
    modifies df
    ensures df[..] == ConvertDateColumn(old(df[..]))
    ensures forall i :: 0 <= i < df.Length ==>
      df[i].placement == old(df[i].placement) && df[i].keyword == old(df[i].keyword) &&
      df[i].counters == old(df[i].counters) && df[i].date == ParseCell(old(df[i].date))
  {
    ghost var converted := ConvertDateColumn(df[..]);
    var i := 0;
    while i < df.Length
      invariant 0 <= i <= df.Length
      invariant forall k :: 0 <= k < i ==> df[k] == converted[k]
      invariant forall k :: i <= k < df.Length ==> df[k] == old(df[k])
    {
      df[i] := df[i].(date := ParseCell(df[i].date));
      i := i + 1;
    }
    assert df[..] == converted;
  }
}
