/**
 * Calendar dates and the reading that `pd.to_datetime(..., format='%Y%m%d', errors='coerce')`
 * (pandas 2) applies to each text cell: numpy's C reader first, then the strptime pattern.
 */
module Dates {
  import opened Wrappers

  /** A calendar day; the parsed timestamps of the table are all at midnight. */
  datatype Date = Date(year: nat, month: nat, day: nat)

  /** Proleptic Gregorian leap years, as numpy's datetime64 counts them. */
  predicate IsLeapYear(y: nat) {
    y % 4 == 0 && (y % 100 != 0 || y % 400 == 0)
  }

  function DaysInMonth(y: nat, m: nat): (n: nat)
    requires 1 <= m <= 12
    ensures 28 <= n <= 31
    ensures n == 29 <==> m == 2 && IsLeapYear(y)
  {
    if m == 2 then (if IsLeapYear(y) then 29 else 28)
    else if m == 4 || m == 6 || m == 9 || m == 11 then 30
    else 31
  }

  predicate IsValidDate(d: Date) {
    1 <= d.month <= 12 && 1 <= d.day <= DaysInMonth(d.year, d.month)
  }

  /** Timestamp comparison on midnight timestamps: lexicographic on (year, month, day). */
  predicate DateLe(a: Date, b: Date) {
    a.year < b.year ||
    (a.year == b.year && (a.month < b.month || (a.month == b.month && a.day <= b.day)))
  }

  lemma DateLeTransitive(a: Date, b: Date, c: Date)
    requires DateLe(a, b) && DateLe(b, c)
    ensures DateLe(a, c)
  {
  }

  /**
   * pandas' nanosecond Timestamp spans 1677-09-21 00:12:43 to 2262-04-11 23:47:16; a midnight
   * timestamp fits exactly for the days below. Any other day is out of bounds and is coerced to NaT.
   */
  const FirstTimestampDay := Date(1677, 9, 22)
  const LastTimestampDay := Date(2262, 4, 11)

  predicate InTimestampRange(d: Date) {
    DateLe(FirstTimestampDay, d) && DateLe(d, LastTimestampDay)
  }

  /**
   * ASCII digits. The C reader tests with `isdigit`; the `\d` of the strptime pattern would also
   * take other Unicode decimal digits, which this model does not.
   */
  predicate IsDigit(c: char) {
    '0' <= c <= '9'
  }

  predicate AllDigits(s: string) {
    forall i :: 0 <= i < |s| ==> IsDigit(s[i])
  }

  function DigitChar(n: nat): (c: char)
    requires n < 10
    ensures IsDigit(c) && c as int - '0' as int == n
  {
    ('0' as int + n) as char
  }

  function DigitValue(c: char): (n: nat)
    requires IsDigit(c)
    ensures n < 10 && DigitChar(n) == c
  {
    c as int - '0' as int
  }

  function Pow10(w: nat): (p: nat)
    ensures p >= 1
  {
    if w == 0 then 1 else 10 * Pow10(w - 1)
  }

  /** The last `w` decimal digits of `n`, most significant first, zero-padded. */
  function PadDigits(n: nat, w: nat): (s: string)
    ensures |s| == w
  {
    if w == 0 then [] else PadDigits(n / 10, w - 1) + [DigitChar(n % 10)]
  }

  lemma {:induction false} PadDigitsAreDigits(n: nat, w: nat)
    ensures AllDigits(PadDigits(n, w))
  {
    if w > 0 {
      PadDigitsAreDigits(n / 10, w - 1);
      var s := PadDigits(n, w);
      assert s == PadDigits(n / 10, w - 1) + [DigitChar(n % 10)];
      forall i | 0 <= i < |s| ensures IsDigit(s[i]) {
        if i < w - 1 {
          assert s[i] == PadDigits(n / 10, w - 1)[i];
        }
      }
    }
  }

  /** The number a string of decimal digits denotes. */
  function DigitsValue(s: string): nat
    requires AllDigits(s)
  {
    if s == [] then 0 else DigitsValue(s[..|s| - 1]) * 10 + DigitValue(s[|s| - 1])
  }

  lemma {:induction false} DigitsValueOfPad(n: nat, w: nat)
    requires n < Pow10(w)
    ensures AllDigits(PadDigits(n, w)) && DigitsValue(PadDigits(n, w)) == n
  {
    PadDigitsAreDigits(n, w);
    if w > 0 {
      var s := PadDigits(n, w);
      var q, r := n / 10, n % 10;
      assert n == q * 10 + r && r < 10;
      assert q < Pow10(w - 1) by {
        assert Pow10(w) == 10 * Pow10(w - 1);
      }
      assert s == PadDigits(q, w - 1) + [DigitChar(r)];
      assert s[..|s| - 1] == PadDigits(q, w - 1);
      assert DigitValue(s[|s| - 1]) == r;
      DigitsValueOfPad(q, w - 1);
      assert DigitsValue(s) == DigitsValue(PadDigits(q, w - 1)) * 10 + r;
    }
  }

  lemma {:induction false} DigitsValueBound(s: string)
    requires AllDigits(s)
    ensures DigitsValue(s) < Pow10(|s|)
  {
    if s != [] {
      DigitsValueBound(s[..|s| - 1]);
    }
  }

  lemma {:induction false} PadOfDigitsValue(s: string)
    requires AllDigits(s)
    ensures PadDigits(DigitsValue(s), |s|) == s
  {
    if s != [] {
      var init := s[..|s| - 1];
      var v := DigitsValue(init);
      assert DigitsValue(s) / 10 == v;
      assert DigitsValue(s) % 10 == DigitValue(s[|s| - 1]);
      PadOfDigitsValue(init);
      assert s == init + [s[|s| - 1]];
    }
  }

  /** The `YYYYMMDD` text of a date whose year has at most four digits. */
  function FormatYmd(d: Date): (s: string)
    ensures |s| == 8
  {
    PadDigits(d.year, 4) + PadDigits(d.month, 2) + PadDigits(d.day, 2)
  }

  /** `str` of a parsed midnight Timestamp column cell: `YYYY-MM-DD`. */
  function FormatIso(d: Date): (s: string)
    ensures |s| == 10
  {
    PadDigits(d.year, 4) + "-" + PadDigits(d.month, 2) + "-" + PadDigits(d.day, 2)
  }

  /**
   * The reader pandas tries first for an ISO-like format (numpy's C datetime parser): exactly
   * eight digits, four for the year, two for the month and two for the day, naming a real day.
   * (Texts it accepts with fewer year digits denote year 0 or a negative year, which no
   * Timestamp holds, so they are left to `None` here.)
   */
  function IsoYmd(s: string): Option<Date> {
    if |s| == 8 && AllDigits(s) then
      var d := Date(DigitsValue(s[..4]), DigitsValue(s[4..6]), DigitsValue(s[6..]));
      if IsValidDate(d) then Some(d) else None
    else None
  }

  predicate IsNonZeroDigit(c: char) {
    '1' <= c <= '9'
  }

  /** A field the strptime pattern matched: how many characters it took and the number it denotes. */
  datatype Field = Field(width: nat, value: nat)

  /**
   * The day group `3[0-1]|[1-2]\d|0[1-9]|[1-9]| [1-9]`, matched at position `p`: the first
   * alternative that matches, in the pattern's order.
   */
  function DayField(s: string, p: nat): (r: Option<Field>)
    ensures r.Some? ==> p + r.value.width <= |s| && 1 <= r.value.width <= 2
  {
    if p + 2 <= |s| && s[p] == '3' && '0' <= s[p + 1] <= '1' then
      Some(Field(2, 30 + DigitValue(s[p + 1])))
    else if p + 2 <= |s| && '1' <= s[p] <= '2' && IsDigit(s[p + 1]) then
      Some(Field(2, 10 * DigitValue(s[p]) + DigitValue(s[p + 1])))
    else if p + 2 <= |s| && s[p] == '0' && IsNonZeroDigit(s[p + 1]) then
      Some(Field(2, DigitValue(s[p + 1])))
    else if p + 1 <= |s| && IsNonZeroDigit(s[p]) then
      Some(Field(1, DigitValue(s[p])))
    else if p + 2 <= |s| && s[p] == ' ' && IsNonZeroDigit(s[p + 1]) then
      Some(Field(2, DigitValue(s[p + 1])))
    else None
  }

  /** What the pattern matched after the year: the month, the day and where the match ends. */
  datatype MonthDay = MonthDay(month: nat, day: nat, end: nat)

  /**
   * The month group `1[0-2]|0[1-9]|[1-9]` at position 4 followed by the day group: `re.match`
   * takes the month alternatives in order and moves to the next one only when no day
   * alternative matches after it. The match need not reach the end of the text.
   */
  function MonthDayFields(s: string): (r: Option<MonthDay>)
    requires |s| >= 4
    ensures r.Some? ==> r.value.end <= |s|
  {
    if 6 <= |s| && s[4] == '1' && '0' <= s[5] <= '2' && DayField(s, 6).Some? then
      Some(MonthDay(10 + DigitValue(s[5]), DayField(s, 6).value.value, 6 + DayField(s, 6).value.width))
    else if 6 <= |s| && s[4] == '0' && IsNonZeroDigit(s[5]) && DayField(s, 6).Some? then
      Some(MonthDay(DigitValue(s[5]), DayField(s, 6).value.value, 6 + DayField(s, 6).value.width))
    else if 5 <= |s| && IsNonZeroDigit(s[4]) && DayField(s, 5).Some? then
      Some(MonthDay(DigitValue(s[4]), DayField(s, 5).value.value, 5 + DayField(s, 5).value.width))
    else None
  }

  /**
   * The reader pandas falls back to when the C reader refuses the text: the strptime pattern
   * `(?P<Y>\d\d\d\d)(?P<m>…)(?P<d>…)` matched at the start, accepted only when the match ends
   * at the end of the text and the fields name a real day.
   */
  function StrptimeYmd(s: string): Option<Date> {
    if |s| >= 4 && AllDigits(s[..4]) then
      match MonthDayFields(s)
      case Some(f) =>
        var d := Date(DigitsValue(s[..4]), f.month, f.day);
        if f.end == |s| && IsValidDate(d) then Some(d) else None
      case None => None
    else None
  }

  /**
   * Reading a text with format `%Y%m%d` and `errors='coerce'`: the C reader, or the strptime
   * pattern when the C reader refuses it; a day no Timestamp can hold is NaT, modelled as `None`.
   */
  function ParseYmd(s: string): (r: Option<Date>)
    ensures r.Some? ==> IsValidDate(r.value) && InTimestampRange(r.value)
  {
    var read := if IsoYmd(s).Some? then IsoYmd(s) else StrptimeYmd(s);
    if read.Some? && InTimestampRange(read.value) then read else None
  }

  /** How a field is written: two digits, one digit, or (the day only) a space and one digit. */
  datatype Width = TwoDigits | OneDigit | SpaceDigit

  function FieldText(n: nat, w: Width): string {
    match w
    case TwoDigits => PadDigits(n, 2)
    case OneDigit => PadDigits(n, 1)
    case SpaceDigit => " " + PadDigits(n, 1)
  }

  /** `d` written as its four year digits, then the month in width `mw`, then the day in width `dw`. */
  function Spelling(d: Date, mw: Width, dw: Width): string {
    PadDigits(d.year, 4) + FieldText(d.month, mw) + FieldText(d.day, dw)
  }

  /** The widths the pattern has an alternative for: one position only below 10, no space before a month. */
  predicate Spellable(d: Date, mw: Width, dw: Width) {
    mw != SpaceDigit && (mw == OneDigit ==> d.month < 10) && (dw != TwoDigits ==> d.day < 10)
  }

  /**
   * The one spelling the pattern reads as another day: January in one digit before a two-digit
   * day below 30 that does not end in 0. `1[0-2]` matches first and the day shrinks to its last
   * digit ("2024105" is 5 October, not 5 January).
   */
  predicate Misread(d: Date, mw: Width, dw: Width) {
    mw == OneDigit && dw == TwoDigits && d.month == 1 && d.day < 30 && d.day % 10 != 0
  }

  /** `s` is a spelling of `d` that the format reads back as `d`. */
  predicate ReadsAs(s: string, d: Date) {
    exists mw: Width, dw: Width :: Spellable(d, mw, dw) && !Misread(d, mw, dw) && s == Spelling(d, mw, dw)
  }

  /**
   * A text converts to `d` exactly when it spells `d` in one of the ways the format reads back
   * (`YYYYMMDD` among them) and `d` is a real day a Timestamp can hold.
   */
  lemma ParseYmdIff(s: string, d: Date)
    ensures ParseYmd(s) == Some(d) <==> IsValidDate(d) && InTimestampRange(d) && ReadsAs(s, d)
  {
    ParseYmdIsStrptime(s);
    if ParseYmd(s) == Some(d) {
      StrptimeSpells(s);
    }
    if IsValidDate(d) && InTimestampRange(d) && ReadsAs(s, d) {
      var mw, dw :| Spellable(d, mw, dw) && !Misread(d, mw, dw) && s == Spelling(d, mw, dw);
      StrptimeReadsSpelling(d, mw, dw);
    }
  }

  /** `YYYYMMDD` of a real, representable day converts to that day. */
  lemma FormattedDayParses(d: Date)
    requires IsValidDate(d) && InTimestampRange(d)
    ensures ParseYmd(FormatYmd(d)) == Some(d)
  {
    assert FormatYmd(d) == Spelling(d, TwoDigits, TwoDigits);
    ParseYmdIff(FormatYmd(d), d);
  }

  /** The C reader is a shortcut: whatever it accepts, the pattern reads the same way. */
  lemma IsoAgreesWithStrptime(s: string)
    requires IsoYmd(s).Some?
    ensures StrptimeYmd(s) == IsoYmd(s)
  {
    var d := IsoYmd(s).value;
    assert d.year < 10000 by {
      DigitSlice(s, 0, 4);
      DigitsValueBound(s[..4]);
      assert Pow10(4) == 10000;
    }
    IsoTextIsFormatted(s);
    assert s == Spelling(d, TwoDigits, TwoDigits);
    StrptimeReadsSpelling(d, TwoDigits, TwoDigits);
  }

  /** So the conversion is the pattern's reading, bounded to the Timestamp range. */
  lemma ParseYmdIsStrptime(s: string)
    ensures ParseYmd(s) == if StrptimeYmd(s).Some? && InTimestampRange(StrptimeYmd(s).value) then StrptimeYmd(s) else None
  {
    if IsoYmd(s).Some? {
      IsoAgreesWithStrptime(s);
    }
  }

  /** A text the C reader accepts is the `YYYYMMDD` text of the day it reads. */
  lemma IsoTextIsFormatted(s: string)
    requires IsoYmd(s).Some?
    ensures s == FormatYmd(IsoYmd(s).value)
  {
    var y, m, dd := s[0..4], s[4..6], s[6..8];
    var d := IsoYmd(s).value;
    assert PadDigits(d.year, 4) == y by {
      DigitSlice(s, 0, 4);
      assert s[..4] == y;
      PadOfDigitsValue(y);
    }
    assert PadDigits(d.month, 2) == m by {
      DigitSlice(s, 4, 6);
      PadOfDigitsValue(m);
    }
    assert PadDigits(d.day, 2) == dd by {
      DigitSlice(s, 6, 8);
      assert s[6..] == dd;
      PadOfDigitsValue(dd);
    }
    assert s == y + m + dd;
  }

  /** The one- and two-digit texts of a number, character by character. */
  lemma ShortPads(n: nat)
    ensures PadDigits(n, 1) == [DigitChar(n % 10)]
    ensures PadDigits(n, 2) == [DigitChar(n / 10 % 10), DigitChar(n % 10)]
  {
    assert PadDigits(n / 10, 1) == [DigitChar(n / 10 % 10)];
  }

  /** The day group reads a day spelled in any width to the end of the text as that day. */
  lemma DayFieldReads(s: string, p: nat, day: nat, dw: Width)
    requires p <= |s| && s[p..] == FieldText(day, dw)
    requires 1 <= day <= 31 && (dw != TwoDigits ==> day < 10)
    ensures DayField(s, p) == Some(Field(|s| - p, day))
  {
    ShortPads(day);
    assert s[p..][0] == s[p];
    match dw
    case TwoDigits =>
      assert s[p] == DigitChar(day / 10 % 10) && s[p + 1] == s[p..][1] == DigitChar(day % 10);
    case OneDigit =>
    case SpaceDigit =>
      assert s[p + 1] == s[p..][1];
  }

  /** What the day group matched is the day spelled in some width. */
  lemma DayFieldText(s: string, p: nat) returns (dw: Width)
    requires DayField(s, p).Some?
    ensures var f := DayField(s, p).value;
      1 <= f.value <= 31 && (dw != TwoDigits ==> f.value < 10) && s[p..p + f.width] == FieldText(f.value, dw)
  {
    var f := DayField(s, p).value;
    ShortPads(f.value);
    if f.width == 1 {
      dw := OneDigit;
    } else if s[p] == ' ' {
      dw := SpaceDigit;
    } else {
      dw := TwoDigits;
    }
  }

  /** What the pattern reads is a real day, spelled in a way it reads back. */
  lemma StrptimeSpells(s: string)
    requires StrptimeYmd(s).Some?
    ensures IsValidDate(StrptimeYmd(s).value) && ReadsAs(s, StrptimeYmd(s).value)
  {
    var d := StrptimeYmd(s).value;
    var mw, q := MonthFieldText(s);
    var dw := DayFieldText(s, q);
    assert s[q..] == FieldText(d.day, dw);
    PadOfDigitsValue(s[..4]);
    AssembleSpelling(s, d, mw, dw, q);
    if mw == OneDigit {
      MisreadWouldMatchOctober(s, d, dw);
    }
    assert Spellable(d, mw, dw) && !Misread(d, mw, dw) && s == Spelling(d, mw, dw);
  }

  /** Which month alternative matched, and the month it read spelled in that width. */
  lemma MonthFieldText(s: string) returns (mw: Width, q: nat)
    requires |s| >= 4 && MonthDayFields(s).Some?
    ensures var f := MonthDayFields(s).value;
      mw != SpaceDigit && (mw == OneDigit ==> f.month < 10 && q == 5) && (mw == TwoDigits ==> q == 6) &&
      4 <= q <= |s| && s[4..q] == FieldText(f.month, mw) &&
      DayField(s, q).Some? && f.day == DayField(s, q).value.value && f.end == q + DayField(s, q).value.width &&
      (mw == OneDigit ==> !(6 <= |s| && s[4] == '1' && '0' <= s[5] <= '2' && DayField(s, 6).Some?))
  {
    var f := MonthDayFields(s).value;
    ShortPads(f.month);
    if 6 <= |s| && s[4] == '1' && '0' <= s[5] <= '2' && DayField(s, 6).Some? {
      assert f.month / 10 % 10 == 1 && f.month % 10 == DigitValue(s[5]);
      assert s[4..6] == [s[4], s[5]];
      mw, q := TwoDigits, 6;
    } else if 6 <= |s| && s[4] == '0' && IsNonZeroDigit(s[5]) && DayField(s, 6).Some? {
      assert f.month / 10 % 10 == 0 && f.month % 10 == DigitValue(s[5]);
      assert s[4..6] == [s[4], s[5]];
      mw, q := TwoDigits, 6;
    } else {
      assert f.month == DigitValue(s[4]);
      assert s[4..5] == [s[4]];
      mw, q := OneDigit, 5;
    }
  }

  /** The year, month and day texts side by side make up the spelling. */
  lemma AssembleSpelling(s: string, d: Date, mw: Width, dw: Width, q: nat)
    requires 4 <= q <= |s| && s[..4] == PadDigits(d.year, 4)
    requires s[4..q] == FieldText(d.month, mw) && s[q..] == FieldText(d.day, dw)
    ensures s == Spelling(d, mw, dw)
  {
    assert s == s[..4] + s[4..q] + s[q..];
  }

  /**
   * A one-digit January before a two-digit day of the misread kind would have let the first
   * month alternative `1[0-2]` match, with the day's last digit as the day.
   */
  lemma MisreadWouldMatchOctober(s: string, d: Date, dw: Width)
    requires |s| >= 5 && s[4..5] == FieldText(d.month, OneDigit) && s[5..] == FieldText(d.day, dw)
    ensures Misread(d, OneDigit, dw) ==> 6 <= |s| && s[4] == '1' && '0' <= s[5] <= '2' && DayField(s, 6).Some?
  {
    ShortPads(d.month);
    ShortPads(d.day);
    assert s[4] == s[4..5][0];
    if dw == TwoDigits {
      assert s[5] == s[5..][0] && s[6] == s[5..][1];
    }
  }

  /** The month group and day group on a spelling of `d` that is not misread give `d`'s month and day. */
  lemma MonthDayOfSpelling(d: Date, mw: Width, dw: Width)
    requires IsValidDate(d) && Spellable(d, mw, dw) && !Misread(d, mw, dw)
    ensures var s := Spelling(d, mw, dw);
      |s| >= 4 && MonthDayFields(s) == Some(MonthDay(d.month, d.day, |s|))
  {
    var s := Spelling(d, mw, dw);
    var q := 4 + |FieldText(d.month, mw)|;
    assert s[4..q] == FieldText(d.month, mw) && s[q..] == FieldText(d.day, dw);
    DayFieldReads(s, q, d.day, dw);
    if mw == TwoDigits {
      TwoDigitMonthReads(s, d.month, d.day);
    } else {
      OneDigitMonthReads(s, d, dw);
    }
  }

  /** After a two-digit month the first month alternative that fits is the one that reads it. */
  lemma TwoDigitMonthReads(s: string, month: nat, day: nat)
    requires 6 <= |s| && 1 <= month <= 12 && s[4..6] == PadDigits(month, 2)
    requires DayField(s, 6) == Some(Field(|s| - 6, day))
    ensures MonthDayFields(s) == Some(MonthDay(month, day, |s|))
  {
    ShortPads(month);
    assert s[4] == s[4..6][0] && s[5] == s[4..6][1];
  }

  /**
   * A one-digit month is read by the third alternative: the first two need `0` or a `1` followed
   * by a day that leaves a match, which only the misread spelling gives.
   */
  lemma OneDigitMonthReads(s: string, d: Date, dw: Width)
    requires IsValidDate(d) && d.month < 10 && !Misread(d, OneDigit, dw) && (dw != TwoDigits ==> d.day < 10)
    requires 5 <= |s| && s[4..5] == PadDigits(d.month, 1) && s[5..] == FieldText(d.day, dw)
    requires DayField(s, 5) == Some(Field(|s| - 5, d.day))
    ensures MonthDayFields(s) == Some(MonthDay(d.month, d.day, |s|))
  {
    ShortPads(d.month);
    assert s[4] == s[4..5][0];
    if d.month == 1 {
      ShortPads(d.day);
      match dw
      case TwoDigits =>
        assert s[5] == s[5..][0] && s[6] == s[5..][1];
        assert !('0' <= s[5] <= '2') || DayField(s, 6).None?;
      case OneDigit =>
      case SpaceDigit =>
        assert s[5] == s[5..][0];
    }
  }

  /** The pattern reads every spelling of a real day with a four-digit year that it does not misread. */
  lemma StrptimeReadsSpelling(d: Date, mw: Width, dw: Width)
    requires IsValidDate(d) && d.year < 10000 && Spellable(d, mw, dw) && !Misread(d, mw, dw)
    ensures StrptimeYmd(Spelling(d, mw, dw)) == Some(d)
  {
    var s := Spelling(d, mw, dw);
    assert Pow10(4) == 10000;
    DigitsValueOfPad(d.year, 4);
    assert s[..4] == PadDigits(d.year, 4);
    MonthDayOfSpelling(d, mw, dw);
  }

  /** A slice of a digit string is a digit string. */
  lemma DigitSlice(s: string, i: nat, j: nat)
    requires AllDigits(s) && i <= j <= |s|
    ensures AllDigits(s[i..j])
  {
    forall k | 0 <= k < j - i ensures IsDigit(s[i..j][k]) {
      assert s[i..j][k] == s[i + k];
    }
  }

  /** The three fields of a `YYYYMMDD` text read back as the date's year, month and day. */
  lemma FormattedFields(d: Date)
    requires d.year < 10000 && d.month < 100 && d.day < 100
    ensures var s := FormatYmd(d);
      AllDigits(s) && AllDigits(s[..4]) && AllDigits(s[4..6]) && AllDigits(s[6..]) &&
      DigitsValue(s[..4]) == d.year && DigitsValue(s[4..6]) == d.month && DigitsValue(s[6..]) == d.day
  {
    var s := FormatYmd(d);
    assert s[..4] == PadDigits(d.year, 4);
    assert s[4..6] == PadDigits(d.month, 2);
    assert s[6..] == PadDigits(d.day, 2);
    assert Pow10(2) == 100;
    assert Pow10(4) == 10000;
    DigitsValueOfPad(d.year, 4);
    DigitsValueOfPad(d.month, 2);
    DigitsValueOfPad(d.day, 2);
    forall i | 0 <= i < 8 ensures IsDigit(s[i]) {
      if i < 4 {
        assert s[i] == s[..4][i];
      } else if i < 6 {
        assert s[i] == s[4..6][i - 4];
      } else {
        assert s[i] == s[6..][i - 6];
      }
    }
  }

  /** A real day outside the Timestamp range is NaT although its `YYYYMMDD` text is well formed. */
  lemma OutOfBoundsDayIsNaT(d: Date)
    requires IsValidDate(d) && d.year < 10000 && !InTimestampRange(d)
    ensures ParseYmd(FormatYmd(d)) == None
  {
    ParseYmdIsStrptime(FormatYmd(d));
    assert FormatYmd(d) == Spelling(d, TwoDigits, TwoDigits);
    StrptimeReadsSpelling(d, TwoDigits, TwoDigits);
  }

  /** A `YYYY-MM-DD` text, as a converted column renders, never matches `%Y%m%d`. */
  lemma IsoTextIsNotYmd(d: Date)
    ensures ParseYmd(FormatIso(d)) == None
  {
    var s := FormatIso(d);
    assert s[4] == '-';
    ParseYmdIsStrptime(s);
  }
}
