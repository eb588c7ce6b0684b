/**
 * Proleptic Gregorian calendar dates and the `YYYY-MM-DD` text form that
 * `addDays` in components/CreateRecurringSessionsModal.tsx reads and writes.
 * Day addition is done on calendar dates, one day at a time, and checked
 * against an independent day count.
 */
module CivilDate {
  import opened Wrappers
  import opened Decimal

  datatype Date = Date(year: int, month: int, day: int)

  predicate IsLeapYear(y: int) {
    y % 4 == 0 && (y % 100 != 0 || y % 400 == 0)
  }

  function DaysInMonth(y: int, m: int): int
    requires 1 <= m <= 12
  {
    if m == 2 then (if IsLeapYear(y) then 29 else 28)
    else if m == 4 || m == 6 || m == 9 || m == 11 then 30
    else 31
  }

  predicate Valid(d: Date) {
    1 <= d.month <= 12 && 1 <= d.day <= DaysInMonth(d.year, d.month)
  }

  /** The calendar's next day. */
  function NextDay(d: Date): (r: Date)
    requires Valid(d)
    ensures Valid(r)
  {
    if d.day < DaysInMonth(d.year, d.month) then Date(d.year, d.month, d.day + 1)
    else if d.month < 12 then Date(d.year, d.month + 1, 1)
    else Date(d.year + 1, 1, 1)
  }

  /** The calendar's previous day. */
  function PrevDay(d: Date): (r: Date)
    requires Valid(d)
    ensures Valid(r)
  {
    if d.day > 1 then Date(d.year, d.month, d.day - 1)
    else if d.month > 1 then Date(d.year, d.month - 1, DaysInMonth(d.year, d.month - 1))
    else Date(d.year - 1, 12, 31)
  }

  /** Stepping forward and back are inverse. */
  lemma NextPrevInverse(d: Date)
    requires Valid(d)
    ensures PrevDay(NextDay(d)) == d
    ensures NextDay(PrevDay(d)) == d
  {
  }

  /** `n` days after `d`, counted on the calendar with no time of day involved. */
  function AddDays(d: Date, n: nat): (r: Date)
    requires Valid(d)
    ensures Valid(r)
    decreases n
  {
    if n == 0 then d else AddDays(NextDay(d), n - 1)
  }

  /** Adding `a` days and then `b` days is adding `a + b` days. */
  lemma {:induction false} AddDaysAdditive(d: Date, a: nat, b: nat)
    requires Valid(d)
    ensures AddDays(AddDays(d, a), b) == AddDays(d, a + b)
    decreases a
  {
    if a > 0 {
      AddDaysAdditive(NextDay(d), a - 1, b);
    }
  }

  function YearLength(y: int): int {
    if IsLeapYear(y) then 366 else 365
  }

  /** Days from 0000-01-01 to the first day of year `y` (negative before year 0). */
  function DaysBeforeYear(y: int): int
    decreases if y >= 0 then y else -y
  {
    if y == 0 then 0
    else if y > 0 then DaysBeforeYear(y - 1) + YearLength(y - 1)
    else DaysBeforeYear(y + 1) - YearLength(y)
  }

  /** Days from January 1 to the first day of month `m` of year `y`. */
  function DaysBeforeMonth(y: int, m: int): int
    requires 1 <= m <= 12
  {
    var leapDay := if m > 2 && IsLeapYear(y) then 1 else 0;
    leapDay +
      (if m == 1 then 0 else if m == 2 then 31 else if m == 3 then 59
       else if m == 4 then 90 else if m == 5 then 120 else if m == 6 then 151
       else if m == 7 then 181 else if m == 8 then 212 else if m == 9 then 243
       else if m == 10 then 273 else if m == 11 then 304 else 334)
  }

  /** The day count of a date since 0000-01-01: the reference that calendar stepping is checked against. */
  function DayNumber(d: Date): int
    requires Valid(d)
  {
    DaysBeforeYear(d.year) + DaysBeforeMonth(d.year, d.month) + d.day - 1
  }

  /** The next day is one day later on the count. */
  lemma NextDayNumber(d: Date)
    requires Valid(d)
    ensures DayNumber(NextDay(d)) == DayNumber(d) + 1
  {
    if d.day == DaysInMonth(d.year, d.month) && d.month == 12 {
      assert DaysBeforeYear(d.year + 1) == DaysBeforeYear(d.year) + YearLength(d.year);
    }
  }

  /** `AddDays` moves exactly `n` days along the count, so different offsets give different dates. */
  lemma {:induction false} AddDaysNumber(d: Date, n: nat)
    requires Valid(d)
    ensures DayNumber(AddDays(d, n)) == DayNumber(d) + n
    decreases n
  {
    if n > 0 {
      NextDayNumber(d);
      AddDaysNumber(NextDay(d), n - 1);
    }
  }

  /** Lexicographic order on (year, month, day). */
  predicate DateLeq(a: Date, b: Date) {
    a.year < b.year || (a.year == b.year && (a.month < b.month || (a.month == b.month && a.day <= b.day)))
  }

  /** The first and last days a JavaScript `Date` can hold (100,000,000 days either side of 1970-01-01). */
  const MinJsDate := Date(-271821, 4, 20)
  const MaxJsDate := Date(275760, 9, 13)

  predicate InJsRange(d: Date) {
    DateLeq(MinJsDate, d) && DateLeq(d, MaxJsDate)
  }

  /**
   * The first ten characters of `Date.prototype.toISOString` at midnight UTC
   * of `d`: `YYYY-MM-DD` for years 0 to 9999; outside them the year is
   * written with a sign and six digits, and the ten characters end after the month.
   */
  function IsoDate(d: Date): (s: string)
    requires Valid(d) && InJsRange(d)
    ensures |s| == 10
  {
    var tail := "-" + Padded(d.month, 2) + "-" + Padded(d.day, 2);
    if 0 <= d.year <= 9999 then Padded(d.year, 4) + tail
    else if d.year > 9999 then ("+" + Padded(d.year, 6) + tail)[..10]
    else ("-" + Padded(-d.year, 6) + tail)[..10]
  }

  /** Reading a `YYYY-MM-DD` string; anything that is not a calendar date in that form is refused. */
  function ParseIsoDate(s: string): (r: Option<Date>)
    ensures r.Some? ==> Valid(r.value) && 0 <= r.value.year <= 9999
  {
    if |s| == 10 && s[4] == '-' && s[7] == '-'
       && (forall i :: 0 <= i < 10 && i != 4 && i != 7 ==> IsDigit(s[i]))
    then
      assert forall i :: 0 <= i < 4 ==> s[..4][i] == s[i];
      var d := Date(DecimalValue(s[..4]), DecimalValue(s[5..7]), DecimalValue(s[8..10]));
      ValuePadded(s[..4]);
      if Valid(d) then Some(d) else None
    else
      None
  }

  /** Formatting then reading gives the date back (four-digit years). */
  lemma ParseFormatsBack(d: Date)
    requires Valid(d) && 0 <= d.year <= 9999
    ensures InJsRange(d) && ParseIsoDate(IsoDate(d)) == Some(d)
  {
    assert InJsRange(d);
    var s := IsoDate(d);
    IsoDateFields(d);
    assert Pow10(2) == 100 && Pow10(4) == 10000;
    PaddedValue(d.year, 4);
    PaddedValue(d.month, 2);
    PaddedValue(d.day, 2);
  }

  /** Where the fields of a four-digit-year `IsoDate` sit. */
  lemma IsoDateFields(d: Date)
    requires Valid(d) && 0 <= d.year <= 9999 && InJsRange(d)
    ensures var s := IsoDate(d);
      && s[4] == '-' && s[7] == '-'
      && (forall i :: 0 <= i < 10 && i != 4 && i != 7 ==> IsDigit(s[i]))
      && s[..4] == Padded(d.year, 4)
      && s[5..7] == Padded(d.month, 2)
      && s[8..10] == Padded(d.day, 2)
  {
    var y, m, dd := Padded(d.year, 4), Padded(d.month, 2), Padded(d.day, 2);
    var s := IsoDate(d);
    assert s == y + "-" + m + "-" + dd;
    assert s[..4] == y && s[5..7] == m && s[8..10] == dd;
  }

  /** Reading then formatting gives the string back: the reader accepts only the canonical form. */
  lemma FormatParsesBack(s: string)
    requires ParseIsoDate(s).Some?
    ensures InJsRange(ParseIsoDate(s).value) && IsoDate(ParseIsoDate(s).value) == s
  {
    var d := ParseIsoDate(s).value;
    ValuePadded(s[..4]);
    ValuePadded(s[5..7]);
    ValuePadded(s[8..10]);
    assert s == s[..4] + "-" + s[5..7] + "-" + s[8..10];
  }

  /**
   * `addDays(dateStr, days)` as the model takes it: calendar addition,
   * independent of the host's time zone. `None` where the source throws:
   * an unreadable date, or a result beyond what a `Date` can hold.
   */
  function AddDaysToIsoDate(dateStr: string, days: nat): (r: Option<string>)
    ensures ParseIsoDate(dateStr).None? ==> r.None?
  {
    match ParseIsoDate(dateStr)
    case None => None
    case Some(d) =>
      var e := AddDays(d, days);
      if InJsRange(e) then Some(IsoDate(e)) else None
  }

  /** Adding no days returns the date unchanged. */
  lemma AddZeroDays(dateStr: string)
    requires ParseIsoDate(dateStr).Some?
    ensures AddDaysToIsoDate(dateStr, 0) == Some(dateStr)
  {
    FormatParsesBack(dateStr);
  }

  /** The result lies exactly `days` days after the start on the day count. */
  lemma AddDaysToIsoDateCounts(dateStr: string, days: nat)
    requires ParseIsoDate(dateStr).Some?
    requires var e := AddDays(ParseIsoDate(dateStr).value, days); 0 <= e.year <= 9999
    ensures AddDaysToIsoDate(dateStr, days).Some?
    ensures var d := ParseIsoDate(dateStr).value;
      var r := ParseIsoDate(AddDaysToIsoDate(dateStr, days).value);
      r.Some? && DayNumber(r.value) == DayNumber(d) + days
  {
    var d := ParseIsoDate(dateStr).value;
    var e := AddDays(d, days);
    ParseFormatsBack(e);
    AddDaysNumber(d, days);
  }

  /**
   * `addDays` as written: it builds LOCAL midnight of the date, steps the
   * local calendar, and renders the UTC date of that instant. With
   * `offsetMinutes` the host's `getTimezoneOffset()` (UTC minus local time)
   * in effect at the resulting local midnight, that midnight falls on the
   * previous UTC day whenever the offset is negative.
   */
  function AddDaysInZone(dateStr: string, days: nat, offsetMinutes: int): (r: Option<string>)
    requires -1440 < offsetMinutes < 1440
    ensures ParseIsoDate(dateStr).None? ==> r.None?
    ensures r.Some? ==> |r.value| == 10
  {
    match ParseIsoDate(dateStr)
    case None => None
    case Some(d) =>
      var e := AddDays(d, days);
      var utcDay := if offsetMinutes < 0 then PrevDay(e) else e;
      if InJsRange(utcDay) then Some(IsoDate(utcDay)) else None
  }

  /** West of UTC (and at UTC) the written code agrees with calendar addition. */
  lemma InZoneWestAgrees(dateStr: string, days: nat, offsetMinutes: int)
    requires 0 <= offsetMinutes < 1440
    ensures AddDaysInZone(dateStr, days, offsetMinutes) == AddDaysToIsoDate(dateStr, days)
  {
  }

  /** East of UTC it returns the day before, for every date and every offset. */
  lemma InZoneEastIsOneDayEarly(dateStr: string, days: nat, offsetMinutes: int)
    requires -1440 < offsetMinutes < 0
    requires ParseIsoDate(dateStr).Some?
    requires var e := AddDays(ParseIsoDate(dateStr).value, days); 1 <= e.year <= 9999
    ensures AddDaysInZone(dateStr, days, offsetMinutes).Some?
    ensures AddDaysToIsoDate(dateStr, days).Some?
    ensures var early := ParseIsoDate(AddDaysInZone(dateStr, days, offsetMinutes).value);
      var right := ParseIsoDate(AddDaysToIsoDate(dateStr, days).value);
      early.Some? && right.Some? && NextDay(early.value) == right.value
  {
    var e := AddDays(ParseIsoDate(dateStr).value, days);
    ParseFormatsBack(e);
    ParseFormatsBack(PrevDay(e));
    NextPrevInverse(e);
  }

  lemma IsoDateExamples()
    ensures IsoDate(Date(2024, 1, 1)) == "2024-01-01"
    ensures IsoDate(Date(2023, 12, 31)) == "2023-12-31"
  {
    PaddedExamples();
  }

  /** The concrete case: at UTC+1, adding no days to 2024-01-01 gives 2023-12-31. */
  lemma InZoneCounterexample()
    ensures AddDaysInZone("2024-01-01", 0, -60) == Some("2023-12-31")
    ensures AddDaysToIsoDate("2024-01-01", 0) == Some("2024-01-01")
  {
    var d := Date(2024, 1, 1);
    var prev := Date(2023, 12, 31);
    IsoDateExamples();
    ParseFormatsBack(d);
    assert ParseIsoDate("2024-01-01") == Some(d);
    assert AddDays(d, 0) == d;
    assert PrevDay(d) == prev;
    assert InJsRange(d) && InJsRange(prev);
  }
}
