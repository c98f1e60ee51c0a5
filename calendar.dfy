/**
 * The part of the JavaScript `Date` machinery the application relies on:
 * time values in milliseconds since 1970-01-01T00:00Z on the proleptic
 * Gregorian calendar, the ISO text `toISOString` writes, and the ISO forms
 * the `Date` constructor reads. The model runs in a UTC time zone, so a
 * local date-time reads and writes exactly like a UTC one.
 */
module Calendar {
  import opened Strings
  import opened Wrappers

  const MS_PER_SECOND: int := 1000
  const MS_PER_MINUTE: int := 60 * 1000
  const MS_PER_HOUR: int := 60 * 60 * 1000
  const MS_PER_DAY: int := 24 * 60 * 60 * 1000

  /** A `Date` object: a time value, or the invalid date (`NaN` time value). */
  datatype JsDate = Time(ms: int) | InvalidDate

  predicate IsLeapYear(y: int) {
    y % 4 == 0 && (y % 100 != 0 || y % 400 == 0)
  }

  function DaysInYear(y: int): int {
    if IsLeapYear(y) then 366 else 365
  }

  function DaysInMonth(y: int, m: int): (n: int)
    requires 1 <= m <= 12
    ensures 28 <= n <= 31
  {
    if m == 2 then (if IsLeapYear(y) then 29 else 28)
    else if m == 4 || m == 6 || m == 9 || m == 11 then 30
    else 31
  }

  /** Days from 1970-01-01 to January 1 of year `y`. */
  function DaysBeforeYear(y: int): int {
    var p := y - 1;
    365 * (y - 1970) + (p / 4 - p / 100 + p / 400) - 477
  }

  lemma DaysBeforeNextYear(y: int)
    ensures DaysBeforeYear(y + 1) == DaysBeforeYear(y) + DaysInYear(y)
  {
    QuotientStep4(y);
    QuotientStep100(y);
    QuotientStep400(y);
    if y % 100 == 0 { CenturyDivisibleBy4(y); }
    if y % 400 == 0 { FourCenturiesDivisibleBy100(y); }
  }

  lemma CenturyDivisibleBy4(y: int)
    requires y % 100 == 0
    ensures y % 4 == 0
  {
    assert y == 4 * (25 * (y / 100));
  }

  lemma FourCenturiesDivisibleBy100(y: int)
    requires y % 400 == 0
    ensures y % 100 == 0
  {
    assert y == 100 * (4 * (y / 400));
  }

  lemma QuotientStep4(y: int)
    ensures y / 4 - (y - 1) / 4 == if y % 4 == 0 then 1 else 0
  {
    var q, r := (y - 1) / 4, (y - 1) % 4;
    if r == 3 {
      assert y == 4 * (q + 1);
    } else {
      assert y == 4 * q + (r + 1);
    }
  }

  lemma QuotientStep100(y: int)
    ensures y / 100 - (y - 1) / 100 == if y % 100 == 0 then 1 else 0
  {
    var q, r := (y - 1) / 100, (y - 1) % 100;
    if r == 99 {
      assert y == 100 * (q + 1);
    } else {
      assert y == 100 * q + (r + 1);
    }
  }

  lemma QuotientStep400(y: int)
    ensures y / 400 - (y - 1) / 400 == if y % 400 == 0 then 1 else 0
  {
    var q, r := (y - 1) / 400, (y - 1) % 400;
    if r == 399 {
      assert y == 400 * (q + 1);
    } else {
      assert y == 400 * q + (r + 1);
    }
  }

  lemma {:induction false} DaysBeforeYearMonotone(y: int, y': int)
    requires y < y'
    ensures DaysBeforeYear(y) + 365 * (y' - y) <= DaysBeforeYear(y')
    ensures DaysBeforeYear(y') <= DaysBeforeYear(y) + 366 * (y' - y)
    decreases y' - y
  {
    DaysBeforeNextYear(y);
    if y + 1 < y' {
      DaysBeforeYearMonotone(y + 1, y');
    }
  }

  /** Days from January 1 to the first of month `m` (`m == 13` gives the year length). */
  function DaysBeforeMonth(y: int, m: int): (n: int)
    requires 1 <= m <= 13
    ensures 0 <= n <= 366
  {
    var common := [0, 31, 59, 90, 120, 151, 181, 212, 243, 273, 304, 334, 365][m - 1];
    if m > 2 && IsLeapYear(y) then common + 1 else common
  }

  lemma DaysBeforeNextMonth(y: int, m: int)
    requires 1 <= m <= 12
    ensures DaysBeforeMonth(y, m + 1) == DaysBeforeMonth(y, m) + DaysInMonth(y, m)
  {
  }

  lemma DaysBeforeMonthsOfYear(y: int)
    ensures DaysBeforeMonth(y, 13) == DaysInYear(y)
  {
  }

  lemma DaysBeforeMonthMonotone(y: int, m: int, m': int)
    requires 1 <= m < m' <= 13
    ensures DaysBeforeMonth(y, m) + 28 * (m' - m) <= DaysBeforeMonth(y, m')
  {
  }

  datatype CivilDate = CivilDate(year: int, month: int, day: int)

  predicate ValidDate(d: CivilDate) {
    1 <= d.month <= 12 && 1 <= d.day <= DaysInMonth(d.year, d.month)
  }

  /** Days since 1970-01-01 of a calendar date. */
  function DayNumber(d: CivilDate): int
    requires ValidDate(d)
  {
    DaysBeforeYear(d.year) + DaysBeforeMonth(d.year, d.month) + d.day - 1
  }

  lemma DayNumberInYear(d: CivilDate)
    requires ValidDate(d)
    ensures DaysBeforeYear(d.year) <= DayNumber(d) < DaysBeforeYear(d.year + 1)
  {
    DaysBeforeNextYear(d.year);
    if d.month < 12 {
      DaysBeforeMonthMonotone(d.year, d.month + 1, 13);
    }
  }

  /** The year whose days contain day number `z`, searched upward from `y`. */
  function YearFrom(z: int, y: int): (r: int)
    requires DaysBeforeYear(y) <= z
    ensures DaysBeforeYear(r) <= z < DaysBeforeYear(r + 1)
    decreases z - DaysBeforeYear(y)
  {
    DaysBeforeNextYear(y);
    if DaysBeforeYear(y + 1) <= z then YearFrom(z, y + 1) else y
  }

  function YearOfDay(z: int): (r: int)
    ensures DaysBeforeYear(r) <= z < DaysBeforeYear(r + 1)
  {
    var y0 := if z >= 0 then 1970 + z / 366 else 1970 + z / 365;
    assert DaysBeforeYear(y0) <= z by {
      if y0 > 1970 {
        DaysBeforeYearMonotone(1970, y0);
      } else if y0 < 1970 {
        DaysBeforeYearMonotone(y0, 1970);
      }
    }
    YearFrom(z, y0)
  }

  /** The month of year `y` holding day `r` of the year, searched upward from `m`. */
  function MonthFrom(y: int, r: int, m: int): (res: int)
    requires 1 <= m <= 12 && DaysBeforeMonth(y, m) <= r < DaysInYear(y)
    ensures m <= res <= 12 && DaysBeforeMonth(y, res) <= r < DaysBeforeMonth(y, res + 1)
    decreases 12 - m
  {
    if m < 12 && DaysBeforeMonth(y, m + 1) <= r then MonthFrom(y, r, m + 1) else m
  }

  /** The calendar date of day number `z`. */
  function CivilFromDays(z: int): (d: CivilDate)
    ensures ValidDate(d) && DayNumber(d) == z
  {
    var y := YearOfDay(z);
    DaysBeforeNextYear(y);
    var r := z - DaysBeforeYear(y);
    DateInYear(y, r);
    var m := MonthFrom(y, r, 1);
    CivilDate(y, m, r - DaysBeforeMonth(y, m) + 1)
  }

  /** Day `r` (from 0) of year `y` falls in the month `MonthFrom` finds, on a day that month has. */
  lemma DateInYear(y: int, r: int)
    requires 0 <= r < DaysInYear(y)
    ensures var m := MonthFrom(y, r, 1);
      ValidDate(CivilDate(y, m, r - DaysBeforeMonth(y, m) + 1))
  {
    DaysBeforeNextMonth(y, MonthFrom(y, r, 1));
  }

  lemma SameYear(a: CivilDate, b: CivilDate)
    requires ValidDate(a) && ValidDate(b) && DayNumber(a) == DayNumber(b)
    ensures a.year == b.year
  {
    DayNumberInYear(a);
    DayNumberInYear(b);
    if a.year < b.year {
      if a.year + 1 < b.year { DaysBeforeYearMonotone(a.year + 1, b.year); }
    } else if b.year < a.year {
      if b.year + 1 < a.year { DaysBeforeYearMonotone(b.year + 1, a.year); }
    }
  }

  /** Distinct valid dates have distinct day numbers. */
  lemma DayNumberInjective(a: CivilDate, b: CivilDate)
    requires ValidDate(a) && ValidDate(b) && DayNumber(a) == DayNumber(b)
    ensures a == b
  {
    SameYear(a, b);
    var y := a.year;
    DaysBeforeNextMonth(y, a.month);
    DaysBeforeNextMonth(y, b.month);
    if a.month < b.month {
      DaysBeforeMonthMonotone(y, a.month + 1, b.month + 1);
    } else if b.month < a.month {
      DaysBeforeMonthMonotone(y, b.month + 1, a.month + 1);
    }
  }

  /** Converting a valid calendar date to its day number and back is the identity. */
  lemma CivilFromDayNumber(d: CivilDate)
    requires ValidDate(d)
    ensures CivilFromDays(DayNumber(d)) == d
  {
    DayNumberInjective(CivilFromDays(DayNumber(d)), d);
  }

  /** The broken-down form of a time value, as the `getUTC…` accessors give it. */
  datatype DateTime = DateTime(date: CivilDate, hour: int, minute: int, second: int, millisecond: int)

  predicate ValidDateTime(t: DateTime) {
    ValidDate(t.date) && 0 <= t.hour < 24 && 0 <= t.minute < 60 && 0 <= t.second < 60
    && 0 <= t.millisecond < 1000
  }

  /** Milliseconds since midnight of the clock fields. */
  function TimeWithinDay(t: DateTime): int {
    t.hour * 3600000 + t.minute * 60000 + t.second * 1000 + t.millisecond
  }

  /** `Date.UTC(y, m - 1, d, h, min, s, ms)` for in-range fields. */
  function TimeOf(t: DateTime): int
    requires ValidDate(t.date)
  {
    DayNumber(t.date) * 86400000 + TimeWithinDay(t)
  }

  lemma SplitWithinDay(rem: int)
    requires 0 <= rem < 86400000
    ensures var h, m, sec, milli := rem / 3600000, rem % 3600000 / 60000, rem % 60000 / 1000, rem % 1000;
      0 <= h < 24 && 0 <= m < 60 && 0 <= sec < 60 && 0 <= milli < 1000
      && h * 3600000 + m * 60000 + sec * 1000 + milli == rem
  {
    var r1 := rem % 3600000;
    assert rem == rem / 3600000 * 3600000 + r1;
    assert r1 % 60000 == rem % 60000;
    var r2 := r1 % 60000;
    assert r1 == r1 / 60000 * 60000 + r2;
    assert r2 % 1000 == rem % 1000;
    assert r2 == r2 / 1000 * 1000 + r2 % 1000;
  }

  /** The `getUTC…` fields of time value `ms`. */
  function DateTimeOf(ms: int): (t: DateTime)
    ensures ValidDateTime(t) && TimeOf(t) == ms
  {
    var day, rem := ms / 86400000, ms % 86400000;
    SplitWithinDay(rem);
    var t := DateTime(CivilFromDays(day), rem / 3600000, rem % 3600000 / 60000, rem % 60000 / 1000, rem % 1000);
    assert TimeOf(t) == day * 86400000 + rem;
    t
  }

  lemma TimeWithinDayInjective(a: DateTime, b: DateTime)
    requires ValidDateTime(a) && ValidDateTime(b) && TimeWithinDay(a) == TimeWithinDay(b)
    ensures (a.hour, a.minute, a.second, a.millisecond) == (b.hour, b.minute, b.second, b.millisecond)
  {
    var x := a.minute * 60000 + a.second * 1000 + a.millisecond;
    var y := b.minute * 60000 + b.second * 1000 + b.millisecond;
    assert 0 <= x < 3600000 && 0 <= y < 3600000;
    assert a.hour == b.hour;
    assert a.minute == b.minute;
    assert a.second == b.second;
  }

  /** Distinct valid date-times have distinct time values. */
  lemma TimeOfInjective(a: DateTime, b: DateTime)
    requires ValidDateTime(a) && ValidDateTime(b) && TimeOf(a) == TimeOf(b)
    ensures a == b
  {
    var da, db := DayNumber(a.date), DayNumber(b.date);
    assert 0 <= TimeWithinDay(a) < 86400000 && 0 <= TimeWithinDay(b) < 86400000;
    assert da == db;
    DayNumberInjective(a.date, b.date);
    TimeWithinDayInjective(a, b);
  }

  /** Reading the fields of a time value and recombining them is the identity both ways. */
  lemma DateTimeOfTimeOf(t: DateTime)
    requires ValidDateTime(t)
    ensures DateTimeOf(TimeOf(t)) == t
  {
    TimeOfInjective(DateTimeOf(TimeOf(t)), t);
  }

  /** A time value rounded down to a whole minute. */
  function FloorMinute(ms: int): int {
    ms - ms % 60000
  }

  /** `String(n).padStart(width, '0')`. */
  function Pad(n: nat, width: nat): (s: string)
    ensures AllDigits(s) && DigitsValue(s) == n
    ensures width >= 1 && n < Pow10(width) ==> |s| == width
  {
    PaddedNumberValue(n, width);
    PaddedLength(n, width);
    PadZeros(NatToString(n), width)
  }

  /** The year as `toISOString` writes it: four digits, or a sign and six digits. */
  function IsoYear(y: int): string {
    if 0 <= y <= 9999 then Pad(y, 4)
    else if y < 0 then "-" + Pad(-y, 6)
    else "+" + Pad(y, 6)
  }

  /** `YYYY-MM-DD` of a date. */
  function IsoDate(d: CivilDate): string
    requires ValidDate(d)
  {
    IsoYear(d.year) + "-" + Pad(d.month, 2) + "-" + Pad(d.day, 2)
  }

  /** `YYYY-MM-DDTHH:mm` of a date-time. */
  function IsoMinute(t: DateTime): string
    requires ValidDateTime(t)
  {
    IsoDate(t.date) + "T" + Pad(t.hour, 2) + ":" + Pad(t.minute, 2)
  }

  /** `Date.prototype.toISOString`: `YYYY-MM-DDTHH:mm:ss.sssZ`; an invalid date throws a RangeError. */
  function ToIsoString(d: JsDate): (r: Result<string>)
    ensures d.InvalidDate? <==> r.Err?
    ensures r.Err? ==> r.message == "Invalid time value"
  {
    match d
    case InvalidDate => Err("Invalid time value")
    case Time(ms) =>
      Ok(IsoText(DateTimeOf(ms)))
  }

  function IsoText(t: DateTime): string
    requires ValidDateTime(t)
  {
    IsoMinute(t) + ":" + Pad(t.second, 2) + "." + Pad(t.millisecond, 3) + "Z"
  }

  predicate DigitsAt(s: string, i: nat, n: nat) {
    i + n <= |s| && AllDigits(s[i..i + n])
  }

  function NumberAt(s: string, i: nat, n: nat): nat
    requires DigitsAt(s, i, n)
  {
    DigitsValue(s[i..i + n])
  }

  /** Text of the form `\d{4}-\d{2}-\d{2}` and nothing else. */
  predicate IsoDateShape(s: string) {
    |s| == 10 && DigitsAt(s, 0, 4) && s[4] == '-' && DigitsAt(s, 5, 2) && s[7] == '-' && DigitsAt(s, 8, 2)
  }

  /** Text that begins `\d{4}-\d{2}-\d{2}T\d{2}:\d{2}`. */
  predicate IsoMinuteShape(s: string) {
    |s| >= 16 && IsoDateShape(s[..10]) && s[10] == 'T' && DigitsAt(s, 11, 2) && s[13] == ':'
    && DigitsAt(s, 14, 2)
  }

  function DateFields(s: string): CivilDate
    requires |s| >= 10 && IsoDateShape(s[..10])
  {
    assert s[..10][0..4] == s[0..4] && s[..10][5..7] == s[5..7] && s[..10][8..10] == s[8..10];
    CivilDate(NumberAt(s, 0, 4), NumberAt(s, 5, 2), NumberAt(s, 8, 2))
  }

  /** Time value of in-range ISO fields; hour 24 is allowed only as `24:00:00.000`. */
  function TimeFromFields(d: CivilDate, h: int, m: int, sec: int, milli: int): JsDate {
    if ValidDate(d) && 0 <= m < 60 && 0 <= sec < 60 && 0 <= milli < 1000
       && (0 <= h < 24 || (h == 24 && m == 0 && sec == 0 && milli == 0))
    then Time(DayNumber(d) * 86400000 + h * 3600000 + m * 60000 + sec * 1000 + milli)
    else InvalidDate
  }

  /** `YYYY-MM-DDTHH:mm`, optionally followed by `:ss` or `:ss.sss`. */
  function ParseLocalDateTime(b: string): (r: JsDate)
    ensures r.Time? ==> IsoMinuteShape(b)
  {
    if !IsoMinuteShape(b) then InvalidDate
    else
      var withSeconds := |b| >= 19 && b[16] == ':' && DigitsAt(b, 17, 2);
      var withMillis := withSeconds && |b| == 23 && b[19] == '.' && DigitsAt(b, 20, 3);
      if |b| == 16 || (withSeconds && |b| == 19) || withMillis then
        var sec := if withSeconds then NumberAt(b, 17, 2) else 0;
        var milli := if withMillis then NumberAt(b, 20, 3) else 0;
        TimeFromFields(DateFields(b), NumberAt(b, 11, 2), NumberAt(b, 14, 2), sec, milli)
      else InvalidDate
  }

  /**
   * The `Date` constructor on a string, for the ISO forms `YYYY-MM-DD` (UTC)
   * and `YYYY-MM-DDTHH:mm[:ss[.sss]][Z]` (local time, which is UTC here).
   */
  function ParseDate(s: string): JsDate {
    if IsoDateShape(s) then
      assert s[..10] == s;
      TimeFromFields(DateFields(s), 0, 0, 0, 0)
    else if |s| > 16 && s[|s| - 1] == 'Z' then ParseLocalDateTime(s[..|s| - 1])
    else ParseLocalDateTime(s)
  }

  /** Time values whose year `toISOString` writes with four digits (0000 to 9999). */
  predicate FourDigitYear(ms: int) {
    0 <= DateTimeOf(ms).date.year <= 9999
  }

  lemma IsoDateFields(d: CivilDate)
    requires ValidDate(d) && 0 <= d.year <= 9999
    ensures IsoDateShape(IsoDate(d)) && IsoDate(d)[..10] == IsoDate(d) && DateFields(IsoDate(d)) == d
  {
    var y, m, dd := Pad(d.year, 4), Pad(d.month, 2), Pad(d.day, 2);
    var s := IsoDate(d);
    assert s == y + "-" + m + "-" + dd;
    assert s[0..4] == y && s[5..7] == m && s[8..10] == dd;
    assert s[..10] == s;
  }

  /** `new Date(s)` reads back the day that `YYYY-MM-DD` text names, at UTC midnight. */
  lemma ParseIsoDate(d: CivilDate)
    requires ValidDate(d) && 0 <= d.year <= 9999
    ensures ParseDate(IsoDate(d)) == Time(DayNumber(d) * 86400000)
  {
    IsoDateFields(d);
  }

  lemma IsoMinuteFields(t: DateTime)
    requires ValidDateTime(t) && 0 <= t.date.year <= 9999
    ensures var s := IsoMinute(t);
      |s| == 16 && IsoMinuteShape(s) && DateFields(s) == t.date
      && NumberAt(s, 11, 2) == t.hour && NumberAt(s, 14, 2) == t.minute
  {
    var s := IsoMinute(t);
    var ds, h, m := IsoDate(t.date), Pad(t.hour, 2), Pad(t.minute, 2);
    IsoDateFields(t.date);
    assert s == ds + "T" + h + ":" + m;
    assert s[..10] == ds && s[11..13] == h && s[14..16] == m;
    assert DateFields(s) == DateFields(ds) by {
      assert s[0..4] == ds[0..4] && s[5..7] == ds[5..7] && s[8..10] == ds[8..10];
    }
  }

  lemma ParseIsoMinuteFields(t: DateTime)
    requires ValidDateTime(t) && 0 <= t.date.year <= 9999
    ensures ParseDate(IsoMinute(t))
      == Time(DayNumber(t.date) * 86400000 + t.hour * 3600000 + t.minute * 60000)
  {
    var s := IsoMinute(t);
    IsoMinuteFields(t);
    assert !IsoDateShape(s);
    assert ParseDate(s) == ParseLocalDateTime(s);
  }

  lemma FloorMinuteOfTime(t: DateTime)
    requires ValidDateTime(t)
    ensures FloorMinute(TimeOf(t)) == DayNumber(t.date) * 86400000 + t.hour * 3600000 + t.minute * 60000
  {
    var k := DayNumber(t.date) * 1440 + t.hour * 60 + t.minute;
    var within := t.second * 1000 + t.millisecond;
    assert k * 60000 == DayNumber(t.date) * 86400000 + t.hour * 3600000 + t.minute * 60000;
    assert TimeOf(t) == k * 60000 + within && 0 <= within < 60000;
    FloorOfWholeMinutes(k, within);
  }

  /** A whole number of minutes plus less than a minute floors to the whole minutes. */
  lemma FloorOfWholeMinutes(k: int, within: int)
    requires 0 <= within < 60000
    ensures FloorMinute(k * 60000 + within) == k * 60000
  {
    var x := k * 60000 + within;
    var q, r := x / 60000, x % 60000;
    assert x == q * 60000 + r && 0 <= r < 60000;
    assert (q - k) * 60000 == within - r;
    assert q - k >= 1 ==> (q - k) * 60000 >= 60000;
    assert q - k <= -1 ==> (q - k) * 60000 <= -60000;
  }

  /** `new Date(s)` reads back `YYYY-MM-DDTHH:mm` text as the minute it names. */
  lemma ParseIsoMinute(t: DateTime)
    requires ValidDateTime(t) && 0 <= t.date.year <= 9999
    ensures ParseDate(IsoMinute(t)) == Time(FloorMinute(TimeOf(t)))
  {
    ParseIsoMinuteFields(t);
    FloorMinuteOfTime(t);
  }

  /** The first ten characters of `toISOString` are the `YYYY-MM-DD` date. */
  lemma IsoStringDatePrefix(ms: int)
    requires FourDigitYear(ms)
    ensures var t := DateTimeOf(ms);
      Substring(ToIsoString(Time(ms)).value, 0, 10) == IsoDate(t.date)
      && Substring(ToIsoString(Time(ms)).value, 0, 16) == IsoMinute(t)
  {
    IsoTextPrefixes(DateTimeOf(ms));
  }

  lemma IsoTextPrefixes(t: DateTime)
    requires ValidDateTime(t) && 0 <= t.date.year <= 9999
    ensures Substring(IsoText(t), 0, 10) == IsoDate(t.date) && Substring(IsoText(t), 0, 16) == IsoMinute(t)
  {
    var m := IsoMinute(t);
    IsoMinuteLength(t);
    var rest := ":" + Pad(t.second, 2) + "." + Pad(t.millisecond, 3) + "Z";
    assert IsoText(t) == m + rest;
    SubstringsOfPrefix(m, rest, IsoDate(t.date));
  }

  lemma IsoDateLength(d: CivilDate)
    requires ValidDate(d) && 0 <= d.year <= 9999
    ensures |IsoDate(d)| == 10
  {
    assert Pow10(4) == 10000 && Pow10(2) == 100;
    assert |Pad(d.year, 4)| == 4 && |Pad(d.month, 2)| == 2 && |Pad(d.day, 2)| == 2;
  }

  lemma IsoMinuteLength(t: DateTime)
    requires ValidDateTime(t) && 0 <= t.date.year <= 9999
    ensures |IsoMinute(t)| == 16 && IsoMinute(t)[..10] == IsoDate(t.date)
  {
    var d := IsoDate(t.date);
    IsoDateLength(t.date);
    assert Pow10(2) == 100;
    var tail := "T" + Pad(t.hour, 2) + ":" + Pad(t.minute, 2);
    assert |tail| == 6;
    assert IsoMinute(t) == d + tail;
    assert (d + tail)[..10] == d;
  }

  lemma SubstringsOfPrefix(m: string, rest: string, d: string)
    requires |m| == 16 && |d| == 10 && m[..10] == d
    ensures Substring(m + rest, 0, 10) == d && Substring(m + rest, 0, 16) == m
  {
    assert (m + rest)[..16] == m;
    assert (m + rest)[..10] == m[..10];
  }

  /** Midnight (UTC) at the start of the day that holds time value `ms`. */
  function StartOfDay(ms: int): (r: int)
    ensures r <= ms < r + 86400000 && r % 86400000 == 0
  {
    ms - ms % 86400000
  }

  /** Writing a time value's date and reading it back gives the start of that day. */
  lemma ParseIsoDateOfTime(ms: int)
    requires FourDigitYear(ms)
    ensures ParseDate(IsoDate(DateTimeOf(ms).date)) == Time(StartOfDay(ms))
  {
    var d := DateTimeOf(ms).date;
    assert d == CivilFromDays(ms / 86400000);
    ParseIsoDate(d);
  }

  /** A `YYYY-MM-DD` text is made of digits and dashes. */
  lemma IsoDateShapeChars(s: string)
    requires IsoDateShape(s)
    ensures forall i :: 0 <= i < |s| ==> IsDigit(s[i]) || s[i] == '-'
  {
    forall i | 0 <= i < |s| ensures IsDigit(s[i]) || s[i] == '-' {
      if i < 4 { assert s[0..4][i] == s[i]; }
      else if 5 <= i < 7 { assert s[5..7][i - 5] == s[i]; }
      else if 8 <= i < 10 { assert s[8..10][i - 8] == s[i]; }
    }
  }
}
