/**
 * Reminder time rules: the five-minute minimum lead time, the
 * `datetime-local` text of a date, the "in N minutes/hours/days" phrase and
 * the validation that falls back to the earliest allowed time. The clock is
 * the parameter `now`, a time value in milliseconds.
 */
module TimeUtils {
  import opened Wrappers
  import opened Strings
  import opened Calendar

  const MinimumReminderMinutes: nat := 5

  /** The earliest allowed reminder: five minutes after `now`. */
  function MinimumReminderDateTime(now: int): (r: int)
    ensures r == now + 300000
  {
    now + MinimumReminderMinutes * 60 * 1000
  }

  /** `dateTime >= minimum`; an invalid date compares as NaN and is never valid. */
  predicate IsValidReminderDateTime(d: JsDate, now: int) {
    d.Time? && d.ms >= MinimumReminderDateTime(now)
  }

  /** Nothing in the past, and nothing in the next five minutes, is valid; the bound itself is. */
  lemma ValidIsFiveMinutesAhead(d: JsDate, now: int)
    ensures IsValidReminderDateTime(d, now) <==> d.Time? && d.ms - now >= 300000
    ensures d.Time? && d.ms < now ==> !IsValidReminderDateTime(d, now)
    ensures IsValidReminderDateTime(Time(now + 300000), now)
    ensures !IsValidReminderDateTime(Time(now + 299999), now)
  {
  }

  // datetime-local text

  /** `YYYY-MM-DDTHH:mm` as `formatDateTimeLocal` builds it: the year unpadded, the rest two digits each. */
  function FormatDateTimeLocal(d: JsDate): string {
    match d
    case InvalidDate => "NaN-NaN-NaNTNaN:NaN"
    case Time(ms) =>
      var t := DateTimeOf(ms);
      IntToString(t.date.year) + "-" + Pad(t.date.month, 2) + "-" + Pad(t.date.day, 2)
        + "T" + Pad(t.hour, 2) + ":" + Pad(t.minute, 2)
  }

  /**
   * For years 1000 to 9999 the text is the ISO minute of the date, and the
   * `Date` constructor reads it back as that minute.
   */
  lemma FormatDateTimeLocalReadsBack(ms: int)
    requires 1000 <= DateTimeOf(ms).date.year <= 9999
    ensures FormatDateTimeLocal(Time(ms)) == IsoMinute(DateTimeOf(ms))
    ensures |FormatDateTimeLocal(Time(ms))| == 16 && IsoMinuteShape(FormatDateTimeLocal(Time(ms)))
    ensures ParseDate(FormatDateTimeLocal(Time(ms))) == Time(FloorMinute(ms))
  {
    var t := DateTimeOf(ms);
    var y := t.date.year;
    assert Pow10(3) == 1000 && Pow10(4) == 10000;
    PadOfFullWidth(y, 4);
    assert IntToString(y) == IsoYear(y);
    IsoMinuteFields(t);
    ParseIsoMinute(t);
  }

  // Relative time

  datatype TimeUnit = Minute | Hour | Day

  /** The phrase's content: past, a count of a unit, or NaN for an invalid date. */
  datatype Relative = Past | In(count: int, unit: TimeUnit) | NotANumber

  /** `Math.round(n / d)`: halves round up. */
  function RoundDiv(n: int, d: int): (r: int)
    requires d > 0
    ensures d * r - d / 2 <= n
    ensures 2 * n < 2 * d * r + d
  {
    (2 * n + d) / (2 * d)
  }

  /** What `getRelativeTimeString` says: minutes below 60, then hours below 24, then days. */
  function RelativeTime(d: JsDate, now: int): (r: Relative)
    ensures r.NotANumber? <==> d.InvalidDate?
    ensures r.Past? <==> d.Time? && d.ms - now < -30000
    ensures r.In? ==> r.count >= 0
  {
    match d
    case InvalidDate => NotANumber
    case Time(ms) =>
      var minutes := RoundDiv(ms - now, 60000);
      if minutes < 0 then Past
      else if minutes < 60 then In(minutes, Minute)
      else
        var hours := RoundDiv(minutes, 60);
        if hours < 24 then In(hours, Hour)
        else In(RoundDiv(hours, 24), Day)
  }

  /** The unit follows the distance: minutes up to 59.5 minutes ahead, hours up to 23 h 29.5 min, days beyond. */
  lemma RelativeUnits(ms: int, now: int)
    ensures var diff, r := ms - now, RelativeTime(Time(ms), now);
      && (-30000 <= diff < 3570000 <==> r.In? && r.unit == Minute)
      && (3570000 <= diff < 84570000 <==> r.In? && r.unit == Hour)
      && (84570000 <= diff <==> r.In? && r.unit == Day)
      && (r.In? && r.unit == Minute ==> r.count < 60)
      && (r.In? && r.unit == Hour ==> 1 <= r.count < 24)
      && (r.In? && r.unit == Day ==> r.count >= 1)
  {
    var diff := ms - now;
    var minutes := RoundDiv(diff, 60000);
    assert minutes < 60 <==> diff < 3570000;
    assert minutes >= 0 <==> diff >= -30000;
    if minutes >= 60 {
      var hours := RoundDiv(minutes, 60);
      assert hours < 24 <==> minutes < 1410;
      assert minutes < 1410 <==> diff < 84570000;
    }
  }

  function UnitWord(u: TimeUnit): string {
    match u
    case Minute => "minute"
    case Hour => "hour"
    case Day => "day"
  }

  /** `getRelativeTimeString`: `in N unit`, with an `s` unless N is 1. */
  function RelativeTimeString(d: JsDate, now: int): (s: string)
    ensures |s| >= 3 && s[..3] == "in "
  {
    match RelativeTime(d, now)
    case Past => "in the past"
    case NotANumber => "in NaN days"
    case In(n, u) => "in " + IntToString(n) + " " + UnitWord(u) + (if n == 1 then "" else "s")
  }

  /** The phrase is "in the past" exactly for times more than 30 seconds ago, and a unit is plural exactly when its count is not 1. */
  lemma RelativeTimeStringFacts(d: JsDate, now: int)
    ensures RelativeTimeString(d, now) == "in the past" <==> d.Time? && d.ms - now < -30000
    ensures var r, s := RelativeTime(d, now), RelativeTimeString(d, now);
      r.In? ==> (s[|s| - 1] == 's' <==> r.count != 1)
  {
    var r, s := RelativeTime(d, now), RelativeTimeString(d, now);
    if r.In? {
      var n := NatToString(r.count);
      assert s == "in " + n + " " + UnitWord(r.unit) + (if r.count == 1 then "" else "s");
      assert s[3] == n[0];
      assert "in the past"[3] == 't';
    } else if r.NotANumber? {
      assert s[3] != "in the past"[3];
    }
  }

  // Validation

  /** `validateAndAdjustReminderDateTime` accepts text or a date. */
  datatype DateInput = Text(text: string) | At(date: JsDate)

  function DateOf(input: DateInput): JsDate {
    match input
    case Text(s) => ParseDate(s)
    case At(d) => d
  }

  datatype Validation = Validation(isValid: bool, adjustedDateTime: JsDate, errorMessage: Option<string>)

  const TooSoonMessage := "Reminder must be at least " + IntToString(MinimumReminderMinutes) + " minutes in the future"

  /** Invalid text or a date too soon falls back to the earliest allowed time, with a message saying why. */
  function ValidateAndAdjust(input: DateInput, now: int): (r: Validation)
    ensures r.isValid <==> IsValidReminderDateTime(DateOf(input), now)
    ensures r.isValid ==> r.adjustedDateTime == DateOf(input) && r.errorMessage.None?
    ensures !r.isValid ==> r.adjustedDateTime == Time(now + 300000)
    ensures !r.isValid && DateOf(input).InvalidDate? ==> r.errorMessage == Some("Invalid date format")
    ensures !r.isValid && DateOf(input).Time? ==> r.errorMessage == Some(TooSoonMessage)
  {
    var date := DateOf(input);
    if date.InvalidDate? then
      Validation(false, Time(MinimumReminderDateTime(now)), Some("Invalid date format"))
    else if !IsValidReminderDateTime(date, now) then
      Validation(false, Time(MinimumReminderDateTime(now)), Some(TooSoonMessage))
    else Validation(true, date, None)
  }

  /** The adjusted time is always an allowed one: validating it again accepts it unchanged. */
  lemma AdjustedIsValid(input: DateInput, now: int)
    ensures var r := ValidateAndAdjust(input, now);
      IsValidReminderDateTime(r.adjustedDateTime, now)
      && ValidateAndAdjust(At(r.adjustedDateTime), now) == Validation(true, r.adjustedDateTime, None)
  {
  }

  lemma TooSoonMessageText()
    ensures TooSoonMessage == "Reminder must be at least 5 minutes in the future"
  {
  }
}
