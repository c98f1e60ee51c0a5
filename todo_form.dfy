/**
 * The plain add form: a text, a priority, comma-separated project and
 * context fields, and a reminder switch whose date is checked whenever the
 * switch or the date changes, leaving an error text behind.
 */
module TodoForm {
  import opened Wrappers
  import opened Strings
  import opened Calendar
  import opened Todo
  import opened TimeUtils
  import opened FormTokens

  /**
   * The effect on `reminderError`: with the switch on and a date entered,
   * the validation's message when the date fails, and nothing otherwise.
   */
  function ErrorFor(enabled: bool, dateTime: string, now: int): (r: string)
    ensures r == "" <==> !(enabled && dateTime != "") || IsValidReminderDateTime(ParseDate(dateTime), now)
    ensures r != "" ==> r == TooSoonMessage || r == "Invalid date format"
  {
    if dateTime != "" && enabled then
      var v := ValidateAndAdjust(Text(dateTime), now);
      if !v.isValid then v.errorMessage.GetOr("") else ""
    else ""
  }

  /** The date the switch fills in: the earliest allowed time as `datetime-local` text. */
  function MinimumText(now: int): string {
    FormatDateTimeLocal(Time(MinimumReminderDateTime(now)))
  }

  /**
   * The filled-in minimum loses its seconds when read back, so the form's
   * own check rejects it unless five minutes from now is a whole minute.
   */
  lemma MinimumTextRejected(now: int)
    requires 1000 <= DateTimeOf(now + 300000).date.year <= 9999
    ensures ParseDate(MinimumText(now)) == Time(FloorMinute(now + 300000))
    ensures ErrorFor(true, MinimumText(now), now) == "" <==> (now + 300000) % 60000 == 0
    ensures (now + 300000) % 60000 != 0 ==> ErrorFor(true, MinimumText(now), now) == TooSoonMessage
  {
    FormatDateTimeLocalReadsBack(now + 300000);
  }

  /** Whether a submission goes through: some text, and a reminder date (when one is set) that validates. */
  predicate Accepted(text: string, enabled: bool, dateTime: string, now: int) {
    && !IsBlank(text)
    && (enabled && dateTime != "" ==> IsValidReminderDateTime(ParseDate(dateTime), now))
  }

  /**
   * The todo a submission sends: the trimmed text as text and raw text,
   * open, created now, the comma lists, no key/value pairs, and a reminder
   * at the entered date carrying the untrimmed text as its message.
   */
  function Payload(text: string, priority: Option<Priority>, projects: string, contexts: string,
                   enabled: bool, dateTime: string, now: int): (t: TodoItem)
    requires Accepted(text, enabled, dateTime, now)
    ensures t.text == Trim(text) == t.rawText && t.text != ""
    ensures !t.completed && t.priority == priority
    ensures t.creationDate == Some(Time(now)) && t.completionDate.None?
    ensures t.projects == CommaList(projects) && t.contexts == CommaList(contexts)
    ensures t.keyValuePairs == []
    ensures t.reminder ==
      (if enabled && dateTime != "" then Some(Reminder(ParseDate(dateTime), Some(text), true, None)) else None)
    ensures t.reminder.Some? ==> IsValidReminderDateTime(t.reminder.value.dateTime, now)
  {
    TrimEmptyIffBlank(text);
    var reminder :=
      if enabled && dateTime != "" then Some(Reminder(ValidateAndAdjust(Text(dateTime), now).adjustedDateTime, Some(text), true, None))
      else None;
    TodoItem("", Trim(text), false, priority, Some(Time(now)), None, CommaList(projects), CommaList(contexts), [], Trim(text), reminder)
  }

  class Form {
    var text: string
    var priority: Option<Priority>
    var projects: string
    var contexts: string
    var reminderEnabled: bool
    var reminderDateTime: string
    var reminderError: string

    predicate Initial()
      reads this
    {
      && text == "" && priority == None && projects == "" && contexts == ""
      && !reminderEnabled && reminderDateTime == "" && reminderError == ""
    }

    constructor()
      ensures Initial()
    {
      text, priority, projects, contexts := "", None, "", "";
      reminderEnabled, reminderDateTime, reminderError := false, "", "";
    }

    /** The submit button is disabled while the switch is on and an error is shown. */
    predicate SubmitDisabled()
      reads this
    {
      reminderEnabled && reminderError != ""
    }

    /** `handleReminderToggle`: switching on with no date fills in the minimum; then the check follows. */
    method ToggleReminder(enabled: bool, now: int)
      modifies this
      ensures reminderEnabled == enabled
      ensures reminderDateTime == if enabled && old(reminderDateTime) == "" then MinimumText(now) else old(reminderDateTime)
      ensures reminderError == ErrorFor(enabled, reminderDateTime, now)
      ensures text == old(text) && priority == old(priority) && projects == old(projects) && contexts == old(contexts)
    {
      reminderEnabled := enabled;
      if enabled && reminderDateTime == "" {
        reminderDateTime := MinimumText(now);
      }
      reminderError := ErrorFor(reminderEnabled, reminderDateTime, now);
    }

    /** `handleReminderDateTimeChange`, then the check. */
    method ChangeReminderDateTime(value: string, now: int)
      modifies this
      ensures reminderDateTime == value && reminderEnabled == old(reminderEnabled)
      ensures reminderError == ErrorFor(reminderEnabled, value, now)
      ensures text == old(text) && priority == old(priority) && projects == old(projects) && contexts == old(contexts)
    {
      reminderDateTime := value;
      reminderError := ErrorFor(reminderEnabled, reminderDateTime, now);
    }

    /**
     * `handleSubmit`: blank text does nothing; a reminder that fails
     * validation now shows its message and stops; otherwise the new todo
     * goes out (its id is added by the window) and the form is reset.
     */
    method HandleSubmit(now: int) returns (sent: Option<TodoItem>)
      modifies this
      ensures sent.Some? <==> Accepted(old(text), old(reminderEnabled), old(reminderDateTime), now)
      ensures IsBlank(old(text)) ==> unchanged(this)
      ensures sent.None? && !IsBlank(old(text)) ==>
        && reminderError == ErrorFor(true, old(reminderDateTime), now) != ""
        && text == old(text) && reminderDateTime == old(reminderDateTime) && reminderEnabled == old(reminderEnabled)
        && priority == old(priority) && projects == old(projects) && contexts == old(contexts)
      ensures sent.Some? ==> Initial()
      ensures sent.Some? ==>
        sent.value == Payload(old(text), old(priority), old(projects), old(contexts), old(reminderEnabled), old(reminderDateTime), now)
    {
      TrimEmptyIffBlank(text);
      if Trim(text) == "" {
        return None;
      }
      if reminderEnabled && reminderDateTime != "" {
        var validation := ValidateAndAdjust(Text(reminderDateTime), now);
        if !validation.isValid {
          reminderError := validation.errorMessage.GetOr("Invalid reminder time");
          return None;
        }
      }
      sent := Some(Payload(text, priority, projects, contexts, reminderEnabled, reminderDateTime, now));
      Reset();
    }

    method Reset()
      modifies this
      ensures Initial()
    {
      text, priority, projects, contexts := "", None, "", "";
      reminderEnabled, reminderDateTime, reminderError := false, "", "";
    }
  }
}
