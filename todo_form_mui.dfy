/**
 * The Material add form: a text, a priority, a `+project` field and an
 * `@context` field read word by word, and a reminder switch with a
 * `datetime-local` field that is checked whenever either changes.
 */
module TodoFormMui {
  import opened Wrappers
  import opened Strings
  import opened Calendar
  import opened Todo
  import opened TimeUtils
  import opened FormTokens

  /** What the form hands on: the todo without id, completion state, dates, raw text and extra fields. */
  datatype NewTodo = NewTodo(
    text: string,
    priority: Option<Priority>,
    projects: seq<string>,
    contexts: seq<string>,
    reminder: Option<Reminder>)

  /** The form's reminder check: `{ isValid, errorMessage, relativeTime }`. */
  datatype ReminderCheck = ReminderCheck(isValid: bool, errorMessage: Option<string>, relativeTime: Option<string>)

  const Unchecked := ReminderCheck(true, None, None)

  /**
   * The effect run whenever the switch or the date changes: with the switch
   * on and a date entered, the date's validation and, when it passes, how
   * far ahead it is; otherwise nothing to report.
   */
  function CheckReminder(enabled: bool, dateTime: string, now: int): (r: ReminderCheck)
    ensures !enabled || dateTime == "" ==> r == Unchecked
    ensures enabled && dateTime != "" ==> (r.isValid <==> IsValidReminderDateTime(ParseDate(dateTime), now))
    ensures r.isValid <==> r.errorMessage.None?
    ensures r.relativeTime.Some? <==> enabled && dateTime != "" && r.isValid
  {
    if enabled && dateTime != "" then
      var v := ValidateAndAdjust(Text(dateTime), now);
      ReminderCheck(v.isValid, v.errorMessage, if v.isValid then Some(RelativeTimeString(ParseDate(dateTime), now)) else None)
    else Unchecked
  }

  /**
   * The date the switch fills in when the field is empty: the current time,
   * adjusted by the validation to the earliest allowed one, as
   * `datetime-local` text.
   */
  function PrefillText(now: int): string {
    FormatDateTimeLocal(ValidateAndAdjust(At(Time(now)), now).adjustedDateTime)
  }

  /**
   * The filled-in text names the minute five minutes ahead, without its
   * seconds; read back, it passes the form's own check only when that
   * moment falls on a whole minute, so the switch usually shows the
   * "at least 5 minutes" error straight away.
   */
  lemma PrefillFacts(now: int)
    requires 1000 <= DateTimeOf(now + 300000).date.year <= 9999
    ensures PrefillText(now) == FormatDateTimeLocal(Time(now + 300000))
    ensures ParseDate(PrefillText(now)) == Time(FloorMinute(now + 300000))
    ensures CheckReminder(true, PrefillText(now), now).isValid <==> (now + 300000) % 60000 == 0
    ensures (now + 300000) % 60000 != 0 ==>
      CheckReminder(true, PrefillText(now), now).errorMessage == Some(TooSoonMessage)
  {
    ValidIsFiveMinutesAhead(Time(now), now);
    FormatDateTimeLocalReadsBack(now + 300000);
  }

  class Form {
    var text: string
    var priority: Option<Priority>
    var projects: string
    var contexts: string
    var reminderEnabled: bool
    var reminderDateTime: string
    var showAdvanced: bool
    var reminderValidation: ReminderCheck

    /** Every field at its initial value. */
    predicate Initial()
      reads this
    {
      && text == "" && priority == None && projects == "" && contexts == ""
      && !reminderEnabled && reminderDateTime == "" && !showAdvanced
      && reminderValidation == Unchecked
    }

    constructor()
      ensures Initial()
    {
      text, priority, projects, contexts := "", None, "", "";
      reminderEnabled, reminderDateTime, showAdvanced := false, "", false;
      reminderValidation := Unchecked;
    }

    /** `canSubmit`: some text, and a reminder that is off, empty or checked valid. */
    predicate CanSubmit()
      reads this
    {
      Trim(text) != "" && (!reminderEnabled || reminderDateTime == "" || reminderValidation.isValid)
    }

    /**
     * `handleReminderToggle`: switching on with no date fills in the
     * earliest allowed time; then the check follows.
     */
    method ToggleReminder(enabled: bool, now: int)
      modifies this
      ensures reminderEnabled == enabled
      ensures reminderDateTime == if enabled && old(reminderDateTime) == "" then PrefillText(now) else old(reminderDateTime)
      ensures reminderValidation == CheckReminder(enabled, reminderDateTime, now)
      ensures text == old(text) && priority == old(priority) && projects == old(projects)
      ensures contexts == old(contexts) && showAdvanced == old(showAdvanced)
    {
      reminderEnabled := enabled;
      if enabled && reminderDateTime == "" {
        reminderDateTime := PrefillText(now);
      }
      reminderValidation := CheckReminder(reminderEnabled, reminderDateTime, now);
    }

    /** A new date typed in, then the check. */
    method ChangeReminderDateTime(value: string, now: int)
      modifies this
      ensures reminderDateTime == value && reminderEnabled == old(reminderEnabled)
      ensures reminderValidation == CheckReminder(reminderEnabled, value, now)
      ensures text == old(text) && priority == old(priority) && projects == old(projects)
      ensures contexts == old(contexts) && showAdvanced == old(showAdvanced)
    {
      reminderDateTime := value;
      reminderValidation := CheckReminder(reminderEnabled, reminderDateTime, now);
    }

    /**
     * `handleSubmit`: nothing happens unless `canSubmit`, nor when an
     * entered reminder fails validation now; otherwise the trimmed text,
     * the chosen priority, the marked names and the reminder go out, and
     * the form is reset.
     */
    method HandleSubmit(now: int) returns (sent: Option<NewTodo>)
      modifies this
      ensures sent.Some? <==>
        && old(CanSubmit())
        && (old(reminderEnabled) && old(reminderDateTime) != "" ==> IsValidReminderDateTime(ParseDate(old(reminderDateTime)), now))
      ensures sent.None? ==> unchanged(this)
      ensures sent.Some? ==> Initial()
      ensures sent.Some? ==>
        && sent.value.text == Trim(old(text)) != ""
        && sent.value.priority == old(priority)
        && sent.value.projects == MarkedNames(old(projects), '+')
        && sent.value.contexts == MarkedNames(old(contexts), '@')
        && sent.value.reminder ==
          (if old(reminderEnabled) && old(reminderDateTime) != ""
           then Some(Reminder(ParseDate(old(reminderDateTime)), None, true, Some(false)))
           else None)
    {
      if !CanSubmit() {
        return None;
      }
      var projectsArray := MarkedNames(projects, '+');
      var contextsArray := MarkedNames(contexts, '@');
      var reminder: Option<Reminder> := None;
      if reminderEnabled && reminderDateTime != "" {
        var result := ValidateAndAdjust(Text(reminderDateTime), now);
        if result.isValid {
          reminder := Some(Reminder(ParseDate(reminderDateTime), None, true, Some(false)));
        } else {
          return None;
        }
      }
      sent := Some(NewTodo(Trim(text), priority, projectsArray, contextsArray, reminder));
      Reset();
    }

    /** The reset after a submission: every field back to its initial value. */
    method Reset()
      modifies this
      ensures Initial()
    {
      text, priority, projects, contexts := "", None, "", "";
      reminderEnabled, reminderDateTime, showAdvanced := false, "", false;
      reminderValidation := Unchecked;
    }
  }
}

/**
 * The edit dialogs: the fields are filled from the todo when the dialog
 * opens, and saving sends the edited fields as an update. A reminder that
 * fails validation is left out of the update rather than stopping it.
 */
module EditTodoModal {
  import opened Wrappers
  import opened Strings
  import opened Calendar
  import opened Todo
  import opened TimeUtils
  import opened FormTokens

  datatype EditFields = EditFields(
    text: string,
    priority: Option<Priority>,
    projects: string,
    contexts: string,
    reminderEnabled: bool,
    reminderDateTime: string)

  /**
   * The fields the dialog fills for a todo: its text and priority, its
   * names joined with spaces and without their markers, the switch on when
   * its reminder is, and the reminder's date as `datetime-local` text.
   */
  function OpenedFields(todo: TodoItem): EditFields {
    EditFields(
      todo.text,
      todo.priority,
      TagFieldAsWritten(todo.projects),
      TagFieldAsWritten(todo.contexts),
      HasEnabledReminder(todo),
      if todo.reminder.Some? then FormatDateTimeLocal(todo.reminder.value.dateTime) else "")
  }

  /** The same fields with each name written with its marker, as the save reads them. */
  function MarkedFields(todo: TodoItem): EditFields {
    OpenedFields(todo).(projects := TagField(todo.projects, '+'), contexts := TagField(todo.contexts, '@'))
  }

  /**
   * `handleSave`: nothing for blank text; otherwise the trimmed text, the
   * priority, the marked names, and the reminder when it is on, dated and
   * valid now, else no reminder at all.
   */
  function SavedUpdate(f: EditFields, now: int): (r: Option<TodoUpdate>)
    ensures r.None? <==> IsBlank(f.text)
    ensures r.Some? ==>
      && r.value.text == Some(Trim(f.text))
      && r.value.priority == Some(f.priority)
      && r.value.projects == Some(MarkedNames(f.projects, '+'))
      && r.value.contexts == Some(MarkedNames(f.contexts, '@'))
      && r.value.reminder.Some?
      && (r.value.reminder.value.Some? <==>
          f.reminderEnabled && f.reminderDateTime != "" && IsValidReminderDateTime(ParseDate(f.reminderDateTime), now))
      && r.value.id.None? && r.value.completed.None? && r.value.rawText.None? && r.value.keyValuePairs.None?
  {
    TrimEmptyIffBlank(f.text);
    if Trim(f.text) == "" then None
    else
      var reminder :=
        if f.reminderEnabled && f.reminderDateTime != "" && ValidateAndAdjust(Text(f.reminderDateTime), now).isValid
        then Some(Reminder(ParseDate(f.reminderDateTime), None, true, Some(false)))
        else None;
      Some(TodoUpdate(None, Some(Trim(f.text)), None, Some(f.priority), None, None,
        Some(MarkedNames(f.projects, '+')), Some(MarkedNames(f.contexts, '@')), None, None, Some(reminder)))
  }

  /** Names as the parser reads them: not empty and without whitespace. */
  predicate PlainNames(names: seq<string>) {
    forall k :: 0 <= k < |names| ==> |names[k]| > 0 && NoSpace(names[k])
  }

  /**
   * With the names written with their markers, opening a todo and saving it
   * untouched keeps its text, priority, projects and contexts; its reminder
   * is kept, to the minute and without its message, only when it is on and
   * still at least five minutes ahead, and otherwise removed.
   */
  lemma SaveUntouched(todo: TodoItem, now: int)
    requires todo.text != "" && Trim(todo.text) == todo.text
    requires PlainNames(todo.projects) && PlainNames(todo.contexts)
    ensures SavedUpdate(MarkedFields(todo), now).Some?
    ensures var t := Merge(todo, SavedUpdate(MarkedFields(todo), now).value);
      && t.text == todo.text && t.priority == todo.priority
      && t.projects == todo.projects && t.contexts == todo.contexts
      && t.id == todo.id && t.completed == todo.completed && t.rawText == todo.rawText
    ensures !HasEnabledReminder(todo) ==> Merge(todo, SavedUpdate(MarkedFields(todo), now).value).reminder.None?
    ensures HasEnabledReminder(todo) && todo.reminder.value.dateTime.Time? ==>
      var ms := todo.reminder.value.dateTime.ms;
      1000 <= DateTimeOf(ms).date.year <= 9999 ==>
        Merge(todo, SavedUpdate(MarkedFields(todo), now).value).reminder ==
          if FloorMinute(ms) >= now + 300000 then Some(Reminder(Time(FloorMinute(ms)), None, true, Some(false))) else None
  {
    SaveUntouchedFields(todo, now);
    SaveUntouchedReminder(todo, now);
  }

  lemma SaveUntouchedFields(todo: TodoItem, now: int)
    requires todo.text != "" && Trim(todo.text) == todo.text
    requires PlainNames(todo.projects) && PlainNames(todo.contexts)
    ensures SavedUpdate(MarkedFields(todo), now).Some?
    ensures var t := Merge(todo, SavedUpdate(MarkedFields(todo), now).value);
      && t.text == todo.text && t.priority == todo.priority
      && t.projects == todo.projects && t.contexts == todo.contexts
      && t.id == todo.id && t.completed == todo.completed && t.rawText == todo.rawText
  {
    TrimEmptyIffBlank(todo.text);
    TagFieldRoundTrip(todo.projects, '+');
    TagFieldRoundTrip(todo.contexts, '@');
  }

  lemma SaveUntouchedReminder(todo: TodoItem, now: int)
    requires todo.text != "" && Trim(todo.text) == todo.text
    ensures SavedUpdate(MarkedFields(todo), now).Some?
    ensures !HasEnabledReminder(todo) ==> Merge(todo, SavedUpdate(MarkedFields(todo), now).value).reminder.None?
    ensures HasEnabledReminder(todo) && todo.reminder.value.dateTime.Time? ==>
      var ms := todo.reminder.value.dateTime.ms;
      1000 <= DateTimeOf(ms).date.year <= 9999 ==>
        Merge(todo, SavedUpdate(MarkedFields(todo), now).value).reminder ==
          if FloorMinute(ms) >= now + 300000 then Some(Reminder(Time(FloorMinute(ms)), None, true, Some(false))) else None
  {
    TrimEmptyIffBlank(todo.text);
    SavedReminder(MarkedFields(todo), now);
    if HasEnabledReminder(todo) && todo.reminder.value.dateTime.Time? {
      var ms := todo.reminder.value.dateTime.ms;
      if 1000 <= DateTimeOf(ms).date.year <= 9999 {
        FormatDateTimeLocalReadsBack(ms);
      }
    }
  }

  /**
   * The fields as the dialog fills them lose the names: a todo whose names
   * do not themselves start with a marker, opened and saved untouched, comes
   * back with no projects and no contexts, its text and priority kept.
   */
  lemma SaveUntouchedAsWritten(todo: TodoItem, now: int)
    requires todo.text != "" && Trim(todo.text) == todo.text
    requires PlainNames(todo.projects) && PlainNames(todo.contexts)
    requires forall k :: 0 <= k < |todo.projects| ==> todo.projects[k][0] != '+'
    requires forall k :: 0 <= k < |todo.contexts| ==> todo.contexts[k][0] != '@'
    ensures SavedUpdate(OpenedFields(todo), now).Some?
    ensures var t := Merge(todo, SavedUpdate(OpenedFields(todo), now).value);
      && t.projects == [] && t.contexts == []
      && t.text == todo.text && t.priority == todo.priority
      && (todo.projects != [] ==> t.projects != todo.projects)
      && (todo.contexts != [] ==> t.contexts != todo.contexts)
  {
    TrimEmptyIffBlank(todo.text);
    TagFieldAsWrittenLosesNames(todo.projects, '+');
    TagFieldAsWrittenLosesNames(todo.contexts, '@');
  }

  /** The reminder a save sends: on, dated and valid now, it is read from the field; otherwise there is none. */
  lemma SavedReminder(f: EditFields, now: int)
    requires !IsBlank(f.text)
    ensures SavedUpdate(f, now).Some? && SavedUpdate(f, now).value.reminder ==
      Some(if f.reminderEnabled && f.reminderDateTime != "" && IsValidReminderDateTime(ParseDate(f.reminderDateTime), now)
           then Some(Reminder(ParseDate(f.reminderDateTime), None, true, Some(false)))
           else None)
  {
    TrimEmptyIffBlank(f.text);
  }

  class EditDialog {
    var text: string
    var priority: Option<Priority>
    var projects: string
    var contexts: string
    var reminderEnabled: bool
    var reminderDateTime: string

    function Fields(): EditFields
      reads this
    {
      EditFields(text, priority, projects, contexts, reminderEnabled, reminderDateTime)
    }

    constructor(todo: TodoItem)
      ensures Fields() == OpenedFields(todo)
    {
      var f := OpenedFields(todo);
      text, priority, projects, contexts := f.text, f.priority, f.projects, f.contexts;
      reminderEnabled, reminderDateTime := f.reminderEnabled, f.reminderDateTime;
    }

    /** The effect that refills the fields whenever the dialog opens. */
    method Open(todo: TodoItem)
      modifies this
      ensures Fields() == OpenedFields(todo)
    {
      var f := OpenedFields(todo);
      text, priority, projects, contexts := f.text, f.priority, f.projects, f.contexts;
      reminderEnabled, reminderDateTime := f.reminderEnabled, f.reminderDateTime;
    }

    /** `handleSave`, returning the update it sends for the todo's id; the fields stay as they are. */
    method HandleSave(now: int) returns (update: Option<TodoUpdate>)
      ensures update == SavedUpdate(Fields(), now)
    {
      update := SavedUpdate(Fields(), now);
    }
  }
}
