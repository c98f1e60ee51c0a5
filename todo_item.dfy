/**
 * One todo in the list: the checkbox toggles completion, the quick edit
 * changes the text in place, and Enter or Escape end the edit.
 */
module TodoItemView {
  import opened Wrappers
  import opened Strings
  import opened Calendar
  import opened Todo

  /** `handleToggleComplete`: the flag flipped, with a completion date exactly when it becomes completed. */
  function ToggleUpdate(t: TodoItem, now: int): (u: TodoUpdate)
    ensures Merge(t, u).completed == !t.completed
    ensures Merge(t, u).completionDate == if Merge(t, u).completed then Some(Time(now)) else None
    ensures Merge(t, u).(completed := t.completed, completionDate := t.completionDate) == t
  {
    NoChange.(completed := Some(!t.completed), completionDate := Some(if !t.completed then Some(Time(now)) else None))
  }

  /**
   * Toggling twice gives the flag back; an open todo comes back without a
   * completion date, and a completed one with the date of the second toggle.
   */
  lemma ToggleTwice(t: TodoItem, now: int, later: int)
    ensures var once := Merge(t, ToggleUpdate(t, now));
      var twice := Merge(once, ToggleUpdate(once, later));
      && twice.completed == t.completed
      && twice.completionDate == (if t.completed then Some(Time(later)) else None)
      && twice.(completionDate := t.completionDate) == t
  {
    var once := Merge(t, ToggleUpdate(t, now));
    assert once.(completed := t.completed, completionDate := t.completionDate) == t;
  }

  /** `handleSaveEdit`'s update: the trimmed text, when there is any. */
  function SaveEditUpdate(editText: string): (u: Option<TodoUpdate>)
    ensures u.None? <==> IsBlank(editText)
    ensures u.Some? ==> u.value == NoChange.(text := Some(Trim(editText)))
  {
    TrimEmptyIffBlank(editText);
    if Trim(editText) != "" then Some(NoChange.(text := Some(Trim(editText)))) else None
  }

  /** Saving an edit changes the todo's text to the trimmed edit and nothing else. */
  lemma SaveEditChangesOnlyText(t: TodoItem, editText: string)
    requires !IsBlank(editText)
    ensures Merge(t, SaveEditUpdate(editText).value) == t.(text := Trim(editText))
  {
  }

  class ItemView {
    var isEditing: bool
    var editText: string

    constructor(todo: TodoItem)
      ensures !isEditing && editText == todo.text
    {
      isEditing, editText := false, todo.text;
    }

    /** `handleEdit`: into edit mode with the todo's text. */
    method HandleEdit(todo: TodoItem)
      modifies this
      ensures isEditing && editText == todo.text
    {
      isEditing, editText := true, todo.text;
    }

    /** `handleSaveEdit`: the update for the todo's id when the text is not blank; edit mode ends either way. */
    method HandleSaveEdit(todo: TodoItem) returns (update: Option<(string, TodoUpdate)>)
      modifies this
      ensures update.None? <==> IsBlank(old(editText))
      ensures update.Some? ==> update.value == (todo.id, SaveEditUpdate(old(editText)).value)
      ensures !isEditing && editText == old(editText)
    {
      var u := SaveEditUpdate(editText);
      update := if u.Some? then Some((todo.id, u.value)) else None;
      isEditing := false;
    }

    /** `handleCancelEdit`: the todo's text back, edit mode ended, no update. */
    method HandleCancelEdit(todo: TodoItem)
      modifies this
      ensures !isEditing && editText == todo.text
    {
      editText, isEditing := todo.text, false;
    }

    /** `handleKeyDown`: Enter saves, Escape cancels, other keys change nothing. */
    method HandleKeyDown(key: string, todo: TodoItem) returns (update: Option<(string, TodoUpdate)>)
      modifies this
      ensures key == "Enter" ==>
        && (update.None? <==> IsBlank(old(editText)))
        && (update.Some? ==> update.value == (todo.id, SaveEditUpdate(old(editText)).value))
        && !isEditing && editText == old(editText)
      ensures key == "Escape" ==> update.None? && !isEditing && editText == todo.text
      ensures key != "Enter" && key != "Escape" ==> update.None? && unchanged(this)
    {
      if key == "Enter" {
        update := HandleSaveEdit(todo);
      } else if key == "Escape" {
        HandleCancelEdit(todo);
        update := None;
      } else {
        update := None;
      }
    }

    /** The delete button: `onDelete` receives the todo's id and nothing else; the view is untouched. */
    method HandleDelete(todo: TodoItem) returns (id: string)
      ensures id == todo.id
    {
      id := todo.id;
    }
  }
}
