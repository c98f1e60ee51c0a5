/**
 * The password dialog: in `encrypt` mode a password and its confirmation,
 * in `decrypt` mode a password alone; the checks run in a fixed order and
 * the first that fails shows its message.
 */
module PasswordDialog {
  import opened Wrappers
  import opened Strings

  datatype Mode = Encrypt | Decrypt

  const MinimumLength: nat := 8

  /**
   * The checks of `handleSubmit` in order: required, then (encrypting)
   * matching, then long enough, the length counted in UTF-16 code units.
   */
  function PasswordProblem(mode: Mode, password: string, confirm: string): (r: Option<string>)
    ensures password == "" ==> r == Some("Password is required")
    ensures password != "" && mode == Decrypt ==> r.None?
    ensures password != "" && mode == Encrypt && password != confirm ==> r == Some("Passwords do not match")
    ensures password != "" && mode == Encrypt && password == confirm && Utf16Length(password) < MinimumLength ==>
      r == Some("Password must be at least 8 characters long")
    ensures r.None? <==> password != "" && (mode == Encrypt ==> password == confirm && Utf16Length(password) >= MinimumLength)
  {
    if password == "" then Some("Password is required")
    else if mode == Encrypt && password != confirm then Some("Passwords do not match")
    else if mode == Encrypt && Utf16Length(password) < MinimumLength then Some("Password must be at least 8 characters long")
    else None
  }

  /** Four characters above U+FFFF are eight code units: long enough, while seven basic characters are not. */
  lemma LengthCountsCodeUnits()
    ensures var four := "\U{1F409}\U{1F409}\U{1F409}\U{1F409}";
      |four| == 4 && PasswordProblem(Encrypt, four, four).None?
    ensures PasswordProblem(Encrypt, "dragons", "dragons") == Some("Password must be at least 8 characters long")
  {
    Utf16LengthOfBasic("dragons");
  }

  /** The submit button: disabled without a password, or without a confirmation when encrypting. */
  predicate SubmitDisabled(mode: Mode, password: string, confirm: string) {
    password == "" || (mode == Encrypt && confirm == "")
  }

  /**
   * A disabled button only ever hides a submission that the checks would
   * refuse; when decrypting, it is disabled exactly when they would.
   */
  lemma DisabledIsRefused(mode: Mode, password: string, confirm: string)
    ensures SubmitDisabled(mode, password, confirm) ==> PasswordProblem(mode, password, confirm).Some?
    ensures mode == Decrypt ==> (SubmitDisabled(mode, password, confirm) <==> PasswordProblem(mode, password, confirm).Some?)
  {
  }

  /** What the dialog reports to its owner: `onSubmit(password)` or `onCancel()`. */
  datatype Event = Submitted(password: string) | Cancelled

  class Dialog {
    const mode: Mode
    var password: string
    var confirmPassword: string
    var showPassword: bool
    var error: string

    predicate Cleared()
      reads this
    {
      password == "" && confirmPassword == "" && error == "" && !showPassword
    }

    constructor(mode: Mode)
      ensures this.mode == mode && Cleared()
    {
      this.mode := mode;
      password, confirmPassword, showPassword, error := "", "", false, "";
    }

    /**
     * `handleSubmit`: the first failing check's message is shown and
     * nothing is reported; otherwise the password goes out unchanged and
     * the dialog closes.
     */
    method HandleSubmit() returns (events: seq<Event>)
      modifies this
      ensures var problem := PasswordProblem(mode, old(password), old(confirmPassword));
        && (problem.Some? ==>
              events == [] && error == problem.value
              && password == old(password) && confirmPassword == old(confirmPassword) && showPassword == old(showPassword))
        && (problem.None? ==> events == [Submitted(old(password)), Cancelled] && Cleared())
    {
      var problem := PasswordProblem(mode, password, confirmPassword);
      if problem.Some? {
        error := problem.value;
        return [];
      }
      var submitted := password;
      var closing := HandleClose();
      events := [Submitted(submitted)] + closing;
    }

    /** `handleClose`: every field cleared, then `onCancel`. */
    method HandleClose() returns (events: seq<Event>)
      modifies this
      ensures Cleared() && events == [Cancelled]
    {
      password, confirmPassword, error, showPassword := "", "", "", false;
      events := [Cancelled];
    }

    /** `handleKeyDown`: Enter submits; any other key does nothing. */
    method HandleKeyDown(key: string) returns (events: seq<Event>)
      modifies this
      ensures key != "Enter" ==> events == [] && unchanged(this)
      ensures key == "Enter" ==> var problem := PasswordProblem(mode, old(password), old(confirmPassword));
        && (problem.Some? ==>
              events == [] && error == problem.value
              && password == old(password) && confirmPassword == old(confirmPassword) && showPassword == old(showPassword))
        && (problem.None? ==> events == [Submitted(old(password)), Cancelled] && Cleared())
    {
      if key == "Enter" {
        events := HandleSubmit();
      } else {
        events := [];
      }
    }
  }
}
