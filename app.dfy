/**
 * The application shell around the list: opening a file (decrypting it when
 * it carries the `ENCRYPTED:` marker), saving it (encrypting it when a
 * password is set, renaming the path to `.dtd`), and the add, update and
 * delete operations with their effect on the reminder scheduler.
 */
module App {
  import opened Wrappers
  import opened Strings
  import opened Calendar
  import opened Todo
  import opened TodoParser
  import opened RoundTrip
  import opened FileCodec
  import opened Encryption
  import opened Reminders
  import opened TodoView
  import PasswordDialog

  const EncryptedMarker := "ENCRYPTED:"

  /** `encryptData`/`decryptData` are called without options. */
  const NoOptions := EncryptionOptions(None, None, None)

  // Opening and saving content

  /** What opening a file's content comes to. */
  datatype Opening = NeedsPassword | OpenFailed(message: string) | Opened(text: string, wasEncrypted: bool)

  /**
   * `loadFile`'s handling of the content: text with the marker needs a
   * non-empty password and is decrypted after the marker; other text is
   * read as it is.
   */
  function OpenedContent(content: string, filePassword: Option<string>, p: Primitives): (r: Opening)
    ensures r.Opened? ==> (r.wasEncrypted <==> StartsWith(content, EncryptedMarker))
    ensures r.NeedsPassword? ==> StartsWith(content, EncryptedMarker)
  {
    if !StartsWith(content, EncryptedMarker) then Opened(content, false)
    else if filePassword.None? || filePassword.value == "" then NeedsPassword
    else
      match DecryptData(content[|EncryptedMarker|..], filePassword.value, NoOptions, p)
      case Err(m) => OpenFailed(m)
      case Ok(text) => Opened(text, true)
  }

  /** `saveFile`'s content: the serialised list, behind the marker and encrypted when encryption is on with a password. */
  function SavedContent(todos: seq<TodoItem>, encrypted: bool, password: string,
                        salt: seq<bv8>, iv: seq<bv8>, p: Primitives): (r: Result<string>)
    ensures r.Ok? && encrypted && password != "" ==> StartsWith(r.value, EncryptedMarker)
    ensures r.Ok? && !(encrypted && password != "") ==> r == SerializedFile(todos)
    ensures r.Err? <==> SerializedFile(todos).Err?
  {
    match SerializedFile(todos)
    case Err(m) => Err(m)
    case Ok(content) =>
      if encrypted && password != "" then Ok(EncryptedMarker + EncryptData(content, password, NoOptions, salt, iv, p))
      else Ok(content)
  }

  /**
   * An encrypted save opens again with the same password: the decrypted
   * text is the serialised list, provided that text is not empty.
   */
  lemma EncryptedSaveOpens(todos: seq<TodoItem>, password: string, salt: seq<bv8>, iv: seq<bv8>, p: Primitives)
    requires Inverts(p) && password != "" && SerializedFile(todos).Ok? && SerializedFile(todos).value != ""
    ensures OpenedContent(SavedContent(todos, true, password, salt, iv, p).value, Some(password), p)
      == Opened(SerializedFile(todos).value, true)
  {
    var text := SerializedFile(todos).value;
    var sealed := EncryptData(text, password, NoOptions, salt, iv, p);
    assert (EncryptedMarker + sealed)[|EncryptedMarker|..] == sealed;
    DecryptOfEncrypt(text, password, NoOptions, salt, iv, p);
  }

  /** Saving writable todos with encryption and opening the file again restores every todo. */
  lemma EncryptedSaveReadsBack(todos: seq<TodoItem>, password: string, salt: seq<bv8>, iv: seq<bv8>, p: Primitives,
                               ids: nat -> string)
    requires Inverts(p) && password != ""
    requires forall k :: 0 <= k < |todos| ==> Writable(todos[k])
    requires SerializedFile(todos).Ok? ==> SerializedFile(todos).value != ""
    ensures SavedContent(todos, true, password, salt, iv, p).Ok?
    ensures OpenedContent(SavedContent(todos, true, password, salt, iv, p).value, Some(password), p).Opened?
    ensures var text := OpenedContent(SavedContent(todos, true, password, salt, iv, p).value, Some(password), p).text;
      |ParsedFile(text, ids)| == |todos| && forall k :: 0 <= k < |todos| ==> Restores(ParsedFile(text, ids)[k], todos[k])
  {
    WrittenFileReadsBack(todos, ids);
    EncryptedSaveOpens(todos, password, salt, iv, p);
  }

  /**
   * Saving an empty list with encryption writes a file that does not open
   * again: it decrypts to the empty text, which is taken for a wrong password.
   */
  lemma EncryptedEmptyListDoesNotOpen(password: string, salt: seq<bv8>, iv: seq<bv8>, p: Primitives)
    requires Inverts(p) && password != ""
    ensures SavedContent([], true, password, salt, iv, p).Ok?
    ensures OpenedContent(SavedContent([], true, password, salt, iv, p).value, Some(password), p)
      == OpenFailed(DecryptionFailed + EmptyResult)
  {
    assert SerializedFile([]) == Ok("");
    var sealed := EncryptData("", password, NoOptions, salt, iv, p);
    assert (EncryptedMarker + sealed)[|EncryptedMarker|..] == sealed;
    DecryptOfEncrypt("", password, NoOptions, salt, iv, p);
  }

  // Paths

  /** The index of the last `c` in `s`, if any. */
  function LastIndex(s: string, c: char): (r: Option<nat>)
    ensures r.Some? ==> r.value < |s| && s[r.value] == c && forall k :: r.value < k < |s| ==> s[k] != c
    ensures r.None? ==> forall k :: 0 <= k < |s| ==> s[k] != c
  {
    if |s| == 0 then None
    else if s[|s| - 1] == c then Some(|s| - 1)
    else LastIndex(s[..|s| - 1], c)
  }

  /** A `.` at `i` followed by one or more characters, none of them a `.`: where `\.[^.]+$` matches. */
  predicate ExtensionAt(s: string, i: nat) {
    i < |s| - 1 && s[i] == '.' && forall k :: i < k < |s| ==> s[k] != '.'
  }

  /** `r` is `s` with its extension, if it has one, replaced by `repl`. */
  ghost predicate ExtensionReplaced(s: string, repl: string, r: string) {
    && (forall i: nat :: ExtensionAt(s, i) ==> r == s[..i] + repl)
    && ((forall i: nat :: !ExtensionAt(s, i)) ==> r == s)
  }

  /** `s.replace(/\.[^.]+$/, repl)` */
  function ReplaceExtension(s: string, repl: string): string {
    match LastIndex(s, '.')
    case None => s
    case Some(i) => if i < |s| - 1 then s[..i] + repl else s
  }

  /** The rewrite replaces exactly the extension, and leaves a name without one alone. */
  lemma ReplaceExtensionMeaning(s: string, repl: string)
    ensures ExtensionReplaced(s, repl, ReplaceExtension(s, repl))
  {
    LastDotIsExtension(s);
  }

  /** The rewrite of a name whose extension starts at `i`. */
  lemma ReplaceAt(s: string, repl: string, i: nat)
    requires ExtensionAt(s, i)
    ensures ReplaceExtension(s, repl) == s[..i] + repl
  {
    ReplaceExtensionMeaning(s, repl);
  }

  /** The extension, where there is one, starts at the last `.`. */
  lemma LastDotIsExtension(s: string)
    ensures forall i: nat :: ExtensionAt(s, i) <==> LastIndex(s, '.') == Some(i) && i < |s| - 1
  {
    forall i: nat | ExtensionAt(s, i)
      ensures LastIndex(s, '.') == Some(i)
    {
    }
  }

  /** `path.split('/').pop()`: the text after the last `/`. */
  function LastSegment(path: string): (r: string)
    ensures forall k :: 0 <= k < |r| ==> r[k] != '/'
    ensures EndsWith(path, r)
  {
    match LastIndex(path, '/')
    case None => path
    case Some(i) => path[i + 1..]
  }

  /** The text up to and including the last `/`. */
  function Directory(path: string): (r: string)
    ensures r + LastSegment(path) == path
  {
    match LastIndex(path, '/')
    case None => ""
    case Some(i) => path[..i + 1]
  }

  /** `saveFile`'s path: kept when it ends in `.dtd`, else the regex rewrite of the whole path. */
  function SavePath(path: string): string {
    if EndsWith(path, ".dtd") then path else ReplaceExtension(path, ".dtd")
  }

  /** `getFileDisplayName()`: the last segment without its extension, plus `.dtd`. */
  function DisplayName(path: Option<string>): (r: string)
    ensures path.Some? && path.value != "" ==> EndsWith(r, ".dtd") && forall k :: 0 <= k < |r| ==> r[k] != '/'
  {
    if path.None? || path.value == "" then "No file loaded"
    else ReplaceExtension(LastSegment(path.value), "") + ".dtd"
  }

  /**
   * The regex rewrite works on the whole path, so a dot in a directory name
   * swallows the rest of the path; and a path without an extension keeps
   * its name and never ends in `.dtd`.
   */
  lemma SavePathAsWritten()
    ensures SavePath("/home/me.d/todo") == "/home/me.dtd"
    ensures SavePath("/home/me/todo") == "/home/me/todo" && !EndsWith(SavePath("/home/me/todo"), ".dtd")
  {
    var p := "/home/me.d/todo";
    assert ExtensionAt(p, 8);
    ReplaceAt(p, ".dtd", 8);
    assert p[..8] == "/home/me";
    var q := "/home/me/todo";
    assert LastIndex(q, '.') == None;
    assert q[|q| - 4..] == "todo";
  }

  /** The save path meant: the directory kept, the last segment's extension replaced by `.dtd` or `.dtd` added. */
  function CorrectedSavePath(path: string): (r: string)
    ensures EndsWith(r, ".dtd")
  {
    if EndsWith(path, ".dtd") then path
    else Directory(path) + ReplaceExtension(LastSegment(path), "") + ".dtd"
  }

  /**
   * The corrected path keeps the directory and names the file as the window
   * title does; where the last segment has an extension it agrees with the
   * rewrite as written.
   */
  lemma CorrectedSavePathFacts(path: string)
    ensures StartsWith(CorrectedSavePath(path), Directory(path))
    ensures path != "" && !EndsWith(path, ".dtd") ==>
      CorrectedSavePath(path) == Directory(path) + DisplayName(Some(path))
    ensures (exists i: nat :: ExtensionAt(LastSegment(path), i)) ==> CorrectedSavePath(path) == SavePath(path)
  {
    if !EndsWith(path, ".dtd") {
      CorrectedKeepsDirectory(path);
    }
    if i: nat :| ExtensionAt(LastSegment(path), i) {
      ExtensionOfLastSegment(path, i);
    }
  }

  lemma CorrectedKeepsDirectory(path: string)
    requires !EndsWith(path, ".dtd")
    ensures StartsWith(CorrectedSavePath(path), Directory(path))
    ensures path != "" ==> CorrectedSavePath(path) == Directory(path) + DisplayName(Some(path))
  {
    var d, n := Directory(path), LastSegment(path);
    ConcatAssoc(d, ReplaceExtension(n, ""), ".dtd");
    assert (d + (ReplaceExtension(n, "") + ".dtd"))[..|d|] == d;
  }

  /** An extension of the last segment is the extension of the whole path. */
  lemma ExtensionOfLastSegment(path: string, i: nat)
    requires ExtensionAt(LastSegment(path), i)
    ensures ExtensionAt(path, |Directory(path)| + i)
    ensures CorrectedSavePath(path) == SavePath(path)
  {
    var d, n := Directory(path), LastSegment(path);
    var j := |d| + i;
    ExtensionShifts(d, n, i);
    if !EndsWith(path, ".dtd") {
      ReplaceAt(n, "", i);
      ReplaceAt(path, ".dtd", j);
      ConcatAssoc(d, n[..i], ".dtd");
    }
  }

  /** An extension of `n` is one of `d + n`, and what comes before it grows by `d`. */
  lemma ExtensionShifts(d: string, n: string, i: nat)
    requires ExtensionAt(n, i)
    ensures ExtensionAt(d + n, |d| + i)
    ensures (d + n)[..|d| + i] == d + n[..i] && n[..i] + "" == n[..i]
  {
    var path, j := d + n, |d| + i;
    forall k | j < k < |path| ensures path[k] != '.' {
      assert path[k] == n[k - |d|];
    }
  }

  // List updates

  /** `prev.map(todo => todo.id === id ? { ...todo, ...updates } : todo)` */
  function UpdatedList(todos: seq<TodoItem>, id: string, u: TodoUpdate): (r: seq<TodoItem>)
    ensures |r| == |todos|
    ensures forall k :: 0 <= k < |todos| ==> r[k] == if todos[k].id == id then Merge(todos[k], u) else todos[k]
  {
    seq(|todos|, k requires 0 <= k < |todos| => if todos[k].id == id then Merge(todos[k], u) else todos[k])
  }

  /** `prev.filter(todo => todo.id !== id)`: no item with the id is left, every other item is kept. */
  lemma DeletedList(todos: seq<TodoItem>, id: string)
    ensures forall t :: t in Where(todos, NotId(id)) <==> t in todos && t.id != id
    ensures |Where(todos, NotId(id))| == |todos| - |Where(todos, (t: TodoItem) => t.id == id)|
  {
    WhereSplit(todos, id);
  }

  lemma {:induction false} WhereSplit(todos: seq<TodoItem>, id: string)
    ensures |Where(todos, NotId(id))| + |Where(todos, (t: TodoItem) => t.id == id)| == |todos|
  {
    if |todos| > 0 {
      WhereSplit(todos[1..], id);
    }
  }

  /** `todos.find(t => t.id === id)` */
  function FindById(todos: seq<TodoItem>, id: string): (r: Option<TodoItem>)
    ensures r.Some? ==> r.value in todos && r.value.id == id
    ensures r.Some? ==> exists i :: 0 <= i < |todos| && todos[i] == r.value && forall k :: 0 <= k < i ==> todos[k].id != id
    ensures r.None? ==> forall t :: t in todos ==> t.id != id
  {
    if |todos| == 0 then None
    else if todos[0].id == id then Some(todos[0])
    else
      assert forall t :: t in todos[1..] ==> t in todos;
      var r := FindById(todos[1..], id);
      if r.Some? then
        var i :| 0 <= i < |todos[1..]| && todos[1..][i] == r.value && forall k :: 0 <= k < i ==> todos[1..][k].id != id;
        assert todos[i + 1] == r.value && forall k :: 0 <= k < i + 1 ==> todos[k].id != id;
        r
      else r
  }

  /** `todos.filter(todo => todo.reminder?.enabled)` */
  function WithReminders(todos: seq<TodoItem>): seq<TodoItem> {
    Where(todos, (t: TodoItem) => HasEnabledReminder(t))
  }

  /**
   * The reminder service after `setupReminders` is called with the todos of
   * `list` whose reminder is switched on, as `loadFile`, `addTodo` and
   * `updateTodo` call it, or after no call when there are none: from the
   * state `before`, every held timer cleared and the reminders of those
   * todos scheduled in list order, no notification shown.
   */
  ghost predicate RemindersSetUp(r: ReminderService, before: Scheduler, shown: seq<Notification>,
                                 list: seq<TodoItem>, now: int)
    reads r
  {
    var w := WithReminders(list);
    && r.notifications == shown
    && (|w| == 0 ==> r.State() == before)
    && (|w| > 0 ==> r.State() == ScheduledAll(ClearedAll(before), w, now))
    && (|w| > 0 ==> forall id :: id in r.handles <==>
          exists k :: 0 <= k < |w| && Schedules(w[k], now) && w[k].id == id)
  }

  // The application

  datatype NoticeKind = Success | Failure | Information

  /** The snackbar message. */
  datatype Notice = Notice(message: string, kind: NoticeKind)

  class TodoApp {
    var todos: seq<TodoItem>
    var filePath: Option<string>
    var modified: bool
    var encrypted: bool
    var password: string
    var showPasswordDialog: bool
    var passwordMode: PasswordDialog.Mode
    var notice: Option<Notice>
    const reminders: ReminderService

    ghost predicate Valid()
      reads this, reminders
    {
      reminders.Valid()
    }

    constructor()
      ensures Valid() && fresh(reminders)
      ensures todos == [] && filePath == None && !modified && !encrypted && password == ""
      ensures !showPasswordDialog && passwordMode == PasswordDialog.Encrypt && notice == None && reminders.handles == map[] && reminders.timers == []
    {
      todos := [];
      filePath := None;
      modified := false;
      encrypted := false;
      password := "";
      showPasswordDialog := false;
      passwordMode := PasswordDialog.Encrypt;
      notice := None;
      reminders := new ReminderService();
    }

    /**
     * `loadFile(content, filePath, filePassword)`, with the identifiers of
     * the parsed lines and the clock as parameters.
     */
    method LoadFile(content: string, path: Option<string>, filePassword: Option<string>,
                    ids: nat -> string, p: Primitives, now: int)
      requires Valid()
      modifies this, reminders
      ensures Valid()
      ensures OpenedContent(content, filePassword, p).NeedsPassword? ==>
        && showPasswordDialog && passwordMode == PasswordDialog.Decrypt
        && todos == old(todos) && notice == old(notice) && encrypted == old(encrypted)
        && unchanged(reminders)
      ensures OpenedContent(content, filePassword, p).OpenFailed? ==>
        && notice == Some(Notice(OpenedContent(content, filePassword, p).message, Failure))
        && todos == old(todos) && encrypted == old(encrypted) && unchanged(reminders)
      ensures !OpenedContent(content, filePassword, p).Opened? ==>
        filePath == old(filePath) && password == old(password) && modified == old(modified)
      ensures !OpenedContent(content, filePassword, p).NeedsPassword? ==>
        showPasswordDialog == old(showPasswordDialog) && passwordMode == old(passwordMode)
      ensures OpenedContent(content, filePassword, p).Opened? ==>
        var result := OpenedContent(content, filePassword, p);
        && todos == ParsedFile(result.text, ids)
        && !modified
        && (result.wasEncrypted ==> encrypted && password == filePassword.value)
        && (!result.wasEncrypted ==> encrypted == old(encrypted) && password == old(password))
        && filePath == (if path.Some? && path.value != "" then path else old(filePath))
        && notice == Some(Notice("Loaded " + IntToString(|todos|) + " todos", Success))
        && RemindersSetUp(reminders, old(reminders.State()), old(reminders.notifications), todos, now)
    {
      var opening := OpenedContent(content, filePassword, p);
      if opening.NeedsPassword? {
        passwordMode := PasswordDialog.Decrypt;
        showPasswordDialog := true;
        return;
      }
      if opening.OpenFailed? {
        notice := Some(Notice(opening.message, Failure));
        return;
      }
      if opening.wasEncrypted {
        encrypted := true;
        password := filePassword.value;
      }
      ShowParsed(opening.text, path, ids, now);
    }

    /** The part of `loadFile` after the content is readable: the list, the path and the reminders. */
    method ShowParsed(text: string, path: Option<string>, ids: nat -> string, now: int)
      requires Valid()
      modifies this, reminders
      ensures Valid()
      ensures todos == ParsedFile(text, ids) && !modified
      ensures encrypted == old(encrypted) && password == old(password)
      ensures showPasswordDialog == old(showPasswordDialog) && passwordMode == old(passwordMode)
      ensures filePath == (if path.Some? && path.value != "" then path else old(filePath))
      ensures notice == Some(Notice("Loaded " + IntToString(|todos|) + " todos", Success))
      ensures RemindersSetUp(reminders, old(reminders.State()), old(reminders.notifications), todos, now)
    {
      var parsed := ParsedFile(text, ids);
      todos := parsed;
      if path.Some? && path.value != "" {
        filePath := path;
      }
      modified := false;
      var withReminders := WithReminders(parsed);
      if |withReminders| > 0 {
        reminders.SetupReminders(withReminders, now);
      }
      notice := Some(Notice("Loaded " + IntToString(|parsed|) + " todos", Success));
    }

    /**
     * `saveFile()`, with the random salt and IV as parameters; `written` is
     * the content handed to the file writer.
     */
    method SaveFile(salt: seq<bv8>, iv: seq<bv8>, p: Primitives) returns (written: Option<string>)
      requires Valid()
      modifies this
      ensures Valid() && todos == old(todos) && encrypted == old(encrypted) && password == old(password)
      ensures showPasswordDialog == old(showPasswordDialog) && passwordMode == old(passwordMode)
      ensures old(filePath).None? || old(filePath).value == "" ==> written.None? && unchanged(this)
      ensures old(filePath).Some? && old(filePath).value != "" ==>
        var saved := SavedContent(todos, encrypted, password, salt, iv, p);
        && (saved.Err? ==>
              && written.None? && notice == Some(Notice(saved.message, Failure))
              && filePath == old(filePath) && modified == old(modified))
        && (saved.Ok? ==>
              && written == Some(saved.value)
              && filePath == Some(SavePath(old(filePath).value))
              && !modified
              && notice == Some(Notice("Saved " + IntToString(|todos|) + " todos to "
                   + LastSegment(SavePath(old(filePath).value)), Success)))
    {
      written := None;
      if filePath.None? || filePath.value == "" {
        return;
      }
      var content := SavedContent(todos, encrypted, password, salt, iv, p);
      if content.Err? {
        notice := Some(Notice(content.message, Failure));
        return;
      }
      var saveFilePath := filePath.value;
      if !EndsWith(saveFilePath, ".dtd") {
        saveFilePath := ReplaceExtension(saveFilePath, ".dtd");
        filePath := Some(saveFilePath);
      }
      written := Some(content.value);
      modified := false;
      notice := Some(Notice("Saved " + IntToString(|todos|) + " todos to " + LastSegment(saveFilePath), Success));
    }

    /** `addTodo(newTodo)` with the fresh identifier `id`: appended, and its reminder set up alone. */
    method AddTodo(newTodo: TodoItem, id: string, now: int)
      requires Valid()
      modifies this, reminders
      ensures Valid()
      ensures todos == old(todos) + [newTodo.(id := id)] && modified
      ensures notice == Some(Notice("Todo added successfully", Success))
      ensures filePath == old(filePath) && encrypted == old(encrypted) && password == old(password)
      ensures showPasswordDialog == old(showPasswordDialog) && passwordMode == old(passwordMode)
      ensures !HasEnabledReminder(newTodo) ==> unchanged(reminders)
      ensures HasEnabledReminder(newTodo) ==>
        forall x :: x in reminders.handles <==> x == id && Schedules(newTodo, now)
      ensures RemindersSetUp(reminders, old(reminders.State()), old(reminders.notifications), [newTodo.(id := id)], now)
    {
      var todo := newTodo.(id := id);
      todos := todos + [todo];
      modified := true;
      if HasEnabledReminder(todo) {
        reminders.SetupReminders([todo], now);
      }
      notice := Some(Notice("Todo added successfully", Success));
    }

    /**
     * `updateTodo(id, updates)`: the update is merged into every item with
     * the id; the reminder of the merged item is set up alone, or the id's
     * reminder cancelled when it is not switched on.
     */
    method UpdateTodo(id: string, u: TodoUpdate, now: int)
      requires Valid()
      modifies this, reminders
      ensures Valid()
      ensures todos == UpdatedList(old(todos), id, u) && modified
      ensures notice == Some(Notice("Todo updated successfully", Success))
      ensures filePath == old(filePath) && encrypted == old(encrypted) && password == old(password)
      ensures showPasswordDialog == old(showPasswordDialog) && passwordMode == old(passwordMode)
      ensures FindById(old(todos), id).None? ==> unchanged(reminders)
      ensures FindById(old(todos), id).Some? ==>
        var merged := Merge(FindById(old(todos), id).value, u);
        && (HasEnabledReminder(merged) ==>
              && (forall x :: x in reminders.handles <==> x == merged.id && Schedules(merged, now))
              && RemindersSetUp(reminders, old(reminders.State()), old(reminders.notifications), [merged], now))
        && (!HasEnabledReminder(merged) ==>
              && reminders.handles == old(reminders.handles) - {id}
              && reminders.order == Without(old(reminders.order), {id})
              && (id in old(reminders.handles) ==>
                    && reminders.timers == Drop(old(reminders.timers), {old(reminders.handles)[id]})
                    && reminders.nextHandle == old(reminders.nextHandle)
                    && reminders.notifications == old(reminders.notifications))
              && (id !in old(reminders.handles) ==> unchanged(reminders)))
    {
      var before := todos;
      todos := UpdatedList(todos, id, u);
      modified := true;
      var updatedTodo := FindById(before, id);
      if updatedTodo.Some? {
        RefreshReminder(id, Merge(updatedTodo.value, u), now);
      }
      notice := Some(Notice("Todo updated successfully", Success));
    }

    /** The reminder half of `updateTodo` for the merged item `merged` of `id`. */
    method RefreshReminder(id: string, merged: TodoItem, now: int)
      requires Valid()
      modifies reminders
      ensures Valid()
      ensures HasEnabledReminder(merged) ==>
        && (forall x :: x in reminders.handles <==> x == merged.id && Schedules(merged, now))
        && RemindersSetUp(reminders, old(reminders.State()), old(reminders.notifications), [merged], now)
      ensures !HasEnabledReminder(merged) ==>
        && reminders.handles == old(reminders.handles) - {id}
        && reminders.order == Without(old(reminders.order), {id})
        && (id in old(reminders.handles) ==>
              && reminders.timers == Drop(old(reminders.timers), {old(reminders.handles)[id]})
              && reminders.nextHandle == old(reminders.nextHandle)
              && reminders.notifications == old(reminders.notifications))
        && (id !in old(reminders.handles) ==> unchanged(reminders))
    {
      if HasEnabledReminder(merged) {
        reminders.SetupReminders([merged], now);
      } else {
        if id !in reminders.handles {
          WithoutAbsent(reminders.order, id);
        }
        reminders.CancelReminder(id);
      }
    }

    /** `deleteTodo(id)`: every item with the id is removed and its reminder cancelled. */
    method DeleteTodo(id: string)
      requires Valid()
      modifies this, reminders
      ensures Valid()
      ensures todos == Where(old(todos), NotId(id)) && modified
      ensures reminders.handles == old(reminders.handles) - {id}
      ensures reminders.order == Without(old(reminders.order), {id})
      ensures id in old(reminders.handles) ==>
        && reminders.timers == Drop(old(reminders.timers), {old(reminders.handles)[id]})
        && forall t :: t in reminders.timers ==> t.handle != old(reminders.handles)[id]
      ensures id !in old(reminders.handles) ==> unchanged(reminders)
      ensures notice == Some(Notice("Todo deleted", Information))
      ensures filePath == old(filePath) && encrypted == old(encrypted) && password == old(password)
      ensures showPasswordDialog == old(showPasswordDialog) && passwordMode == old(passwordMode)
    {
      todos := Where(todos, NotId(id));
      modified := true;
      if id !in reminders.handles {
        WithoutAbsent(reminders.order, id);
      }
      reminders.CancelReminder(id);
      notice := Some(Notice("Todo deleted", Information));
    }

    /**
     * `toggleEncryption()`: encryption on turns it off and forgets the
     * password; encryption off opens the dialog in encrypt mode.
     */
    method ToggleEncryption()
      modifies this
      ensures old(encrypted) ==>
        && !encrypted && password == ""
        && notice == Some(Notice("Encryption disabled", Information))
        && showPasswordDialog == old(showPasswordDialog) && passwordMode == old(passwordMode)
      ensures !old(encrypted) ==>
        && showPasswordDialog && passwordMode == PasswordDialog.Encrypt
        && !encrypted && password == old(password) && notice == old(notice)
      ensures todos == old(todos) && filePath == old(filePath) && modified == old(modified)
    {
      if encrypted {
        encrypted := false;
        password := "";
        notice := Some(Notice("Encryption disabled", Information));
      } else {
        passwordMode := PasswordDialog.Encrypt;
        showPasswordDialog := true;
      }
    }

    /**
     * `handlePasswordSubmit(submitted)`: in encrypt mode the password is set
     * and encryption turned on; in decrypt mode the file is read again
     * (`content`, what the reader returns) and loaded with the password.
     * The dialog is closed before the reload finishes, so a reload that
     * asks for a password again reopens it.
     */
    method HandlePasswordSubmit(submitted: string, content: string, ids: nat -> string, p: Primitives, now: int)
      requires Valid()
      modifies this, reminders
      ensures Valid()
      ensures old(passwordMode) == PasswordDialog.Encrypt ==>
        && password == submitted && encrypted
        && notice == Some(Notice("Encryption enabled", Success))
        && !showPasswordDialog && passwordMode == PasswordDialog.Encrypt
        && todos == old(todos) && filePath == old(filePath) && modified == old(modified)
        && unchanged(reminders)
      ensures old(passwordMode) == PasswordDialog.Decrypt && (old(filePath).None? || old(filePath).value == "") ==>
        && !showPasswordDialog && passwordMode == PasswordDialog.Decrypt
        && todos == old(todos) && encrypted == old(encrypted) && password == old(password)
        && notice == old(notice) && filePath == old(filePath) && modified == old(modified)
        && unchanged(reminders)
      ensures old(passwordMode) == PasswordDialog.Decrypt && old(filePath).Some? && old(filePath).value != "" ==>
        var result := OpenedContent(content, Some(submitted), p);
        && (!result.Opened? ==>
              && todos == old(todos) && encrypted == old(encrypted) && password == old(password)
              && filePath == old(filePath) && modified == old(modified) && unchanged(reminders))
        && (result.NeedsPassword? ==>
              showPasswordDialog && passwordMode == PasswordDialog.Decrypt && notice == old(notice))
        && (result.OpenFailed? ==>
              && !showPasswordDialog && passwordMode == PasswordDialog.Decrypt
              && notice == Some(Notice(result.message, Failure)))
        && (result.Opened? ==>
              && !showPasswordDialog && passwordMode == PasswordDialog.Decrypt
              && todos == ParsedFile(result.text, ids) && filePath == old(filePath) && !modified
              && (result.wasEncrypted ==> encrypted && password == submitted)
              && (!result.wasEncrypted ==> encrypted == old(encrypted) && password == old(password))
              && notice == Some(Notice("Loaded " + IntToString(|todos|) + " todos", Success))
              && RemindersSetUp(reminders, old(reminders.State()), old(reminders.notifications), todos, now))
    {
      if passwordMode == PasswordDialog.Encrypt {
        password := submitted;
        encrypted := true;
        notice := Some(Notice("Encryption enabled", Success));
        showPasswordDialog := false;
      } else {
        showPasswordDialog := false;
        if filePath.Some? && filePath.value != "" {
          LoadFile(content, filePath, Some(submitted), ids, p, now);
        }
      }
    }
  }
}
