/**
 * The todo.txt line codec: reading one line into a todo item, reading a
 * whole file, and writing items back as lines.
 *
 * A line is read front to back: an optional `x ` completion marker, an
 * optional completion date (only after the marker), an optional `(A)`
 * priority, an optional creation date; the rest is scanned for `+project`,
 * `@context` and `key:value` tokens and a `reminder:` date, and what is left
 * after removing the tokens is the item's text.
 */
module TodoParser {
  import opened Wrappers
  import opened Strings
  import opened Calendar
  import opened Todo
  import opened TodoScan
  import opened ScanTokens

  // Reading the front of a line

  /** `workingLine.split(' ')[0]` */
  function FirstWord(w: string): string {
    Split(w, ' ')[0]
  }

  /** The first word is a `\d{4}-\d{2}-\d{2}` date. */
  predicate StartsWithDate(w: string) {
    IsoDateShape(FirstWord(w))
  }

  /** `^\(([A-Z])\)`: an opening parenthesis, a capital letter, a closing parenthesis. */
  predicate StartsWithPriority(w: string) {
    |w| >= 3 && w[0] == '(' && IsUpper(w[1]) && w[2] == ')'
  }

  /** A date stage: a leading date word is read with `new Date`, and the first 11 characters are dropped. */
  function TakeDate(w: string): (Option<JsDate>, string) {
    if StartsWithDate(w) then (Some(ParseDate(FirstWord(w))), Trim(Substring(w, 11, |w|))) else (None, w)
  }

  /** The priority stage: the letter is kept and the match with the whitespace after it removed. */
  function TakePriority(w: string): (Option<Priority>, string) {
    if StartsWithPriority(w) then (Some(w[1] as Priority), TrimStart(w[3..])) else (None, w)
  }

  /** What the stages before the token scans find, and the text left for the scans. */
  datatype Head = Head(
    completed: bool,
    completionDate: Option<JsDate>,
    priority: Option<Priority>,
    creationDate: Option<JsDate>,
    body: string)

  function ReadHead(line: string): Head {
    var w0 := Trim(line);
    var completed := StartsWith(w0, "x ");
    var w1 := if completed then Trim(w0[2..]) else w0;
    var done := if completed then TakeDate(w1) else (None, w1);
    var ranked := TakePriority(done.1);
    var created := TakeDate(ranked.1);
    Head(completed, done.0, ranked.0, created.0, created.1)
  }

  /** The reminder read from the leftmost `reminder:YYYY-MM-DDTHH:MM` match, with the rest of the text as its message. */
  function ReminderOf(w: string): Option<Reminder> {
    match FindReminder(w)
    case None => None
    case Some(k) =>
      var message := Trim(w[..k] + w[k + 25..]);
      Some(Reminder(ParseDate(w[k + 9..k + 25]), if message == "" then None else Some(message), true, None))
  }

  /** The item a line reads as (`null` for a blank line); `id` stands for the fresh identifier. */
  function ParsedLine(line: string, id: string): Option<TodoItem> {
    if Trim(line) == "" then None
    else
      var h := ReadHead(line);
      var w := h.body;
      Some(TodoItem(id, CleanText(w), h.completed, h.priority, h.creationDate, h.completionDate,
        TagsOf(ProjectTag, w), TagsOf(ContextTag, w), FromPairs(PairsOf(w)), line, ReminderOf(w)))
  }

  /** A scan step at a tag match: the name is captured and the match skipped. */
  lemma TagsStep(p: Pattern, w: string, i: nat)
    requires !p.KeyValue? && i < |w| && MatchAt(p, w[i..])
    ensures 1 < RunLength(w[i..]) <= |w| - i
    ensures TagsOf(p, w[i..]) == [w[i + 1..i + RunLength(w[i..])]] + TagsOf(p, w[i + RunLength(w[i..])..])
  {
    var s := w[i..];
    MatchIsRun(p, s);
    var n := RunLength(s);
    assert s[1..n] == w[i + 1..i + n] && s[n..] == w[i + n..];
  }

  lemma PairsOfSuffix(w: string, i: nat, n: nat)
    requires i + n <= |w|
    ensures PairsOf(w[i..][n..]) == PairsOf(w[i + n..])
  {
    assert w[i..][n..] == w[i + n..];
  }

  /** A scan step elsewhere moves one character on. */
  lemma ScanSkip(p: Pattern, w: string, i: nat)
    requires i < |w| && !MatchAt(p, w[i..])
    ensures p.KeyValue? ==> PairsOf(w[i..]) == PairsOf(w[i + 1..])
    ensures !p.KeyValue? ==> TagsOf(p, w[i..]) == TagsOf(p, w[i + 1..])
  {
    assert w[i..][1..] == w[i + 1..];
  }

  lemma MoveToDone<T>(done: seq<T>, x: T, rest: seq<T>, whole: seq<T>)
    requires done + ([x] + rest) == whole
    ensures (done + [x]) + rest == whole
  {
    assert (done + [x]) + rest == done + ([x] + rest);
  }

  /**
   * One `exec` call of the global `+name` or `@name` pattern, searching from
   * `lastIndex`: the capture of the next match and the index after it, or
   * `null` when no match is left.
   */
  method ExecTag(p: Pattern, w: string, lastIndex: nat) returns (m: Option<(string, nat)>)
    requires !p.KeyValue? && lastIndex <= |w|
    ensures m.None? ==> TagsOf(p, w[lastIndex..]) == []
    ensures m.Some? ==> (lastIndex < m.value.1 <= |w|
      && TagsOf(p, w[lastIndex..]) == [m.value.0] + TagsOf(p, w[m.value.1..]))
  {
    var i := lastIndex;
    while i < |w| && !MatchAt(p, w[i..])
      invariant lastIndex <= i <= |w|
      invariant TagsOf(p, w[lastIndex..]) == TagsOf(p, w[i..])
    {
      ScanSkip(p, w, i);
      i := i + 1;
    }
    if i == |w| {
      return None;
    }
    TagsStep(p, w, i);
    var n := RunLength(w[i..]);
    return Some((w[i + 1..i + n], i + n));
  }

  /** One `exec` call of the global `key:value` pattern, searching from `lastIndex`. */
  method ExecPair(w: string, lastIndex: nat) returns (m: Option<(string, string, nat)>)
    requires lastIndex <= |w|
    ensures m.None? ==> PairsOf(w[lastIndex..]) == []
    ensures m.Some? ==> (lastIndex < m.value.2 <= |w|
      && PairsOf(w[lastIndex..]) == [(m.value.0, m.value.1)] + PairsOf(w[m.value.2..]))
  {
    var i := SkipToPair(w, lastIndex);
    if i == |w| {
      return None;
    }
    var s := w[i..];
    PairsMatchStep(s);
    var j, n := WordLength(s), RunLength(s);
    PairsOfSuffix(w, i, n);
    return Some((s[..j], s[j + 1..n], i + n));
  }

  /** The scan of `exec` up to the next key-value match, or to the end. */
  method SkipToPair(w: string, lastIndex: nat) returns (i: nat)
    requires lastIndex <= |w|
    ensures lastIndex <= i <= |w| && PairsOf(w[lastIndex..]) == PairsOf(w[i..])
    ensures i < |w| ==> MatchAt(KeyValue, w[i..])
    ensures i == |w| ==> PairsOf(w[lastIndex..]) == []
  {
    i := lastIndex;
    while i < |w| && !MatchAt(KeyValue, w[i..])
      invariant lastIndex <= i <= |w|
      invariant PairsOf(w[lastIndex..]) == PairsOf(w[i..])
    {
      ScanSkip(KeyValue, w, i);
      i := i + 1;
    }
    if i == |w| {
      assert w[i..] == [];
    }
  }

  /** `while ((match = regex.exec(line)) !== null) list.push(match[1])` for a tag pattern. */
  method CollectTags(p: Pattern, w: string) returns (tags: seq<string>)
    requires !p.KeyValue?
    ensures tags == TagsOf(p, w)
  {
    tags := [];
    var lastIndex := 0;
    var m := ExecTag(p, w, 0);
    while m.Some?
      invariant lastIndex <= |w|
      invariant m.None? ==> TagsOf(p, w[lastIndex..]) == []
      invariant m.Some? ==> (lastIndex < m.value.1 <= |w|
        && TagsOf(p, w[lastIndex..]) == [m.value.0] + TagsOf(p, w[m.value.1..]))
      invariant tags + TagsOf(p, w[lastIndex..]) == TagsOf(p, w)
      decreases |w| - lastIndex
    {
      MoveToDone(tags, m.value.0, TagsOf(p, w[m.value.1..]), TagsOf(p, w));
      tags := tags + [m.value.0];
      lastIndex := m.value.1;
      m := ExecTag(p, w, lastIndex);
    }
    assert tags + [] == tags;
  }

  /** `while ((match = regex.exec(line)) !== null) record[match[1]] = match[2]` for the key-value pattern. */
  method CollectPairs(w: string) returns (kvs: KeyValues)
    ensures kvs == FromPairs(PairsOf(w))
  {
    kvs := [];
    ghost var seen: seq<(string, string)> := [];
    var lastIndex := 0;
    var m := ExecPair(w, 0);
    while m.Some?
      invariant lastIndex <= |w|
      invariant m.None? ==> PairsOf(w[lastIndex..]) == []
      invariant m.Some? ==> (lastIndex < m.value.2 <= |w|
        && PairsOf(w[lastIndex..]) == [(m.value.0, m.value.1)] + PairsOf(w[m.value.2..]))
      invariant seen + PairsOf(w[lastIndex..]) == PairsOf(w)
      invariant kvs == FromPairs(seen)
      decreases |w| - lastIndex
    {
      var (key, value, next) := m.value;
      MoveToDone(seen, (key, value), PairsOf(w[next..]), PairsOf(w));
      FromPairsAppend(seen, key, value);
      kvs := Put(kvs, key, value);
      seen := seen + [(key, value)];
      lastIndex := next;
      m := ExecPair(w, lastIndex);
    }
    assert seen + [] == seen;
  }

  /** `parseLine`: the stages rewrite the working line in turn, then the scans run over what is left. */
  method ParseLine(line: string, id: string) returns (r: Option<TodoItem>)
    ensures r == ParsedLine(line, id)
  {
    if Trim(line) == "" {
      return None;
    }
    var w := Trim(line);
    var completed := StartsWith(w, "x ");
    if completed {
      w := Trim(w[2..]);
    }
    var completionDate: Option<JsDate> := None;
    if completed && StartsWithDate(w) {
      completionDate := Some(ParseDate(FirstWord(w)));
      w := Trim(Substring(w, 11, |w|));
    }
    var priority: Option<Priority> := None;
    if StartsWithPriority(w) {
      priority := Some(w[1] as Priority);
      w := TrimStart(w[3..]);
    }
    var creationDate: Option<JsDate> := None;
    if StartsWithDate(w) {
      creationDate := Some(ParseDate(FirstWord(w)));
      w := Trim(Substring(w, 11, |w|));
    }
    assert w == ReadHead(line).body;
    var projects := CollectTags(ProjectTag, w);
    var contexts := CollectTags(ContextTag, w);
    var keyValuePairs := CollectPairs(w);
    r := Some(TodoItem(id, CleanText(w), completed, priority, creationDate, completionDate,
      projects, contexts, keyValuePairs, line, ReminderOf(w)));
  }

  /** `lines.map(parseLine)`: line `k` read with identifier `ids(k)`, null for a blank line. */
  function ReadLines(lines: seq<string>, ids: nat -> string): (r: seq<Option<TodoItem>>)
    ensures |r| == |lines|
  {
    seq(|lines|, k requires 0 <= k < |lines| => ParsedLine(lines[k], ids(k)))
  }

  /** `.filter(item => item !== null)`: the present values, in order. */
  function NonNull<T>(xs: seq<Option<T>>): seq<T> {
    if |xs| == 0 then []
    else (if xs[0].Some? then [xs[0].value] else []) + NonNull(xs[1..])
  }

  /** `parseFile`: split on line feeds, read every line, keep the non-blank ones. */
  function ParsedFile(content: string, ids: nat -> string): seq<TodoItem> {
    NonNull(ReadLines(Split(content, '\n'), ids))
  }

  // Writing

  /** `formatDate`: the first ten characters of `toISOString()`, which throws on an invalid date. */
  function FormatDate(d: JsDate): Result<string> {
    match ToIsoString(d)
    case Err(m) => Err(m)
    case Ok(s) => Ok(Substring(s, 0, 10))
  }

  /** `' ' + names.map(n => marker + n).join(' ')`, or nothing for no names. */
  function TagsText(marker: char, names: seq<string>): string {
    if |names| > 0 then " " + Join(Prefixed(marker, names), " ") else ""
  }

  /** `' ' + Object.entries(kvs).map(([k, v]) => k + ':' + v).join(' ')`, or nothing for no entries. */
  function PairsText(kvs: KeyValues): string {
    if |kvs| > 0 then " " + Join(PairTexts(kvs), " ") else ""
  }

  /**
   * The line `serializeTodo` builds before trimming it, given the written
   * completion date, creation date and reminder time: each piece is appended
   * in the order of the source.
   */
  function LineOf(t: TodoItem, completion: string, creation: string, reminder: string): string {
    var line := "";
    var line := if t.completed then line + "x " else line;
    var line := if t.completed && t.completionDate.Some? then line + (completion + " ") else line;
    var line := if t.priority.Some? && !t.completed then line + ("(" + [t.priority.value] + ") ") else line;
    var line := if t.creationDate.Some? then line + (creation + " ") else line;
    var line := line + t.text;
    var line := line + TagsText('+', t.projects);
    var line := line + TagsText('@', t.contexts);
    var line := line + PairsText(t.keyValuePairs);
    if HasEnabledReminder(t) then line + (" reminder:" + reminder) else line
  }

  /** The line `serializeTodo` writes, or the error it throws when a date it writes is invalid. */
  function SerializedTodo(t: TodoItem): Result<string> {
    var done := if t.completed && t.completionDate.Some? then FormatDate(t.completionDate.value) else Ok("");
    var created := if t.creationDate.Some? then FormatDate(t.creationDate.value) else Ok("");
    var reminder := if HasEnabledReminder(t) then ToIsoString(t.reminder.value.dateTime) else Ok("");
    if done.Err? then Err(done.message)
    else if created.Err? then Err(created.message)
    else if reminder.Err? then Err(reminder.message)
    else Ok(Trim(LineOf(t, done.value, created.value, Substring(reminder.value, 0, 16))))
  }

  /** `serializeTodo`: the line is built up piece by piece and trimmed at the end. */
  method SerializeTodo(t: TodoItem) returns (r: Result<string>)
    ensures r == SerializedTodo(t)
  {
    ghost var completion, creation, reminder := "", "", "";
    var line := "";
    if t.completed {
      line := line + "x ";
      if t.completionDate.Some? {
        var d := FormatDate(t.completionDate.value);
        if d.Err? {
          return Err(d.message);
        }
        completion := d.value;
        line := line + (d.value + " ");
      }
    }
    if t.priority.Some? && !t.completed {
      line := line + ("(" + [t.priority.value] + ") ");
    }
    if t.creationDate.Some? {
      var d := FormatDate(t.creationDate.value);
      if d.Err? {
        return Err(d.message);
      }
      creation := d.value;
      line := line + (d.value + " ");
    }
    line := line + t.text;
    line := line + TagsText('+', t.projects);
    line := line + TagsText('@', t.contexts);
    line := line + PairsText(t.keyValuePairs);
    if HasEnabledReminder(t) {
      var iso := ToIsoString(t.reminder.value.dateTime);
      if iso.Err? {
        return Err(iso.message);
      }
      reminder := Substring(iso.value, 0, 16);
      line := line + (" reminder:" + Substring(iso.value, 0, 16));
    }
    assert line == LineOf(t, completion, creation, reminder);
    return Ok(Trim(line));
  }

  /** The values of the results in order, or the first error among them. */
  function Collected(results: seq<Result<string>>): (r: Result<seq<string>>)
    ensures r.Ok? ==> |r.value| == |results|
  {
    if |results| == 0 then Ok([])
    else
      var rest := Collected(results[1..]);
      if results[0].Err? then Err(results[0].message)
      else if rest.Err? then Err(rest.message)
      else Ok([results[0].value] + rest.value)
  }

  /** `todos.map(serializeTodo)`: every item's line, or the first error thrown. */
  function SerializedLines(todos: seq<TodoItem>): Result<seq<string>> {
    Collected(seq(|todos|, k requires 0 <= k < |todos| => SerializedTodo(todos[k])))
  }

  /** `serializeFile`: the lines joined with line feeds. */
  function SerializedFile(todos: seq<TodoItem>): Result<string> {
    var lines := SerializedLines(todos);
    if lines.Err? then Err(lines.message) else Ok(Join(lines.value, "\n"))
  }
}
