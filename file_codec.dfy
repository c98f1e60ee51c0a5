/**
 * Whole files: `parseFile` reads the non-blank lines in order,
 * `serializeFile` writes one line per item joined by line feeds, and a file
 * of writable items reads back item by item. Also when writing an item
 * fails.
 */
module FileCodec {
  import opened Wrappers
  import opened Strings
  import opened Calendar
  import opened Todo
  import opened ScanTokens
  import opened TodoParser
  import opened LineFacts
  import opened RoundTrip

  // Writing errors

  /** The item holds a date the writer has to write and cannot: an invalid date. */
  predicate WritesInvalidDate(t: TodoItem) {
    || (t.completed && t.completionDate == Some(InvalidDate))
    || t.creationDate == Some(InvalidDate)
    || (HasEnabledReminder(t) && t.reminder.value.dateTime == InvalidDate)
  }

  /** Writing an item throws exactly when a date it writes is invalid, with `toISOString`'s message. */
  lemma SerializeFailsOnInvalidDate(t: TodoItem)
    ensures SerializedTodo(t).Err? <==> WritesInvalidDate(t)
    ensures SerializedTodo(t).Err? ==> SerializedTodo(t).message == "Invalid time value"
  {
  }

  /** A date with month 13 has the shape of a date but is not one. */
  lemma MonthThirteenIsInvalid()
    ensures IsoDateShape("2024-13-01")
    ensures ParseDate("2024-13-01") == InvalidDate
  {
    var d := "2024-13-01";
    assert d[0..4] == "2024" && d[5..7] == "13" && d[8..10] == "01";
    assert "13"[..1] == "1";
    assert DigitsValue("13") == 13;
    assert d[..10] == d;
    assert DateFields(d).month == 13;
  }

  /**
   * A completed item whose completion date has the shape of a date but is
   * not one (such as `x 2024-13-01 pay rent`) is read, but cannot be
   * written back.
   */
  lemma InvalidCompletionDateCannotBeWritten(line: string, d: string, tail: string, id: string)
    requires IsoDateShape(d) && ParseDate(d) == InvalidDate
    requires (|tail| == 0 || tail[0] == ' ') && Trim(line) == "x " + d + tail
    ensures ParsedLine(line, id).Some?
    ensures ParsedLine(line, id).value.completionDate == Some(InvalidDate)
    ensures SerializedTodo(ParsedLine(line, id).value).Err?
  {
    CompletionDatePrefix(line, d, tail, id);
    CompletedOnInvalidDateFails(ParsedLine(line, id).value);
  }

  lemma CompletedOnInvalidDateFails(t: TodoItem)
    requires t.completed && t.completionDate == Some(InvalidDate)
    ensures SerializedTodo(t).Err?
  {
    SerializeFailsOnInvalidDate(t);
  }

  // Reading a file

  /** The lines that are not blank, in order. */
  function NonBlankLines(lines: seq<string>): seq<string> {
    if |lines| == 0 then []
    else (if IsBlank(lines[0]) then [] else [lines[0]]) + NonBlankLines(lines[1..])
  }

  function RawTexts(items: seq<TodoItem>): seq<string> {
    if |items| == 0 then [] else [items[0].rawText] + RawTexts(items[1..])
  }

  /** Dropping the nulls from readings that are null exactly for blank lines keeps the other lines, in order. */
  lemma {:induction false} NonNullRawTexts(xs: seq<Option<TodoItem>>, lines: seq<string>)
    requires |xs| == |lines|
    requires forall k :: 0 <= k < |xs| ==> (xs[k].None? <==> IsBlank(lines[k]))
    requires forall k :: 0 <= k < |xs| && xs[k].Some? ==> xs[k].value.rawText == lines[k]
    ensures RawTexts(NonNull(xs)) == NonBlankLines(lines)
    decreases |xs|
  {
    if |xs| > 0 {
      NonNullRawTexts(xs[1..], lines[1..]);
      var rest := NonNull(xs[1..]);
      if xs[0].Some? {
        assert ([xs[0].value] + rest)[1..] == rest;
      } else {
        assert [] + rest == rest;
      }
    }
  }

  /** `parseFile` keeps exactly the non-blank lines, in their order, as the raw texts of its items. */
  lemma ParsedFileKeepsOrder(content: string, ids: nat -> string)
    ensures RawTexts(ParsedFile(content, ids)) == NonBlankLines(Split(content, '\n'))
  {
    var lines := Split(content, '\n');
    var xs := ReadLines(lines, ids);
    forall k | 0 <= k < |xs|
      ensures (xs[k].None? <==> IsBlank(lines[k]))
      ensures xs[k].Some? ==> xs[k].value.rawText == lines[k]
    {
      BlankLineIsNull(lines[k], ids(k));
      ParsedRawText(lines[k], ids(k));
    }
    NonNullRawTexts(xs, lines);
  }

  /** An item keeps the line it was read from. */
  lemma ParsedRawText(line: string, id: string)
    ensures ParsedLine(line, id).Some? ==> ParsedLine(line, id).value.rawText == line
  {
  }

  /** Nothing is dropped when every value is present. */
  lemma {:induction false} NonNullAllPresent<T>(xs: seq<Option<T>>)
    requires forall k :: 0 <= k < |xs| ==> xs[k].Some?
    ensures |NonNull(xs)| == |xs|
    ensures forall k :: 0 <= k < |xs| ==> NonNull(xs)[k] == xs[k].value
    decreases |xs|
  {
    if |xs| > 0 {
      NonNullAllPresent(xs[1..]);
      var r := [xs[0].value] + NonNull(xs[1..]);
      forall k | 0 <= k < |xs| ensures r[k] == xs[k].value {
        if k > 0 {
          assert r[k] == NonNull(xs[1..])[k - 1] && xs[1..][k - 1] == xs[k];
        }
      }
    }
  }

  // Writing a file

  /** When every item can be written, the file's lines are the items' lines, in order. */
  lemma SerializedLinesAs(todos: seq<TodoItem>, lines: seq<string>)
    requires |lines| == |todos|
    requires forall k :: 0 <= k < |todos| ==> SerializedTodo(todos[k]) == Ok(lines[k])
    ensures SerializedLines(todos) == Ok(lines)
  {
    var results := seq(|todos|, k requires 0 <= k < |todos| => SerializedTodo(todos[k]));
    CollectedAllOk(results, lines);
  }

  lemma {:induction false} CollectedAllOk(results: seq<Result<string>>, lines: seq<string>)
    requires |lines| == |results|
    requires forall k :: 0 <= k < |results| ==> results[k] == Ok(lines[k])
    ensures Collected(results) == Ok(lines)
  {
    if |results| > 0 {
      CollectedAllOk(results[1..], lines[1..]);
      assert lines == [lines[0]] + lines[1..];
    }
  }

  /** Writing stops at the first item that cannot be written, with that item's error. */
  lemma SerializedLinesFails(todos: seq<TodoItem>, k: nat)
    requires k < |todos| && SerializedTodo(todos[k]).Err?
    requires forall j :: 0 <= j < k ==> SerializedTodo(todos[j]).Ok?
    ensures SerializedLines(todos) == Err(SerializedTodo(todos[k]).message)
    ensures SerializedFile(todos) == Err(SerializedTodo(todos[k]).message)
  {
    var results := seq(|todos|, k requires 0 <= k < |todos| => SerializedTodo(todos[k]));
    CollectedFails(results, k);
  }

  lemma {:induction false} CollectedFails(results: seq<Result<string>>, k: nat)
    requires k < |results| && results[k].Err?
    requires forall j :: 0 <= j < k ==> results[j].Ok?
    ensures Collected(results) == Err(results[k].message)
    decreases k
  {
    if k > 0 {
      CollectedFails(results[1..], k - 1);
    }
  }

  // Line feeds

  lemma LacksConcat(a: string, b: string, c: char)
    requires Lacks(a, c) && Lacks(b, c)
    ensures Lacks(a + b, c)
  {
  }

  lemma {:induction false} SpaceEachLacks(ts: seq<string>, c: char)
    requires IsSpace(c) && c != ' ' && forall k :: 0 <= k < |ts| ==> NoSpace(ts[k])
    ensures Lacks(SpaceEach(ts), c)
  {
    if |ts| > 0 {
      SpaceEachLacks(ts[1..], c);
      LacksConcat(" ", ts[0], c);
      LacksConcat(" " + ts[0], SpaceEach(ts[1..]), c);
    }
  }

  lemma DayTextLacks(d: Option<JsDate>, c: char)
    requires SavedDate(d) && d.Some? && !IsDigit(c) && c != '-'
    ensures Lacks(DayText(d), c)
  {
    WrittenDay(d);
    IsoDateShapeChars(DayText(d));
  }

  /** The line written for a writable item holds no line feed. */
  lemma WrittenLineLacksNewline(t: TodoItem)
    requires Writable(t)
    ensures Lacks(WrittenLine(t, DayText(t.completionDate), DayText(t.creationDate)), '\n')
  {
    BodyLacksNewline(t);
    if t.completed && t.completionDate.Some? {
      DayTextLacks(t.completionDate, '\n');
    }
    if t.creationDate.Some? {
      DayTextLacks(t.creationDate, '\n');
    }
    LineTextLacks(t.completed, t.completionDate.Some?, DayText(t.completionDate), WrittenPriority(t),
      t.creationDate.Some?, DayText(t.creationDate), BodyOf(t));
  }

  lemma BodyLacksNewline(t: TodoItem)
    requires Writable(t)
    ensures Lacks(BodyOf(t), '\n')
  {
    BodyIsTextAndTokens(t);
    TokensArePlain(t);
    SpaceEachLacks(TokensOf(t), '\n');
  }

  lemma LineTextLacks(completed: bool, done: bool, completion: string, prio: Option<Priority>,
                      created: bool, creation: string, body: string)
    requires Lacks(body, '\n')
    requires completed && done ==> Lacks(completion, '\n')
    requires created ==> Lacks(creation, '\n')
    ensures Lacks(LineText(completed, done, completion, MidText(prio, created, creation, body)), '\n')
  {
    var dw := DateWord(created, creation);
    LacksConcat(dw, body, '\n');
    var pw := PriorityWord(prio);
    LacksConcat(pw, dw + body, '\n');
    if completed {
      var m := MidText(prio, created, creation, body);
      var cw := DateWord(done, completion);
      LacksConcat(cw, m, '\n');
      LacksConcat("x ", cw + m, '\n');
    }
  }

  /** The line written for a writable item. */
  function SavedLine(t: TodoItem): string {
    WrittenLine(t, DayText(t.completionDate), DayText(t.creationDate))
  }

  /** The item read back from the line written for it. */
  lemma SavedLineReadsBack(t: TodoItem, id: string)
    requires Writable(t)
    ensures SerializedTodo(t) == Ok(SavedLine(t))
    ensures Lacks(SavedLine(t), '\n')
    ensures ParsedLine(SavedLine(t), id).Some?
    ensures Restores(ParsedLine(SavedLine(t), id).value, t) && ParsedLine(SavedLine(t), id).value.id == id
  {
    SerializedWritable(t);
    WrittenLineLacksNewline(t);
    WrittenItemReadsBack(t, id);
  }

  /**
   * A file written from writable items reads back as the same number of
   * items, in order, each restored as a single line is.
   */
  lemma WrittenFileReadsBack(todos: seq<TodoItem>, ids: nat -> string)
    requires forall k :: 0 <= k < |todos| ==> Writable(todos[k])
    ensures SerializedFile(todos).Ok?
    ensures var items := ParsedFile(SerializedFile(todos).value, ids);
      && |items| == |todos|
      && forall k :: 0 <= k < |todos| ==> Restores(items[k], todos[k]) && items[k].id == ids(k)
  {
    var lines := seq(|todos|, k requires 0 <= k < |todos| => SavedLine(todos[k]));
    var xs := ReadLines(lines, ids);
    forall k | 0 <= k < |todos|
      ensures SerializedTodo(todos[k]) == Ok(lines[k]) && Lacks(lines[k], '\n')
      ensures xs[k].Some? && Restores(xs[k].value, todos[k]) && xs[k].value.id == ids(k)
    {
      SavedLineReadsBack(todos[k], ids(k));
    }
    FileOfLinesReadsBack(todos, lines, ids);
  }

  lemma FileOfLinesReadsBack(todos: seq<TodoItem>, lines: seq<string>, ids: nat -> string)
    requires |lines| == |todos|
    requires forall k :: 0 <= k < |todos| ==> SerializedTodo(todos[k]) == Ok(lines[k]) && Lacks(lines[k], '\n')
    requires forall k :: 0 <= k < |todos| ==> var x := ReadLines(lines, ids)[k];
      x.Some? && Restores(x.value, todos[k]) && x.value.id == ids(k)
    ensures SerializedFile(todos) == Ok(Join(lines, "\n"))
    ensures var items := ParsedFile(Join(lines, "\n"), ids);
      && |items| == |todos|
      && forall k :: 0 <= k < |todos| ==> Restores(items[k], todos[k]) && items[k].id == ids(k)
  {
    SerializedLinesAs(todos, lines);
    NonNullAllPresent(ReadLines(lines, ids));
    if |todos| == 0 {
      EmptyFileIsEmpty(ids);
    } else {
      SplitOfJoined(lines);
    }
  }

  /** An empty file, one blank line, holds no items. */
  lemma EmptyFileIsEmpty(ids: nat -> string)
    ensures ParsedFile(Join([], "\n"), ids) == []
  {
    assert Split("", '\n') == [""];
    BlankLineIsNull("", ids(0));
    assert ReadLines([""], ids)[0].None?;
    assert NonNull(ReadLines([""], ids)) == [];
  }

  /** Joining lines without line feeds and splitting again gives the lines back. */
  lemma SplitOfJoined(lines: seq<string>)
    requires |lines| > 0 && forall k :: 0 <= k < |lines| ==> Lacks(lines[k], '\n')
    ensures Split(Join(lines, "\n"), '\n') == lines
  {
    assert "\n" == ['\n'];
    JoinSplit(lines, '\n');
  }
}
