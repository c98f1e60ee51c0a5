/**
 * Writing an item and reading the line back.
 *
 * The writer puts the pieces of an item in the order the reader takes them
 * apart, so an item whose pieces cannot be mistaken for one another comes
 * back with the same completion state, priority, text, tags and key-value
 * pairs, and with each date moved to the start of its day (the line keeps
 * only `YYYY-MM-DD`).
 */
module RoundTrip {
  import opened Wrappers
  import opened Strings
  import opened Calendar
  import opened Todo
  import opened TodoScan
  import opened ScanTokens
  import opened TodoParser
  import opened LineFacts
  import opened WrittenBody

  /** A date the writer writes as `YYYY-MM-DD`: absent, or valid with a four-digit year. */
  predicate SavedDate(d: Option<JsDate>) {
    d.None? || (d.value.Time? && FourDigitYear(d.value.ms))
  }

  /** The date that reading the written day gives back: the start of that day. */
  function DayOf(d: Option<JsDate>): Option<JsDate> {
    if d.Some? && d.value.Time? then Some(Time(StartOfDay(d.value.ms))) else d
  }

  /**
   * Items the writer writes in a form the reader takes apart the same way:
   * text that no stage and no scan can take for something else, plain tag
   * names and pairs, dates with four-digit years, no priority on a completed
   * item, a completion date whenever a completed item has a creation date
   * (otherwise the creation date would be read as the completion date), and
   * no reminder switched on.
   */
  predicate Writable(t: TodoItem) {
    && |t.text| > 0 && Clean(t.text)
    && Lacks(t.text, '+') && Lacks(t.text, '@') && Lacks(t.text, ':')
    && !StartsWith(t.text + " ", "x ") && !StartsWithPriority(t.text) && !StartsWithDate(t.text)
    && (forall k :: 0 <= k < |t.projects| ==> PlainName(t.projects[k]))
    && (forall k :: 0 <= k < |t.contexts| ==> PlainName(t.contexts[k]))
    && (forall k :: 0 <= k < |t.keyValuePairs| ==> PlainPair(t.keyValuePairs[k]))
    && DistinctKeys(t.keyValuePairs)
    && (t.completed ==> t.priority.None?)
    && SavedDate(t.creationDate)
    && (t.completed ==> SavedDate(t.completionDate))
    && (t.completed && t.creationDate.Some? ==> t.completionDate.Some?)
    && !HasEnabledReminder(t)
  }

  /** What reading the written line gives back. */
  predicate Restores(p: TodoItem, t: TodoItem) {
    && p.text == t.text && p.completed == t.completed && p.priority == t.priority
    && p.creationDate == DayOf(t.creationDate)
    && p.completionDate == (if t.completed then DayOf(t.completionDate) else None)
    && p.projects == t.projects && p.contexts == t.contexts
    && p.keyValuePairs == t.keyValuePairs && p.reminder.None?
  }

  // The written line, piece by piece

  /** A written date and the space after it, or nothing. */
  function DateWord(present: bool, d: string): string {
    if present then d + " " else ""
  }

  function PriorityWord(prio: Option<Priority>): string {
    if prio.Some? then "(" + [prio.value] + ") " else ""
  }

  /** The text and the tokens after it. */
  function BodyOf(t: TodoItem): string {
    t.text + TagsText('+', t.projects) + TagsText('@', t.contexts) + PairsText(t.keyValuePairs)
  }

  /** Everything after the completion marker and date: priority, creation date, body. */
  function MidText(prio: Option<Priority>, created: bool, creation: string, body: string): string {
    PriorityWord(prio) + (DateWord(created, creation) + body)
  }

  function LineText(completed: bool, done: bool, completion: string, mid: string): string {
    if completed then "x " + (DateWord(done, completion) + mid) else mid
  }

  /** The priority the writer writes: none on a completed item. */
  function WrittenPriority(t: TodoItem): Option<Priority> {
    if t.priority.Some? && !t.completed then t.priority else None
  }

  function WrittenLine(t: TodoItem, completion: string, creation: string): string {
    LineText(t.completed, t.completionDate.Some?, completion,
      MidText(WrittenPriority(t), t.creationDate.Some?, creation, BodyOf(t)))
  }

  /** The line the writer builds is the head pieces followed by the body. */
  lemma LineOfParts(t: TodoItem, completion: string, creation: string)
    requires !HasEnabledReminder(t)
    ensures LineOf(t, completion, creation, "") == WrittenLine(t, completion, creation)
  {
    var c := if t.completed then "x " else "";
    var cd := if t.completed then DateWord(t.completionDate.Some?, completion) else "";
    var p, crd := PriorityWord(WrittenPriority(t)), DateWord(t.creationDate.Some?, creation);
    var tp, tc, tk := TagsText('+', t.projects), TagsText('@', t.contexts), PairsText(t.keyValuePairs);
    LineOfPieces(t, completion, creation);
    Regroup(c, cd, p, crd, t.text, tp, tc, tk);
    assert WrittenLine(t, completion, creation) == c + (cd + (p + (crd + (t.text + tp + tc + tk))));
  }

  /** `LineOf` appends the pieces one after another. */
  lemma LineOfPieces(t: TodoItem, completion: string, creation: string)
    requires !HasEnabledReminder(t)
    ensures LineOf(t, completion, creation, "") ==
      "" + (if t.completed then "x " else "")
      + (if t.completed then DateWord(t.completionDate.Some?, completion) else "")
      + PriorityWord(WrittenPriority(t)) + DateWord(t.creationDate.Some?, creation)
      + t.text + TagsText('+', t.projects) + TagsText('@', t.contexts) + PairsText(t.keyValuePairs)
  {
  }

  lemma Regroup(c: string, cd: string, p: string, crd: string, x: string, tp: string, tc: string, tk: string)
    ensures "" + c + cd + p + crd + x + tp + tc + tk == c + (cd + (p + (crd + (x + tp + tc + tk))))
  {
    assert "" + c == c;
  }

  // The body: text, then tokens

  /** The tokens after the text, each after one space. */
  function TokensOf(t: TodoItem): seq<string> {
    Prefixed('+', t.projects) + Prefixed('@', t.contexts) + PairTexts(t.keyValuePairs)
  }

  lemma BodyIsTextAndTokens(t: TodoItem)
    ensures BodyOf(t) == t.text + SpaceEach(TokensOf(t))
    ensures BodyOf(t) == t.text + SpaceEach(Prefixed('+', t.projects))
      + SpaceEach(Prefixed('@', t.contexts)) + SpaceEach(PairTexts(t.keyValuePairs))
  {
    var ps, cs, ks := Prefixed('+', t.projects), Prefixed('@', t.contexts), PairTexts(t.keyValuePairs);
    var a, b, c := SpaceEach(ps), SpaceEach(cs), SpaceEach(ks);
    SpaceEachJoin(ps);
    SpaceEachJoin(cs);
    SpaceEachJoin(ks);
    assert BodyOf(t) == t.text + a + b + c;
    SpaceEachConcat(ps, cs);
    SpaceEachConcat(ps + cs, ks);
    assert SpaceEach(TokensOf(t)) == a + b + c;
    Assoc4(t.text, a, b, c);
  }

  lemma Assoc4(w: string, a: string, b: string, c: string)
    ensures w + a + b + c == w + (a + b + c)
  {
  }

  /** The last character of tokens after spaces is the last character of the last token. */
  lemma {:induction false} SpaceEachEnd(ts: seq<string>)
    requires forall k :: 0 <= k < |ts| ==> |ts[k]| > 0 && NoSpace(ts[k])
    ensures |SpaceEach(ts)| > 0 ==> !IsSpace(SpaceEach(ts)[|SpaceEach(ts)| - 1])
  {
    if |ts| > 0 {
      SpaceEachEnd(ts[1..]);
      var s := SpaceEach(ts);
      var rest := SpaceEach(ts[1..]);
      assert s == " " + ts[0] + rest;
      if |rest| == 0 {
        assert s[|s| - 1] == ts[0][|ts[0]| - 1];
      } else {
        assert s[|s| - 1] == rest[|rest| - 1];
      }
    }
  }

  /** Tokens that are non-empty and hold no whitespace. */
  predicate PlainTokens(ts: seq<string>) {
    forall k :: 0 <= k < |ts| ==> |ts[k]| > 0 && NoSpace(ts[k])
  }

  lemma TokensArePlain(t: TodoItem)
    requires Writable(t)
    ensures PlainTokens(TokensOf(t))
  {
    var ps, cs, ks := Prefixed('+', t.projects), Prefixed('@', t.contexts), PairTexts(t.keyValuePairs);
    PrefixedPlain('+', t.projects);
    PrefixedPlain('@', t.contexts);
    PairTextsPlain(t.keyValuePairs);
    PlainConcat(ps, cs);
    PlainConcat(ps + cs, ks);
  }

  lemma PlainConcat(a: seq<string>, b: seq<string>)
    requires PlainTokens(a) && PlainTokens(b)
    ensures PlainTokens(a + b)
  {
    forall k | 0 <= k < |a + b| ensures |(a + b)[k]| > 0 && NoSpace((a + b)[k]) {
      if k >= |a| {
        assert (a + b)[k] == b[k - |a|];
      }
    }
  }

  lemma PrefixedPlain(marker: char, names: seq<string>)
    requires !IsSpace(marker) && forall k :: 0 <= k < |names| ==> PlainName(names[k])
    ensures PlainTokens(Prefixed(marker, names))
  {
    var ts := Prefixed(marker, names);
    forall k | 0 <= k < |ts| ensures |ts[k]| > 0 && NoSpace(ts[k]) {
      var n := names[k];
      assert ts[k] == [marker] + n;
      forall i | 0 <= i < |ts[k]| ensures !IsSpace(ts[k][i]) {
        if i > 0 {
          assert ts[k][i] == n[i - 1];
        }
      }
    }
  }

  lemma PairTextsPlain(kvs: seq<(string, string)>)
    requires forall k :: 0 <= k < |kvs| ==> PlainPair(kvs[k])
    ensures PlainTokens(PairTexts(kvs))
  {
    var ts := PairTexts(kvs);
    forall k | 0 <= k < |ts| ensures |ts[k]| > 0 && NoSpace(ts[k]) {
      PairTextPlain(kvs[k]);
    }
  }

  lemma PairTextPlain(kv: (string, string))
    requires PlainPair(kv)
    ensures NoSpace(kv.0 + ":" + kv.1)
  {
    var s := kv.0 + ":" + kv.1;
    forall i | 0 <= i < |s| ensures !IsSpace(s[i]) {
      if i < |kv.0| {
        assert s[i] == kv.0[i] && IsWordChar(kv.0[i]);
      } else if i > |kv.0| {
        assert s[i] == kv.1[i - |kv.0| - 1];
      }
    }
  }

  /** The body starts with the text and ends with a non-space. */
  lemma BodyEdges(t: TodoItem)
    requires Writable(t)
    ensures var b := BodyOf(t);
      |b| > 0 && b[0] == t.text[0] && !IsSpace(b[0]) && !IsSpace(b[|b| - 1])
    ensures FirstWord(BodyOf(t)) == FirstWord(t.text)
    ensures !StartsWithDate(BodyOf(t)) && !StartsWithPriority(BodyOf(t))
    ensures !StartsWith(BodyOf(t), "x ")
  {
    var ts := TokensOf(t);
    BodyIsTextAndTokens(t);
    TokensArePlain(t);
    TextThenPlainTokens(t.text, ts);
  }

  lemma TextThenPlainTokens(text: string, ts: seq<string>)
    requires |text| > 0 && Clean(text)
    requires !StartsWith(text + " ", "x ") && !StartsWithPriority(text) && !StartsWithDate(text)
    requires PlainTokens(ts)
    ensures var b := text + SpaceEach(ts);
      && |b| > 0 && b[0] == text[0] && !IsSpace(b[0]) && !IsSpace(b[|b| - 1])
      && FirstWord(b) == FirstWord(text)
      && !StartsWithDate(b) && !StartsWithPriority(b) && !StartsWith(b, "x ")
  {
    var rest := SpaceEach(ts);
    SpaceEachEnd(ts);
    assert |rest| == 0 || rest[0] == ' ';
    TextThenTokens(text, rest);
  }

  lemma TextThenTokens(text: string, rest: string)
    requires |text| > 0 && Clean(text)
    requires !StartsWith(text + " ", "x ") && !StartsWithPriority(text) && !StartsWithDate(text)
    requires (|rest| == 0 || rest[0] == ' ') && (|rest| > 0 ==> !IsSpace(rest[|rest| - 1]))
    ensures var b := text + rest;
      && |b| > 0 && b[0] == text[0] && !IsSpace(b[0]) && !IsSpace(b[|b| - 1])
      && FirstWord(b) == FirstWord(text)
      && !StartsWithDate(b) && !StartsWithPriority(b) && !StartsWith(b, "x ")
  {
    var b := text + rest;
    if |rest| > 0 {
      assert b[|b| - 1] == rest[|rest| - 1];
    } else {
      assert b[|b| - 1] == text[|text| - 1];
    }
    SplitHeadConcat(text, rest, ' ');
    if |text| >= 3 {
      assert b[..3] == text[..3];
    }
    if |b| >= 2 {
      if |text| >= 2 {
        assert b[..2] == text[..2] == (text + " ")[..2];
      } else {
        assert b[..2] == (text + " ")[..2];
      }
    }
  }

  // Reading the front of the written line

  /** A date word, a space and trimmed text: the date stage takes the date and leaves the text. */
  lemma TakeDateOfWord(d: string, rest: string)
    requires IsoDateShape(d) && |rest| > 0 && !IsSpace(rest[0]) && !IsSpace(rest[|rest| - 1])
    ensures TakeDate(d + " " + rest) == (Some(ParseDate(d)), rest)
  {
    var w := d + " " + rest;
    assert w == d + (" " + rest);
    WordAtFront(w, d, " " + rest);
    assert Substring(w, 11, |w|) == rest;
    TrimOfTrimmed(rest);
  }

  /** `(c) ` and trimmed text: the priority stage takes the letter and leaves the text. */
  lemma TakePriorityOfWord(c: Priority, rest: string)
    requires |rest| > 0 && !IsSpace(rest[0])
    ensures TakePriority("(" + [c] + ") " + rest) == (Some(c), rest)
  {
    var w := "(" + [c] + ") " + rest;
    assert w[3..] == " " + rest;
    assert (" " + rest)[1..] == rest;
    TrimStartOfTrimmed(rest);
  }

  lemma PriorityEdges(c: Priority, r: string)
    requires |r| > 0
    ensures var m := "(" + [c] + ") " + r;
      m[0] == '(' && m[|m| - 1] == r[|r| - 1] && !StartsWith(m, "x ")
  {
    var m := "(" + [c] + ") " + r;
    assert m[|m| - 1] == r[|r| - 1];
    assert m[..2][0] == '(';
  }

  /** Text the stages before the scans leave alone: trimmed, and not read as a marker, priority or date. */
  predicate PlainBody(b: string) {
    && |b| > 0 && !IsSpace(b[0]) && !IsSpace(b[|b| - 1])
    && !StartsWithDate(b) && !StartsWithPriority(b) && !StartsWith(b, "x ")
  }

  /** The creation date stage on the date word, if written, and the body. */
  lemma ReadCreation(created: bool, creation: string, body: string)
    requires PlainBody(body) && (created ==> IsoDateShape(creation))
    ensures var m := DateWord(created, creation) + body;
      && TakeDate(m) == (if created then Some(ParseDate(creation)) else None, body)
      && (!created ==> m == body)
  {
    if created {
      assert DateWord(true, creation) + body == creation + " " + body;
      TakeDateOfWord(creation, body);
    } else {
      assert DateWord(false, creation) + body == body;
    }
  }

  /** The date word, if written, and the body start and end with a non-space and are not read as a priority. */
  lemma CreationEdges(created: bool, creation: string, body: string)
    requires PlainBody(body) && (created ==> IsoDateShape(creation))
    ensures var m := DateWord(created, creation) + body;
      && |m| > 0 && !IsSpace(m[0]) && !IsSpace(m[|m| - 1])
      && !StartsWithPriority(m) && !StartsWith(m, "x ")
  {
    if created {
      assert DateWord(true, creation) + body == creation + " " + body;
      DatedEdges(creation, body);
    } else {
      assert DateWord(false, creation) + body == body;
    }
  }

  lemma DatedEdges(creation: string, body: string)
    requires IsoDateShape(creation) && |body| > 0
    ensures var m := creation + " " + body;
      && !IsSpace(m[0]) && m[|m| - 1] == body[|body| - 1]
      && !StartsWithPriority(m) && !StartsWith(m, "x ")
  {
    var m := creation + " " + body;
    assert m[0] == creation[0] && m[|m| - 1] == body[|body| - 1];
    assert IsDigit(m[0]) by {
      assert creation[0] == creation[0..4][0];
    }
    assert m[..2][0] == m[0];
  }

  /** The priority stage on what follows the completion stage. */
  lemma ReadMid(prio: Option<Priority>, created: bool, creation: string, body: string)
    requires PlainBody(body) && (created ==> IsoDateShape(creation))
    ensures var m := MidText(prio, created, creation, body);
      && TakePriority(m) == (prio, DateWord(created, creation) + body)
      && |m| > 0 && !IsSpace(m[0]) && !IsSpace(m[|m| - 1]) && !StartsWith(m, "x ")
  {
    var r := DateWord(created, creation) + body;
    CreationEdges(created, creation, body);
    if prio.Some? {
      var c := prio.value;
      assert MidText(prio, created, creation, body) == "(" + [c] + ") " + r;
      PrioritizedWord(c, r);
    } else {
      assert MidText(prio, created, creation, body) == r;
    }
  }

  lemma PrioritizedWord(c: Priority, r: string)
    requires |r| > 0 && !IsSpace(r[0]) && !IsSpace(r[|r| - 1])
    ensures var m := "(" + [c] + ") " + r;
      && TakePriority(m) == (Some(c), r)
      && |m| > 0 && !IsSpace(m[0]) && !IsSpace(m[|m| - 1]) && !StartsWith(m, "x ")
  {
    TakePriorityOfWord(c, r);
    PriorityEdges(c, r);
  }

  /** The stages before the scans take the written head apart and leave the body. */
  lemma ReadLineText(completed: bool, done: bool, completion: string,
                     prio: Option<Priority>, created: bool, creation: string, body: string)
    requires PlainBody(body) && (created ==> IsoDateShape(creation))
    requires completed ==> prio.None? && (created ==> done)
    requires completed && done ==> IsoDateShape(completion)
    ensures var line := LineText(completed, done, completion, MidText(prio, created, creation, body));
      && Trim(line) == line
      && ReadHead(line) == Head(completed,
        if completed && done then Some(ParseDate(completion)) else None,
        prio,
        if created then Some(ParseDate(creation)) else None,
        body)
  {
    var m := MidText(prio, created, creation, body);
    ReadMid(prio, created, creation, body);
    ReadCreation(created, creation, body);
    if completed {
      ReadDoneLine(done, completion, m);
      var u := DateWord(done, completion) + m;
      assert TakeDate(u) == (if done then Some(ParseDate(completion)) else None, m);
      HeadOfCompleted(LineText(completed, done, completion, m), u, TakeDate(u));
    } else {
      TrimOfTrimmed(m);
      HeadOfOpen(m);
    }
  }

  /** The completion stage on `x `, the date word, if written, and the rest. */
  lemma ReadDoneLine(done: bool, completion: string, m: string)
    requires done ==> IsoDateShape(completion)
    requires |m| > 0 && !IsSpace(m[0]) && !IsSpace(m[|m| - 1])
    ensures var u := DateWord(done, completion) + m;
      var line := "x " + u;
      && Trim(line) == line && StartsWith(line, "x ") && Trim(line[2..]) == u
      && (done ==> TakeDate(u) == (Some(ParseDate(completion)), m))
  {
    var u := DateWord(done, completion) + m;
    var line := "x " + u;
    if done {
      TakeDateOfWord(completion, m);
      assert u == completion + " " + m;
      assert u[0] == completion[0] && u[|u| - 1] == m[|m| - 1];
      assert IsDigit(u[0]) by {
        assert completion[0] == completion[0..4][0];
      }
    } else {
      assert u == m;
    }
    assert line[|line| - 1] == u[|u| - 1];
    TrimOfTrimmed(line);
    assert line[..2] == "x ";
    assert line[2..] == u;
    TrimOfTrimmed(u);
  }

  lemma HeadOfCompleted(line: string, u: string, done: (Option<JsDate>, string))
    requires Trim(line) == line && StartsWith(line, "x ") && Trim(line[2..]) == u && TakeDate(u) == done
    ensures ReadHead(line) == Head(true, done.0, TakePriority(done.1).0,
      TakeDate(TakePriority(done.1).1).0, TakeDate(TakePriority(done.1).1).1)
  {
  }

  lemma HeadOfOpen(line: string)
    requires Trim(line) == line && !StartsWith(line, "x ")
    ensures ReadHead(line) == Head(false, None, TakePriority(line).0,
      TakeDate(TakePriority(line).1).0, TakeDate(TakePriority(line).1).1)
  {
  }

  // Dates

  /** The `YYYY-MM-DD` the writer writes for a date, or nothing. */
  function DayText(d: Option<JsDate>): string {
    if d.Some? && d.value.Time? then IsoDate(DateTimeOf(d.value.ms).date) else ""
  }

  /** A saved date is written as its day and read back as the start of that day. */
  lemma WrittenDay(d: Option<JsDate>)
    requires SavedDate(d) && d.Some?
    ensures FormatDate(d.value) == Ok(DayText(d))
    ensures IsoDateShape(DayText(d))
    ensures Some(ParseDate(DayText(d))) == DayOf(d)
  {
    var ms := d.value.ms;
    IsoStringDatePrefix(ms);
    IsoDateFields(DateTimeOf(ms).date);
    ParseIsoDateOfTime(ms);
  }

  // The round trip

  /** A writable item is written without error, as its head pieces and its body. */
  lemma SerializedWritable(t: TodoItem)
    requires Writable(t)
    ensures SerializedTodo(t) == Ok(WrittenLine(t, DayText(t.completionDate), DayText(t.creationDate)))
  {
    var cd, crd := DayText(t.completionDate), DayText(t.creationDate);
    if t.completed && t.completionDate.Some? {
      WrittenDay(t.completionDate);
    }
    if t.creationDate.Some? {
      WrittenDay(t.creationDate);
    }
    SerializedOfTexts(t, cd, crd);
    LineOfParts(t, cd, crd);
    WrittenLineTrimmed(t);
  }

  lemma SerializedOfTexts(t: TodoItem, completion: string, creation: string)
    requires !HasEnabledReminder(t)
    requires t.completed && t.completionDate.Some? ==> FormatDate(t.completionDate.value) == Ok(completion)
    requires t.creationDate.Some? ==> FormatDate(t.creationDate.value) == Ok(creation)
    ensures SerializedTodo(t) == Ok(Trim(LineOf(t, completion, creation, "")))
  {
    assert Substring("", 0, 16) == "";
  }

  lemma WrittenLineTrimmed(t: TodoItem)
    requires Writable(t)
    ensures var line := WrittenLine(t, DayText(t.completionDate), DayText(t.creationDate));
      Trim(line) == line
      && ReadHead(line) == Head(t.completed,
        if t.completed && t.completionDate.Some? then DayOf(t.completionDate) else None,
        t.priority, DayOf(t.creationDate), BodyOf(t))
  {
    var cd, crd := DayText(t.completionDate), DayText(t.creationDate);
    if t.completed && t.completionDate.Some? {
      WrittenDay(t.completionDate);
    }
    if t.creationDate.Some? {
      WrittenDay(t.creationDate);
    }
    BodyEdges(t);
    assert WrittenPriority(t) == t.priority;
    ReadLineText(t.completed, t.completionDate.Some?, cd, t.priority, t.creationDate.Some?, crd, BodyOf(t));
  }

  /** The scans over the written body find the item's own tags and pairs, and its text. */
  lemma ReadBody(t: TodoItem)
    requires Writable(t)
    ensures var b := BodyOf(t);
      && CleanText(b) == t.text
      && TagsOf(ProjectTag, b) == t.projects && TagsOf(ContextTag, b) == t.contexts
      && FromPairs(PairsOf(b)) == t.keyValuePairs
      && ReminderOf(b).None?
  {
    BodyIsTextAndTokens(t);
    assert BodyOf(t) == Body(t.text, t.projects, t.contexts, t.keyValuePairs);
    BodyTags(t.text, t.projects, t.contexts, t.keyValuePairs);
    BodyPairs(t.text, t.projects, t.contexts, t.keyValuePairs);
    BodyNoReminder(t.text, t.projects, t.contexts, t.keyValuePairs);
    BodyCleanText(t.text, t.projects, t.contexts, t.keyValuePairs);
    FromDistinctPairs(t.keyValuePairs);
  }

  /**
   * Reading back the line written for a writable item gives the same
   * completion state, priority, text, tags and pairs, its dates at the start
   * of their days, no reminder, and the written line as the raw text.
   */
  lemma WrittenItemReadsBack(t: TodoItem, id: string)
    requires Writable(t)
    ensures SerializedTodo(t).Ok?
    ensures var line := SerializedTodo(t).value;
      && ParsedLine(line, id).Some?
      && Restores(ParsedLine(line, id).value, t)
      && ParsedLine(line, id).value.id == id && ParsedLine(line, id).value.rawText == line
  {
    var line := WrittenLine(t, DayText(t.completionDate), DayText(t.creationDate));
    SerializedWritable(t);
    WrittenLineTrimmed(t);
    ReadBody(t);
    BodyEdges(t);
    var h := ReadHead(line);
    var b := BodyOf(t);
    assert Trim(line) != "";
    ParsedOfHead(line, id, h);
  }

  lemma ParsedOfHead(line: string, id: string, h: Head)
    requires Trim(line) != "" && ReadHead(line) == h
    ensures ParsedLine(line, id) == Some(TodoItem(id, CleanText(h.body), h.completed, h.priority,
      h.creationDate, h.completionDate, TagsOf(ProjectTag, h.body), TagsOf(ContextTag, h.body),
      FromPairs(PairsOf(h.body)), line, ReminderOf(h.body)))
  {
  }
}
