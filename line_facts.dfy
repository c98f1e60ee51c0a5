/**
 * What reading a line guarantees: blank lines are skipped, the front of a
 * line is read in a fixed order, a later `key:value` overwrites an earlier
 * one, and the text left after the scans is clean.
 */
module LineFacts {
  import opened Wrappers
  import opened Strings
  import opened Calendar
  import opened Todo
  import opened TodoScan
  import opened ScanTokens
  import opened TodoParser

  /** A line is skipped exactly when it is blank. */
  lemma BlankLineIsNull(line: string, id: string)
    ensures ParsedLine(line, id).None? <==> IsBlank(line)
  {
    TrimEmptyIffBlank(line);
  }

  /** Every item read from a non-blank line keeps the line, and its fields hold what the scans promise. */
  lemma ParsedLineFacts(line: string, id: string)
    requires !IsBlank(line)
    ensures ParsedLine(line, id).Some?
    ensures var t := ParsedLine(line, id).value;
      && t.id == id && t.rawText == line
      && (t.completed <==> StartsWith(Trim(line), "x "))
      && (t.completionDate.Some? ==> t.completed)
      && Clean(t.text) && NoTokens(t.text)
      && (forall k :: 0 <= k < |t.projects| ==> |t.projects[k]| > 0 && NoSpace(t.projects[k]))
      && (forall k :: 0 <= k < |t.contexts| ==> |t.contexts[k]| > 0 && NoSpace(t.contexts[k]))
      && DistinctKeys(t.keyValuePairs)
      && (t.reminder.Some? ==> ReminderRead(t.reminder.value))
  {
    TrimEmptyIffBlank(line);
    var h := ReadHead(line);
    var w := h.body;
    CleanTextHasNoTokens(w);
    FromPairsDistinct(PairsOf(w));
    ReminderOfFacts(w);
    assert ParsedLine(line, id) == Some(TodoItem(id, CleanText(w), h.completed, h.priority, h.creationDate,
      h.completionDate, TagsOf(ProjectTag, w), TagsOf(ContextTag, w), FromPairs(PairsOf(w)), line, ReminderOf(w)));
    assert h.completed <==> StartsWith(Trim(line), "x ");
    assert h.completionDate.Some? ==> h.completed;
  }

  /** A reminder as the parser reads it: switched on, not yet notified, and a message that is trimmed and non-empty. */
  predicate ReminderRead(r: Reminder) {
    && r.enabled && r.notified.None?
    && (r.message.Some? ==> (|r.message.value| > 0 && !IsSpace(r.message.value[0])
        && !IsSpace(r.message.value[|r.message.value| - 1])))
  }

  /**
   * The reminder is there exactly when the text holds a `reminder:` match;
   * its date is the match's, and its message is the text with the match
   * cut out and trimmed, none when nothing is left.
   */
  lemma ReminderOfFacts(w: string)
    ensures ReminderOf(w).Some? <==> FindReminder(w).Some?
    ensures ReminderOf(w).Some? ==> ReminderRead(ReminderOf(w).value)
    ensures ReminderOf(w).Some? ==>
      var k := FindReminder(w).value;
      var rest := Trim(w[..k] + w[k + 25..]);
      && ReminderOf(w).value.dateTime == ParseDate(w[k + 9..k + 25])
      && ReminderOf(w).value.message == (if rest == "" then None else Some(rest))
  {
    match FindReminder(w)
    case None =>
    case Some(k) =>
      var message := Trim(w[..k] + w[k + 25..]);
      var m := if message == "" then None else Some(message);
      assert ReminderOf(w) == Some(Reminder(ParseDate(w[k + 9..k + 25]), m, true, None));
      MessageRead(message);
  }

  lemma MessageRead(message: string)
    requires Trim(message) == message
    ensures ReminderRead(Reminder(InvalidDate, if message == "" then None else Some(message), true, None))
  {
  }

  // Key-value records

  /** The value of the last pair with `key`, the one a sequence of `record[key] = value` leaves. */
  function LastValue(pairs: seq<(string, string)>, key: string): (r: Option<string>)
    ensures r.Some? <==> exists i :: 0 <= i < |pairs| && pairs[i].0 == key
    decreases |pairs|
  {
    if |pairs| == 0 then None
    else
      var init := pairs[..|pairs| - 1];
      if pairs[|pairs| - 1].0 == key then Some(pairs[|pairs| - 1].1)
      else
        var r := LastValue(init, key);
        assert forall i :: 0 <= i < |init| ==> init[i] == pairs[i];
        r
  }

  /** A later duplicate key overwrites an earlier one. */
  lemma {:induction false} LaterPairWins(pairs: seq<(string, string)>, key: string)
    ensures Lookup(FromPairs(pairs), key) == LastValue(pairs, key)
    decreases |pairs|
  {
    if |pairs| > 0 {
      var init := pairs[..|pairs| - 1];
      LaterPairWins(init, key);
      PutSpec(FromPairs(init), pairs[|pairs| - 1].0, pairs[|pairs| - 1].1);
    }
  }

  /** The record built from the pairs never holds a key twice. */
  lemma {:induction false} FromPairsDistinct(pairs: seq<(string, string)>)
    ensures DistinctKeys(FromPairs(pairs))
    decreases |pairs|
  {
    if |pairs| > 0 {
      var init := pairs[..|pairs| - 1];
      FromPairsDistinct(init);
      PutSpec(FromPairs(init), pairs[|pairs| - 1].0, pairs[|pairs| - 1].1);
    }
  }

  /**
   * The key-value scan does not leave out the reminder token: a
   * `reminder:` match that starts a word also stores the key `reminder`.
   */
  lemma ReminderTokenIsKeyValue(w: string, k: nat)
    requires FindReminder(w) == Some(k) && (k == 0 || IsSpace(w[k - 1]))
    ensures Lookup(FromPairs(PairsOf(w)), "reminder").Some?
  {
    var s := w[k..];
    ReminderShape(s);
    assert s[..8] == "reminder" by {
      assert s[..9] == ReminderKey;
      assert s[..8] == s[..9][..8];
    }
    assert s == s[..8] + s[8..];
    WordLengthOfWord(s[..8], s[8..]);
    assert MatchAt(KeyValue, s) by {
      ReminderIsToken(s);
      assert s[9] == s[..25][9];
    }
    var pairs := PairsOf(s);
    assert pairs[0].0 == "reminder";
    var all: seq<(string, string)>;
    if k == 0 {
      assert w == s;
      all := pairs;
      assert all[0].0 == "reminder";
    } else {
      var a, b := w[..k - 1], w[k - 1..];
      assert w == a + b;
      PairsConcat(a, b);
      assert WordLength(b) == 0;
      assert b[1..] == s;
      all := PairsOf(w);
      assert all == PairsOf(a) + pairs;
      assert all[|PairsOf(a)|].0 == "reminder";
    }
    LaterPairWins(PairsOf(w), "reminder");
  }

  // The front of the line

  /** `(c)` at the front of a line is the priority of an open item. */
  lemma PriorityPrefix(line: string, c: Priority, rest: string, id: string)
    requires Trim(line) == "(" + [c] + ")" + rest
    ensures ParsedLine(line, id).Some?
    ensures ParsedLine(line, id).value.priority == Some(c)
    ensures !ParsedLine(line, id).value.completed
  {
    HeadOfPriority(line, c, rest);
    ParsedHead(line, id);
  }

  lemma HeadOfPriority(line: string, c: Priority, rest: string)
    requires Trim(line) == "(" + [c] + ")" + rest
    ensures ReadHead(line).priority == Some(c) && !ReadHead(line).completed
  {
    var w := Trim(line);
    assert w[0] == '(' && w[1] == c && w[2] == ')';
    assert w[..2][0] == w[0];
    assert !StartsWith(w, "x ");
    var h := ReadHead(line);
    assert h.completed == false;
    assert h.priority == TakePriority(w).0 == Some(c);
  }

  /** A date word at the front of a line is the creation date of an open item without priority. */
  lemma CreationDatePrefix(line: string, d: string, rest: string, id: string)
    requires IsoDateShape(d) && Trim(line) == d + " " + rest
    ensures ParsedLine(line, id).Some?
    ensures ParsedLine(line, id).value.creationDate == Some(ParseDate(d))
    ensures ParsedLine(line, id).value.priority.None? && !ParsedLine(line, id).value.completed
  {
    HeadOfCreationDate(line, d, rest);
    ParsedHead(line, id);
  }

  lemma HeadOfCreationDate(line: string, d: string, rest: string)
    requires IsoDateShape(d) && Trim(line) == d + " " + rest
    ensures ReadHead(line).creationDate == Some(ParseDate(d))
    ensures ReadHead(line).priority.None? && !ReadHead(line).completed
  {
    var w := Trim(line);
    IsoDateShapeChars(d);
    assert IsDigit(d[0]) by {
      assert d[0] == d[0..4][0];
    }
    assert w[0] == d[0];
    assert w[..2][0] == w[0];
    WordAtFront(w, d, " " + rest);
  }

  /** After `x `, a date word is the completion date. */
  lemma CompletionDatePrefix(line: string, d: string, tail: string, id: string)
    requires IsoDateShape(d) && (|tail| == 0 || tail[0] == ' ') && Trim(line) == "x " + d + tail
    ensures ParsedLine(line, id).Some?
    ensures ParsedLine(line, id).value.completed
    ensures ParsedLine(line, id).value.completionDate == Some(ParseDate(d))
  {
    HeadOfCompletionDate(line, d, tail);
    ParsedHead(line, id);
  }

  lemma HeadOfCompletionDate(line: string, d: string, tail: string)
    requires IsoDateShape(d) && (|tail| == 0 || tail[0] == ' ') && Trim(line) == "x " + d + tail
    ensures ReadHead(line).completed && ReadHead(line).completionDate == Some(ParseDate(d))
  {
    var w := Trim(line);
    assert StartsWith(w, "x ") by {
      assert w[..2] == "x ";
    }
    assert w[2..] == d + tail;
    var r := TrimOfDateWord(w[2..], d, tail);
    DateOfDateWord(r, d);
    HeadOfCompletedLine(line);
  }

  lemma DateOfDateWord(r: string, d: string)
    requires IsoDateShape(d) && |r| >= |d| && r[..|d|] == d
    requires |r[|d|..]| == 0 || r[|d|..][0] == ' '
    ensures TakeDate(r).0 == Some(ParseDate(d))
  {
    assert r == r[..|d|] + r[|d|..];
    WordAtFront(r, d, r[|d|..]);
  }

  lemma HeadOfCompletedLine(line: string)
    requires StartsWith(Trim(line), "x ")
    ensures ReadHead(line).completed
    ensures ReadHead(line).completionDate == TakeDate(Trim(Trim(line)[2..])).0
  {
  }

  /** Trimming a date word and what follows it keeps the date word at the front. */
  lemma TrimOfDateWord(u: string, d: string, tail: string) returns (r: string)
    requires IsoDateShape(d) && (|tail| == 0 || tail[0] == ' ') && u == d + tail
    ensures r == Trim(u) && |r| >= |d| && r[..|d|] == d
    ensures |r[|d|..]| == 0 || r[|d|..][0] == ' '
  {
    IsoDateShapeChars(d);
    assert IsDigit(d[0]) && IsDigit(d[9]) by {
      assert d[0] == d[0..4][0];
      assert d[9] == d[8..10][1];
    }
    TrimStartOfTrimmed(u);
    r := TrimEnd(u);
    assert u[|d| - 1] == d[9];
    assert r == d + r[|d|..];
    assert |r[|d|..]| == 0 || r[|d|..][0] == ' ' by {
      if |r| > |d| {
        assert r[|d|..][0] == tail[0];
      }
    }
  }

  /** The head fields of the item a non-blank line reads as are those of `ReadHead`. */
  lemma ParsedHead(line: string, id: string)
    requires Trim(line) != ""
    ensures ParsedLine(line, id).Some?
    ensures var t, h := ParsedLine(line, id).value, ReadHead(line);
      && t.completed == h.completed && t.completionDate == h.completionDate
      && t.priority == h.priority && t.creationDate == h.creationDate
  {
  }

  /** A date word followed by nothing or a space is the first word. */
  lemma WordAtFront(w: string, d: string, tail: string)
    requires IsoDateShape(d) && (|tail| == 0 || tail[0] == ' ') && w == d + tail
    ensures FirstWord(w) == d && StartsWithDate(w)
  {
    IsoDateShapeChars(d);
    SplitHeadConcat(d, tail, ' ');
    SplitHeadOfPiece(d, ' ');
  }
}
