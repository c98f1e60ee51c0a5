/**
 * The regular expressions of the todo.txt parser, as scans over the text.
 * `/\+(\S+)/g`, `/@(\S+)/g` and `/(\w+):(\S+)/g` are matched left to right,
 * each search resuming where the previous match ended, exactly as the
 * `exec` loops and the global `replace` calls do; `/reminder:(…)/` is
 * searched for its leftmost match.
 */
module TodoScan {
  import opened Strings
  import opened Wrappers
  import opened Calendar

  datatype Pattern = ProjectTag | ContextTag | KeyValue

  function Marker(p: Pattern): char
    requires !p.KeyValue?
  {
    if p.ProjectTag? then '+' else '@'
  }

  /** Length of the leading `\S*` run. */
  function RunLength(s: string): (n: nat)
    ensures n <= |s| && (n == |s| || IsSpace(s[n]))
  {
    if |s| == 0 || IsSpace(s[0]) then 0 else 1 + RunLength(s[1..])
  }

  /** The run holds no whitespace. */
  lemma {:induction false} RunHasNoSpace(s: string)
    ensures NoSpace(s[..RunLength(s)])
    decreases |s|
  {
    if |s| > 0 && !IsSpace(s[0]) {
      RunHasNoSpace(s[1..]);
      assert s[..RunLength(s)] == [s[0]] + s[1..][..RunLength(s[1..])];
    }
  }

  /** Length of the leading `\w*` run. */
  function WordLength(s: string): (n: nat)
    ensures n <= |s| && (n == |s| || !IsWordChar(s[n]))
  {
    if |s| == 0 || !IsWordChar(s[0]) then 0 else 1 + WordLength(s[1..])
  }

  /** The word run holds only word characters. */
  lemma {:induction false} WordIsWordChars(s: string)
    ensures forall i :: 0 <= i < WordLength(s) ==> IsWordChar(s[i])
    decreases |s|
  {
    if |s| > 0 && IsWordChar(s[0]) {
      WordIsWordChars(s[1..]);
      assert forall i :: 1 <= i < WordLength(s) ==> s[i] == s[1..][i - 1];
    }
  }

  /** The pattern matches at the very start of `s`. */
  predicate MatchAt(p: Pattern, s: string) {
    match p
    case KeyValue =>
      var j := WordLength(s);
      0 < j && j + 1 < |s| && s[j] == ':' && !IsSpace(s[j + 1])
    case _ => |s| >= 2 && s[0] == Marker(p) && !IsSpace(s[1])
  }

  /** A match always covers the whole leading non-whitespace run, and at least two characters. */
  lemma MatchIsRun(p: Pattern, s: string)
    requires MatchAt(p, s)
    ensures 2 <= RunLength(s)
    ensures p.KeyValue? ==> WordLength(s) + 1 < RunLength(s)
  {
    if p.KeyValue? {
      var j := WordLength(s);
      assert !IsSpace(s[j]) && !IsSpace(s[j + 1]);
      WordIsWordChars(s);
      assert forall i :: 0 <= i < j ==> !IsSpace(s[i]);
      RunLengthAtLeast(s, j + 2);
    } else {
      RunLengthAtLeast(s, 2);
    }
  }

  lemma {:induction false} RunLengthAtLeast(s: string, k: nat)
    requires k <= |s| && NoSpace(s[..k])
    ensures k <= RunLength(s)
  {
    if k > 0 {
      assert !IsSpace(s[0]);
      assert s[1..][..k - 1] == s[..k][1..];
      RunLengthAtLeast(s[1..], k - 1);
    }
  }

  /** The captured names of every match of `/\+(\S+)/g` or `/@(\S+)/g`, in order. */
  function TagsOf(p: Pattern, s: string): (tags: seq<string>)
    requires !p.KeyValue?
    ensures forall k :: 0 <= k < |tags| ==> |tags[k]| > 0 && NoSpace(tags[k])
    decreases |s|
  {
    if |s| == 0 then []
    else if MatchAt(p, s) then
      MatchIsRun(p, s);
      var n := RunLength(s);
      RunHasNoSpace(s);
      assert NoSpace(s[1..n]) by { assert s[1..n] == s[..n][1..]; }
      [s[1..n]] + TagsOf(p, s[n..])
    else TagsOf(p, s[1..])
  }

  /** The `(key, value)` captures of every match of `/(\w+):(\S+)/g`, in order. */
  function PairsOf(s: string): (pairs: seq<(string, string)>)
    decreases |s|
  {
    if |s| == 0 then []
    else if MatchAt(KeyValue, s) then
      MatchIsRun(KeyValue, s);
      var n, j := RunLength(s), WordLength(s);
      [(s[..j], s[j + 1..n])] + PairsOf(s[n..])
    else PairsOf(s[1..])
  }

  /** `s.replace(regex, '')` for the global pattern: every match removed. */
  function Strip(p: Pattern, s: string): (r: string)
    ensures |r| <= |s|
    decreases |s|
  {
    if |s| == 0 then ""
    else if MatchAt(p, s) then
      MatchIsRun(p, s);
      Strip(p, s[RunLength(s)..])
    else [s[0]] + Strip(p, s[1..])
  }

  const ReminderKey := "reminder:"

  /** `/reminder:(\d{4}-\d{2}-\d{2}T\d{2}:\d{2})/` matches at the start of `s`. */
  predicate ReminderAt(s: string) {
    |s| >= 25 && s[..9] == ReminderKey && IsoMinuteShape(s[9..25])
  }

  /** Position of the leftmost reminder match. */
  function FindReminder(s: string): (r: Option<nat>)
    ensures r.Some? ==> r.value + 25 <= |s| && ReminderAt(s[r.value..])
    ensures r.Some? ==> forall k :: 0 <= k < r.value ==> !ReminderAt(s[k..])
    ensures r.None? ==> forall k :: 0 <= k <= |s| ==> !ReminderAt(s[k..])
    decreases |s|
  {
    if |s| < 25 then None
    else if ReminderAt(s) then Some(0)
    else
      var rest := FindReminder(s[1..]);
      assert forall k :: 1 <= k <= |s| ==> s[k..] == s[1..][k - 1..];
      if rest.None? then None else Some(rest.value + 1)
  }

  // Scanning text made of whitespace-separated pieces

  /** `b` starts at a token boundary: it is empty or begins with whitespace. */
  predicate Boundary(b: string) {
    |b| == 0 || IsSpace(b[0])
  }

  lemma {:induction false} RunLengthConcat(a: string, b: string)
    requires Boundary(b)
    ensures RunLength(a + b) == RunLength(a)
  {
    if |a| > 0 && !IsSpace(a[0]) {
      assert (a + b)[1..] == a[1..] + b;
      RunLengthConcat(a[1..], b);
    }
  }

  lemma {:induction false} WordLengthConcat(a: string, b: string)
    requires Boundary(b)
    ensures WordLength(a + b) == WordLength(a)
  {
    if |a| > 0 && IsWordChar(a[0]) {
      assert (a + b)[1..] == a[1..] + b;
      WordLengthConcat(a[1..], b);
    } else if |a| == 0 && |b| > 0 {
      assert !IsWordChar(b[0]);
    }
  }

  lemma MatchAtConcat(p: Pattern, a: string, b: string)
    requires |a| > 0 && Boundary(b)
    ensures MatchAt(p, a + b) == MatchAt(p, a)
  {
    WordLengthConcat(a, b);
  }

  /** How each scan proceeds on `a + b` from its first character. */
  lemma ConcatStep(p: Pattern, a: string, b: string)
    requires |a| > 0 && Boundary(b)
    ensures MatchAt(p, a + b) == MatchAt(p, a)
    ensures (a + b)[1..] == a[1..] + b
    ensures MatchAt(p, a) ==> ConcatMatch(p, a, b)
  {
    MatchAtConcat(p, a, b);
    if MatchAt(p, a) {
      ConcatMatchStep(p, a, b);
    }
  }

  /** The first match of `a + b` is the first match of `a`, with the same captures. */
  predicate ConcatMatch(p: Pattern, a: string, b: string)
    requires |a| > 0
  {
    var s, n, j := a + b, RunLength(a), WordLength(a);
    2 <= n && RunLength(s) == n && s[n..] == a[n..] + b && s[1..n] == a[1..n]
    && (p.KeyValue? ==> (WordLength(s) == j && j + 1 < n && s[..j] == a[..j] && s[j + 1..n] == a[j + 1..n]))
  }

  lemma ConcatMatchStep(p: Pattern, a: string, b: string)
    requires |a| > 0 && Boundary(b) && MatchAt(p, a)
    ensures ConcatMatch(p, a, b)
  {
    RunLengthConcat(a, b);
    WordLengthConcat(a, b);
    MatchIsRun(p, a);
    var n, j := RunLength(a), WordLength(a);
    AppendSlices(a, b, 1, n);
    if p.KeyValue? {
      AppendSlices(a, b, 0, j);
      AppendSlices(a, b, j + 1, n);
    }
  }

  /** Slices of `a + b` that end inside `a` are slices of `a`. */
  lemma AppendSlices(a: string, b: string, i: nat, k: nat)
    requires i <= k <= |a|
    ensures (a + b)[i..k] == a[i..k] && (a + b)[k..] == a[k..] + b
  {
  }

  /** A match never reaches across whitespace, so pieces are scanned independently. */
  lemma {:induction false} TagsConcat(p: Pattern, a: string, b: string)
    requires !p.KeyValue? && Boundary(b)
    ensures TagsOf(p, a + b) == TagsOf(p, a) + TagsOf(p, b)
    decreases |a|
  {
    if |a| == 0 {
      assert a + b == b;
    } else {
      ConcatStep(p, a, b);
      if MatchAt(p, a) {
        TagsConcat(p, a[RunLength(a)..], b);
      } else {
        TagsConcat(p, a[1..], b);
      }
    }
  }

  lemma {:induction false} PairsConcat(a: string, b: string)
    requires Boundary(b)
    ensures PairsOf(a + b) == PairsOf(a) + PairsOf(b)
    decreases |a|
  {
    if |a| == 0 {
      assert a + b == b;
    } else if MatchAt(KeyValue, a) {
      MatchIsRun(KeyValue, a);
      PairsConcat(a[RunLength(a)..], b);
      PairsConcatMatched(a, b);
    } else {
      PairsConcat(a[1..], b);
      MatchAtConcat(KeyValue, a, b);
      AppendSlices(a, b, 0, 1);
      PairsSkipStep(a);
      PairsSkipStep(a + b);
    }
  }

  lemma PairsConcatMatched(a: string, b: string)
    requires |a| > 0 && Boundary(b) && MatchAt(KeyValue, a)
    requires PairsOf(a[RunLength(a)..] + b) == PairsOf(a[RunLength(a)..]) + PairsOf(b)
    ensures PairsOf(a + b) == PairsOf(a) + PairsOf(b)
  {
    ConcatStep(KeyValue, a, b);
    var n, j := RunLength(a), WordLength(a);
    var head := [(a[..j], a[j + 1..n])];
    var x, y := PairsOf(a[n..]), PairsOf(b);
    calc {
      PairsOf(a + b);
    == { PairsMatchStep(a + b); }
      head + PairsOf(a[n..] + b);
    ==
      head + (x + y);
    == { ConcatAssoc(head, x, y); }
      head + x + y;
    == { PairsMatchStep(a); }
      PairsOf(a) + y;
    }
  }

  lemma PairsSkipStep(s: string)
    requires |s| > 0 && !MatchAt(KeyValue, s)
    ensures PairsOf(s) == PairsOf(s[1..])
  {
  }

  lemma PairsMatchStep(s: string)
    requires MatchAt(KeyValue, s)
    ensures 2 <= RunLength(s) && WordLength(s) + 1 < RunLength(s)
    ensures PairsOf(s) == [(s[..WordLength(s)], s[WordLength(s) + 1..RunLength(s)])] + PairsOf(s[RunLength(s)..])
  {
    MatchIsRun(KeyValue, s);
  }

  lemma {:induction false} StripConcat(p: Pattern, a: string, b: string)
    requires Boundary(b)
    ensures Strip(p, a + b) == Strip(p, a) + Strip(p, b)
    decreases |a|
  {
    if |a| == 0 {
      assert a + b == b;
    } else if MatchAt(p, a) {
      MatchIsRun(p, a);
      StripConcat(p, a[RunLength(a)..], b);
      StripConcatMatched(p, a, b);
    } else {
      StripConcat(p, a[1..], b);
      StripConcatSkipped(p, a, b);
    }
  }

  lemma StripConcatMatched(p: Pattern, a: string, b: string)
    requires |a| > 0 && Boundary(b) && MatchAt(p, a)
    requires Strip(p, a[RunLength(a)..] + b) == Strip(p, a[RunLength(a)..]) + Strip(p, b)
    ensures Strip(p, a + b) == Strip(p, a) + Strip(p, b)
  {
    ConcatStep(p, a, b);
    StripMatchStep(p, a);
    StripMatchStep(p, a + b);
  }

  lemma StripConcatSkipped(p: Pattern, a: string, b: string)
    requires |a| > 0 && Boundary(b) && !MatchAt(p, a)
    requires Strip(p, a[1..] + b) == Strip(p, a[1..]) + Strip(p, b)
    ensures Strip(p, a + b) == Strip(p, a) + Strip(p, b)
  {
    MatchAtConcat(p, a, b);
    AppendSlices(a, b, 0, 1);
    var x, y := Strip(p, a[1..]), Strip(p, b);
    calc {
      Strip(p, a + b);
    == { StripSkipStep(p, a + b); }
      [a[0]] + Strip(p, a[1..] + b);
    ==
      [a[0]] + (x + y);
    == { ConcatAssoc([a[0]], x, y); }
      [a[0]] + x + y;
    == { StripSkipStep(p, a); }
      Strip(p, a) + y;
    }
  }

  lemma StripMatchStep(p: Pattern, s: string)
    requires MatchAt(p, s)
    ensures 2 <= RunLength(s) && Strip(p, s) == Strip(p, s[RunLength(s)..])
  {
    MatchIsRun(p, s);
  }

  lemma StripSkipStep(p: Pattern, s: string)
    requires |s| > 0 && !MatchAt(p, s)
    ensures Strip(p, s) == [s[0]] + Strip(p, s[1..])
  {
  }

  lemma ReminderIsToken(s: string)
    ensures ReminderAt(s) ==> NoSpace(s[..25])
  {
    if ReminderAt(s) {
      var d := s[9..25];
      assert s[..9] == ReminderKey;
      assert forall i :: 0 <= i < 9 ==> s[i] == ReminderKey[i];
      assert d[..10][0..4] == d[0..4] && d[..10][5..7] == d[5..7] && d[..10][8..10] == d[8..10];
      assert forall i :: 0 <= i < 16 ==> !IsSpace(d[i]) by {
        forall i | 0 <= i < 16 ensures !IsSpace(d[i]) {
          if i < 4 { assert d[0..4][i] == d[i]; }
          else if 5 <= i < 7 { assert d[5..7][i - 5] == d[i]; }
          else if 8 <= i < 10 { assert d[8..10][i - 8] == d[i]; }
          else if 11 <= i < 13 { assert d[11..13][i - 11] == d[i]; }
          else if 14 <= i < 16 { assert d[14..16][i - 14] == d[i]; }
        }
      }
      assert forall i :: 9 <= i < 25 ==> s[i] == d[i - 9];
    }
  }

  lemma ReminderAtPrefix(x: string, y: string)
    requires |x| >= 25 && |y| >= 25 && x[..25] == y[..25]
    ensures ReminderAt(x) == ReminderAt(y)
  {
    assert x[..9] == x[..25][..9] && y[..9] == y[..25][..9];
    assert x[9..25] == x[..25][9..] && y[9..25] == y[..25][9..];
  }

  lemma FindReminderConcat(a: string, b: string)
    requires Boundary(b) && FindReminder(a).None? && FindReminder(b).None?
    ensures FindReminder(a + b).None?
  {
    var s := a + b;
    forall k | 0 <= k <= |s| ensures !ReminderAt(s[k..]) {
      if k >= |a| {
        assert s[k..] == b[k - |a|..];
      } else if k + 25 <= |a| {
        assert s[k..][..25] == a[k..][..25];
        ReminderAtPrefix(s[k..], a[k..]);
      } else if |b| > 0 && |s| >= k + 25 {
        ReminderIsToken(s[k..]);
        assert s[k..][..25][|a| - k] == b[0];
      }
    }
  }

  // Text from which the matches have been removed

  /** No `+name` (or `@name`) match anywhere: each marker is last or followed by whitespace. */
  predicate NoTag(p: Pattern, s: string)
    requires !p.KeyValue?
  {
    forall i :: 0 <= i < |s| - 1 && s[i] == Marker(p) ==> IsSpace(s[i + 1])
  }

  /** No `key:value` match anywhere: a `:` after a word character is last or followed by whitespace. */
  predicate NoKeyValue(s: string) {
    forall i :: 0 < i < |s| - 1 && s[i] == ':' && IsWordChar(s[i - 1]) ==> IsSpace(s[i + 1])
  }

  /** `NoTag` says exactly that the pattern matches at no position. */
  lemma NoTagMeaning(p: Pattern, s: string)
    requires !p.KeyValue?
    ensures NoTag(p, s) <==> forall k :: 0 <= k < |s| ==> !MatchAt(p, s[k..])
  {
    if NoTag(p, s) {
      forall k | 0 <= k < |s| ensures !MatchAt(p, s[k..]) {
        if |s[k..]| >= 2 { assert s[k..][0] == s[k] && s[k..][1] == s[k + 1]; }
      }
    } else {
      var i :| 0 <= i < |s| - 1 && s[i] == Marker(p) && !IsSpace(s[i + 1]);
      assert MatchAt(p, s[i..]);
    }
  }

  /** `NoKeyValue` says exactly that `/(\w+):(\S+)/` matches at no position. */
  lemma NoKeyValueMeaning(s: string)
    ensures NoKeyValue(s) <==> forall k :: 0 <= k < |s| ==> !MatchAt(KeyValue, s[k..])
  {
    if NoKeyValue(s) {
      forall k | 0 <= k < |s| ensures !MatchAt(KeyValue, s[k..]) {
        NoMatchAt(s, k);
      }
    } else {
      var i :| 0 < i < |s| - 1 && s[i] == ':' && IsWordChar(s[i - 1]) && !IsSpace(s[i + 1]);
      MatchBeforeColon(s, i);
    }
  }

  lemma NoMatchAt(s: string, k: nat)
    requires NoKeyValue(s) && k < |s|
    ensures !MatchAt(KeyValue, s[k..])
  {
    var t := s[k..];
    var j := WordLength(t);
    WordIsWordChars(t);
    if 0 < j && j + 1 < |t| && t[j] == ':' {
      assert t[j - 1] == s[k + j - 1] && t[j] == s[k + j] && t[j + 1] == s[k + j + 1];
    }
  }

  lemma MatchBeforeColon(s: string, i: nat)
    requires 0 < i < |s| - 1 && s[i] == ':' && IsWordChar(s[i - 1]) && !IsSpace(s[i + 1])
    ensures MatchAt(KeyValue, s[i - 1..])
  {
    var t := s[i - 1..];
    assert t[1..][0] == ':';
    assert WordLength(t) == 1;
  }

  lemma NoTagCons(p: Pattern, x: char, r: string)
    requires !p.KeyValue?
    ensures NoTag(p, [x] + r) <==> (x == Marker(p) && |r| > 0 ==> IsSpace(r[0])) && NoTag(p, r)
  {
    var s := [x] + r;
    if NoTag(p, s) {
      NoTagTail(p, x, r);
      if x == Marker(p) && |r| > 0 {
        assert s[0] == x && s[1] == r[0];
      }
    }
    if (x == Marker(p) && |r| > 0 ==> IsSpace(r[0])) && NoTag(p, r) {
      forall i | 0 <= i < |s| - 1 && s[i] == Marker(p) ensures IsSpace(s[i + 1]) {
        if i > 0 { assert s[i] == r[i - 1] && s[i + 1] == r[i]; }
        else { assert s[0] == x && s[1] == r[0]; }
      }
    }
  }

  lemma NoTagTail(p: Pattern, x: char, r: string)
    requires !p.KeyValue? && NoTag(p, [x] + r)
    ensures NoTag(p, r)
  {
    var s := [x] + r;
    forall i | 0 <= i < |r| - 1 && r[i] == Marker(p) ensures IsSpace(r[i + 1]) {
      assert s[i + 1] == r[i] && s[i + 2] == r[i + 1];
    }
  }

  lemma NoKeyValueCons(x: char, r: string)
    ensures NoKeyValue([x] + r) <==> (|r| >= 2 && r[0] == ':' && IsWordChar(x) ==> IsSpace(r[1])) && NoKeyValue(r)
  {
    var s := [x] + r;
    if NoKeyValue(s) {
      forall i | 0 < i < |r| - 1 && r[i] == ':' && IsWordChar(r[i - 1]) ensures IsSpace(r[i + 1]) {
        assert s[i + 1] == r[i] && s[i] == r[i - 1] && s[i + 2] == r[i + 1];
      }
      if |r| >= 2 && r[0] == ':' && IsWordChar(x) { assert s[1] == r[0] && s[0] == x && s[2] == r[1]; }
    }
    if (|r| >= 2 && r[0] == ':' && IsWordChar(x) ==> IsSpace(r[1])) && NoKeyValue(r) {
      forall i | 0 < i < |s| - 1 && s[i] == ':' && IsWordChar(s[i - 1]) ensures IsSpace(s[i + 1]) {
        if i > 1 { assert s[i] == r[i - 1] && s[i + 1] == r[i] && s[i - 1] == r[i - 2]; }
        else { assert s[1] == r[0] && s[0] == x && s[2] == r[1]; }
      }
    }
  }

  lemma NoTagSlice(p: Pattern, s: string, a: nat, b: nat)
    requires !p.KeyValue? && a <= b <= |s| && NoTag(p, s)
    ensures NoTag(p, s[a..b])
  {
    var t := s[a..b];
    forall i | 0 <= i < |t| - 1 && t[i] == Marker(p) ensures IsSpace(t[i + 1]) {
      assert t[i] == s[a + i] && t[i + 1] == s[a + i + 1];
    }
  }

  lemma NoKeyValueSlice(s: string, a: nat, b: nat)
    requires a <= b <= |s| && NoKeyValue(s)
    ensures NoKeyValue(s[a..b])
  {
    var t := s[a..b];
    forall i | 0 < i < |t| - 1 && t[i] == ':' && IsWordChar(t[i - 1]) ensures IsSpace(t[i + 1]) {
      assert t[i] == s[a + i] && t[i + 1] == s[a + i + 1] && t[i - 1] == s[a + i - 1];
    }
  }

  /** What `Strip` leaves in front: the first character, or whitespace that followed a match. */
  lemma {:induction false} StripHead(p: Pattern, s: string)
    ensures |Strip(p, s)| > 0 ==> |s| > 0 && (Strip(p, s)[0] == s[0] || IsSpace(Strip(p, s)[0]))
    ensures |s| > 0 && IsSpace(s[0]) ==> Strip(p, s) == [s[0]] + Strip(p, s[1..])
    decreases |s|
  {
    if |s| > 0 && MatchAt(p, s) {
      StripMatchStep(p, s);
      var n := RunLength(s);
      StripHead(p, s[n..]);
      if n < |s| {
        assert s[n..][0] == s[n];
      }
    } else if |s| > 0 {
      StripSkipStep(p, s);
    }
  }

  lemma {:induction false} StripNoTag(p: Pattern, s: string)
    requires !p.KeyValue?
    ensures NoTag(p, Strip(p, s))
    decreases |s|
  {
    if |s| > 0 {
      if MatchAt(p, s) {
        MatchIsRun(p, s);
        StripNoTag(p, s[RunLength(s)..]);
      } else {
        var r := Strip(p, s[1..]);
        StripNoTag(p, s[1..]);
        NoTagCons(p, s[0], r);
        if s[0] == Marker(p) && |r| > 0 {
          StripHead(p, s[1..]);
          assert IsSpace(s[1]);
          StripHead(p, s[1..]);
        }
      }
    }
  }

  lemma {:induction false} StripNoKeyValue(s: string)
    ensures NoKeyValue(Strip(KeyValue, s))
    decreases |s|
  {
    if |s| > 0 {
      if MatchAt(KeyValue, s) {
        MatchIsRun(KeyValue, s);
        StripNoKeyValue(s[RunLength(s)..]);
      } else {
        var r := Strip(KeyValue, s[1..]);
        StripNoKeyValue(s[1..]);
        NoKeyValueCons(s[0], r);
        if |r| >= 2 && r[0] == ':' && IsWordChar(s[0]) {
          StripHead(KeyValue, s[1..]);
          assert s[1] == ':';
          assert s[1..][1..] == s[2..];
          assert r == [':'] + Strip(KeyValue, s[2..]);
          assert WordLength(s) == 1 by { assert WordLength(s[1..]) == 0; }
          StripHead(KeyValue, s[2..]);
        }
      }
    }
  }

  /** Removing matches of one pattern creates no match of a tag pattern. */
  lemma {:induction false} StripKeepsNoTag(p: Pattern, q: Pattern, s: string)
    requires !q.KeyValue? && NoTag(q, s)
    ensures NoTag(q, Strip(p, s))
    decreases |s|
  {
    if |s| > 0 {
      if MatchAt(p, s) {
        MatchIsRun(p, s);
        NoTagSlice(q, s, RunLength(s), |s|);
        StripKeepsNoTag(p, q, s[RunLength(s)..]);
      } else {
        var r := Strip(p, s[1..]);
        NoTagSlice(q, s, 1, |s|);
        StripKeepsNoTag(p, q, s[1..]);
        NoTagCons(q, s[0], r);
        if s[0] == Marker(q) && |r| > 0 {
          assert IsSpace(s[1]);
          StripHead(p, s[1..]);
        }
      }
    }
  }

  /** Removing tag matches creates no `key:value` match. */
  lemma {:induction false} StripKeepsNoKeyValue(p: Pattern, s: string)
    requires !p.KeyValue? && NoKeyValue(s)
    ensures NoKeyValue(Strip(p, s))
    decreases |s|
  {
    if |s| > 0 {
      if MatchAt(p, s) {
        MatchIsRun(p, s);
        NoKeyValueSlice(s, RunLength(s), |s|);
        StripKeepsNoKeyValue(p, s[RunLength(s)..]);
      } else {
        var r := Strip(p, s[1..]);
        NoKeyValueSlice(s, 1, |s|);
        StripKeepsNoKeyValue(p, s[1..]);
        NoKeyValueCons(s[0], r);
        if |r| >= 2 && r[0] == ':' && IsWordChar(s[0]) {
          StripHead(p, s[1..]);
          assert s[1] == ':';
          assert s[1..][1..] == s[2..];
          assert r == [':'] + Strip(p, s[2..]);
          StripHead(p, s[2..]);
        }
      }
    }
  }

  lemma CollapseHead(t: string)
    ensures |t| == 0 ==> CollapseSpaces(t) == ""
    ensures |t| > 0 ==> |CollapseSpaces(t)| > 0 && CollapseSpaces(t)[0] == (if IsSpace(t[0]) then ' ' else t[0])
  {
  }

  lemma {:induction false} CollapseKeepsNoTag(p: Pattern, s: string)
    requires !p.KeyValue? && NoTag(p, s)
    ensures NoTag(p, CollapseSpaces(s))
    decreases |s|
  {
    if |s| > 0 {
      if IsSpace(s[0]) {
        var t := TrimStart(s);
        NoTagSlice(p, s, |s| - |t|, |s|);
        CollapseKeepsNoTag(p, t);
        NoTagCons(p, ' ', CollapseSpaces(t));
      } else {
        NoTagSlice(p, s, 1, |s|);
        CollapseKeepsNoTag(p, s[1..]);
        NoTagCons(p, s[0], CollapseSpaces(s[1..]));
        CollapseHead(s[1..]);
      }
    }
  }

  lemma {:induction false} CollapseKeepsNoKeyValue(s: string)
    requires NoKeyValue(s)
    ensures NoKeyValue(CollapseSpaces(s))
    decreases |s|
  {
    if |s| > 0 {
      if IsSpace(s[0]) {
        var t := TrimStart(s);
        NoKeyValueSlice(s, |s| - |t|, |s|);
        CollapseKeepsNoKeyValue(t);
        NoKeyValueCons(' ', CollapseSpaces(t));
      } else {
        var r := CollapseSpaces(s[1..]);
        NoKeyValueSlice(s, 1, |s|);
        CollapseKeepsNoKeyValue(s[1..]);
        NoKeyValueCons(s[0], r);
        CollapseHead(s[1..]);
        if |r| >= 2 && r[0] == ':' && IsWordChar(s[0]) {
          assert s[1] == ':';
          assert s[1..][1..] == s[2..];
          assert r == [':'] + CollapseSpaces(s[2..]);
          CollapseHead(s[2..]);
          assert IsSpace(s[2]);
        }
      }
    }
  }

  /**
   * The clean-up of the parser: remove project, then context, then
   * key-value matches, collapse whitespace runs to one space and trim.
   */
  function CleanText(w: string): string {
    Trim(CollapseSpaces(Strip(KeyValue, Strip(ContextTag, Strip(ProjectTag, w)))))
  }

  /** No project, context or key-value match anywhere in `s`. */
  predicate NoTokens(s: string) {
    NoTag(ProjectTag, s) && NoTag(ContextTag, s) && NoKeyValue(s)
  }

  lemma StrippedHasNoTokens(w: string)
    ensures NoTokens(Strip(KeyValue, Strip(ContextTag, Strip(ProjectTag, w))))
  {
    var s1 := Strip(ProjectTag, w);
    var s2 := Strip(ContextTag, s1);
    StripNoTag(ProjectTag, w);
    StripNoTag(ContextTag, s1);
    StripKeepsNoTag(ContextTag, ProjectTag, s1);
    StripNoKeyValue(s2);
    StripKeepsNoTag(KeyValue, ProjectTag, s2);
    StripKeepsNoTag(KeyValue, ContextTag, s2);
  }

  lemma NoTokensSlice(s: string, a: nat, b: nat)
    requires a <= b <= |s| && NoTokens(s)
    ensures NoTokens(s[a..b])
  {
    NoTagSlice(ProjectTag, s, a, b);
    NoTagSlice(ContextTag, s, a, b);
    NoKeyValueSlice(s, a, b);
  }

  lemma TidyKeepsNoTokens(s: string)
    requires NoTokens(s)
    ensures NoTokens(Trim(CollapseSpaces(s)))
  {
    CollapseKeepsNoTag(ProjectTag, s);
    CollapseKeepsNoTag(ContextTag, s);
    CollapseKeepsNoKeyValue(s);
    TrimKeepsNoTokens(CollapseSpaces(s));
  }

  lemma TrimKeepsNoTokens(c: string)
    requires NoTokens(c)
    ensures NoTokens(Trim(c))
  {
    var a, b := TrimIsSlice(c);
    NoTokensSlice(c, a, b);
  }

  /** The cleaned text is `Clean` and holds no project, context or key-value match. */
  lemma CleanTextHasNoTokens(w: string)
    ensures Clean(CleanText(w)) && NoTokens(CleanText(w))
  {
    var s3 := Strip(KeyValue, Strip(ContextTag, Strip(ProjectTag, w)));
    StrippedHasNoTokens(w);
    TidyKeepsNoTokens(s3);
    CleanUpIsClean(s3);
  }
}
