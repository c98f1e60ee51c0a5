/**
 * How the parser's scans read text that the serializer builds: a text part
 * followed by whitespace-separated `+project`, `@context` and `key:value`
 * tokens.
 */
module ScanTokens {
  import opened Strings
  import opened Wrappers
  import opened TodoScan
  import opened Calendar

  /** `s` has no occurrence of character `c`. */
  predicate Lacks(s: string, c: char) {
    forall i :: 0 <= i < |s| ==> s[i] != c
  }

  /** Each token preceded by one space. */
  function SpaceEach(ts: seq<string>): (s: string)
    ensures Boundary(s)
  {
    if |ts| == 0 then "" else " " + ts[0] + SpaceEach(ts[1..])
  }

  lemma SpaceEachConcat(xs: seq<string>, ys: seq<string>)
    ensures SpaceEach(xs + ys) == SpaceEach(xs) + SpaceEach(ys)
  {
    if |xs| > 0 {
      assert (xs + ys)[1..] == xs[1..] + ys;
      SpaceEachConcat(xs[1..], ys);
    } else {
      assert xs + ys == ys;
    }
  }

  /** `" " + list.join(" ")` when the list is non-empty, the serializer's form. */
  lemma {:induction false} SpaceEachJoin(ts: seq<string>)
    ensures SpaceEach(ts) == if |ts| == 0 then "" else " " + Join(ts, " ")
  {
    if |ts| > 1 {
      SpaceEachJoin(ts[1..]);
      assert Join(ts, " ") == ts[0] + " " + Join(ts[1..], " ");
      assert SpaceEach(ts) == " " + ts[0] + SpaceEach(ts[1..]);
    } else if |ts| == 1 {
      assert SpaceEach(ts) == " " + ts[0] + SpaceEach([]);
    }
  }

  // Scans of text with no marker

  lemma {:induction false} TagsOfLacking(p: Pattern, s: string)
    requires !p.KeyValue? && Lacks(s, Marker(p))
    ensures TagsOf(p, s) == []
    decreases |s|
  {
    if |s| > 0 {
      TagsOfLacking(p, s[1..]);
    }
  }

  lemma {:induction false} PairsOfLacking(s: string)
    requires Lacks(s, ':')
    ensures PairsOf(s) == []
    decreases |s|
  {
    if |s| > 0 {
      assert !MatchAt(KeyValue, s) by {
        var j := WordLength(s);
        if j < |s| { assert s[j] != ':'; }
      }
      PairsOfLacking(s[1..]);
    }
  }

  lemma {:induction false} StripLacking(p: Pattern, s: string)
    requires if p.KeyValue? then Lacks(s, ':') else Lacks(s, Marker(p))
    ensures Strip(p, s) == s
    decreases |s|
  {
    if |s| > 0 {
      assert !MatchAt(p, s) by {
        var j := WordLength(s);
        if p.KeyValue? && j < |s| { assert s[j] != ':'; }
      }
      StripLacking(p, s[1..]);
      assert s == [s[0]] + s[1..];
    }
  }

  lemma ReminderShape(t: string)
    ensures ReminderAt(t) ==> t[0] == 'r' && t[8] == ':' && t[22] == ':'
  {
    if ReminderAt(t) {
      assert t[..9] == ReminderKey;
      assert t[0] == t[..9][0] && t[8] == t[..9][8];
      var d := t[9..25];
      assert d[13] == ':';
    }
  }

  /** `/reminder:(…)/` has two colons, so text with at most one colon holds no reminder. */
  lemma NoReminderInOneColon(s: string)
    requires forall i, j :: 0 <= i < j < |s| && s[i] == ':' ==> s[j] != ':'
    ensures FindReminder(s).None?
  {
    forall k | 0 <= k <= |s| ensures !ReminderAt(s[k..]) {
      ReminderShape(s[k..]);
      if |s| >= k + 25 {
        assert s[k..][8] == s[k + 8] && s[k..][22] == s[k + 22];
      }
    }
  }

  // Single tokens

  /** `+name` (or `@name`) is one tag match capturing `name`. */
  lemma TagToken(p: Pattern, name: string)
    requires !p.KeyValue? && |name| > 0 && NoSpace(name)
    ensures TagsOf(p, [Marker(p)] + name) == [name]
    ensures Strip(p, [Marker(p)] + name) == ""
  {
    var t := [Marker(p)] + name;
    WholeRun(t);
    assert MatchAt(p, t) by { assert t[1] == name[0]; }
    assert t[1..|t|] == name;
    assert t[|t|..] == "";
    assert TagsOf(p, t) == [t[1..|t|]] + TagsOf(p, "");
    assert Strip(p, t) == Strip(p, "");
  }

  lemma WholeRun(t: string)
    requires |t| > 0 && (forall i :: 1 <= i < |t| ==> !IsSpace(t[i])) && !IsSpace(t[0])
    ensures RunLength(t) == |t|
  {
    RunLengthAtLeast(t, |t|);
  }

  /** `key:value` is one key-value match. */
  lemma PairToken(key: string, value: string)
    requires |key| > 0 && (forall i :: 0 <= i < |key| ==> IsWordChar(key[i]))
    requires |value| > 0 && NoSpace(value)
    ensures PairsOf(key + ":" + value) == [(key, value)]
    ensures Strip(KeyValue, key + ":" + value) == ""
  {
    var t := key + ":" + value;
    PairTokenShape(key, value);
    PairsMatchStep(t);
    StripMatchStep(KeyValue, t);
    assert t[|t|..] == "";
  }

  /** The pieces of `key:value`: the word ends at the colon and the run covers it all. */
  lemma PairTokenShape(key: string, value: string)
    requires |key| > 0 && (forall i :: 0 <= i < |key| ==> IsWordChar(key[i]))
    requires |value| > 0 && NoSpace(value)
    ensures var t := key + ":" + value;
      && WordLength(t) == |key| && RunLength(t) == |t| && MatchAt(KeyValue, t)
      && t[..|key|] == key && t[|key| + 1..|t|] == value
  {
    var t := key + ":" + value;
    ConcatAssoc(key, ":", value);
    WordLengthOfWord(key, ":" + value);
    assert t[|key|] == ':' && t[|key| + 1] == value[0] && !IsSpace(value[0]);
    assert forall i :: 0 <= i < |key| ==> t[i] == key[i];
    assert forall i :: |key| < i < |t| ==> t[i] == value[i - |key| - 1];
    WholeRun(t);
    assert t[..|key|] == key;
    assert t[|key| + 1..|t|] == value;
  }

  lemma {:induction false} WordLengthOfWord(w: string, rest: string)
    requires (forall i :: 0 <= i < |w| ==> IsWordChar(w[i])) && |rest| > 0 && !IsWordChar(rest[0])
    ensures WordLength(w + rest) == |w|
  {
    if |w| > 0 {
      assert (w + rest)[1..] == w[1..] + rest;
      WordLengthOfWord(w[1..], rest);
    } else {
      assert w + rest == rest;
    }
  }

  lemma SpaceFirst(p: Pattern, t: string)
    ensures TagsOf(ProjectTag, " " + t) == TagsOf(ProjectTag, t)
    ensures TagsOf(ContextTag, " " + t) == TagsOf(ContextTag, t)
    ensures PairsOf(" " + t) == PairsOf(t)
    ensures Strip(p, " " + t) == " " + Strip(p, t)
    ensures FindReminder(" " + t).None? <== FindReminder(t).None?
  {
    var s := " " + t;
    assert s[1..] == t;
    assert WordLength(s) == 0;
    if FindReminder(t).None? {
      forall k | 0 <= k <= |s| ensures !ReminderAt(s[k..]) {
        ReminderShape(s[k..]);
        if k > 0 {
          assert s[k..] == t[k - 1..];
        }
      }
    }
  }

  // Token lists

  /** `names.map(n => marker + n)` */
  function Prefixed(marker: char, names: seq<string>): (ts: seq<string>)
    ensures |ts| == |names| && forall k :: 0 <= k < |names| ==> ts[k] == [marker] + names[k]
  {
    if |names| == 0 then [] else [[marker] + names[0]] + Prefixed(marker, names[1..])
  }

  /** `Object.entries(record).map(([k, v]) => k + ':' + v)` */
  function PairTexts(kvs: seq<(string, string)>): (ts: seq<string>)
    ensures |ts| == |kvs| && forall k :: 0 <= k < |kvs| ==> ts[k] == kvs[k].0 + ":" + kvs[k].1
  {
    if |kvs| == 0 then [] else [kvs[0].0 + ":" + kvs[0].1] + PairTexts(kvs[1..])
  }

  lemma {:induction false} TagsOfSpaceEachNone(p: Pattern, ts: seq<string>)
    requires !p.KeyValue? && forall k :: 0 <= k < |ts| ==> TagsOf(p, ts[k]) == []
    ensures TagsOf(p, SpaceEach(ts)) == []
  {
    if |ts| > 0 {
      TagsOfSpaceEachNone(p, ts[1..]);
      TagsConcat(p, " " + ts[0], SpaceEach(ts[1..]));
      SpaceFirst(p, ts[0]);
    }
  }

  lemma {:induction false} PairsOfSpaceEachNone(ts: seq<string>)
    requires forall k :: 0 <= k < |ts| ==> PairsOf(ts[k]) == []
    ensures PairsOf(SpaceEach(ts)) == []
  {
    if |ts| > 0 {
      PairsOfSpaceEachNone(ts[1..]);
      PairsConcat(" " + ts[0], SpaceEach(ts[1..]));
      SpaceFirst(KeyValue, ts[0]);
    }
  }

  lemma {:induction false} StripSpaceEachKeeps(p: Pattern, ts: seq<string>)
    requires forall k :: 0 <= k < |ts| ==> Strip(p, ts[k]) == ts[k]
    ensures Strip(p, SpaceEach(ts)) == SpaceEach(ts)
  {
    if |ts| > 0 {
      StripSpaceEachKeeps(p, ts[1..]);
      StripConcat(p, " " + ts[0], SpaceEach(ts[1..]));
      SpaceFirst(p, ts[0]);
    }
  }

  lemma {:induction false} StripSpaceEachBlank(p: Pattern, ts: seq<string>)
    requires forall k :: 0 <= k < |ts| ==> Strip(p, ts[k]) == ""
    ensures IsBlank(Strip(p, SpaceEach(ts))) && Boundary(Strip(p, SpaceEach(ts)))
  {
    if |ts| > 0 {
      StripSpaceEachBlank(p, ts[1..]);
      StripConcat(p, " " + ts[0], SpaceEach(ts[1..]));
      SpaceFirst(p, ts[0]);
      assert Strip(p, SpaceEach(ts)) == " " + Strip(p, SpaceEach(ts[1..]));
    }
  }

  lemma StripBlank(p: Pattern, b: string)
    requires IsBlank(b)
    ensures Strip(p, b) == b
  {
    StripLacking(p, b);
  }

  lemma {:induction false} NoReminderSpaceEach(ts: seq<string>)
    requires forall k :: 0 <= k < |ts| ==> FindReminder(ts[k]).None?
    ensures FindReminder(SpaceEach(ts)).None?
  {
    if |ts| > 0 {
      NoReminderSpaceEach(ts[1..]);
      SpaceFirst(KeyValue, ts[0]);
      FindReminderConcat(" " + ts[0], SpaceEach(ts[1..]));
    }
  }

  /** A name the serializer writes after `+` or `@` and the parser reads back unchanged. */
  predicate PlainName(n: string) {
    |n| > 0 && NoSpace(n) && Lacks(n, '+') && Lacks(n, '@') && Lacks(n, ':')
  }

  /** An entry the serializer writes as `key:value` and the parser reads back unchanged. */
  predicate PlainPair(kv: (string, string)) {
    |kv.0| > 0 && (forall i :: 0 <= i < |kv.0| ==> IsWordChar(kv.0[i]))
    && |kv.1| > 0 && NoSpace(kv.1) && Lacks(kv.1, '+') && Lacks(kv.1, '@') && Lacks(kv.1, ':')
  }

  lemma {:induction false} TagsOfOwnTokens(p: Pattern, names: seq<string>)
    requires !p.KeyValue? && forall k :: 0 <= k < |names| ==> PlainName(names[k])
    ensures TagsOf(p, SpaceEach(Prefixed(Marker(p), names))) == names
  {
    if |names| > 0 {
      var ts := Prefixed(Marker(p), names);
      assert ts[1..] == Prefixed(Marker(p), names[1..]);
      TagsOfOwnTokens(p, names[1..]);
      TagsConcat(p, " " + ts[0], SpaceEach(ts[1..]));
      SpaceFirst(p, ts[0]);
      TagToken(p, names[0]);
      assert names == [names[0]] + names[1..];
    }
  }

  lemma {:induction false} PairsOfOwnTokens(kvs: seq<(string, string)>)
    requires forall k :: 0 <= k < |kvs| ==> PlainPair(kvs[k])
    ensures PairsOf(SpaceEach(PairTexts(kvs))) == kvs
  {
    if |kvs| > 0 {
      var ts := PairTexts(kvs);
      assert ts[1..] == PairTexts(kvs[1..]);
      PairsOfOwnTokens(kvs[1..]);
      PairsConcat(" " + ts[0], SpaceEach(ts[1..]));
      SpaceFirst(KeyValue, ts[0]);
      PairToken(kvs[0].0, kvs[0].1);
      assert kvs == [kvs[0]] + kvs[1..];
    }
  }
}
