/**
 * How the scans read the body the writer writes: the text, then the
 * `+project` tokens, the `@context` tokens and the `key:value` tokens, each
 * after one space.
 */
module WrittenBody {
  import opened Wrappers
  import opened Strings
  import opened TodoScan
  import opened ScanTokens

  /** Every token lacks character `c`. */
  predicate AllLack(ts: seq<string>, c: char) {
    forall k :: 0 <= k < |ts| ==> Lacks(ts[k], c)
  }

  lemma PrefixedLack(marker: char, names: seq<string>, c: char)
    requires marker != c && forall k :: 0 <= k < |names| ==> Lacks(names[k], c)
    ensures AllLack(Prefixed(marker, names), c)
  {
    var ts := Prefixed(marker, names);
    forall k | 0 <= k < |ts| ensures Lacks(ts[k], c) {
      assert ts[k] == [marker] + names[k];
    }
  }

  lemma PairTextsLack(kvs: seq<(string, string)>, c: char)
    requires !IsWordChar(c) && c != ':' && forall k :: 0 <= k < |kvs| ==> PlainPair(kvs[k]) && Lacks(kvs[k].1, c)
    ensures AllLack(PairTexts(kvs), c)
  {
    var ts := PairTexts(kvs);
    forall k | 0 <= k < |ts| ensures Lacks(ts[k], c) {
      PairTextLacks(kvs[k], c);
    }
  }

  lemma PairTextLacks(kv: (string, string), c: char)
    requires !IsWordChar(c) && c != ':' && PlainPair(kv) && Lacks(kv.1, c)
    ensures Lacks(kv.0 + ":" + kv.1, c)
  {
    var t := kv.0 + ":" + kv.1;
    forall i | 0 <= i < |t| ensures t[i] != c {
      if i < |kv.0| {
        assert t[i] == kv.0[i] && IsWordChar(kv.0[i]);
      } else if i > |kv.0| {
        assert t[i] == kv.1[i - |kv.0| - 1];
      }
    }
  }

  /** No token holds two colons. */
  predicate AtMostOneColon(s: string) {
    forall i, j :: 0 <= i < j < |s| && s[i] == ':' ==> s[j] != ':'
  }

  lemma PairTextsOneColon(kvs: seq<(string, string)>)
    requires forall k :: 0 <= k < |kvs| ==> PlainPair(kvs[k])
    ensures forall k :: 0 <= k < |PairTexts(kvs)| ==> AtMostOneColon(PairTexts(kvs)[k])
  {
    var ts := PairTexts(kvs);
    forall k | 0 <= k < |ts| ensures AtMostOneColon(ts[k]) {
      var kv := kvs[k];
      var t := ts[k];
      assert t == kv.0 + ":" + kv.1;
      forall i | 0 <= i < |t| && i != |kv.0| ensures t[i] != ':' {
        if i < |kv.0| {
          assert t[i] == kv.0[i] && IsWordChar(kv.0[i]);
        } else {
          assert t[i] == kv.1[i - |kv.0| - 1];
        }
      }
    }
  }

  // Scans of tokens that lack the pattern's character

  lemma TagsOfLackingTokens(p: Pattern, ts: seq<string>)
    requires !p.KeyValue? && AllLack(ts, Marker(p))
    ensures TagsOf(p, SpaceEach(ts)) == []
  {
    forall k | 0 <= k < |ts| ensures TagsOf(p, ts[k]) == [] {
      TagsOfLacking(p, ts[k]);
    }
    TagsOfSpaceEachNone(p, ts);
  }

  lemma PairsOfLackingTokens(ts: seq<string>)
    requires AllLack(ts, ':')
    ensures PairsOf(SpaceEach(ts)) == []
  {
    forall k | 0 <= k < |ts| ensures PairsOf(ts[k]) == [] {
      PairsOfLacking(ts[k]);
    }
    PairsOfSpaceEachNone(ts);
  }

  lemma StripLackingTokens(p: Pattern, ts: seq<string>)
    requires if p.KeyValue? then AllLack(ts, ':') else AllLack(ts, Marker(p))
    ensures Strip(p, SpaceEach(ts)) == SpaceEach(ts)
  {
    forall k | 0 <= k < |ts| ensures Strip(p, ts[k]) == ts[k] {
      StripLacking(p, ts[k]);
    }
    StripSpaceEachKeeps(p, ts);
  }

  lemma NoReminderInTokens(ts: seq<string>)
    requires forall k :: 0 <= k < |ts| ==> AtMostOneColon(ts[k])
    ensures FindReminder(SpaceEach(ts)).None?
  {
    forall k | 0 <= k < |ts| ensures FindReminder(ts[k]).None? {
      NoReminderInOneColon(ts[k]);
    }
    NoReminderSpaceEach(ts);
  }

  lemma LackingHasOneColon(s: string)
    requires Lacks(s, ':')
    ensures AtMostOneColon(s)
  {
  }

  // The three token groups

  /** Names and pairs the writer writes and the reader reads back unchanged. */
  predicate PlainTokens(projects: seq<string>, contexts: seq<string>, kvs: seq<(string, string)>) {
    && (forall k :: 0 <= k < |projects| ==> PlainName(projects[k]))
    && (forall k :: 0 <= k < |contexts| ==> PlainName(contexts[k]))
    && (forall k :: 0 <= k < |kvs| ==> PlainPair(kvs[k]))
  }

  /** Text the scans leave alone. */
  predicate PlainText(text: string) {
    Lacks(text, '+') && Lacks(text, '@') && Lacks(text, ':')
  }

  function Body(text: string, projects: seq<string>, contexts: seq<string>, kvs: seq<(string, string)>): string {
    text + SpaceEach(Prefixed('+', projects)) + SpaceEach(Prefixed('@', contexts)) + SpaceEach(PairTexts(kvs))
  }

  /** Each scan finds exactly its own tokens in the body. */
  lemma BodyTags(text: string, projects: seq<string>, contexts: seq<string>, kvs: seq<(string, string)>)
    requires PlainText(text) && PlainTokens(projects, contexts, kvs)
    ensures TagsOf(ProjectTag, Body(text, projects, contexts, kvs)) == projects
    ensures TagsOf(ContextTag, Body(text, projects, contexts, kvs)) == contexts
  {
    BodyProjects(text, projects, contexts, kvs);
    BodyContexts(text, projects, contexts, kvs);
  }

  lemma BodyProjects(text: string, projects: seq<string>, contexts: seq<string>, kvs: seq<(string, string)>)
    requires PlainText(text) && PlainTokens(projects, contexts, kvs)
    ensures TagsOf(ProjectTag, Body(text, projects, contexts, kvs)) == projects
  {
    PrefixedLack('@', contexts, '+');
    PairTextsLack(kvs, '+');
    TagsOfOwnTokens(ProjectTag, projects);
    TagsOfLackingTokens(ProjectTag, Prefixed('@', contexts));
    TagsOfLackingTokens(ProjectTag, PairTexts(kvs));
    TagsOfLacking(ProjectTag, text);
    TagsFour(ProjectTag, text, SpaceEach(Prefixed('+', projects)), SpaceEach(Prefixed('@', contexts)), SpaceEach(PairTexts(kvs)));
    assert [] + projects + [] + [] == projects;
  }

  lemma BodyContexts(text: string, projects: seq<string>, contexts: seq<string>, kvs: seq<(string, string)>)
    requires PlainText(text) && PlainTokens(projects, contexts, kvs)
    ensures TagsOf(ContextTag, Body(text, projects, contexts, kvs)) == contexts
  {
    PrefixedLack('+', projects, '@');
    PairTextsLack(kvs, '@');
    TagsOfOwnTokens(ContextTag, contexts);
    TagsOfLackingTokens(ContextTag, Prefixed('+', projects));
    TagsOfLackingTokens(ContextTag, PairTexts(kvs));
    TagsOfLacking(ContextTag, text);
    TagsFour(ContextTag, text, SpaceEach(Prefixed('+', projects)), SpaceEach(Prefixed('@', contexts)), SpaceEach(PairTexts(kvs)));
    assert [] + [] + contexts + [] == contexts;
  }

  lemma TagsFour(p: Pattern, w: string, x: string, y: string, z: string)
    requires !p.KeyValue? && Boundary(x) && Boundary(y) && Boundary(z)
    ensures TagsOf(p, w + x + y + z) == TagsOf(p, w) + TagsOf(p, x) + TagsOf(p, y) + TagsOf(p, z)
  {
    TagsConcat(p, w + x + y, z);
    TagsConcat(p, w + x, y);
    TagsConcat(p, w, x);
  }

  lemma BodyPairs(text: string, projects: seq<string>, contexts: seq<string>, kvs: seq<(string, string)>)
    requires PlainText(text) && PlainTokens(projects, contexts, kvs)
    ensures PairsOf(Body(text, projects, contexts, kvs)) == kvs
  {
    var sp, sc, sk := SpaceEach(Prefixed('+', projects)), SpaceEach(Prefixed('@', contexts)), SpaceEach(PairTexts(kvs));
    PrefixedLack('+', projects, ':');
    PrefixedLack('@', contexts, ':');
    PairsOfLackingTokens(Prefixed('+', projects));
    PairsOfLackingTokens(Prefixed('@', contexts));
    PairsOfOwnTokens(kvs);
    PairsOfLacking(text);
    PairsConcat(text + sp + sc, sk);
    PairsConcat(text + sp, sc);
    PairsConcat(text, sp);
    assert [] + [] + [] + kvs == kvs;
  }

  lemma BodyNoReminder(text: string, projects: seq<string>, contexts: seq<string>, kvs: seq<(string, string)>)
    requires PlainText(text) && PlainTokens(projects, contexts, kvs)
    ensures FindReminder(Body(text, projects, contexts, kvs)).None?
  {
    var ps, cs := Prefixed('+', projects), Prefixed('@', contexts);
    var sp, sc, sk := SpaceEach(ps), SpaceEach(cs), SpaceEach(PairTexts(kvs));
    PrefixedLack('+', projects, ':');
    PrefixedLack('@', contexts, ':');
    forall k | 0 <= k < |ps| ensures AtMostOneColon(ps[k]) {
      LackingHasOneColon(ps[k]);
    }
    forall k | 0 <= k < |cs| ensures AtMostOneColon(cs[k]) {
      LackingHasOneColon(cs[k]);
    }
    PairTextsOneColon(kvs);
    NoReminderInTokens(ps);
    NoReminderInTokens(cs);
    NoReminderInTokens(PairTexts(kvs));
    NoReminderInOneColon(text);
    FindReminderConcat(text, sp);
    FindReminderConcat(text + sp, sc);
    FindReminderConcat(text + sp + sc, sk);
  }

  lemma StripFour(p: Pattern, w: string, x: string, y: string, z: string)
    requires Boundary(x) && Boundary(y) && Boundary(z)
    ensures Strip(p, w + x + y + z) == Strip(p, w) + Strip(p, x) + Strip(p, y) + Strip(p, z)
  {
    StripConcat(p, w + x + y, z);
    StripConcat(p, w + x, y);
    StripConcat(p, w, x);
  }

  /** Each token of the group is one match of the pattern, so stripping leaves blanks. */
  lemma StripOwnTokens(p: Pattern, ts: seq<string>, projects: seq<string>, contexts: seq<string>, kvs: seq<(string, string)>)
    requires PlainTokens(projects, contexts, kvs)
    requires ts == match p
      case ProjectTag => Prefixed('+', projects)
      case ContextTag => Prefixed('@', contexts)
      case KeyValue => PairTexts(kvs)
    ensures IsBlank(Strip(p, SpaceEach(ts))) && Boundary(Strip(p, SpaceEach(ts)))
  {
    forall k | 0 <= k < |ts| ensures Strip(p, ts[k]) == "" {
      match p
      case ProjectTag => TagToken(ProjectTag, projects[k]);
      case ContextTag => TagToken(ContextTag, contexts[k]);
      case KeyValue => PairToken(kvs[k].0, kvs[k].1);
    }
    StripSpaceEachBlank(p, ts);
  }

  /** Removing the project matches blanks out the project tokens only. */
  lemma StripProjects(text: string, projects: seq<string>, contexts: seq<string>, kvs: seq<(string, string)>)
    requires PlainText(text) && PlainTokens(projects, contexts, kvs)
    ensures var b1 := Strip(ProjectTag, SpaceEach(Prefixed('+', projects)));
      && IsBlank(b1) && Boundary(b1)
      && Strip(ProjectTag, Body(text, projects, contexts, kvs))
         == text + b1 + SpaceEach(Prefixed('@', contexts)) + SpaceEach(PairTexts(kvs))
  {
    var cs, ks := Prefixed('@', contexts), PairTexts(kvs);
    PrefixedLack('@', contexts, '+');
    PairTextsLack(kvs, '+');
    StripOwnTokens(ProjectTag, Prefixed('+', projects), projects, contexts, kvs);
    StripLackingTokens(ProjectTag, cs);
    StripLackingTokens(ProjectTag, ks);
    StripLacking(ProjectTag, text);
    StripFour(ProjectTag, text, SpaceEach(Prefixed('+', projects)), SpaceEach(cs), SpaceEach(ks));
  }

  /** Removing the context matches then blanks out the context tokens only. */
  lemma StripContexts(text: string, b1: string, contexts: seq<string>, kvs: seq<(string, string)>)
    requires PlainText(text) && PlainTokens([], contexts, kvs) && IsBlank(b1) && Boundary(b1)
    ensures var b2 := Strip(ContextTag, SpaceEach(Prefixed('@', contexts)));
      && IsBlank(b2) && Boundary(b2)
      && Strip(ContextTag, text + b1 + SpaceEach(Prefixed('@', contexts)) + SpaceEach(PairTexts(kvs)))
         == text + b1 + b2 + SpaceEach(PairTexts(kvs))
  {
    var ks := PairTexts(kvs);
    PairTextsLack(kvs, '@');
    StripOwnTokens(ContextTag, Prefixed('@', contexts), [], contexts, kvs);
    StripLackingTokens(ContextTag, ks);
    StripLacking(ContextTag, text);
    StripBlank(ContextTag, b1);
    StripFour(ContextTag, text, b1, SpaceEach(Prefixed('@', contexts)), SpaceEach(ks));
  }

  /** Removing the key-value matches blanks out the pair tokens. */
  lemma StripPairs(text: string, b1: string, b2: string, kvs: seq<(string, string)>)
    requires PlainText(text) && PlainTokens([], [], kvs) && IsBlank(b1) && Boundary(b1)
    requires IsBlank(b2) && Boundary(b2)
    ensures var b3 := Strip(KeyValue, SpaceEach(PairTexts(kvs)));
      && IsBlank(b3) && Strip(KeyValue, text + b1 + b2 + SpaceEach(PairTexts(kvs))) == text + b1 + b2 + b3
  {
    StripOwnTokens(KeyValue, PairTexts(kvs), [], [], kvs);
    StripLacking(KeyValue, text);
    StripBlank(KeyValue, b1);
    StripBlank(KeyValue, b2);
    StripFour(KeyValue, text, b1, b2, SpaceEach(PairTexts(kvs)));
  }

  /** Removing the tokens leaves the text and blanks; the clean-up gives back clean text. */
  lemma BodyCleanText(text: string, projects: seq<string>, contexts: seq<string>, kvs: seq<(string, string)>)
    requires PlainText(text) && PlainTokens(projects, contexts, kvs) && Clean(text)
    ensures CleanText(Body(text, projects, contexts, kvs)) == text
  {
    var b1 := Strip(ProjectTag, SpaceEach(Prefixed('+', projects)));
    var b2 := Strip(ContextTag, SpaceEach(Prefixed('@', contexts)));
    var b3 := Strip(KeyValue, SpaceEach(PairTexts(kvs)));
    var w := Body(text, projects, contexts, kvs);
    StripProjects(text, projects, contexts, kvs);
    var s1 := Strip(ProjectTag, w);
    StripContexts(text, b1, contexts, kvs);
    var s2 := Strip(ContextTag, s1);
    StripPairs(text, b1, b2, kvs);
    var s3 := Strip(KeyValue, s2);
    assert s3 == text + b1 + b2 + b3;
    BlanksThenText(text, b1, b2, b3);
  }

  lemma BlanksThenText(text: string, b1: string, b2: string, b3: string)
    requires Clean(text) && IsBlank(b1) && IsBlank(b2) && IsBlank(b3)
    ensures Trim(CollapseSpaces(text + b1 + b2 + b3)) == text
  {
    var b := b1 + b2 + b3;
    assert IsBlank(b) by {
      forall i | 0 <= i < |b| ensures IsSpace(b[i]) {
        if i < |b1| {
          assert b[i] == b1[i];
        } else if i < |b1| + |b2| {
          assert b[i] == b2[i - |b1|];
        } else {
          assert b[i] == b3[i - |b1| - |b2|];
        }
      }
    }
    assert text + b1 + b2 + b3 == text + b;
    CleanUpOfCleanAndBlank(text, b);
  }
}
