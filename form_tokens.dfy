/**
 * How the forms read the project and context fields: the Material forms
 * take the whitespace-separated words that start with `+` (or `@`), and
 * the plain form takes the comma-separated entries, trimmed.
 */
module FormTokens {
  import opened Strings
  import opened TodoScan
  import opened ScanTokens

  /**
   * `s.split(/\s+/)` without its empty pieces: the maximal runs of
   * non-space characters, in order. The empty pieces that a leading or
   * trailing space gives never start with a marker, so every reading below
   * is the same with or without them.
   */
  function Words(s: string): (ws: seq<string>)
    ensures forall k :: 0 <= k < |ws| ==> |ws[k]| > 0 && NoSpace(ws[k])
    decreases |s|
  {
    if |s| == 0 then []
    else if IsSpace(s[0]) then Words(s[1..])
    else
      var n := RunLength(s);
      RunHasNoSpace(s);
      [s[..n]] + Words(s[n..])
  }

  lemma {:induction false} RunLengthOfWord(a: string, b: string)
    requires NoSpace(a) && (|b| == 0 || IsSpace(b[0]))
    ensures RunLength(a + b) == |a|
  {
    if |a| > 0 {
      assert (a + b)[1..] == a[1..] + b;
      RunLengthOfWord(a[1..], b);
    } else {
      assert a + b == b;
    }
  }

  /** Words joined by single spaces are read back as those words. */
  lemma {:induction false} WordsOfJoin(ws: seq<string>)
    requires forall k :: 0 <= k < |ws| ==> |ws[k]| > 0 && NoSpace(ws[k])
    ensures Words(Join(ws, " ")) == ws
  {
    if |ws| == 1 {
      var w := ws[0];
      RunLengthOfWord(w, "");
      assert w + "" == w && w[..|w|] == w && w[|w|..] == "";
    } else if |ws| > 1 {
      var w, rest := ws[0], Join(ws[1..], " ");
      var s := Join(ws, " ");
      assert s == w + (" " + rest);
      RunLengthOfWord(w, " " + rest);
      assert s[..|w|] == w && s[|w|..] == " " + rest;
      assert (" " + rest)[1..] == rest;
      WordsOfJoin(ws[1..]);
      assert [w] + ws[1..] == ws;
    }
  }

  /**
   * `.filter(p => p.startsWith(marker)).map(p => p.substring(1)).filter(p => p.length > 0)`
   */
  function Marked(words: seq<string>, marker: char): (names: seq<string>)
    ensures forall k :: 0 <= k < |names| ==> |names[k]| > 0
  {
    if |words| == 0 then []
    else
      var w := words[0];
      (if |w| > 1 && w[0] == marker then [w[1..]] else []) + Marked(words[1..], marker)
  }

  /** The names of a field: the words that start with the marker, without it, when something is left. */
  function MarkedNames(s: string, marker: char): (names: seq<string>)
    ensures forall k :: 0 <= k < |names| ==> |names[k]| > 0 && NoSpace(names[k])
  {
    MarkedWords(Words(s), marker);
    Marked(Words(s), marker)
  }

  /** A name is read exactly when the marker followed by it is one of the words. */
  lemma {:induction false} MarkedWords(words: seq<string>, marker: char)
    ensures forall x :: x in Marked(words, marker) <==> x != "" && [marker] + x in words
    ensures (forall k :: 0 <= k < |words| ==> NoSpace(words[k])) ==>
      forall k :: 0 <= k < |Marked(words, marker)| ==> NoSpace(Marked(words, marker)[k])
  {
    if |words| > 0 {
      MarkedWords(words[1..], marker);
      var w := words[0];
      assert words == [w] + words[1..];
      if |w| > 0 && w[0] == marker {
        assert w == [marker] + w[1..];
      }
      forall x | x != "" && [marker] + x == w ensures |w| > 1 && w[0] == marker && w[1..] == x {
        assert w[1..] == ([marker] + x)[1..];
      }
    }
  }

  /** Words without the marker add nothing. */
  lemma {:induction false} MarkedOfUnmarked(words: seq<string>, marker: char)
    requires forall k :: 0 <= k < |words| ==> |words[k]| == 0 || words[k][0] != marker
    ensures Marked(words, marker) == []
  {
    if |words| > 0 {
      MarkedOfUnmarked(words[1..], marker);
    }
  }

  /** The marked words read back as the names they mark. */
  lemma {:induction false} MarkedOfPrefixed(names: seq<string>, marker: char)
    requires forall k :: 0 <= k < |names| ==> |names[k]| > 0
    ensures Marked(Prefixed(marker, names), marker) == names
  {
    if |names| > 0 {
      assert Prefixed(marker, names)[1..] == Prefixed(marker, names[1..]);
      MarkedOfPrefixed(names[1..], marker);
      assert ([marker] + names[0])[1..] == names[0];
    }
  }

  /**
   * The text of a tag field for names, as the edit dialogs build it:
   * `names.join(' ')`, without the markers.
   */
  function TagFieldAsWritten(names: seq<string>): string {
    Join(names, " ")
  }

  /**
   * The tag field as written reads back nothing for names that do not
   * themselves start with the marker: `["work"]` becomes `[]`.
   */
  lemma TagFieldAsWrittenLosesNames(names: seq<string>, marker: char)
    requires forall k :: 0 <= k < |names| ==> |names[k]| > 0 && NoSpace(names[k]) && names[k][0] != marker
    ensures MarkedNames(TagFieldAsWritten(names), marker) == []
    ensures MarkedNames(TagFieldAsWritten(["work"]), '+') == [] != ["work"]
  {
    WordsOfJoin(names);
    MarkedOfUnmarked(names, marker);
    assert NoSpace("work");
    WordsOfJoin(["work"]);
    MarkedOfUnmarked(["work"], '+');
  }

  /** The tag field with each name marked, which reads back as the names. */
  function TagField(names: seq<string>, marker: char): string {
    Join(Prefixed(marker, names), " ")
  }

  /** The text of a tag field reads back as the names it was made from. */
  lemma TagFieldRoundTrip(names: seq<string>, marker: char)
    requires !IsSpace(marker)
    requires forall k :: 0 <= k < |names| ==> |names[k]| > 0 && NoSpace(names[k])
    ensures MarkedNames(TagField(names, marker), marker) == names
  {
    var ts := Prefixed(marker, names);
    forall k | 0 <= k < |ts| ensures |ts[k]| > 0 && NoSpace(ts[k]) {
      assert ts[k] == [marker] + names[k];
      forall i | 0 <= i < |ts[k]| ensures !IsSpace(ts[k][i]) {
        if i > 0 {
          assert ts[k][i] == names[k][i - 1];
        }
      }
    }
    WordsOfJoin(ts);
    MarkedOfPrefixed(names, marker);
  }

  // Comma lists

  /** `.map(p => p.trim()).filter(Boolean)` */
  function Kept(parts: seq<string>): (r: seq<string>)
    ensures forall k :: 0 <= k < |r| ==> r[k] != ""
  {
    if |parts| == 0 then []
    else
      var t := Trim(parts[0]);
      (if t != "" then [t] else []) + Kept(parts[1..])
  }

  /** `s.split(',').map(p => p.trim()).filter(Boolean)` */
  function CommaList(s: string): seq<string> {
    Kept(Split(s, ','))
  }

  /** `trim` only drops characters, so it adds no comma. */
  lemma TrimKeepsCharacters(s: string, c: char)
    requires forall i :: 0 <= i < |s| ==> s[i] != c
    ensures forall i :: 0 <= i < |Trim(s)| ==> Trim(s)[i] != c
  {
    var t := TrimStart(s);
    forall i | 0 <= i < |Trim(s)| ensures Trim(s)[i] != c {
      assert Trim(s)[i] == t[i] == s[|s| - |t| + i];
    }
  }

  /** `Kept` looks at the first piece, then at the rest. */
  lemma KeptStep(parts: seq<string>)
    requires |parts| > 0
    ensures Kept(parts) == (if Trim(parts[0]) != "" then [Trim(parts[0])] else []) + Kept(parts[1..])
  {
  }

  /**
   * Each entry is non-empty and already trimmed, and a string is an entry
   * exactly when it is some piece, trimmed, and not empty.
   */
  lemma KeptFacts(parts: seq<string>)
    ensures forall k :: 0 <= k < |Kept(parts)| ==> Trim(Kept(parts)[k]) == Kept(parts)[k]
    ensures forall x :: x in Kept(parts) <==> x != "" && exists p :: p in parts && Trim(p) == x
  {
    KeptTrimmed(parts);
    KeptMembers(parts);
  }

  lemma {:induction false} KeptTrimmed(parts: seq<string>)
    ensures forall k :: 0 <= k < |Kept(parts)| ==> Trim(Kept(parts)[k]) == Kept(parts)[k]
  {
    if |parts| > 0 {
      KeptTrimmed(parts[1..]);
      KeptStep(parts);
      TrimOfTrimmed(Trim(parts[0]));
    }
  }

  lemma {:induction false} KeptMembers(parts: seq<string>)
    ensures forall x :: x in Kept(parts) <==> x != "" && exists p :: p in parts && Trim(p) == x
  {
    if |parts| > 0 {
      KeptMembers(parts[1..]);
      KeptStep(parts);
      assert forall p :: p in parts <==> p == parts[0] || p in parts[1..];
    }
  }

  /** Pieces free of a character give entries free of it. */
  lemma {:induction false} KeptLacks(parts: seq<string>, c: char)
    requires forall k, i :: 0 <= k < |parts| && 0 <= i < |parts[k]| ==> parts[k][i] != c
    ensures forall k, i :: 0 <= k < |Kept(parts)| && 0 <= i < |Kept(parts)[k]| ==> Kept(parts)[k][i] != c
  {
    if |parts| > 0 {
      KeptLacks(parts[1..], c);
      TrimKeepsCharacters(parts[0], c);
    }
  }

  /**
   * Each entry of a comma list is non-empty, trimmed and free of commas,
   * and a string is an entry exactly when it is some piece between commas,
   * trimmed, and not empty.
   */
  lemma CommaListFacts(s: string)
    ensures forall k :: 0 <= k < |CommaList(s)| ==> CommaList(s)[k] != "" && Trim(CommaList(s)[k]) == CommaList(s)[k]
    ensures forall k, i :: 0 <= k < |CommaList(s)| && 0 <= i < |CommaList(s)[k]| ==> CommaList(s)[k][i] != ','
    ensures forall x :: x in CommaList(s) <==> x != "" && exists p :: p in Split(s, ',') && Trim(p) == x
  {
    KeptFacts(Split(s, ','));
    SplitPiecesLackSeparator(s, ',');
    KeptLacks(Split(s, ','), ',');
  }

  /** Entries already trimmed and free of commas, joined by commas, are read back as themselves. */
  lemma {:induction false} KeptOfTrimmed(names: seq<string>)
    requires forall k :: 0 <= k < |names| ==> names[k] != "" && Trim(names[k]) == names[k]
    ensures Kept(names) == names
  {
    if |names| > 0 {
      KeptOfTrimmed(names[1..]);
      KeptStep(names);
      assert names == [names[0]] + names[1..];
    }
  }

  lemma CommaListOfJoin(names: seq<string>)
    requires |names| >= 1
    requires forall k :: 0 <= k < |names| ==> names[k] != "" && Trim(names[k]) == names[k]
    requires forall k, i :: 0 <= k < |names| && 0 <= i < |names[k]| ==> names[k][i] != ','
    ensures CommaList(Join(names, ",")) == names
  {
    JoinSplit(names, ',');
    KeptOfTrimmed(names);
  }
}
