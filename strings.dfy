/**
 * String helpers with the meaning of the JavaScript built-ins the application
 * uses: `trim`, `split` on one character, `join`, `startsWith`/`endsWith`,
 * `includes`, `padStart`, the `\s`, `\d` and `\w` character classes, the
 * whitespace collapsing `replace(/\s+/g, ' ')`, and the UTF-16 code units
 * behind `length` and the default `sort()`.
 */
module Strings {

  /** The characters matched by `\s` and removed by `String.prototype.trim`. */
  predicate IsSpace(c: char) {
    c == ' ' || c == '\t' || c == '\n' || c == '\r' || c == '\U{000B}' || c == '\U{000C}'
    || c == '\U{00A0}' || c == '\U{1680}' || ('\U{2000}' <= c <= '\U{200A}')
    || c == '\U{2028}' || c == '\U{2029}' || c == '\U{202F}' || c == '\U{205F}'
    || c == '\U{3000}' || c == '\U{FEFF}'
  }

  /** `\d` */
  predicate IsDigit(c: char) { '0' <= c <= '9' }

  /** `[A-Z]` */
  predicate IsUpper(c: char) { 'A' <= c <= 'Z' }

  /** `\w` */
  predicate IsWordChar(c: char) {
    ('a' <= c <= 'z') || ('A' <= c <= 'Z') || ('0' <= c <= '9') || c == '_'
  }

  predicate NoSpace(s: string) { forall i :: 0 <= i < |s| ==> !IsSpace(s[i]) }

  predicate AllDigits(s: string) { forall i :: 0 <= i < |s| ==> IsDigit(s[i]) }

  /** No string occurs twice. */
  predicate Distinct(xs: seq<string>) {
    forall i, j :: 0 <= i < j < |xs| ==> xs[i] != xs[j]
  }

  predicate StartsWith(s: string, prefix: string) {
    |prefix| <= |s| && s[..|prefix|] == prefix
  }

  predicate EndsWith(s: string, suffix: string) {
    |suffix| <= |s| && s[|s| - |suffix|..] == suffix
  }

  /** `hay.includes(needle)` */
  predicate Contains(hay: string, needle: string)
    decreases |hay|
  {
    StartsWith(hay, needle) || (|hay| > 0 && Contains(hay[1..], needle))
  }

  /** `toLowerCase`, restricted to ASCII letters. */
  function ToLower(s: string): (r: string)
    ensures |r| == |s|
    ensures forall i :: 0 <= i < |s| ==>
      r[i] == if IsUpper(s[i]) then (s[i] as int + 32) as char else s[i]
  {
    if |s| == 0 then ""
    else [if IsUpper(s[0]) then (s[0] as int + 32) as char else s[0]] + ToLower(s[1..])
  }

  /** Removes the leading whitespace run. */
  function TrimStart(s: string): (r: string)
    ensures |r| <= |s| && r == s[|s| - |r|..]
    ensures forall i :: 0 <= i < |s| - |r| ==> IsSpace(s[i])
    ensures |r| > 0 ==> !IsSpace(r[0])
  {
    if |s| > 0 && IsSpace(s[0]) then TrimStart(s[1..]) else s
  }

  /** Removes the trailing whitespace run. */
  function TrimEnd(s: string): (r: string)
    ensures |r| <= |s| && r == s[..|r|]
    ensures forall i :: |r| <= i < |s| ==> IsSpace(s[i])
    ensures |r| > 0 ==> !IsSpace(r[|r| - 1])
  {
    if |s| > 0 && IsSpace(s[|s| - 1]) then TrimEnd(s[..|s| - 1]) else s
  }

  /** `String.prototype.trim` */
  function Trim(s: string): (r: string)
    ensures |r| > 0 ==> !IsSpace(r[0]) && !IsSpace(r[|r| - 1])
  {
    TrimEnd(TrimStart(s))
  }

  lemma ConcatAssoc<T>(u: seq<T>, v: seq<T>, w: seq<T>)
    ensures u + (v + w) == u + v + w
  {
  }

  /** `trim` keeps one contiguous piece of its input. */
  lemma TrimIsSlice(s: string) returns (a: nat, b: nat)
    ensures a <= b <= |s| && Trim(s) == s[a..b]
  {
    var t1 := TrimStart(s);
    var t2 := TrimEnd(t1);
    a, b := |s| - |t1|, |s| - |t1| + |t2|;
    assert t2 == t1[..|t2|];
  }

  /** A string is blank when `trim` leaves nothing: `!line.trim()` in the source. */
  predicate IsBlank(s: string) { forall i :: 0 <= i < |s| ==> IsSpace(s[i]) }

  lemma TrimEmptyIffBlank(s: string)
    ensures Trim(s) == "" <==> IsBlank(s)
  {
    var t := TrimStart(s);
    if !IsBlank(s) {
      var i :| 0 <= i < |s| && !IsSpace(s[i]);
      assert |t| > 0;
      assert |TrimEnd(t)| > 0;
    }
  }

  lemma TrimOfTrimmed(s: string)
    requires |s| > 0 ==> !IsSpace(s[0]) && !IsSpace(s[|s| - 1])
    ensures Trim(s) == s
  {
  }

  lemma TrimStartOfTrimmed(s: string)
    requires |s| > 0 ==> !IsSpace(s[0])
    ensures TrimStart(s) == s
  {
  }

  lemma TrimEndOfTrimmed(s: string)
    requires |s| > 0 ==> !IsSpace(s[|s| - 1])
    ensures TrimEnd(s) == s
  {
  }

  /** `replace(/\s+/g, ' ')`: every maximal whitespace run becomes one space. */
  function CollapseSpaces(s: string): (r: string)
    decreases |s|
  {
    if |s| == 0 then ""
    else if IsSpace(s[0]) then " " + CollapseSpaces(TrimStart(s))
    else [s[0]] + CollapseSpaces(s[1..])
  }

  /** Text with no leading or trailing whitespace in which every whitespace is a lone ' '. */
  predicate Clean(s: string) {
    && (|s| > 0 ==> !IsSpace(s[0]) && !IsSpace(s[|s| - 1]))
    && (forall i :: 0 <= i < |s| && IsSpace(s[i]) ==> s[i] == ' ')
    && (forall i :: 0 <= i < |s| - 1 && IsSpace(s[i]) ==> !IsSpace(s[i + 1]))
  }

  /** Single spaces only: what `CollapseSpaces` leaves. */
  predicate Collapsed(s: string) {
    && (forall i :: 0 <= i < |s| && IsSpace(s[i]) ==> s[i] == ' ')
    && (forall i :: 0 <= i < |s| - 1 && IsSpace(s[i]) ==> !IsSpace(s[i + 1]))
  }

  lemma {:induction false} CollapseSpacesCollapsed(s: string)
    ensures Collapsed(CollapseSpaces(s))
    ensures |CollapseSpaces(s)| > 0 && IsSpace(CollapseSpaces(s)[0]) ==> |s| > 0 && IsSpace(s[0])
    decreases |s|
  {
    if |s| == 0 {
    } else if IsSpace(s[0]) {
      var t := TrimStart(s);
      CollapseSpacesCollapsed(t);
      var r := CollapseSpaces(t);
      assert CollapseSpaces(s) == " " + r;
      assert |r| > 0 ==> !IsSpace(r[0]);
    } else {
      CollapseSpacesCollapsed(s[1..]);
      var r := CollapseSpaces(s[1..]);
      assert CollapseSpaces(s) == [s[0]] + r;
    }
  }

  lemma {:induction false} CollapseSpacesOfCollapsed(s: string)
    requires Collapsed(s)
    ensures CollapseSpaces(s) == s
    decreases |s|
  {
    if |s| > 0 {
      assert Collapsed(s[1..]);
      CollapseSpacesOfCollapsed(s[1..]);
      if IsSpace(s[0]) {
        assert s[0] == ' ';
        if |s| == 1 {
          assert TrimStart(s) == "";
        } else {
          assert !IsSpace(s[1]);
          CollapseLeadingSpace(s);
        }
      } else {
        CollapseLeadingWord(s);
      }
      assert [s[0]] + s[1..] == s;
    }
  }

  /** Trimming keeps single spacing, and trimmed single-spaced text is `Clean`. */
  lemma TrimCollapsedIsClean(s: string)
    requires Collapsed(s)
    ensures Clean(Trim(s))
  {
    var t := TrimStart(s);
    var r := TrimEnd(t);
    assert forall i :: 0 <= i < |r| ==> r[i] == s[|s| - |t| + i];
  }

  lemma CleanIsCollapsed(s: string)
    requires Clean(s)
    ensures Collapsed(s)
  {
  }

  /** The text clean-up step of the parser always yields `Clean` text, and leaves clean text alone. */
  lemma CleanUpIsClean(s: string)
    ensures Clean(Trim(CollapseSpaces(s)))
    ensures Clean(s) ==> Trim(CollapseSpaces(s)) == s
  {
    CollapseSpacesCollapsed(s);
    TrimCollapsedIsClean(CollapseSpaces(s));
    if Clean(s) {
      CollapseSpacesOfCollapsed(s);
      TrimOfTrimmed(s);
    }
  }

  /** Collapsing single-spaced text followed by whitespace only adds one space. */
  lemma {:induction false} CollapseBlankTail(t: string, b: string)
    requires Collapsed(t) && (|t| == 0 || !IsSpace(t[|t| - 1])) && IsBlank(b)
    ensures CollapseSpaces(t + b) == t + (if |b| == 0 then "" else " ")
    decreases |t|
  {
    if |t| == 0 {
      assert t + b == b;
      CollapseBlank(b);
    } else {
      assert Collapsed(t[1..]);
      CollapseBlankTail(t[1..], b);
      if IsSpace(t[0]) {
        assert |t| > 1 && t[0] == ' ' && !IsSpace(t[1]);
      }
      CollapseBlankTailStep(t, b, if |b| == 0 then "" else " ");
    }
  }

  lemma CollapseBlank(b: string)
    requires IsBlank(b)
    ensures CollapseSpaces(b) == (if |b| == 0 then "" else " ")
  {
    if |b| > 0 {
      assert TrimStart(b) == "";
    }
  }

  lemma CollapseLeadingSpace(u: string)
    requires |u| > 1 && IsSpace(u[0]) && !IsSpace(u[1])
    ensures CollapseSpaces(u) == [' '] + CollapseSpaces(u[1..])
  {
    TrimStartOfTrimmed(u[1..]);
  }

  lemma CollapseLeadingWord(u: string)
    requires |u| > 0 && !IsSpace(u[0])
    ensures CollapseSpaces(u) == [u[0]] + CollapseSpaces(u[1..])
  {
  }

  lemma CollapseBlankTailStep(t: string, b: string, tail: string)
    requires |t| > 0 && (IsSpace(t[0]) ==> |t| > 1 && t[0] == ' ' && !IsSpace(t[1]))
    requires CollapseSpaces(t[1..] + b) == t[1..] + tail
    ensures CollapseSpaces(t + b) == t + tail
  {
    var v := t[1..] + b;
    SplitHead(t, b);
    if IsSpace(t[0]) {
      assert v[0] == t[1];
    }
    CollapseCons(t[0], v);
    Regroup(t, tail, CollapseSpaces(t + b), CollapseSpaces(v));
  }

  lemma SplitHead(t: string, b: string)
    requires |t| > 0
    ensures t + b == [t[0]] + (t[1..] + b)
  {
    assert t == [t[0]] + t[1..];
    ConcatAssoc([t[0]], t[1..], b);
  }

  lemma Regroup(t: string, tail: string, whole: string, rest: string)
    requires |t| > 0 && whole == [t[0]] + rest && rest == t[1..] + tail
    ensures whole == t + tail
  {
    ConcatAssoc([t[0]], t[1..], tail);
    assert [t[0]] + t[1..] == t;
  }

  lemma CollapseCons(c: char, v: string)
    requires !IsSpace(c) || (c == ' ' && |v| > 0 && !IsSpace(v[0]))
    ensures CollapseSpaces([c] + v) == [c] + CollapseSpaces(v)
  {
    var u := [c] + v;
    assert u[1..] == v && u[0] == c;
    if IsSpace(c) {
      CollapseLeadingSpace(u);
    } else {
      CollapseLeadingWord(u);
    }
  }

  /** The parser's clean-up gives back clean text that is followed only by whitespace. */
  lemma CleanUpOfCleanAndBlank(t: string, b: string)
    requires Clean(t) && IsBlank(b)
    ensures Trim(CollapseSpaces(t + b)) == t
  {
    CollapseBlankTail(t, b);
    var c := t + (if |b| == 0 then "" else " ");
    if |t| == 0 {
      assert c == "" || TrimStart(c) == "";
    } else if |b| > 0 {
      TrimStartOfTrimmed(c);
      assert c[..|c| - 1] == t;
      TrimEndOfTrimmed(t);
    } else {
      TrimStartOfTrimmed(c);
      TrimEndOfTrimmed(t);
      assert c == t;
    }
  }

  /** `s.split(sep)` for a one-character separator. */
  function Split(s: string, sep: char): (parts: seq<string>)
    ensures |parts| >= 1
  {
    if |s| == 0 then [""]
    else
      var rest := Split(s[1..], sep);
      if s[0] == sep then [""] + rest else [[s[0]] + rest[0]] + rest[1..]
  }

  /** No piece of a split holds the separator. */
  lemma {:induction false} SplitPiecesLackSeparator(s: string, sep: char)
    ensures forall k, i :: 0 <= k < |Split(s, sep)| && 0 <= i < |Split(s, sep)[k]| ==> Split(s, sep)[k][i] != sep
  {
    if |s| > 0 {
      SplitPiecesLackSeparator(s[1..], sep);
      var rest := Split(s[1..], sep);
      if s[0] != sep {
        var h := [s[0]] + rest[0];
        assert forall i :: 0 <= i < |h| ==> h[i] != sep by {
          forall i | 0 <= i < |h| ensures h[i] != sep {
            if i > 0 { assert h[i] == rest[0][i - 1]; }
          }
        }
      }
    }
  }

  /** `parts.join(sep)` */
  function Join(parts: seq<string>, sep: string): string {
    if |parts| == 0 then ""
    else if |parts| == 1 then parts[0]
    else parts[0] + sep + Join(parts[1..], sep)
  }

  lemma {:induction false} SplitJoin(s: string, sep: char)
    ensures Join(Split(s, sep), [sep]) == s
  {
    if |s| > 0 {
      SplitJoin(s[1..], sep);
      var rest := Split(s[1..], sep);
      if s[0] == sep {
        assert s == [sep] + s[1..];
      } else {
        if |rest| == 1 {
        } else {
          assert Join(rest, [sep]) == rest[0] + [sep] + Join(rest[1..], [sep]);
          assert s == [s[0]] + s[1..];
        }
      }
    }
  }

  lemma {:induction false} JoinSplit(parts: seq<string>, sep: char)
    requires |parts| >= 1
    requires forall k, i :: 0 <= k < |parts| && 0 <= i < |parts[k]| ==> parts[k][i] != sep
    ensures Split(Join(parts, [sep]), sep) == parts
    decreases |parts|, |parts[0]|
  {
    var p := parts[0];
    if |p| == 0 {
      if |parts| == 1 {
      } else {
        var j := Join(parts, [sep]);
        assert j == [sep] + Join(parts[1..], [sep]);
        JoinSplit(parts[1..], sep);
        assert j[1..] == Join(parts[1..], [sep]);
        assert [""] + parts[1..] == parts;
      }
    } else {
      var parts' := [p[1..]] + parts[1..];
      JoinSplit(parts', sep);
      var j := Join(parts, [sep]);
      assert j == [p[0]] + Join(parts', [sep]) by {
        if |parts| == 1 {
          assert j == p;
        } else {
          assert j == p + [sep] + Join(parts[1..], [sep]);
          assert Join(parts', [sep]) == p[1..] + [sep] + Join(parts[1..], [sep]);
        }
      }
      assert j[1..] == Join(parts', [sep]);
      assert [p[0]] + p[1..] == p;
      assert parts'[1..] == parts[1..];
      assert [p] + parts[1..] == parts;
    }
  }

  /** The first piece of a split depends only on the text before the first separator. */
  lemma {:induction false} SplitHeadConcat(a: string, b: string, sep: char)
    requires |b| == 0 || b[0] == sep
    ensures Split(a + b, sep)[0] == Split(a, sep)[0]
    decreases |a|
  {
    if |a| > 0 {
      SplitHeadConcat(a[1..], b, sep);
      assert (a + b)[1..] == a[1..] + b;
    } else {
      assert a + b == b;
    }
  }

  /** Text without the separator splits into itself. */
  lemma {:induction false} SplitHeadOfPiece(a: string, sep: char)
    requires forall i :: 0 <= i < |a| ==> a[i] != sep
    ensures Split(a, sep)[0] == a
    decreases |a|
  {
    if |a| > 0 {
      SplitHeadOfPiece(a[1..], sep);
    }
  }

  function DigitChar(d: nat): char
    requires d < 10
  {
    ('0' as int + d) as char
  }

  function DigitValue(c: char): nat
    requires IsDigit(c)
  {
    c as int - '0' as int
  }

  /** `String(n)` for a non-negative integer. */
  function NatToString(n: nat): (s: string)
    ensures |s| >= 1 && AllDigits(s)
    decreases n
  {
    if n < 10 then [DigitChar(n)] else NatToString(n / 10) + [DigitChar(n % 10)]
  }

  /** `String(n)` for an integer. */
  function IntToString(n: int): string {
    if n < 0 then "-" + NatToString(-n) else NatToString(n)
  }

  /** The value of a decimal digit string. */
  function DigitsValue(s: string): nat
    requires AllDigits(s)
  {
    if |s| == 0 then 0 else DigitsValue(s[..|s| - 1]) * 10 + DigitValue(s[|s| - 1])
  }

  lemma {:induction false} DigitsValueOfNatToString(n: nat)
    ensures DigitsValue(NatToString(n)) == n
    decreases n
  {
    if n >= 10 {
      DigitsValueOfNatToString(n / 10);
      var s := NatToString(n);
      assert s[..|s| - 1] == NatToString(n / 10);
    }
  }

  /** `s.padStart(width, '0')` for a digit string. */
  function PadZeros(s: string, width: nat): (r: string)
    ensures |r| == if |s| >= width then |s| else width
    ensures AllDigits(s) ==> AllDigits(r)
  {
    if |s| >= width then s else seq(width - |s|, _ => '0') + s
  }

  lemma {:induction false} LeadingZeros(z: nat, s: string)
    requires AllDigits(s)
    ensures AllDigits(seq(z, _ => '0') + s) && DigitsValue(seq(z, _ => '0') + s) == DigitsValue(s)
    decreases |s|
  {
    var t := seq(z, _ => '0') + s;
    if |s| == 0 {
      assert t == seq(z, _ => '0');
      ZerosValue(z);
    } else {
      LeadingZeros(z, s[..|s| - 1]);
      assert t[..|t| - 1] == seq(z, _ => '0') + s[..|s| - 1];
    }
  }

  lemma {:induction false} ZerosValue(z: nat)
    ensures AllDigits(seq(z, _ => '0')) && DigitsValue(seq(z, _ => '0')) == 0
  {
    if z > 0 {
      ZerosValue(z - 1);
      assert seq(z, _ => '0')[..z - 1] == seq(z - 1, _ => '0');
    }
  }

  /** A number written zero-padded to `width` digits reads back as itself. */
  lemma PaddedNumberValue(n: nat, width: nat)
    ensures AllDigits(PadZeros(NatToString(n), width))
    ensures DigitsValue(PadZeros(NatToString(n), width)) == n
  {
    var s := NatToString(n);
    DigitsValueOfNatToString(n);
    if |s| < width {
      LeadingZeros(width - |s|, s);
    }
  }

  lemma {:induction false} NatToStringLength(n: nat, k: nat)
    requires n < Pow10(k) && k >= 1
    ensures |NatToString(n)| <= k
    decreases n
  {
    if n >= 10 {
      NatToStringLength(n / 10, k - 1);
    }
  }

  function Pow10(k: nat): (r: nat)
    ensures r >= 1
  {
    if k == 0 then 1 else 10 * Pow10(k - 1)
  }

  /** A number below 10^width fills exactly `width` characters once padded. */
  lemma PaddedLength(n: nat, width: nat)
    ensures width >= 1 && n < Pow10(width) ==> |PadZeros(NatToString(n), width)| == width
  {
    if width >= 1 && n < Pow10(width) {
      NatToStringLength(n, width);
    }
  }

  lemma {:induction false} NatToStringLengthAtLeast(n: nat, k: nat)
    requires n >= Pow10(k)
    ensures |NatToString(n)| > k
    decreases n
  {
    if k > 0 {
      NatToStringLengthAtLeast(n / 10, k - 1);
    }
  }

  /** A number of exactly `width` digits is written without padding. */
  lemma PadOfFullWidth(n: nat, width: nat)
    requires width >= 1 && Pow10(width - 1) <= n < Pow10(width)
    ensures PadZeros(NatToString(n), width) == NatToString(n)
  {
    NatToStringLength(n, width);
    NatToStringLengthAtLeast(n, width - 1);
  }

  /** JavaScript `s.substring(start, end)` for non-negative arguments. */
  function Substring(s: string, start: nat, end: nat): string {
    var a, b := if start < |s| then start else |s|, if end < |s| then end else |s|;
    if a <= b then s[a..b] else s[b..a]
  }

  // UTF-16

  /** The UTF-16 code units of a character: itself below U+10000, a surrogate pair above. */
  function Utf16Units(c: char): (u: seq<int>)
    ensures |u| == (if c as int < 0x1_0000 then 1 else 2)
    ensures c as int < 0x1_0000 ==> u == [c as int] && (u[0] < 0xD800 || 0xE000 <= u[0])
    ensures c as int >= 0x1_0000 ==>
      && 0xD800 <= u[0] < 0xDC00 <= u[1] < 0xE000
      && 0x1_0000 + (u[0] - 0xD800) * 0x400 + (u[1] - 0xDC00) == c as int
  {
    var n := c as int;
    if n < 0x1_0000 then [n]
    else [0xD800 + (n - 0x1_0000) / 0x400, 0xDC00 + (n - 0x1_0000) % 0x400]
  }

  /** A string as JavaScript holds it: the code units of its characters, in order; one or two per character. */
  function Utf16(s: string): (r: seq<int>)
    ensures |s| <= |r| <= 2 * |s|
  {
    if |s| == 0 then [] else Utf16Units(s[0]) + Utf16(s[1..])
  }

  /** `s.length`: the number of UTF-16 code units. */
  function Utf16Length(s: string): nat {
    |Utf16(s)|
  }

  /** Characters below U+10000 count one each; a character above counts two, so `"\U{1F409}".length` is 2. */
  lemma {:induction false} Utf16LengthOfBasic(s: string)
    requires forall i :: 0 <= i < |s| ==> s[i] as int < 0x1_0000
    ensures Utf16Length(s) == |s|
    ensures Utf16Length("\U{1F409}") == 2 && Utf16Length("\U{1F409}\U{1F409}\U{1F409}\U{1F409}") == 8
  {
    if |s| > 0 {
      Utf16LengthOfBasic(s[1..]);
    }
    assert "\U{1F409}"[1..] == [];
    var four := "\U{1F409}\U{1F409}\U{1F409}\U{1F409}";
    assert four[1..][1..][1..][1..] == [];
  }

  /** Distinct strings have distinct code units: the encoding can be read back. */
  lemma {:induction false} Utf16Injective(a: string, b: string)
    requires Utf16(a) == Utf16(b)
    ensures a == b
  {
    if |a| > 0 && |b| > 0 {
      var ua, ub := Utf16Units(a[0]), Utf16Units(b[0]);
      assert Utf16(a) == ua + Utf16(a[1..]) && Utf16(b) == ub + Utf16(b[1..]);
      assert ua[0] == Utf16(a)[0] && ub[0] == Utf16(b)[0];
      assert |ua| == |ub|;
      if |ua| == 2 {
        assert ua[1] == Utf16(a)[1] && ub[1] == Utf16(b)[1];
      }
      assert a[0] == b[0];
      assert ua == ub;
      assert Utf16(a[1..]) == Utf16(a)[|ua|..] == Utf16(b)[|ub|..] == Utf16(b[1..]);
      Utf16Injective(a[1..], b[1..]);
      assert a == [a[0]] + a[1..] && b == [b[0]] + b[1..];
    }
  }
}
