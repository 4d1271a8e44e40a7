/**
 * The few Python `str` operations the bots rely on, stated over `seq<char>`:
 * `str.strip()`, `str.split(sep)`, `sep.join(parts)`, `str.replace(a, b)` for one
 * character, `int(text)` and `str(n)` for decimal integers.
 */
module Strings {
  import opened Wrappers

  /** Python's `str.isspace()` for one character: the characters `str.strip()` removes. */
  predicate IsSpace(c: char) {
    ('\t' <= c <= '\r') || ('\U{1C}' <= c <= '\U{1F}') || c == ' ' || c == '\U{85}' || c == '\U{A0}'
    || c == '\U{1680}' || ('\U{2000}' <= c <= '\U{200A}') || c == '\U{2028}' || c == '\U{2029}'
    || c == '\U{202F}' || c == '\U{205F}' || c == '\U{3000}'
  }

  /** `s.lstrip()` */
  function TrimStart(s: string): string {
    if s != [] && IsSpace(s[0]) then TrimStart(s[1..]) else s
  }

  /** `lstrip` keeps a suffix of the string that does not start with white space. */
  lemma {:induction false} TrimStartFacts(s: string)
    ensures var r := TrimStart(s);
      |r| <= |s| && r == s[|s| - |r|..] && (r != [] ==> !IsSpace(r[0]))
  {
    if s != [] && IsSpace(s[0]) {
      TrimStartFacts(s[1..]);
    }
  }

  /** `s.rstrip()` */
  function TrimEnd(s: string): string {
    if s != [] && IsSpace(s[|s| - 1]) then TrimEnd(s[..|s| - 1]) else s
  }

  /** `rstrip` keeps a prefix of the string that does not end with white space. */
  lemma {:induction false} TrimEndFacts(s: string)
    ensures var r := TrimEnd(s);
      |r| <= |s| && r == s[..|r|] && (r != [] ==> !IsSpace(r[|r| - 1]))
  {
    if s != [] && IsSpace(s[|s| - 1]) {
      TrimEndFacts(s[..|s| - 1]);
    }
  }

  /** What `lstrip` removes is white space. */
  lemma {:induction false} TrimStartSpaces(s: string)
    ensures forall i | 0 <= i < |s| - |TrimStart(s)| :: IsSpace(s[i])
  {
    if s != [] && IsSpace(s[0]) {
      TrimStartSpaces(s[1..]);
      assert forall i | 1 <= i < |s| :: s[1..][i - 1] == s[i];
    }
  }

  /** What `rstrip` removes is white space. */
  lemma {:induction false} TrimEndSpaces(s: string)
    ensures forall i | |TrimEnd(s)| <= i < |s| :: IsSpace(s[i])
  {
    if s != [] && IsSpace(s[|s| - 1]) {
      TrimEndSpaces(s[..|s| - 1]);
      assert forall i | 0 <= i < |s| - 1 :: s[..|s| - 1][i] == s[i];
    }
  }

  /** `s.strip()`: the result has no white space at either end. */
  function Strip(s: string): (r: string)
    ensures r != [] ==> !IsSpace(r[0]) && !IsSpace(r[|r| - 1])
  {
    TrimStartFacts(s);
    TrimEndFacts(TrimStart(s));
    TrimEnd(TrimStart(s))
  }

  /** The stripped string is empty exactly when the string is all white space. */
  lemma StripEmpty(s: string)
    ensures Strip(s) == [] <==> forall i | 0 <= i < |s| :: IsSpace(s[i])
  {
    var t := TrimStart(s);
    var r := TrimEnd(t);
    TrimStartFacts(s);
    TrimEndFacts(t);
    var off := |s| - |t|;
    if r == [] {
      TrimStartSpaces(s);
      TrimEndSpaces(t);
      assert t == [];
    } else {
      assert !IsSpace(s[off]) by { assert t[0] == s[off]; }
    }
  }

  /** Every character of the stripped string occurs in the string. */
  lemma StripChars(s: string, c: char)
    requires c in Strip(s)
    ensures c in s
  {
    var t := TrimStart(s);
    var r := TrimEnd(t);
    TrimStartFacts(s);
    TrimEndFacts(t);
    var i :| 0 <= i < |r| && r[i] == c;
    assert t[i] == c;
    assert s[|s| - |t| + i] == c;
  }

  /** A string without white space at its ends is its own strip. */
  lemma StripUnchanged(s: string)
    requires s != [] ==> !IsSpace(s[0]) && !IsSpace(s[|s| - 1])
    ensures Strip(s) == s
  {
  }

  /** Neither end of `s` is white space. */
  predicate Trimmed(s: string) {
    s != [] ==> !IsSpace(s[0]) && !IsSpace(s[|s| - 1])
  }

  /** A string is its own strip exactly when neither end is white space. */
  lemma TrimmedStripped(s: string)
    ensures Trimmed(s) <==> Strip(s) == s
  {
    if Trimmed(s) {
      StripUnchanged(s);
    }
  }

  /** Stripping twice is stripping once. */
  lemma StripIdempotent(s: string)
    ensures Strip(Strip(s)) == Strip(s)
  {
    StripUnchanged(Strip(s));
  }

  /** `s.replace(from, to)` for single characters. */
  function ReplaceChar(s: string, from: char, to: char): (r: string)
    ensures |r| == |s|
    ensures forall i | 0 <= i < |s| :: r[i] == (if s[i] == from then to else s[i])
  {
    if s == [] then [] else [if s[0] == from then to else s[0]] + ReplaceChar(s[1..], from, to)
  }

  /** Index of the first occurrence of `c` in `s`. */
  function IndexOf(s: string, c: char): (k: nat)
    requires c in s
    ensures k < |s| && s[k] == c && forall j | 0 <= j < k :: s[j] != c
  {
    if s[0] == c then 0 else 1 + IndexOf(s[1..], c)
  }

  /** `s.split(sep)` with a one-character separator: never empty. */
  function Split(s: string, sep: char): (parts: seq<string>)
    ensures |parts| > 0
    decreases |s|
  {
    if sep !in s then [s]
    else
      var k := IndexOf(s, sep);
      [s[..k]] + Split(s[k + 1..], sep)
  }

  /** No part of a split holds the separator. */
  lemma {:induction false} SplitPartsFree(s: string, sep: char, i: nat)
    requires i < |Split(s, sep)|
    ensures sep !in Split(s, sep)[i]
    decreases |s|
  {
    if sep in s {
      var k := IndexOf(s, sep);
      assert Split(s, sep) == [s[..k]] + Split(s[k + 1..], sep);
      if i > 0 {
        SplitPartsFree(s[k + 1..], sep, i - 1);
      }
    }
  }

  /** `sep.join(parts)` */
  function Join(parts: seq<string>, sep: string): string
  {
    if |parts| == 0 then ""
    else if |parts| == 1 then parts[0]
    else parts[0] + sep + Join(parts[1..], sep)
  }

  /** Joining the parts of a split with the separator gives back the string. */
  lemma {:induction false} JoinSplit(s: string, sep: char)
    ensures Join(Split(s, sep), [sep]) == s
    decreases |s|
  {
    if sep in s {
      var k := IndexOf(s, sep);
      var rest := Split(s[k + 1..], sep);
      assert Split(s, sep) == [s[..k]] + rest;
      JoinSplit(s[k + 1..], sep);
      assert ([s[..k]] + rest)[1..] == rest;
      assert s == s[..k] + [sep] + s[k + 1..];
    }
  }

  /** The first separator of `a + [sep] + rest` is the one after `a` when `a` has none. */
  lemma SplitAfterPart(a: string, rest: string, sep: char)
    requires sep !in a
    ensures Split(a + [sep] + rest, sep) == [a] + Split(rest, sep)
  {
    var s := a + [sep] + rest;
    assert s[|a|] == sep;
    var k := IndexOf(s, sep);
    assert s[..|a|] == a;
    assert s[k + 1..] == rest;
  }

  /** Splitting a join of separator-free parts gives back the parts. */
  lemma {:induction false} SplitJoin(parts: seq<string>, sep: char)
    requires |parts| > 0
    requires forall i | 0 <= i < |parts| :: sep !in parts[i]
    ensures Split(Join(parts, [sep]), sep) == parts
  {
    if |parts| > 1 {
      SplitJoin(parts[1..], sep);
      SplitAfterPart(parts[0], Join(parts[1..], [sep]), sep);
      assert parts == [parts[0]] + parts[1..];
    }
  }

  /** The last part of a split is a suffix of the string. */
  lemma LastPartIsSuffix(s: string, sep: char)
    ensures var p := Split(s, sep); var last := p[|p| - 1];
      |last| <= |s| && s[|s| - |last|..] == last
  {
    if sep in s {
      LastPartAfterLastSeparator(s, sep);
    }
  }

  /**
   * The last part of a split is the text after the last separator: the whole string when there
   * is no separator, and preceded by a separator otherwise.
   */
  lemma LastPartAfterSeparator(s: string, sep: char)
    ensures var p := Split(s, sep); var last := p[|p| - 1];
      && (sep !in s ==> last == s)
      && (sep in s ==> |last| < |s| && s[|s| - |last| - 1] == sep)
  {
    if sep in s {
      LastPartAfterLastSeparator(s, sep);
    }
  }

  lemma LastPartAfterLastSeparator(s: string, sep: char)
    requires sep in s
    ensures var p := Split(s, sep); var last := p[|p| - 1];
      |last| < |s| && s[|s| - |last| - 1] == sep && s[|s| - |last|..] == last
  {
    var p := Split(s, sep);
    var last := p[|p| - 1];
    SplitLast(s, sep);
    assert last == AfterLast(s, sep);
    AfterLastFacts(s, sep);
    AfterLastSeparator(s, sep);
    assert |last| < |s| && s[|s| - |last| - 1] == sep;
    assert s[|s| - |last|..] == last;
  }

  /** The text after the last `sep` of `s`, or all of `s` when it has none. */
  function AfterLast(s: string, sep: char): string
  {
    if s == [] || s[|s| - 1] == sep then [] else AfterLast(s[..|s| - 1], sep) + [s[|s| - 1]]
  }

  /** The last part of a split is the text after the last separator. */
  lemma {:induction false} SplitLast(s: string, sep: char)
    ensures var p := Split(s, sep); p[|p| - 1] == AfterLast(s, sep)
    decreases |s|
  {
    var p := Split(s, sep);
    var last := p[|p| - 1];
    if sep in s {
      var rest := s[IndexOf(s, sep) + 1..];
      var q := Split(rest, sep);
      SplitLastStep(s, sep);
      assert last == q[|q| - 1];
      SplitLast(rest, sep);
      assert last == AfterLast(rest, sep);
      AfterFirstSeparator(s, sep);
    } else {
      assert p == [s];
      assert last == s;
      AfterLastFacts(s, sep);
    }
  }

  /** The last part of a split at a separator is the last part of the split after its first. */
  lemma SplitLastStep(s: string, sep: char)
    requires sep in s
    ensures var p := Split(s, sep); var q := Split(s[IndexOf(s, sep) + 1..], sep);
      p[|p| - 1] == q[|q| - 1]
  {
    var k := IndexOf(s, sep);
    var p := Split(s, sep);
    var q := Split(s[k + 1..], sep);
    assert p == [s[..k]] + q;
  }

  /** What follows the last separator of `s` is what follows the last one after its first. */
  lemma AfterFirstSeparator(s: string, sep: char)
    requires sep in s
    ensures AfterLast(s, sep) == AfterLast(s[IndexOf(s, sep) + 1..], sep)
  {
    var k := IndexOf(s, sep);
    assert s == s[..k] + [sep] + s[k + 1..];
    AfterSeparator(s[..k], s[k + 1..], sep);
  }

  /** What follows the last separator is unaffected by anything up to and including an earlier one. */
  lemma {:induction false} AfterSeparator(x: string, y: string, sep: char)
    ensures AfterLast(x + [sep] + y, sep) == AfterLast(y, sep)
    decreases |y|
  {
    var z := x + [sep] + y;
    if y == [] {
      assert z[|z| - 1] == sep;
    } else {
      var n := |y| - 1;
      assert z[|z| - 1] == y[n];
      assert z[..|z| - 1] == x + [sep] + y[..n];
      AfterSeparator(x, y[..n], sep);
    }
  }

  /** The text after the last separator is a suffix, and all of `s` when there is no separator. */
  lemma {:induction false} AfterLastFacts(s: string, sep: char)
    ensures var r := AfterLast(s, sep);
      |r| <= |s| && s[|s| - |r|..] == r && (sep !in s ==> r == s)
    decreases |s|
  {
    if s != [] && s[|s| - 1] != sep {
      var n := |s| - 1;
      var front := s[..n];
      AfterLastFacts(front, sep);
      var r := AfterLast(front, sep);
      assert s == front + [s[n]];
      assert s[|s| - |r| - 1..] == front[|front| - |r|..] + [s[n]];
    }
  }

  /** When `s` has a separator, the text after the last one is preceded by it. */
  lemma {:induction false} AfterLastSeparator(s: string, sep: char)
    requires sep in s
    ensures var r := AfterLast(s, sep); |r| < |s| && s[|s| - |r| - 1] == sep
    decreases |s|
  {
    var n := |s| - 1;
    if s[n] != sep {
      var front := s[..n];
      assert s == front + [s[n]];
      assert sep in front;
      AfterLastSeparator(front, sep);
      var r := AfterLast(front, sep);
      assert s[|s| - |r| - 2] == front[|front| - |r| - 1];
    }
  }

  predicate IsDigit(c: char) { '0' <= c <= '9' }

  function DigitValue(c: char): nat
    requires IsDigit(c)
  {
    (c as int) - ('0' as int)
  }

  function DigitChar(d: nat): (c: char)
    requires d < 10
    ensures IsDigit(c) && DigitValue(c) == d
  {
    (('0' as int) + d) as char
  }

  /** The digits of Python's `int()` literal in base 10: ASCII digits, single `_` between digits. */
  predicate IsDigitBody(d: string) {
    && |d| > 0 && IsDigit(d[0]) && IsDigit(d[|d| - 1])
    && (forall i | 0 <= i < |d| :: IsDigit(d[i]) || d[i] == '_')
    && (forall i | 0 <= i < |d| - 1 :: d[i] == '_' ==> d[i + 1] != '_')
  }

  /** Value of a digit body, underscores ignored. */
  function BodyValue(d: string): nat
  {
    if d == [] then 0
    else
      var last := d[|d| - 1];
      if IsDigit(last) then BodyValue(d[..|d| - 1]) * 10 + DigitValue(last)
      else BodyValue(d[..|d| - 1])
  }

  /** An optional sign followed by a digit body, the text already stripped. */
  function ParseSigned(t: string): Option<int>
  {
    if |t| > 0 && (t[0] == '-' || t[0] == '+') then
      var v: int := BodyValue(t[1..]);
      if IsDigitBody(t[1..]) then Some(if t[0] == '-' then -v else v) else None
    else if IsDigitBody(t) then Some(BodyValue(t))
    else None
  }

  /**
   * Python's `int(text)` for base 10: surrounding white space is ignored, an optional sign,
   * then a digit body. `None` stands for the `ValueError` it raises otherwise.
   */
  function ParseInt(text: string): Option<int>
  {
    ParseSigned(Strip(text))
  }

  /** `str(n)` for a natural number: decimal digits, no leading zero. */
  function NatToString(n: nat): (s: string)
    ensures |s| > 0 && forall i | 0 <= i < |s| :: IsDigit(s[i])
    ensures |s| > 1 ==> s[0] != '0'
  {
    if n < 10 then [DigitChar(n)] else NatToString(n / 10) + [DigitChar(n % 10)]
  }

  /** `str(n)` for an integer. */
  function IntToString(n: int): string
  {
    if n < 0 then "-" + NatToString(-n) else NatToString(n)
  }

  lemma {:induction false} NatToStringValue(n: nat)
    ensures IsDigitBody(NatToString(n)) && BodyValue(NatToString(n)) == n
  {
    if n >= 10 {
      NatToStringValue(n / 10);
      var s := NatToString(n);
      assert s[..|s| - 1] == NatToString(n / 10);
    }
  }

  lemma ParseSignedDigits(n: nat)
    ensures ParseSigned(NatToString(n)) == Some(n)
  {
    NatToStringValue(n);
  }

  lemma ParseSignedNegative(n: nat)
    requires n > 0
    ensures ParseSigned("-" + NatToString(n)) == Some(0 - n as int)
  {
    var d := NatToString(n);
    var s := "-" + d;
    NatToStringValue(n);
    assert s[1..] == d;
  }

  /** `int(str(n)) == n`: decimal printing and parsing are inverse. */
  lemma ParseIntToString(n: int)
    ensures ParseInt(IntToString(n)) == Some(n)
  {
    var s := IntToString(n);
    if n < 0 {
      ParseSignedNegative(-n);
      var d := NatToString(-n);
      assert s[|s| - 1] == d[|d| - 1];
    } else {
      ParseSignedDigits(n);
    }
    StripUnchanged(s);
  }
}
