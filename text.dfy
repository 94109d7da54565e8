/**
 * The string operations of Python's `str` that the scripts rely on:
 * `strip()`, `startswith`, `endswith`, `in` (substring), `split(sep, 1)`,
 * ASCII `upper()`/`lower()`, `str(int)` and the line iteration of a text file.
 */
module Text {
  import opened Wrappers

  /** Python's `str.isspace()` for one character. */
  predicate IsSpace(c: char) {
    || c == ' ' || c == '\t' || c == '\n' || c == '\r' || c == '\U{B}' || c == '\U{C}'
    || ('\U{1C}' <= c <= '\U{1F}') || c == '\U{85}' || c == '\U{A0}' || c == '\U{1680}'
    || ('\U{2000}' <= c <= '\U{200A}') || c == '\U{2028}' || c == '\U{2029}' || c == '\U{202F}'
    || c == '\U{205F}' || c == '\U{3000}'
  }

  /** Leading whitespace removed. */
  function TrimLeft(s: string): (r: string)
    ensures |r| <= |s|
  {
    if |s| > 0 && IsSpace(s[0]) then TrimLeft(s[1..]) else s
  }

  /** Trailing whitespace removed. */
  function TrimRight(s: string): (r: string)
    ensures |r| <= |s|
  {
    if |s| > 0 && IsSpace(s[|s| - 1]) then TrimRight(s[..|s| - 1]) else s
  }

  /** `TrimLeft(s)` is the longest suffix of `s` that does not start with whitespace. */
  lemma {:induction false} TrimLeftSpec(s: string)
    ensures var r := TrimLeft(s);
      && |r| <= |s| && r == s[|s| - |r|..]
      && (forall k :: 0 <= k < |s| - |r| ==> IsSpace(s[k]))
      && (r == [] || !IsSpace(r[0]))
  {
    if |s| > 0 && IsSpace(s[0]) {
      TrimLeftSpec(s[1..]);
    }
  }

  /** `TrimRight(s)` is the longest prefix of `s` that does not end with whitespace. */
  lemma {:induction false} TrimRightSpec(s: string)
    ensures var r := TrimRight(s);
      && |r| <= |s| && r == s[..|r|]
      && (forall k :: |r| <= k < |s| ==> IsSpace(s[k]))
      && (r == [] || !IsSpace(r[|r| - 1]))
  {
    if |s| > 0 && IsSpace(s[|s| - 1]) {
      TrimRightSpec(s[..|s| - 1]);
    }
  }

  /** Python's `s.strip()`: no whitespace is left at either end. */
  function Strip(s: string): (r: string)
    ensures |r| <= |s|
    ensures r == [] || (!IsSpace(r[0]) && !IsSpace(r[|r| - 1]))
  {
    TrimLeftSpec(s);
    TrimRightSpec(TrimLeft(s));
    TrimRight(TrimLeft(s))
  }

  /** Number of leading whitespace characters `strip()` removes. */
  function StripStart(s: string): nat
  {
    |s| - |TrimLeft(s)|
  }

  /** What `strip()` returns: a middle slice of `s`, whitespace only outside it, none at its ends. */
  lemma StripSlice(s: string)
    ensures var r, i := Strip(s), StripStart(s);
      && i + |r| <= |s| && r == s[i..i + |r|]
      && (forall k :: 0 <= k < i ==> IsSpace(s[k]))
      && (forall k :: i + |r| <= k < |s| ==> IsSpace(s[k]))
      && (r == [] || (!IsSpace(r[0]) && !IsSpace(r[|r| - 1])))
  {
    var t := TrimLeft(s);
    var r := TrimRight(t);
    var i := |s| - |t|;
    TrimLeftSpec(s);
    TrimRightSpec(t);
    assert r == s[i..i + |r|];
    assert forall k :: i + |r| <= k < |s| ==> s[k] == t[k - i];
  }

  /** A string with no whitespace at either end is left as it is by `strip()`. */
  lemma StripClean(s: string)
    requires s == [] || (!IsSpace(s[0]) && !IsSpace(s[|s| - 1]))
    ensures Strip(s) == s
  {
  }

  /** `strip()` is idempotent. */
  lemma StripIdempotent(s: string)
    ensures Strip(Strip(s)) == Strip(s)
  {
    StripSlice(s);
    StripClean(Strip(s));
  }

  /** A stripped line the verification scripts skip: blank, or starting with `#`. */
  predicate BlankOrComment(t: string) {
    t == "" || StartsWith(t, "#")
  }

  /** Python's `s.startswith(p)`. */
  predicate StartsWith(s: string, p: string) {
    |p| <= |s| && s[..|p|] == p
  }

  /** Python's `s.endswith(p)`. */
  predicate EndsWith(s: string, p: string) {
    |p| <= |s| && s[|s| - |p|..] == p
  }

  /** `t` occurs in `s` at offset `i`. */
  predicate OccursAt(s: string, t: string, i: int) {
    0 <= i && i + |t| <= |s| && s[i..i + |t|] == t
  }

  /** Python's `t in s` for strings: `t` occurs in `s` at some offset. */
  function Contains(s: string, t: string): (r: bool)
    ensures r <==> exists i :: OccursAt(s, t, i)
  {
    if StartsWith(s, t) then
      assert OccursAt(s, t, 0);
      true
    else if |s| == 0 then
      false
    else
      var r := Contains(s[1..], t);
      OccursAtShift(s, t);
      r
  }

  /** Occurrences in `s` past its first character are the occurrences in `s[1..]`, shifted. */
  lemma OccursAtShift(s: string, t: string)
    requires |s| > 0 && !OccursAt(s, t, 0)
    ensures (exists i :: OccursAt(s, t, i)) <==> (exists j :: OccursAt(s[1..], t, j))
  {
    forall i | OccursAt(s, t, i)
      ensures OccursAt(s[1..], t, i - 1)
    {
      assert i != 0;
      var j := i - 1;
      var a, b := s[1..][j..j + |t|], s[i..i + |t|];
      assert forall k :: 0 <= k < |t| ==> a[k] == b[k];
      assert a == b;
    }
    forall j | OccursAt(s[1..], t, j)
      ensures OccursAt(s, t, j + 1)
    {
      var a, b := s[1..][j..j + |t|], s[j + 1..j + 1 + |t|];
      assert forall k :: 0 <= k < |t| ==> a[k] == b[k];
      assert a == b;
    }
  }


  /**
   * Python's `s.split(sep, 1)` for a one-character separator: `None` when `sep`
   * does not occur (the one-element list), otherwise the text before and after
   * the FIRST occurrence.
   */
  function SplitFirst(s: string, sep: char): (r: Option<(string, string)>)
    ensures r.None? <==> sep !in s
    ensures r.Some? ==> s == r.value.0 + [sep] + r.value.1 && sep !in r.value.0
  {
    if s == [] then None
    else if s[0] == sep then Some(([], s[1..]))
    else
      match SplitFirst(s[1..], sep)
      case None => None
      case Some((a, b)) => Some(([s[0]] + a, b))
  }

  /** ASCII `upper()` of one character. */
  function UpperChar(c: char): char {
    if 'a' <= c <= 'z' then (c as int - 'a' as int + 'A' as int) as char else c
  }

  /** ASCII `lower()` of one character. */
  function LowerChar(c: char): char {
    if 'A' <= c <= 'Z' then (c as int - 'A' as int + 'a' as int) as char else c
  }

  /** Python's `s.upper()` on ASCII letters. */
  function Upper(s: string): (r: string)
    ensures |r| == |s|
  {
    seq(|s|, i requires 0 <= i < |s| => UpperChar(s[i]))
  }

  /** Python's `s.lower()` on ASCII letters. */
  function Lower(s: string): (r: string)
    ensures |r| == |s|
  {
    seq(|s|, i requires 0 <= i < |s| => LowerChar(s[i]))
  }

  /**
   * Upper-casing turns each lower-case ASCII letter into its capital, leaves
   * no lower-case letter and changes nothing else.
   */
  lemma UpperSpec(s: string)
    ensures forall i :: 0 <= i < |s| ==> !('a' <= Upper(s)[i] <= 'z')
    ensures forall i :: 0 <= i < |s| && 'a' <= s[i] <= 'z' ==>
      Upper(s)[i] as int == s[i] as int - 32 && 'A' <= Upper(s)[i] <= 'Z'
    ensures forall i :: 0 <= i < |s| && !('a' <= s[i] <= 'z') ==> Upper(s)[i] == s[i]
  {
  }

  /** `upper()` is idempotent: an upper-cased environment name is its own upper case. */
  lemma UpperIdempotent(s: string)
    ensures Upper(Upper(s)) == Upper(s)
  {
  }

  function DigitChar(d: nat): char
    requires d < 10
  {
    "0123456789"[d]
  }

  predicate IsDigit(c: char) {
    '0' <= c <= '9'
  }

  function DigitValue(c: char): nat
    requires IsDigit(c)
  {
    c as int - '0' as int
  }

  /** Decimal digits of `n`, most significant first, without leading zeros. */
  function NatDigits(n: nat): (r: string)
    ensures |r| > 0 && forall i :: 0 <= i < |r| ==> IsDigit(r[i])
    ensures |r| > 1 ==> r[0] != '0'
    ensures r[0] == '0' <==> n == 0
  {
    if n < 10 then [DigitChar(n)] else NatDigits(n / 10) + [DigitChar(n % 10)]
  }

  /**
   * The numeral `str` writes: a `-` only before a non-zero magnitude, then
   * digits with no leading zero.
   */
  predicate Canonical(r: string) {
    var d := if |r| > 0 && r[0] == '-' then r[1..] else r;
    |d| > 0 && (d[0] == '0' ==> d == r && |r| == 1)
  }

  /** Python's `str(i)` for an `int`. */
  function Decimal(i: int): (r: string)
    ensures Canonical(r)
  {
    if i < 0 then "-" + NatDigits(-i) else NatDigits(i)
  }

  /** Reads back a string of decimal digits. */
  function DigitsValue(s: string): nat
    requires forall i :: 0 <= i < |s| ==> IsDigit(s[i])
  {
    if s == [] then 0 else 10 * DigitsValue(s[..|s| - 1]) + DigitValue(s[|s| - 1])
  }

  /** Reads back an optionally signed decimal numeral. */
  function DecimalValue(s: string): Option<int>
  {
    if |s| > 0 && s[0] == '-' then
      if |s| > 1 && forall i :: 1 <= i < |s| ==> IsDigit(s[i]) then Some(0 - DigitsValue(s[1..])) else None
    else if |s| > 0 && forall i :: 0 <= i < |s| ==> IsDigit(s[i]) then Some(DigitsValue(s))
    else None
  }

  lemma {:induction false} NatDigitsRoundTrip(n: nat)
    ensures DigitsValue(NatDigits(n)) == n
  {
    if n >= 10 {
      NatDigitsRoundTrip(n / 10);
      var d := NatDigits(n);
      assert d[..|d| - 1] == NatDigits(n / 10);
    }
  }

  /** `str(i)` is read back as `i`: the rendering of an integer loses nothing. */
  lemma {:induction false} DecimalRoundTrip(i: int)
    ensures DecimalValue(Decimal(i)) == Some(i)
  {
    if i < 0 {
      var n: nat := -i;
      var d := NatDigits(n);
      NatDigitsRoundTrip(n);
      assert DecimalValue("-" + d) == Some(i) by { SignedDigits(d); }
    } else {
      var d := NatDigits(i);
      assert DigitsValue(d) == i by { NatDigitsRoundTrip(i); }
      assert DecimalValue(d) == Some(i) by { UnsignedDigits(d); }
    }
  }

  /** A `-` followed by digits reads back as the negated digits. */
  lemma SignedDigits(d: string)
    requires |d| > 0 && forall k :: 0 <= k < |d| ==> IsDigit(d[k])
    ensures DecimalValue("-" + d) == Some(0 - DigitsValue(d))
  {
    var s := "-" + d;
    assert s[1..] == d;
    assert forall k :: 1 <= k < |s| ==> s[k] == d[k - 1];
  }

  /** Digits alone read back as their value. */
  lemma UnsignedDigits(d: string)
    requires |d| > 0 && forall k :: 0 <= k < |d| ==> IsDigit(d[k])
    ensures DecimalValue(d) == Some(DigitsValue(d))
  {
    assert IsDigit(d[0]);
  }

  /** Universal-newline translation of text-mode reading: `\r\n` and `\r` become `\n`. */
  function Newlines(t: string): (r: string)
    ensures '\r' !in r
    ensures '\r' !in t ==> r == t
  {
    if t == [] then []
    else if t[0] == '\r' then
      if |t| > 1 && t[1] == '\n' then "\n" + Newlines(t[2..]) else "\n" + Newlines(t[1..])
    else [t[0]] + Newlines(t[1..])
  }

  /**
   * The lines `for ln in f` yields for text `t` (after newline translation),
   * each without its terminating `\n`; no line follows a final `\n`.
   */
  function FileLines(t: string): (r: seq<string>)
    ensures forall i :: 0 <= i < |r| ==> '\n' !in r[i]
    decreases |t|
  {
    if t == [] then []
    else
      match SplitFirst(t, '\n')
      case None => [t]
      case Some((line, rest)) => [line] + FileLines(rest)
  }

  /** The lines a script reads from a file opened in text mode: none holds a line break. */
  function ReadLines(t: string): (r: seq<string>)
    ensures forall i :: 0 <= i < |r| ==> '\n' !in r[i] && '\r' !in r[i]
  {
    FileLinesAvoid(Newlines(t), '\r');
    FileLines(Newlines(t))
  }

  /** A character absent from the text is absent from each of its lines. */
  lemma {:induction false} FileLinesAvoid(t: string, c: char)
    requires c !in t
    ensures forall i :: 0 <= i < |FileLines(t)| ==> c !in FileLines(t)[i]
    decreases |t|
  {
    if t != [] {
      match SplitFirst(t, '\n')
      case None =>
      case Some((line, rest)) =>
        assert t == line + ['\n'] + rest;
        FileLinesAvoid(rest, c);
        assert FileLines(t) == [line] + FileLines(rest);
    }
  }

  /** The text whose lines are `ls`, each followed by `\n`. */
  function JoinLines(ls: seq<string>): string
  {
    if ls == [] then [] else ls[0] + "\n" + JoinLines(ls[1..])
  }

  /** A string splits in only one way at the first occurrence of a character. */
  lemma SplitUnique(a: string, b: string, a': string, b': string, c: char)
    requires a + [c] + b == a' + [c] + b'
    requires c !in a && c !in a'
    ensures a == a' && b == b'
  {
    var t := a + [c] + b;
    assert t[|a|] == c && t[|a'|] == c;
    assert forall k :: 0 <= k < |a'| ==> t[k] == a'[k] != c;
    assert forall k :: 0 <= k < |a| ==> t[k] == a[k] != c;
    assert |a| == |a'|;
    assert a == t[..|a|] && a' == t[..|a'|];
    assert b == t[|a| + 1..] && b' == t[|a'| + 1..];
  }

  /** Writing lines and reading them back gives the same lines. */
  lemma {:induction false} FileLinesJoin(ls: seq<string>)
    requires forall i :: 0 <= i < |ls| ==> '\n' !in ls[i]
    ensures FileLines(JoinLines(ls)) == ls
  {
    if ls != [] {
      var t := JoinLines(ls);
      var rest := JoinLines(ls[1..]);
      assert t == ls[0] + ['\n'] + rest;
      var sp := SplitFirst(t, '\n');
      assert sp.Some?;
      SplitUnique(sp.value.0, sp.value.1, ls[0], rest, '\n');
      assert t[|ls[0]| + 1..] == rest;
      assert sp.value.1 == t[|sp.value.0| + 1..];
      FileLinesJoin(ls[1..]);
    }
  }
}
