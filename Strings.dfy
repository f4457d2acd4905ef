/**
 * The handful of Python string operations the generator relies on:
 * `str.isspace`, `sep.join(parts)`, the `in` substring test and the `%i`
 * conversion of an integer. `s.split('\n')` and the reading of a numeral
 * are not used by the generator; they serve here to read a written block
 * back.
 */
module Strings {

  /** Python 3's `str.isspace` for one character. */
  predicate IsSpace(c: char) {
    c == ' ' || c == '\t' || c == '\n' || c == '\r' || c == '\U{0B}' || c == '\U{0C}'
    || ('\U{1C}' <= c <= '\U{1F}') || c == '\U{85}' || c == '\U{A0}' || c == '\U{1680}'
    || ('\U{2000}' <= c <= '\U{200A}') || c == '\U{2028}' || c == '\U{2029}'
    || c == '\U{202F}' || c == '\U{205F}' || c == '\U{3000}'
  }

  /** True when `s` holds no whitespace character at all. */
  predicate NoSpace(s: string) {
    forall i :: 0 <= i < |s| ==> !IsSpace(s[i])
  }

  /** True when every character of `s` is whitespace (vacuously for ""). */
  predicate AllSpace(s: string) {
    forall i :: 0 <= i < |s| ==> IsSpace(s[i])
  }

  /** Python's `sep.join(parts)`: empty for no parts, otherwise starting with the first part. */
  function Join(sep: string, parts: seq<string>): (r: string)
    ensures parts == [] ==> r == []
    ensures parts != [] ==> IsPrefix(parts[0], r)
    decreases |parts|
  {
    if |parts| == 0 then ""
    else if |parts| == 1 then parts[0]
    else
      var r := parts[0] + sep + Join(sep, parts[1..]);
      assert r[..|parts[0]|] == parts[0];
      r
  }

  predicate IsPrefix(p: string, s: string) {
    |p| <= |s| && s[..|p|] == p
  }

  predicate IsSuffix(p: string, s: string) {
    |p| <= |s| && s[|s| - |p|..] == p
  }

  /** Python's `p in s` on two strings: the empty string is in every string, and no string is in a shorter one. */
  predicate IsSubstring(p: string, s: string)
    ensures p == [] ==> IsSubstring(p, s)
    ensures IsSubstring(p, s) ==> |p| <= |s|
    decreases |s|
  {
    IsPrefix(p, s) || (s != [] && IsSubstring(p, s[1..]))
  }

  /** `p` occurs in `s` starting at offset `i`. */
  predicate OccursAt(p: string, s: string, i: int) {
    0 <= i <= |s| - |p| && s[i..i + |p|] == p
  }

  /** `p in s` holds exactly when `p` occurs at some offset of `s`. */
  lemma {:induction false} SubstringAt(p: string, s: string)
    ensures IsSubstring(p, s) <==> exists i :: OccursAt(p, s, i)
    decreases |s|
  {
    if IsSubstring(p, s) {
      if IsPrefix(p, s) {
        assert OccursAt(p, s, 0);
      } else {
        SubstringAt(p, s[1..]);
        var i :| OccursAt(p, s[1..], i);
        assert s[i + 1..i + 1 + |p|] == s[1..][i..i + |p|];
        assert OccursAt(p, s, i + 1);
      }
    }
    if exists i :: OccursAt(p, s, i) {
      var i :| OccursAt(p, s, i);
      if i == 0 {
        assert IsPrefix(p, s);
      } else {
        assert s[1..][i - 1..i - 1 + |p|] == s[i..i + |p|];
        assert OccursAt(p, s[1..], i - 1);
        SubstringAt(p, s[1..]);
      }
    }
  }

  /** `p in s` fails when one of the characters of `p` appears nowhere in `s`. */
  lemma {:induction false} MissingChar(p: string, s: string, j: int)
    requires 0 <= j < |p|
    requires forall k :: 0 <= k < |s| ==> s[k] != p[j]
    ensures !IsSubstring(p, s)
    decreases |s|
  {
    if |p| <= |s| {
      assert s[..|p|][j] == s[j];
    }
    if s != [] {
      MissingChar(p, s[1..], j);
    }
  }

  /** Python's `s.split('\n')`: always at least one piece. */
  function SplitLines(s: string): (r: seq<string>)
    ensures |r| >= 1
    decreases |s|
  {
    if s == [] then [""]
    else
      var rest := SplitLines(s[1..]);
      if s[0] == '\n' then [""] + rest
      else [[s[0]] + rest[0]] + rest[1..]
  }

  /** Each line followed by a line feed, as a triple-quoted block is written. */
  function Unlines(lines: seq<string>): string
    decreases |lines|
  {
    if lines == [] then "" else lines[0] + "\n" + Unlines(lines[1..])
  }

  predicate NoNewline(s: string) {
    '\n' !in s
  }

  lemma {:induction false} SplitLinesAfterLine(line: string, t: string)
    requires NoNewline(line)
    ensures SplitLines(line + "\n" + t) == [line] + SplitLines(t)
    decreases |line|
  {
    if line == [] {
      assert line + "\n" + t == ['\n'] + t;
    } else {
      SplitLinesAfterLine(line[1..], t);
      assert (line + "\n" + t)[1..] == line[1..] + "\n" + t;
      assert [line[0]] + line[1..] == line;
    }
  }

  /** Reading back lines written by `Unlines` gives them again, plus the empty tail. */
  lemma {:induction false} SplitUnlines(lines: seq<string>)
    requires forall k :: 0 <= k < |lines| ==> NoNewline(lines[k])
    ensures SplitLines(Unlines(lines)) == lines + [""]
    decreases |lines|
  {
    if lines != [] {
      SplitLinesAfterLine(lines[0], Unlines(lines[1..]));
      SplitUnlines(lines[1..]);
      assert lines == [lines[0]] + lines[1..];
    }
  }

  predicate IsDigit(c: char) {
    '0' <= c <= '9'
  }

  predicate IsDecimal(s: string) {
    s != [] && forall i :: 0 <= i < |s| ==> IsDigit(s[i])
  }

  function DigitChar(d: nat): (c: char)
    requires d < 10
    ensures IsDigit(c) && (c as int) - ('0' as int) == d
  {
    ('0' as int + d) as char
  }

  /** Decimal digits of `n`, most significant first, without leading zeros. */
  function NatToDecimal(n: nat): (r: string)
    ensures IsDecimal(r)
    decreases n
  {
    if n < 10 then [DigitChar(n)] else NatToDecimal(n / 10) + [DigitChar(n % 10)]
  }

  /** The number a string of decimal digits denotes. */
  function DecimalValue(s: string): int
    requires forall i :: 0 <= i < |s| ==> IsDigit(s[i])
    decreases |s|
  {
    if s == [] then 0
    else 10 * DecimalValue(s[..|s| - 1]) + ((s[|s| - 1] as int) - ('0' as int))
  }

  /** Python's `'%i' % n`: a minus sign exactly for a negative number, then decimal digits. */
  function IntToString(n: int): (r: string)
    ensures r != [] && (r[0] == '-' <==> n < 0)
    ensures n < 0 ==> IsDecimal(r[1..])
    ensures n >= 0 ==> IsDecimal(r)
  {
    if n < 0 then "-" + NatToDecimal(-n) else NatToDecimal(n)
  }

  /** The number written by `IntToString`, read back. */
  function ParseInt(s: string): int
    requires IsDecimal(s) || (|s| >= 2 && s[0] == '-' && IsDecimal(s[1..]))
  {
    if s[0] == '-' then -DecimalValue(s[1..]) else DecimalValue(s)
  }

  lemma {:induction false} DecimalRoundTrip(n: nat)
    ensures IsDecimal(NatToDecimal(n))
    ensures DecimalValue(NatToDecimal(n)) == n
    ensures NatToDecimal(n)[0] != '0' || n == 0
    decreases n
  {
    if n >= 10 {
      DecimalRoundTrip(n / 10);
      var s := NatToDecimal(n);
      assert s[..|s| - 1] == NatToDecimal(n / 10);
    }
  }

  /** `%i` writes a number that reads back as itself. */
  lemma IntRoundTrip(n: int)
    ensures var s := IntToString(n);
      (IsDecimal(s) || (|s| >= 2 && s[0] == '-' && IsDecimal(s[1..]))) && ParseInt(s) == n
  {
    if n < 0 {
      DecimalRoundTrip(-n);
      assert IntToString(n)[1..] == NatToDecimal(-n);
    } else {
      DecimalRoundTrip(n);
    }
  }
}
