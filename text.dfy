/** ASCII string helpers with the meaning of the Python `str` methods and the
    regular-expression character classes the core relies on. */
module Text {
  import opened Base

  // ---------------------------------------------------------------------
  // Character classes (ASCII readings of \d, \w, \s and [A-Za-z])

  predicate IsDigit(c: char) { '0' <= c <= '9' }

  predicate IsLetter(c: char) { 'A' <= c <= 'Z' || 'a' <= c <= 'z' }

  predicate IsWordChar(c: char) { IsLetter(c) || IsDigit(c) || c == '_' }

  /** Python's `str.isspace()` (and `\s`, `strip()`, `split()`) over ASCII:
      space, tab, line feed, carriage return, vertical tab, form feed and the
      four separators 0x1C-0x1F. */
  predicate IsSpace(c: char) {
    c == ' ' || c == '\t' || c == '\n' || c == '\r' || c == '\U{0B}' || c == '\U{0C}'
    || ('\U{1C}' <= c <= '\U{1F}')
  }

  predicate NotSpace(c: char) { !IsSpace(c) }

  predicate NotNewline(c: char) { c != '\n' }

  predicate AllDigits(s: string) { forall k :: 0 <= k < |s| ==> IsDigit(s[k]) }

  // ---------------------------------------------------------------------
  // Prefixes, suffixes and substring search

  predicate StartsWith(s: string, p: string) { |p| <= |s| && s[..|p|] == p }

  predicate EndsWith(s: string, p: string) { |p| <= |s| && s[|s| - |p|..] == p }

  predicate OccursAt(s: string, p: string, i: nat) { i + |p| <= |s| && s[i..i + |p|] == p }

  /** The first index at or after `i` where `p` occurs in `s` (Python `s.find(p, i)`). */
  function FindFrom(s: string, p: string, i: nat): (r: Option<nat>)
    decreases |s| - i
    ensures r.Some? ==> i <= r.value && OccursAt(s, p, r.value)
    ensures r.Some? ==> forall j :: i <= j < r.value ==> !OccursAt(s, p, j)
    ensures r.None? ==> forall j :: i <= j ==> !OccursAt(s, p, j)
  {
    if i + |p| > |s| then None
    else if OccursAt(s, p, i) then Some(i)
    else FindFrom(s, p, i + 1)
  }

  /** Python `p in s` for two strings. */
  predicate Contains(s: string, p: string) { FindFrom(s, p, 0).Some? }

  lemma ContainsIff(s: string, p: string)
    ensures Contains(s, p) <==> exists i: nat :: OccursAt(s, p, i)
  {
  }

  /** Python `s[:n]` for n >= 0. */
  function Take(s: string, n: nat): (r: string)
    ensures |r| == if n <= |s| then n else |s|
    ensures StartsWith(s, r)
  {
    if n <= |s| then s[..n] else s
  }

  // ---------------------------------------------------------------------
  // Runs of characters of one class

  /** The end of the longest run of `P`-characters of `s` that starts at `i`. */
  function RunEnd(s: string, i: nat, P: char -> bool): (e: nat)
    requires i <= |s|
    decreases |s| - i
    ensures i <= e <= |s|
    ensures forall k :: i <= k < e ==> P(s[k])
    ensures e < |s| ==> !P(s[e])
  {
    if i < |s| && P(s[i]) then RunEnd(s, i + 1, P) else i
  }

  /** A run that stops at a character outside the class, or at the end, is the longest run. */
  lemma {:induction false} RunEndIs(s: string, i: nat, e: nat, P: char -> bool)
    requires i <= e <= |s|
    requires forall k :: i <= k < e ==> P(s[k])
    requires e == |s| || !P(s[e])
    decreases e - i
    ensures RunEnd(s, i, P) == e
  {
    if i < e {
      RunEndIs(s, i + 1, e, P);
    }
  }

  /** The maximal runs of `P`-characters of `s`, left to right
      (Python `re.findall(r'(\w+)', s)` for P = IsWordChar, `s.split()` for P = NotSpace). */
  function Runs(s: string, P: char -> bool): (r: seq<string>)
    decreases |s|
    ensures forall k :: 0 <= k < |r| ==> r[k] != []
    ensures forall k, m :: 0 <= k < |r| && 0 <= m < |r[k]| ==> P(r[k][m])
  {
    if s == [] then []
    else if !P(s[0]) then Runs(s[1..], P)
    else
      var e := RunEnd(s, 0, P);
      [s[..e]] + Runs(s[e..], P)
  }

  /** Python `s.split()`: the whitespace-separated tokens. */
  function Tokens(s: string): (r: seq<string>)
    ensures forall k :: 0 <= k < |r| ==> r[k] != [] && forall m :: 0 <= m < |r[k]| ==> !IsSpace(r[k][m])
  {
    Runs(s, NotSpace)
  }

  /** Python `re.findall(r'(\w+)', s)` over ASCII. */
  function Words(s: string): (r: seq<string>)
    ensures forall k :: 0 <= k < |r| ==> r[k] != [] && forall m :: 0 <= m < |r[k]| ==> IsWordChar(r[k][m])
  {
    Runs(s, IsWordChar)
  }

  // ---------------------------------------------------------------------
  // Stripping whitespace

  function LeadingSpaces(s: string): (n: nat)
    ensures n <= |s|
    ensures forall k :: 0 <= k < n ==> IsSpace(s[k])
    ensures n < |s| ==> !IsSpace(s[n])
  {
    RunEnd(s, 0, IsSpace)
  }

  function TrailingSpaces(s: string): (n: nat)
    decreases |s|
    ensures n <= |s|
    ensures forall k :: |s| - n <= k < |s| ==> IsSpace(s[k])
    ensures n < |s| ==> !IsSpace(s[|s| - 1 - n])
  {
    if s != [] && IsSpace(s[|s| - 1]) then 1 + TrailingSpaces(s[..|s| - 1]) else 0
  }

  /** Python `s.strip()` over ASCII whitespace. */
  function Strip(s: string): (r: string)
    ensures r == [] || (!IsSpace(r[0]) && !IsSpace(r[|r| - 1]))
    ensures r == [] <==> forall k :: 0 <= k < |s| ==> IsSpace(s[k])
  {
    var a := LeadingSpaces(s);
    var t := s[a..];
    var r := t[..|t| - TrailingSpaces(t)];
    assert r != [] ==> r[0] == s[a];
    assert a < |s| ==> r != [] by {
      if a < |s| {
        assert !IsSpace(t[0]);
      }
    }
    r
  }

  lemma {:induction false} StripKeepsUnpadded(s: string)
    requires s == [] || (!IsSpace(s[0]) && !IsSpace(s[|s| - 1]))
    ensures Strip(s) == s
  {
    if s != [] {
      assert LeadingSpaces(s) == 0;
      assert TrailingSpaces(s) == 0;
    }
  }

  // ---------------------------------------------------------------------
  // Splitting and joining

  /** Python `sep.join(xs)`. */
  function Join(sep: string, xs: seq<string>): string
  {
    if |xs| == 0 then ""
    else if |xs| == 1 then xs[0]
    else xs[0] + sep + Join(sep, xs[1..])
  }

  /** The index of the first `c` in `s`, if any. */
  function IndexOf(s: string, c: char): (r: Option<nat>)
    ensures r.Some? ==> r.value < |s| && s[r.value] == c && c !in s[..r.value]
    ensures r.None? <==> c !in s
  {
    if s == [] then None
    else if s[0] == c then Some(0)
    else
      match IndexOf(s[1..], c)
      case None => None
      case Some(i) =>
        assert s[..i + 1] == [s[0]] + s[1..][..i];
        Some(i + 1)
  }

  /** Python `s.split(sep)` for a one-character separator. */
  function Split(s: string, sep: char): (parts: seq<string>)
    decreases |s|
    ensures |parts| >= 1
    ensures forall k :: 0 <= k < |parts| ==> sep !in parts[k]
    ensures Join([sep], parts) == s
    ensures |parts| >= 2 <==> sep in s
  {
    match IndexOf(s, sep)
    case None => [s]
    case Some(i) =>
      var rest := Split(s[i + 1..], sep);
      var parts := [s[..i]] + rest;
      assert parts[1..] == rest;
      assert Join([sep], parts) == s[..i] + [sep] + Join([sep], rest);
      assert s == s[..i] + [sep] + s[i + 1..];
      parts
  }

  /** Splitting at the first separator: the text before it is the first part. */
  lemma SplitFirst(a: string, sep: char, b: string)
    requires sep !in a
    ensures Split(a + [sep] + b, sep) == [a] + Split(b, sep)
  {
    var s := a + [sep] + b;
    assert s[|a|] == sep && s[..|a|] == a;
    assert IndexOf(s, sep) == Some(|a|);
    assert s[|a| + 1..] == b;
  }

  // ---------------------------------------------------------------------
  // Case mapping and replacement

  function LowerChar(c: char): char {
    if 'A' <= c <= 'Z' then (c as int + 32) as char else c
  }

  /** Python `s.lower()` over ASCII. */
  function Lower(s: string): (r: string)
    ensures |r| == |s| && forall k :: 0 <= k < |s| ==> r[k] == LowerChar(s[k])
  {
    seq(|s|, k requires 0 <= k < |s| => LowerChar(s[k]))
  }

  /** Python `s.replace(old, new, 1)`. */
  function ReplaceFirst(s: string, pat: string, repl: string): (r: string)
    ensures !Contains(s, pat) ==> r == s
    ensures StartsWith(s, pat) ==> r == repl + s[|pat|..]
  {
    match FindFrom(s, pat, 0)
    case None => s
    case Some(i) =>
      assert StartsWith(s, pat) ==> i == 0 by {
        if StartsWith(s, pat) { assert OccursAt(s, pat, 0); }
      }
      s[..i] + repl + s[i + |pat|..]
  }

  /** Replacing a prefix by nothing leaves what follows it. */
  lemma DropPrefix(p: string, rest: string)
    ensures ReplaceFirst(p + rest, p, "") == rest
  {
    assert (p + rest)[..|p|] == p;
    assert (p + rest)[|p|..] == rest;
    assert "" + rest == rest;
  }

  // ---------------------------------------------------------------------
  // Decimal rendering of integers (Python `str(n)`)

  function DigitChar(d: nat): char
    requires d < 10
  {
    ('0' as int + d) as char
  }

  function NatToString(n: nat): (r: string)
    ensures r != [] && AllDigits(r)
  {
    if n < 10 then [DigitChar(n)] else NatToString(n / 10) + [DigitChar(n % 10)]
  }

  /** Distinct numbers have distinct renderings. */
  lemma {:induction false} NatToStringInjective(a: nat, b: nat)
    requires NatToString(a) == NatToString(b)
    ensures a == b
  {
    if a >= 10 && b >= 10 {
      var sa, sb := NatToString(a), NatToString(b);
      assert sa[..|sa| - 1] == NatToString(a / 10) && sb[..|sb| - 1] == NatToString(b / 10);
      assert DigitChar(a % 10) == sa[|sa| - 1] == sb[|sb| - 1] == DigitChar(b % 10);
      NatToStringInjective(a / 10, b / 10);
    }
  }

  function IntToString(i: int): string
  {
    if i < 0 then "-" + NatToString(-i) else NatToString(i)
  }

  // ---------------------------------------------------------------------
  // Python string ordering: lexicographic by code point

  predicate LexLess(a: string, b: string)
    decreases |a|
  {
    |b| > 0 && (|a| == 0 || a[0] < b[0] || (a[0] == b[0] && LexLess(a[1..], b[1..])))
  }

  lemma {:induction false} LexLessIrreflexive(a: string)
    ensures !LexLess(a, a)
  {
    if |a| > 0 {
      LexLessIrreflexive(a[1..]);
    }
  }

  lemma {:induction false} LexLessTransitive(a: string, b: string, c: string)
    requires LexLess(a, b) && LexLess(b, c)
    ensures LexLess(a, c)
  {
    if |a| > 0 && a[0] == b[0] && b[0] == c[0] {
      LexLessTransitive(a[1..], b[1..], c[1..]);
    }
  }

  lemma {:induction false} LexLessTotal(a: string, b: string)
    requires a != b
    ensures LexLess(a, b) || LexLess(b, a)
  {
    if |a| > 0 && |b| > 0 && a[0] == b[0] {
      assert a == [a[0]] + a[1..] && b == [b[0]] + b[1..];
      LexLessTotal(a[1..], b[1..]);
    }
  }
}
