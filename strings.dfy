/**
 * String operations of Go's `strings` package and of Python's `str`, written out over `seq<char>`.
 * A `char` here is a Unicode scalar value, so comparing by `char` is comparing by code point, which is
 * also the byte order of the UTF-8 encodings Go compares.
 */
module Strs {

  predicate HasPrefix(s: string, p: string) {
    |p| <= |s| && s[..|p|] == p
  }

  predicate HasSuffix(s: string, p: string) {
    |p| <= |s| && s[|s| - |p|..] == p
  }

  /** A concatenation starts with its first part and ends with its second. */
  lemma ConcatAffixes(a: string, b: string)
    ensures HasPrefix(a + b, a) && HasSuffix(a + b, b)
  {
    assert (a + b)[..|a|] == a;
    assert (a + b)[|a + b| - |b|..] == b;
  }

  /** `strings.TrimSuffix`. */
  function TrimSuffix(s: string, suffix: string): (r: string)
    ensures HasSuffix(s, suffix) ==> r + suffix == s
    ensures !HasSuffix(s, suffix) ==> r == s
  {
    if HasSuffix(s, suffix) then s[..|s| - |suffix|] else s
  }

  /** `strings.Contains` / Python `in` on strings: `sub` occurs somewhere in `s`. */
  predicate Contains(s: string, sub: string)
    decreases |s|
  {
    HasPrefix(s, sub) || (|s| > 0 && Contains(s[1..], sub))
  }

  lemma ContainsAt(s: string, sub: string, i: nat)
    requires i + |sub| <= |s| && s[i..i + |sub|] == sub
    ensures Contains(s, sub)
    decreases i
  {
    if i > 0 {
      assert s[1..][i - 1..i - 1 + |sub|] == sub;
      ContainsAt(s[1..], sub, i - 1);
    }
  }

  lemma ContainsPrefix(s: string, p: string, rest: string)
    requires s == p + rest
    ensures forall sub :: Contains(p, sub) ==> Contains(s, sub)
    decreases |p|
  {
    forall sub | Contains(p, sub) ensures Contains(s, sub) {
      if HasPrefix(p, sub) {
        assert s[..|sub|] == p[..|sub|];
      } else {
        ContainsPrefix(s[1..], p[1..], rest);
      }
    }
  }

  /** Index of the first occurrence of `c`, as `strings.IndexByte`; None when absent. */
  function IndexOf(s: string, c: char): (r: int)
    ensures -1 <= r < |s|
    ensures r == -1 <==> c !in s
    ensures r >= 0 ==> s[r] == c && c !in s[..r]
  {
    if |s| == 0 then -1
    else if s[0] == c then 0
    else
      var k := IndexOf(s[1..], c);
      if k == -1 then -1 else k + 1
  }

  /** Index of the last occurrence of `c`, or -1. */
  function LastIndexOf(s: string, c: char): (r: int)
    ensures -1 <= r < |s|
    ensures r == -1 <==> c !in s
    ensures r >= 0 ==> s[r] == c && c !in s[r + 1..]
  {
    if |s| == 0 then -1
    else if s[|s| - 1] == c then |s| - 1
    else
      var k := LastIndexOf(s[..|s| - 1], c);
      assert k >= 0 ==> s[k + 1..] == s[..|s| - 1][k + 1..] + [s[|s| - 1]];
      k
  }

  /** Number of occurrences of `c` in `s`. */
  function Count(s: string, c: char): nat {
    if |s| == 0 then 0 else (if s[0] == c then 1 else 0) + Count(s[1..], c)
  }

  /** `strings.Split(s, string(sep))`: the pieces between separators, always at least one. */
  function Split(s: string, sep: char): (r: seq<string>)
    ensures |r| == Count(s, sep) + 1
    ensures forall i :: 0 <= i < |r| ==> sep !in r[i]
    decreases |s|
  {
    var i := IndexOf(s, sep);
    if i == -1 then
      CountAbsent(s, sep);
      [s]
    else
      CountSplit(s, sep, i);
      var head, rest := s[..i], Split(s[i + 1..], sep);
      assert sep !in head;
      assert forall k :: 1 <= k <= |rest| ==> ([head] + rest)[k] == rest[k - 1];
      [head] + rest
  }

  lemma CountAbsent(s: string, c: char)
    requires c !in s
    ensures Count(s, c) == 0
  {
    if |s| > 0 {
      assert c !in s[1..];
      CountAbsent(s[1..], c);
    }
  }

  lemma CountConcat(a: string, b: string, c: char)
    ensures Count(a + b, c) == Count(a, c) + Count(b, c)
  {
    if |a| == 0 {
      assert a + b == b;
    } else {
      assert (a + b)[1..] == a[1..] + b;
      CountConcat(a[1..], b, c);
    }
  }

  lemma CountSplit(s: string, c: char, i: nat)
    requires i < |s| && s[i] == c && c !in s[..i]
    ensures Count(s, c) == Count(s[i + 1..], c) + 1
  {
    assert s == s[..i] + ([s[i]] + s[i + 1..]);
    CountConcat(s[..i], [s[i]] + s[i + 1..], c);
    CountAbsent(s[..i], c);
    assert ([s[i]] + s[i + 1..])[1..] == s[i + 1..];
  }

  /** A string holding `c` holds it a positive number of times. */
  lemma CountPositive(s: string, c: char)
    requires c in s
    ensures Count(s, c) > 0
  {
    var i := IndexOf(s, c);
    CountSplit(s, c, i);
  }

  /** Splitting at a first separator peels off the text before it. */
  lemma SplitAtFirst(a: string, b: string, c: char)
    requires c !in a
    ensures Split(a + [c] + b, c) == [a] + Split(b, c)
  {
    var s := a + [c] + b;
    var i := IndexOf(s, c);
    assert s[|a|] == c;
    assert forall j :: 0 <= j < |a| ==> s[j] == a[j];
    assert s[..i] == a && s[i + 1..] == b;
  }

  /** Splitting before a last piece without separators adds that piece at the end. */
  lemma {:induction false} SplitLast(a: string, b: string, c: char)
    requires c !in b
    ensures Split(a + [c] + b, c) == Split(a, c) + [b]
    decreases |a|
  {
    var i := IndexOf(a, c);
    if i == -1 {
      SplitAtFirst(a, b, c);
      assert Split(b, c) == [b];
    } else {
      assert a == a[..i] + [c] + a[i + 1..];
      assert a + [c] + b == a[..i] + [c] + (a[i + 1..] + [c] + b);
      SplitAtFirst(a[..i], a[i + 1..] + [c] + b, c);
      SplitAtFirst(a[..i], a[i + 1..], c);
      SplitLast(a[i + 1..], b, c);
    }
  }

  /** Joining the pieces of a split with the separator gives back the string. */
  lemma {:induction false} JoinSplit(s: string, c: char)
    ensures Join(Split(s, c), [c]) == s
    decreases |s|
  {
    var i := IndexOf(s, c);
    if i != -1 {
      var rest := Split(s[i + 1..], c);
      assert Split(s, c) == [s[..i]] + rest;
      JoinCons(s[..i], rest, [c]);
      JoinSplit(s[i + 1..], c);
      assert s == s[..i] + [c] + s[i + 1..];
    }
  }

  /** Joining a first piece before at least one more puts the separator after it. */
  lemma JoinCons(x: string, rest: seq<string>, sep: string)
    requires |rest| >= 1
    ensures Join([x] + rest, sep) == x + sep + Join(rest, sep)
  {
    assert ([x] + rest)[1..] == rest;
  }

  /** `strings.Join(parts, sep)`. */
  function Join(parts: seq<string>, sep: string): string {
    if |parts| == 0 then ""
    else if |parts| == 1 then parts[0]
    else parts[0] + sep + Join(parts[1..], sep)
  }

  /** `strings.ReplaceAll(s, string(c), repl)` for a one-character pattern. */
  function ReplaceChar(s: string, c: char, repl: string): (r: string)
    ensures c !in repl ==> c !in r
  {
    if |s| == 0 then ""
    else (if s[0] == c then repl else [s[0]]) + ReplaceChar(s[1..], c, repl)
  }

  /** Go's `unicode.IsSpace`. */
  predicate GoSpace(c: char) {
    c == ' ' || c == '\t' || c == '\n' || c == '\r' || c == '\U{000B}' || c == '\U{000C}'
    || c == '\U{0085}' || c == '\U{00A0}' || c == '\U{1680}' || ('\U{2000}' <= c <= '\U{200A}')
    || c == '\U{2028}' || c == '\U{2029}' || c == '\U{202F}' || c == '\U{205F}' || c == '\U{3000}'
  }

  /** Python's `str.isspace` on one character: Go's set plus the four separators U+001C..U+001F. */
  predicate PySpace(c: char) {
    GoSpace(c) || ('\U{001C}' <= c <= '\U{001F}')
  }

  function TrimLeft(s: string, space: char -> bool): (r: string)
    ensures |r| <= |s| && r == s[|s| - |r|..]
    ensures |r| > 0 ==> !space(r[0])
  {
    if |s| > 0 && space(s[0]) then TrimLeft(s[1..], space) else s
  }

  function TrimRight(s: string, space: char -> bool): (r: string)
    ensures |r| <= |s| && r == s[..|r|]
    ensures |r| > 0 ==> !space(r[|r| - 1])
  {
    if |s| > 0 && space(s[|s| - 1]) then TrimRight(s[..|s| - 1], space) else s
  }

  /** `strings.TrimSpace`. */
  function TrimSpace(s: string): (r: string)
    ensures |r| > 0 ==> !GoSpace(r[0]) && !GoSpace(r[|r| - 1])
  {
    TrimRight(TrimLeft(s, GoSpace), GoSpace)
  }

  /** Python `str.strip()` with no argument. */
  function PyStrip(s: string): (r: string)
    ensures |r| > 0 ==> !PySpace(r[0]) && !PySpace(r[|r| - 1])
  {
    TrimRight(TrimLeft(s, PySpace), PySpace)
  }

  function DigitChar(d: nat): char
    requires d < 10
  {
    ['0', '1', '2', '3', '4', '5', '6', '7', '8', '9'][d]
  }

  /** Decimal rendering of a natural number (`%d`, Python `str`). */
  function NatToString(n: nat): (r: string)
    ensures |r| > 0
    ensures forall i :: 0 <= i < |r| ==> '0' <= r[i] <= '9'
  {
    if n < 10 then [DigitChar(n)] else NatToString(n / 10) + [DigitChar(n % 10)]
  }

  /** Distinct numbers have distinct renderings. */
  lemma {:induction false} NatToStringInjective(m: nat, n: nat)
    requires NatToString(m) == NatToString(n)
    ensures m == n
  {
    var a, b := NatToString(m), NatToString(n);
    if m >= 10 && n >= 10 {
      assert a[..|a| - 1] == NatToString(m / 10) && b[..|b| - 1] == NatToString(n / 10);
      NatToStringInjective(m / 10, n / 10);
      assert DigitChar(m % 10) == a[|a| - 1] == DigitChar(n % 10);
      DigitCharInjective(m % 10, n % 10);
    } else if m < 10 && n < 10 {
      DigitCharInjective(m, n);
    }
  }

  lemma DigitCharInjective(a: nat, b: nat)
    requires a < 10 && b < 10 && DigitChar(a) == DigitChar(b)
    ensures a == b
  {
  }

  /** Decimal rendering of an integer, with a leading '-' when negative. */
  function IntToString(n: int): string {
    if n < 0 then "-" + NatToString(-n) else NatToString(n)
  }
}
