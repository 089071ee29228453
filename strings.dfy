/**
 * The string primitives the backend and the editors rely on: prefix and
 * suffix tests, substring search, ASCII case mapping, Python's
 * `str.split(sep)` and `str.split()`, `str.isdigit()`/`int()` on digit
 * strings and `str(n)` for natural numbers.
 */
module Strings {

  predicate StartsWith(s: string, prefix: string) {
    |prefix| <= |s| && s[..|prefix|] == prefix
  }

  predicate EndsWith(s: string, suffix: string) {
    |suffix| <= |s| && s[|s| - |suffix|..] == suffix
  }

  /** Python's `sub in s`. */
  predicate Contains(s: string, sub: string) {
    exists i | 0 <= i <= |s| - |sub| :: OccursAt(s, sub, i)
  }

  /** `sub` occurs in `s` starting at position `i`. */
  predicate OccursAt(s: string, sub: string, i: int) {
    0 <= i <= |s| - |sub| && s[i..i + |sub|] == sub
  }

  // ---------------------------------------------------------------- case

  function LowerChar(c: char): char {
    if 'A' <= c <= 'Z' then (c as int + 32) as char else c
  }

  function UpperChar(c: char): char {
    if 'a' <= c <= 'z' then (c as int - 32) as char else c
  }

  /** `str.lower()` restricted to ASCII letters. */
  function Lower(s: string): (r: string)
    ensures |r| == |s|
    ensures forall i :: 0 <= i < |s| ==> r[i] == LowerChar(s[i])
  {
    seq(|s|, i requires 0 <= i < |s| => LowerChar(s[i]))
  }

  /** `str.upper()` restricted to ASCII letters. */
  function Upper(s: string): (r: string)
    ensures |r| == |s|
    ensures forall i :: 0 <= i < |s| ==> r[i] == UpperChar(s[i])
  {
    seq(|s|, i requires 0 <= i < |s| => UpperChar(s[i]))
  }

  lemma LowerIdempotent(s: string)
    ensures Lower(Lower(s)) == Lower(s)
  {
    assert forall i :: 0 <= i < |s| ==> LowerChar(LowerChar(s[i])) == LowerChar(s[i]);
  }

  // ---------------------------------------------------------------- digits

  predicate IsDigit(c: char) {
    '0' <= c <= '9'
  }

  /** `str.isdigit()` for ASCII digits: false on the empty string. */
  predicate IsDigits(s: string) {
    |s| > 0 && forall i :: 0 <= i < |s| ==> IsDigit(s[i])
  }

  /** `int(s)` of a string of decimal digits. */
  function DigitsValue(s: string): nat
    requires forall i :: 0 <= i < |s| ==> IsDigit(s[i])
  {
    if |s| == 0 then 0
    else
      assert IsDigit(s[|s| - 1]);
      10 * DigitsValue(s[..|s| - 1]) + (s[|s| - 1] as int - '0' as int)
  }

  function DigitChar(d: nat): (c: char)
    requires d < 10
    ensures IsDigit(c)
  {
    ('0' as int + d) as char
  }

  /** `str(n)` for a natural number: its decimal digits without leading zeros. */
  function NatToString(n: nat): (r: string)
    ensures |r| >= 1 && IsDigits(r)
    ensures n >= 10 ==> |r| >= 2
  {
    if n < 10 then [DigitChar(n)] else NatToString(n / 10) + [DigitChar(n % 10)]
  }

  /** Distinct numbers print differently; this is what makes `step_1`..`step_n` distinct names. */
  lemma {:induction false} NatToStringInjective(a: nat, b: nat)
    requires NatToString(a) == NatToString(b)
    ensures a == b
  {
    var s := NatToString(a);
    assert s[|s| - 1] == DigitChar(a % 10) && s[|s| - 1] == DigitChar(b % 10);
    if a >= 10 && b >= 10 {
      assert NatToString(a / 10) == s[..|s| - 1] == NatToString(b / 10);
      NatToStringInjective(a / 10, b / 10);
    }
  }

  /** Printing then reading back with `int()` gives the number again. */
  lemma {:induction false} NatToStringValue(n: nat)
    ensures DigitsValue(NatToString(n)) == n
  {
    if n >= 10 {
      var s := NatToString(n);
      assert s[..|s| - 1] == NatToString(n / 10);
      NatToStringValue(n / 10);
    }
  }

  // ---------------------------------------------------------------- split(sep)

  /**
   * Python's `s.split(sep)` for a one-character separator: the pieces between
   * separators, always at least one piece, empty pieces kept.
   */
  function Split(s: string, sep: char): (r: seq<string>)
    ensures |r| >= 1
  {
    if |s| == 0 then [""]
    else
      var rest := Split(s[1..], sep);
      if s[0] == sep then [""] + rest else [[s[0]] + rest[0]] + rest[1..]
  }

  /** `sep.join(parts)`. */
  function Join(parts: seq<string>, sep: char): string
    requires |parts| >= 1
  {
    if |parts| == 1 then parts[0] else parts[0] + [sep] + Join(parts[1..], sep)
  }

  lemma {:induction false} JoinPrepend(c: char, parts: seq<string>, sep: char)
    requires |parts| >= 1
    ensures Join([[c] + parts[0]] + parts[1..], sep) == [c] + Join(parts, sep)
  {
    var p := [[c] + parts[0]] + parts[1..];
    if |parts| > 1 {
      assert p[1..] == parts[1..];
    }
  }

  /** Splitting loses nothing: joining the pieces gives the string back, and no piece holds the separator. */
  lemma {:induction false} SplitJoin(s: string, sep: char)
    ensures Join(Split(s, sep), sep) == s
    ensures forall k :: 0 <= k < |Split(s, sep)| ==> sep !in Split(s, sep)[k]
  {
    if |s| > 0 {
      var rest := Split(s[1..], sep);
      SplitJoin(s[1..], sep);
      if s[0] == sep {
        var r := [""] + rest;
        assert r[1..] == rest;
        assert Join(r, sep) == "" + [sep] + Join(rest, sep);
        assert [sep] + s[1..] == s;
        assert forall k :: 1 <= k < |r| ==> r[k] == rest[k - 1];
      } else {
        JoinPrepend(s[0], rest, sep);
        assert [s[0]] + s[1..] == s;
        var r := [[s[0]] + rest[0]] + rest[1..];
        assert forall k :: 1 <= k < |r| ==> r[k] == rest[k];
      }
    }
  }

  /** A string without the separator is a single piece. */
  lemma {:induction false} SplitNoSep(s: string, sep: char)
    requires sep !in s
    ensures Split(s, sep) == [s]
  {
    if |s| > 0 {
      assert sep !in s[1..];
      SplitNoSep(s[1..], sep);
      assert [s[0]] + s[1..] == s;
    }
  }

  /** Splitting `a + sep + b` splits `a` and `b` independently: `p.q` is `p`'s pieces followed by `q`'s. */
  lemma {:induction false} SplitConcat(a: string, b: string, sep: char)
    ensures Split(a + [sep] + b, sep) == Split(a, sep) + Split(b, sep)
    decreases |a|
  {
    if |a| == 0 {
      assert a + [sep] + b == [sep] + b;
      SplitCons(sep, b, sep);
    } else {
      var tail := a[1..] + [sep] + b;
      assert a + [sep] + b == [a[0]] + tail;
      assert a == [a[0]] + a[1..];
      SplitCons(a[0], tail, sep);
      SplitCons(a[0], a[1..], sep);
      SplitConcat(a[1..], b, sep);
      if a[0] == sep {
        assert [""] + (Split(a[1..], sep) + Split(b, sep)) == ([""] + Split(a[1..], sep)) + Split(b, sep);
      } else {
        PrependPiece(a[0], Split(a[1..], sep), Split(b, sep));
      }
    }
  }

  /** One step of `Split`: a separator starts a new piece, any other character joins the first piece. */
  lemma SplitCons(c: char, t: string, sep: char)
    ensures Split([c] + t, sep) ==
      if c == sep then [""] + Split(t, sep) else [[c] + Split(t, sep)[0]] + Split(t, sep)[1..]
  {
    assert ([c] + t)[1..] == t;
  }

  /** Adding a character to the first piece commutes with appending more pieces. */
  lemma PrependPiece(c: char, xs: seq<string>, ys: seq<string>)
    requires |xs| >= 1
    ensures ([[c] + xs[0]] + xs[1..]) + ys == [[c] + (xs + ys)[0]] + (xs + ys)[1..]
  {
    assert (xs + ys)[1..] == xs[1..] + ys;
  }

  // ---------------------------------------------------------------- split()

  /** The characters Python's `str.split()` treats as whitespace (its ASCII and Latin-1 members). */
  predicate IsSpace(c: char) {
    c == ' ' || c == '\t' || c == '\n' || c == '\r' || c == '\U{B}' || c == '\U{C}'
    || ('\U{1C}' <= c <= '\U{1F}') || c == '\U{85}' || c == '\U{A0}'
  }

  predicate AllSpace(s: string) {
    forall i :: 0 <= i < |s| ==> IsSpace(s[i])
  }

  predicate NoSpace(s: string) {
    forall i :: 0 <= i < |s| ==> !IsSpace(s[i])
  }

  /** Length of the leading run of non-whitespace characters. */
  function WordLength(s: string): (n: nat)
    ensures n <= |s| && NoSpace(s[..n])
    ensures n < |s| ==> IsSpace(s[n])
  {
    if |s| == 0 || IsSpace(s[0]) then 0
    else
      var m := WordLength(s[1..]);
      assert s[..m + 1] == [s[0]] + s[1..][..m];
      m + 1
  }

  /**
   * Python's `s.split()` with no argument: the maximal runs of non-whitespace,
   * so leading, trailing and repeated whitespace produce no empty pieces.
   */
  function SplitWhitespace(s: string): (r: seq<string>)
    ensures forall k :: 0 <= k < |r| ==> |r[k]| > 0 && NoSpace(r[k])
    decreases |s|
  {
    if |s| == 0 then []
    else if IsSpace(s[0]) then SplitWhitespace(s[1..])
    else
      var n := WordLength(s);
      [s[..n]] + SplitWhitespace(s[n..])
  }

  lemma {:induction false} SplitWhitespaceOfSpace(w: string)
    requires AllSpace(w)
    ensures SplitWhitespace(w) == []
  {
    if |w| > 0 {
      SplitWhitespaceOfSpace(w[1..]);
    }
  }

  lemma {:induction false} WordLengthOfWord(a: string, rest: string)
    requires |a| > 0 && NoSpace(a)
    requires rest == [] || IsSpace(rest[0])
    ensures WordLength(a + rest) == |a|
  {
    var s := a + rest;
    if |a| == 1 {
      assert s[1..] == rest;
    } else {
      assert s[1..] == a[1..] + rest;
      WordLengthOfWord(a[1..], rest);
    }
  }

  /** Leading whitespace is skipped and the first word is split off whole. */
  lemma {:induction false} SplitWhitespaceWord(w: string, a: string, rest: string)
    requires AllSpace(w) && |a| > 0 && NoSpace(a)
    requires rest == [] || IsSpace(rest[0])
    ensures SplitWhitespace(w + a + rest) == [a] + SplitWhitespace(rest)
  {
    var s := w + a + rest;
    if |w| > 0 {
      assert s[1..] == w[1..] + a + rest;
      SplitWhitespaceWord(w[1..], a, rest);
    } else {
      assert s == a + rest;
      WordLengthOfWord(a, rest);
      assert s[..|a|] == a && s[|a|..] == rest;
    }
  }

  /**
   * Any amount of whitespace around and between two words splits into exactly
   * those two words: runs of whitespace count as one separator.
   */
  lemma TwoWords(w0: string, a: string, w1: string, b: string, w2: string)
    requires AllSpace(w0) && AllSpace(w1) && AllSpace(w2) && |w1| > 0
    requires |a| > 0 && NoSpace(a) && |b| > 0 && NoSpace(b)
    ensures SplitWhitespace(w0 + a + w1 + b + w2) == [a, b]
  {
    var tail := w1 + b + w2;
    OneWord(w1, b, w2);
    assert SplitWhitespace(tail) == [b];
    assert IsSpace(tail[0]);
    assert w0 + a + w1 + b + w2 == w0 + a + tail;
    SplitWhitespaceWord(w0, a, tail);
  }

  /** Whitespace, one word, whitespace: the word alone. */
  lemma OneWord(w1: string, b: string, w2: string)
    requires AllSpace(w1) && AllSpace(w2)
    requires |b| > 0 && NoSpace(b)
    ensures SplitWhitespace(w1 + b + w2) == [b]
  {
    SplitWhitespaceOfSpace(w2);
    assert w2 == [] || IsSpace(w2[0]);
    SplitWhitespaceWord(w1, b, w2);
  }
}
