/**
 * The string operations the modelled code uses: Python's str.strip, str.find,
 * str.split(sep), sep.join(xs), and the decimal rendering of the counters
 * and time stamps that keys are built from.
 */
module Strings {

  /** Python's str.isspace for one character. */
  predicate IsWhitespace(c: char) {
    var n := c as int;
    n == 32 || 9 <= n <= 13 || 28 <= n <= 31 || n == 0x85 || n == 0xA0 || n == 0x1680
    || 0x2000 <= n <= 0x200A || n == 0x2028 || n == 0x2029 || n == 0x202F || n == 0x205F || n == 0x3000
  }

  predicate IsStripped(s: string) {
    s == [] || (!IsWhitespace(s[0]) && !IsWhitespace(s[|s| - 1]))
  }

  function TrimStart(s: string): (r: string)
    ensures |r| <= |s| && r == s[|s| - |r|..]
    ensures r == [] || !IsWhitespace(r[0])
    decreases |s|
  {
    if s != [] && IsWhitespace(s[0]) then TrimStart(s[1..]) else s
  }

  function TrimEnd(s: string): (r: string)
    ensures r <= s
    ensures r == [] || !IsWhitespace(r[|r| - 1])
    decreases |s|
  {
    if s != [] && IsWhitespace(s[|s| - 1]) then TrimEnd(s[..|s| - 1]) else s
  }

  /** Python's str.strip() with no argument. */
  function Strip(s: string): (r: string)
    ensures IsStripped(r)
    ensures |r| <= |s|
  {
    TrimEnd(TrimStart(s))
  }

  lemma StripKeepsStripped(s: string)
    requires IsStripped(s)
    ensures Strip(s) == s
  {
  }

  /** A string of whitespace only strips to the empty string. */
  lemma {:induction false} StripOfWhitespace(s: string)
    requires forall i :: 0 <= i < |s| ==> IsWhitespace(s[i])
    ensures TrimStart(s) == [] && Strip(s) == []
    decreases |s|
  {
    if s != [] {
      StripOfWhitespace(s[1..]);
    }
  }

  /** What TrimEnd removes is whitespace only. */
  lemma {:induction false} TrimEndDropsWhitespace(s: string)
    ensures forall k :: |TrimEnd(s)| <= k < |s| ==> IsWhitespace(s[k])
    decreases |s|
  {
    if s != [] && IsWhitespace(s[|s| - 1]) {
      var init := s[..|s| - 1];
      TrimEndDropsWhitespace(init);
      assert forall k :: 0 <= k < |init| ==> init[k] == s[k];
    }
  }

  /**
   * Stripping a prefix of a stripped string only trims that prefix at its
   * end, and what it trims is whitespace.
   */
  lemma StripOfStrippedPrefix(s: string, i: nat)
    requires IsStripped(s) && i <= |s|
    ensures Strip(s[..i]) <= s[..i] && Strip(s[..i]) <= s
    ensures forall k :: |Strip(s[..i])| <= k < i ==> IsWhitespace(s[k])
  {
    var p := s[..i];
    assert TrimStart(p) == p;
    assert TrimEnd(p) <= p;
    TrimEndDropsWhitespace(p);
    assert forall k :: 0 <= k < i ==> p[k] == s[k];
  }

  // ---------------------------------------------------------------- find

  predicate OccursAt(s: string, pat: string, i: int) {
    0 <= i && i + |pat| <= |s| && s[i..i + |pat|] == pat
  }

  /** The first position at or after k where pat occurs in s, or -1. */
  function FindFrom(s: string, pat: string, k: nat): (r: int)
    ensures r == -1 || (k <= r && OccursAt(s, pat, r))
    ensures forall j :: k <= j && (r == -1 || j < r) ==> !OccursAt(s, pat, j)
    decreases |s| - k
  {
    if k + |pat| > |s| then -1
    else if s[k..k + |pat|] == pat then k
    else FindFrom(s, pat, k + 1)
  }

  /** Python's str.find. */
  function Find(s: string, pat: string): int {
    FindFrom(s, pat, 0)
  }

  lemma {:induction false} NoOccurrenceInPrefix(s: string, t: string, pat: string, bound: int)
    requires t <= s
    requires |t| <= bound
    requires |pat| > 0
    requires forall j :: 0 <= j < bound ==> !OccursAt(s, pat, j)
    ensures Find(t, pat) == -1
  {
    var r := Find(t, pat);
    if r != -1 {
      assert OccursAt(t, pat, r);
      assert t[r..r + |pat|] == s[r..r + |pat|];
      assert OccursAt(s, pat, r);
    }
  }

  // ---------------------------------------------------------------- split / join

  function Count(s: string, c: char): nat {
    if s == [] then 0 else (if s[0] == c then 1 else 0) + Count(s[1..], c)
  }

  /** Python's s.split(sep) for a one-character separator. */
  function Split(s: string, sep: char): (r: seq<string>)
    ensures |r| == Count(s, sep) + 1
    ensures forall i :: 0 <= i < |r| ==> sep !in r[i]
    decreases |s|
  {
    if s == [] then [""]
    else
      var rest := Split(s[1..], sep);
      if s[0] == sep then [""] + rest else [[s[0]] + rest[0]] + rest[1..]
  }

  /** Python's sep.join(xs). */
  function Join(xs: seq<string>, sep: char): string
    decreases |xs|
  {
    if |xs| == 0 then "" else if |xs| == 1 then xs[0] else xs[0] + [sep] + Join(xs[1..], sep)
  }

  /** The one-character strings of s, as iterating over a Python string gives them. */
  function Chars(s: string): (r: seq<string>)
    ensures |r| == |s| && forall i :: 0 <= i < |s| ==> r[i] == [s[i]]
  {
    seq(|s|, i requires 0 <= i < |s| => [s[i]])
  }

  /** Joining the characters of s puts the separator between each two of them. */
  lemma {:induction false} JoinChars(s: string, sep: char)
    ensures var j := Join(Chars(s), sep);
      && |j| == (if |s| == 0 then 0 else 2 * |s| - 1)
      && forall i :: 0 <= i < |s| ==> j[2 * i] == s[i] && (i < |s| - 1 ==> j[2 * i + 1] == sep)
    decreases |s|
  {
    if |s| >= 2 {
      var rest := Join(Chars(s[1..]), sep);
      JoinChars(s[1..], sep);
      assert Chars(s)[1..] == Chars(s[1..]);
      var j := Join(Chars(s), sep);
      assert j == [s[0]] + [sep] + rest;
      forall i | 1 <= i < |s| ensures j[2 * i] == s[i] && (i < |s| - 1 ==> j[2 * i + 1] == sep) {
        assert j[2 * i] == rest[2 * (i - 1)] && s[i] == s[1..][i - 1];
        if i < |s| - 1 {
          assert j[2 * i + 1] == rest[2 * (i - 1) + 1];
        }
      }
    }
  }

  lemma {:induction false} SplitWithoutSeparator(a: string, sep: char)
    requires sep !in a
    ensures Split(a, sep) == [a]
    decreases |a|
  {
    if a != [] {
      SplitWithoutSeparator(a[1..], sep);
      assert [a[0]] + a[1..] == a;
    }
  }

  lemma {:induction false} SplitAtFirstSeparator(a: string, b: string, sep: char)
    requires sep !in a
    ensures Split(a + [sep] + b, sep) == [a] + Split(b, sep)
    decreases |a|
  {
    var s := a + [sep] + b;
    if a == [] {
      assert s[1..] == b;
    } else {
      assert s[1..] == a[1..] + [sep] + b;
      SplitAtFirstSeparator(a[1..], b, sep);
      assert [a[0]] + a[1..] == a;
    }
  }

  /** Splitting a join gives the pieces back when none holds the separator. */
  lemma {:induction false} SplitJoin(xs: seq<string>, sep: char)
    requires |xs| > 0
    requires forall i :: 0 <= i < |xs| ==> sep !in xs[i]
    ensures Split(Join(xs, sep), sep) == xs
    decreases |xs|
  {
    if |xs| == 1 {
      SplitWithoutSeparator(xs[0], sep);
    } else {
      SplitJoin(xs[1..], sep);
      SplitAtFirstSeparator(xs[0], Join(xs[1..], sep), sep);
      assert [xs[0]] + xs[1..] == xs;
    }
  }

  /** Joining the pieces of a split gives the string back, whatever it holds. */
  lemma {:induction false} JoinSplit(s: string, sep: char)
    ensures Join(Split(s, sep), sep) == s
    decreases |s|
  {
    if s != [] {
      var rest := Split(s[1..], sep);
      JoinSplit(s[1..], sep);
      if s[0] == sep {
        assert ([""] + rest)[1..] == rest;
      } else if |rest| == 1 {
        assert [s[0]] + s[1..] == s;
      } else {
        var r := [[s[0]] + rest[0]] + rest[1..];
        assert r[1..] == rest[1..];
        assert Join(rest, sep) == rest[0] + [sep] + Join(rest[1..], sep);
        assert [s[0]] + s[1..] == s;
      }
    }
  }

  // ---------------------------------------------------------------- decimal

  predicate IsDigit(c: char) { '0' <= c <= '9' }

  function DigitChar(d: nat): (c: char)
    requires d < 10
    ensures IsDigit(c)
  {
    ('0' as int + d) as char
  }

  /** The decimal rendering of a natural number, as str(n) gives it. */
  function Decimal(n: nat): (s: string)
    ensures |s| > 0
    ensures forall i :: 0 <= i < |s| ==> IsDigit(s[i])
  {
    if n < 10 then [DigitChar(n)] else Decimal(n / 10) + [DigitChar(n % 10)]
  }

  /** The number a string of decimal digits denotes. */
  function DecimalValue(s: string): nat
    requires forall i :: 0 <= i < |s| ==> IsDigit(s[i])
  {
    if s == [] then 0 else DecimalValue(s[..|s| - 1]) * 10 + DigitValue(s[|s| - 1])
  }

  function DigitValue(c: char): (d: nat)
    requires IsDigit(c)
    ensures d < 10
  {
    c as int - '0' as int
  }

  lemma {:induction false} DecimalRoundTrip(n: nat)
    ensures DecimalValue(Decimal(n)) == n
  {
    var s := Decimal(n);
    if n >= 10 {
      DecimalRoundTrip(n / 10);
      assert s[..|s| - 1] == Decimal(n / 10);
    }
  }

  lemma DecimalInjective(m: nat, n: nat)
    requires m != n
    ensures Decimal(m) != Decimal(n)
  {
    DecimalRoundTrip(m);
    DecimalRoundTrip(n);
  }

  /** Equal strings with a common prefix have equal remainders. */
  lemma CancelPrefix(p: string, a: string, b: string)
    requires p + a == p + b
    ensures a == b
  {
    assert a == (p + a)[|p|..];
    assert b == (p + b)[|p|..];
  }
}
