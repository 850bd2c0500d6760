/** The few `java.lang.String` operations the services rely on, over
    `string` (a sequence of Unicode scalar values). */
module JavaText {

  /** `r` is an infix of `s` with only trimmable characters before and
      after it. */
  predicate TrimmedInfix(s: string, r: string) {
    exists a {:trigger s[a..]} :: 0 <= a && a + |r| <= |s| && s[a..][..|r|] == r
      && (forall i :: 0 <= i < a ==> IsTrimmable(s[i]))
      && (forall i :: a + |r| <= i < |s| ==> IsTrimmable(s[i]))
  }

  /** `String.trim` removes every leading and trailing character whose code
      is at most U+0020. */
  predicate IsTrimmable(c: char) {
    c <= ' '
  }

  /** `s.trim().isEmpty()`, stated without trimming: every character is
      trimmable. */
  predicate IsBlank(s: string) {
    forall i :: 0 <= i < |s| ==> IsTrimmable(s[i])
  }

  /** Drops the leading trimmable characters; the result is a suffix of `s`. */
  function StripLeading(s: string): (r: string)
    ensures |r| <= |s| && r == s[|s| - |r|..]
    ensures forall i :: 0 <= i < |s| - |r| ==> IsTrimmable(s[i])
    ensures |r| > 0 ==> !IsTrimmable(r[0])
    decreases |s|
  {
    if |s| > 0 && IsTrimmable(s[0]) then StripLeading(s[1..]) else s
  }

  /** Drops the trailing trimmable characters; the result is a prefix of `s`. */
  function StripTrailing(s: string): (r: string)
    ensures |r| <= |s| && r == s[..|r|]
    ensures forall i :: |r| <= i < |s| ==> IsTrimmable(s[i])
    ensures |r| > 0 ==> !IsTrimmable(r[|r| - 1])
    decreases |s|
  {
    if |s| > 0 && IsTrimmable(s[|s| - 1]) then StripTrailing(s[..|s| - 1]) else s
  }

  /** `String.trim`: the infix of `s` left after removing trimmable
      characters from both ends. */
  function Trim(s: string): (r: string)
    ensures TrimmedInfix(s, r)
    ensures |r| > 0 ==> !IsTrimmable(r[0]) && !IsTrimmable(r[|r| - 1])
    ensures |r| == 0 <==> IsBlank(s)
  {
    var t := StripLeading(s);
    var r := StripTrailing(t);
    TrimShape(s, t, r);
    r
  }

  lemma TrimShape(s: string, t: string, r: string)
    requires t == StripLeading(s) && r == StripTrailing(t)
    ensures TrimmedInfix(s, r)
    ensures |r| > 0 ==> !IsTrimmable(r[0]) && !IsTrimmable(r[|r| - 1])
    ensures |r| == 0 <==> IsBlank(s)
  {
    if |r| > 0 {
      assert r[0] == t[0];
    }
    TrimInfix(s, t, r);
    TrimBlank(s, t, r);
  }

  lemma TrimInfix(s: string, t: string, r: string)
    requires t == StripLeading(s) && r == StripTrailing(t)
    ensures TrimmedInfix(s, r)
  {
    var a := |s| - |t|;
    assert s[a..][..|r|] == r;
    SuffixTail(s, a, |r|);
  }

  /** Characters past offset `k` of the suffix `s[a..]` are trimmable when
      that suffix's own characters past `k` are. */
  lemma SuffixTail(s: string, a: nat, k: nat)
    requires a <= |s| && k <= |s| - a
    requires forall j :: k <= j < |s| - a ==> IsTrimmable(s[a..][j])
    ensures forall i :: a + k <= i < |s| ==> IsTrimmable(s[i])
  {
    forall i | a + k <= i < |s|
      ensures IsTrimmable(s[i])
    {
      assert s[a..][i - a] == s[i];
    }
  }

  lemma TrimBlank(s: string, t: string, r: string)
    requires t == StripLeading(s) && r == StripTrailing(t)
    ensures |r| == 0 <==> IsBlank(s)
  {
    if |t| > 0 {
      assert !IsTrimmable(t[0]);
      assert !IsBlank(s) by {
        assert s[|s| - |t|] == t[0];
      }
    }
  }

  /** A character outside the Basic Multilingual Plane, which UTF-16
      encodes as a surrogate pair. */
  predicate IsAstral(c: char) {
    c as int >= 0x1_0000
  }

  /** The number of astral characters in `s`, counted from the end. */
  function AstralCount(s: string): (k: nat)
    ensures k <= |s|
  {
    if |s| == 0 then 0
    else AstralCount(s[..|s| - 1]) + (if IsAstral(s[|s| - 1]) then 1 else 0)
  }

  /** Counting from the front gives the same number. */
  lemma {:induction false} AstralCountFront(s: string)
    requires |s| > 0
    ensures AstralCount(s) == (if IsAstral(s[0]) then 1 else 0) + AstralCount(s[1..])
  {
    if |s| > 1 {
      var p := s[..|s| - 1];
      AstralCountFront(p);
      assert p[0] == s[0];
      assert p[1..] == s[1..][..|s[1..]| - 1];
    }
  }

  /** No astral character at all is an astral count of zero. */
  lemma {:induction false} NoAstral(s: string)
    ensures AstralCount(s) == 0 <==> forall i :: 0 <= i < |s| ==> !IsAstral(s[i])
  {
    if |s| > 0 {
      var p := s[..|s| - 1];
      NoAstral(p);
      assert forall i :: 0 <= i < |p| ==> p[i] == s[i];
    }
  }

  /** `String.length`: the number of UTF-16 code units, one per character
      plus one more for every character outside the Basic Multilingual
      Plane. */
  function Utf16Length(s: string): (n: nat)
    ensures n == |s| + AstralCount(s)
    ensures |s| <= n <= 2 * |s|
    ensures n == |s| <==> forall i :: 0 <= i < |s| ==> !IsAstral(s[i])
  {
    NoAstral(s);
    if |s| == 0 then 0
    else
      AstralCountFront(s);
      (if IsAstral(s[0]) then 2 else 1) + Utf16Length(s[1..])
  }

  /** `String.contains`: `sub` occurs in `s` at some offset. */
  predicate Contains(s: string, sub: string) {
    exists i :: 0 <= i <= |s| && sub <= s[i..]
  }

  predicate IsDigit(c: char) {
    '0' <= c <= '9'
  }

  function DigitChar(d: nat): (c: char)
    requires d < 10
    ensures IsDigit(c) && (c as int) - ('0' as int) == d
  {
    (('0' as int) + d) as char
  }

  /** Decimal text of a non-negative count, as `%d` and `Long.toString`
      print it. */
  function NatToDecimal(n: nat): (s: string)
    ensures |s| > 0
    ensures forall i :: 0 <= i < |s| ==> IsDigit(s[i])
    ensures |s| > 1 ==> s[0] != '0'
  {
    if n < 10 then [DigitChar(n)] else NatToDecimal(n / 10) + [DigitChar(n % 10)]
  }

  function DigitValue(c: char): (d: nat)
    requires IsDigit(c)
    ensures d < 10 && DigitChar(d) == c
  {
    (c as int) - ('0' as int)
  }

  /** Reads a string of decimal digits back as a number. */
  function ParseDecimal(s: string): nat
    requires forall i :: 0 <= i < |s| ==> IsDigit(s[i])
  {
    if |s| == 0 then 0
    else 10 * ParseDecimal(s[..|s| - 1]) + DigitValue(s[|s| - 1])
  }

  /** Printing a count and reading it back gives the count. */
  lemma {:induction false} DecimalRoundTrip(n: nat)
    ensures ParseDecimal(NatToDecimal(n)) == n
  {
    if n >= 10 {
      var s := NatToDecimal(n);
      assert s[..|s| - 1] == NatToDecimal(n / 10);
      DecimalRoundTrip(n / 10);
    }
  }
}
