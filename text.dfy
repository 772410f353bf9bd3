/** String helpers the classifier and the extractors rely on: ASCII
    lower-casing (the model's stand-in for `str.lower`), substring search
    (Python's `in` on strings) and the decimal rendering of a natural number
    used in the default series labels. */
module Text {

  function LowerChar(c: char): char
  {
    if 'A' <= c <= 'Z' then (c as int + 32) as char else c
  }

  /** Lower-cases the ASCII letters of `s` and leaves every other character alone. */
  function Lower(s: string): string
  {
    seq(|s|, i requires 0 <= i < |s| => LowerChar(s[i]))
  }

  /** `sub in s` for Python strings: `sub` occurs in `s` at some position. */
  predicate Contains(s: string, sub: string)
  {
    exists i | 0 <= i <= |s| - |sub| :: OccursAt(s, sub, i)
  }

  predicate OccursAt(s: string, sub: string, i: int)
  {
    0 <= i && i + |sub| <= |s| && s[i..i + |sub|] == sub
  }

  predicate StartsWith(s: string, prefix: string)
  {
    |prefix| <= |s| && s[..|prefix|] == prefix
  }

  /** A string already in lower case is its own lower-cased form. */
  lemma {:induction false} LowerOfLowercase(s: string)
    requires forall i :: 0 <= i < |s| ==> !('A' <= s[i] <= 'Z')
    ensures Lower(s) == s
  {
    assert forall i :: 0 <= i < |s| ==> Lower(s)[i] == s[i];
  }

  /** Lower-casing keeps a lower-case occurrence: if `s` contains `sub` and
      `sub` has no upper-case letter then `Lower(s)` contains `sub` too. */
  lemma ContainsLowerOf(s: string, sub: string)
    requires forall i :: 0 <= i < |sub| ==> !('A' <= sub[i] <= 'Z')
    requires Contains(s, sub)
    ensures Contains(Lower(s), sub)
  {
    var k :| 0 <= k <= |s| - |sub| && OccursAt(s, sub, k);
    var t := Lower(s);
    forall j | 0 <= j < |sub|
      ensures t[k + j] == sub[j]
    {
      assert s[k..k + |sub|][j] == sub[j];
    }
    assert t[k..k + |sub|] == sub;
    assert OccursAt(t, sub, k);
  }

  function Digit(d: nat): char
    requires d < 10
  {
    "0123456789"[d]
  }

  predicate IsDigit(c: char)
  {
    '0' <= c <= '9'
  }

  /** Decimal representation of `n`, as Python's `f"{n}"` renders a non-negative int. */
  function NatToString(n: nat): (r: string)
    ensures |r| > 0
    ensures forall i :: 0 <= i < |r| ==> IsDigit(r[i])
    ensures n < 10 <==> |r| == 1
    decreases n
  {
    if n < 10 then [Digit(n)] else NatToString(n / 10) + [Digit(n % 10)]
  }

  function DigitValue(c: char): int
  {
    c as int - '0' as int
  }

  lemma DigitRoundTrip(d: nat)
    requires d < 10
    ensures DigitValue(Digit(d)) == d
  {
  }

  /** The decimal rendering is injective, so distinct indices give distinct default labels. */
  lemma {:induction false} NatToStringInjective(a: nat, b: nat)
    requires NatToString(a) == NatToString(b)
    ensures a == b
    decreases a
  {
    var s, t := NatToString(a), NatToString(b);
    if a < 10 {
      assert b < 10;
      assert Digit(a) == s[0] == t[0] == Digit(b);
      DigitRoundTrip(a);
      DigitRoundTrip(b);
    } else {
      assert b >= 10;
      assert s[..|s| - 1] == NatToString(a / 10);
      assert t[..|t| - 1] == NatToString(b / 10);
      NatToStringInjective(a / 10, b / 10);
      assert Digit(a % 10) == s[|s| - 1] == t[|t| - 1] == Digit(b % 10);
      DigitRoundTrip(a % 10);
      DigitRoundTrip(b % 10);
    }
  }
}
