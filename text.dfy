/**
 * String helpers shared by the front end and the back end: decimal rendering of integers
 * (JavaScript's `String(n)` / Java's string concatenation), `parseInt`, substring search
 * (`String.prototype.includes`, SQL `LIKE '%x%'`) and ASCII lower-casing.
 */
module Text {
  import opened Wrappers

  predicate IsDigit(c: char) { '0' <= c <= '9' }

  function DigitChar(d: int): (c: char)
    requires 0 <= d < 10
    ensures IsDigit(c)
  {
    (('0' as int) + d) as char
  }

  function DigitVal(c: char): int
    requires IsDigit(c)
  {
    c as int - '0' as int
  }

  predicate AllDigits(s: string)
  {
    forall i :: 0 <= i < |s| ==> IsDigit(s[i])
  }

  /** Decimal digits of a natural number, most significant first, no leading zeros. */
  function NatText(n: nat): (s: string)
    ensures |s| > 0 && AllDigits(s)
    decreases n
  {
    if n < 10 then [DigitChar(n)] else NatText(n / 10) + [DigitChar(n % 10)]
  }

  /** `String(n)` for an integer. */
  function IntText(n: int): string
  {
    if n < 0 then "-" + NatText(-n) else NatText(n)
  }

  /** The number a string of decimal digits denotes. */
  function DigitsValue(s: string): nat
    requires AllDigits(s)
  {
    if s == [] then 0 else DigitsValue(s[..|s| - 1]) * 10 + DigitVal(s[|s| - 1])
  }

  /** Length of the longest prefix of `s` made of decimal digits. */
  function DigitPrefixLen(s: string): (k: nat)
    ensures k <= |s| && AllDigits(s[..k])
    ensures k < |s| ==> !IsDigit(s[k])
  {
    if s == [] || !IsDigit(s[0]) then 0
    else
      var k := DigitPrefixLen(s[1..]) + 1;
      assert s[..k] == [s[0]] + s[1..][..k - 1];
      k
  }

  /**
   * `parseInt(s)` for decimal input: an optional sign, then the longest run of digits;
   * `None` stands for `NaN` (no digit after the sign).
   */
  function ParseInt(s: string): Option<int>
  {
    var neg := |s| > 0 && s[0] == '-';
    var rest := if |s| > 0 && (s[0] == '-' || s[0] == '+') then s[1..] else s;
    var k := DigitPrefixLen(rest);
    if k == 0 then None
    else
      var v: int := DigitsValue(rest[..k]);
      Some(if neg then -v else v)
  }

  lemma {:induction false} NatTextValue(n: nat)
    ensures DigitsValue(NatText(n)) == n
    decreases n
  {
    if n >= 10 {
      var s := NatText(n);
      NatTextValue(n / 10);
      assert s[..|s| - 1] == NatText(n / 10);
    }
  }

  lemma DigitPrefixOfDigits(s: string)
    requires AllDigits(s)
    ensures DigitPrefixLen(s) == |s|
  {
    if s != [] {
      DigitPrefixOfDigits(s[1..]);
    }
  }

  /** Rendering an integer and parsing it back gives the integer: the round trip the forms rely on. */
  lemma ParseIntText(n: int)
    ensures ParseInt(IntText(n)) == Some(n)
  {
    var s := IntText(n);
    var m: nat := if n < 0 then -n else n;
    var rest := NatText(m);
    DigitPrefixOfDigits(rest);
    NatTextValue(m);
    if n < 0 {
      assert s[1..] == rest;
    } else {
      assert s == rest;
      assert rest[0] != '-' && rest[0] != '+';
    }
    assert rest[..|rest|] == rest;
  }

  /** Digits followed by a non-digit: the digit run ends where the digits end. */
  lemma {:induction false} DigitPrefixStops(s: string, t: string)
    requires AllDigits(s)
    requires t == [] || !IsDigit(t[0])
    ensures DigitPrefixLen(s + t) == |s|
  {
    if s != [] {
      assert (s + t)[1..] == s[1..] + t;
      DigitPrefixStops(s[1..], t);
    }
  }

  /** `parseInt` of a run of digits before a non-digit reads the digits. */
  lemma ParseIntOfDigits(d: string, t: string)
    requires d != [] && AllDigits(d)
    requires t == [] || !IsDigit(t[0])
    ensures ParseInt(d + t) == Some(DigitsValue(d) as int)
  {
    var s := d + t;
    assert s[0] == d[0];
    DigitPrefixStops(d, t);
    assert s[..|d|] == d;
  }

  /** A minus sign before a run of digits negates what the digits read. */
  lemma ParseIntNegated(s: string, v: int)
    requires |s| > 0 && IsDigit(s[0])
    requires ParseInt(s) == Some(v)
    ensures ParseInt("-" + s) == Some(-v)
  {
    assert ("-" + s)[1..] == s;
  }

  /** `parseInt` reads a rendered integer back even when text that is not a digit follows it. */
  lemma ParseIntTextThen(n: int, t: string)
    requires t == [] || !IsDigit(t[0])
    ensures ParseInt(IntText(n) + t) == Some(n)
  {
    var m: nat := if n < 0 then -n else n;
    var digits := NatText(m);
    NatTextValue(m);
    ParseIntOfDigits(digits, t);
    var s := IntText(n) + t;
    if n < 0 {
      assert s == "-" + (digits + t);
      ParseIntNegated(digits + t, m);
    } else {
      assert s == digits + t;
    }
  }

  /** The decimal digits of `s`, in order, with every other character dropped. */
  function DigitsOnly(s: string): (r: string)
    ensures AllDigits(r) && |r| <= |s|
  {
    if s == [] then []
    else (if IsDigit(s[0]) then [s[0]] else []) + DigitsOnly(s[1..])
  }

  /** `s` begins with `p`. */
  predicate StartsWith(s: string, p: string)
  {
    |p| <= |s| && s[..|p|] == p
  }

  /** `s.includes(sub)`: `sub` occurs somewhere in `s`. */
  predicate Contains(s: string, sub: string)
  {
    exists i {:trigger s[i..]} :: 0 <= i <= |s| && StartsWith(s[i..], sub)
  }

  lemma ContainsConcat(a: string, sub: string, b: string)
    ensures Contains(a + sub + b, sub)
  {
    var s := a + sub + b;
    assert s[|a|..][..|sub|] == sub;
  }

  lemma StartsWithConcat(p: string, rest: string)
    ensures StartsWith(p + rest, p)
  {
    assert (p + rest)[..|p|] == p;
  }

  lemma PrefixContained(s: string, p: string)
    requires StartsWith(s, p)
    ensures Contains(s, p)
  {
    assert s[0..] == s;
  }

  /** A string cannot contain `sub` if one of `sub`'s characters never occurs in it. */
  lemma AbsentCharNotContained(s: string, sub: string, k: nat)
    requires k < |sub| && sub[k] !in s
    ensures !Contains(s, sub)
  {
    forall i | 0 <= i <= |s|
      ensures !StartsWith(s[i..], sub)
    {
      if i + |sub| <= |s| {
        assert s[i..][..|sub|][k] == s[i + k];
      }
    }
  }

  /** A string cannot contain `sub` if two adjacent characters of `sub` are never adjacent in it. */
  lemma AbsentPairNotContained(s: string, sub: string, k: nat)
    requires k + 1 < |sub|
    requires forall j :: 0 <= j < |s| - 1 ==> s[j] != sub[k] || s[j + 1] != sub[k + 1]
    ensures !Contains(s, sub)
  {
    forall i | 0 <= i <= |s|
      ensures !StartsWith(s[i..], sub)
    {
      if i + |sub| <= |s| {
        assert s[i..][..|sub|][k] == s[i + k];
        assert s[i..][..|sub|][k + 1] == s[i + k + 1];
      }
    }
  }

  /** ASCII lower-casing, standing for Java's `toLowerCase` and SQL `LOWER`. */
  function LowerChar(c: char): char
  {
    if 'A' <= c <= 'Z' then ((c as int) + 32) as char else c
  }

  function Lower(s: string): (r: string)
    ensures |r| == |s|
    ensures forall i :: 0 <= i < |s| ==> r[i] == LowerChar(s[i])
  {
    if s == [] then [] else [LowerChar(s[0])] + Lower(s[1..])
  }

  /** Lower-casing twice is lower-casing once, so a search term's case never matters. */
  lemma LowerIdempotent(s: string)
    ensures Lower(Lower(s)) == Lower(s)
  {
    var l := Lower(s);
    assert forall i :: 0 <= i < |s| ==> Lower(l)[i] == l[i];
  }

  /** Number of occurrences of `c` in `s`. */
  function Occurrences(s: string, c: char): nat
  {
    if s == [] then 0 else (if s[0] == c then 1 else 0) + Occurrences(s[1..], c)
  }
}
