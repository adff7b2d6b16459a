/**
 * String helpers the application leans on: ASCII case mapping (the model of
 * `toLowerCase`/`toUpperCase`), substring search (`includes`), decimal
 * rendering of numbers in template strings, and `split(sep)[0]`.
 */
module Text {
  import opened Base

  predicate IsUpper(c: char) { 'A' <= c <= 'Z' }
  predicate IsLower(c: char) { 'a' <= c <= 'z' }
  predicate IsDigit(c: char) { '0' <= c <= '9' }

  /** An ASCII capital becomes the small letter 32 code points above it; every other character is kept. */
  function LowerChar(c: char): (r: char)
    ensures IsUpper(c) ==> IsLower(r) && r as int == c as int + 32
    ensures !IsUpper(c) ==> r == c
    ensures !IsUpper(r)
  {
    if IsUpper(c) then (c as int - 'A' as int + 'a' as int) as char else c
  }

  /** An ASCII small letter becomes the capital 32 code points below it; every other character is kept. */
  function UpperChar(c: char): (r: char)
    ensures IsLower(c) ==> IsUpper(r) && r as int == c as int - 32
    ensures !IsLower(c) ==> r == c
    ensures !IsLower(r)
  {
    if IsLower(c) then (c as int - 'a' as int + 'A' as int) as char else c
  }

  /** Lower-casing forgets whatever upper-casing did to a character. */
  lemma LowerOfUpperChar(c: char)
    ensures LowerChar(UpperChar(c)) == LowerChar(c)
  {
  }

  /** ASCII model of `String.prototype.toLowerCase`: maps character by character. */
  function ToLower(s: string): (r: string)
    ensures |r| == |s|
    ensures forall i :: 0 <= i < |s| ==> r[i] == LowerChar(s[i])
  {
    seq(|s|, i requires 0 <= i < |s| => LowerChar(s[i]))
  }

  /** ASCII model of `String.prototype.toUpperCase`. */
  function ToUpper(s: string): (r: string)
    ensures |r| == |s|
    ensures forall i :: 0 <= i < |s| ==> r[i] == UpperChar(s[i])
  {
    seq(|s|, i requires 0 <= i < |s| => UpperChar(s[i]))
  }

  /**
   * Lower-casing an upper-cased text gives the lower-cased original: a
   * comparison made after `toLowerCase` cannot tell the two apart.
   */
  lemma ToLowerOfToUpper(s: string)
    ensures ToLower(ToUpper(s)) == ToLower(s)
  {
    forall i | 0 <= i < |s|
      ensures ToLower(ToUpper(s))[i] == ToLower(s)[i]
    {
      LowerOfUpperChar(s[i]);
    }
  }

  /** `p` occurs in `s` starting at index `i`. */
  predicate OccursAt(s: string, p: string, i: int) {
    0 <= i && i + |p| <= |s| && s[i..i + |p|] == p
  }

  predicate IsPrefix(p: string, s: string) {
    |p| <= |s| && s[..|p|] == p
  }

  /** Model of `s.includes(p)`: a left-to-right scan for an occurrence of `p`. */
  function Includes(s: string, p: string): (b: bool)
    ensures b <==> exists i :: OccursAt(s, p, i)
  {
    if IsPrefix(p, s) then
      assert OccursAt(s, p, 0);
      true
    else if |s| == 0 then
      assert forall i :: !OccursAt(s, p, i);
      false
    else
      var t := s[1..];
      var b := Includes(t, p);
      if b then
        var j :| OccursAt(t, p, j);
        assert t[j..j + |p|] == s[j + 1..j + 1 + |p|];
        assert OccursAt(s, p, j + 1);
        b
      else
        assert forall i :: OccursAt(s, p, i) ==> i > 0 && OccursAt(t, p, i - 1) by {
          forall i | OccursAt(s, p, i)
            ensures i > 0 && OccursAt(t, p, i - 1)
          {
            assert i != 0 by { assert OccursAt(s, p, 0) ==> IsPrefix(p, s); }
            assert t[i - 1..i - 1 + |p|] == s[i..i + |p|];
          }
        }
        b
  }

  predicate IsSuffix(t: string, s: string) {
    |t| <= |s| && s[|s| - |t|..] == t
  }

  lemma PrefixExtends(p: string, a: string, b: string)
    requires IsPrefix(p, a)
    ensures IsPrefix(p, a + b)
  {
    assert (a + b)[..|p|] == a[..|p|];
  }

  lemma SuffixExtends(t: string, a: string, b: string)
    requires IsSuffix(t, b)
    ensures IsSuffix(t, a + b)
  {
    assert (a + b)[|a + b| - |t|..] == b[|b| - |t|..];
  }

  /** `Includes(s, p)` for some `p` in `ps`: the `a.includes(x) || a.includes(y) || ...` chains. */
  function IncludesAny(s: string, ps: seq<string>): (b: bool)
    ensures b <==> exists k :: 0 <= k < |ps| && Includes(s, ps[k])
  {
    if |ps| == 0 then false
    else Includes(s, ps[0]) || IncludesAny(s, ps[1..])
  }

  lemma IncludesAppend(s: string, b: string, p: string)
    requires Includes(s, p)
    ensures Includes(s + b, p)
  {
    var i :| OccursAt(s, p, i);
    assert (s + b)[i..i + |p|] == s[i..i + |p|];
    assert OccursAt(s + b, p, i);
  }

  lemma IncludesPrepend(a: string, s: string, p: string)
    requires Includes(s, p)
    ensures Includes(a + s, p)
  {
    var i :| OccursAt(s, p, i);
    assert (a + s)[|a| + i..|a| + i + |p|] == s[i..i + |p|];
    assert OccursAt(a + s, p, |a| + i);
  }

  // ---------------------------------------------------------------------------
  // Decimal numerals, as produced by `${n}` for integral numbers.

  function DigitChar(d: int): (c: char)
    requires 0 <= d < 10
    ensures IsDigit(c)
  {
    "0123456789"[d]
  }

  function DigitValue(c: char): (d: nat)
    requires IsDigit(c)
    ensures d < 10
  {
    c as int - '0' as int
  }

  predicate AllDigits(s: string) {
    forall i :: 0 <= i < |s| ==> IsDigit(s[i])
  }

  /** Decimal rendering of a natural number, most significant digit first. */
  function NatToString(n: nat): (s: string)
    ensures 1 <= |s|
    ensures AllDigits(s)
    ensures n > 0 ==> s[0] != '0'
    decreases n
  {
    if n < 10 then [DigitChar(n)] else NatToString(n / 10) + [DigitChar(n % 10)]
  }

  /** Value of a string of decimal digits. */
  function DigitsValue(s: string): nat
    requires AllDigits(s)
  {
    if |s| == 0 then 0 else DigitsValue(s[..|s| - 1]) * 10 + DigitValue(s[|s| - 1])
  }

  /** Parses a canonical decimal numeral (no sign, no leading zero); the inverse of `NatToString`. */
  function ParseNat(s: string): (r: Option<nat>)
    ensures r.Some? ==> 1 <= |s| && AllDigits(s)
  {
    if 1 <= |s| && AllDigits(s) && (|s| == 1 || s[0] != '0') then Some(DigitsValue(s)) else None
  }

  lemma {:induction false} DigitsValueOfNatToString(n: nat)
    ensures DigitsValue(NatToString(n)) == n
    decreases n
  {
    var s := NatToString(n);
    if n >= 10 {
      DigitsValueOfNatToString(n / 10);
      assert s[..|s| - 1] == NatToString(n / 10);
    }
  }

  lemma {:induction false} NatRoundTrip(n: nat)
    ensures ParseNat(NatToString(n)) == Some(n)
  {
    DigitsValueOfNatToString(n);
  }

  /** Decimal rendering of an integer, with a leading '-' for negatives. */
  function IntToString(n: int): (s: string)
    ensures 1 <= |s|
    ensures s[0] == '-' || IsDigit(s[0])
  {
    if n < 0 then "-" + NatToString(-n) else NatToString(n)
  }

  function ParseInt(s: string): (r: Option<int>)
  {
    if 1 <= |s| && s[0] == '-' then
      match ParseNat(s[1..])
      case Some(m) => if m == 0 then None else Some(-(m as int))
      case None => None
    else
      match ParseNat(s)
      case Some(m) => Some(m)
      case None => None
  }

  lemma {:induction false} IntRoundTrip(n: int)
    ensures ParseInt(IntToString(n)) == Some(n)
  {
    var s := IntToString(n);
    if n < 0 {
      NatRoundTrip(-n);
      assert s[0] == '-';
      assert s[1..] == NatToString(-n);
    } else {
      NatRoundTrip(n);
      assert s == NatToString(n);
      assert IsDigit(s[0]);
    }
  }

  // ---------------------------------------------------------------------------
  // `s.split(sep)[0]`

  /** Index of the first occurrence of `c` in `s`, or `|s|` when there is none. */
  function FirstIndexOf(s: string, c: char): (k: nat)
    ensures k <= |s|
    ensures forall i :: 0 <= i < k ==> s[i] != c
    ensures k < |s| ==> s[k] == c
  {
    if |s| == 0 then 0 else if s[0] == c then 0 else 1 + FirstIndexOf(s[1..], c)
  }

  /** Model of `s.split(c)[0]`: everything before the first `c` (all of `s` if none). */
  function BeforeFirst(s: string, c: char): (r: string)
    ensures IsPrefix(r, s)
    ensures forall i :: 0 <= i < |r| ==> r[i] != c
    ensures r == s || (|r| < |s| && s[|r|] == c)
  {
    s[..FirstIndexOf(s, c)]
  }

  /** Model of `xs.join(sep)`. */
  function Join(xs: seq<string>, sep: string): (r: string)
    ensures |xs| == 0 ==> r == ""
    ensures |xs| == 1 ==> r == xs[0]
  {
    if |xs| == 0 then "" else if |xs| == 1 then xs[0] else xs[0] + sep + Join(xs[1..], sep)
  }
}
