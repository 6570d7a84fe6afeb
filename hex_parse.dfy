/**
  The two library calls that turn a company-id string into a 16-bit code:
  `strings.Replace(s, "0x", "", -1)` and `strconv.ParseUint(h, 16, 16)`, with the
  parse error discarded.
 */
module HexParse {

  type UInt16 = x: int | 0 <= x < 0x1_0000

  const MaxUInt16: UInt16 := 0xFFFF

  predicate IsHexDigit(c: char) {
    '0' <= c <= '9' || 'a' <= c <= 'f' || 'A' <= c <= 'F'
  }

  predicate AllHex(s: string) {
    forall i :: 0 <= i < |s| ==> IsHexDigit(s[i])
  }

  function DigitValue(c: char): (d: nat)
    requires IsHexDigit(c)
    ensures d < 16
  {
    if '0' <= c <= '9' then c as int - '0' as int
    else if 'a' <= c <= 'f' then c as int - 'a' as int + 10
    else c as int - 'A' as int + 10
  }

  /** Reference meaning of a hex numeral: the last digit is the least significant. */
  function HexValue(s: string): nat
    requires AllHex(s)
  {
    if s == [] then 0 else 16 * HexValue(s[..|s| - 1]) + DigitValue(s[|s| - 1])
  }

  function Pow16(n: nat): (p: nat)
    ensures p >= 1
  {
    if n == 0 then 1 else 16 * Pow16(n - 1)
  }

  /** `strings.Replace(s, "0x", "", -1)`: every non-overlapping "0x", scanning left to right, is deleted. */
  function RemoveHexPrefixes(s: string): string {
    if |s| < 2 then s
    else if s[0] == '0' && s[1] == 'x' then RemoveHexPrefixes(s[2..])
    else [s[0]] + RemoveHexPrefixes(s[1..])
  }

  /** The digit loop of `strconv.ParseUint` for base 16 and 16 bits, with `n` the value
      so far: a byte that is not a hex digit gives 0 (a syntax error), a value
      above 0xFFFF gives 0xFFFF at once (a range error). */
  function ParseDigits(s: string, n: UInt16): UInt16
    decreases |s|
  {
    if s == [] then n
    else if !IsHexDigit(s[0]) then 0
    else if 16 * n + DigitValue(s[0]) > MaxUInt16 then MaxUInt16
    else ParseDigits(s[1..], 16 * n + DigitValue(s[0]))
  }

  /** `strconv.ParseUint(s, 16, 16)` with its error ignored; the empty string is a syntax error. */
  function ParseHex16(s: string): UInt16 {
    if s == [] then 0 else ParseDigits(s, 0)
  }

  /** The company code that the advertisement parser computes. */
  function CompanyCode(s: string): UInt16 {
    ParseHex16(RemoveHexPrefixes(s))
  }

  /** A numeral of n digits is below 16^n. */
  lemma {:induction false} HexValueBound(s: string)
    requires AllHex(s)
    ensures HexValue(s) < Pow16(|s|)
  {
    if s != [] {
      HexValueBound(s[..|s| - 1]);
    }
  }

  /** A prefix of a numeral never has a larger value. */
  lemma {:induction false} HexValuePrefix(s: string, k: nat)
    requires AllHex(s) && k <= |s|
    ensures AllHex(s[..k]) && HexValue(s[..k]) <= HexValue(s)
  {
    if k < |s| {
      var p := s[..|s| - 1];
      assert p[..k] == s[..k];
      assert HexValue(s) == 16 * HexValue(p) + DigitValue(s[|s| - 1]);
      HexValuePrefix(p, k);
    } else {
      assert s[..k] == s;
    }
  }

  /** Appending one digit: HexValue(s[..k+1]) == 16 * HexValue(s[..k]) + digit. */
  lemma HexValueStep(s: string, k: nat)
    requires AllHex(s) && k < |s|
    ensures AllHex(s[..k]) && AllHex(s[..k + 1])
    ensures HexValue(s[..k + 1]) == 16 * HexValue(s[..k]) + DigitValue(s[k])
  {
    assert s[..k + 1][..k] == s[..k];
  }

  /** Once the first k digits have been read without overflow, parsing the rest
      gives the numeral's value, or 0xFFFF if that value does not fit. */
  lemma {:induction false} ParseDigitsFrom(s: string, k: nat)
    requires AllHex(s) && k <= |s|
    requires AllHex(s[..k]) && HexValue(s[..k]) <= MaxUInt16
    ensures ParseDigits(s[k..], HexValue(s[..k])) == if HexValue(s) <= MaxUInt16 then HexValue(s) else MaxUInt16
    decreases |s| - k
  {
    if k == |s| {
      assert s[..k] == s;
    } else {
      HexValueStep(s, k);
      assert s[k..][0] == s[k] && s[k..][1..] == s[k + 1..];
      if HexValue(s[..k + 1]) > MaxUInt16 {
        HexValuePrefix(s, k + 1);
      } else {
        ParseDigitsFrom(s, k + 1);
      }
    }
  }

  /** On a non-empty string of hex digits, ParseUint returns the value, saturated at 0xFFFF. */
  lemma ParseHex16OfDigits(s: string)
    requires AllHex(s) && s != []
    ensures ParseHex16(s) == if HexValue(s) <= MaxUInt16 then HexValue(s) else MaxUInt16
  {
    assert s[..0] == [] && s[0..] == s;
    ParseDigitsFrom(s, 0);
  }

  /** One to four hex digits are parsed to exactly their value. */
  lemma ParseHex16Exact(s: string)
    requires AllHex(s) && 1 <= |s| <= 4
    ensures ParseHex16(s) == HexValue(s)
  {
    HexValueBound(s);
    assert Pow16(|s|) <= Pow16(4) == 0x1_0000 by {
      assert Pow16(1) == 16 && Pow16(2) == 256 && Pow16(3) == 4096;
    }
    ParseHex16OfDigits(s);
  }

  /** The parse error of a string with a bad byte at k is ignored: the code is 0,
      provided the digits before it did not already overflow. */
  lemma {:induction false} ParseDigitsBadByte(s: string, i: nat, k: nat)
    requires i <= k < |s| && AllHex(s[..k]) && !IsHexDigit(s[k])
    requires HexValue(s[..k]) <= MaxUInt16
    requires AllHex(s[..i]) && HexValue(s[..i]) <= MaxUInt16
    ensures ParseDigits(s[i..], HexValue(s[..i])) == 0
    decreases k - i
  {
    assert s[i..][0] == s[i] && s[i..][1..] == s[i + 1..];
    if i < k {
      assert s[..k][..i + 1] == s[..i + 1] && s[..k][..i] == s[..i] && s[..k][i] == s[i];
      HexValueStep(s[..k], i);
      HexValuePrefix(s[..k], i + 1);
      ParseDigitsBadByte(s, i + 1, k);
    }
  }

  lemma ParseHex16BadByte(s: string, k: nat)
    requires k < |s| && AllHex(s[..k]) && !IsHexDigit(s[k])
    requires HexValue(s[..k]) <= MaxUInt16
    ensures ParseHex16(s) == 0
  {
    assert s[..0] == [] && s[0..] == s;
    ParseDigitsBadByte(s, 0, k);
  }

  /** A string without 'x' is left as it is by the "0x" removal. */
  lemma {:induction false} RemoveHexPrefixesNoX(s: string)
    requires forall i :: 0 <= i < |s| ==> s[i] != 'x'
    ensures RemoveHexPrefixes(s) == s
  {
    if |s| >= 2 {
      RemoveHexPrefixesNoX(s[1..]);
    }
  }

  /** The removal is not a closure: "00xx" loses its inner "0x" and becomes "0x". */
  lemma RemoveHexPrefixesOnce()
    ensures RemoveHexPrefixes("00xx") == "0x"
  {
    assert RemoveHexPrefixes("0xx") == RemoveHexPrefixes("x");
  }

  /** A company id of one to four hex digits, with or without the "0x" that tshark
      prints, yields its hex value. */
  lemma CompanyCodeOfHex(h: string)
    requires AllHex(h) && 1 <= |h| <= 4
    ensures CompanyCode(h) == HexValue(h)
    ensures CompanyCode("0x" + h) == HexValue(h)
  {
    assert forall i :: 0 <= i < |h| ==> h[i] != 'x';
    RemoveHexPrefixesNoX(h);
    assert ("0x" + h)[2..] == h;
    ParseHex16Exact(h);
  }
}
