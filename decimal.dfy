/** Decimal digit strings: PHP's `sprintf("%06d", n)`, integer-to-string
    conversion, and reading a string of digits back as a number. */
module Decimal {

  predicate IsDigit(c: char) {
    '0' <= c <= '9'
  }

  /** Every character is an ASCII decimal digit (the empty string qualifies). */
  predicate AllDigits(s: string) {
    forall i :: 0 <= i < |s| ==> IsDigit(s[i])
  }

  /** A non-empty string of decimal digits. */
  predicate IsDigits(s: string) {
    |s| > 0 && AllDigits(s)
  }

  function DigitChar(d: nat): (c: char)
    requires d < 10
    ensures IsDigit(c)
  {
    ('0' as int + d) as char
  }

  function DigitValue(c: char): (d: nat)
    requires IsDigit(c)
    ensures d < 10 && DigitChar(d) == c
  {
    c as int - '0' as int
  }

  /** The number a digit string denotes, most significant digit first;
      leading zeros are allowed and the empty string reads as 0. */
  function ParseDigits(s: string): nat
    requires AllDigits(s)
  {
    if s == [] then 0 else ParseDigits(s[..|s| - 1]) * 10 + DigitValue(s[|s| - 1])
  }

  /** The shortest decimal spelling of `n` (PHP's integer-to-string conversion). */
  function NatToString(n: nat): (r: string)
    ensures IsDigits(r)
    ensures ParseDigits(r) == n
    ensures |r| == 1 || r[0] != '0'
  {
    if n < 10 then [DigitChar(n)]
    else
      var prefix := NatToString(n / 10);
      var r := prefix + [DigitChar(n % 10)];
      assert r[..|r| - 1] == prefix;
      r
  }

  function Pow10(k: nat): (p: nat)
    ensures p >= 1
  {
    if k == 0 then 1 else 10 * Pow10(k - 1)
  }

  /** A number below 10^k has at most k digits. */
  lemma {:induction false} NatToStringLength(n: nat, k: nat)
    requires 1 <= k && n < Pow10(k)
    ensures |NatToString(n)| <= k
  {
    if n >= 10 {
      assert n / 10 < Pow10(k - 1);
      NatToStringLength(n / 10, k - 1);
    }
  }

  function Zeros(k: nat): (z: string)
    ensures |z| == k && AllDigits(z)
    ensures forall i :: 0 <= i < k ==> z[i] == '0'
  {
    if k == 0 then [] else Zeros(k - 1) + ['0']
  }

  /** Leading zeros do not change the value of a digit string. */
  lemma {:induction false} ParseIgnoresLeadingZeros(k: nat, s: string)
    requires AllDigits(s)
    ensures AllDigits(Zeros(k) + s)
    ensures ParseDigits(Zeros(k) + s) == ParseDigits(s)
  {
    var z := Zeros(k) + s;
    assert AllDigits(z) by {
      forall i | 0 <= i < |z| ensures IsDigit(z[i]) {
        if i < k { assert z[i] == Zeros(k)[i]; } else { assert z[i] == s[i - k]; }
      }
    }
    if s == [] {
      assert z == Zeros(k);
      ZerosParseToZero(k);
    } else {
      assert z[..|z| - 1] == Zeros(k) + s[..|s| - 1];
      ParseIgnoresLeadingZeros(k, s[..|s| - 1]);
    }
  }

  lemma {:induction false} ZerosParseToZero(k: nat)
    ensures ParseDigits(Zeros(k)) == 0
  {
    if k > 0 {
      assert Zeros(k)[..k - 1] == Zeros(k - 1);
      ZerosParseToZero(k - 1);
    }
  }

  /** PHP's `sprintf("%0<width>d", n)`: the decimal spelling of `n`,
      left-padded with zeros to `width` characters. */
  function ZeroPadded(n: nat, width: nat): (r: string)
    ensures IsDigits(r) && ParseDigits(r) == n
    ensures |r| == if |NatToString(n)| < width then width else |NatToString(n)|
    ensures |r| > |NatToString(n)| ==> r[0] == '0'
  {
    var s := NatToString(n);
    if |s| < width then
      ParseIgnoresLeadingZeros(width - |s|, s);
      var r := Zeros(width - |s|) + s;
      assert r[0] == Zeros(width - |s|)[0];
      r
    else s
  }

  /** The highest value `rand(0, 999999)` draws for a nonce. */
  const MaxNonceDraw: nat := 999999

  /** A nonce as the plugin formats it: `sprintf("%06d", draw)`. It is
      exactly six decimal digits and reads back as the drawn number. */
  function FormatNonce(draw: nat): (r: string)
    requires draw <= MaxNonceDraw
    ensures |r| == 6 && IsDigits(r)
    ensures ParseDigits(r) == draw
  {
    assert Pow10(6) == 1000000;
    NatToStringLength(draw, 6);
    ZeroPadded(draw, 6)
  }

  /** Distinct draws give distinct nonces. */
  lemma FormatNonceInjective(a: nat, b: nat)
    requires a <= MaxNonceDraw && b <= MaxNonceDraw
    ensures FormatNonce(a) == FormatNonce(b) <==> a == b
  {
  }
}
