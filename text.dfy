/** The two conversions between numbers and text that `api/main.py` relies on:
    `int(s, 16)` on a hex digest, and the decimal rendering of an `int` inside
    an f-string. */
module Text {

  predicate IsDecimalDigit(c: char)
  {
    '0' <= c <= '9'
  }

  predicate IsHexDigit(c: char)
  {
    '0' <= c <= '9' || 'a' <= c <= 'f' || 'A' <= c <= 'F'
  }

  predicate IsHex(s: string)
  {
    forall i :: 0 <= i < |s| ==> IsHexDigit(s[i])
  }

  /** What `hashlib.md5(...).hexdigest()` returns: 32 hex digits. */
  predicate IsDigest(s: string)
  {
    |s| == 32 && IsHex(s)
  }

  function HexDigitValue(c: char): (v: nat)
    requires IsHexDigit(c)
    ensures v < 16
    ensures IsDecimalDigit(c) ==> v < 10
  {
    if '0' <= c <= '9' then (c - '0') as nat
    else if 'a' <= c <= 'f' then (c - 'a') as nat + 10
    else (c - 'A') as nat + 10
  }

  /** `int(s, 16)` for a string of hex digits, most significant first. The empty
      string reads as 0 here (Python raises on it); a digest is never empty. */
  function HexValue(s: string): nat
    requires IsHex(s)
  {
    if s == [] then 0
    else HexValue(s[..|s| - 1]) * 16 + HexDigitValue(s[|s| - 1])
  }

  /** A number written in hex is even exactly when its last digit is. */
  lemma {:induction false} HexParity(s: string)
    requires IsHex(s) && s != []
    ensures HexValue(s) % 2 == HexDigitValue(s[|s| - 1]) % 2
  {
    var high := HexValue(s[..|s| - 1]);
    var d := HexDigitValue(s[|s| - 1]);
    assert HexValue(s) == 2 * (8 * high) + d;
  }

  /** Two hex digits read as a number: the first counts sixteen times. */
  lemma HexPair(s: string)
    requires IsHex(s) && |s| == 2
    ensures HexValue(s) == 16 * HexDigitValue(s[0]) + HexDigitValue(s[1])
    ensures HexValue(s) < 256
  {
    var first := s[..1];
    assert first[..0] == [] && first[0] == s[0];
    assert HexValue(first) == HexDigitValue(s[0]);
  }

  function DecimalDigit(d: nat): (c: char)
    requires d < 10
    ensures IsDecimalDigit(c)
  {
    ('0' as int + d) as char
  }

  /** `str(n)` for a non-negative `n`: its decimal digits, most significant
      first, with no leading zero. */
  function Decimal(n: nat): (r: string)
    ensures |r| >= 1
    ensures forall i :: 0 <= i < |r| ==> IsDecimalDigit(r[i])
    ensures |r| > 1 ==> r[0] != '0'
  {
    if n < 10 then [DecimalDigit(n)]
    else Decimal(n / 10) + [DecimalDigit(n % 10)]
  }

  function DigitValue(c: char): (v: nat)
    requires IsDecimalDigit(c)
    ensures v < 10
  {
    (c as int - '0' as int) as nat
  }

  /** The number a string of decimal digits denotes. */
  function DecimalValue(s: string): nat
    requires forall i :: 0 <= i < |s| ==> IsDecimalDigit(s[i])
  {
    if s == [] then 0
    else DecimalValue(s[..|s| - 1]) * 10 + DigitValue(s[|s| - 1])
  }

  /** Reading back the rendering of a number gives the number. */
  lemma {:induction false} DecimalRoundTrip(n: nat)
    ensures DecimalValue(Decimal(n)) == n
  {
    var r := Decimal(n);
    if n >= 10 {
      DecimalRoundTrip(n / 10);
      assert r[..|r| - 1] == Decimal(n / 10);
    }
  }

  /** Different numbers are rendered differently. */
  lemma DecimalInjective(m: nat, n: nat)
    requires Decimal(m) == Decimal(n)
    ensures m == n
  {
    DecimalRoundTrip(m);
    DecimalRoundTrip(n);
  }
}
