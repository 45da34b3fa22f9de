/**
 * The one-time tokens the mail controller stores and mails:
 * `crypto.randomBytes(20).toString('hex')`. The random bytes are an input;
 * the lower-case hexadecimal encoding, two digits per byte with the high
 * nibble first, is modelled.
 */
module Tokens {

  type Byte = b: int | 0 <= b < 256

  const HexDigits := "0123456789abcdef"

  /** How many random bytes go into a token. */
  const TokenBytes := 20

  predicate IsHexChar(c: char)
  {
    '0' <= c <= '9' || 'a' <= c <= 'f'
  }

  predicate IsHexString(s: string)
  {
    forall i :: 0 <= i < |s| ==> IsHexChar(s[i])
  }

  function HexDigit(n: int): (c: char)
    requires 0 <= n < 16
    ensures IsHexChar(c)
  {
    HexDigits[n]
  }

  function DigitValue(c: char): (n: int)
    requires IsHexChar(c)
    ensures 0 <= n < 16 && HexDigit(n) == c
  {
    if c <= '9' then c as int - '0' as int else c as int - 'a' as int + 10
  }

  /** Each digit reads back as the value it was written for. */
  lemma DigitValueOfDigit(n: int)
    requires 0 <= n < 16
    ensures DigitValue(HexDigit(n)) == n
  {
  }

  /** `Buffer.toString('hex')`. */
  function Hex(bytes: seq<Byte>): (s: string)
    ensures |s| == 2 * |bytes|
    ensures IsHexString(s)
  {
    if bytes == [] then []
    else [HexDigit(bytes[0] / 16), HexDigit(bytes[0] % 16)] + Hex(bytes[1..])
  }

  /** Reads a hexadecimal string back, two digits per byte. */
  function Unhex(s: string): (bytes: seq<Byte>)
    requires |s| % 2 == 0 && IsHexString(s)
    ensures |bytes| == |s| / 2
  {
    if s == [] then []
    else [DigitValue(s[0]) * 16 + DigitValue(s[1])] + Unhex(s[2..])
  }

  /** The encoding loses nothing: the digits give back the bytes. */
  lemma {:induction false} UnhexHex(bytes: seq<Byte>)
    ensures Unhex(Hex(bytes)) == bytes
  {
    if bytes != [] {
      var s := Hex(bytes);
      assert s[2..] == Hex(bytes[1..]);
      UnhexHex(bytes[1..]);
      var b := bytes[0];
      DigitValueOfDigit(b / 16);
      DigitValueOfDigit(b % 16);
      assert DigitValue(s[0]) * 16 + DigitValue(s[1]) == b;
    }
  }

  /** Different random bytes give different tokens. */
  lemma HexInjective(a: seq<Byte>, b: seq<Byte>)
    ensures Hex(a) == Hex(b) ==> a == b
  {
    UnhexHex(a);
    UnhexHex(b);
  }

  /** A token: forty lower-case hexadecimal digits, never empty. */
  function Token(random: seq<Byte>): (t: string)
    requires |random| == TokenBytes
    ensures |t| == 40 && IsHexString(t)
    ensures t != "" && '/' !in t
  {
    var t := Hex(random);
    assert forall i :: 0 <= i < |t| ==> t[i] != '/' by {
      forall i | 0 <= i < |t| ensures t[i] != '/' { assert IsHexChar(t[i]); }
    }
    t
  }
}
