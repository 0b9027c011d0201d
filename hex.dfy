/** `crypto.randomBytes(n).toString('hex')`: bytes written as two lower-case
    hexadecimal digits each, most significant nibble first. */
module Hex {

  newtype byte = x: int | 0 <= x < 256

  predicate IsHexDigit(c: char)
  {
    '0' <= c <= '9' || 'a' <= c <= 'f'
  }

  /** A string of exactly `n` lower-case hexadecimal digits. */
  predicate IsHexToken(s: string, n: nat)
  {
    |s| == n && forall i :: 0 <= i < |s| ==> IsHexDigit(s[i])
  }

  function DigitChar(d: nat): (c: char)
    requires d < 16
    ensures IsHexDigit(c)
  {
    if d < 10 then ('0' as int + d) as char else ('a' as int + d - 10) as char
  }

  function DigitValue(c: char): (d: nat)
    requires IsHexDigit(c)
    ensures d < 16 && DigitChar(d) == c
  {
    if c <= '9' then c as int - '0' as int else c as int - 'a' as int + 10
  }

  lemma DigitRoundTrip(d: nat)
    requires d < 16
    ensures DigitValue(DigitChar(d)) == d
  {
  }

  function HexEncode(bytes: seq<byte>): (s: string)
    ensures IsHexToken(s, 2 * |bytes|)
  {
    if bytes == [] then []
    else [DigitChar(bytes[0] as int / 16), DigitChar(bytes[0] as int % 16)] + HexEncode(bytes[1..])
  }

  function HexDecode(s: string): (bytes: seq<byte>)
    requires |s| % 2 == 0 && IsHexToken(s, |s|)
    ensures 2 * |bytes| == |s|
  {
    if s == [] then []
    else [(16 * DigitValue(s[0]) + DigitValue(s[1])) as byte] + HexDecode(s[2..])
  }

  /** Decoding undoes encoding, so distinct random bytes give distinct tokens. */
  lemma {:induction false} DecodeEncode(bytes: seq<byte>)
    ensures HexDecode(HexEncode(bytes)) == bytes
  {
    if bytes != [] {
      var b := bytes[0] as int;
      var s := HexEncode(bytes);
      DigitRoundTrip(b / 16);
      DigitRoundTrip(b % 16);
      assert s[2..] == HexEncode(bytes[1..]);
      DecodeEncode(bytes[1..]);
      assert [bytes[0]] + bytes[1..] == bytes;
    }
  }

  lemma HexEncodeInjective(a: seq<byte>, b: seq<byte>)
    requires HexEncode(a) == HexEncode(b)
    ensures a == b
  {
    DecodeEncode(a);
    DecodeEncode(b);
  }

  /** A hex token contains neither the path separator nor the fragment mark,
      so it survives being embedded in a `#/view/<id>` link. */
  lemma HexTokenHasNoDelimiters(s: string, n: nat)
    requires IsHexToken(s, n)
    ensures '/' !in s && '#' !in s
  {
  }
}
