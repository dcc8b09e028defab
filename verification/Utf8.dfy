/** UTF-8 encoding, and the decoder that replaces malformed input by U+FFFD. */
module Utf8 {

  type Byte = b: int | 0 <= b < 256

  const REPLACEMENT: char := '\U{FFFD}'

  function EncodeChar(c: char): (r: seq<Byte>)
    ensures 1 <= |r| <= 4
  {
    var n := c as int;
    if n < 0x80 then [n]
    else if n < 0x800 then [0xC0 + n / 64, 0x80 + n % 64]
    else if n < 0x10000 then [0xE0 + n / 4096, 0x80 + n / 64 % 64, 0x80 + n % 64]
    else [0xF0 + n / 262144, 0x80 + n / 4096 % 64, 0x80 + n / 64 % 64, 0x80 + n % 64]
  }

  function Encode(s: string): seq<Byte> {
    if s == "" then [] else EncodeChar(s[0]) + Encode(s[1..])
  }

  predicate Continuation(b: Byte) { 0x80 <= b <= 0xBF }

  /** The second byte allowed after a three-byte lead: no overlong forms, no surrogates. */
  predicate SecondOfThree(lead: Byte, b: Byte) {
    (if lead == 0xE0 then 0xA0 else 0x80) <= b <= (if lead == 0xED then 0x9F else 0xBF)
  }

  /** The second byte allowed after a four-byte lead: no overlong forms, nothing above U+10FFFF. */
  predicate SecondOfFour(lead: Byte, b: Byte) {
    (if lead == 0xF0 then 0x90 else 0x80) <= b <= (if lead == 0xF4 then 0x8F else 0xBF)
  }

  function Low(b: Byte): int { b as int - 0x80 }

  /** Reads one character and tells how many bytes it took; a malformed prefix yields U+FFFD. */
  function DecodeOne(b: seq<Byte>): (r: (char, nat))
    requires b != []
    ensures 1 <= r.1 <= |b|
  {
    var lead: int := b[0];
    if lead < 0x80 then (lead as char, 1)
    else if 0xC2 <= lead <= 0xDF then
      if |b| > 1 && Continuation(b[1]) then (((lead - 0xC0) * 64 + Low(b[1])) as char, 2)
      else (REPLACEMENT, 1)
    else if 0xE0 <= lead <= 0xEF then
      if |b| <= 1 || !SecondOfThree(lead, b[1]) then (REPLACEMENT, 1)
      else if |b| <= 2 || !Continuation(b[2]) then (REPLACEMENT, 2)
      else (((lead - 0xE0) * 4096 + Low(b[1]) * 64 + Low(b[2])) as char, 3)
    else if 0xF0 <= lead <= 0xF4 then
      if |b| <= 1 || !SecondOfFour(lead, b[1]) then (REPLACEMENT, 1)
      else if |b| <= 2 || !Continuation(b[2]) then (REPLACEMENT, 2)
      else if |b| <= 3 || !Continuation(b[3]) then (REPLACEMENT, 3)
      else (((lead - 0xF0) * 262144 + Low(b[1]) * 4096 + Low(b[2]) * 64 + Low(b[3])) as char, 4)
    else (REPLACEMENT, 1)
  }

  function Decode(b: seq<Byte>): string {
    if b == [] then "" else
      var (c, n) := DecodeOne(b);
      [c] + Decode(b[n..])
  }

  /** The base-64 digits of a code point. */
  lemma Digits(n: int)
    requires 0 <= n < 0x11_0000
    ensures n == n / 64 * 64 + n % 64
    ensures n / 64 == n / 4096 * 64 + n / 64 % 64
    ensures n / 4096 == n / 262144 * 64 + n / 4096 % 64
  {
    assert n / 64 / 64 == n / 4096;
    assert n / 4096 / 64 == n / 262144;
  }

  lemma DecodeOneEncoded(c: char, rest: seq<Byte>)
    ensures DecodeOne(EncodeChar(c) + rest) == (c, |EncodeChar(c)|)
  {
    var n := c as int;
    Digits(n);
    var d1, d2, d3 := n % 64, n / 64 % 64, n / 4096 % 64;
    var e := EncodeChar(c);
    var b := e + rest;
    assert b[0] == e[0];
    if 0x80 <= n < 0x800 {
      assert e == [0xC0 + n / 64, 0x80 + d1] && b[1] == e[1];
    } else if 0x800 <= n < 0x10000 {
      assert e == [0xE0 + n / 4096, 0x80 + d2, 0x80 + d1] && b[1] == e[1] && b[2] == e[2];
    } else if 0x10000 <= n {
      assert e == [0xF0 + n / 262144, 0x80 + d3, 0x80 + d2, 0x80 + d1];
      assert b[1] == e[1] && b[2] == e[2] && b[3] == e[3];
    }
  }

  /** Decoding undoes encoding, for every string. */
  lemma {:induction false} DecodeEncode(s: string)
    ensures Decode(Encode(s)) == s
  {
    if s != "" {
      var b := Encode(s);
      DecodeOneEncoded(s[0], Encode(s[1..]));
      assert b[|EncodeChar(s[0])|..] == Encode(s[1..]);
      DecodeEncode(s[1..]);
    }
  }
}
