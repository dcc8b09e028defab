/** application/x-www-form-urlencoded: sections 5.1 (parsing) and 5.2 (serializing) of the WHATWG URL Standard. */
module FormUrlencoded {
  import opened Utf8
  import opened SortedMap
  import Text

  type Pair = Entry<string>

  const SPACE: Byte := 0x20
  const PERCENT: Byte := 0x25
  const AMPERSAND: Byte := 0x26
  const PLUS: Byte := 0x2B
  const EQUALS: Byte := 0x3D

  /** Bytes written as themselves: ASCII letters and digits, and `*`, `-`, `.`, `_`. */
  predicate Plain(b: Byte) {
    || 0x30 <= b <= 0x39 || 0x41 <= b <= 0x5A || 0x61 <= b <= 0x7A
    || b == 0x2A || b == 0x2D || b == 0x2E || b == 0x5F
  }

  function HexDigit(n: int): Byte
    requires 0 <= n < 16
  {
    if n < 10 then 0x30 + n else 0x41 + (n - 10)
  }

  predicate IsHex(b: Byte) { 0x30 <= b <= 0x39 || 0x41 <= b <= 0x46 || 0x61 <= b <= 0x66 }

  function HexValue(b: Byte): (n: int)
    requires IsHex(b)
    ensures 0 <= n < 16
  {
    if b <= 0x39 then b - 0x30 else if b <= 0x46 then b - 0x41 + 10 else b - 0x61 + 10
  }

  function SerializeByte(b: Byte): seq<Byte> {
    if Plain(b) then [b] else if b == SPACE then [PLUS] else [PERCENT, HexDigit(b / 16), HexDigit(b % 16)]
  }

  function SerializeBytes(b: seq<Byte>): seq<Byte> {
    if b == [] then [] else SerializeByte(b[0]) + SerializeBytes(b[1..])
  }

  function SerializePair(p: Pair): seq<Byte> {
    SerializeBytes(Encode(p.key)) + [EQUALS] + SerializeBytes(Encode(p.value))
  }

  function SerializeAll(ps: seq<Pair>): seq<seq<Byte>> {
    seq(|ps|, i requires 0 <= i < |ps| => SerializePair(ps[i]))
  }

  function Serialize(ps: seq<Pair>): seq<Byte> {
    Text.Join(SerializeAll(ps), [AMPERSAND])
  }

  /** Turns `+` into a space and `%XX` into a byte; a stray percent sign stays. */
  function Unescape(b: seq<Byte>): seq<Byte> {
    if b == [] then []
    else if b[0] == PLUS then [SPACE] + Unescape(b[1..])
    else if b[0] == PERCENT && |b| >= 3 && IsHex(b[1]) && IsHex(b[2]) then
      [HexValue(b[1]) * 16 + HexValue(b[2])] + Unescape(b[3..])
    else [b[0]] + Unescape(b[1..])
  }

  /** Where the first `=` is, or the length if there is none. */
  function FirstEquals(b: seq<Byte>): (n: nat)
    ensures n <= |b|
  {
    if b == [] || b[0] == EQUALS then 0 else 1 + FirstEquals(b[1..])
  }

  function ParsePair(b: seq<Byte>): Pair {
    var n := FirstEquals(b);
    Entry(Decode(Unescape(b[..n])), Decode(Unescape(if n < |b| then b[n + 1..] else [])))
  }

  function ParsePieces(pieces: seq<seq<Byte>>): seq<Pair> {
    if pieces == [] then []
    else (if pieces[0] == [] then [] else [ParsePair(pieces[0])]) + ParsePieces(pieces[1..])
  }

  function Parse(b: seq<Byte>): seq<Pair> { ParsePieces(Text.Split(b, AMPERSAND)) }

  lemma UnescapeByte(b: Byte, rest: seq<Byte>)
    ensures Unescape(SerializeByte(b) + rest) == [b] + Unescape(rest)
  {
    var s := SerializeByte(b) + rest;
    if Plain(b) || b == SPACE {
      assert s[1..] == rest;
    } else {
      assert s[0] == PERCENT && s[1] == HexDigit(b / 16) && s[2] == HexDigit(b % 16);
      assert s[3..] == rest;
    }
  }

  lemma {:induction false} UnescapeSerialized(b: seq<Byte>)
    ensures Unescape(SerializeBytes(b)) == b
  {
    if b != [] {
      UnescapeByte(b[0], SerializeBytes(b[1..]));
      UnescapeSerialized(b[1..]);
    }
  }

  lemma {:induction false} SerializedIsSafe(b: seq<Byte>)
    ensures AMPERSAND !in SerializeBytes(b) && EQUALS !in SerializeBytes(b)
  {
    if b != [] {
      SerializedIsSafe(b[1..]);
    }
  }

  lemma {:induction false} FirstEqualsAfter(a: seq<Byte>, b: seq<Byte>)
    requires EQUALS !in a
    ensures FirstEquals(a + [EQUALS] + b) == |a|
  {
    var s := a + [EQUALS] + b;
    if a != [] {
      assert s[1..] == a[1..] + [EQUALS] + b;
      FirstEqualsAfter(a[1..], b);
    }
  }

  lemma ParsePairSerialized(p: Pair)
    ensures ParsePair(SerializePair(p)) == p
    ensures SerializePair(p) != [] && AMPERSAND !in SerializePair(p)
  {
    var k, v := SerializeBytes(Encode(p.key)), SerializeBytes(Encode(p.value));
    SerializedIsSafe(Encode(p.key));
    SerializedIsSafe(Encode(p.value));
    FirstEqualsAfter(k, v);
    var s := SerializePair(p);
    assert s[..|k|] == k && s[|k| + 1..] == v;
    UnescapeSerialized(Encode(p.key));
    UnescapeSerialized(Encode(p.value));
    DecodeEncode(p.key);
    DecodeEncode(p.value);
  }

  lemma {:induction false} ParsePiecesSerialized(ps: seq<Pair>)
    ensures ParsePieces(SerializeAll(ps)) == ps
  {
    if ps != [] {
      assert SerializeAll(ps)[1..] == SerializeAll(ps[1..]);
      ParsePairSerialized(ps[0]);
      ParsePiecesSerialized(ps[1..]);
    }
  }

  /** Parsing undoes serializing, for every list of names and values. */
  lemma ParseSerialize(ps: seq<Pair>)
    ensures Parse(Serialize(ps)) == ps
  {
    if ps == [] {
      assert Serialize(ps) == [] && ParsePieces([[]][1..]) == [];
    } else {
      var pieces := SerializeAll(ps);
      forall p | p in pieces ensures AMPERSAND !in p {
        var i :| 0 <= i < |pieces| && pieces[i] == p;
        ParsePairSerialized(ps[i]);
      }
      Text.SplitJoin(pieces, AMPERSAND);
      ParsePiecesSerialized(ps);
    }
  }

  ghost predicate IsReadable(c: char) {
    '0' <= c <= '9' || 'A' <= c <= 'Z' || 'a' <= c <= 'z' || c in {'*', '-', '.', '_', ' '}
  }

  /** Letters, digits and four signs are written as they are, and a space as a plus sign; nothing else is. */
  lemma {:induction false} ReadableStays(s: string)
    ensures var b := SerializeBytes(Encode(s));
      && ((forall c <- s :: IsReadable(c)) ==>
            |b| == |s| && forall i :: 0 <= i < |s| ==> b[i] == if s[i] == ' ' then '+' as int else s[i] as int)
      && ((exists c <- s :: !IsReadable(c)) ==> '%' as int in b)
  {
    if s != "" {
      var c, rest := s[0], s[1..];
      assert Encode(s) == EncodeChar(c) + Encode(rest);
      hide *;
      ReadableStays(rest);
      SerializedConcat(EncodeChar(c), Encode(rest));
      WrittenAs(c);
      assert s == [c] + rest && forall d <- s :: d == c || d in rest;
    }
  }

  lemma WrittenAs(c: char)
    ensures var b := SerializeBytes(EncodeChar(c));
      if IsReadable(c) then b == [if c == ' ' then '+' as int else c as int] else '%' as int in b
  {
    var first := EncodeChar(c)[0];
    assert SerializeBytes(EncodeChar(c)) == SerializeByte(first) + SerializeBytes(EncodeChar(c)[1..]);
    assert c as int >= 0x80 ==> first >= 0x80;
    assert c as int < 0x80 ==> EncodeChar(c)[1..] == [];
  }

  lemma {:induction false} SerializedConcat(a: seq<Byte>, b: seq<Byte>)
    ensures SerializeBytes(a + b) == SerializeBytes(a) + SerializeBytes(b)
  {
    if a == [] {
      assert a + b == b;
    } else {
      assert (a + b)[1..] == a[1..] + b;
      SerializedConcat(a[1..], b);
    }
  }
}
