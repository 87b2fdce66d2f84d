/** Base 64 encoding as section 4 of RFC 4648 defines it (the standard
    alphabet with `=` padding), which is what Node.js `Buffer.toString("base64")`
    produces. The decoder is the inverse used to state the round trip. */
module Base64 {
  import opened Wrappers

  /** A byte, as held in a Node.js Buffer or a Uint8Array. */
  type Byte = b: int | 0 <= b < 256

  /** Table 1 of RFC 4648: the character that encodes a 6-bit value. */
  function Char(v: nat): (c: char)
    requires v < 64
    ensures c != '='
  {
    if v < 26 then (65 + v) as char
    else if v < 52 then (97 + v - 26) as char
    else if v < 62 then (48 + v - 52) as char
    else if v == 62 then '+'
    else '/'
  }

  /** The 6-bit value of an alphabet character; None for anything else, the pad included. */
  function Value(c: char): (r: Option<nat>)
    ensures r.Some? ==> r.value < 64 && Char(r.value) == c
  {
    if 'A' <= c <= 'Z' then Some(c as int - 65)
    else if 'a' <= c <= 'z' then Some(c as int - 97 + 26)
    else if '0' <= c <= '9' then Some(c as int - 48 + 52)
    else if c == '+' then Some(62)
    else if c == '/' then Some(63)
    else None
  }

  lemma ValueOfChar(v: nat)
    requires v < 64
    ensures Value(Char(v)) == Some(v)
  {
  }

  /** Three bytes become four characters, six bits at a time, most significant first. */
  function EncodeBlock(b0: Byte, b1: Byte, b2: Byte): string {
    [Char(b0 / 4), Char((b0 % 4) * 16 + b1 / 16), Char((b1 % 16) * 4 + b2 / 64), Char(b2 % 64)]
  }

  function Encode(b: seq<Byte>): (r: string)
    ensures |r| == 4 * ((|b| + 2) / 3)
  {
    if |b| == 0 then []
    else if |b| == 1 then [Char(b[0] / 4), Char((b[0] % 4) * 16), '=', '=']
    else if |b| == 2 then [Char(b[0] / 4), Char((b[0] % 4) * 16 + b[1] / 16), Char((b[1] % 16) * 4), '=']
    else EncodeBlock(b[0], b[1], b[2]) + Encode(b[3..])
  }

  /** Strict decoding: whole quanta only, padding only in the last one. */
  function Decode(s: string): Option<seq<Byte>>
    decreases |s|
  {
    if s == [] then Some([])
    else if |s| < 4 then None
    else
      var v0, v1, v2, v3 := Value(s[0]), Value(s[1]), Value(s[2]), Value(s[3]);
      if v0.None? || v1.None? then None
      else if |s| == 4 && s[2] == '=' && s[3] == '=' then
        Some([v0.value * 4 + v1.value / 16])
      else if v2.None? then None
      else if |s| == 4 && s[3] == '=' then
        Some([v0.value * 4 + v1.value / 16, (v1.value % 16) * 16 + v2.value / 4])
      else if v3.None? then None
      else
        match Decode(s[4..])
        case None => None
        case Some(rest) =>
          Some([v0.value * 4 + v1.value / 16, (v1.value % 16) * 16 + v2.value / 4,
                (v2.value % 4) * 64 + v3.value] + rest)
  }

  /** Regrouping the four 6-bit values of a block gives back its three bytes. */
  lemma BlockBits(b0: Byte, b1: Byte, b2: Byte)
    ensures b0 / 4 * 4 + ((b0 % 4) * 16 + b1 / 16) / 16 == b0
    ensures ((b0 % 4) * 16 + b1 / 16) % 16 * 16 + ((b1 % 16) * 4 + b2 / 64) / 4 == b1
    ensures ((b1 % 16) * 4 + b2 / 64) % 4 * 64 + b2 % 64 == b2
  {
    assert ((b0 % 4) * 16 + b1 / 16) / 16 == b0 % 4;
    assert ((b0 % 4) * 16 + b1 / 16) % 16 == b1 / 16;
    assert ((b1 % 16) * 4 + b2 / 64) / 4 == b1 % 16;
    assert ((b1 % 16) * 4 + b2 / 64) % 4 == b2 / 64;
  }

  lemma DecodeOneByte(b0: Byte)
    ensures Decode(Encode([b0])) == Some([b0])
  {
    ValueOfChar(b0 / 4);
    ValueOfChar((b0 % 4) * 16);
  }

  lemma DecodeTwoBytes(b0: Byte, b1: Byte)
    ensures Decode(Encode([b0, b1])) == Some([b0, b1])
  {
    var s := Encode([b0, b1]);
    ValueOfChar(b0 / 4);
    ValueOfChar((b0 % 4) * 16 + b1 / 16);
    ValueOfChar((b1 % 16) * 4);
    BlockBits(b0, b1, 0);
    assert s[2] != '=' && s[3] == '=';
  }

  /** Four alphabet characters followed by a decodable rest. */
  lemma DecodeQuantum(s: string, v0: nat, v1: nat, v2: nat, v3: nat, rest: seq<Byte>)
    requires |s| >= 4
    requires Value(s[0]) == Some(v0) && Value(s[1]) == Some(v1)
    requires Value(s[2]) == Some(v2) && Value(s[3]) == Some(v3)
    requires Decode(s[4..]) == Some(rest)
    ensures Decode(s) == Some([v0 * 4 + v1 / 16, (v1 % 16) * 16 + v2 / 4, (v2 % 4) * 64 + v3] + rest)
  {
    assert s[2] != '=' && s[3] != '=';
  }

  /** One full quantum in front of a string that decodes to `rest`. */
  lemma DecodeBlock(b0: Byte, b1: Byte, b2: Byte, tail: string, rest: seq<Byte>)
    requires Decode(tail) == Some(rest)
    ensures Decode(EncodeBlock(b0, b1, b2) + tail) == Some([b0, b1, b2] + rest)
  {
    var v0, v1, v2, v3 := b0 / 4, (b0 % 4) * 16 + b1 / 16, (b1 % 16) * 4 + b2 / 64, b2 % 64;
    var s := EncodeBlock(b0, b1, b2) + tail;
    ValueOfChar(v0);
    ValueOfChar(v1);
    ValueOfChar(v2);
    ValueOfChar(v3);
    assert s[4..] == tail;
    DecodeQuantum(s, v0, v1, v2, v3, rest);
    BlockBits(b0, b1, b2);
  }

  lemma EncodeFirstBlock(b: seq<Byte>)
    requires |b| >= 3
    ensures Encode(b) == EncodeBlock(b[0], b[1], b[2]) + Encode(b[3..])
  {
  }

  /** The inductive step: a leading full quantum decodes back in front of the rest. */
  lemma DecodeEncodeStep(b: seq<Byte>, encoded: string, tail: string)
    requires |b| >= 3
    requires encoded == EncodeBlock(b[0], b[1], b[2]) + tail
    requires Decode(tail) == Some(b[3..])
    ensures Decode(encoded) == Some(b)
  {
    DecodeBlock(b[0], b[1], b[2], tail, b[3..]);
    assert [b[0], b[1], b[2]] + b[3..] == b;
  }

  lemma {:induction false} DecodeEncode(b: seq<Byte>)
    ensures Decode(Encode(b)) == Some(b)
    decreases |b|
  {
    if |b| == 0 {
      assert Encode(b) == [];
    } else if |b| == 1 {
      assert b == [b[0]];
      DecodeOneByte(b[0]);
    } else if |b| == 2 {
      assert b == [b[0], b[1]];
      DecodeTwoBytes(b[0], b[1]);
    } else {
      DecodeEncode(b[3..]);
      EncodeFirstBlock(b);
      DecodeEncodeStep(b, Encode(b), Encode(b[3..]));
    }
  }
}
