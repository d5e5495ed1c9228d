/** UTF-8 as the parser meets it: `String` to bytes, and bytes to text with lossy replacement. */
module Utf8 {

  newtype byte = x: int | 0 <= x < 256

  const REPLACEMENT: char := '\U{FFFD}'

  function EncodeChar(c: char): (bs: seq<byte>)
    ensures 1 <= |bs| <= 4
    ensures c as int < 0x80 ==> bs == [c as int as byte]
    ensures c as int >= 0x80 ==> forall i :: 0 <= i < |bs| ==> bs[i] >= 0x80
  {
    var n := c as int;
    if n < 0x80 then [n as byte]
    else if n < 0x800 then [(0xC0 + n / 64) as byte, (0x80 + n % 64) as byte]
    else if n < 0x1_0000 then
      [(0xE0 + n / 4096) as byte, (0x80 + n / 64 % 64) as byte, (0x80 + n % 64) as byte]
    else
      [(0xF0 + n / 262144) as byte, (0x80 + n / 4096 % 64) as byte, (0x80 + n / 64 % 64) as byte,
       (0x80 + n % 64) as byte]
  }

  function Encode(s: string): (bs: seq<byte>)
  {
    if s == "" then [] else EncodeChar(s[0]) + Encode(s[1..])
  }

  predicate Continuation(b: byte)
  {
    0x80 <= b < 0xC0
  }

  /** Which second bytes may follow a three- or four-byte lead. */
  predicate SecondByte(lead: byte, b: byte)
  {
    if lead == 0xE0 then 0xA0 <= b < 0xC0
    else if lead == 0xED then 0x80 <= b < 0xA0
    else if lead == 0xF0 then 0x90 <= b < 0xC0
    else if lead == 0xF4 then 0x80 <= b < 0x90
    else Continuation(b)
  }

  /** The first character of `bs` and its length; an ill-formed prefix becomes one replacement. */
  function DecodeFirst(bs: seq<byte>): (r: (char, nat))
    requires bs != []
    ensures 1 <= r.1 <= |bs|
  {
    var b := bs[0] as int;
    if b < 0x80 then (b as char, 1)
    else if 0xC2 <= b < 0xE0 then
      if |bs| > 1 && Continuation(bs[1]) then (((b - 0xC0) * 64 + (bs[1] as int - 0x80)) as char, 2)
      else (REPLACEMENT, 1)
    else if 0xE0 <= b < 0xF0 then
      if |bs| > 1 && SecondByte(bs[0], bs[1]) then
        if |bs| > 2 && Continuation(bs[2]) then
          (((b - 0xE0) * 4096 + (bs[1] as int - 0x80) * 64 + (bs[2] as int - 0x80)) as char, 3)
        else (REPLACEMENT, 2)
      else (REPLACEMENT, 1)
    else if 0xF0 <= b < 0xF5 then
      if |bs| > 1 && SecondByte(bs[0], bs[1]) then
        if |bs| > 2 && Continuation(bs[2]) then
          if |bs| > 3 && Continuation(bs[3]) then
            (((b - 0xF0) * 262144 + (bs[1] as int - 0x80) * 4096 + (bs[2] as int - 0x80) * 64
              + (bs[3] as int - 0x80)) as char, 4)
          else (REPLACEMENT, 3)
        else (REPLACEMENT, 2)
      else (REPLACEMENT, 1)
    else (REPLACEMENT, 1)
  }

  function DecodeLossy(bs: seq<byte>): (s: string)
  {
    if bs == [] then ""
    else
      var (c, n) := DecodeFirst(bs);
      [c] + DecodeLossy(bs[n..])
  }

  /** Every byte that cannot start a character becomes one replacement character of its own. */
  lemma StrayByteIsReplaced(bs: seq<byte>)
    requires bs != [] && (0x80 <= bs[0] as int < 0xC2 || 0xF5 <= bs[0] as int)
    ensures DecodeLossy(bs) == ['\U{FFFD}'] + DecodeLossy(bs[1..])
  {
  }

  /** An interrupted character becomes one replacement character, and what interrupts it is read anew. */
  lemma InterruptedIsReplaced(lead: byte, rest: seq<byte>)
    requires lead as int >= 0xC2 && lead as int < 0xF5
    requires rest == [] || rest[0] as int < 0x80 || rest[0] as int >= 0xC0
    ensures DecodeLossy([lead] + rest) == ['\U{FFFD}'] + DecodeLossy(rest)
  {
    assert ([lead] + rest)[1..] == rest;
  }

  lemma Base64Digits(n: nat)
    ensures n == n / 64 * 64 + n % 64
    ensures n / 64 == n / 4096 * 64 + n / 64 % 64
    ensures n / 4096 == n / 262144 * 64 + n / 4096 % 64
  {
  }

  lemma DecodeShort(c: char, rest: seq<byte>)
    requires c as int < 0x800
    ensures DecodeFirst(EncodeChar(c) + rest) == (c, |EncodeChar(c)|)
  {
    var bs := EncodeChar(c) + rest;
    assert bs[0] == EncodeChar(c)[0];
    assert |EncodeChar(c)| > 1 ==> bs[1] == EncodeChar(c)[1];
  }

  lemma DecodeThree(c: char, rest: seq<byte>)
    requires 0x800 <= c as int < 0x1_0000
    ensures DecodeFirst(EncodeChar(c) + rest) == (c, 3)
  {
    var n := c as int;
    var enc := EncodeChar(c);
    var bs := enc + rest;
    assert bs[0] == enc[0] && bs[1] == enc[1] && bs[2] == enc[2];
    Base64Digits(n);
    assert SecondByte(enc[0], enc[1]);
  }

  lemma DecodeFour(c: char, rest: seq<byte>)
    requires 0x1_0000 <= c as int
    ensures DecodeFirst(EncodeChar(c) + rest) == (c, 4)
  {
    var n := c as int;
    var enc := EncodeChar(c);
    var bs := enc + rest;
    assert bs[0] == enc[0] && bs[1] == enc[1] && bs[2] == enc[2] && bs[3] == enc[3];
    Base64Digits(n);
    assert SecondByte(enc[0], enc[1]);
  }

  lemma DecodeFirstOfEncoded(c: char, rest: seq<byte>)
    ensures DecodeFirst(EncodeChar(c) + rest) == (c, |EncodeChar(c)|)
  {
    if c as int < 0x800 {
      DecodeShort(c, rest);
    } else if c as int < 0x1_0000 {
      DecodeThree(c, rest);
    } else {
      DecodeFour(c, rest);
    }
  }

  /** Lossy decoding loses nothing on text. */
  lemma {:induction false} DecodeOfEncode(s: string)
    ensures DecodeLossy(Encode(s)) == s
  {
    if s != "" {
      DecodeFirstOfEncoded(s[0], Encode(s[1..]));
      assert Encode(s)[|EncodeChar(s[0])|..] == Encode(s[1..]);
      DecodeOfEncode(s[1..]);
    }
  }

  lemma {:induction false} EncodeConcat(a: string, b: string)
    ensures Encode(a + b) == Encode(a) + Encode(b)
  {
    if a == "" {
      assert a + b == b;
    } else {
      assert (a + b)[1..] == a[1..] + b;
      EncodeConcat(a[1..], b);
    }
  }

  /** An ASCII byte appears in the encoding only where the character itself appears. */
  lemma {:induction false} AsciiByteMeansChar(s: string, c: char)
    requires c as int < 0x80 && c !in s
    ensures (c as int as byte) !in Encode(s)
  {
    if s != "" {
      AsciiByteMeansChar(s[1..], c);
    }
  }
}
