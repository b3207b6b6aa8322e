/**
 * UTF-8 (RFC 3629, section 3) as URLSearchParams uses it: strings are encoded
 * to bytes before percent-encoding and decoded from bytes after percent-decoding.
 */
module Utf8 {

  type Byte = b: int | 0 <= b < 256

  predicate IsContinuation(b: Byte) {
    0x80 <= b < 0xC0
  }

  predicate IsScalar(n: int) {
    (0 <= n < 0xD800) || (0xE000 <= n < 0x11_0000)
  }

  /** The bytes of one code point. */
  function EncodeChar(c: char): (r: seq<Byte>)
    ensures 1 <= |r| <= 4
    ensures (c as int < 0x80) <==> |r| == 1
    ensures |r| == 1 ==> r[0] == c as int
    ensures forall k :: 1 <= k < |r| ==> IsContinuation(r[k])
    ensures r[0] < 0x80 || 0xC2 <= r[0] <= 0xF4
  {
    var n := c as int;
    if n < 0x80 then [n]
    else if n < 0x800 then [0xC0 + n / 64, 0x80 + n % 64]
    else if n < 0x1_0000 then [0xE0 + n / 4096, 0x80 + (n / 64) % 64, 0x80 + n % 64]
    else [0xF0 + n / 262144, 0x80 + (n / 4096) % 64, 0x80 + (n / 64) % 64, 0x80 + n % 64]
  }

  function Encode(s: string): (r: seq<Byte>)
    ensures |r| >= |s|
  {
    if |s| == 0 then [] else EncodeChar(s[0]) + Encode(s[1..])
  }

  lemma {:induction false} EncodeConcat(a: string, b: string)
    ensures Encode(a + b) == Encode(a) + Encode(b)
  {
    if |a| == 0 {
      assert a + b == b;
    } else {
      assert (a + b)[1..] == a[1..] + b;
      EncodeConcat(a[1..], b);
    }
  }

  predicate IsAscii(s: string) {
    forall i :: 0 <= i < |s| ==> s[i] as int < 0x80
  }

  /** An ASCII string is encoded one byte per character. */
  lemma {:induction false} EncodeAscii(s: string)
    requires IsAscii(s)
    ensures |Encode(s)| == |s|
    ensures forall i :: 0 <= i < |s| ==> Encode(s)[i] == s[i] as int
  {
    if |s| > 0 {
      EncodeAscii(s[1..]);
    }
  }

  const Replacement: char := '\U{FFFD}'

  /** Decoding: well-formed sequences become their code point; any other byte
      becomes U+FFFD and decoding resumes at the next byte. */
  function Decode(bs: seq<Byte>): string
    decreases |bs|
  {
    if |bs| == 0 then ""
    else
      var b0 := bs[0];
      if b0 < 0x80 then
        [b0 as char] + Decode(bs[1..])
      else if 0xC2 <= b0 <= 0xDF && |bs| >= 2 && IsContinuation(bs[1]) then
        [Value2(b0, bs[1]) as char] + Decode(bs[2..])
      else if 0xE0 <= b0 <= 0xEF && |bs| >= 3 && IsContinuation(bs[1]) && IsContinuation(bs[2])
              && IsScalar(Value3(b0, bs[1], bs[2])) && Value3(b0, bs[1], bs[2]) >= 0x800 then
        [Value3(b0, bs[1], bs[2]) as char] + Decode(bs[3..])
      else if 0xF0 <= b0 <= 0xF4 && |bs| >= 4 && IsContinuation(bs[1]) && IsContinuation(bs[2])
              && IsContinuation(bs[3]) && 0x1_0000 <= Value4(b0, bs[1], bs[2], bs[3]) < 0x11_0000 then
        [Value4(b0, bs[1], bs[2], bs[3]) as char] + Decode(bs[4..])
      else
        [Replacement] + Decode(bs[1..])
  }

  function Value2(b0: Byte, b1: Byte): int {
    (b0 - 0xC0) * 64 + (b1 - 0x80)
  }

  function Value3(b0: Byte, b1: Byte, b2: Byte): int {
    (b0 - 0xE0) * 4096 + (b1 - 0x80) * 64 + (b2 - 0x80)
  }

  function Value4(b0: Byte, b1: Byte, b2: Byte, b3: Byte): int {
    (b0 - 0xF0) * 262144 + (b1 - 0x80) * 4096 + (b2 - 0x80) * 64 + (b3 - 0x80)
  }

  lemma DecodeTwo(c: char, rest: seq<Byte>)
    requires 0x80 <= c as int < 0x800
    ensures Decode(EncodeChar(c) + rest) == [c] + Decode(rest)
  {
    var n := c as int;
    var e := EncodeChar(c);
    var bs := e + rest;
    assert bs[0] == 0xC0 + n / 64 && bs[1] == 0x80 + n % 64;
    assert Value2(bs[0], bs[1]) == n;
    assert bs[2..] == rest;
  }

  lemma DecodeThree(c: char, rest: seq<Byte>)
    requires 0x800 <= c as int < 0x1_0000
    ensures Decode(EncodeChar(c) + rest) == [c] + Decode(rest)
  {
    var n := c as int;
    var e := EncodeChar(c);
    var bs := e + rest;
    assert bs[0] == 0xE0 + n / 4096 && bs[1] == 0x80 + (n / 64) % 64 && bs[2] == 0x80 + n % 64;
    assert n / 4096 * 64 + (n / 64) % 64 == n / 64;
    assert Value3(bs[0], bs[1], bs[2]) == n;
    assert bs[3..] == rest;
  }

  lemma DecodeFour(c: char, rest: seq<Byte>)
    requires 0x1_0000 <= c as int
    ensures Decode(EncodeChar(c) + rest) == [c] + Decode(rest)
  {
    var n := c as int;
    var e := EncodeChar(c);
    var bs := e + rest;
    assert bs[0] == 0xF0 + n / 262144 && bs[1] == 0x80 + (n / 4096) % 64;
    assert bs[2] == 0x80 + (n / 64) % 64 && bs[3] == 0x80 + n % 64;
    assert n / 262144 * 64 + (n / 4096) % 64 == n / 4096;
    assert n / 4096 * 64 + (n / 64) % 64 == n / 64;
    assert Value4(bs[0], bs[1], bs[2], bs[3]) == n;
    assert bs[4..] == rest;
  }

  lemma DecodeChar(c: char, rest: seq<Byte>)
    ensures Decode(EncodeChar(c) + rest) == [c] + Decode(rest)
  {
    var n := c as int;
    if n < 0x80 {
      assert (EncodeChar(c) + rest)[1..] == rest;
    } else if n < 0x800 {
      DecodeTwo(c, rest);
    } else if n < 0x1_0000 {
      DecodeThree(c, rest);
    } else {
      DecodeFour(c, rest);
    }
  }

  /** Decoding undoes encoding. */
  lemma {:induction false} DecodeEncode(s: string)
    ensures Decode(Encode(s)) == s
  {
    if |s| > 0 {
      DecodeChar(s[0], Encode(s[1..]));
      DecodeEncode(s[1..]);
      assert s == [s[0]] + s[1..];
    }
  }
}
