/**
 * The application/x-www-form-urlencoded serializer and parser of the WHATWG URL
 * Standard (section 5, "application/x-www-form-urlencoded"), which
 * `URLSearchParams.prototype.toString` and the `URLSearchParams(string)`
 * constructor use, and the round trip between them.
 */
module FormUrlEncoded {
  import opened Wrappers
  import opened JsString
  import Utf8

  type Byte = Utf8.Byte

  /** A URLSearchParams list: name-value pairs in order, duplicates allowed. */
  type Params = seq<(string, string)>

  /** Bytes the serializer leaves as they are: `*-._`, digits and ASCII letters. */
  predicate IsUnreserved(b: Byte) {
    b == 0x2A || b == 0x2D || b == 0x2E || (0x30 <= b <= 0x39) || (0x41 <= b <= 0x5A)
    || b == 0x5F || (0x61 <= b <= 0x7A)
  }

  function HexDigit(d: nat): char
    requires d < 16
  {
    "0123456789ABCDEF"[d]
  }

  function EncodeByte(b: Byte): string {
    if b == 0x20 then "+"
    else if IsUnreserved(b) then [b as char]
    else ['%', HexDigit(b / 16), HexDigit(b % 16)]
  }

  function EncodeBytes(bs: seq<Byte>): string {
    if |bs| == 0 then "" else EncodeByte(bs[0]) + EncodeBytes(bs[1..])
  }

  /** A name or a value as it appears in the serialized query. */
  function EncodeComponent(s: string): string {
    EncodeBytes(Utf8.Encode(s))
  }

  function SerializePair(p: (string, string)): string {
    EncodeComponent(p.0) + "=" + EncodeComponent(p.1)
  }

  function Segments(ps: Params): (r: seq<string>)
    ensures |r| == |ps|
  {
    if |ps| == 0 then [] else [SerializePair(ps[0])] + Segments(ps[1..])
  }

  /** `params.toString()` */
  function Serialize(ps: Params): string {
    Join(Segments(ps), "&")
  }

  function ReplacePlus(s: string): (r: string)
    ensures |r| == |s|
  {
    if |s| == 0 then "" else [if s[0] == '+' then ' ' else s[0]] + ReplacePlus(s[1..])
  }

  predicate IsHexByte(b: Byte) {
    (0x30 <= b <= 0x39) || (0x41 <= b <= 0x46) || (0x61 <= b <= 0x66)
  }

  function HexValue(b: Byte): (r: nat)
    requires IsHexByte(b)
    ensures r < 16
  {
    if b <= 0x39 then b - 0x30 else if b <= 0x46 then b - 0x41 + 10 else b - 0x61 + 10
  }

  /** Percent-decoding: `%` and two hex digits become one byte; every other byte,
      including a `%` not followed by two hex digits, stays. */
  function PercentDecode(bs: seq<Byte>): seq<Byte> {
    if |bs| == 0 then []
    else if bs[0] == 0x25 && |bs| >= 3 && IsHexByte(bs[1]) && IsHexByte(bs[2]) then
      [HexValue(bs[1]) * 16 + HexValue(bs[2])] + PercentDecode(bs[3..])
    else [bs[0]] + PercentDecode(bs[1..])
  }

  /** A name or value as the parser recovers it: `+` to space, then percent-decoding of
      the UTF-8 bytes, then UTF-8 decoding. Replacing `+` on characters rather than bytes
      is the same thing, since UTF-8 encodes no other character with byte 0x2B. */
  function DecodeComponent(s: string): string {
    Utf8.Decode(PercentDecode(Utf8.Encode(ReplacePlus(s))))
  }

  /** One `&`-separated sequence: the name is what precedes the first `=`, the value
      what follows it; without `=` the value is empty. */
  function ParseSegment(seg: string): (string, string) {
    match IndexOf(seg, "=")
    case None => (DecodeComponent(seg), "")
    case Some(i) => (DecodeComponent(seg[..i]), DecodeComponent(seg[i + 1..]))
  }

  /** Empty sequences (as in `a=1&&b=2`) are skipped. */
  function ParseSegments(segs: seq<string>): Params {
    if |segs| == 0 then []
    else if segs[0] == "" then ParseSegments(segs[1..])
    else [ParseSegment(segs[0])] + ParseSegments(segs[1..])
  }

  function Parse(q: string): Params {
    ParseSegments(Split(q, "&"))
  }

  /** `new URLSearchParams(init)` for a string: a leading `?` is dropped first. */
  function FromString(init: string): Params {
    Parse(if StartsWith(init, "?") then init[1..] else init)
  }

  // ---- the round trip ----

  /** Characters the serializer can produce, none of them a delimiter. */
  predicate SafeChar(c: char) {
    c as int < 0x80 && c != '&' && c != '=' && c != '?'
  }

  predicate Safe(s: string) {
    forall i :: 0 <= i < |s| ==> SafeChar(s[i])
  }

  lemma SafeConcat(a: string, b: string)
    requires Safe(a) && Safe(b)
    ensures Safe(a + b)
  {
    forall i | 0 <= i < |a + b| ensures SafeChar((a + b)[i]) {
      if i >= |a| { assert (a + b)[i] == b[i - |a|]; }
    }
  }

  lemma EncodeByteSafe(b: Byte)
    ensures Safe(EncodeByte(b))
  {
    if b != 0x20 && !IsUnreserved(b) {
      HexDigitValue(b / 16);
      HexDigitValue(b % 16);
    }
  }

  lemma {:induction false} EncodeBytesSafe(bs: seq<Byte>)
    ensures Safe(EncodeBytes(bs))
  {
    if |bs| > 0 {
      EncodeByteSafe(bs[0]);
      EncodeBytesSafe(bs[1..]);
      SafeConcat(EncodeByte(bs[0]), EncodeBytes(bs[1..]));
    }
  }

  lemma {:induction false} ReplacePlusConcat(a: string, b: string)
    ensures ReplacePlus(a + b) == ReplacePlus(a) + ReplacePlus(b)
  {
    if |a| == 0 {
      assert a + b == b;
    } else {
      assert (a + b)[1..] == a[1..] + b;
      ReplacePlusConcat(a[1..], b);
    }
  }

  lemma {:induction false} ReplacePlusAscii(s: string)
    requires Utf8.IsAscii(s)
    ensures Utf8.IsAscii(ReplacePlus(s))
  {
    if |s| > 0 {
      ReplacePlusAscii(s[1..]);
      var r := ReplacePlus(s);
      assert r == [if s[0] == '+' then ' ' else s[0]] + ReplacePlus(s[1..]);
      forall i | 0 <= i < |r| ensures r[i] as int < 0x80 {
        if i > 0 { assert r[i] == ReplacePlus(s[1..])[i - 1]; }
      }
    }
  }

  lemma {:induction false} ReplacePlusNoPlus(s: string)
    requires forall i :: 0 <= i < |s| ==> s[i] != '+'
    ensures ReplacePlus(s) == s
  {
    if |s| > 0 {
      ReplacePlusNoPlus(s[1..]);
    }
  }

  /** The bytes the parser sees for the serialization of one byte. */
  function ParsedBytes(s: string): seq<Byte> {
    Utf8.Encode(ReplacePlus(s))
  }

  lemma HexDigitValue(d: nat)
    requires d < 16
    ensures IsHexByte(HexDigit(d) as int) && HexValue(HexDigit(d) as int) == d
    ensures HexDigit(d) != '+' && HexDigit(d) as int < 0x80
  {
    var s := "0123456789ABCDEF";
    assert s[0] == '0' && s[1] == '1' && s[2] == '2' && s[3] == '3';
    assert s[4] == '4' && s[5] == '5' && s[6] == '6' && s[7] == '7';
    assert s[8] == '8' && s[9] == '9' && s[10] == 'A' && s[11] == 'B';
    assert s[12] == 'C' && s[13] == 'D' && s[14] == 'E' && s[15] == 'F';
  }

  lemma PercentDecodeSpace(rest: seq<Byte>)
    ensures PercentDecode(ParsedBytes(EncodeByte(0x20)) + rest) == [0x20] + PercentDecode(rest)
  {
    assert ReplacePlus("+") == " ";
    assert ParsedBytes("+") == [0x20];
    assert ([0x20] + rest)[1..] == rest;
  }

  lemma PercentDecodeUnreserved(b: Byte, rest: seq<Byte>)
    requires IsUnreserved(b)
    ensures PercentDecode(ParsedBytes(EncodeByte(b)) + rest) == [b] + PercentDecode(rest)
  {
    var e := EncodeByte(b);
    assert e == [b as char];
    assert ReplacePlus(e) == e;
    Utf8.EncodeAscii(e);
    assert ParsedBytes(e) == [b];
    assert ([b] + rest)[1..] == rest;
  }

  lemma PercentDecodeEscaped(b: Byte, rest: seq<Byte>)
    requires b != 0x20 && !IsUnreserved(b)
    ensures PercentDecode(ParsedBytes(EncodeByte(b)) + rest) == [b] + PercentDecode(rest)
  {
    var e := EncodeByte(b);
    var h, l := HexDigit(b / 16), HexDigit(b % 16);
    HexDigitValue(b / 16);
    HexDigitValue(b % 16);
    assert e == ['%', h, l];
    ReplacePlusNoPlus(e);
    Utf8.EncodeAscii(e);
    var hb, lb := h as int, l as int;
    assert ParsedBytes(e) == [0x25, hb, lb];
    var bs := [0x25, hb, lb] + rest;
    assert bs[3..] == rest;
  }

  lemma PercentDecodeByte(b: Byte, rest: seq<Byte>)
    ensures PercentDecode(ParsedBytes(EncodeByte(b)) + rest) == [b] + PercentDecode(rest)
  {
    if b == 0x20 {
      PercentDecodeSpace(rest);
    } else if IsUnreserved(b) {
      PercentDecodeUnreserved(b, rest);
    } else {
      PercentDecodeEscaped(b, rest);
    }
  }

  lemma {:induction false} PercentDecodeEncodeBytes(bs: seq<Byte>)
    ensures PercentDecode(ParsedBytes(EncodeBytes(bs))) == bs
  {
    if |bs| > 0 {
      var head, tail := EncodeByte(bs[0]), EncodeBytes(bs[1..]);
      ReplacePlusConcat(head, tail);
      Utf8.EncodeConcat(ReplacePlus(head), ReplacePlus(tail));
      assert ParsedBytes(head + tail) == ParsedBytes(head) + ParsedBytes(tail);
      PercentDecodeByte(bs[0], ParsedBytes(tail));
      PercentDecodeEncodeBytes(bs[1..]);
    }
  }

  /** Every name and value survives serialization and parsing. */
  lemma DecodeEncodeComponent(s: string)
    ensures DecodeComponent(EncodeComponent(s)) == s
  {
    PercentDecodeEncodeBytes(Utf8.Encode(s));
    Utf8.DecodeEncode(s);
  }

  lemma OccursAtChar(s: string, c: char, j: nat)
    ensures OccursAt(s, [c], j) <==> j < |s| && s[j] == c
  {
    if j < |s| {
      assert s[j..j + 1] == [s[j]];
    }
  }

  lemma FirstCharAt(s: string, c: char, k: nat)
    requires k < |s| && s[k] == c
    requires forall j :: 0 <= j < k ==> s[j] != c
    ensures IndexOf(s, [c]) == Some(k)
  {
    OccursAtChar(s, c, k);
    match IndexOf(s, [c])
    case None =>
    case Some(i) =>
      OccursAtChar(s, c, i);
  }

  lemma CharAbsent(s: string, c: char)
    requires forall j :: 0 <= j < |s| ==> s[j] != c
    ensures IndexOf(s, [c]) == None
  {
    match IndexOf(s, [c])
    case None =>
    case Some(i) =>
      OccursAtChar(s, c, i);
  }

  lemma ParseSerializePair(p: (string, string))
    ensures SerializePair(p) != ""
    ensures ParseSegment(SerializePair(p)) == p
  {
    var n, v := EncodeComponent(p.0), EncodeComponent(p.1);
    var seg := SerializePair(p);
    EncodeBytesSafe(Utf8.Encode(p.0));
    assert seg[|n|] == '=';
    FirstCharAt(seg, '=', |n|);
    assert seg[..|n|] == n;
    assert seg[|n| + 1..] == v;
    DecodeEncodeComponent(p.0);
    DecodeEncodeComponent(p.1);
  }

  lemma {:induction false} SegmentsSafe(ps: Params, k: nat)
    requires k < |ps|
    ensures forall j :: 0 <= j < |Segments(ps)[k]| ==> Segments(ps)[k][j] != '&'
  {
    if k == 0 {
      var p := ps[0];
      var n, v := EncodeComponent(p.0), EncodeComponent(p.1);
      EncodeBytesSafe(Utf8.Encode(p.0));
      EncodeBytesSafe(Utf8.Encode(p.1));
      var seg := Segments(ps)[0];
      assert seg == n + "=" + v;
      forall j | 0 <= j < |seg| ensures seg[j] != '&' {
        if j < |n| {
          assert seg[j] == n[j];
        } else if j > |n| {
          assert seg[j] == v[j - |n| - 1];
        }
      }
    } else {
      SegmentsSafe(ps[1..], k - 1);
    }
  }

  /** Joining pieces that do not contain the one-character separator and splitting
      again gives back the pieces. */
  lemma {:induction false} SplitJoinChar(xs: seq<string>, c: char)
    requires |xs| >= 1
    requires forall k, j :: 0 <= k < |xs| && 0 <= j < |xs[k]| ==> xs[k][j] != c
    ensures Split(Join(xs, [c]), [c]) == xs
  {
    if |xs| == 1 {
      CharAbsent(xs[0], c);
    } else {
      var rest := Join(xs[1..], [c]);
      var s := xs[0] + [c] + rest;
      assert Join(xs, [c]) == s;
      assert s[|xs[0]|] == c;
      forall j | 0 <= j < |xs[0]| ensures s[j] != c {
        assert s[j] == xs[0][j];
      }
      FirstCharAt(s, c, |xs[0]|);
      assert s[..|xs[0]|] == xs[0];
      assert s[|xs[0]| + 1..] == rest;
      SplitJoinChar(xs[1..], c);
      assert xs == [xs[0]] + xs[1..];
    }
  }

  lemma {:induction false} ParseSegmentsSerialized(ps: Params)
    ensures ParseSegments(Segments(ps)) == ps
  {
    if |ps| > 0 {
      ParseSerializePair(ps[0]);
      assert Segments(ps)[1..] == Segments(ps[1..]);
      ParseSegmentsSerialized(ps[1..]);
    }
  }

  /** Parsing a serialized list gives back exactly that list: names, values, order and duplicates. */
  lemma ParseSerialize(ps: Params)
    ensures Parse(Serialize(ps)) == ps
  {
    if |ps| == 0 {
      CharAbsent("", '&');
    } else {
      forall k, j | 0 <= k < |Segments(ps)| && 0 <= j < |Segments(ps)[k]|
        ensures Segments(ps)[k][j] != '&'
      {
        SegmentsSafe(ps, k);
      }
      SplitJoinChar(Segments(ps), '&');
      ParseSegmentsSerialized(ps);
    }
  }

  /** The serialization is empty exactly when there are no pairs. */
  lemma SerializeEmpty(ps: Params)
    ensures Serialize(ps) == "" <==> ps == []
  {
    if |ps| > 0 {
      ParseSerializePair(ps[0]);
      var segs := Segments(ps);
      if |segs| > 1 {
        assert |Serialize(ps)| >= |segs[0]|;
      }
    }
  }

  /** A serialization never starts with `?`, so the constructor reads it back unchanged. */
  lemma FromStringSerialize(ps: Params)
    ensures FromString(Serialize(ps)) == ps
  {
    ParseSerialize(ps);
    var q := Serialize(ps);
    if |ps| > 0 {
      SegmentsSafe(ps, 0);
      EncodeBytesSafe(Utf8.Encode(ps[0].0));
      var first := SerializePair(ps[0]);
      assert Segments(ps)[0] == first;
      assert q[0] == first[0] by {
        if |ps| > 1 {
          assert q == first + "&" + Join(Segments(ps)[1..], "&");
        }
      }
      if |EncodeComponent(ps[0].0)| > 0 {
        assert first[0] == EncodeComponent(ps[0].0)[0];
      } else {
        assert first[0] == '=';
      }
      assert !StartsWith(q, "?");
    }
  }
}
