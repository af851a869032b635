/** UTF-8 over Unicode scalar values, with its decoder. */
module Utf8 {
  import opened Wrappers

  newtype byte = x: int | 0 <= x < 256

  function EncodeChar(c: char): (bs: seq<byte>)
    ensures 1 <= |bs| <= 4
  {
    var n := c as int;
    if n < 0x80 then [n as byte]
    else if n < 0x800 then [(0xC0 + n / 64) as byte, Tail(n)]
    else if n < 0x1_0000 then [(0xE0 + n / 4096) as byte, Tail(n / 64), Tail(n)]
    else [(0xF0 + n / 0x4_0000) as byte, Tail(n / 4096), Tail(n / 64), Tail(n)]
  }

  /** Continuation byte carrying the low six bits of n. */
  function Tail(n: nat): byte { (0x80 + n % 64) as byte }

  function Encode(s: string): seq<byte> {
    if s == "" then [] else EncodeChar(s[0]) + Encode(s[1..])
  }

  /** How many bytes the lead byte announces. */
  function LeadLength(b: byte): (n: nat)
    ensures 1 <= n <= 4
  {
    if b < 0x80 then 1 else if b < 0xE0 then 2 else if b < 0xF0 then 3 else 4
  }

  function CodePoint(bs: seq<byte>): int
    requires |bs| > 0 && |bs| == LeadLength(bs[0])
  {
    var k := |bs|;
    if k == 1 then bs[0] as int
    else if k == 2 then (bs[0] as int - 0xC0) * 64 + (bs[1] as int - 0x80)
    else if k == 3 then (bs[0] as int - 0xE0) * 4096 + (bs[1] as int - 0x80) * 64 + (bs[2] as int - 0x80)
    else (bs[0] as int - 0xF0) * 0x4_0000 + (bs[1] as int - 0x80) * 4096
         + (bs[2] as int - 0x80) * 64 + (bs[3] as int - 0x80)
  }

  /** Continuation bytes after a lead byte, and no more of them than the value needs. */
  predicate WellFormed(bs: seq<byte>)
    requires |bs| > 0 && |bs| == LeadLength(bs[0])
  {
    && !(0x80 <= bs[0] < 0xC0)
    && (forall i :: 1 <= i < |bs| ==> 0x80 <= bs[i] < 0xC0)
    && CodePoint(bs) >= (if |bs| == 1 then 0 else if |bs| == 2 then 0x80 else if |bs| == 3 then 0x800 else 0x1_0000)
  }

  predicate IsScalar(n: int) { 0 <= n < 0xD800 || 0xE000 <= n < 0x11_0000 }

  /** Decoder; None on a truncated, malformed or overlong sequence or a value that is no scalar value. */
  function Decode(bs: seq<byte>): Option<string> {
    if bs == [] then Some("")
    else
      var k := LeadLength(bs[0]);
      if |bs| < k || !WellFormed(bs[..k]) || !IsScalar(CodePoint(bs[..k])) then None
      else
        match Decode(bs[k..])
        case None => None
        case Some(s) => Some([CodePoint(bs[..k]) as char] + s)
  }

  lemma EncodedCharDecodes(c: char)
    ensures var bs := EncodeChar(c);
            LeadLength(bs[0]) == |bs| && CodePoint(bs) == c as int && WellFormed(bs)
  {
    var n := c as int;
    SixBits(n);
    SixBits(n / 64);
    SixBits(n / 4096);
    assert n / 64 / 64 == n / 4096 && n / 4096 / 64 == n / 0x4_0000;
  }

  lemma SixBits(n: nat)
    ensures n == 64 * (n / 64) + n % 64 && Tail(n) as int - 0x80 == n % 64
  {
  }

  /** Decoding undoes encoding, so encoding is injective. */
  lemma {:induction false} DecodeEncode(s: string)
    ensures Decode(Encode(s)) == Some(s)
  {
    if s != "" {
      var head, rest := EncodeChar(s[0]), Encode(s[1..]);
      EncodedCharDecodes(s[0]);
      DecodeEncode(s[1..]);
      assert (head + rest)[..|head|] == head && (head + rest)[|head|..] == rest;
      assert [s[0]] + s[1..] == s;
    }
  }

  /** A well-formed sequence is the encoding of its value. */
  lemma WellFormedIsEncoded(bs: seq<byte>)
    requires |bs| > 0 && |bs| == LeadLength(bs[0]) && WellFormed(bs) && IsScalar(CodePoint(bs))
    ensures EncodeChar(CodePoint(bs) as char) == bs
  {
    if |bs| == 4 {
      FourBytes(bs);
    } else {
      var n := CodePoint(bs);
      SixBits(n);
      SixBits(n / 64);
      if |bs| == 2 {
        Digits(bs[0] as int - 0xC0, bs[1] as int - 0x80);
      } else if |bs| == 3 {
        Digits((bs[0] as int - 0xE0) * 64 + bs[1] as int - 0x80, bs[2] as int - 0x80);
        Digits(bs[0] as int - 0xE0, bs[1] as int - 0x80);
      }
    }
  }

  lemma FourBytes(bs: seq<byte>)
    requires |bs| == 4 == LeadLength(bs[0]) && WellFormed(bs) && IsScalar(CodePoint(bs))
    ensures EncodeChar(CodePoint(bs) as char) == bs
  {
    var n := CodePoint(bs);
    SixBits(n);
    SixBits(n / 64);
    SixBits(n / 4096);
    Digits((bs[0] as int - 0xF0) * 4096 + (bs[1] as int - 0x80) * 64 + bs[2] as int - 0x80, bs[3] as int - 0x80);
    Digits((bs[0] as int - 0xF0) * 64 + bs[1] as int - 0x80, bs[2] as int - 0x80);
    Digits(bs[0] as int - 0xF0, bs[1] as int - 0x80);
    assert n / 64 / 64 == n / 4096 && n / 4096 / 64 == n / 0x4_0000;
  }

  lemma Digits(high: int, low: int)
    requires 0 <= low < 64
    ensures (high * 64 + low) / 64 == high && (high * 64 + low) % 64 == low
  {
  }

  lemma EncodeOneMore(c: char, s: string)
    ensures Encode([c] + s) == EncodeChar(c) + Encode(s)
  {
    assert ([c] + s)[1..] == s;
  }

  /** The first character of what decodes, and the rest. */
  lemma DecodesOne(bs: seq<byte>)
    requires bs != [] && Decode(bs).Some?
    ensures var k := LeadLength(bs[0]);
            && k <= |bs| && WellFormed(bs[..k]) && IsScalar(CodePoint(bs[..k])) && Decode(bs[k..]).Some?
            && Decode(bs).value == [CodePoint(bs[..k]) as char] + Decode(bs[k..]).value
  {
    hide CodePoint, WellFormed, IsScalar;
  }

  /** And encoding undoes decoding: no other bytes decode to a text. */
  lemma {:induction false} EncodeDecode(bs: seq<byte>)
    requires Decode(bs).Some?
    ensures Encode(Decode(bs).value) == bs
  {
    if bs == [] {
      assert Encode("") == [];
    } else {
      DecodesOne(bs);
      hide Decode, Encode, EncodeChar, CodePoint, WellFormed, LeadLength, IsScalar;
      var k := LeadLength(bs[0]);
      EncodeDecode(bs[k..]);
      WellFormedIsEncoded(bs[..k]);
      EncodeOneMore(CodePoint(bs[..k]) as char, Decode(bs[k..]).value);
      assert bs == bs[..k] + bs[k..];
    }
  }
}
