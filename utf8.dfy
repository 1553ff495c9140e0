// `str.encode("utf-8")`, used when the converters write Markdown out, with
// a decoder that undoes it.
module Utf8 {
  import opened Wrappers

  newtype byte = x: int | 0 <= x < 256

  /** A continuation byte `10xxxxxx` carrying the six bits `v`. */
  function Cont(v: int): (b: byte)
    requires 0 <= v < 64
    ensures 0x80 <= b < 0xC0
  {
    (0x80 + v) as byte
  }

  /** The one to four bytes UTF-8 uses for the scalar value of `c`. */
  function EncodeChar(c: char): (bs: seq<byte>)
    ensures 1 <= |bs| <= 4
    ensures |bs| == 1 <==> c as int < 0x80
    ensures forall k :: 1 <= k < |bs| ==> 0x80 <= bs[k] < 0xC0
  {
    var n := c as int;
    if n < 0x80 then [n as byte]
    else if n < 0x800 then [(0xC0 + n / 64) as byte, Cont(n % 64)]
    else if n < 0x10000 then [(0xE0 + n / 64 / 64) as byte, Cont(n / 64 % 64), Cont(n % 64)]
    else [(0xF0 + n / 64 / 64 / 64) as byte, Cont(n / 64 / 64 % 64), Cont(n / 64 % 64), Cont(n % 64)]
  }

  /** `s.encode("utf-8")`: the characters' encodings one after another. */
  function Encode(s: string): (bs: seq<byte>)
    ensures |s| <= |bs| <= 4 * |s|
  {
    if s == [] then [] else EncodeChar(s[0]) + Encode(s[1..])
  }

  /** A Unicode scalar value: a code point that is not a surrogate. */
  predicate IsScalar(n: int) {
    (0 <= n < 0xD800) || (0xE000 <= n < 0x110000)
  }

  /** The bits of a continuation byte, or -1 when `b` is not one. */
  function ContBits(b: byte): int {
    if 0x80 <= b < 0xC0 then b as int - 0x80 else -1
  }

  /** Decodes the first character of `bs` and says how many bytes it took;
      `None` for a malformed, over-long or surrogate sequence. */
  function DecodeChar(bs: seq<byte>): (r: Option<(char, nat)>)
    ensures r.Some? ==> 1 <= r.value.1 <= |bs| && r.value.1 <= 4
  {
    if bs == [] then None
    else
      var b0 := bs[0] as int;
      if b0 < 0x80 then Some((b0 as char, 1))
      else if 0xC0 <= b0 < 0xE0 && |bs| >= 2 && ContBits(bs[1]) >= 0 then
        var n := (b0 - 0xC0) * 64 + ContBits(bs[1]);
        if 0x80 <= n then Some((n as char, 2)) else None
      else if 0xE0 <= b0 < 0xF0 && |bs| >= 3 && ContBits(bs[1]) >= 0 && ContBits(bs[2]) >= 0 then
        var n := ((b0 - 0xE0) * 64 + ContBits(bs[1])) * 64 + ContBits(bs[2]);
        if 0x800 <= n && IsScalar(n) then Some((n as char, 3)) else None
      else if 0xF0 <= b0 < 0xF8 && |bs| >= 4 && ContBits(bs[1]) >= 0 && ContBits(bs[2]) >= 0 && ContBits(bs[3]) >= 0 then
        var n := (((b0 - 0xF0) * 64 + ContBits(bs[1])) * 64 + ContBits(bs[2])) * 64 + ContBits(bs[3]);
        if 0x10000 <= n && IsScalar(n) then Some((n as char, 4)) else None
      else None
  }

  /** `bs.decode("utf-8")`, or `None` when `bs` is not well-formed UTF-8. */
  function Decode(bs: seq<byte>): (r: Option<string>)
    ensures r.Some? ==> |r.value| <= |bs|
    decreases |bs|
  {
    if bs == [] then Some([])
    else
      match DecodeChar(bs)
      case None => None
      case Some((c, len)) =>
        match Decode(bs[len..])
        case None => None
        case Some(rest) => Some([c] + rest)
  }

  lemma DivMod64(n: int)
    requires 0 <= n
    ensures n == n / 64 * 64 + n % 64
  {
  }

  /** The decoder reads back the character just encoded, whatever follows it. */
  lemma DecodeEncodeChar(c: char, rest: seq<byte>)
    ensures DecodeChar(EncodeChar(c) + rest) == Some((c, |EncodeChar(c)|))
  {
    var n := c as int;
    var bs := EncodeChar(c) + rest;
    if n < 0x80 {
    } else if n < 0x800 {
      DivMod64(n);
      assert ContBits(bs[1]) == n % 64;
    } else if n < 0x10000 {
      DivMod64(n);
      DivMod64(n / 64);
      assert ContBits(bs[1]) == n / 64 % 64;
      assert ContBits(bs[2]) == n % 64;
    } else {
      DivMod64(n);
      DivMod64(n / 64);
      DivMod64(n / 64 / 64);
      assert ContBits(bs[1]) == n / 64 / 64 % 64;
      assert ContBits(bs[2]) == n / 64 % 64;
      assert ContBits(bs[3]) == n % 64;
    }
  }

  /** Decoding undoes encoding: writing text out as UTF-8 loses nothing. */
  lemma {:induction false} DecodeEncode(s: string)
    ensures Decode(Encode(s)) == Some(s)
  {
    if s != [] {
      var head := EncodeChar(s[0]);
      var tail := Encode(s[1..]);
      DecodeEncodeChar(s[0], tail);
      assert (head + tail)[|head|..] == tail;
      DecodeEncode(s[1..]);
      assert s == [s[0]] + s[1..];
    }
  }

  /** Text made of ASCII characters is written byte for byte. */
  lemma {:induction false} EncodeAscii(s: string)
    requires forall i :: 0 <= i < |s| ==> s[i] as int < 0x80
    ensures |Encode(s)| == |s|
    ensures forall i :: 0 <= i < |s| ==> Encode(s)[i] as int == s[i] as int
  {
    if s != [] {
      EncodeAscii(s[1..]);
    }
  }
}
