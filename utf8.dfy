/**
 * The `utf8` codec the driver uses for its default client encoding:
 * `str.encode('utf8')` for query text and parameters, and the strict
 * `bytes.decode` for result values (overlong forms, surrogates and code
 * points above U+10FFFF are refused, as Python refuses them).  Also the
 * `ascii` codec used for notification channels and server status values.
 */
module Utf8 {
  import opened Wrappers
  import opened Bytes

  /** A continuation byte `10xxxxxx`. */
  predicate IsCont(b: byte)
  {
    0x80 <= b < 0xC0
  }

  /** The one to four bytes of one code point: a lead byte, then six bits per continuation byte. */
  function EncodeChar(c: char): (r: seq<byte>)
    ensures 1 <= |r| <= 4
    ensures (|r| == 1) == (c as int < 0x80)
  {
    var n := c as int;
    if n < 0x80 then [n]
    else if n < 0x800 then [0xC0 + n / 64, 0x80 + n % 64]
    else if n < 0x1_0000 then [0xE0 + n / 64 / 64, 0x80 + n / 64 % 64, 0x80 + n % 64]
    else [0xF0 + n / 64 / 64 / 64, 0x80 + n / 64 / 64 % 64, 0x80 + n / 64 % 64, 0x80 + n % 64]
  }

  /** `s.encode('utf8')`. */
  function Encode(s: string): (r: seq<byte>)
    ensures |r| >= |s|
  {
    if s == [] then [] else EncodeChar(s[0]) + Encode(s[1..])
  }

  /** The six payload bits of the continuation byte `b[i]`. */
  function Bits(b: seq<byte>, i: nat): int
    requires i < |b|
  {
    b[i] as int - 0x80
  }

  /** The code point at the start of `b` and the number of bytes it takes, if well formed. */
  function DecodeChar(b: seq<byte>): (r: Option<(char, nat)>)
    requires |b| > 0
    ensures r.Some? ==> 1 <= r.value.1 <= |b| && r.value.1 <= 4
  {
    var b0 := b[0] as int;
    if b0 < 0x80 then Some((b0 as char, 1))
    else if 0xC2 <= b0 < 0xE0 then
      if |b| >= 2 && IsCont(b[1]) then
        Some((((b0 - 0xC0) * 64 + Bits(b, 1)) as char, 2))
      else None
    else if 0xE0 <= b0 < 0xF0 then
      if |b| >= 3 && IsCont(b[1]) && IsCont(b[2]) then
        var n := ((b0 - 0xE0) * 64 + Bits(b, 1)) * 64 + Bits(b, 2);
        if n < 0x800 || 0xD800 <= n < 0xE000 then None else Some((n as char, 3))
      else None
    else if 0xF0 <= b0 < 0xF5 then
      if |b| >= 4 && IsCont(b[1]) && IsCont(b[2]) && IsCont(b[3]) then
        var n := (((b0 - 0xF0) * 64 + Bits(b, 1)) * 64 + Bits(b, 2)) * 64 + Bits(b, 3);
        if n < 0x1_0000 || n >= 0x11_0000 then None else Some((n as char, 4))
      else None
    else None
  }

  /** `bytes.decode('utf8')`; `None` is the UnicodeDecodeError. */
  function Decode(b: seq<byte>): (r: Option<string>)
    ensures r.Some? ==> |r.value| <= |b|
    decreases |b|
  {
    if b == [] then Some([])
    else
      match DecodeChar(b)
      case None => None
      case Some(ck) =>
        match Decode(b[ck.1..])
        case None => None
        case Some(rest) => Some([ck.0] + rest)
  }

  lemma {:induction false} Split64(n: int)
    ensures n == n / 64 * 64 + n % 64 && 0 <= n % 64 < 64
  {
  }

  lemma {:induction false} Join64(a: int, d: int)
    requires 0 <= d < 64
    ensures (a * 64 + d) / 64 == a && (a * 64 + d) % 64 == d
  {
  }

  /** Each encoded code point is read back, using exactly its bytes. */
  lemma {:induction false} DecodeEncodeChar(c: char, rest: seq<byte>)
    ensures DecodeChar(EncodeChar(c) + rest) == Some((c, |EncodeChar(c)|))
  {
    var n := c as int;
    var e := EncodeChar(c);
    var b := e + rest;
    Split64(n);
    Split64(n / 64);
    Split64(n / 64 / 64);
    if n < 0x80 {
    } else if n < 0x800 {
      assert b[0] as int - 0xC0 == n / 64 && Bits(b, 1) == n % 64;
    } else if n < 0x1_0000 {
      assert b[0] as int - 0xE0 == n / 64 / 64 && Bits(b, 1) == n / 64 % 64 && Bits(b, 2) == n % 64;
    } else {
      assert b[0] as int - 0xF0 == n / 64 / 64 / 64 && Bits(b, 1) == n / 64 / 64 % 64;
      assert Bits(b, 2) == n / 64 % 64 && Bits(b, 3) == n % 64;
    }
  }

  /** Decoding undoes encoding: every string survives the trip through bytes. */
  lemma {:induction false} DecodeEncode(s: string)
    ensures Decode(Encode(s)) == Some(s)
  {
    if s != [] {
      var e := EncodeChar(s[0]);
      DecodeEncodeChar(s[0], Encode(s[1..]));
      assert (e + Encode(s[1..]))[|e|..] == Encode(s[1..]);
      DecodeEncode(s[1..]);
      assert [s[0]] + s[1..] == s;
    }
  }

  /** A well-formed code point was written in its one canonical form. */
  lemma {:induction false} EncodeDecodeChar(b: seq<byte>)
    requires |b| > 0 && DecodeChar(b).Some?
    ensures EncodeChar(DecodeChar(b).value.0) == b[..DecodeChar(b).value.1]
  {
    var n := DecodeChar(b).value.0 as int;
    var b0 := b[0] as int;
    if b0 < 0x80 {
    } else if 0xC2 <= b0 < 0xE0 {
      Join64(b0 - 0xC0, Bits(b, 1));
    } else if 0xE0 <= b0 < 0xF0 {
      Join64((b0 - 0xE0) * 64 + Bits(b, 1), Bits(b, 2));
      Join64(b0 - 0xE0, Bits(b, 1));
    } else {
      Join64((((b0 - 0xF0) * 64 + Bits(b, 1)) * 64 + Bits(b, 2)), Bits(b, 3));
      Join64((b0 - 0xF0) * 64 + Bits(b, 1), Bits(b, 2));
      Join64(b0 - 0xF0, Bits(b, 1));
    }
  }

  /** Encoding undoes decoding: the strict decoder accepts only what `encode` writes. */
  lemma {:induction false} EncodeDecode(b: seq<byte>)
    requires Decode(b).Some?
    ensures Encode(Decode(b).value) == b
    decreases |b|
  {
    if b != [] {
      var ck := DecodeChar(b).value;
      EncodeDecodeChar(b);
      EncodeDecode(b[ck.1..]);
      var s := Decode(b).value;
      assert s[0] == ck.0 && s[1..] == Decode(b[ck.1..]).value;
      assert b[..ck.1] + b[ck.1..] == b;
    }
  }

  /** `bytes.decode('ascii')`: bytes below 128, one character each. */
  function AsciiDecode(b: seq<byte>): (r: Option<string>)
    ensures r.Some? <==> forall k :: 0 <= k < |b| ==> b[k] < 0x80
    ensures r.Some? ==> |r.value| == |b| && forall k :: 0 <= k < |b| ==> r.value[k] as int == b[k]
  {
    if forall k :: 0 <= k < |b| ==> b[k] < 0x80 then Some(seq(|b|, k requires 0 <= k < |b| => b[k] as char))
    else None
  }

  /** On ASCII text, the `ascii` codec agrees with the `utf8` codec. */
  lemma {:induction false} AsciiIsUtf8(b: seq<byte>)
    requires AsciiDecode(b).Some?
    ensures Decode(b) == AsciiDecode(b)
    decreases |b|
  {
    if b != [] {
      AsciiIsUtf8(b[1..]);
      assert AsciiDecode(b).value == [b[0] as char] + AsciiDecode(b[1..]).value;
    }
  }
}
