/**
 * Byte-level primitives of the wire format: bytes, and the network-order
 * (big-endian, two's complement) 16- and 32-bit integers that the driver
 * packs with `struct` formats `!h` and `!i`.
 */
module Bytes {
  import opened Wrappers

  type byte = b: int | 0 <= b < 256

  const NUL: byte := 0

  const TWO_15: int := 0x8000
  const TWO_16: int := 0x1_0000
  const TWO_31: int := 0x8000_0000
  const TWO_32: int := 0x1_0000_0000

  predicate IsInt16(v: int) { -TWO_15 <= v < TWO_15 }
  predicate IsInt32(v: int) { -TWO_31 <= v < TWO_31 }

  /** `struct.pack('!i', v)`: four bytes, most significant first, two's complement. */
  function PackInt32(v: int): (r: seq<byte>)
    requires IsInt32(v)
    ensures |r| == 4
    ensures v >= 0 ==> r[0] < 0x80
    ensures v < 0 ==> r[0] >= 0x80
  {
    var u := if v < 0 then v + TWO_32 else v;
    [u / 0x100_0000, (u / 0x1_0000) % 0x100, (u / 0x100) % 0x100, u % 0x100]
  }

  /** `struct.unpack_from('!i', b, at)[0]`. */
  function UnpackInt32(b: seq<byte>, at: nat): (v: int)
    requires at + 4 <= |b|
    ensures IsInt32(v)
  {
    var u := (b[at] as int) * 0x100_0000 + (b[at + 1] as int) * 0x1_0000 + (b[at + 2] as int) * 0x100 + b[at + 3] as int;
    if u >= TWO_31 then u - TWO_32 else u
  }

  /** `struct.pack('!h', v)`. */
  function PackInt16(v: int): (r: seq<byte>)
    requires IsInt16(v)
    ensures |r| == 2
    ensures v >= 0 ==> r[0] < 0x80
  {
    var u := if v < 0 then v + TWO_16 else v;
    [u / 0x100, u % 0x100]
  }

  /** `struct.unpack_from('!h', b, at)[0]`. */
  function UnpackInt16(b: seq<byte>, at: nat): (v: int)
    requires at + 2 <= |b|
    ensures IsInt16(v)
  {
    var u := (b[at] as int) * 0x100 + b[at + 1] as int;
    if u >= TWO_15 then u - TWO_16 else u
  }

  /** Unpacking what was packed gives the integer back. */
  lemma {:induction false} Int32RoundTrip(v: int, prefix: seq<byte>, suffix: seq<byte>)
    requires IsInt32(v)
    ensures UnpackInt32(prefix + PackInt32(v) + suffix, |prefix|) == v
  {
    var b := prefix + PackInt32(v) + suffix;
    var u := if v < 0 then v + TWO_32 else v;
    var p := PackInt32(v);
    assert b[|prefix|..|prefix| + 4] == p;
    ByteDigits(u);
  }

  /** The four bytes `PackInt32` takes from `u` are its base-256 digits. */
  lemma {:induction false} ByteDigits(u: int)
    requires 0 <= u < TWO_32
    ensures u == (u / 0x100_0000) * 0x100_0000 + ((u / 0x1_0000) % 0x100) * 0x1_0000 + ((u / 0x100) % 0x100) * 0x100 + u % 0x100
  {
    var y := u / 0x100;
    var z := y / 0x100;
    var w := z / 0x100;
    assert u == 0x100 * y + u % 0x100;
    assert y == 0x100 * z + y % 0x100;
    assert z == 0x100 * w + z % 0x100;
    DivUnique(u, 0x1_0000, z, (y % 0x100) * 0x100 + u % 0x100);
    DivUnique(u, 0x100_0000, w, (z % 0x100) * 0x1_0000 + (y % 0x100) * 0x100 + u % 0x100);
  }

  /** Every four bytes are the packing of exactly the integer they unpack to. */
  lemma {:induction false} Int32Canonical(b: seq<byte>)
    requires |b| == 4
    ensures PackInt32(UnpackInt32(b, 0)) == b
  {
    var b0, b1, b2, b3 := b[0] as int, b[1] as int, b[2] as int, b[3] as int;
    var u := b0 * 0x100_0000 + b1 * 0x1_0000 + b2 * 0x100 + b3;
    DivUnique(u, 0x100_0000, b0, b1 * 0x1_0000 + b2 * 0x100 + b3);
    DivUnique(u, 0x1_0000, b0 * 0x100 + b1, b2 * 0x100 + b3);
    DivUnique(b0 * 0x100 + b1, 0x100, b0, b1);
    DivUnique(u, 0x100, b0 * 0x1_0000 + b1 * 0x100 + b2, b3);
    DivUnique(b0 * 0x1_0000 + b1 * 0x100 + b2, 0x100, b0 * 0x100 + b1, b2);
    assert PackInt32(UnpackInt32(b, 0)) == [b0, b1, b2, b3];
  }

  /** Euclidean division by one of the byte-place values is unique. */
  lemma {:induction false} DivUnique(u: int, d: int, a: int, r: int)
    requires d == 0x100 || d == 0x1_0000 || d == 0x100_0000
    requires u == a * d + r && 0 <= r < d
    ensures u / d == a && u % d == r
  {
    if d == 0x100 {
      assert u == a * 0x100 + r;
    } else if d == 0x1_0000 {
      assert u == a * 0x1_0000 + r;
    } else {
      assert u == a * 0x100_0000 + r;
    }
  }

  lemma {:induction false} Int16RoundTrip(v: int, prefix: seq<byte>, suffix: seq<byte>)
    requires IsInt16(v)
    ensures UnpackInt16(prefix + PackInt16(v) + suffix, |prefix|) == v
  {
    var b := prefix + PackInt16(v) + suffix;
    assert b[|prefix|..|prefix| + 2] == PackInt16(v);
  }

  lemma {:induction false} Int16Canonical(b: seq<byte>)
    requires |b| == 2
    ensures PackInt16(UnpackInt16(b, 0)) == b
  {
  }

  /** Index of the first NUL byte at or after `from` (`bytes.find(b'\x00', from)`), or None. */
  function FindNul(b: seq<byte>, from: nat): (r: Option<nat>)
    decreases |b| - from
    ensures r.Some? ==> from <= r.value < |b| && b[r.value] == NUL
  {
    if from >= |b| then None
    else if b[from] == NUL then Some(from)
    else FindNul(b, from + 1)
  }

  /** Text made only of ASCII characters. */
  predicate AsciiText(s: string)
  {
    forall k :: 0 <= k < |s| ==> s[k] as int < 0x80
  }

  /** `s.encode('ascii')` for text that is ASCII. */
  function Ascii(s: string): (r: seq<byte>)
    requires AsciiText(s)
    ensures |r| == |s| && forall k :: 0 <= k < |s| ==> r[k] == s[k] as int
  {
    seq(|s|, k requires 0 <= k < |s| => s[k] as int)
  }
}
