/**
 * The one-expression text codecs of the driver: every parameter travels to
 * the server, and every result value comes back, as text.  `bytea` uses the
 * hex format `\x` followed by two hex digits per byte.
 */
module Converters {
  import opened Wrappers
  import opened Bytes
  import Numerals

  /** The integer range constants; each upper bound is exclusive. */
  const MIN_INT2: int := -0x8000
  const MAX_INT2: int := 0x8000
  const MIN_INT4: int := -0x8000_0000
  const MAX_INT4: int := 0x8000_0000
  const MIN_INT8: int := -0x8000_0000_0000_0000
  const MAX_INT8: int := 0x8000_0000_0000_0000

  /** The exception `bytes.fromhex` raises on a malformed hex string. */
  datatype ValueError = ValueError

  /** `text_out` and `text_in` pass strings through unchanged. */
  function TextOut(v: string): string
  {
    v
  }

  function TextIn(data: string): string
  {
    data
  }

  /** `bool_in`: the server sends booleans as `t` / `f`. */
  predicate BoolIn(data: string)
  {
    data == "t"
  }

  /** `bool_out` sends the spelled-out words. */
  function BoolOut(v: bool): (r: string)
    ensures |r| > 1
  {
    if v then "true" else "false"
  }

  /** `bool_in` recognises only the one-letter form, so it is not an inverse of `bool_out`. */
  lemma {:induction false} BoolCodecsDisagree(v: bool)
    ensures !BoolIn(BoolOut(v))
    ensures BoolIn("t") && !BoolIn("f")
  {
  }

  /** `int_out` is `str`. */
  function IntOut(v: int): (r: string)
    ensures Numerals.ParseInt(r) == Some(v)
  {
    Numerals.IntRoundTrip(v);
    Numerals.IntToString(v)
  }

  /** `int_in` is `int(data)`; `None` stands for the ValueError it raises. */
  function IntIn(data: string): (r: Option<int>)
    ensures r.Some? ==> |data| > 0
  {
    Numerals.ParseInt(data)
  }

  /** `int_in(int_out(v)) == v`, and `int_out` reproduces every canonical digit string. */
  lemma {:induction false} IntCodecRoundTrip(v: int, data: string)
    ensures IntIn(IntOut(v)) == Some(v)
    ensures Numerals.Canonical(data) ==> IntIn(data).Some? && IntOut(IntIn(data).value) == data
  {
    if Numerals.Canonical(data) {
      Numerals.CanonicalRoundTrip(data);
    }
  }

  /** `null_out`: the text the driver sends for a parameter of Python type NoneType outside Bind. */
  const NULL_OUT: string := "\\x00"

  // ---------------------------------------------------------------------------
  // Hex digits
  // ---------------------------------------------------------------------------

  predicate IsHexDigit(c: char)
  {
    '0' <= c <= '9' || 'a' <= c <= 'f' || 'A' <= c <= 'F'
  }

  /** The lower-case digit `bytes.hex` writes. */
  function HexDigit(d: nat): (c: char)
    requires d < 16
    ensures IsHexDigit(c) && !('A' <= c <= 'F')
  {
    if d < 10 then ('0' as int + d) as char else ('a' as int + d - 10) as char
  }

  function HexValue(c: char): (d: nat)
    requires IsHexDigit(c)
    ensures d < 16
    ensures !('A' <= c <= 'F') ==> HexDigit(d) == c
  {
    if '0' <= c <= '9' then c as int - '0' as int
    else if 'a' <= c <= 'f' then c as int - 'a' as int + 10
    else c as int - 'A' as int + 10
  }

  /** The ASCII whitespace `bytes.fromhex` skips between byte pairs. */
  predicate IsHexSpace(c: char)
  {
    c == ' ' || c == '\t' || c == '\n' || c == '\r' || c == 11 as char || c == 12 as char
  }

  /** `v.hex()`: two lower-case digits per byte, most significant nibble first. */
  function Hex(v: seq<byte>): (r: string)
    ensures |r| == 2 * |v|
  {
    if v == [] then "" else [HexDigit(v[0] / 16), HexDigit(v[0] % 16)] + Hex(v[1..])
  }

  /** `bytes.fromhex(s)`: pairs of hex digits, with whitespace allowed only between pairs. */
  function FromHex(s: string): (r: Result<seq<byte>, ValueError>)
    decreases |s|
  {
    if s == [] then Ok([])
    else if IsHexSpace(s[0]) then FromHex(s[1..])
    else if |s| >= 2 && IsHexDigit(s[0]) && IsHexDigit(s[1]) then
      var rest :- FromHex(s[2..]);
      Ok([HexValue(s[0]) * 16 + HexValue(s[1])] + rest)
    else Err(ValueError)
  }

  /** A string `bytes.hex` can have produced. */
  predicate LowerHex(s: string)
  {
    |s| % 2 == 0 && forall k :: 0 <= k < |s| ==> IsHexDigit(s[k]) && !('A' <= s[k] <= 'F')
  }

  // ---------------------------------------------------------------------------
  // bytea
  // ---------------------------------------------------------------------------

  /** `bytes_out`: the `\x` prefix, then the hex digits. */
  function BytesOut(v: seq<byte>): (r: string)
    ensures |r| == 2 + 2 * |v| && r[..2] == "\\x"
    ensures LowerHex(r[2..])
  {
    HexIsLower(v);
    "\\x" + Hex(v)
  }

  /** `bytea_in`: drop the first two characters (Python slicing: none if fewer) and decode the rest. */
  function ByteaIn(data: string): (r: Result<seq<byte>, ValueError>)
    ensures r.Ok? ==> |r.value| <= |data| / 2
  {
    FromHexLength(if |data| < 2 then "" else data[2..]);
    FromHex(if |data| < 2 then "" else data[2..])
  }

  lemma {:induction false} HexIsLower(v: seq<byte>)
    ensures LowerHex(Hex(v))
  {
    if v != [] {
      HexIsLower(v[1..]);
    }
  }

  lemma {:induction false} FromHexLength(s: string)
    ensures FromHex(s).Ok? ==> 2 * |FromHex(s).value| <= |s|
    decreases |s|
  {
    if s != [] {
      if IsHexSpace(s[0]) {
        FromHexLength(s[1..]);
      } else if |s| >= 2 && IsHexDigit(s[0]) && IsHexDigit(s[1]) {
        FromHexLength(s[2..]);
      }
    }
  }

  lemma {:induction false} HexRoundTrip(v: seq<byte>)
    ensures FromHex(Hex(v)) == Ok(v)
  {
    if v != [] {
      var h := Hex(v);
      assert h[2..] == Hex(v[1..]);
      HexRoundTrip(v[1..]);
      assert HexValue(h[0]) * 16 + HexValue(h[1]) == v[0];
      assert [v[0]] + v[1..] == v;
    }
  }

  lemma {:induction false} LowerHexRoundTrip(s: string)
    requires LowerHex(s)
    ensures FromHex(s).Ok? && Hex(FromHex(s).value) == s
    decreases |s|
  {
    if s != [] {
      assert !IsHexSpace(s[0]);
      assert LowerHex(s[2..]);
      LowerHexRoundTrip(s[2..]);
      var b := HexValue(s[0]) * 16 + HexValue(s[1]);
      assert b / 16 == HexValue(s[0]) && b % 16 == HexValue(s[1]);
      var r := FromHex(s).value;
      assert r == [b] + FromHex(s[2..]).value;
      assert r[1..] == FromHex(s[2..]).value;
      assert s == [s[0], s[1]] + s[2..];
    }
  }

  /** `bytea_in(bytes_out(b)) == b`. */
  lemma {:induction false} ByteaRoundTrip(v: seq<byte>)
    ensures ByteaIn(BytesOut(v)) == Ok(v)
  {
    assert BytesOut(v)[2..] == Hex(v);
    HexRoundTrip(v);
  }

  /** Conversely, `bytes_out` reproduces every text in the exact form it writes itself. */
  lemma {:induction false} ByteaCanonical(data: string)
    requires |data| >= 2 && data[..2] == "\\x" && LowerHex(data[2..])
    ensures ByteaIn(data).Ok? && BytesOut(ByteaIn(data).value) == data
  {
    LowerHexRoundTrip(data[2..]);
    assert data == data[..2] + data[2..];
  }
}
