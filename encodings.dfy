/**
 * The connection's client encoding: the PostgreSQL encoding names the server
 * reports, the Python codec names they map to, and the three codecs the
 * model decodes and encodes with (`utf8`, `ascii`, `latin-1`).
 */
module Encodings {
  import opened Wrappers
  import opened Bytes
  import Utf8

  /** `str.lower()` on ASCII text. */
  function LowerChar(c: char): char
  {
    if 'A' <= c <= 'Z' then (c as int + 32) as char else c
  }

  /** `str.lower()`: no ASCII capital is left; each becomes the letter 32 code points above, and every other character is kept. */
  function Lower(s: string): (r: string)
    ensures |r| == |s|
    ensures forall k :: 0 <= k < |r| ==> !('A' <= r[k] <= 'Z')
    ensures forall k :: 0 <= k < |s| ==> if 'A' <= s[k] <= 'Z' then r[k] as int == s[k] as int + 32 else r[k] == s[k]
  {
    seq(|s|, k requires 0 <= k < |s| => LowerChar(s[k]))
  }

  /** Lower-casing twice is lower-casing once. */
  lemma {:induction false} LowerIdempotent(s: string)
    ensures Lower(Lower(s)) == Lower(s)
  {
    var once := Lower(s);
    assert forall k :: 0 <= k < |once| ==> Lower(once)[k] == once[k];
  }

  /**
   * `pg_to_py_encodings`: PostgreSQL encoding names whose Python codec has a
   * different name; `None` marks an encoding Python has no codec for.
   */
  const PgToPyEncodings: map<string, Option<string>> := map[
    "mule_internal" := None,
    "euc_tw" := None,
    "euc_cn" := Some("gb2312"),
    "iso_8859_5" := Some("is8859_5"),
    "iso_8859_6" := Some("is8859_6"),
    "iso_8859_7" := Some("is8859_7"),
    "iso_8859_8" := Some("is8859_8"),
    "koi8" := Some("koi8_r"),
    "latin1" := Some("iso8859-1"),
    "latin2" := Some("iso8859_2"),
    "latin3" := Some("iso8859_3"),
    "latin4" := Some("iso8859_4"),
    "latin5" := Some("iso8859_9"),
    "latin6" := Some("iso8859_10"),
    "latin7" := Some("iso8859_13"),
    "latin8" := Some("iso8859_14"),
    "latin9" := Some("iso8859_15"),
    "sql_ascii" := Some("ascii"),
    "win866" := Some("cp886"),
    "win874" := Some("cp874"),
    "win1250" := Some("cp1250"),
    "win1251" := Some("cp1251"),
    "win1252" := Some("cp1252"),
    "win1253" := Some("cp1253"),
    "win1254" := Some("cp1254"),
    "win1255" := Some("cp1255"),
    "win1256" := Some("cp1256"),
    "win1257" := Some("cp1257"),
    "win1258" := Some("cp1258"),
    "unicode" := Some("utf-8")
  ]

  /**
   * The `client_encoding` branch of `handle_PARAMETER_STATUS`: the reported
   * name lower-cased, then renamed through the table, or kept as it is.
   */
  function ClientEncoding(reported: string): (r: Option<string>)
    ensures Lower(reported) !in PgToPyEncodings ==> r == Some(Lower(reported))
    ensures Lower(reported) in PgToPyEncodings ==> r == PgToPyEncodings[Lower(reported)]
  {
    var name := Lower(reported);
    if name in PgToPyEncodings then PgToPyEncodings[name] else Some(name)
  }

  /** A Python codec the model can run; `OtherCodec` is any other codec name, or `None`. */
  datatype Codec = Utf8Codec | AsciiCodec | Latin1Codec | OtherCodec

  /** Python's codec-name normalisation: lower case, with `-` and space read as `_`. */
  function NormalizeCodecName(name: string): (r: string)
    ensures |r| == |name|
  {
    seq(|name|, k requires 0 <= k < |name| => var c := LowerChar(name[k]); if c == '-' || c == ' ' then '_' else c)
  }

  /** The codec `str.encode` / `bytes.decode` look up for the connection's encoding name. */
  function CodecOf(name: Option<string>): Codec
  {
    match name
    case None => OtherCodec
    case Some(n) =>
      var key := NormalizeCodecName(n);
      if key in {"utf_8", "utf8", "u8", "utf"} then Utf8Codec
      else if key in {"ascii", "us_ascii", "646"} then AsciiCodec
      else if key in {"latin_1", "latin1", "latin", "l1", "iso8859_1", "iso_8859_1", "8859", "cp819"} then Latin1Codec
      else OtherCodec
  }

  /** `bytes.decode(encoding)`; `None` is the decoding error. */
  function Decode(c: Codec, b: seq<byte>): Option<string>
  {
    match c
    case Utf8Codec => Utf8.Decode(b)
    case AsciiCodec => Utf8.AsciiDecode(b)
    case Latin1Codec => Some(seq(|b|, k requires 0 <= k < |b| => b[k] as char))
    case OtherCodec => None
  }

  /** `str.encode(encoding)`; `None` is the encoding error. */
  function Encode(c: Codec, s: string): Option<seq<byte>>
  {
    match c
    case Utf8Codec => Some(Utf8.Encode(s))
    case AsciiCodec =>
      if forall k :: 0 <= k < |s| ==> s[k] as int < 0x80 then Some(seq(|s|, k requires 0 <= k < |s| => s[k] as int)) else None
    case Latin1Codec =>
      if forall k :: 0 <= k < |s| ==> s[k] as int < 0x100 then Some(seq(|s|, k requires 0 <= k < |s| => s[k] as int)) else None
    case OtherCodec => None
  }

  /** Whatever a codec encodes, the same codec decodes back to the same text. */
  lemma {:induction false} DecodeEncode(c: Codec, s: string)
    requires Encode(c, s).Some?
    ensures Decode(c, Encode(c, s).value) == Some(s)
  {
    match c
    case Utf8Codec => Utf8.DecodeEncode(s);
    case AsciiCodec =>
      var b := Encode(c, s).value;
      assert Utf8.AsciiDecode(b).value == s;
    case Latin1Codec =>
      var b := Encode(c, s).value;
      assert Decode(c, b).value == s;
    case OtherCodec =>
  }

  /** The names the driver starts with and switches to all select the UTF-8 codec. */
  lemma {:induction false} Utf8Names()
    ensures CodecOf(Some("utf8")) == Utf8Codec && CodecOf(Some("utf-8")) == Utf8Codec
    ensures CodecOf(ClientEncoding("UNICODE")) == Utf8Codec
    ensures CodecOf(ClientEncoding("SQL_ASCII")) == AsciiCodec
    ensures CodecOf(ClientEncoding("LATIN1")) == Latin1Codec
  {
    assert Lower("UNICODE") == "unicode" && Lower("SQL_ASCII") == "sql_ascii" && Lower("LATIN1") == "latin1";
    Utf8CodecNames();
    OtherCodecNames();
  }

  lemma {:induction false} Utf8CodecNames()
    ensures CodecOf(Some("utf8")) == Utf8Codec && CodecOf(Some("utf-8")) == Utf8Codec
  {
    assert NormalizeCodecName("utf8") == "utf8";
    assert NormalizeCodecName("utf-8") == "utf_8";
  }

  lemma {:induction false} OtherCodecNames()
    ensures CodecOf(Some("ascii")) == AsciiCodec && CodecOf(Some("iso8859-1")) == Latin1Codec
  {
    assert NormalizeCodecName("ascii") == "ascii";
    assert NormalizeCodecName("iso8859-1") == "iso8859_1";
  }
}
