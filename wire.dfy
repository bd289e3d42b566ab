/**
 * Byte layouts of the PostgreSQL frontend/backend protocol version 3.0 as the
 * driver writes and reads them: message framing and the length-prefixed
 * value fields of Bind and DataRow.
 */
module Wire {
  import opened Wrappers
  import opened Bytes

  /** Why decoding a backend message failed. */
  datatype WireError =
    | Truncated            // struct.error: a fixed-size read runs past the end of the bytes
    | BadLength(len: int)  // a length field below the smallest meaningful value
    | UnicodeError         // UnicodeDecodeError from the client encoding
    | AdapterFailed        // the column's input adapter raised on the field text

  // Backend message type codes.
  const AUTHENTICATION_REQUEST: byte := 0x52  // 'R'
  const PARAMETER_STATUS: byte := 0x53        // 'S'
  const BACKEND_KEY_DATA: byte := 0x4B        // 'K'
  const READY_FOR_QUERY: byte := 0x5A         // 'Z'
  const ROW_DESCRIPTION: byte := 0x54         // 'T'
  const ERROR_RESPONSE: byte := 0x45          // 'E'
  const DATA_ROW: byte := 0x44                // 'D'
  const COMMAND_COMPLETE: byte := 0x43        // 'C'
  const NOTIFICATION_RESPONSE: byte := 0x41   // 'A'
  const NOTICE_RESPONSE: byte := 0x4E         // 'N'
  const EMPTY_QUERY_RESPONSE: byte := 0x49    // 'I'
  const PARSE_COMPLETE: byte := 0x31          // '1'
  const BIND_COMPLETE: byte := 0x32           // '2'
  const CLOSE_COMPLETE: byte := 0x33          // '3'
  const PORTAL_SUSPENDED: byte := 0x73        // 's'
  const NO_DATA: byte := 0x6E                 // 'n'
  const PARAMETER_DESCRIPTION: byte := 0x74   // 't'
  const COPY_DONE: byte := 0x63               // 'c'
  const COPY_DATA: byte := 0x64               // 'd'
  const COPY_IN_RESPONSE: byte := 0x47        // 'G'
  const COPY_OUT_RESPONSE: byte := 0x48       // 'H'

  // Frontend message type codes.
  const BIND: byte := 0x42      // 'B'
  const PARSE: byte := 0x50     // 'P'
  const EXECUTE: byte := 0x45   // 'E'
  const FLUSH: byte := 0x48     // 'H'
  const SYNC: byte := 0x53      // 'S'
  const PASSWORD: byte := 0x70  // 'p'
  const DESCRIBE: byte := 0x44  // 'D'
  const TERMINATE: byte := 0x58 // 'X'
  const CLOSE: byte := 0x43     // 'C'

  // ---------------------------------------------------------------------------
  // Framing
  // ---------------------------------------------------------------------------

  /** `create_message`: the type code, the payload length counting the length field itself, the payload. */
  function CreateMessage(code: byte, data: seq<byte>): (r: seq<byte>)
    requires IsInt32(|data| + 4)
    ensures |r| == |data| + 5 && r[0] == code && r[5..] == data
  {
    [code] + PackInt32(|data| + 4) + data
  }

  /** One message taken off the front of the incoming bytes, and what follows it. */
  datatype Frame = Frame(code: byte, data: seq<byte>, rest: seq<byte>)

  /**
   * The read loop of `handle_messages`: a five-byte header (`ci`), then the
   * length minus four bytes of payload.
   */
  function ReadMessage(buf: seq<byte>): (r: Result<Frame, WireError>)
    ensures r.Ok? ==> |r.value.rest| < |buf|
  {
    if |buf| < 5 then Err(Truncated)
    else
      var len := UnpackInt32(buf, 1);
      if len < 4 then Err(BadLength(len))
      else if |buf| < len + 1 then Err(Truncated)
      else Ok(Frame(buf[0], buf[5..len + 1], buf[len + 1..]))
  }

  /** The reader recovers exactly the code and payload the writer framed, and leaves what follows. */
  lemma {:induction false} FramingRoundTrip(code: byte, data: seq<byte>, rest: seq<byte>)
    requires IsInt32(|data| + 4)
    ensures ReadMessage(CreateMessage(code, data) + rest) == Ok(Frame(code, data, rest))
  {
    var buf := CreateMessage(code, data) + rest;
    Int32RoundTrip(|data| + 4, [code], data + rest);
    assert buf == [code] + PackInt32(|data| + 4) + (data + rest);
    assert buf[5..|data| + 5] == data;
    assert buf[|data| + 5..] == rest;
  }

  /** Whatever the reader accepts is one framed message followed by the rest. */
  lemma {:induction false} FramingCanonical(buf: seq<byte>)
    requires ReadMessage(buf).Ok?
    ensures var f := ReadMessage(buf).value;
      IsInt32(|f.data| + 4) && buf == CreateMessage(f.code, f.data) + f.rest
  {
    var f := ReadMessage(buf).value;
    Int32Canonical(buf[1..5]);
    assert UnpackInt32(buf[1..5], 0) == UnpackInt32(buf, 1);
    assert buf == [buf[0]] + buf[1..5] + buf[5..UnpackInt32(buf, 1) + 1] + buf[UnpackInt32(buf, 1) + 1..];
  }

  // ---------------------------------------------------------------------------
  // Value fields (Bind parameters, DataRow columns)
  // ---------------------------------------------------------------------------

  /** A field value whose length fits the int32 length prefix. */
  predicate FieldFits(v: Option<seq<byte>>)
  {
    v.Some? ==> IsInt32(|v.value|)
  }

  /** One field: NULL is the length -1 with no bytes after it, a value is its length then its bytes. */
  function Field(v: Option<seq<byte>>): (r: seq<byte>)
    requires FieldFits(v)
    ensures |r| == 4 + (if v.None? then 0 else |v.value|)
  {
    match v
    case None => PackInt32(-1)
    case Some(b) => PackInt32(|b|) + b
  }

  /** `piece` sits in `data` at offset `at`. */
  predicate IsAt(data: seq<byte>, at: nat, piece: seq<byte>)
  {
    at + |piece| <= |data| && data[at..at + |piece|] == piece
  }

  /** Two pieces that sit side by side in `data` each sit at their own offset. */
  lemma {:induction false} IsAtPieces(data: seq<byte>, at: nat, a: seq<byte>, b: seq<byte>)
    requires IsAt(data, at, a + b)
    ensures IsAt(data, at, a) && IsAt(data, at + |a|, b)
  {
    assert data[at..at + |a|] == data[at..at + |a| + |b|][..|a|];
    assert data[at + |a|..at + |a| + |b|] == data[at..at + |a| + |b|][|a|..];
  }

  /** Two pieces side by side in `data` make up their concatenation. */
  lemma {:induction false} IsAtJoin(data: seq<byte>, at: nat, a: seq<byte>, b: seq<byte>)
    requires IsAt(data, at, a) && IsAt(data, at + |a|, b)
    ensures IsAt(data, at, a + b)
  {
    assert data[at..at + |a| + |b|] == data[at..at + |a|] + data[at + |a|..at + |a| + |b|];
  }

  /** A piece of a piece of `data` sits in `data` at the sum of the offsets. */
  lemma {:induction false} IsAtNested(data: seq<byte>, at: nat, whole: seq<byte>, j: nat, piece: seq<byte>)
    requires IsAt(data, at, whole) && IsAt(whole, j, piece)
    ensures IsAt(data, at + j, piece)
  {
    assert data[at..at + |whole|] == whole;
    forall k | 0 <= k < |piece|
      ensures data[at + j + k] == piece[k]
    {
      assert whole[j + k] == piece[k];
      assert data[at + (j + k)] == whole[j + k];
    }
  }

  /** A field sitting at `at` announces its own length, and its bytes follow the length. */
  lemma {:induction false} FieldAt(data: seq<byte>, at: nat, v: Option<seq<byte>>)
    requires FieldFits(v) && IsAt(data, at, Field(v))
    ensures at + 4 <= |data| && UnpackInt32(data, at) == (if v.None? then -1 else |v.value|)
    ensures v.Some? ==> IsAt(data, at + 4, v.value)
  {
    var n := if v.None? then -1 else |v.value|;
    var f := Field(v);
    assert f[..4] == PackInt32(n);
    assert data[at..at + 4] == f[..4];
    assert data == data[..at] + data[at..at + 4] + data[at + 4..];
    Int32RoundTrip(n, data[..at], data[at + 4..]);
    if v.Some? {
      assert data[at + 4..at + 4 + |v.value|] == f[4..];
    }
  }

  /** A packed int32 sitting at `at` unpacks to its value. */
  lemma {:induction false} Int32At(data: seq<byte>, at: nat, v: int)
    requires IsInt32(v) && IsAt(data, at, PackInt32(v))
    ensures at + 4 <= |data| && UnpackInt32(data, at) == v
  {
    assert data == data[..at] + PackInt32(v) + data[at + 4..];
    Int32RoundTrip(v, data[..at], data[at + 4..]);
  }

  /** A packed int16 sitting at `at` unpacks to its value. */
  lemma {:induction false} Int16At(data: seq<byte>, at: nat, v: int)
    requires IsInt16(v) && IsAt(data, at, PackInt16(v))
    ensures at + 2 <= |data| && UnpackInt16(data, at) == v
  {
    assert data == data[..at] + PackInt16(v) + data[at + 2..];
    Int16RoundTrip(v, data[..at], data[at + 2..]);
  }

  /** A NUL-terminated string sitting at `at` ends where `find(NUL, at)` says it does. */
  lemma {:induction false} FindNulAt(data: seq<byte>, at: nat, s: seq<byte>)
    requires NUL !in s && IsAt(data, at, s + [NUL])
    ensures FindNul(data, at) == Some(at + |s|)
    decreases |s|
  {
    if s == [] {
      assert data[at] == (s + [NUL])[0];
    } else {
      assert s + [NUL] == [s[0]] + (s[1..] + [NUL]);
      IsAtPieces(data, at, [s[0]], s[1..] + [NUL]);
      assert data[at] == s[0];
      FindNulAt(data, at + 1, s[1..]);
    }
  }

  /** A NUL-terminated string sitting at `at` is found by its terminator and sits there itself. */
  lemma {:induction false} CStringAt(data: seq<byte>, at: nat, s: seq<byte>)
    requires NUL !in s && IsAt(data, at, s + [NUL])
    ensures FindNul(data, at).Some? && FindNul(data, at).value == at + |s| && IsAt(data, at, s)
  {
    FindNulAt(data, at, s);
    IsAtPieces(data, at, s, [NUL]);
  }
}
