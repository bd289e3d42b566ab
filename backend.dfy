/**
 * The backend messages the connection handles besides DataRow and
 * RowDescription: NotificationResponse, ParameterStatus, ErrorResponse and
 * NoticeResponse, CommandComplete and AuthenticationRequest, together with
 * the bookkeeping they feed (bounded deques and the cursor's row count).
 */
module Backend {
  import opened Wrappers
  import opened Bytes
  import opened Wire
  import Text
  import Numerals
  import Encodings
  import Utf8
  import RowDescriptions

  /** Why a message handler raised. */
  datatype HandlerError =
    | Malformed(e: WireError)   // struct.error or UnicodeDecodeError while reading the payload
    | MissingKey(key: string)   // KeyError
    | BadInteger                // ValueError from int()
    | Interface(msg: string)    // InterfaceError raised by the handler
    | Overflow                  // struct.error: a message length that does not fit an int32

  /** `s.encode('ascii')` of a literal. */
  function Tag(s: string): (r: seq<byte>)
    requires AsciiText(s)
    ensures |r| == |s|
  {
    Ascii(s)
  }

  /** Bytes read as text one character per byte (what `int()` sees of a bytes argument). */
  function ByteText(b: seq<byte>): (r: string)
    ensures |r| == |b| && forall k :: 0 <= k < |b| ==> r[k] as int == b[k]
  {
    seq(|b|, k requires 0 <= k < |b| => b[k] as char)
  }

  // ---------------------------------------------------------------------------
  // NotificationResponse
  // ---------------------------------------------------------------------------

  /** One entry of `notifications`: the notifying backend's pid and the channel name. */
  datatype Notification = Notification(pid: int, channel: string)

  /**
   * `handle_NOTIFICATION_RESPONSE`: the int32 pid, then the channel name up to
   * the next NUL, read as ASCII; the payload string after it is not kept.
   */
  function NotificationResponse(data: seq<byte>): (r: Result<Notification, HandlerError>)
    ensures r.Ok? ==> |data| >= 4 && r.value.pid == UnpackInt32(data, 0)
  {
    if |data| < 4 then Err(Malformed(Truncated))
    else
      match Utf8.AsciiDecode(RowDescriptions.NameAt(data, 4))
      case None => Err(Malformed(UnicodeError))
      case Some(channel) => Ok(Notification(UnpackInt32(data, 0), channel))
  }

  /** The payload the server writes: pid, then the channel and the payload as NUL-terminated strings. */
  function NotificationBytes(pid: int, channel: string, payload: seq<byte>): seq<byte>
    requires IsInt32(pid) && AsciiText(channel)
  {
    PackInt32(pid) + Ascii(channel) + [NUL] + payload + [NUL]
  }

  /** ASCII text without the NUL character encodes to bytes without NUL, and decodes back. */
  lemma {:induction false} AsciiBack(s: string)
    requires AsciiText(s) && '\0' !in s
    ensures NUL !in Ascii(s)
    ensures Utf8.AsciiDecode(Ascii(s)).Some? && Utf8.AsciiDecode(Ascii(s)).value == s
  {
    var b := Ascii(s);
    forall k | 0 <= k < |b|
      ensures b[k] != NUL
    {
      assert s[k] != '\0';
    }
    var d := Utf8.AsciiDecode(b);
    assert d.Some?;
    assert forall k :: 0 <= k < |s| ==> d.value[k] == s[k];
  }

  /** The handler reads back the pid and the channel the server sent, whatever the payload. */
  lemma {:induction false} NotificationRoundTrip(pid: int, channel: string, payload: seq<byte>)
    requires IsInt32(pid) && AsciiText(channel) && '\0' !in channel
    ensures var r := NotificationResponse(NotificationBytes(pid, channel, payload));
      r.Ok? && r.value == Notification(pid, channel)
  {
    var name := Ascii(channel);
    var tail := name + [NUL] + payload + [NUL];
    var data := NotificationBytes(pid, channel, payload);
    assert data == PackInt32(pid) + tail;
    AsciiBack(channel);
    assert IsAt(data, 4, name + [NUL]) by {
      assert data[4..4 + |name| + 1] == tail[..|name| + 1];
    }
    CStringAt(data, 4, name);
    assert RowDescriptions.NameAt(data, 4) == name;
    Int32RoundTrip(pid, [], tail);
    assert [] + PackInt32(pid) + tail == data;
  }

  // ---------------------------------------------------------------------------
  // ParameterStatus
  // ---------------------------------------------------------------------------

  /**
   * The split `handle_PARAMETER_STATUS` makes: the key up to the first NUL,
   * the value from after it to the byte before the end.  With no NUL,
   * `find` gives -1 and both slices are everything but the last byte.
   */
  function ParameterStatus(data: seq<byte>): (r: (seq<byte>, seq<byte>))
    ensures FindNul(data, 0).Some? ==> r.0 == data[..FindNul(data, 0).value] && NUL !in r.0
  {
    match FindNul(data, 0)
    case Some(p) =>
      assert forall k :: 0 <= k < p ==> data[k] != NUL by {
        FirstNul(data, 0);
      }
      (data[..p], if p + 1 < |data| - 1 then data[p + 1..|data| - 1] else [])
    case None =>
      var all := if |data| > 0 then data[..|data| - 1] else [];
      (all, all)
  }

  /** `FindNul` stops at the first NUL: none comes before it. */
  lemma {:induction false} FirstNul(data: seq<byte>, from: nat)
    requires FindNul(data, from).Some?
    ensures forall k :: from <= k < FindNul(data, from).value ==> data[k] != NUL
    decreases |data| - from
  {
    if data[from] != NUL {
      FirstNul(data, from + 1);
    }
  }

  /** The server's ParameterStatus payload: key and value as NUL-terminated strings. */
  function StatusBytes(key: seq<byte>, value: seq<byte>): seq<byte>
  {
    key + [NUL] + value + [NUL]
  }

  /** The handler reads back the key and the value the server sent. */
  lemma {:induction false} ParameterStatusRoundTrip(key: seq<byte>, value: seq<byte>)
    requires NUL !in key
    ensures ParameterStatus(StatusBytes(key, value)) == (key, value)
  {
    var data := StatusBytes(key, value);
    assert IsAt(data, 0, key + [NUL]) by {
      assert data[..|key| + 1] == key + [NUL];
    }
    CStringAt(data, 0, key);
    assert data[..|key|] == key;
    if |value| > 0 {
      assert data[|key| + 1..|data| - 1] == value;
    }
  }

  const CLIENT_ENCODING: seq<byte> := Tag("client_encoding")

  /**
   * The connection's encoding name after a `client_encoding` status: the
   * value read as ASCII, lower-cased and renamed through
   * `pg_to_py_encodings`.
   */
  function NewClientEncoding(value: seq<byte>): (r: Result<Option<string>, HandlerError>)
    ensures r.Err? <==> exists k :: 0 <= k < |value| && value[k] >= 0x80
    ensures r.Ok? ==> r.value == Encodings.ClientEncoding(Utf8.AsciiDecode(value).value)
  {
    match Utf8.AsciiDecode(value)
    case None => Err(Malformed(UnicodeError))
    case Some(name) => Ok(Encodings.ClientEncoding(name))
  }

  // ---------------------------------------------------------------------------
  // ErrorResponse and NoticeResponse
  // ---------------------------------------------------------------------------

  /** The pieces of `data.split(NUL)` that are not empty, in order. */
  function NonEmptyPieces(pieces: seq<seq<byte>>): (r: seq<seq<byte>>)
    ensures forall k :: 0 <= k < |r| ==> r[k] != []
  {
    if pieces == [] then []
    else
      var rest := NonEmptyPieces(pieces[..|pieces| - 1]);
      if pieces[|pieces| - 1] == [] then rest else rest + [pieces[|pieces| - 1]]
  }

  /** `(s[:1], s[1:])` for each piece: the field code and the field text, both still bytes. */
  function CodeSplit(pieces: seq<seq<byte>>): (r: seq<(seq<byte>, seq<byte>)>)
    ensures |r| == |pieces|
    ensures forall k :: 0 <= k < |pieces| ==>
      r[k] == (if pieces[k] == [] then ([], []) else (pieces[k][..1], pieces[k][1..]))
  {
    seq(|pieces|, k requires 0 <= k < |pieces| =>
      var n := if pieces[k] == [] then 0 else 1;
      (pieces[k][..n], pieces[k][n..]))
  }

  /** The (code, text) pairs `handle_ERROR_RESPONSE` builds its dictionary from. */
  function ReceivedPairs(data: seq<byte>): seq<(seq<byte>, seq<byte>)>
  {
    CodeSplit(NonEmptyPieces(Text.SplitOn(data, NUL)))
  }

  /** Both halves of every pair decoded with the client encoding; the first failure raises. */
  function DecodePairs(codec: Encodings.Codec, ps: seq<(seq<byte>, seq<byte>)>): (r: Result<seq<(string, string)>, HandlerError>)
    ensures r.Ok? <==> forall k :: 0 <= k < |ps| ==>
      Encodings.Decode(codec, ps[k].0).Some? && Encodings.Decode(codec, ps[k].1).Some?
    ensures r.Ok? ==> |r.value| == |ps| && forall k :: 0 <= k < |ps| ==>
      r.value[k] == (Encodings.Decode(codec, ps[k].0).value, Encodings.Decode(codec, ps[k].1).value)
    ensures r.Err? ==> r.error == Malformed(UnicodeError)
  {
    if ps == [] then Ok([])
    else
      var last := ps[|ps| - 1];
      match DecodePairs(codec, ps[..|ps| - 1])
      case Err(e) => Err(e)
      case Ok(init) =>
        match (Encodings.Decode(codec, last.0), Encodings.Decode(codec, last.1))
        case (Some(key), Some(text)) => Ok(init + [(key, text)])
        case _ => Err(Malformed(UnicodeError))
  }

  /** `dict(pairs)`. */
  function ToMap<K(==), V>(ps: seq<(K, V)>): map<K, V>
  {
    if ps == [] then map[]
    else ToMap(ps[..|ps| - 1])[ps[|ps| - 1].0 := ps[|ps| - 1].1]
  }

  /** The keys of `dict(pairs)` are exactly the keys the pairs carry. */
  lemma {:induction false} ToMapKeys<K, V>(ps: seq<(K, V)>)
    ensures forall k :: 0 <= k < |ps| ==> ps[k].0 in ToMap(ps)
    ensures forall key :: key in ToMap(ps) ==> exists k :: 0 <= k < |ps| && ps[k].0 == key
    decreases |ps|
  {
    if ps != [] {
      var init := ps[..|ps| - 1];
      ToMapKeys(init);
      assert forall k :: 0 <= k < |init| ==> ps[k] == init[k];
    }
  }

  /** In `dict(pairs)` the last pair with a given key supplies its value. */
  lemma {:induction false} ToMapLatest<K, V>(ps: seq<(K, V)>, i: nat)
    requires i < |ps| && forall j :: i < j < |ps| ==> ps[j].0 != ps[i].0
    ensures ps[i].0 in ToMap(ps) && ToMap(ps)[ps[i].0] == ps[i].1
    decreases |ps|
  {
    if i < |ps| - 1 {
      var init := ps[..|ps| - 1];
      assert init[i] == ps[i];
      ToMapLatest(init, i);
    }
  }

  /** The exception class `handle_ERROR_RESPONSE` picks from the SQLSTATE code. */
  datatype ErrorClass = InterfaceErrorClass | IntegrityErrorClass | ProgrammingErrorClass

  /** What `self.error` holds after a query: a classified ErrorResponse, or the empty-query ProgrammingError. */
  datatype ServerError = Response(cls: ErrorClass, fields: map<string, string>) | QueryWasEmpty

  /** 28000 (invalid authorization) is an InterfaceError, 23505 (unique violation) an IntegrityError, any other code a ProgrammingError. */
  function Classify(code: string): ErrorClass
  {
    if code == "28000" then InterfaceErrorClass
    else if code == "23505" then IntegrityErrorClass
    else ProgrammingErrorClass
  }

  /** The field code that carries the SQLSTATE (`RESPONSE_CODE`). */
  const RESPONSE_CODE: string := "C"

  /** The error built from decoded pairs: `msg[RESPONSE_CODE]` raises KeyError when the field is absent. */
  function ErrorOfPairs(codec: Encodings.Codec, ps: seq<(seq<byte>, seq<byte>)>): Result<ServerError, HandlerError>
  {
    match DecodePairs(codec, ps)
    case Err(e) => Err(e)
    case Ok(fields) =>
      var msg := ToMap(fields);
      if RESPONSE_CODE !in msg then Err(MissingKey(RESPONSE_CODE))
      else Ok(Response(Classify(msg[RESPONSE_CODE]), msg))
  }

  /** `handle_ERROR_RESPONSE`: the error it stores in `self.error`. */
  function ErrorResponse(codec: Encodings.Codec, data: seq<byte>): Result<ServerError, HandlerError>
  {
    ErrorOfPairs(codec, ReceivedPairs(data))
  }

  /** Once the fields decode, the message is refused, with KeyError, exactly when no field has the code `C`. */
  lemma {:induction false} ErrorResponseRefused(codec: Encodings.Codec, ps: seq<(seq<byte>, seq<byte>)>)
    requires DecodePairs(codec, ps).Ok?
    ensures var fields := DecodePairs(codec, ps).value;
      var r := ErrorOfPairs(codec, ps);
      (r.Err? <==> forall k :: 0 <= k < |fields| ==> fields[k].0 != RESPONSE_CODE) &&
      (r.Err? ==> r.error == MissingKey(RESPONSE_CODE))
  {
    ToMapKeys(DecodePairs(codec, ps).value);
  }

  /** The class of the error follows the text of the last `C` field, and the error keeps every field. */
  lemma {:induction false} ErrorResponseClass(codec: Encodings.Codec, ps: seq<(seq<byte>, seq<byte>)>, i: nat)
    requires DecodePairs(codec, ps).Ok?
    requires var fields := DecodePairs(codec, ps).value;
      i < |fields| && fields[i].0 == RESPONSE_CODE && forall j :: i < j < |fields| ==> fields[j].0 != RESPONSE_CODE
    ensures var fields := DecodePairs(codec, ps).value;
      var r := ErrorOfPairs(codec, ps);
      r.Ok? && r.value == Response(Classify(fields[i].1), ToMap(fields))
  {
    ToMapLatest(DecodePairs(codec, ps).value, i);
  }

  /** A field the server can send: a code byte other than NUL and a value without NUL. */
  predicate FieldsFit(fs: seq<(byte, seq<byte>)>)
  {
    forall k :: 0 <= k < |fs| ==> fs[k].0 != NUL && NUL !in fs[k].1
  }

  /** Each field written as its code byte, its value and a NUL. */
  function FieldsBytes(fs: seq<(byte, seq<byte>)>): seq<byte>
  {
    if fs == [] then []
    else FieldsBytes(fs[..|fs| - 1]) + ([fs[|fs| - 1].0] + fs[|fs| - 1].1) + [NUL]
  }

  /** The ErrorResponse (or NoticeResponse) payload: the fields, then a closing NUL. */
  function ErrorBytes(fs: seq<(byte, seq<byte>)>): seq<byte>
  {
    FieldsBytes(fs) + [NUL]
  }

  function Pieces(fs: seq<(byte, seq<byte>)>): (r: seq<seq<byte>>)
    ensures |r| == |fs| && forall k :: 0 <= k < |fs| ==> r[k] == [fs[k].0] + fs[k].1
  {
    seq(|fs|, k requires 0 <= k < |fs| => [fs[k].0] + fs[k].1)
  }

  /** The fields as the server meant them: each code as a one-byte string with its value. */
  function SentPairs(fs: seq<(byte, seq<byte>)>): (r: seq<(seq<byte>, seq<byte>)>)
    ensures |r| == |fs| && forall k :: 0 <= k < |fs| ==> r[k] == ([fs[k].0], fs[k].1)
  {
    seq(|fs|, k requires 0 <= k < |fs| => ([fs[k].0], fs[k].1))
  }

  lemma {:induction false} SplitFields(fs: seq<(byte, seq<byte>)>)
    requires FieldsFit(fs)
    ensures Text.SplitOn(FieldsBytes(fs), NUL) == Pieces(fs) + [[]]
    decreases |fs|
  {
    if fs != [] {
      var init := fs[..|fs| - 1];
      var piece := [fs[|fs| - 1].0] + fs[|fs| - 1].1;
      assert FieldsFit(init);
      SplitFields(init);
      assert NUL !in piece;
      Text.SplitOnPiece(FieldsBytes(init), piece, NUL);
      Text.SplitOnSep(FieldsBytes(init) + piece, NUL);
      var p := Pieces(init) + [[]];
      assert p[..|p| - 1] == Pieces(init);
      assert p[|p| - 1] + piece == piece;
      PiecesSnoc(fs);
    }
  }

  lemma {:induction false} PiecesSnoc(fs: seq<(byte, seq<byte>)>)
    requires fs != []
    ensures Pieces(fs[..|fs| - 1]) + [[fs[|fs| - 1].0] + fs[|fs| - 1].1] == Pieces(fs)
  {
    var init := fs[..|fs| - 1];
    forall k | 0 <= k < |init| ensures Pieces(fs)[k] == Pieces(init)[k] { assert fs[k] == init[k]; }
  }

  lemma {:induction false} CodeSplitPieces(fs: seq<(byte, seq<byte>)>)
    ensures CodeSplit(Pieces(fs)) == SentPairs(fs)
  {
    var ps := CodeSplit(Pieces(fs));
    forall k | 0 <= k < |fs|
      ensures ps[k] == SentPairs(fs)[k]
    {
      var piece := [fs[k].0] + fs[k].1;
      assert piece[..1] == [fs[k].0] && piece[1..] == fs[k].1;
    }
  }

  lemma {:induction false} NonEmptyKept(pieces: seq<seq<byte>>)
    requires forall k :: 0 <= k < |pieces| ==> pieces[k] != []
    ensures NonEmptyPieces(pieces) == pieces
    decreases |pieces|
  {
    if pieces != [] {
      NonEmptyKept(pieces[..|pieces| - 1]);
    }
  }

  /** The handler reads back exactly the fields the server sent, in order. */
  lemma {:induction false} ErrorFieldsRoundTrip(fs: seq<(byte, seq<byte>)>)
    requires FieldsFit(fs)
    ensures ReceivedPairs(ErrorBytes(fs)) == SentPairs(fs)
  {
    SplitFields(fs);
    Text.SplitOnSep(FieldsBytes(fs), NUL);
    var all := Pieces(fs) + [[]] + [[]];
    assert Text.SplitOn(ErrorBytes(fs), NUL) == all;
    assert all[..|all| - 1][..|all| - 2] == Pieces(fs);
    NonEmptyKept(Pieces(fs));
    assert NonEmptyPieces(all) == Pieces(fs);
    CodeSplitPieces(fs);
  }

  /**
   * `handle_NOTICE_RESPONSE`: a dictionary of bytes made from every piece of
   * the split, empty pieces included (they give the key `b''`).
   */
  function NoticeResponse(data: seq<byte>): map<seq<byte>, seq<byte>>
  {
    ToMap(CodeSplit(Text.SplitOn(data, NUL)))
  }

  /** A notice is the dictionary of the fields the server sent, plus the empty key the two closing NULs leave. */
  lemma {:induction false} NoticeRoundTrip(fs: seq<(byte, seq<byte>)>)
    requires FieldsFit(fs)
    ensures NoticeResponse(ErrorBytes(fs)) == ToMap(SentPairs(fs))[[] := []]
  {
    var e: seq<byte> := [];
    var sent := SentPairs(fs);
    var ps := sent + [(e, e)] + [(e, e)];
    NoticePairs(fs);
    var m := ToMap(sent);
    assert (sent + [(e, e)])[..|sent|] == sent;
    assert ToMap(sent + [(e, e)]) == m[e := e];
    assert ps[..|ps| - 1] == sent + [(e, e)];
    assert ToMap(ps) == m[e := e][e := e];
    assert m[e := e][e := e] == m[e := e];
  }

  /** Every piece of a notice's split, the two empty ones after the closing NULs included. */
  lemma {:induction false} NoticePairs(fs: seq<(byte, seq<byte>)>)
    requires FieldsFit(fs)
    ensures var e: seq<byte> := [];
      CodeSplit(Text.SplitOn(ErrorBytes(fs), NUL)) == SentPairs(fs) + [(e, e)] + [(e, e)]
  {
    SplitFields(fs);
    Text.SplitOnSep(FieldsBytes(fs), NUL);
    var e: seq<byte> := [];
    var all := Pieces(fs) + [e] + [e];
    assert Text.SplitOn(ErrorBytes(fs), NUL) == all;
    CodeSplitPieces(fs);
    var ps := CodeSplit(all);
    assert forall k :: 0 <= k < |fs| ==> ps[k] == CodeSplit(Pieces(fs))[k];
  }

  // ---------------------------------------------------------------------------
  // CommandComplete
  // ---------------------------------------------------------------------------

  const SPACE: byte := 0x20

  /** `_commands_with_count`: the command tags whose last word is a row count. */
  const COMMANDS_WITH_COUNT: set<seq<byte>> := {INSERT, DELETE, UPDATE, MOVE, FETCH, COPY, SELECT}

  // The command words, as the ASCII bytes of the tag.
  const INSERT: seq<byte> := [0x49, 0x4E, 0x53, 0x45, 0x52, 0x54]
  const DELETE: seq<byte> := [0x44, 0x45, 0x4C, 0x45, 0x54, 0x45]
  const UPDATE: seq<byte> := [0x55, 0x50, 0x44, 0x41, 0x54, 0x45]
  const MOVE: seq<byte> := [0x4D, 0x4F, 0x56, 0x45]
  const FETCH: seq<byte> := [0x46, 0x45, 0x54, 0x43, 0x48]
  const COPY: seq<byte> := [0x43, 0x4F, 0x50, 0x59]
  const SELECT: seq<byte> := [0x53, 0x45, 0x4C, 0x45, 0x43, 0x54]
  const ALTER: seq<byte> := [0x41, 0x4C, 0x54, 0x45, 0x52]
  const CREATE: seq<byte> := [0x43, 0x52, 0x45, 0x41, 0x54, 0x45]

  /** What a CommandComplete tells the connection: the row count, if the command has one, and whether the statement caches must go. */
  datatype Completion = Completion(count: Option<int>, clearsCaches: bool)

  /**
   * `handle_COMMAND_COMPLETE`: the tag without its NUL, split on spaces; a
   * counted command's last word goes through `int()`; ALTER and CREATE
   * invalidate every prepared statement.
   */
  function CommandComplete(data: seq<byte>): (r: Result<Completion, HandlerError>)
  {
    var words := Text.SplitOn(if |data| > 0 then data[..|data| - 1] else [], SPACE);
    var command := words[0];
    var clears := command == ALTER || command == CREATE;
    if command in COMMANDS_WITH_COUNT then
      match Numerals.ParseInt(ByteText(words[|words| - 1]))
      case None => Err(BadInteger)
      case Some(n) => Ok(Completion(Some(n), clears))
    else Ok(Completion(None, clears))
  }

  /**
   * For a tag the server writes as space-separated words: a counted command
   * yields its last word's integer (and fails when that is not one), any
   * other command yields no count, and only ALTER and CREATE clear the caches.
   */
  lemma {:induction false} CompletionOfTag(words: seq<seq<byte>>)
    requires |words| > 0 && forall k :: 0 <= k < |words| ==> SPACE !in words[k]
    ensures var r := CommandComplete(Text.JoinOn(words, SPACE) + [NUL]);
      var counted := words[0] in COMMANDS_WITH_COUNT;
      var n := Numerals.ParseInt(ByteText(words[|words| - 1]));
      (r.Err? <==> counted && n.None?) &&
      (r.Err? ==> r.error == BadInteger) &&
      (r.Ok? ==> r.value.count == (if counted then n else None) &&
                 (r.value.clearsCaches <==> words[0] == ALTER || words[0] == CREATE))
  {
    var data := Text.JoinOn(words, SPACE) + [NUL];
    assert data[..|data| - 1] == Text.JoinOn(words, SPACE);
    Text.SplitOnJoinOn(words, SPACE);
  }

  /** The cursor's `_row_count` after a counted CommandComplete: the count replaces -1 and adds to anything else. */
  function AddRowCount(rowCount: int, n: int): int
  {
    if rowCount == -1 then n else rowCount + n
  }

  /** The row count after a run of counted completions, starting from the -1 every execute resets to. */
  function RowCountAfter(rowCount: int, counts: seq<int>): int
  {
    if counts == [] then rowCount else AddRowCount(RowCountAfter(rowCount, counts[..|counts| - 1]), counts[|counts| - 1])
  }

  function Sum(xs: seq<int>): int
  {
    if xs == [] then 0 else Sum(xs[..|xs| - 1]) + xs[|xs| - 1]
  }

  /** With non-negative counts, an execute's row count is -1 when nothing was counted and the total otherwise. */
  lemma {:induction false} RowCountIsTotal(counts: seq<int>)
    requires forall k :: 0 <= k < |counts| ==> counts[k] >= 0
    ensures RowCountAfter(-1, counts) == (if counts == [] then -1 else Sum(counts))
    ensures counts != [] ==> Sum(counts) >= 0
    decreases |counts|
  {
    if counts != [] {
      RowCountIsTotal(counts[..|counts| - 1]);
    }
  }

  /** `executemany`'s row count: -1 when any run reported -1, else the sum. */
  function ManyRowCount(counts: seq<int>): int
  {
    if -1 in counts then -1 else Sum(counts)
  }

  /**
   * When every run's count is -1 or more, `executemany` reports -1 exactly
   * when some run did, and otherwise a total no smaller than any one run.
   */
  lemma {:induction false} ManyRowCountMeaning(counts: seq<int>)
    requires forall k :: 0 <= k < |counts| ==> counts[k] >= -1
    ensures ManyRowCount(counts) == -1 <==> -1 in counts
    ensures -1 !in counts ==> forall k :: 0 <= k < |counts| ==> counts[k] <= ManyRowCount(counts)
    decreases |counts|
  {
    if -1 !in counts && counts != [] {
      var init := counts[..|counts| - 1];
      assert -1 !in init by {
        forall k | 0 <= k < |init| ensures init[k] != -1 { assert init[k] == counts[k]; }
      }
      ManyRowCountMeaning(init);
      assert counts[|counts| - 1] >= 0;
      forall k | 0 <= k < |counts|
        ensures counts[k] <= Sum(counts)
      {
        if k < |init| {
          assert counts[k] == init[k];
        }
      }
      assert Sum(init) >= 0 by {
        if init != [] {
          assert init[|init| - 1] in init;
        }
      }
    }
  }

  // ---------------------------------------------------------------------------
  // Bounded deques
  // ---------------------------------------------------------------------------

  /** The `maxlen` of `notifications`, `notices` and `parameter_statuses`. */
  const DEQUE_MAXLEN: nat := 100

  /** `deque.append` on a deque with a `maxlen`: the item goes on the right, and a full deque drops its leftmost item. */
  function Push<T>(q: seq<T>, x: T, maxlen: nat): (r: seq<T>)
    requires maxlen > 0
    ensures 0 < |r| <= maxlen && r[|r| - 1] == x
    ensures |q| < maxlen ==> r == q + [x]
  {
    if |q| < maxlen then q + [x] else q[|q| - maxlen + 1..] + [x]
  }

  /** The newest `n` items of `s`. */
  function Newest<T>(s: seq<T>, n: nat): seq<T>
  {
    if |s| <= n then s else s[|s| - n..]
  }

  function PushAll<T>(q: seq<T>, xs: seq<T>, maxlen: nat): seq<T>
    requires maxlen > 0
  {
    if xs == [] then q else Push(PushAll(q, xs[..|xs| - 1], maxlen), xs[|xs| - 1], maxlen)
  }

  /** Appending items one at a time to a bounded deque keeps exactly the newest `maxlen` of everything appended. */
  lemma {:induction false} PushKeepsNewest<T>(q: seq<T>, xs: seq<T>, maxlen: nat)
    requires maxlen > 0 && |q| <= maxlen
    ensures PushAll(q, xs, maxlen) == Newest(q + xs, maxlen)
    decreases |xs|
  {
    if xs != [] {
      var init := xs[..|xs| - 1];
      PushKeepsNewest(q, init, maxlen);
      PushNewest(q + init, xs[|xs| - 1], maxlen);
      assert q + xs == q + init + [xs[|xs| - 1]];
    }
  }

  /** One push onto the newest `maxlen` items gives the newest `maxlen` of the longer history. */
  lemma {:induction false} PushNewest<T>(s: seq<T>, x: T, maxlen: nat)
    requires maxlen > 0
    ensures Push(Newest(s, maxlen), x, maxlen) == Newest(s + [x], maxlen)
  {
    if |s| >= maxlen {
      var p := Newest(s, maxlen);
      assert p[1..] == s[|s| + 1 - maxlen..];
      assert (s + [x])[|s| + 1 - maxlen..] == s[|s| + 1 - maxlen..] + [x];
    }
  }

  // ---------------------------------------------------------------------------
  // AuthenticationRequest
  // ---------------------------------------------------------------------------

  /** What an authentication request makes the connection do. */
  datatype AuthAction =
    | AuthOk                 // nothing to send
    | Respond(out: seq<byte>) // the bytes written to the server
    | Sasl(code: int)        // a SCRAM exchange step, outside this model

  const FLUSH_MSG: seq<byte> := CreateMessage(FLUSH, [])

  /** `_send_message(PASSWORD, body)`: the framed message followed by a Flush. */
  function PasswordMessage(body: seq<byte>): (r: Result<AuthAction, HandlerError>)
  {
    if !IsInt32(|body| + 4) then Err(Overflow)
    else Ok(Respond(CreateMessage(PASSWORD, body) + FLUSH_MSG))
  }

  const NOT_SUPPORTED: set<int> := {2, 4, 6, 7, 8, 9}

  /**
   * `handle_AUTHENTICATION_REQUEST`.  `md5hex` is `md5(...).hexdigest()`
   * encoded as ASCII; the model does not compute it.
   */
  function Authenticate(data: seq<byte>, user: seq<byte>, password: Option<seq<byte>>, md5hex: seq<byte> -> seq<byte>)
    : (r: Result<AuthAction, HandlerError>)
  {
    if |data| < 4 then Err(Malformed(Truncated))
    else
      var code := UnpackInt32(data, 0);
      if code == 0 then Ok(AuthOk)
      else if code == 3 then
        if password.None? then
          Err(Interface("server requesting password authentication, but no password was provided"))
        else PasswordMessage(password.value + [NUL])
      else if code == 5 then
        if |data| < 8 then Err(Malformed(Truncated))
        else if password.None? then
          Err(Interface("server requesting MD5 password authentication, but no password was provided"))
        else PasswordMessage(Tag("md5") + md5hex(md5hex(password.value + user) + data[4..8]) + [NUL])
      else if code in {10, 11, 12} then Ok(Sasl(code))
      else if code in NOT_SUPPORTED then
        Err(Interface("Authentication method " + Numerals.IntToString(code) + " not supported by pg8000."))
      else Err(Interface("Authentication method " + Numerals.IntToString(code) + " not recognized by pg8000."))
  }

  /**
   * The requests the handler refuses with InterfaceError: a cleartext or MD5
   * request without a password (MD5 only once the salt is there), and every
   * code it does not implement (all but 0, 3, 5 and the SASL codes 10-12).
   */
  lemma {:induction false} AuthRefusals(data: seq<byte>, user: seq<byte>, password: Option<seq<byte>>, md5hex: seq<byte> -> seq<byte>)
    requires |data| >= 4
    ensures var code := UnpackInt32(data, 0);
      var r := Authenticate(data, user, password, md5hex);
      r.Err? && r.error.Interface? <==>
        (code == 3 && password.None?) || (code == 5 && |data| >= 8 && password.None?) ||
        code !in {0, 3, 5, 10, 11, 12}
  {
  }

  /** Codes 2, 4 and 6-9 are named as not supported. */
  lemma {:induction false} AuthUnsupported(data: seq<byte>, user: seq<byte>, password: Option<seq<byte>>, md5hex: seq<byte> -> seq<byte>)
    requires |data| >= 4 && UnpackInt32(data, 0) in NOT_SUPPORTED
    ensures var r := Authenticate(data, user, password, md5hex);
      r.Err? && r.error == Interface("Authentication method " + Numerals.IntToString(UnpackInt32(data, 0)) + " not supported by pg8000.")
  {
  }

  /** Only code 0 is accepted without a reply, and only a salt-less MD5 request is malformed. */
  lemma {:induction false} AuthOkAndMalformed(data: seq<byte>, user: seq<byte>, password: Option<seq<byte>>, md5hex: seq<byte> -> seq<byte>)
    requires |data| >= 4
    ensures var code := UnpackInt32(data, 0);
      var r := Authenticate(data, user, password, md5hex);
      (r.Ok? && r.value == AuthOk <==> code == 0) &&
      (r.Err? && r.error.Malformed? <==> code == 5 && |data| < 8)
  {
  }

  /**
   * A cleartext password reply is one Password message whose payload is the
   * password as a C string, followed by a Flush message.
   */
  lemma {:induction false} CleartextReadBack(data: seq<byte>, user: seq<byte>, password: seq<byte>, md5hex: seq<byte> -> seq<byte>)
    requires |data| >= 4 && UnpackInt32(data, 0) == 3 && NUL !in password && IsInt32(|password| + 5)
    ensures var r := Authenticate(data, user, Some(password), md5hex);
      r.Ok? && r.value.Respond? &&
      var f := ReadMessage(r.value.out);
      f.Ok? && f.value.code == PASSWORD && f.value.rest == FLUSH_MSG &&
      FindNul(f.value.data, 0) == Some(|password|) && f.value.data[..|password|] == password
  {
    var body := password + [NUL];
    FramingRoundTrip(PASSWORD, body, FLUSH_MSG);
    assert IsAt(body, 0, password + [NUL]) by { assert body[..|body|] == body; }
    CStringAt(body, 0, password);
  }

  /**
   * An MD5 reply carries `md5` followed by the digest of the digest of
   * password and user salted with the four bytes after the code.
   */
  lemma {:induction false} Md5ReadBack(data: seq<byte>, user: seq<byte>, password: seq<byte>, md5hex: seq<byte> -> seq<byte>)
    requires |data| >= 8 && UnpackInt32(data, 0) == 5
    ensures var digest := md5hex(md5hex(password + user) + data[4..8]);
      var r := Authenticate(data, user, Some(password), md5hex);
      IsInt32(|digest| + 8) ==>
        r.Ok? && r.value.Respond? &&
        var f := ReadMessage(r.value.out);
        f.Ok? && f.value.code == PASSWORD && f.value.data == Tag("md5") + digest + [NUL] && f.value.rest == FLUSH_MSG
  {
    var digest := md5hex(md5hex(password + user) + data[4..8]);
    if IsInt32(|digest| + 8) {
      FramingRoundTrip(PASSWORD, Tag("md5") + digest + [NUL], FLUSH_MSG);
    }
  }
}
