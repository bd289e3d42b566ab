/**
 * `handle_DATA_ROW`: one row of a result set, read from the DataRow message
 * column by column with the prepared statement's input converters.
 *
 * The scan is defined over `conv`, the conversion of one column's bytes by
 * its converter; the driver's conversion is `Column`: decode in the client
 * encoding, then apply the converter.
 */
module DataRows {
  import opened Wrappers
  import opened Bytes
  import opened Wire
  import Encodings
  import InAdapters
  import Values

  /** The conversion of one non-NULL column: the column's converter and its bytes. */
  type Conv = (InAdapters.InFunc, seq<byte>) -> Result<Values.Value, WireError>

  /** `func(str(field, encoding))`: a column's text in the client encoding, given to its converter. */
  function Column(codec: Encodings.Codec, func: InAdapters.InFunc, field: seq<byte>): Result<Values.Value, WireError>
  {
    match Encodings.Decode(codec, field)
    case None => Err(UnicodeError)
    case Some(text) =>
      match InAdapters.Apply(func, text)
      case None => Err(AdapterFailed)
      case Some(a) => Ok(a)
  }

  function ColumnIn(codec: Encodings.Codec): Conv
  {
    (func, field) => Column(codec, func, field)
  }

  /**
   * Where the scan has got to: the read offset and the values so far.  The
   * offset is an `int`: a column length below -1 moves it back, possibly
   * before the start of the message.
   */
  datatype RowScan = RowScan(idx: int, row: seq<Values.Value>)

  /**
   * Python's bound for the stop of `data[start:stop]`: a negative stop counts
   * from the end, and the result is cut to `0 .. |data|`.
   */
  function SliceStop(n: nat, stop: int): (r: nat)
    ensures r <= n
    ensures 0 <= stop ==> r == (if stop <= n then stop else n)
    ensures stop < 0 ==> r == (if stop + n >= 0 then stop + n else 0)
  {
    if stop > n then n else if stop >= 0 then stop else if stop + n >= 0 then stop + n else 0
  }

  /**
   * `data[start:stop]` for a start inside the data: the bytes from `start`
   * up to the bounded stop, or nothing when that stop is not after `start`.
   */
  function Slice(data: seq<byte>, start: nat, stop: int): (r: seq<byte>)
    requires start <= |data|
    ensures start <= stop <= |data| ==> r == data[start..stop]
    ensures |data| < stop ==> r == data[start..]
    ensures 0 <= stop <= start ==> r == []
    ensures stop < 0 ==> r == (if start < stop + |data| then data[start..stop + |data|] else [])
  {
    var end := SliceStop(|data|, stop);
    if start < end then data[start..end] else []
  }

  /**
   * One column: read the int32 length; -1 is NULL (`None`); any other length
   * converts the slice `data[start:start + vlen]` and moves the offset by
   * `vlen`, with no check of its sign.  A read at a negative offset is
   * `Truncated`.
   */
  function RowStep(data: seq<byte>, conv: Conv, st: RowScan, func: InAdapters.InFunc): (r: Result<RowScan, WireError>)
    ensures r.Ok? ==> |r.value.row| == |st.row| + 1
  {
    if st.idx < 0 || st.idx + 4 > |data| then Err(Truncated)
    else
      var vlen := UnpackInt32(data, st.idx);
      var start := st.idx + 4;
      if vlen == -1 then Ok(RowScan(start, st.row + [Values.NoneValue]))
      else
        match conv(func, Slice(data, start, start + vlen))
        case Err(e) => Err(e)
        case Ok(a) => Ok(RowScan(start + vlen, st.row + [a]))
  }

  /**
   * A column length below -1 does not stop the scan: the column converts the
   * bytes Python's slice gives (none when the stop lands between 0 and the
   * start) and the offset steps back by the length.
   */
  lemma {:induction false} NegativeLengthReadsOn(data: seq<byte>, conv: Conv, st: RowScan, func: InAdapters.InFunc)
    requires 0 <= st.idx && st.idx + 4 <= |data|
    requires UnpackInt32(data, st.idx) < -1 && 0 <= st.idx + 4 + UnpackInt32(data, st.idx)
    requires conv(func, []).Ok?
    ensures RowStep(data, conv, st, func).Ok?
    ensures RowStep(data, conv, st, func).value == RowScan(st.idx + 4 + UnpackInt32(data, st.idx), st.row + [conv(func, []).value])
  {
    var vlen := UnpackInt32(data, st.idx);
    assert Slice(data, st.idx + 4, st.idx + 4 + vlen) == [];
  }

  /** The columns `funcs` read in order, starting after the int16 column count. */
  function RowFold(data: seq<byte>, conv: Conv, funcs: seq<InAdapters.InFunc>): (r: Result<RowScan, WireError>)
    ensures r.Ok? ==> |r.value.row| == |funcs|
  {
    if funcs == [] then Ok(RowScan(2, []))
    else
      match RowFold(data, conv, funcs[..|funcs| - 1])
      case Err(e) => Err(e)
      case Ok(st) => RowStep(data, conv, st, funcs[|funcs| - 1])
  }

  function RowOf(data: seq<byte>, conv: Conv, funcs: seq<InAdapters.InFunc>): (r: Result<seq<Values.Value>, WireError>)
    ensures r.Ok? ==> |r.value| == |funcs|
  {
    match RowFold(data, conv, funcs)
    case Err(e) => Err(e)
    case Ok(st) => Ok(st.row)
  }

  /** The row of a DataRow message, one value per input converter. */
  function DataRow(data: seq<byte>, codec: Encodings.Codec, funcs: seq<InAdapters.InFunc>): (r: Result<seq<Values.Value>, WireError>)
    ensures r.Ok? ==> |r.value| == |funcs|
  {
    RowOf(data, ColumnIn(codec), funcs)
  }

  lemma {:induction false} RowFoldErrSticky(data: seq<byte>, conv: Conv, funcs: seq<InAdapters.InFunc>, i: nat)
    requires i <= |funcs| && RowFold(data, conv, funcs[..i]).Err?
    ensures RowFold(data, conv, funcs) == RowFold(data, conv, funcs[..i])
    decreases |funcs| - i
  {
    if i < |funcs| {
      assert funcs[..i + 1][..i] == funcs[..i];
      RowFoldErrSticky(data, conv, funcs, i + 1);
    } else {
      assert funcs[..i] == funcs;
    }
  }

  /** A column that fails makes the whole row fail with its error. */
  lemma {:induction false} RowFails(data: seq<byte>, conv: Conv, funcs: seq<InAdapters.InFunc>, i: nat)
    requires i <= |funcs| && RowFold(data, conv, funcs[..i]).Err?
    ensures RowOf(data, conv, funcs) == Err(RowFold(data, conv, funcs[..i]).error)
  {
    RowFoldErrSticky(data, conv, funcs, i);
  }

  /** One iteration of the loop of `handle_DATA_ROW`. */
  method ReadColumn(data: seq<byte>, conv: Conv, idx: int, row: seq<Values.Value>, func: InAdapters.InFunc)
    returns (r: Result<RowScan, WireError>)
    ensures r == RowStep(data, conv, RowScan(idx, row), func)
  {
    if idx < 0 || idx + 4 > |data| {
      return Err(Truncated);
    }
    var vlen := UnpackInt32(data, idx);
    var start := idx + 4;
    if vlen == -1 {
      return Ok(RowScan(start, row + [Values.NoneValue]));
    }
    var value := conv(func, Slice(data, start, start + vlen));
    if value.Err? {
      return Err(value.error);
    }
    return Ok(RowScan(start + vlen, row + [value.value]));
  }

  /** The loop of `handle_DATA_ROW`, advancing `idx` and appending to `row`. */
  method ReadRow(data: seq<byte>, conv: Conv, funcs: seq<InAdapters.InFunc>) returns (r: Result<seq<Values.Value>, WireError>)
    ensures r == RowOf(data, conv, funcs)
  {
    var idx: int := 2;
    var row: seq<Values.Value> := [];
    for i := 0 to |funcs|
      invariant RowFold(data, conv, funcs[..i]) == Ok(RowScan(idx, row))
    {
      var next := ReadColumn(data, conv, idx, row, funcs[i]);
      assert funcs[..i + 1][..i] == funcs[..i];
      assert RowFold(data, conv, funcs[..i + 1]) == next;
      if next.Err? {
        RowFails(data, conv, funcs, i + 1);
        return Err(next.error);
      }
      idx, row := next.value.idx, next.value.row;
    }
    assert funcs[..|funcs|] == funcs;
    return Ok(row);
  }

  /** `handle_DATA_ROW` with the connection's client encoding. */
  method HandleDataRow(data: seq<byte>, codec: Encodings.Codec, funcs: seq<InAdapters.InFunc>) returns (r: Result<seq<Values.Value>, WireError>)
    ensures r == DataRow(data, codec, funcs)
  {
    r := ReadRow(data, ColumnIn(codec), funcs);
  }

  // ---------------------------------------------------------------------------
  // Reading back what was written
  // ---------------------------------------------------------------------------

  /** Every field's length fits its length prefix. */
  predicate FieldsFit(encs: seq<Option<seq<byte>>>)
  {
    encs == [] || (FieldsFit(encs[..|encs| - 1]) && FieldFits(encs[|encs| - 1]))
  }

  lemma {:induction false} FieldsFitPointwise(encs: seq<Option<seq<byte>>>)
    requires forall k :: 0 <= k < |encs| ==> FieldFits(encs[k])
    ensures FieldsFit(encs)
  {
    if encs != [] {
      FieldsFitPointwise(encs[..|encs| - 1]);
    }
  }

  /** Field values laid end to end, as a DataRow carries them after its column count. */
  function Fields(encs: seq<Option<seq<byte>>>): seq<byte>
    requires FieldsFit(encs)
  {
    if encs == [] then [] else Fields(encs[..|encs| - 1]) + Field(encs[|encs| - 1])
  }

  /** A field converts to its cell: NULL to `None`, bytes through `conv`. */
  predicate ConvertsTo(conv: Conv, func: InAdapters.InFunc, enc: Option<seq<byte>>, cell: Values.Value)
  {
    if enc.None? then cell == Values.NoneValue else conv(func, enc.value) == Ok(cell)
  }

  /** Each field converts to its cell. */
  predicate Converts(conv: Conv, funcs: seq<InAdapters.InFunc>, encs: seq<Option<seq<byte>>>, cells: seq<Values.Value>)
  {
    |funcs| == |encs| == |cells|
    && (encs == [] ||
      var n := |encs| - 1;
      Converts(conv, funcs[..n], encs[..n], cells[..n]) && ConvertsTo(conv, funcs[n], encs[n], cells[n]))
  }

  lemma {:induction false} ConvertsPointwise(conv: Conv, funcs: seq<InAdapters.InFunc>, encs: seq<Option<seq<byte>>>, cells: seq<Values.Value>)
    requires |funcs| == |encs| == |cells|
    requires forall k :: 0 <= k < |encs| ==> ConvertsTo(conv, funcs[k], encs[k], cells[k])
    ensures Converts(conv, funcs, encs, cells)
  {
    if encs != [] {
      var n := |encs| - 1;
      ConvertsPointwise(conv, funcs[..n], encs[..n], cells[..n]);
    }
  }

  /** The bytes a field takes: its length prefix and its value. */
  function FieldLen(enc: Option<seq<byte>>): nat
  {
    4 + (if enc.None? then 0 else |enc.value|)
  }

  /** What the reader finds at `at` when a field sits there: its announced length, then its bytes. */
  predicate FieldRead(data: seq<byte>, at: nat, enc: Option<seq<byte>>)
  {
    at + 4 <= |data|
    && UnpackInt32(data, at) == (if enc.None? then -1 else |enc.value|)
    && (enc.Some? ==> at + FieldLen(enc) <= |data| && data[at + 4..at + FieldLen(enc)] == enc.value)
  }

  lemma {:induction false} FieldReadAt(data: seq<byte>, at: nat, enc: Option<seq<byte>>)
    requires FieldFits(enc) && IsAt(data, at, Field(enc))
    ensures FieldRead(data, at, enc)
  {
    FieldAt(data, at, enc);
  }

  lemma {:induction false} RowStepField(data: seq<byte>, conv: Conv, st: RowScan, enc: Option<seq<byte>>, func: InAdapters.InFunc, cell: Values.Value)
    requires 0 <= st.idx && FieldRead(data, st.idx, enc) && ConvertsTo(conv, func, enc, cell)
    ensures RowStep(data, conv, st, func) == Ok(RowScan(st.idx + FieldLen(enc), st.row + [cell]))
  {
    if enc.Some? {
      assert Slice(data, st.idx + 4, st.idx + FieldLen(enc)) == enc.value;
    }
  }

  /** A field after the columns read so far is read as one more column. */
  lemma {:induction false} RowFoldField(data: seq<byte>, conv: Conv, funcs: seq<InAdapters.InFunc>, n: nat, st: RowScan, enc: Option<seq<byte>>, cell: Values.Value, next: RowScan)
    requires n + 1 == |funcs| && RowFold(data, conv, funcs[..n]) == Ok(st)
    requires 0 <= st.idx && FieldRead(data, st.idx, enc) && ConvertsTo(conv, funcs[n], enc, cell)
    requires next.idx == st.idx + FieldLen(enc) && next.row == st.row + [cell]
    ensures RowFold(data, conv, funcs) == Ok(next)
  {
    RowStepField(data, conv, st, enc, funcs[n], cell);
  }

  lemma {:induction false} LastSplit<T>(s: seq<T>)
    requires s != []
    ensures s == s[..|s| - 1] + [s[|s| - 1]]
  {
  }

  lemma {:induction false} FieldsLength(encs: seq<Option<seq<byte>>>)
    requires encs != [] && FieldsFit(encs)
    ensures var n := |encs| - 1; |Fields(encs)| == |Fields(encs[..n])| + FieldLen(encs[n])
  {
  }

  /** Fields laid out from offset 2 to `end` are read as their cells, ending at `end`. */
  lemma {:induction false} RowFoldFields(data: seq<byte>, conv: Conv, funcs: seq<InAdapters.InFunc>, encs: seq<Option<seq<byte>>>, cells: seq<Values.Value>, end: nat)
    requires FieldsFit(encs) && Converts(conv, funcs, encs, cells) && IsAt(data, 2, Fields(encs)) && end == 2 + |Fields(encs)|
    ensures RowFold(data, conv, funcs) == Ok(RowScan(end, cells))
  {
    if encs == [] {
      assert funcs == [] && cells == [];
    } else {
      var n := |encs| - 1;
      var at := 2 + |Fields(encs[..n])|;
      IsAtPieces(data, 2, Fields(encs[..n]), Field(encs[n]));
      RowFoldFields(data, conv, funcs[..n], encs[..n], cells[..n], at);
      FieldReadAt(data, at, encs[n]);
      FieldsLength(encs);
      LastSplit(cells);
      RowFoldField(data, conv, funcs, n, RowScan(at, cells[..n]), encs[n], cells[n], RowScan(end, cells));
    }
  }

  /** Fields whose bytes each convert to a cell read back, after any column count, as those cells. */
  lemma {:induction false} RowOfFields(count: seq<byte>, conv: Conv, funcs: seq<InAdapters.InFunc>, encs: seq<Option<seq<byte>>>, cells: seq<Values.Value>)
    requires |count| == 2 && FieldsFit(encs) && Converts(conv, funcs, encs, cells)
    ensures RowOf(count + Fields(encs), conv, funcs) == Ok(cells)
  {
    var data := count + Fields(encs);
    assert IsAt(data, 2, Fields(encs));
    RowFoldFields(data, conv, funcs, encs, cells, 2 + |Fields(encs)|);
  }

  /** The same, with more bytes after the fields. */
  lemma {:induction false} RowOfFieldsThen(count: seq<byte>, conv: Conv, funcs: seq<InAdapters.InFunc>, encs: seq<Option<seq<byte>>>, cells: seq<Values.Value>, rest: seq<byte>)
    requires |count| == 2 && FieldsFit(encs) && Converts(conv, funcs, encs, cells)
    ensures RowOf(count + Fields(encs) + rest, conv, funcs) == Ok(cells)
  {
    var data := count + Fields(encs) + rest;
    assert IsAt(data, 0, data);
    IsAtPieces(data, 0, count + Fields(encs), rest);
    IsAtPieces(data, 0, count, Fields(encs));
    RowFoldFields(data, conv, funcs, encs, cells, 2 + |Fields(encs)|);
  }

  /** A text value in the client encoding; `None` stays NULL. */
  function EncodeText(codec: Encodings.Codec, t: Option<string>): Option<seq<byte>>
    requires t.Some? ==> Encodings.Encode(codec, t.value).Some?
  {
    if t.None? then None else Encodings.Encode(codec, t.value)
  }

  /** Every text can be written in the client encoding, with a length that fits the length prefix. */
  predicate TextsFit(codec: Encodings.Codec, ts: seq<Option<string>>)
  {
    forall k :: 0 <= k < |ts| && ts[k].Some? ==>
      Encodings.Encode(codec, ts[k].value).Some? && IsInt32(|Encodings.Encode(codec, ts[k].value).value|)
  }

  function EncodeTexts(codec: Encodings.Codec, ts: seq<Option<string>>): (r: seq<Option<seq<byte>>>)
    requires TextsFit(codec, ts)
    ensures |r| == |ts| && FieldsFit(r)
  {
    var r := seq(|ts|, k requires 0 <= k < |ts| => EncodeText(codec, ts[k]));
    FieldsFitPointwise(r);
    r
  }

  /** Every non-NULL text is accepted by its column's converter. */
  predicate ConvertersAccept(ts: seq<Option<string>>, funcs: seq<InAdapters.InFunc>)
  {
    |ts| == |funcs| && forall k :: 0 <= k < |ts| && ts[k].Some? ==> InAdapters.Apply(funcs[k], ts[k].value).Some?
  }

  /** Each text passed through its column's converter, NULL as `None`. */
  function Converted(ts: seq<Option<string>>, funcs: seq<InAdapters.InFunc>): (r: seq<Values.Value>)
    requires ConvertersAccept(ts, funcs)
    ensures |r| == |ts|
  {
    seq(|ts|, k requires 0 <= k < |ts| =>
      if ts[k].None? then Values.NoneValue else InAdapters.Apply(funcs[k], ts[k].value).value)
  }

  /** The driver's conversion reads back a text written in the same encoding. */
  lemma {:induction false} ColumnOfEncoded(codec: Encodings.Codec, func: InAdapters.InFunc, t: string)
    requires Encodings.Encode(codec, t).Some? && InAdapters.Apply(func, t).Some?
    ensures ColumnIn(codec)(func, Encodings.Encode(codec, t).value) == Ok(InAdapters.Apply(func, t).value)
  {
    Encodings.DecodeEncode(codec, t);
  }

  /**
   * A DataRow whose fields are texts in the client encoding, NULLs as length
   * -1, reads back column by column as those texts passed through the
   * column converters.
   */
  lemma {:induction false} DataRowRoundTrip(count: seq<byte>, codec: Encodings.Codec, ts: seq<Option<string>>, funcs: seq<InAdapters.InFunc>)
    requires |count| == 2 && TextsFit(codec, ts) && ConvertersAccept(ts, funcs)
    ensures DataRow(count + Fields(EncodeTexts(codec, ts)), codec, funcs) == Ok(Converted(ts, funcs))
  {
    var encs := EncodeTexts(codec, ts);
    var cells := Converted(ts, funcs);
    forall k | 0 <= k < |encs|
      ensures ConvertsTo(ColumnIn(codec), funcs[k], encs[k], cells[k])
    {
      if ts[k].Some? {
        ColumnOfEncoded(codec, funcs[k], ts[k].value);
      }
    }
    ConvertsPointwise(ColumnIn(codec), funcs, encs, cells);
    RowOfFields(count, ColumnIn(codec), funcs, encs, cells);
  }

  /** Text columns (`text_in`, also the converter of every unlisted type) give the texts back as they were. */
  lemma {:induction false} TextColumnsReadBack(ts: seq<Option<string>>, funcs: seq<InAdapters.InFunc>)
    requires |ts| == |funcs| && forall k :: 0 <= k < |funcs| ==> funcs[k] == InAdapters.TextIn
    ensures ConvertersAccept(ts, funcs)
    ensures forall k :: 0 <= k < |ts| ==>
      Converted(ts, funcs)[k] == (if ts[k].None? then Values.NoneValue else Values.StrValue(Values.PlainStr, ts[k].value))
  {
  }
}
