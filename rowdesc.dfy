/**
 * `handle_ROW_DESCRIPTION`: the columns a prepared statement returns, read
 * from the RowDescription message.  Each column is a NUL-terminated name and
 * an 18-byte trailer of six network-order integers (int32 table oid, int16
 * attribute number, int32 type oid, int16 type size, int32 type modifier,
 * int16 format code); its input converter is `pg_types[type_oid]`.
 */
module RowDescriptions {
  import opened Wrappers
  import opened Bytes
  import opened Wire
  import InAdapters

  /** One entry of `row_desc`; the name stays bytes.  Its converter is `InputFunc`. */
  datatype Column = Column(
    name: seq<byte>,
    tableOid: int, attrNum: int, typeOid: int, typeSize: int, typeModifier: int, format: int)

  /** `field['func']`: the converter `pg_types` holds for the column's type oid. */
  function InputFunc(c: Column): InAdapters.InFunc
  {
    InAdapters.PgTypes(c.typeOid)
  }

  /** `ps['input_funcs']`: the converters of the columns, in column order. */
  function InputFuncs(cols: seq<Column>): (r: seq<InAdapters.InFunc>)
    ensures |r| == |cols| && forall k :: 0 <= k < |cols| ==> r[k] == InputFunc(cols[k])
  {
    seq(|cols|, k requires 0 <= k < |cols| => InputFunc(cols[k]))
  }

  /** The length of the fixed trailer after a column's name. */
  const TRAILER: nat := 18

  /**
   * `data[idx:data.find(NUL, idx)]`: when no NUL follows, `find` gives -1 and
   * the slice stops before the last byte (or is empty).
   */
  function NameAt(data: seq<byte>, idx: nat): seq<byte>
  {
    match FindNul(data, idx)
    case Some(e) => data[idx..e]
    case None => if idx < |data| - 1 then data[idx..|data| - 1] else []
  }

  /** Where the scan has got to: the read offset and the columns so far. */
  datatype DescScan = DescScan(idx: nat, cols: seq<Column>)

  /** One iteration: the name, then the six integers of the trailer (`ihihih_unpack`). */
  function DescStep(data: seq<byte>, st: DescScan): (r: Result<DescScan, WireError>)
    ensures r.Ok? ==> |r.value.cols| == |st.cols| + 1
  {
    var name := NameAt(data, st.idx);
    var at := st.idx + |name| + 1;
    if at + TRAILER > |data| then Err(Truncated)
    else
      var c := Column(name, UnpackInt32(data, at), UnpackInt16(data, at + 4), UnpackInt32(data, at + 6),
                      UnpackInt16(data, at + 10), UnpackInt32(data, at + 12), UnpackInt16(data, at + 16));
      Ok(DescScan(at + TRAILER, st.cols + [c]))
  }

  /** The first `n` iterations of the loop, starting after the int16 count. */
  function DescFold(data: seq<byte>, n: nat): (r: Result<DescScan, WireError>)
    ensures r.Ok? ==> |r.value.cols| == n
  {
    if n == 0 then Ok(DescScan(2, []))
    else
      match DescFold(data, n - 1)
      case Err(e) => Err(e)
      case Ok(st) => DescStep(data, st)
  }

  /**
   * The `row_desc` a RowDescription message yields: the signed int16 count
   * (a count of zero or less gives no columns), then that many columns.
   */
  function RowDescription(data: seq<byte>): (r: Result<seq<Column>, WireError>)
    ensures r.Ok? ==> |data| >= 2 && |r.value| == (if UnpackInt16(data, 0) <= 0 then 0 else UnpackInt16(data, 0))
  {
    if |data| < 2 then Err(Truncated)
    else
      var count := UnpackInt16(data, 0);
      if count <= 0 then Ok([])
      else
        match DescFold(data, count)
        case Err(e) => Err(e)
        case Ok(st) => Ok(st.cols)
  }

  /** A name with no NUL after it leaves no room for the trailer: the column cannot be read. */
  lemma {:induction false} MissingNulTruncated(data: seq<byte>, st: DescScan)
    requires FindNul(data, st.idx).None?
    ensures DescStep(data, st) == Err(Truncated)
  {
  }

  lemma {:induction false} DescFoldErrSticky(data: seq<byte>, n: nat, i: nat)
    requires i <= n && DescFold(data, i).Err?
    ensures DescFold(data, n) == DescFold(data, i)
    decreases n - i
  {
    if i < n {
      DescFoldErrSticky(data, n, i + 1);
    }
  }

  /** One iteration of the loop of `handle_ROW_DESCRIPTION`. */
  method ReadColumnDescription(data: seq<byte>, idx: nat, cols: seq<Column>) returns (r: Result<DescScan, WireError>)
    ensures r == DescStep(data, DescScan(idx, cols))
  {
    var name := NameAt(data, idx);
    var at := idx + |name| + 1;
    if at + TRAILER > |data| {
      return Err(Truncated);
    }
    var tableOid := UnpackInt32(data, at);
    var attrNum := UnpackInt16(data, at + 4);
    var typeOid := UnpackInt32(data, at + 6);
    var typeSize := UnpackInt16(data, at + 10);
    var typeModifier := UnpackInt32(data, at + 12);
    var format := UnpackInt16(data, at + 16);
    var c := Column(name, tableOid, attrNum, typeOid, typeSize, typeModifier, format);
    return Ok(DescScan(at + TRAILER, cols + [c]));
  }

  /** `handle_ROW_DESCRIPTION`: `for i in range(count)`, advancing `idx` and appending to `row_desc`. */
  method HandleRowDescription(data: seq<byte>) returns (r: Result<seq<Column>, WireError>)
    ensures r == RowDescription(data)
  {
    if |data| < 2 {
      return Err(Truncated);
    }
    var count := UnpackInt16(data, 0);
    if count <= 0 {
      return Ok([]);
    }
    var idx: nat := 2;
    var cols: seq<Column> := [];
    for i := 0 to count
      invariant DescFold(data, i) == Ok(DescScan(idx, cols))
    {
      var next := ReadColumnDescription(data, idx, cols);
      if next.Err? {
        DescFoldErrSticky(data, count, i + 1);
        return Err(next.error);
      }
      idx, cols := next.value.idx, next.value.cols;
    }
    return Ok(cols);
  }

  // ---------------------------------------------------------------------------
  // Reading back what the server writes
  // ---------------------------------------------------------------------------

  /** A column the message can carry: a name without NUL, and each integer in its field's range. */
  predicate ColumnFits(c: Column)
  {
    NUL !in c.name && IsInt32(c.tableOid) && IsInt16(c.attrNum) && IsInt32(c.typeOid) &&
    IsInt16(c.typeSize) && IsInt32(c.typeModifier) && IsInt16(c.format)
  }

  predicate ColumnsFit(cols: seq<Column>)
  {
    forall k :: 0 <= k < |cols| ==> ColumnFits(cols[k])
  }

  function Trailer(c: Column): (r: seq<byte>)
    requires ColumnFits(c)
    ensures |r| == TRAILER
  {
    PackInt32(c.tableOid) + PackInt16(c.attrNum) + PackInt32(c.typeOid) +
    PackInt16(c.typeSize) + PackInt32(c.typeModifier) + PackInt16(c.format)
  }

  /** One column as the server writes it. */
  function ColumnBytes(c: Column): (r: seq<byte>)
    requires ColumnFits(c)
  {
    c.name + [NUL] + Trailer(c)
  }

  function ColumnLen(c: Column): nat
  {
    |c.name| + 1 + TRAILER
  }

  function Columns(cols: seq<Column>): seq<byte>
    requires ColumnsFit(cols)
  {
    if cols == [] then [] else Columns(cols[..|cols| - 1]) + ColumnBytes(cols[|cols| - 1])
  }

  /** A RowDescription message body as the server writes it. */
  function EncodeRowDescription(cols: seq<Column>): seq<byte>
    requires ColumnsFit(cols) && IsInt16(|cols|)
  {
    PackInt16(|cols|) + Columns(cols)
  }

  /** What reading a column at `at` needs to know about the bytes there. */
  predicate ColumnRead(data: seq<byte>, at: nat, c: Column)
  {
    FindNul(data, at) == Some(at + |c.name|) && at + ColumnLen(c) <= |data| &&
    data[at..at + |c.name|] == c.name &&
    var t := at + |c.name| + 1;
    UnpackInt32(data, t) == c.tableOid && UnpackInt16(data, t + 4) == c.attrNum &&
    UnpackInt32(data, t + 6) == c.typeOid && UnpackInt16(data, t + 10) == c.typeSize &&
    UnpackInt32(data, t + 12) == c.typeModifier && UnpackInt16(data, t + 16) == c.format
  }

  lemma {:induction false} TrailerAt(data: seq<byte>, t: nat, c: Column)
    requires ColumnFits(c) && IsAt(data, t, Trailer(c))
    ensures t + TRAILER <= |data|
    ensures UnpackInt32(data, t) == c.tableOid && UnpackInt16(data, t + 4) == c.attrNum
    ensures UnpackInt32(data, t + 6) == c.typeOid && UnpackInt16(data, t + 10) == c.typeSize
    ensures UnpackInt32(data, t + 12) == c.typeModifier && UnpackInt16(data, t + 16) == c.format
  {
    var a := PackInt32(c.tableOid);
    var b := PackInt16(c.attrNum);
    var d := PackInt32(c.typeOid);
    var e := PackInt16(c.typeSize);
    var f := PackInt32(c.typeModifier);
    var g := PackInt16(c.format);
    IsAtPieces(data, t, a + b + d + e + f, g);
    IsAtPieces(data, t, a + b + d + e, f);
    IsAtPieces(data, t, a + b + d, e);
    IsAtPieces(data, t, a + b, d);
    IsAtPieces(data, t, a, b);
    Int32At(data, t, c.tableOid);
    Int16At(data, t + 4, c.attrNum);
    Int32At(data, t + 6, c.typeOid);
    Int16At(data, t + 10, c.typeSize);
    Int32At(data, t + 12, c.typeModifier);
    Int16At(data, t + 16, c.format);
  }

  lemma {:induction false} ColumnReadAt(data: seq<byte>, at: nat, c: Column)
    requires ColumnFits(c) && IsAt(data, at, ColumnBytes(c))
    ensures ColumnRead(data, at, c)
  {
    IsAtPieces(data, at, c.name + [NUL], Trailer(c));
    IsAtPieces(data, at, c.name, [NUL]);
    FindNulAt(data, at, c.name);
    TrailerAt(data, at + |c.name| + 1, c);
  }

  lemma {:induction false} DescStepRead(data: seq<byte>, st: DescScan, c: Column)
    requires ColumnRead(data, st.idx, c)
    ensures DescStep(data, st) == Ok(DescScan(st.idx + ColumnLen(c), st.cols + [c]))
  {
    assert NameAt(data, st.idx) == c.name;
  }

  /** A column the server wrote at the scan's offset is read back as it was written. */
  lemma {:induction false} DescStepColumn(data: seq<byte>, idx: nat, prev: seq<Column>, c: Column)
    requires ColumnFits(c) && IsAt(data, idx, ColumnBytes(c))
    ensures DescStep(data, DescScan(idx, prev)) == Ok(DescScan(idx + ColumnLen(c), prev + [c]))
  {
    ColumnReadAt(data, idx, c);
    DescStepRead(data, DescScan(idx, prev), c);
  }

  /** The prefix of `k + 1` elements is the prefix of `k` and element `k`. */
  lemma {:induction false} PrefixStep<T>(s: seq<T>, k: nat)
    requires k < |s|
    ensures s[..k + 1][..k] == s[..k] && s[..k + 1][k] == s[k] && s[..k] + [s[k]] == s[..k + 1]
  {
  }

  /** Where the `k`th column starts when the server writes `cols` after the count. */
  function Offset(cols: seq<Column>, k: nat): nat
    requires ColumnsFit(cols) && k <= |cols|
  {
    2 + |Columns(cols[..k])|
  }

  /** Each column starts where the one before it ends. */
  lemma {:induction false} OffsetStep(cols: seq<Column>, k: nat)
    requires ColumnsFit(cols) && k < |cols|
    ensures Offset(cols, k + 1) == Offset(cols, k) + ColumnLen(cols[k])
  {
    PrefixStep(cols, k);
    assert Columns(cols[..k + 1]) == Columns(cols[..k]) + ColumnBytes(cols[k]);
  }

  /** Each column the server wrote sits at its own offset. */
  lemma {:induction false} ColumnAtOffset(data: seq<byte>, cols: seq<Column>, k: nat)
    requires ColumnsFit(cols) && IsAt(data, 2, Columns(cols)) && k < |cols|
    ensures IsAt(data, Offset(cols, k), ColumnBytes(cols[k]))
    decreases |cols|
  {
    var m := |cols| - 1;
    IsAtPieces(data, 2, Columns(cols[..m]), ColumnBytes(cols[m]));
    if k < m {
      ColumnAtOffset(data, cols[..m], k);
      assert cols[..m][..k] == cols[..k];
    }
  }

  /** Scanning the `k`th column from its offset ends at the next one, with that column added. */
  lemma {:induction false} StepAtOffset(data: seq<byte>, cols: seq<Column>, k: nat, idx: nat, next: nat)
    requires ColumnsFit(cols) && k < |cols| && IsAt(data, idx, ColumnBytes(cols[k]))
    requires idx == Offset(cols, k) && next == Offset(cols, k + 1)
    ensures DescStep(data, DescScan(idx, cols[..k])) == Ok(DescScan(next, cols[..k + 1]))
  {
    PrefixStep(cols, k);
    OffsetStep(cols, k);
    DescStepColumn(data, idx, cols[..k], cols[k]);
  }

  /** Every step of the scan goes from one offset of `offs` to the next, adding one column of `cols`. */
  predicate Chained(data: seq<byte>, cols: seq<Column>, offs: seq<nat>)
    requires |offs| == |cols| + 1
  {
    forall k :: 0 <= k < |cols| ==> DescStep(data, DescScan(offs[k], cols[..k])) == Ok(DescScan(offs[k + 1], cols[..k + 1]))
  }

  lemma {:induction false} DescFoldChained(data: seq<byte>, cols: seq<Column>, offs: seq<nat>, i: nat)
    requires |offs| == |cols| + 1 && offs[0] == 2 && Chained(data, cols, offs) && i <= |cols|
    ensures DescFold(data, i) == Ok(DescScan(offs[i], cols[..i]))
  {
    if i > 0 {
      DescFoldChained(data, cols, offs, i - 1);
      assert DescStep(data, DescScan(offs[i - 1], cols[..i - 1])) == Ok(DescScan(offs[i], cols[..i]));
    }
  }

  lemma {:induction false} DescFoldColumns(data: seq<byte>, cols: seq<Column>)
    requires ColumnsFit(cols) && IsAt(data, 2, Columns(cols))
    ensures DescFold(data, |cols|) == Ok(DescScan(Offset(cols, |cols|), cols))
  {
    var offs := seq(|cols| + 1, k requires 0 <= k <= |cols| => Offset(cols, k));
    forall k | 0 <= k < |cols|
      ensures DescStep(data, DescScan(offs[k], cols[..k])) == Ok(DescScan(offs[k + 1], cols[..k + 1]))
    {
      ColumnAtOffset(data, cols, k);
      StepAtOffset(data, cols, k, offs[k], offs[k + 1]);
    }
    assert cols[..0] == [];
    DescFoldChained(data, cols, offs, |cols|);
    assert cols[..|cols|] == cols;
  }

  /** Reading a RowDescription the server wrote gives back its columns. */
  lemma {:induction false} RowDescriptionRoundTrip(cols: seq<Column>)
    requires ColumnsFit(cols) && IsInt16(|cols|)
    ensures RowDescription(EncodeRowDescription(cols)) == Ok(cols)
  {
    var data := EncodeRowDescription(cols);
    Int16RoundTrip(|cols|, [], Columns(cols));
    assert [] + PackInt16(|cols|) + Columns(cols) == data;
    assert data[2..2 + |Columns(cols)|] == Columns(cols);
    DescFoldColumns(data, cols);
  }
}
