/**
 * The cursor's result buffer: `Cursor.__next__`, `fetchone`, `fetchmany`,
 * `fetchall`, `description` and `rowcount`.  Rows arrive in `_cached_rows`
 * (a deque the connection appends to) and leave from its front.
 */
module Cursors {
  import opened Wrappers
  import opened Bytes
  import RowDescriptions
  import Values

  type Row = seq<Values.Value>

  /**
   * A prepared statement as `Connection.execute` records it: its NUL-terminated
   * name, its number, and the result columns the server described.
   */
  datatype Statement = Statement(nameBin: seq<byte>, num: nat, rowDesc: seq<RowDescriptions.Column>)

  /** What the fetch methods raise. */
  datatype CursorError =
    | NoQuery      // ProgrammingError("A query hasn't been issued.")
    | NoResultSet  // ProgrammingError("no result set")
    | BadSize      // ValueError from `islice` for a negative size

  /** The error `__next__` raises on an empty buffer, or None for StopIteration. */
  function Exhausted(ps: Option<Statement>): (r: Option<CursorError>)
    ensures r == None <==> ps.Some? && ps.value.rowDesc != []
    ensures r == Some(NoQuery) <==> ps.None?
  {
    if ps.None? then Some(NoQuery)
    else if |ps.value.rowDesc| == 0 then Some(NoResultSet)
    else None
  }

  /** One column of `description`: (name, type_code); the other five items are None. */
  datatype ColumnInfo = ColumnInfo(name: seq<byte>, typeCode: int)

  /** The count `fetchmany` asks `islice` for. */
  function FetchSize(num: Option<int>, arraysize: int): int
  {
    if num.None? then arraysize else num.value
  }

  function Min(a: int, b: int): int
  {
    if a < b then a else b
  }

  /** The part of a cursor the connection reads and writes: its statement, row count and row buffer. */
  datatype Buffer = Buffer(ps: Option<Statement>, rowCount: int, rows: seq<Row>)

  class Cursor {
    /** The number of rows `fetchmany` returns when no size is given. */
    var arraysize: int
    /** The statement last executed on this cursor, if any. */
    var ps: Option<Statement>
    /** `_row_count`: -1 until a counted command completes. */
    var rowCount: int
    /** `_cached_rows`: rows received and not yet fetched, oldest first. */
    var rows: seq<Row>

    constructor ()
      ensures arraysize == 1 && ps == None && rowCount == -1 && rows == []
    {
      arraysize := 1;
      ps := None;
      rowCount := -1;
      rows := [];
    }

    /** The cursor's statement, row count and buffer as one value. */
    function Snapshot(): Buffer
      reads this
    {
      Buffer(ps, rowCount, rows)
    }

    /**
     * `description`: None before any statement or when the statement returns
     * no columns, otherwise one entry per column, in column order.
     */
    function Description(): (r: Option<seq<ColumnInfo>>)
      reads this
      ensures r.None? <==> ps.None? || ps.value.rowDesc == []
      ensures r.Some? ==> (|r.value| == |ps.value.rowDesc| &&
        forall k :: 0 <= k < |r.value| ==>
          r.value[k].name == ps.value.rowDesc[k].name && r.value[k].typeCode == ps.value.rowDesc[k].typeOid)
    {
      if ps.None? || |ps.value.rowDesc| == 0 then None
      else
        var cols := ps.value.rowDesc;
        Some(seq(|cols|, k requires 0 <= k < |cols| => ColumnInfo(cols[k].name, cols[k].typeOid)))
    }

    /**
     * `__next__`: the oldest buffered row; on an empty buffer the error
     * `Exhausted` names, or `Ok(None)` for StopIteration.  `fetchone` is this
     * with StopIteration read as None.
     */
    method Next() returns (r: Result<Option<Row>, CursorError>)
      modifies this`rows
      ensures old(rows) != [] ==> r.Ok? && r.value == Some(old(rows)[0]) && rows == old(rows)[1..]
      ensures old(rows) == [] ==> (rows == [] &&
        if Exhausted(ps).Some? then r.Err? && r.error == Exhausted(ps).value else r.Ok? && r.value.None?)
    {
      if |rows| > 0 {
        var row := rows[0];
        rows := rows[1..];
        return Ok(Some(row));
      }
      var e := Exhausted(ps);
      if e.Some? {
        return Err(e.value);
      }
      return Ok(None);
    }

    /**
     * `fetchmany(num)`: up to `n` rows (`arraysize` when `num` is None) in
     * arrival order.  A negative `n` fails before touching the buffer; when
     * the buffer runs short of `n` the rows taken are consumed and, if
     * `__next__` then raises, lost with the error.
     */
    method FetchMany(num: Option<int>) returns (r: Result<seq<Row>, CursorError>)
      modifies this`rows
      ensures var n := FetchSize(num, old(arraysize));
        if n < 0 then r.Err? && r.error == BadSize && rows == old(rows)
        else
          var k := Min(n, |old(rows)|);
          rows == old(rows)[k..] &&
          if k == n || Exhausted(ps).None? then r.Ok? && r.value == old(rows)[..k]
          else r.Err? && r.error == Exhausted(ps).value
    {
      var n := FetchSize(num, arraysize);
      if n < 0 {
        return Err(BadSize);
      }
      var taken: seq<Row> := [];
      while |taken| < n
        invariant |taken| <= n && old(rows) == taken + rows
        decreases n - |taken|
      {
        var next := Next();
        if next.Err? {
          return Err(next.error);
        }
        if next.value.None? {
          break;
        }
        taken := taken + [next.value.value];
      }
      assert taken == old(rows)[..|taken|];
      return Ok(taken);
    }

    /** `fetchall`: every buffered row, in arrival order, then the check `__next__` makes on an empty buffer. */
    method FetchAll() returns (r: Result<seq<Row>, CursorError>)
      modifies this`rows
      ensures rows == []
      ensures if Exhausted(ps).None? then r.Ok? && r.value == old(rows) else r.Err? && r.error == Exhausted(ps).value
    {
      var taken: seq<Row> := [];
      while true
        invariant old(rows) == taken + rows
        decreases |rows|
      {
        var next := Next();
        if next.Err? {
          return Err(next.error);
        }
        if next.value.None? {
          return Ok(taken);
        }
        taken := taken + [next.value.value];
      }
    }
  }
}
