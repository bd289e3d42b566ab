/**
 * The `Connection` object: its transaction flag, bounded deques of
 * notifications, notices and parameter statuses, the prepared-statement
 * caches, and the message loop that updates them and the cursor it runs
 * for.  Every method ends in the state the functions of `Sessions` give.
 */
module Connections {
  import opened Wrappers
  import opened Bytes
  import opened Wire
  import RowDescriptions
  import DataRows
  import Frontend
  import Values
  import Encodings
  import Paramstyle
  import Backend
  import opened Cursors
  import opened Sessions

  /** What a run of messages reports to its caller: the unread bytes, or what it raised. */
  function Reported(o: Outcome): Result<seq<byte>, Failure>
  {
    if o.failure.None? then Ok(o.rest) else Err(o.failure.value)
  }

  class Connection {
    const user: seq<byte>
    const password: Option<seq<byte>>
    /** `md5(...).hexdigest()` as ASCII bytes. */
    const md5hex: seq<byte> -> seq<byte>
    /** `getpid()` of the process using the connection. */
    const pid: nat
    const maxPrepared: nat
    /** `_cursor`: the connection's own cursor, used by `commit` and `rollback`. */
    const own: Cursor

    var autocommit: bool
    var inTransaction: bool
    /** `_client_encoding`; None when the server names an encoding Python has no codec for. */
    var clientEncoding: Option<string>
    var notifications: seq<Backend.Notification>
    var notices: seq<map<seq<byte>, seq<byte>>>
    var statuses: seq<(seq<byte>, seq<byte>)>
    var backendKey: Option<seq<byte>>
    /** `error`: the server's error, kept until ReadyForQuery. */
    var error: Option<Backend.ServerError>
    /** `_caches`: each style's prepared statements, in insertion order. */
    var caches: Caches
    /** The bytes written to the server by the handlers. */
    var out: seq<byte>
    var copyDone: bool
    /** The operations passed to `execute`, in order. */
    var executed: seq<string>

    function Cfg(): Config
    {
      Config(user, password, md5hex, pid, maxPrepared)
    }

    /** The connection's mutable state as one value. */
    function Snapshot(): Link
      reads this
    {
      Link(autocommit, inTransaction, clientEncoding, notifications, notices, statuses, backendKey, error,
           caches, out, copyDone, executed)
    }

    /** The deques are within their bound and the caches are bounded, keyed once and named apart. */
    predicate Valid()
      reads this
    {
      Good(Cfg(), Snapshot())
    }

    /**
     * The state `__init__` sets up before the startup exchange, and the
     * `in_transaction = False` it ends with.
     */
    constructor (user: seq<byte>, password: Option<seq<byte>>, md5hex: seq<byte> -> seq<byte>, pid: nat, maxPrepared: nat)
      ensures this.user == user && this.password == password && this.md5hex == md5hex
      ensures this.pid == pid && this.maxPrepared == maxPrepared && fresh(own)
      ensures !autocommit && !inTransaction && clientEncoding == Some("utf8")
      ensures notifications == [] && notices == [] && statuses == [] && backendKey == None && error == None
      ensures caches == map[] && out == [] && !copyDone && executed == []
      ensures Valid()
    {
      this.user := user;
      this.password := password;
      this.md5hex := md5hex;
      this.pid := pid;
      this.maxPrepared := maxPrepared;
      own := new Cursor();
      autocommit := false;
      inTransaction := false;
      clientEncoding := Some("utf8");
      notifications := [];
      notices := [];
      statuses := [];
      backendKey := None;
      error := None;
      caches := map[];
      out := [];
      copyDone := false;
      executed := [];
    }

    /** The connection and `cursor` are in the state the handler for `code` leaves `pre` in, and `failure` is what it raised. */
    predicate Stepped(pre: State, code: byte, data: seq<byte>, cursor: Cursor, failure: Option<Failure>)
      reads this, cursor
    {
      var st := Handle(Cfg(), pre, code, data);
      Snapshot() == st.state.link && cursor.Snapshot() == st.state.cur && failure == st.failure
    }

    // -------------------------------------------------------------------------
    // Handlers
    // -------------------------------------------------------------------------

    method HandleNoticeResponse(data: seq<byte>, cursor: Cursor) returns (failure: Option<Failure>)
      modifies this`notices
      ensures Stepped(State(old(Snapshot()), cursor.Snapshot()), NOTICE_RESPONSE, data, cursor, failure)
    {
      notices := Backend.Push(notices, Backend.NoticeResponse(data), Backend.DEQUE_MAXLEN);
      return None;
    }

    method HandleAuthenticationRequest(data: seq<byte>, cursor: Cursor) returns (failure: Option<Failure>)
      modifies this`out
      ensures Stepped(State(old(Snapshot()), cursor.Snapshot()), AUTHENTICATION_REQUEST, data, cursor, failure)
    {
      var action := Backend.Authenticate(data, user, password, md5hex);
      if action.Err? {
        return Some(HandlerFailed(action.error));
      }
      if action.value.Respond? {
        out := out + action.value.out;
      }
      return None;
    }

    method HandleParameterStatus(data: seq<byte>, cursor: Cursor) returns (failure: Option<Failure>)
      modifies this`statuses, this`clientEncoding
      ensures Stepped(State(old(Snapshot()), cursor.Snapshot()), PARAMETER_STATUS, data, cursor, failure)
    {
      var (key, value) := Backend.ParameterStatus(data);
      statuses := Backend.Push(statuses, (key, value), Backend.DEQUE_MAXLEN);
      if key == Backend.CLIENT_ENCODING {
        var encoding := Backend.NewClientEncoding(value);
        if encoding.Err? {
          return Some(HandlerFailed(encoding.error));
        }
        clientEncoding := encoding.value;
      }
      return None;
    }

    method HandleBackendKeyData(data: seq<byte>, cursor: Cursor) returns (failure: Option<Failure>)
      modifies this`backendKey
      ensures Stepped(State(old(Snapshot()), cursor.Snapshot()), BACKEND_KEY_DATA, data, cursor, failure)
    {
      backendKey := Some(data);
      return None;
    }

    method HandleReadyForQuery(data: seq<byte>, cursor: Cursor) returns (failure: Option<Failure>)
      modifies this`inTransaction
      ensures Stepped(State(old(Snapshot()), cursor.Snapshot()), READY_FOR_QUERY, data, cursor, failure)
    {
      inTransaction := data != IDLE;
      return None;
    }

    method HandleRowDescription(data: seq<byte>, cursor: Cursor) returns (failure: Option<Failure>)
      modifies cursor`ps
      ensures Stepped(State(Snapshot(), old(cursor.Snapshot())), ROW_DESCRIPTION, data, cursor, failure)
    {
      var cols := RowDescriptions.HandleRowDescription(data);
      if cols.Err? {
        return Some(HandlerFailed(Backend.Malformed(cols.error)));
      }
      if cols.value == [] {
        return None;
      }
      if cursor.ps.None? {
        return Some(NoStatement);
      }
      var ps := cursor.ps.value;
      cursor.ps := Some(ps.(rowDesc := ps.rowDesc + cols.value));
      return None;
    }

    method HandleErrorResponse(data: seq<byte>, cursor: Cursor) returns (failure: Option<Failure>)
      modifies this`error
      ensures Stepped(State(old(Snapshot()), cursor.Snapshot()), ERROR_RESPONSE, data, cursor, failure)
    {
      var response := Backend.ErrorResponse(Sessions.CodecOf(Snapshot()), data);
      if response.Err? {
        return Some(HandlerFailed(response.error));
      }
      error := Some(response.value);
      return None;
    }

    method HandleEmptyQueryResponse(data: seq<byte>, cursor: Cursor) returns (failure: Option<Failure>)
      modifies this`error
      ensures Stepped(State(old(Snapshot()), cursor.Snapshot()), EMPTY_QUERY_RESPONSE, data, cursor, failure)
    {
      error := Some(Backend.QueryWasEmpty);
      return None;
    }

    method HandleDataRow(data: seq<byte>, cursor: Cursor) returns (failure: Option<Failure>)
      modifies cursor`rows
      ensures Stepped(State(Snapshot(), old(cursor.Snapshot())), DATA_ROW, data, cursor, failure)
    {
      if cursor.ps.None? {
        return Some(NoStatement);
      }
      var funcs := RowDescriptions.InputFuncs(cursor.ps.value.rowDesc);
      var row := DataRows.HandleDataRow(data, Sessions.CodecOf(Snapshot()), funcs);
      if row.Err? {
        return Some(HandlerFailed(Backend.Malformed(row.error)));
      }
      cursor.rows := cursor.rows + [row.value];
      return None;
    }

    method HandleCommandComplete(data: seq<byte>, cursor: Cursor) returns (failure: Option<Failure>)
      modifies this`caches, cursor`rowCount
      ensures Stepped(State(old(Snapshot()), old(cursor.Snapshot())), COMMAND_COMPLETE, data, cursor, failure)
    {
      var completion := Backend.CommandComplete(data);
      if completion.Err? {
        return Some(HandlerFailed(completion.error));
      }
      if completion.value.count.Some? {
        cursor.rowCount := Backend.AddRowCount(cursor.rowCount, completion.value.count.value);
      }
      if completion.value.clearsCaches {
        caches := ClearAll(caches);
      }
      return None;
    }

    method HandleNotificationResponse(data: seq<byte>, cursor: Cursor) returns (failure: Option<Failure>)
      modifies this`notifications
      ensures Stepped(State(old(Snapshot()), cursor.Snapshot()), NOTIFICATION_RESPONSE, data, cursor, failure)
    {
      var n := Backend.NotificationResponse(data);
      if n.Err? {
        return Some(HandlerFailed(n.error));
      }
      notifications := Backend.Push(notifications, n.value, Backend.DEQUE_MAXLEN);
      return None;
    }

    method HandleCopyDone(data: seq<byte>, cursor: Cursor) returns (failure: Option<Failure>)
      modifies this`copyDone
      ensures Stepped(State(old(Snapshot()), cursor.Snapshot()), COPY_DONE, data, cursor, failure)
    {
      copyDone := true;
      return None;
    }

    /** `handle_COPY_IN_RESPONSE` and `handle_COPY_OUT_RESPONSE`: the three header bytes, then the missing stream. */
    method HandleCopyResponse(code: byte, data: seq<byte>, cursor: Cursor) returns (failure: Option<Failure>)
      requires code == COPY_IN_RESPONSE || code == COPY_OUT_RESPONSE
      ensures Stepped(State(Snapshot(), cursor.Snapshot()), code, data, cursor, failure)
    {
      if |data| < 3 {
        return Some(HandlerFailed(Backend.Malformed(Truncated)));
      }
      return Some(NoCopyStream);
    }

    /** `self.message_types[code](data, cursor)`. */
    method Dispatch(code: byte, data: seq<byte>, cursor: Cursor) returns (failure: Option<Failure>)
      modifies this, cursor
      ensures Stepped(State(old(Snapshot()), old(cursor.Snapshot())), code, data, cursor, failure)
    {
      if code == NOTICE_RESPONSE {
        failure := HandleNoticeResponse(data, cursor);
      } else if code == AUTHENTICATION_REQUEST {
        failure := HandleAuthenticationRequest(data, cursor);
      } else if code == PARAMETER_STATUS {
        failure := HandleParameterStatus(data, cursor);
      } else if code == BACKEND_KEY_DATA {
        failure := HandleBackendKeyData(data, cursor);
      } else if code == READY_FOR_QUERY {
        failure := HandleReadyForQuery(data, cursor);
      } else if code == ROW_DESCRIPTION {
        failure := HandleRowDescription(data, cursor);
      } else if code == ERROR_RESPONSE {
        failure := HandleErrorResponse(data, cursor);
      } else if code == EMPTY_QUERY_RESPONSE {
        failure := HandleEmptyQueryResponse(data, cursor);
      } else if code == DATA_ROW {
        failure := HandleDataRow(data, cursor);
      } else if code == COMMAND_COMPLETE {
        failure := HandleCommandComplete(data, cursor);
      } else if code in {PARSE_COMPLETE, BIND_COMPLETE, CLOSE_COMPLETE, PORTAL_SUSPENDED, NO_DATA, PARAMETER_DESCRIPTION} {
        failure := None;
      } else if code == NOTIFICATION_RESPONSE {
        failure := HandleNotificationResponse(data, cursor);
      } else if code == COPY_DONE {
        failure := HandleCopyDone(data, cursor);
      } else if code == COPY_DATA {
        failure := Some(NoCopyStream);
      } else if code == COPY_IN_RESPONSE || code == COPY_OUT_RESPONSE {
        failure := HandleCopyResponse(code, data, cursor);
      } else {
        failure := Some(UnknownMessage(code));
      }
    }

    // -------------------------------------------------------------------------
    // handle_messages
    // -------------------------------------------------------------------------

    /**
     * `handle_messages`: clear the kept error, run handlers until
     * ReadyForQuery, then raise the kept error if there is one.  `incoming`
     * is what the server sends; the unread bytes are returned.
     */
    method HandleMessages(cursor: Cursor, incoming: seq<byte>, ghost from: State) returns (r: Result<seq<byte>, Failure>)
      requires Valid() && from == State(Snapshot(), cursor.Snapshot())
      modifies this, cursor
      ensures var o := Messages(Cfg(), from, incoming);
        Snapshot() == o.state.link && cursor.Snapshot() == o.state.cur && r == Reported(o)
      ensures Valid()
    {
      error := None;
      ghost var start := State(Snapshot(), cursor.Snapshot());
      var buf := incoming;
      var ready := false;
      while !ready
        invariant !ready ==> Drain(Cfg(), start, incoming) == Drain(Cfg(), State(Snapshot(), cursor.Snapshot()), buf)
        invariant ready ==> Drain(Cfg(), start, incoming) == Outcome(State(Snapshot(), cursor.Snapshot()), buf, None)
        decreases if ready then 0 else |buf| + 1
      {
        var m := ReadMessage(buf);
        if m.Err? {
          r := Err(HandlerFailed(Backend.Malformed(m.error)));
          MessagesGood(Cfg(), from, incoming);
          return;
        }
        var failure := Dispatch(m.value.code, m.value.data, cursor);
        buf := m.value.rest;
        if failure.Some? {
          r := Err(failure.value);
          MessagesGood(Cfg(), from, incoming);
          return;
        }
        ready := m.value.code == READY_FOR_QUERY;
      }
      if error.Some? {
        r := Err(ServerFailed(error.value));
      } else {
        r := Ok(buf);
      }
      MessagesGood(Cfg(), from, incoming);
    }

    // -------------------------------------------------------------------------
    // execute
    // -------------------------------------------------------------------------

    /**
     * The number of a new statement: one more than every number in every
     * style's cache (`sorted(statement_nums)[-1] + 1`, with 0 always present).
     */
    method NextStatementNum() returns (num: nat)
      ensures forall style, i :: style in caches && 0 <= i < |caches[style]| ==> caches[style][i].ps.num < num
      ensures num == 1 || exists style, i :: style in caches && 0 <= i < |caches[style]| && caches[style][i].ps.num == num - 1
    {
      var top: nat := 0;
      var todo := caches.Keys;
      while todo != {}
        invariant todo <= caches.Keys
        invariant forall style, i :: style in caches && style !in todo && 0 <= i < |caches[style]| ==> caches[style][i].ps.num <= top
        invariant top == 0 || exists style, i :: style in caches && 0 <= i < |caches[style]| && caches[style][i].ps.num == top
        decreases todo
      {
        var style :| style in todo;
        var entries := caches[style];
        for i := 0 to |entries|
          invariant forall other, j :: other in caches && other !in todo && 0 <= j < |caches[other]| ==> caches[other][j].ps.num <= top
          invariant forall j :: 0 <= j < i ==> entries[j].ps.num <= top
          invariant top == 0 || exists other, j :: other in caches && 0 <= j < |caches[other]| && caches[other][j].ps.num == top
        {
          if entries[i].ps.num > top {
            top := entries[i].ps.num;
          }
        }
        todo := todo - {style};
      }
      return top + 1;
    }

    /**
     * The bind and execute round for `ps` on a cursor whose row count and
     * rows are reset, as `execute` runs a statement already parsed: the
     * arguments are converted by the parameters' send functions and encoded,
     * then the server's replies are handled; `from` is the state the round
     * starts from.
     */
    method Run(cursor: Cursor, ps: Option<Statement>, args: seq<Values.Value>, params: seq<Values.Param>, incoming: seq<byte>, ghost from: State)
      returns (r: Result<seq<byte>, Failure>)
      requires Valid() && from == State(Snapshot(), Buffer(ps, -1, []))
      modifies this, cursor
      ensures var o := Bound(Cfg(), from, args, params, incoming);
        Snapshot() == o.state.link && cursor.Snapshot() == o.state.cur && r == Reported(o)
      ensures Valid()
    {
      cursor.ps := ps;
      cursor.rows := [];
      cursor.rowCount := -1;
      var values := Frontend.WriteBind([], [], Encodings.CodecOf(clientEncoding), Values.SendValue, args, SendFuncs(params));
      if values.Err? {
        return Err(BindFailed(values.error));
      }
      r := HandleMessages(cursor, incoming, from);
    }

    /**
     * The parse round of a statement not in the cache: the operation is
     * recorded and the cursor is given a statement numbered one above every
     * cached one, then the server's replies are handled.
     */
    method Parse(cursor: Cursor, operation: string, incoming: seq<byte>, ghost from: State) returns (r: Result<seq<byte>, Failure>)
      requires Valid() && from == State(Snapshot(), cursor.Snapshot())
      modifies this, cursor
      ensures var o := Messages(Cfg(), Parsing(Cfg(), from, operation), incoming);
        Snapshot() == o.state.link && cursor.Snapshot() == o.state.cur && r == Reported(o)
      ensures Valid()
    {
      var num := NextStatementNum();
      NextNumIsTopPlusOne(caches, num);
      executed := executed + [operation];
      cursor.ps := Some(Statement(Frontend.StatementNameBin(pid, num), num, []));
      r := HandleMessages(cursor, incoming, Parsing(Cfg(), from, operation));
    }

    /**
     * Caching the cursor's freshly parsed statement under `key` in `style`'s
     * dictionary (emptied first once it holds more than `max_prepared_statements`),
     * and resetting the cursor's row count and rows.
     */
    method Cache(cursor: Cursor, style: Paramstyle.Style, key: CacheKey, ghost from: State)
      requires Valid() && from == State(Snapshot(), cursor.Snapshot())
      requires cursor.ps.Some? && Fresh(caches, style, key, cursor.ps.value)
      requires cursor.ps.value.nameBin == Frontend.StatementNameBin(pid, cursor.ps.value.num)
      modifies this`caches, cursor
      ensures Snapshot() == Binding(Cfg(), from, style, key).link && cursor.Snapshot() == Binding(Cfg(), from, style, key).cur
      ensures Valid()
    {
      BindingGood(Cfg(), from, style, key);
      var cache := CacheOf(caches, style);
      if |cache| > maxPrepared {
        cache := [];
      }
      caches := caches[style := cache + [Prepared(key, cursor.ps.value)]];
      cursor.rows := [];
      cursor.rowCount := -1;
    }

    /** `execute` of a statement not in `style`'s cache, from the state `from`. */
    method ExecuteNew(cursor: Cursor, style: Paramstyle.Style, operation: string, args: seq<Values.Value>, key: CacheKey, incoming: seq<byte>,
                      ghost from: State)
      returns (r: Result<seq<byte>, Failure>)
      requires Valid() && from == State(Snapshot(), cursor.Snapshot())
      requires Lookup(CacheOf(caches, style), key).None?
      modifies this, cursor
      ensures var o := NewStatement(Cfg(), from, style, operation, args, key, incoming);
        Snapshot() == o.state.link && cursor.Snapshot() == o.state.cur && r == Reported(o)
      ensures Valid()
    {
      r := Parse(cursor, operation, incoming, from);
      if r.Err? {
        return;
      }
      ghost var o := Messages(Cfg(), Parsing(Cfg(), from, operation), incoming);
      ParsedFresh(Cfg(), from, style, key, operation, incoming);
      Cache(cursor, style, key, o.state);
      r := Run(cursor, cursor.ps, args, key.params, r.value, Binding(Cfg(), o.state, style, key));
    }

    /**
     * `Connection.execute(cursor, operation, vals)`: `convert_paramstyle`
     * rewrites the operation and `make_args` picks the values of its
     * placeholders from `vals`; either may raise before anything is sent.
     */
    method Execute(cursor: Cursor, style: Paramstyle.Style, operation: string, vals: Sessions.Vals, incoming: seq<byte>)
      returns (r: Result<seq<byte>, Failure>)
      requires Valid()
      modifies this, cursor
      ensures var o := Sessions.Execute(Cfg(), State(old(Snapshot()), old(cursor.Snapshot())), style, operation, vals, incoming);
        Snapshot() == o.state.link && cursor.Snapshot() == o.state.cur && r == Reported(o)
      ensures Valid()
    {
      var conv := Paramstyle.ConvertParamstyle(style, operation);
      if conv.Err? {
        return Err(ConvertFailed(conv.error));
      }
      var picked := Paramstyle.MakeArgs(conv.value.style, conv.value.placeholders, vals);
      if picked.Err? {
        return Err(ArgsFailed(picked.error));
      }
      if picked.value.Mapping? {
        return Err(MappingArgs);
      }
      r := ExecuteArgs(cursor, style, operation, picked.value.values, incoming);
    }

    /** `execute` once `make_args` has picked `args`: `make_params` types them, or raises. */
    method ExecuteArgs(cursor: Cursor, style: Paramstyle.Style, operation: string, args: seq<Values.Value>, incoming: seq<byte>)
      returns (r: Result<seq<byte>, Failure>)
      requires Valid()
      modifies this, cursor
      ensures var o := Sessions.ExecuteArgs(Cfg(), State(old(Snapshot()), old(cursor.Snapshot())), style, operation, args, incoming);
        Snapshot() == o.state.link && cursor.Snapshot() == o.state.cur && r == Reported(o)
      ensures Valid()
    {
      var params := Values.MakeParams(args);
      if params.Err? {
        return Err(ParamsFailed(params.error));
      }
      r := ExecuteTyped(cursor, style, operation, args, params.value, incoming);
    }

    /** `execute` once `make_params` has given `params`: a cached statement is run at once, any other is parsed first. */
    method ExecuteTyped(cursor: Cursor, style: Paramstyle.Style, operation: string, args: seq<Values.Value>, params: seq<Values.Param>,
                        incoming: seq<byte>)
      returns (r: Result<seq<byte>, Failure>)
      requires Valid()
      modifies this, cursor
      ensures var o := Typed(Cfg(), State(old(Snapshot()), old(cursor.Snapshot())), style, operation, args, params, incoming);
        Snapshot() == o.state.link && cursor.Snapshot() == o.state.cur && r == Reported(o)
      ensures Valid()
    {
      ghost var s0 := State(Snapshot(), cursor.Snapshot());
      var key := CacheKey(operation, params);
      var cached := Lookup(CacheOf(caches, style), key);
      if cached.Some? {
        ExecuteOfCached(Cfg(), s0, style, operation, args, params, incoming);
        executed := executed + [operation];
        r := Run(cursor, cached, args, params, incoming, State(s0.link.(executed := s0.link.executed + [operation]), Buffer(cached, -1, [])));
        return;
      }
      ExecuteOfNew(Cfg(), s0, style, operation, args, params, incoming);
      r := ExecuteNew(cursor, style, operation, args, key, incoming, s0);
    }

    /** `Cursor.execute`: outside a transaction and without autocommit, `begin transaction` runs first. */
    method CursorExecute(cursor: Cursor, style: Paramstyle.Style, operation: string, vals: Sessions.Vals, incoming: seq<byte>)
      returns (r: Result<seq<byte>, Failure>)
      requires Valid()
      modifies this, cursor
      ensures var o := Sessions.CursorExecute(Cfg(), State(old(Snapshot()), old(cursor.Snapshot())), style, operation, vals, incoming);
        Snapshot() == o.state.link && cursor.Snapshot() == o.state.cur && r == Reported(o)
      ensures Valid()
    {
      var buf := incoming;
      if !inTransaction && !autocommit {
        var begun := Execute(cursor, style, BEGIN, Paramstyle.Positional([]), buf);
        if begun.Err? {
          return begun;
        }
        buf := begun.value;
      }
      r := Execute(cursor, style, operation, vals, buf);
    }

    /**
     * `Cursor.executemany`: one execution per parameter set; the row count
     * then combines the counts each left.
     */
    method ExecuteMany(cursor: Cursor, style: Paramstyle.Style, operation: string, sets: seq<Sessions.Vals>, incoming: seq<byte>)
      returns (r: Result<seq<byte>, Failure>)
      requires Valid()
      modifies this, cursor
      ensures var o := Sessions.ExecuteMany(Cfg(), State(old(Snapshot()), old(cursor.Snapshot())), style, operation, sets, incoming);
        Snapshot() == o.state.link && cursor.Snapshot() == o.state.cur && r == Reported(o)
      ensures Valid()
    {
      ghost var start := State(Snapshot(), cursor.Snapshot());
      var counts: seq<int> := [];
      var buf := incoming;
      for i := 0 to |sets|
        invariant Valid()
        invariant Many(Runner(Cfg(), style, operation), start, sets[..i], incoming) == (Outcome(State(Snapshot(), cursor.Snapshot()), buf, None), counts)
      {
        ManyStep(Runner(Cfg(), style, operation), start, sets, incoming, i);
        var done := CursorExecute(cursor, style, operation, sets[i], buf);
        if done.Err? {
          ManyStops(Runner(Cfg(), style, operation), start, sets, incoming, i + 1);
          return done;
        }
        buf := done.value;
        counts := counts + [cursor.rowCount];
      }
      assert sets[..|sets|] == sets;
      cursor.rowCount := Backend.ManyRowCount(counts);
      return Ok(buf);
    }

    /** `commit`: `commit` on the connection's own cursor. */
    method Commit(incoming: seq<byte>) returns (r: Result<seq<byte>, Failure>)
      requires Valid()
      modifies this, own
      ensures var o := Sessions.Execute(Cfg(), State(old(Snapshot()), old(own.Snapshot())), Paramstyle.Format, COMMIT, Paramstyle.Positional([]), incoming);
        Snapshot() == o.state.link && own.Snapshot() == o.state.cur && r == Reported(o)
      ensures Valid()
    {
      r := Execute(own, Paramstyle.Format, COMMIT, Paramstyle.Positional([]), incoming);
    }

    /** `rollback`: nothing outside a transaction, otherwise `rollback` on the connection's own cursor. */
    method Rollback(incoming: seq<byte>) returns (r: Result<seq<byte>, Failure>)
      requires Valid()
      modifies this, own
      ensures !old(inTransaction) ==> r == Ok(incoming) && Snapshot() == old(Snapshot()) && own.Snapshot() == old(own.Snapshot())
      ensures old(inTransaction) ==>
        var o := Sessions.Execute(Cfg(), State(old(Snapshot()), old(own.Snapshot())), Paramstyle.Format, ROLLBACK, Paramstyle.Positional([]), incoming);
        Snapshot() == o.state.link && own.Snapshot() == o.state.cur && r == Reported(o)
      ensures Valid()
    {
      if !inTransaction {
        return Ok(incoming);
      }
      r := Execute(own, Paramstyle.Format, ROLLBACK, Paramstyle.Positional([]), incoming);
    }
  }
}
