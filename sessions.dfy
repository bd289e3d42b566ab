/**
 * What a connection does with the messages the server sends and how
 * `Connection.execute` keeps its prepared-statement caches, as functions on a
 * snapshot of the connection's state and of the cursor it works for.  The
 * `Connection` class performs the same steps on its fields and is proved to
 * end in the state these functions give.
 */
module Sessions {
  import opened Wrappers
  import opened Bytes
  import opened Wire
  import Encodings
  import RowDescriptions
  import DataRows
  import Frontend
  import Values
  import Paramstyle
  import ParamstyleProps
  import Backend
  import opened Cursors

  /** The ReadyForQuery status of a connection outside any transaction block. */
  const IDLE: seq<byte> := [0x49]

  /** The text `Cursor.execute` runs first when a transaction has to be opened. */
  const BEGIN: string := "begin transaction"

  /** The operations `commit` and `rollback` run. */
  const COMMIT: string := "commit"
  const ROLLBACK: string := "rollback"

  /** The key of a cached statement: the operation and the parameters' (oid, send function) pairs. */
  datatype CacheKey = CacheKey(operation: string, params: seq<Values.Param>)

  /** One entry of a `cache['ps']` dictionary, in insertion order. */
  datatype Prepared = Prepared(key: CacheKey, ps: Statement)

  /** `_caches`, one statement dictionary per parameter style (for the one process the model runs in). */
  type Caches = map<Paramstyle.Style, seq<Prepared>>

  /** The `vals` a caller passes to `execute`: a sequence, or a mapping for the named styles (`None` is the empty sequence). */
  type Vals = Paramstyle.Args<Values.Value>

  /** What the connection is given when it opens and never changes. */
  datatype Config = Config(
    user: seq<byte>, password: Option<seq<byte>>, md5hex: seq<byte> -> seq<byte>,
    pid: nat, maxPrepared: nat)

  /** The connection's mutable state. */
  datatype Link = Link(
    autocommit: bool,
    inTransaction: bool,
    clientEncoding: Option<string>,
    notifications: seq<Backend.Notification>,
    notices: seq<map<seq<byte>, seq<byte>>>,
    statuses: seq<(seq<byte>, seq<byte>)>,
    backendKey: Option<seq<byte>>,
    error: Option<Backend.ServerError>,
    caches: Caches,
    out: seq<byte>,
    copyDone: bool,
    executed: seq<string>)

  datatype State = State(link: Link, cur: Buffer)

  /** What `handle_messages` raises. */
  datatype Failure =
    | HandlerFailed(e: Backend.HandlerError)  // a handler's own exception
    | NoStatement                              // TypeError: the cursor has no statement
    | UnknownMessage(code: byte)               // KeyError: no handler for the code
    | NoCopyStream                             // COPY without a stream
    | ServerFailed(s: Backend.ServerError)     // the error the server reported, raised after ReadyForQuery
    | ConvertFailed(c: Paramstyle.ScanError)   // `convert_paramstyle` raised on the operation
    | ArgsFailed(a: Paramstyle.ArgsError)      // `make_args` raised: a missing name, or a sequence for a named style
    | MappingArgs                              // a mapping given to a positional style (its keys' order is not modelled)
    | ParamsFailed(p: Values.ParamError)       // `make_params` raised: no parameter type for an argument
    | BindFailed(b: Frontend.SendError)        // converting or encoding an argument for the Bind message raised

  /** The state after one handler, and what it raised. */
  datatype Step = Step(state: State, failure: Option<Failure>)

  /** The state after a run of messages, the bytes not read, and what was raised. */
  datatype Outcome = Outcome(state: State, rest: seq<byte>, failure: Option<Failure>)

  /** The connection's codec for decoding text. */
  function CodecOf(l: Link): Encodings.Codec
  {
    Encodings.CodecOf(l.clientEncoding)
  }

  // ---------------------------------------------------------------------------
  // Handlers
  // ---------------------------------------------------------------------------

  /** `handle_AUTHENTICATION_REQUEST`: a password message goes out; SASL steps are not modelled. */
  function OnAuthentication(cfg: Config, s: State, data: seq<byte>): (r: Step)
    ensures r.state.cur == s.cur && r.state.link == s.link.(out := r.state.link.out)
  {
    match Backend.Authenticate(data, cfg.user, cfg.password, cfg.md5hex)
    case Err(e) => Step(s, Some(HandlerFailed(e)))
    case Ok(Respond(o)) => Step(s.(link := s.link.(out := s.link.out + o)), None)
    case Ok(_) => Step(s, None)
  }

  /**
   * `handle_PARAMETER_STATUS`: the pair is recorded first; a `client_encoding`
   * status then replaces the connection's encoding.
   */
  function OnParameterStatus(s: State, data: seq<byte>): (r: Step)
    ensures r.state.cur == s.cur
    ensures r.state.link == s.link.(statuses := r.state.link.statuses, clientEncoding := r.state.link.clientEncoding)
    ensures r.state.link.statuses == Backend.Push(s.link.statuses, Backend.ParameterStatus(data), Backend.DEQUE_MAXLEN)
  {
    var (key, value) := Backend.ParameterStatus(data);
    var l := s.link.(statuses := Backend.Push(s.link.statuses, (key, value), Backend.DEQUE_MAXLEN));
    if key != Backend.CLIENT_ENCODING then Step(s.(link := l), None)
    else
      match Backend.NewClientEncoding(value)
      case Err(e) => Step(s.(link := l), Some(HandlerFailed(e)))
      case Ok(enc) => Step(s.(link := l.(clientEncoding := enc)), None)
  }

  /** `handle_ROW_DESCRIPTION`: the columns are appended to the cursor's statement. */
  function OnRowDescription(s: State, data: seq<byte>): (r: Step)
    ensures r.state.link == s.link
  {
    match RowDescriptions.RowDescription(data)
    case Err(e) => Step(s, Some(HandlerFailed(Backend.Malformed(e))))
    case Ok(cols) =>
      if cols == [] then Step(s, None)
      else if s.cur.ps.None? then Step(s, Some(NoStatement))
      else
        var ps := s.cur.ps.value;
        Step(s.(cur := s.cur.(ps := Some(ps.(rowDesc := ps.rowDesc + cols)))), None)
  }

  /** `handle_ERROR_RESPONSE`: the decoded error is kept, to be raised after ReadyForQuery. */
  function OnErrorResponse(s: State, data: seq<byte>): (r: Step)
    ensures r.state.cur == s.cur && r.state.link == s.link.(error := r.state.link.error)
  {
    match Backend.ErrorResponse(CodecOf(s.link), data)
    case Err(e) => Step(s, Some(HandlerFailed(e)))
    case Ok(se) => Step(s.(link := s.link.(error := Some(se))), None)
  }

  /** `handle_DATA_ROW`: the row, converted by the statement's column converters, joins the buffer. */
  function OnDataRow(s: State, data: seq<byte>): (r: Step)
    ensures r.state.link == s.link && r.state.cur.ps == s.cur.ps
  {
    if s.cur.ps.None? then Step(s, Some(NoStatement))
    else
      match DataRows.DataRow(data, CodecOf(s.link), RowDescriptions.InputFuncs(s.cur.ps.value.rowDesc))
      case Err(e) => Step(s, Some(HandlerFailed(Backend.Malformed(e))))
      case Ok(row) => Step(s.(cur := s.cur.(rows := s.cur.rows + [row])), None)
  }

  /** Every statement dictionary emptied. */
  function ClearAll(caches: Caches): (r: Caches)
    ensures r.Keys == caches.Keys && forall style :: style in r ==> r[style] == []
  {
    map style | style in caches :: []
  }

  /**
   * `handle_COMMAND_COMPLETE`: a counted command adds its count to the
   * cursor's row count; ALTER and CREATE empty every statement cache.
   */
  function OnCommandComplete(s: State, data: seq<byte>): (r: Step)
    ensures r.state.link == s.link.(caches := r.state.link.caches) && r.state.cur.ps == s.cur.ps
    ensures r.state.link.caches == s.link.caches || r.state.link.caches == ClearAll(s.link.caches)
  {
    match Backend.CommandComplete(data)
    case Err(e) => Step(s, Some(HandlerFailed(e)))
    case Ok(c) =>
      var rowCount := if c.count.Some? then Backend.AddRowCount(s.cur.rowCount, c.count.value) else s.cur.rowCount;
      var caches := if c.clearsCaches then ClearAll(s.link.caches) else s.link.caches;
      Step(State(s.link.(caches := caches), s.cur.(rowCount := rowCount)), None)
  }

  /** `handle_NOTIFICATION_RESPONSE`: the notification joins the bounded deque. */
  function OnNotification(s: State, data: seq<byte>): (r: Step)
    ensures r.state.cur == s.cur && r.state.link == s.link.(notifications := r.state.link.notifications)
    ensures |r.state.link.notifications| <= Max(|s.link.notifications|, Backend.DEQUE_MAXLEN)
  {
    match Backend.NotificationResponse(data)
    case Err(e) => Step(s, Some(HandlerFailed(e)))
    case Ok(n) =>
      Step(s.(link := s.link.(notifications := Backend.Push(s.link.notifications, n, Backend.DEQUE_MAXLEN))), None)
  }

  /** `message_types[code](data, cursor)`, for a cursor without a COPY stream. */
  function Handle(cfg: Config, s: State, code: byte, data: seq<byte>): (r: Step)
    ensures |r.state.link.notifications| <= Max(|s.link.notifications|, Backend.DEQUE_MAXLEN)
    ensures |r.state.link.notices| <= Max(|s.link.notices|, Backend.DEQUE_MAXLEN)
    ensures |r.state.link.statuses| <= Max(|s.link.statuses|, Backend.DEQUE_MAXLEN)
    ensures r.state.link.executed == s.link.executed && r.state.link.autocommit == s.link.autocommit
    ensures s.cur.ps.Some? ==> (r.state.cur.ps.Some? && r.state.cur.ps.value.num == s.cur.ps.value.num &&
      r.state.cur.ps.value.nameBin == s.cur.ps.value.nameBin)
  {
    if code == ROW_DESCRIPTION then OnRowDescription(s, data)
    else if code == DATA_ROW then OnDataRow(s, data)
    else if code == COMMAND_COMPLETE then OnCommandComplete(s, data)
    else HandleSession(cfg, s, code, data)
  }

  /** The handlers that leave the cursor and the statement caches alone. */
  function HandleSession(cfg: Config, s: State, code: byte, data: seq<byte>): (r: Step)
    ensures r.state.cur == s.cur && r.state.link.caches == s.link.caches
    ensures |r.state.link.notifications| <= Max(|s.link.notifications|, Backend.DEQUE_MAXLEN)
    ensures |r.state.link.notices| <= Max(|s.link.notices|, Backend.DEQUE_MAXLEN)
    ensures |r.state.link.statuses| <= Max(|s.link.statuses|, Backend.DEQUE_MAXLEN)
    ensures r.state.link.executed == s.link.executed && r.state.link.autocommit == s.link.autocommit
  {
    if code == NOTICE_RESPONSE then
      Step(s.(link := s.link.(notices := Backend.Push(s.link.notices, Backend.NoticeResponse(data), Backend.DEQUE_MAXLEN))), None)
    else if code == AUTHENTICATION_REQUEST then OnAuthentication(cfg, s, data)
    else if code == PARAMETER_STATUS then OnParameterStatus(s, data)
    else if code == BACKEND_KEY_DATA then Step(s.(link := s.link.(backendKey := Some(data))), None)
    else if code == READY_FOR_QUERY then Step(s.(link := s.link.(inTransaction := data != IDLE)), None)
    else if code == ERROR_RESPONSE then OnErrorResponse(s, data)
    else if code == EMPTY_QUERY_RESPONSE then Step(s.(link := s.link.(error := Some(Backend.QueryWasEmpty))), None)
    else if code in {PARSE_COMPLETE, BIND_COMPLETE, CLOSE_COMPLETE, PORTAL_SUSPENDED, NO_DATA, PARAMETER_DESCRIPTION} then
      Step(s, None)
    else if code == NOTIFICATION_RESPONSE then OnNotification(s, data)
    else if code == COPY_DONE then Step(s.(link := s.link.(copyDone := true)), None)
    else if code == COPY_DATA then Step(s, Some(NoCopyStream))
    else if code == COPY_IN_RESPONSE || code == COPY_OUT_RESPONSE then
      if |data| < 3 then Step(s, Some(HandlerFailed(Backend.Malformed(Truncated)))) else Step(s, Some(NoCopyStream))
    else Step(s, Some(UnknownMessage(code)))
  }

  // ---------------------------------------------------------------------------
  // handle_messages
  // ---------------------------------------------------------------------------

  /**
   * The loop of `handle_messages`: read a message, run its handler, and stop
   * after ReadyForQuery, at the first exception, or when the bytes run out.
   */
  function Drain(cfg: Config, s: State, buf: seq<byte>): (r: Outcome)
    ensures r.state.link.executed == s.link.executed && r.state.link.autocommit == s.link.autocommit
    ensures s.cur.ps.Some? ==> (r.state.cur.ps.Some? && r.state.cur.ps.value.num == s.cur.ps.value.num &&
      r.state.cur.ps.value.nameBin == s.cur.ps.value.nameBin)
    decreases |buf|
  {
    match ReadMessage(buf)
    case Err(e) => Outcome(s, buf, Some(HandlerFailed(Backend.Malformed(e))))
    case Ok(f) =>
      var st := Handle(cfg, s, f.code, f.data);
      if st.failure.Some? then Outcome(st.state, f.rest, st.failure)
      else if f.code == READY_FOR_QUERY then Outcome(st.state, f.rest, None)
      else Drain(cfg, st.state, f.rest)
  }

  /** `handle_messages`: the kept error is cleared first and raised once ReadyForQuery has arrived. */
  function Messages(cfg: Config, s: State, buf: seq<byte>): (r: Outcome)
    ensures r.state.link.executed == s.link.executed && r.state.link.autocommit == s.link.autocommit
    ensures s.cur.ps.Some? ==> (r.state.cur.ps.Some? && r.state.cur.ps.value.num == s.cur.ps.value.num &&
      r.state.cur.ps.value.nameBin == s.cur.ps.value.nameBin)
  {
    var o := Drain(cfg, s.(link := s.link.(error := None)), buf);
    if o.failure.None? && o.state.link.error.Some? then o.(failure := Some(ServerFailed(o.state.link.error.value)))
    else o
  }

  /**
   * A framed ReadyForQuery ends the loop: the bytes after it are left
   * unread, and the transaction flag becomes whether the status is other
   * than idle; with no error kept, `handle_messages` returns normally.
   */
  lemma {:induction false} ReadyForQueryEnds(cfg: Config, s: State, status: seq<byte>, rest: seq<byte>)
    requires IsInt32(|status| + 4)
    ensures var o := Messages(cfg, s, CreateMessage(READY_FOR_QUERY, status) + rest);
      && o.failure.None? && o.rest == rest
      && o.state.link == s.link.(error := None, inTransaction := status != IDLE)
      && o.state.cur == s.cur
  {
    FramingRoundTrip(READY_FOR_QUERY, status, rest);
  }

  // ---------------------------------------------------------------------------
  // The statement caches
  // ---------------------------------------------------------------------------

  /** A style's statement dictionary, empty until first used. */
  function CacheOf(caches: Caches, style: Paramstyle.Style): seq<Prepared>
  {
    if style in caches then caches[style] else []
  }

  /**
   * Whether a key can equal a key built by an earlier call: `array_inspect`
   * makes a new `send_array` closure on every call, and Python compares
   * functions by identity, so a key holding an array parameter equals no
   * other key.
   */
  predicate Reusable(key: CacheKey)
  {
    forall k :: 0 <= k < |key.params| ==> !key.params[k].send.SendArray?
  }

  /** `cache['ps'][key]`: only a reusable key can be found. */
  function Lookup(cache: seq<Prepared>, key: CacheKey): (r: Option<Statement>)
    ensures r.None? <==> !Reusable(key) || forall i :: 0 <= i < |cache| ==> cache[i].key != key
    ensures r.Some? ==> exists i :: 0 <= i < |cache| && cache[i] == Prepared(key, r.value)
  {
    if Reusable(key) then Find(cache, key) else None
  }

  /** The entry stored under a key equal to `key`, scanning in insertion order. */
  function Find(cache: seq<Prepared>, key: CacheKey): (r: Option<Statement>)
    ensures r.None? <==> forall i :: 0 <= i < |cache| ==> cache[i].key != key
    ensures r.Some? ==> exists i :: 0 <= i < |cache| && cache[i] == Prepared(key, r.value)
  {
    if cache == [] then None
    else if cache[0].key == key then Some(cache[0].ps)
    else
      var r := Find(cache[1..], key);
      assert forall i :: 1 <= i < |cache| ==> cache[i] == cache[1..][i - 1];
      r
  }

  /** The largest statement number in one dictionary, or 0. */
  function TopOf(cache: seq<Prepared>): (r: nat)
    ensures forall i :: 0 <= i < |cache| ==> cache[i].ps.num <= r
    ensures r == 0 || exists i :: 0 <= i < |cache| && cache[i].ps.num == r
  {
    if cache == [] then 0
    else
      var t := TopOf(cache[..|cache| - 1]);
      var last := cache[|cache| - 1].ps.num;
      assert forall i :: 0 <= i < |cache| - 1 ==> cache[i] == cache[..|cache| - 1][i];
      if last > t then last else t
  }

  function Max(a: nat, b: nat): nat
  {
    if a < b then b else a
  }

  /** The largest statement number in any cache, or 0: `sorted(statement_nums)[-1]`. */
  function TopNum(caches: Caches): nat
  {
    Max(Max(Max(TopOf(CacheOf(caches, Paramstyle.QMark)), TopOf(CacheOf(caches, Paramstyle.Numeric))),
            Max(TopOf(CacheOf(caches, Paramstyle.Named)), TopOf(CacheOf(caches, Paramstyle.Format)))),
        TopOf(CacheOf(caches, Paramstyle.PyFormat)))
  }

  /** Every cached number is at most `TopNum`, and `TopNum` is 0 or one of them. */
  lemma {:induction false} TopNumIsMax(caches: Caches)
    ensures forall style, i :: style in caches && 0 <= i < |caches[style]| ==> caches[style][i].ps.num <= TopNum(caches)
    ensures TopNum(caches) == 0 ||
      exists style, i :: style in caches && 0 <= i < |caches[style]| && caches[style][i].ps.num == TopNum(caches)
  {
    forall style, i | style in caches && 0 <= i < |caches[style]|
      ensures caches[style][i].ps.num <= TopNum(caches)
    {
      assert CacheOf(caches, style) == caches[style];
      assert caches[style][i].ps.num <= TopOf(CacheOf(caches, style));
      assert TopOf(CacheOf(caches, style)) <= TopNum(caches) by {
        match style
        case QMark =>
        case Numeric =>
        case Named =>
        case Format =>
        case PyFormat =>
      }
    }
    var t := TopNum(caches);
    if t != 0 {
      var style :| style in {Paramstyle.QMark, Paramstyle.Numeric, Paramstyle.Named, Paramstyle.Format, Paramstyle.PyFormat}
        && TopOf(CacheOf(caches, style)) == t;
      var i :| 0 <= i < |CacheOf(caches, style)| && CacheOf(caches, style)[i].ps.num == t;
      assert style in caches && caches[style][i].ps.num == t;
    }
  }

  /**
   * The number `execute` gives a new statement is one more than the largest
   * number in any cache: any number above them all that is 1 or follows one
   * of them is that number.
   */
  lemma {:induction false} NextNumIsTopPlusOne(caches: Caches, n: nat)
    requires forall style, i :: style in caches && 0 <= i < |caches[style]| ==> caches[style][i].ps.num < n
    requires n == 1 || exists style, i :: style in caches && 0 <= i < |caches[style]| && caches[style][i].ps.num == n - 1
    ensures n == TopNum(caches) + 1
  {
    TopNumIsMax(caches);
  }

  /**
   * Inserting a new statement: a dictionary holding more than
   * `max_prepared_statements` entries is emptied first (its statements
   * closed), then the statement is added under its key.
   */
  function Remember(caches: Caches, style: Paramstyle.Style, key: CacheKey, ps: Statement, max: nat): (r: Caches)
    ensures r.Keys == caches.Keys + {style}
    ensures forall other :: other in caches && other != style ==> r[other] == caches[other]
    ensures var cache := CacheOf(caches, style);
      r[style] == (if |cache| > max then [] else cache) + [Prepared(key, ps)]
  {
    var cache := CacheOf(caches, style);
    caches[style := (if |cache| > max then [] else cache) + [Prepared(key, ps)]]
  }

  /** No dictionary holds more than one entry beyond `max_prepared_statements`. */
  predicate Bounded(caches: Caches, max: nat)
  {
    forall style :: style in caches ==> |caches[style]| <= max + 1
  }

  /** Within one dictionary every reusable key appears once (the others are each a dictionary key of their own). */
  predicate UniqueKeys(caches: Caches)
  {
    forall style, i, j :: style in caches && 0 <= i < j < |caches[style]| && Reusable(caches[style][i].key) ==>
      caches[style][i].key != caches[style][j].key
  }

  /** Across all dictionaries no two entries share a statement number. */
  predicate DistinctNums(caches: Caches)
  {
    forall s1, i, s2, j ::
      (s1 in caches && s2 in caches && 0 <= i < |caches[s1]| && 0 <= j < |caches[s2]| && (s1 != s2 || i != j)) ==>
      caches[s1][i].ps.num != caches[s2][j].ps.num
  }

  /** Every cached statement is named `pg8000_statement_<pid>_<num>`. */
  predicate Named(caches: Caches, pid: nat)
  {
    forall style, i :: style in caches && 0 <= i < |caches[style]| ==>
      caches[style][i].ps.nameBin == Frontend.StatementNameBin(pid, caches[style][i].ps.num)
  }

  predicate CachesOk(cfg: Config, caches: Caches)
  {
    Bounded(caches, cfg.maxPrepared) && UniqueKeys(caches) && DistinctNums(caches) && Named(caches, cfg.pid)
  }

  /** The invariant of a connection: bounded deques and well-kept caches. */
  predicate Good(cfg: Config, l: Link)
  {
    |l.notifications| <= Backend.DEQUE_MAXLEN && |l.notices| <= Backend.DEQUE_MAXLEN &&
    |l.statuses| <= Backend.DEQUE_MAXLEN && CachesOk(cfg, l.caches)
  }

  /** Two cached statements are never given the same name. */
  lemma {:induction false} CachedNamesDistinct(cfg: Config, caches: Caches, s1: Paramstyle.Style, i: nat, s2: Paramstyle.Style, j: nat)
    requires CachesOk(cfg, caches)
    requires s1 in caches && s2 in caches && i < |caches[s1]| && j < |caches[s2]| && (s1 != s2 || i != j)
    ensures caches[s1][i].ps.nameBin != caches[s2][j].ps.nameBin
  {
    var a := caches[s1][i].ps.num;
    var b := caches[s2][j].ps.num;
    if caches[s1][i].ps.nameBin == caches[s2][j].ps.nameBin {
      Frontend.StatementNameBinInjective(cfg.pid, a, b);
    }
  }

  /** Adding a new statement, numbered above every cached one, under a key not yet cached keeps the caches well kept. */
  lemma {:induction false} RememberOk(cfg: Config, caches: Caches, style: Paramstyle.Style, key: CacheKey, ps: Statement)
    requires CachesOk(cfg, caches)
    requires Lookup(CacheOf(caches, style), key).None?
    requires forall s1, i :: s1 in caches && 0 <= i < |caches[s1]| ==> caches[s1][i].ps.num < ps.num
    requires ps.nameBin == Frontend.StatementNameBin(cfg.pid, ps.num)
    ensures CachesOk(cfg, Remember(caches, style, key, ps, cfg.maxPrepared))
  {
    RememberKeys(caches, style, key, ps, cfg.maxPrepared, cfg.pid);
    RememberNums(caches, style, key, ps, cfg.maxPrepared);
  }

  /** The dictionary the statement joins: a prefix of the old one (all or nothing of it), then the new entry. */
  lemma {:induction false} RememberShape(caches: Caches, style: Paramstyle.Style, key: CacheKey, ps: Statement, max: nat)
    ensures var r := Remember(caches, style, key, ps, max);
      |r[style]| >= 1 && r[style][|r[style]| - 1] == Prepared(key, ps) &&
      forall i :: 0 <= i < |r[style]| - 1 ==> style in caches && r[style][i] == caches[style][i]
  {
  }

  lemma {:induction false} RememberKeys(caches: Caches, style: Paramstyle.Style, key: CacheKey, ps: Statement, max: nat, pid: nat)
    requires Bounded(caches, max) && UniqueKeys(caches) && Named(caches, pid)
    requires Lookup(CacheOf(caches, style), key).None? && ps.nameBin == Frontend.StatementNameBin(pid, ps.num)
    ensures var r := Remember(caches, style, key, ps, max); Bounded(r, max) && UniqueKeys(r) && Named(r, pid)
  {
    var r: Caches := Remember(caches, style, key, ps, max);
    RememberShape(caches, style, key, ps, max);
    assert Bounded(r, max);
    RememberUnique(caches, style, key, ps, max);
    assert Named(r, pid) by {
      forall s1: Paramstyle.Style, i: int | s1 in r && 0 <= i < |r[s1]|
        ensures r[s1][i].ps.nameBin == Frontend.StatementNameBin(pid, r[s1][i].ps.num)
      {
        if s1 != style || i < |r[style]| - 1 { assert r[s1][i] == caches[s1][i]; }
      }
    }
  }

  /** A key not yet in its dictionary stays unique there once added. */
  lemma {:induction false} RememberUnique(caches: Caches, style: Paramstyle.Style, key: CacheKey, ps: Statement, max: nat)
    requires UniqueKeys(caches) && Lookup(CacheOf(caches, style), key).None?
    ensures UniqueKeys(Remember(caches, style, key, ps, max))
  {
    var r: Caches := Remember(caches, style, key, ps, max);
    RememberShape(caches, style, key, ps, max);
    forall s1: Paramstyle.Style, i: int, j: int | s1 in r && 0 <= i < j < |r[s1]| && Reusable(r[s1][i].key)
      ensures r[s1][i].key != r[s1][j].key
    {
      if s1 != style {
        assert r[s1] == caches[s1];
      } else {
        assert r[s1][i] == caches[s1][i] && CacheOf(caches, style)[i] == caches[s1][i];
      }
    }
  }

  lemma {:induction false} RememberNums(caches: Caches, style: Paramstyle.Style, key: CacheKey, ps: Statement, max: nat)
    requires DistinctNums(caches)
    requires forall s1, i :: s1 in caches && 0 <= i < |caches[s1]| ==> caches[s1][i].ps.num < ps.num
    ensures DistinctNums(Remember(caches, style, key, ps, max))
  {
    var r: Caches := Remember(caches, style, key, ps, max);
    RememberShape(caches, style, key, ps, max);
    forall s1: Paramstyle.Style, i: int, s2: Paramstyle.Style, j: int | s1 in r && s2 in r && 0 <= i < |r[s1]| && 0 <= j < |r[s2]| && (s1 != s2 || i != j)
      ensures r[s1][i].ps.num != r[s2][j].ps.num
    {
      if s1 == style && i == |r[style]| - 1 {
        assert r[s2][j] == caches[s2][j];
      } else if s2 == style && j == |r[style]| - 1 {
        assert r[s1][i] == caches[s1][i];
      } else {
        assert r[s1][i] == caches[s1][i] && r[s2][j] == caches[s2][j];
      }
    }
  }

  /** The caches after some handlers: the same dictionaries, each kept or emptied. */
  predicate Shrinks(before: Caches, after: Caches)
  {
    after.Keys == before.Keys && forall style :: style in after ==> after[style] == before[style] || after[style] == []
  }

  /** Keeping or emptying dictionaries keeps the caches well kept. */
  lemma {:induction false} ShrinksOk(cfg: Config, before: Caches, after: Caches)
    requires CachesOk(cfg, before) && Shrinks(before, after)
    ensures CachesOk(cfg, after)
  {
    assert forall style, i :: style in after && 0 <= i < |after[style]| ==> after[style][i] == before[style][i];
  }

  /** A handler keeps or empties each dictionary. */
  lemma {:induction false} HandleShrinks(cfg: Config, s: State, code: byte, data: seq<byte>)
    ensures Shrinks(s.link.caches, Handle(cfg, s, code, data).state.link.caches)
  {
    if code == COMMAND_COMPLETE {
      assert Shrinks(s.link.caches, ClearAll(s.link.caches));
    }
  }

  /** Every handler keeps the connection's invariant. */
  lemma {:induction false} HandleGood(cfg: Config, s: State, code: byte, data: seq<byte>)
    requires Good(cfg, s.link)
    ensures Good(cfg, Handle(cfg, s, code, data).state.link)
  {
    HandleShrinks(cfg, s, code, data);
    ShrinksOk(cfg, s.link.caches, Handle(cfg, s, code, data).state.link.caches);
  }

  lemma {:induction false} DrainShrinks(cfg: Config, s: State, buf: seq<byte>)
    ensures Shrinks(s.link.caches, Drain(cfg, s, buf).state.link.caches)
    decreases |buf|
  {
    match ReadMessage(buf)
    case Err(e) =>
    case Ok(f) =>
      var st := Handle(cfg, s, f.code, f.data);
      HandleShrinks(cfg, s, f.code, f.data);
      if st.failure.None? && f.code != READY_FOR_QUERY {
        DrainShrinks(cfg, st.state, f.rest);
      }
  }

  /** So does every run of `handle_messages`. */
  lemma {:induction false} MessagesGood(cfg: Config, s: State, buf: seq<byte>)
    requires Good(cfg, s.link)
    ensures Good(cfg, Messages(cfg, s, buf).state.link)
  {
    DrainGood(cfg, s.(link := s.link.(error := None)), buf);
  }

  lemma {:induction false} DrainGood(cfg: Config, s: State, buf: seq<byte>)
    requires Good(cfg, s.link)
    ensures Good(cfg, Drain(cfg, s, buf).state.link)
    decreases |buf|
  {
    match ReadMessage(buf)
    case Err(e) =>
    case Ok(f) =>
      HandleGood(cfg, s, f.code, f.data);
      var st := Handle(cfg, s, f.code, f.data);
      if st.failure.None? && f.code != READY_FOR_QUERY {
        DrainGood(cfg, st.state, f.rest);
      }
  }

  // ---------------------------------------------------------------------------
  // execute
  // ---------------------------------------------------------------------------

  /**
   * The arguments `execute` binds for the caller's `vals`: the operation is
   * rewritten by `convert_paramstyle`, and `make_args` picks the values of
   * its placeholders.  Either may raise.
   */
  function PickArgs(style: Paramstyle.Style, operation: string, vals: Vals): (r: Result<seq<Values.Value>, Failure>)
    ensures Paramstyle.Convert(style, operation).Err? ==> r == Err(ConvertFailed(Paramstyle.Convert(style, operation).error))
    ensures Paramstyle.Convert(style, operation).Ok? ==>
      var c := Paramstyle.Convert(style, operation).value;
      var a := Paramstyle.MakeArgs(c.style, c.placeholders, vals);
      && (a.Err? ==> r == Err(ArgsFailed(a.error)))
      && (a.Ok? && a.value.Mapping? ==> r == Err(MappingArgs))
      && (a.Ok? && a.value.Positional? ==> r == Ok(a.value.values))
  {
    match Paramstyle.Convert(style, operation)
    case Err(e) => Err(ConvertFailed(e))
    case Ok(c) =>
      match Paramstyle.MakeArgs(c.style, c.placeholders, vals)
      case Err(e) => Err(ArgsFailed(e))
      case Ok(Positional(args)) => Ok(args)
      case Ok(Mapping(_)) => Err(MappingArgs)
  }

  /**
   * `Connection.execute(cursor, operation, vals)`, with `incoming` the bytes
   * the server will send: when `convert_paramstyle` or `make_args` raises,
   * nothing changes and nothing is read; otherwise the picked arguments are
   * executed.
   */
  function Execute(cfg: Config, s: State, style: Paramstyle.Style, operation: string, vals: Vals, incoming: seq<byte>)
    : (r: Outcome)
    ensures PickArgs(style, operation, vals).Err? ==> r == Outcome(s, incoming, Some(PickArgs(style, operation, vals).error))
    ensures PickArgs(style, operation, vals).Ok? ==> r == ExecuteArgs(cfg, s, style, operation, PickArgs(style, operation, vals).value, incoming)
    ensures r.state.link.autocommit == s.link.autocommit
  {
    match PickArgs(style, operation, vals)
    case Err(f) => Outcome(s, incoming, Some(f))
    case Ok(args) => ExecuteArgs(cfg, s, style, operation, args, incoming)
  }

  /**
   * A named operation run with a mapping that lacks one of its placeholder
   * names raises KeyError from `make_args`: nothing changes, nothing is read.
   */
  lemma {:induction false} ExecuteMissingName(cfg: Config, s: State, operation: string, m: map<string, Values.Value>, incoming: seq<byte>)
    requires Paramstyle.Convert(Paramstyle.Named, operation).Ok?
    requires exists k :: (0 <= k < |Paramstyle.Convert(Paramstyle.Named, operation).value.placeholders| &&
                          Paramstyle.Convert(Paramstyle.Named, operation).value.placeholders[k] !in m)
    ensures var o := Execute(cfg, s, Paramstyle.Named, operation, Paramstyle.Mapping(m), incoming);
      o.state == s && o.rest == incoming && o.failure.Some? && o.failure.value.ArgsFailed?
  {
    var c := Paramstyle.Convert(Paramstyle.Named, operation).value;
    ParamstyleProps.StyleStays(Paramstyle.Named, operation, |operation|);
    assert c.style == Paramstyle.Named;
    assert Paramstyle.MakeArgs(c.style, c.placeholders, Paramstyle.Mapping(m)).Err?;
  }

  /**
   * `begin transaction`, `commit` and `rollback` hold no placeholder: with
   * no arguments, every style picks none.
   */
  lemma {:induction false} FixedOperationsPickNothing(style: Paramstyle.Style, operation: string)
    requires operation == BEGIN || operation == COMMIT || operation == ROLLBACK
    ensures PickArgs(style, operation, Paramstyle.Positional([])) == Ok([])
  {
    assert forall k :: 0 <= k < |operation| ==> ParamstyleProps.Plain(operation[k]);
    ParamstyleProps.PlainConverts(style, operation);
  }

  /**
   * `execute` on a cursor once `make_args` has picked `args`.  `make_params`
   * finds each argument's parameter type, or raises before anything
   * changes.  A cached statement is reused; otherwise a new one, numbered
   * one above every cached statement, is parsed and described (one round of
   * `handle_messages`), then cached.  The cursor's buffer and row count are
   * reset, the arguments are converted for the Bind message, and the bind
   * and execute round is handled.
   */
  function ExecuteArgs(cfg: Config, s: State, style: Paramstyle.Style, operation: string, args: seq<Values.Value>, incoming: seq<byte>)
    : (r: Outcome)
    ensures r.state.link.autocommit == s.link.autocommit
    ensures Values.MakeParamsSpec(args).Ok? ==> r.state.link.executed == s.link.executed + [operation]
    ensures Values.MakeParamsSpec(args).Err? ==> r == Outcome(s, incoming, Some(ParamsFailed(Values.MakeParamsSpec(args).error)))
  {
    match Values.MakeParamsSpec(args)
    case Err(e) => Outcome(s, incoming, Some(ParamsFailed(e)))
    case Ok(params) => Typed(cfg, s, style, operation, args, params, incoming)
  }

  /** `execute` once `make_params` has given `params` for `args`: the cache is consulted under the key (operation, params). */
  function Typed(cfg: Config, s: State, style: Paramstyle.Style, operation: string, args: seq<Values.Value>, params: seq<Values.Param>,
                 incoming: seq<byte>)
    : (r: Outcome)
    ensures r.state.link.executed == s.link.executed + [operation] && r.state.link.autocommit == s.link.autocommit
  {
    var key := CacheKey(operation, params);
    match Lookup(CacheOf(s.link.caches, style), key)
    case Some(ps) => Bound(cfg, State(s.link.(executed := s.link.executed + [operation]), Buffer(Some(ps), -1, [])), args, params, incoming)
    case None => NewStatement(cfg, s, style, operation, args, key, incoming)
  }

  /** A cached statement is bound and executed at once, with no parse round. */
  lemma {:induction false} ExecuteOfCached(cfg: Config, s: State, style: Paramstyle.Style, operation: string, args: seq<Values.Value>,
                                           params: seq<Values.Param>, incoming: seq<byte>)
    requires Lookup(CacheOf(s.link.caches, style), CacheKey(operation, params)).Some?
    ensures var ps := Lookup(CacheOf(s.link.caches, style), CacheKey(operation, params));
      Typed(cfg, s, style, operation, args, params, incoming) ==
      Bound(cfg, State(s.link.(executed := s.link.executed + [operation]), Buffer(ps, -1, [])), args, params, incoming)
  {
  }

  /** A statement not in the cache goes through the parse round first. */
  lemma {:induction false} ExecuteOfNew(cfg: Config, s: State, style: Paramstyle.Style, operation: string, args: seq<Values.Value>,
                                        params: seq<Values.Param>, incoming: seq<byte>)
    requires Lookup(CacheOf(s.link.caches, style), CacheKey(operation, params)).None?
    ensures Typed(cfg, s, style, operation, args, params, incoming) == NewStatement(cfg, s, style, operation, args, CacheKey(operation, params), incoming)
  {
  }

  /** `execute` of a statement not in the cache: the parse round, then (unless it failed) caching and the bind round. */
  function NewStatement(cfg: Config, s: State, style: Paramstyle.Style, operation: string, args: seq<Values.Value>, key: CacheKey, incoming: seq<byte>)
    : Outcome
  {
    var o := Messages(cfg, Parsing(cfg, s, operation), incoming);
    if o.failure.Some? then o
    else Bound(cfg, Binding(cfg, o.state, style, key), args, key.params, o.rest)
  }

  /** `ps['param_funcs']`: the parameters' send functions, in order. */
  function SendFuncs(params: seq<Values.Param>): (r: seq<Values.SendFunc>)
    ensures |r| == |params|
  {
    if params == [] then [] else SendFuncs(params[..|params| - 1]) + [params[|params| - 1].send]
  }

  /**
   * The parameter values of the Bind message sent from `s`: each argument
   * paired with its parameter's send function, converted and encoded in the
   * client encoding, `None` as NULL.
   */
  function BindValues(s: State, args: seq<Values.Value>, params: seq<Values.Param>): Result<seq<byte>, Frontend.SendError>
  {
    Frontend.BindPayload([], [], CodecOf(s.link), Values.SendValue, args, SendFuncs(params))
  }

  /**
   * The bind and execute round from `s`: when an argument fails to convert
   * or encode, that error is raised before anything is sent or read;
   * otherwise the server's replies are handled.
   */
  function Bound(cfg: Config, s: State, args: seq<Values.Value>, params: seq<Values.Param>, incoming: seq<byte>): (r: Outcome)
  {
    match BindValues(s, args, params)
    case Err(e) => Outcome(s, incoming, Some(BindFailed(e)))
    case Ok(_) => Messages(cfg, s, incoming)
  }

  /**
   * The state the parse round of a new statement starts from: the operation
   * recorded and the cursor given a statement numbered one above all cached.
   */
  function Parsing(cfg: Config, s: State, operation: string): (r: State)
    ensures r.cur.ps.Some? && r.cur.ps.value.num == TopNum(s.link.caches) + 1
    ensures r.cur.ps.value.nameBin == Frontend.StatementNameBin(cfg.pid, r.cur.ps.value.num)
  {
    var num := TopNum(s.link.caches) + 1;
    State(s.link.(executed := s.link.executed + [operation]),
          s.cur.(ps := Some(Statement(Frontend.StatementNameBin(cfg.pid, num), num, []))))
  }

  /**
   * The state the bind round starts from: the parsed statement cached under
   * `key` and the cursor's count and rows reset.
   */
  function Binding(cfg: Config, s: State, style: Paramstyle.Style, key: CacheKey): (r: State)
    requires s.cur.ps.Some?
    ensures r.cur == Buffer(s.cur.ps, -1, [])
  {
    var caches := Remember(s.link.caches, style, key, s.cur.ps.value, cfg.maxPrepared);
    State(s.link.(caches := caches), Buffer(s.cur.ps, -1, []))
  }

  /** `Cursor.execute`: outside a transaction and without autocommit, a `begin transaction` runs first. */
  function CursorExecute(cfg: Config, s: State, style: Paramstyle.Style, operation: string, vals: Vals, incoming: seq<byte>)
    : Outcome
  {
    if !s.link.inTransaction && !s.link.autocommit then
      var o := Execute(cfg, s, style, BEGIN, Paramstyle.Positional([]), incoming);
      if o.failure.Some? then o else Execute(cfg, o.state, style, operation, vals, o.rest)
    else Execute(cfg, s, style, operation, vals, incoming)
  }

  /**
   * `Cursor.execute` records `begin transaction` before the operation
   * exactly when the connection is outside a transaction and not in
   * autocommit; a failed begin stops before the operation.  A `vals` that
   * `convert_paramstyle`, `make_args` or `make_params` refuses stops before
   * the operation is recorded, though after the begin has run.
   */
  lemma {:induction false} CursorExecuteBegins(cfg: Config, s: State, style: Paramstyle.Style, operation: string, vals: Vals, incoming: seq<byte>)
    ensures var o := CursorExecute(cfg, s, style, operation, vals, incoming);
      var begins := !s.link.inTransaction && !s.link.autocommit;
      var first := Execute(cfg, s, style, BEGIN, Paramstyle.Positional([]), incoming);
      var picked := PickArgs(style, operation, vals);
      var typed := picked.Ok? && Values.MakeParamsSpec(picked.value).Ok?;
      && (!begins ==> o.state.link.executed == s.link.executed + (if typed then [operation] else []))
      && (begins && first.failure.Some? ==> o.state.link.executed == s.link.executed + [BEGIN])
      && (begins && first.failure.None? ==> o.state.link.executed == s.link.executed + (if typed then [BEGIN, operation] else [BEGIN]))
  {
    FixedOperationsPickNothing(style, BEGIN);
    assert Values.MakeParamsSpec([]) == Ok([]);
    assert (s.link.executed + [BEGIN]) + [operation] == s.link.executed + [BEGIN, operation];
  }

  /** The step `Cursor.executemany` repeats: one `Cursor.execute` of `operation` over a parameter set. */
  function Runner(cfg: Config, style: Paramstyle.Style, operation: string): (State, Vals, seq<byte>) -> Outcome
  {
    (st: State, vals: Vals, rest: seq<byte>) => CursorExecute(cfg, st, style, operation, vals, rest)
  }

  /**
   * The executions of `Cursor.executemany` over the first parameter sets, each
   * by `run`, and the row count each left; the first failure ends the run.
   */
  function Many(run: (State, Vals, seq<byte>) -> Outcome, s: State, sets: seq<Vals>, incoming: seq<byte>)
    : (r: (Outcome, seq<int>))
    ensures r.0.failure.None? ==> |r.1| == |sets|
  {
    if sets == [] then (Outcome(s, incoming, None), [])
    else
      var (o, counts) := Many(run, s, sets[..|sets| - 1], incoming);
      if o.failure.Some? then (o, counts)
      else
        var o2 := run(o.state, sets[|sets| - 1], o.rest);
        (o2, counts + [o2.state.cur.rowCount])
  }

  /** `Cursor.executemany`: after every set has run, the row count is -1 if any run had none, else their sum. */
  function ExecuteMany(cfg: Config, s: State, style: Paramstyle.Style, operation: string, sets: seq<Vals>, incoming: seq<byte>)
    : Outcome
  {
    var (o, counts) := Many(Runner(cfg, style, operation), s, sets, incoming);
    if o.failure.Some? then o
    else o.(state := o.state.(cur := o.state.cur.(rowCount := Backend.ManyRowCount(counts))))
  }

  /** Executing a statement keeps the connection's invariant: the caches stay bounded, keyed once and named apart. */
  lemma {:induction false} ExecuteGood(cfg: Config, s: State, style: Paramstyle.Style, operation: string, vals: Vals, incoming: seq<byte>)
    requires Good(cfg, s.link)
    ensures Good(cfg, Execute(cfg, s, style, operation, vals, incoming).state.link)
  {
    if PickArgs(style, operation, vals).Ok? {
      ExecuteArgsGood(cfg, s, style, operation, PickArgs(style, operation, vals).value, incoming);
    }
  }

  lemma {:induction false} ExecuteArgsGood(cfg: Config, s: State, style: Paramstyle.Style, operation: string, args: seq<Values.Value>, incoming: seq<byte>)
    requires Good(cfg, s.link)
    ensures Good(cfg, ExecuteArgs(cfg, s, style, operation, args, incoming).state.link)
  {
    if Values.MakeParamsSpec(args).Ok? {
      TypedGood(cfg, s, style, operation, args, Values.MakeParamsSpec(args).value, incoming);
    }
  }

  lemma {:induction false} TypedGood(cfg: Config, s: State, style: Paramstyle.Style, operation: string, args: seq<Values.Value>,
                                     params: seq<Values.Param>, incoming: seq<byte>)
    requires Good(cfg, s.link)
    ensures Good(cfg, Typed(cfg, s, style, operation, args, params, incoming).state.link)
  {
    var key := CacheKey(operation, params);
    match Lookup(CacheOf(s.link.caches, style), key)
    case Some(ps) =>
      ExecuteOfCached(cfg, s, style, operation, args, params, incoming);
      BoundGood(cfg, State(s.link.(executed := s.link.executed + [operation]), Buffer(Some(ps), -1, [])), args, params, incoming);
    case None =>
      ExecuteOfNew(cfg, s, style, operation, args, params, incoming);
      var p := Parsing(cfg, s, operation);
      var o := Messages(cfg, p, incoming);
      MessagesGood(cfg, p, incoming);
      if o.failure.None? {
        ParsedFresh(cfg, s, style, key, operation, incoming);
        BindingGood(cfg, o.state, style, key);
        BoundGood(cfg, Binding(cfg, o.state, style, key), args, params, o.rest);
      }
  }

  /** The bind round keeps the connection's invariant, whether or not the arguments convert. */
  lemma {:induction false} BoundGood(cfg: Config, s: State, args: seq<Values.Value>, params: seq<Values.Param>, incoming: seq<byte>)
    requires Good(cfg, s.link)
    ensures Good(cfg, Bound(cfg, s, args, params, incoming).state.link)
  {
    if BindValues(s, args, params).Ok? {
      MessagesGood(cfg, s, incoming);
    }
  }

  /** A statement that may join the caches under `key`: the key is missing and its number is above all cached. */
  predicate Fresh(caches: Caches, style: Paramstyle.Style, key: CacheKey, ps: Statement)
  {
    Lookup(CacheOf(caches, style), key).None? &&
    forall s1, i :: s1 in caches && 0 <= i < |caches[s1]| ==> caches[s1][i].ps.num < ps.num
  }

  /** After the parse round of a new statement, the statement may still join the caches. */
  lemma {:induction false} ParsedFresh(cfg: Config, s: State, style: Paramstyle.Style, key: CacheKey, operation: string, incoming: seq<byte>)
    requires Lookup(CacheOf(s.link.caches, style), key).None?
    ensures var o := Messages(cfg, Parsing(cfg, s, operation), incoming).state;
      o.cur.ps.Some? && Fresh(o.link.caches, style, key, o.cur.ps.value) &&
      o.cur.ps.value.nameBin == Frontend.StatementNameBin(cfg.pid, o.cur.ps.value.num)
  {
    var p := Parsing(cfg, s, operation);
    TopNumIsMax(s.link.caches);
    MessagesShrinks(cfg, p, incoming);
    StillFresh(s.link.caches, Messages(cfg, p, incoming).state.link.caches, style, key, p.cur.ps.value.num);
  }

  /** Caching a statement that may join keeps the connection's invariant. */
  lemma {:induction false} BindingGood(cfg: Config, s: State, style: Paramstyle.Style, key: CacheKey)
    requires Good(cfg, s.link) && s.cur.ps.Some? && Fresh(s.link.caches, style, key, s.cur.ps.value)
    requires s.cur.ps.value.nameBin == Frontend.StatementNameBin(cfg.pid, s.cur.ps.value.num)
    ensures Good(cfg, Binding(cfg, s, style, key).link)
  {
    RememberOk(cfg, s.link.caches, style, key, s.cur.ps.value);
  }

  lemma {:induction false} MessagesShrinks(cfg: Config, s: State, buf: seq<byte>)
    ensures Shrinks(s.link.caches, Messages(cfg, s, buf).state.link.caches)
  {
    DrainShrinks(cfg, s.(link := s.link.(error := None)), buf);
  }

  /** After dictionaries are kept or emptied, a missing key is still missing and a number above all is still above all. */
  lemma {:induction false} StillFresh(before: Caches, after: Caches, style: Paramstyle.Style, key: CacheKey, num: nat)
    requires Shrinks(before, after)
    requires Lookup(CacheOf(before, style), key).None?
    requires forall s1, i :: s1 in before && 0 <= i < |before[s1]| ==> before[s1][i].ps.num < num
    ensures Lookup(CacheOf(after, style), key).None?
    ensures forall s1, i :: s1 in after && 0 <= i < |after[s1]| ==> after[s1][i].ps.num < num
  {
    assert CacheOf(after, style) == [] || CacheOf(after, style) == CacheOf(before, style);
    assert forall s1, i :: s1 in after && 0 <= i < |after[s1]| ==> after[s1][i] == before[s1][i];
  }

  /** While no run has failed, the next parameter set runs from where the last left off and adds its row count. */
  lemma {:induction false} ManyStep(run: (State, Vals, seq<byte>) -> Outcome, s: State, sets: seq<Vals>, incoming: seq<byte>, i: nat)
    requires i < |sets| && Many(run, s, sets[..i], incoming).0.failure.None?
    ensures var (o, counts) := Many(run, s, sets[..i], incoming);
      var o2 := run(o.state, sets[i], o.rest);
      Many(run, s, sets[..i + 1], incoming) == (o2, counts + [o2.state.cur.rowCount])
  {
    assert sets[..i + 1][..i] == sets[..i];
  }

  /** Once a run fails, later parameter sets change nothing. */
  lemma {:induction false} ManyStops(run: (State, Vals, seq<byte>) -> Outcome, s: State, sets: seq<Vals>, incoming: seq<byte>, i: nat)
    requires i <= |sets| && Many(run, s, sets[..i], incoming).0.failure.Some?
    ensures Many(run, s, sets, incoming).0 == Many(run, s, sets[..i], incoming).0
    decreases |sets| - i
  {
    if i < |sets| {
      assert sets[..i + 1][..i] == sets[..i];
      ManyStops(run, s, sets, incoming, i + 1);
    } else {
      assert sets[..i] == sets;
    }
  }
}
