/**
 * The first thing a connection sends: the connection parameters checked and
 * encoded as `Connection.__init__` does, then laid out after the protocol
 * version as NUL-terminated name/value pairs closed by an empty name.
 */
module Startup {
  import opened Wrappers
  import opened Bytes
  import opened Wire
  import Utf8

  /** Protocol version 3.0, as the packet announces it. */
  const PROTOCOL_VERSION: int := 196608

  /** A connection argument: a `str`, `bytes`/`bytearray`, `None`, or an object of some other type. */
  datatype Arg = StrArg(s: string) | BytesArg(b: seq<byte>) | NoneArg | OtherArg(typeName: string)

  datatype ConnectError =
    | UserIsNone                                   // InterfaceError: the 'user' parameter cannot be None
    | BadParamType(key: string, typeName: string)  // InterfaceError: the parameter can't be of that type
    | PacketTooLong                                // struct.error: the length does not fit its int32 field

  /** A name and the bytes it is sent with. */
  type Pair = (string, seq<byte>)

  // ---------------------------------------------------------------------------
  // Normalising the parameters
  // ---------------------------------------------------------------------------

  /** One pass of the parameter loop: `str` is encoded as UTF-8, bytes are kept, `None` is dropped, anything else raises. */
  function NormaliseStep(acc: seq<Pair>, k: string, v: Arg): (r: Result<seq<Pair>, ConnectError>)
    ensures r.Ok? ==> acc <= r.value
  {
    match v
    case StrArg(s) => Ok(acc + [(k, Utf8.Encode(s))])
    case BytesArg(b) => Ok(acc + [(k, b)])
    case NoneArg => Ok(acc)
    case OtherArg(t) => Err(BadParamType(k, t))
  }

  /** The parameter loop over `args` in order; the first unsupported value stops it. */
  function Normalised(args: seq<(string, Arg)>): Result<seq<Pair>, ConnectError>
  {
    if args == [] then Ok([])
    else
      var acc :- Normalised(args[..|args| - 1]);
      NormaliseStep(acc, args[|args| - 1].0, args[|args| - 1].1)
  }

  lemma {:induction false} NormalisedErrSticky(args: seq<(string, Arg)>, i: nat)
    requires i <= |args| && Normalised(args[..i]).Err?
    ensures Normalised(args) == Normalised(args[..i])
    decreases |args| - i
  {
    if i < |args| {
      assert args[..i + 1][..i] == args[..i];
      NormalisedErrSticky(args, i + 1);
    } else {
      assert args[..i] == args;
    }
  }

  /** The loop of `Connection.__init__` that rewrites `init_params` in place. */
  method NormaliseParams(args: seq<(string, Arg)>) returns (r: Result<seq<Pair>, ConnectError>)
    ensures r == Normalised(args)
  {
    var acc: seq<Pair> := [];
    for i := 0 to |args|
      invariant Normalised(args[..i]) == Ok(acc)
    {
      assert args[..i + 1][..i] == args[..i];
      var (k, v) := args[i];
      match v {
        case StrArg(s) => acc := acc + [(k, Utf8.Encode(s))];
        case BytesArg(b) => acc := acc + [(k, b)];
        case NoneArg =>
        case OtherArg(t) =>
          NormalisedErrSticky(args, i + 1);
          return Err(BadParamType(k, t));
      }
    }
    assert args[..|args|] == args;
    return Ok(acc);
  }

  /** The parameters in the order the driver lists them. */
  function Args(user: Arg, database: Arg, applicationName: Arg, replication: Arg): seq<(string, Arg)>
  {
    [("user", user), ("database", database), ("application_name", applicationName), ("replication", replication)]
  }

  /** The parameters the packet carries: the user is required, then each is normalised. */
  function InitParams(user: Arg, database: Arg, applicationName: Arg, replication: Arg): Result<seq<Pair>, ConnectError>
  {
    if user.NoneArg? then Err(UserIsNone)
    else Normalised(Args(user, database, applicationName, replication))
  }

  /** What one argument contributes: nothing for `None`, otherwise its name and bytes. */
  function Present(k: string, v: Arg): seq<Pair>
    requires !v.OtherArg?
  {
    match v
    case StrArg(s) => [(k, Utf8.Encode(s))]
    case BytesArg(b) => [(k, b)]
    case NoneArg => []
  }

  /**
   * A missing user and then the first argument of an unsupported type (in the
   * order user, database, application_name, replication) are the errors;
   * otherwise every argument that is not `None` is sent, in that order.
   */
  lemma {:induction false} InitParamsMeaning(user: Arg, database: Arg, applicationName: Arg, replication: Arg)
    ensures user.NoneArg? ==> InitParams(user, database, applicationName, replication) == Err(UserIsNone)
    ensures user.OtherArg? ==> InitParams(user, database, applicationName, replication) == Err(BadParamType("user", user.typeName))
    ensures !user.NoneArg? && !user.OtherArg? && database.OtherArg? ==>
      InitParams(user, database, applicationName, replication) == Err(BadParamType("database", database.typeName))
    ensures !user.NoneArg? && !user.OtherArg? && !database.OtherArg? && applicationName.OtherArg? ==>
      InitParams(user, database, applicationName, replication) == Err(BadParamType("application_name", applicationName.typeName))
    ensures !user.NoneArg? && !user.OtherArg? && !database.OtherArg? && !applicationName.OtherArg? && replication.OtherArg? ==>
      InitParams(user, database, applicationName, replication) == Err(BadParamType("replication", replication.typeName))
    ensures !user.NoneArg? && !user.OtherArg? && !database.OtherArg? && !applicationName.OtherArg? && !replication.OtherArg? ==>
      InitParams(user, database, applicationName, replication) ==
        Ok(Present("user", user) + Present("database", database) + Present("application_name", applicationName) + Present("replication", replication))
  {
    var a1 := [("user", user)];
    var a2 := a1 + [("database", database)];
    var a3 := a2 + [("application_name", applicationName)];
    var args := a3 + [("replication", replication)];
    assert args == Args(user, database, applicationName, replication);
    NormalisedSnoc([], "user", user);
    NormalisedSnoc(a1, "database", database);
    NormalisedSnoc(a2, "application_name", applicationName);
    NormalisedSnoc(a3, "replication", replication);
    if !user.NoneArg? && !user.OtherArg? && !database.OtherArg? && !applicationName.OtherArg? && !replication.OtherArg? {
      var p1 := Present("user", user);
      var p2 := p1 + Present("database", database);
      var p3 := p2 + Present("application_name", applicationName);
      StepPresent([], "user", user);
      assert [] + p1 == p1;
      StepPresent(p1, "database", database);
      StepPresent(p2, "application_name", applicationName);
      StepPresent(p3, "replication", replication);
    }
  }

  /** A supported argument adds exactly what it contributes. */
  lemma {:induction false} StepPresent(acc: seq<Pair>, k: string, v: Arg)
    requires !v.OtherArg?
    ensures NormaliseStep(acc, k, v) == Ok(acc + Present(k, v))
  {
    if v.NoneArg? {
      assert acc + [] == acc;
    }
  }

  /** The loop over one more argument is the loop so far, then one more step. */
  lemma {:induction false} NormalisedSnoc(args: seq<(string, Arg)>, k: string, v: Arg)
    ensures Normalised(args + [(k, v)]) ==
      (match Normalised(args) case Ok(acc) => NormaliseStep(acc, k, v) case Err(e) => Err(e))
  {
    assert (args + [(k, v)])[..|args|] == args;
  }

  // ---------------------------------------------------------------------------
  // The packet
  // ---------------------------------------------------------------------------

  predicate AsciiKeys(ps: seq<Pair>)
  {
    forall k :: 0 <= k < |ps| ==> AsciiText(ps[k].0)
  }

  /** One name/value pair: the name, NUL, the value, NUL. */
  function PairBytes(p: Pair): (r: seq<byte>)
    requires AsciiText(p.0)
    ensures |r| == |p.0| + |p.1| + 2
  {
    Ascii(p.0) + [NUL] + p.1 + [NUL]
  }

  /** The pairs laid end to end. */
  function Pairs(ps: seq<Pair>): seq<byte>
    requires AsciiKeys(ps)
  {
    if ps == [] then [] else PairBytes(ps[0]) + Pairs(ps[1..])
  }

  lemma {:induction false} PairsAppend(ps: seq<Pair>, p: Pair)
    requires AsciiKeys(ps) && AsciiText(p.0)
    ensures AsciiKeys(ps + [p]) && Pairs(ps + [p]) == Pairs(ps) + PairBytes(p)
  {
    if ps == [] {
      assert [p][1..] == [];
    } else {
      assert (ps + [p])[1..] == ps[1..] + [p];
      PairsAppend(ps[1..], p);
    }
  }

  /** The packet after its length field: the protocol version, the pairs, and the closing zero byte. */
  function StartupBody(ps: seq<Pair>): seq<byte>
    requires AsciiKeys(ps)
  {
    PackInt32(PROTOCOL_VERSION) + Pairs(ps) + [NUL]
  }

  /** The startup packet: its length counting the length field itself, then the body. */
  function StartupPacket(ps: seq<Pair>): Result<seq<byte>, ConnectError>
    requires AsciiKeys(ps)
  {
    var body := StartupBody(ps);
    if IsInt32(|body| + 4) then Ok(PackInt32(|body| + 4) + body) else Err(PacketTooLong)
  }

  /** Building the packet as `Connection.__init__` does, extending a byte buffer pair by pair. */
  method WriteStartup(ps: seq<Pair>) returns (r: Result<seq<byte>, ConnectError>)
    requires AsciiKeys(ps)
    ensures r == StartupPacket(ps)
  {
    var val := PackInt32(PROTOCOL_VERSION);
    for i := 0 to |ps|
      invariant AsciiKeys(ps[..i]) && val == PackInt32(PROTOCOL_VERSION) + Pairs(ps[..i])
    {
      assert ps[..i + 1] == ps[..i] + [ps[i]];
      PairsAppend(ps[..i], ps[i]);
      val := val + (Ascii(ps[i].0) + [NUL] + ps[i].1 + [NUL]);
    }
    assert ps[..|ps|] == ps;
    val := val + [NUL];
    if !IsInt32(|val| + 4) {
      return Err(PacketTooLong);
    }
    return Ok(PackInt32(|val| + 4) + val);
  }

  // ---------------------------------------------------------------------------
  // Reading the packet back, as the server does
  // ---------------------------------------------------------------------------

  datatype StartupMessage = StartupMessage(length: int, version: int, params: seq<(seq<byte>, seq<byte>)>)

  /** NUL-terminated names and values from `at` on, up to the empty name that closes them. */
  function ReadPairs(data: seq<byte>, at: nat): Result<seq<(seq<byte>, seq<byte>)>, WireError>
    decreases |data| - at
  {
    match FindNul(data, at)
    case None => Err(Truncated)
    case Some(e) =>
      if e == at then Ok([])
      else
        match FindNul(data, e + 1)
        case None => Err(Truncated)
        case Some(f) =>
          var rest :- ReadPairs(data, f + 1);
          Ok([(data[at..e], data[e + 1..f])] + rest)
  }

  function ReadStartup(data: seq<byte>): Result<StartupMessage, WireError>
  {
    if |data| < 8 then Err(Truncated)
    else
      var ps :- ReadPairs(data, 8);
      Ok(StartupMessage(UnpackInt32(data, 0), UnpackInt32(data, 4), ps))
  }

  /** Names and values that can travel as C strings: names non-empty, neither holding a NUL. */
  predicate Sendable(ps: seq<Pair>)
  {
    forall k :: 0 <= k < |ps| ==>
      AsciiText(ps[k].0) && |ps[k].0| > 0 && '\0' !in ps[k].0 && NUL !in ps[k].1
  }

  /** The pairs as bytes on the wire. */
  function Sent(ps: seq<Pair>): (r: seq<(seq<byte>, seq<byte>)>)
    requires AsciiKeys(ps)
    ensures |r| == |ps|
  {
    seq(|ps|, k requires 0 <= k < |ps| => (Ascii(ps[k].0), ps[k].1))
  }

  lemma {:induction false} AsciiNoNul(s: string)
    requires AsciiText(s) && '\0' !in s
    ensures NUL !in Ascii(s)
  {
  }

  /** Where the name and the value end decides what one round of `ReadPairs` reads. */
  lemma {:induction false} ReadPairsUnfold(data: seq<byte>, at: nat, e: nat, f: nat, rest: seq<(seq<byte>, seq<byte>)>)
    requires FindNul(data, at) == Some(e) && e > at && FindNul(data, e + 1) == Some(f)
    requires ReadPairs(data, f + 1) == Ok(rest)
    ensures ReadPairs(data, at) == Ok([(data[at..e], data[e + 1..f])] + rest)
  {
  }

  /** A name and a value sitting at `at`, each NUL-terminated, end at their terminators `e` and `f`. */
  lemma {:induction false} PairAt(data: seq<byte>, at: nat, key: seq<byte>, v: seq<byte>, e: nat, f: nat)
    requires NUL !in key && NUL !in v && IsAt(data, at, key + [NUL] + (v + [NUL]))
    requires e == at + |key| && f == e + 1 + |v|
    ensures FindNul(data, at) == Some(e) && FindNul(data, e + 1) == Some(f)
    ensures e < f < |data| && data[at..e] == key && data[e + 1..f] == v
  {
    IsAtPieces(data, at, key + [NUL], v + [NUL]);
    IsAtPieces(data, at, key, [NUL]);
    IsAtPieces(data, e + 1, v, [NUL]);
    FindNulAt(data, at, key);
    FindNulAt(data, e + 1, v);
  }

  /** One pair sitting at `at` is read as its name and value, and reading goes on after it. */
  lemma {:induction false} ReadPairsStep(data: seq<byte>, at: nat, key: seq<byte>, v: seq<byte>, next: nat, rest: seq<(seq<byte>, seq<byte>)>)
    requires |key| > 0 && NUL !in key && NUL !in v && IsAt(data, at, key + [NUL] + (v + [NUL]))
    requires next == at + |key| + |v| + 2 && ReadPairs(data, next) == Ok(rest)
    ensures ReadPairs(data, at) == Ok([(key, v)] + rest)
  {
    var e := at + |key|;
    var f := e + 1 + |v|;
    PairAt(data, at, key, v, e, f);
    assert f + 1 == next;
    ReadPairsUnfold(data, at, e, f, rest);
  }

  /** The bytes of a non-empty list of pairs: the first pair, then the rest. */
  lemma {:induction false} PairsCons(ps: seq<Pair>)
    requires AsciiKeys(ps) && ps != []
    ensures Pairs(ps) + [NUL] == Ascii(ps[0].0) + [NUL] + (ps[0].1 + [NUL]) + (Pairs(ps[1..]) + [NUL])
    ensures Sent(ps) == [(Ascii(ps[0].0), ps[0].1)] + Sent(ps[1..])
  {
  }

  lemma {:induction false} ReadPairsAt(data: seq<byte>, at: nat, ps: seq<Pair>)
    requires Sendable(ps) && IsAt(data, at, Pairs(ps) + [NUL])
    ensures ReadPairs(data, at) == Ok(Sent(ps))
    decreases |ps|
  {
    if ps == [] {
      FindNulAt(data, at, []);
    } else {
      var key := Ascii(ps[0].0);
      var v := ps[0].1;
      PairsCons(ps);
      IsAtPieces(data, at, key + [NUL] + (v + [NUL]), Pairs(ps[1..]) + [NUL]);
      AsciiNoNul(ps[0].0);
      ReadPairsAt(data, at + |key| + |v| + 2, ps[1..]);
      ReadPairsStep(data, at, key, v, at + |key| + |v| + 2, Sent(ps[1..]));
    }
  }

  /**
   * The server reads back the length of the whole packet, protocol version
   * 3.0 and every pair in order, names as their ASCII bytes.
   */
  lemma {:induction false} StartupRoundTrip(ps: seq<Pair>)
    requires Sendable(ps) && StartupPacket(ps).Ok?
    ensures var packet := StartupPacket(ps).value;
      ReadStartup(packet) == Ok(StartupMessage(|packet|, PROTOCOL_VERSION, Sent(ps)))
  {
    var body := StartupBody(ps);
    var len := PackInt32(|body| + 4);
    var packet := len + body;
    assert packet == len + PackInt32(PROTOCOL_VERSION) + (Pairs(ps) + [NUL]);
    IsAtPieces(packet, 0, len + PackInt32(PROTOCOL_VERSION), Pairs(ps) + [NUL]);
    IsAtPieces(packet, 0, len, PackInt32(PROTOCOL_VERSION));
    Int32At(packet, 0, |body| + 4);
    Int32At(packet, 4, PROTOCOL_VERSION);
    ReadPairsAt(packet, 8, ps);
  }
}
