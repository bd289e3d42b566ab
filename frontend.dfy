/**
 * The messages `Connection.execute` sends for one statement: the name a new
 * prepared statement gets, its Parse payload, and the Bind payload that
 * carries the parameter values, all in text format.
 */
module Frontend {
  import opened Wrappers
  import opened Bytes
  import opened Wire
  import Text
  import Numerals
  import Encodings
  import Values
  import InAdapters
  import DataRows

  /** Why building a message raised. */
  datatype SendError =
    | EncodeFailed                       // UnicodeEncodeError in the client encoding
    | StructError                        // struct.error: a count, oid or length does not fit its field
    | ParamFailed(e: Values.ParamError)  // the parameter's conversion raised

  /** The pseudo-type `unknown`, announced for parameters whose type is left to the server. */
  const UNKNOWN_OID: int := 705

  // ---------------------------------------------------------------------------
  // Statement names
  // ---------------------------------------------------------------------------

  /** `'_'.join(("pg8000", "statement", str(pid), str(statement_num)))`. */
  function StatementName(pid: nat, num: nat): (r: string)
    ensures forall k :: 0 <= k < |r| ==> 0 < r[k] as int < 0x80
  {
    "pg8000" + "_" + "statement" + "_" + Numerals.NatToString(pid) + "_" + Numerals.NatToString(num)
  }

  /** The name as sent: ASCII bytes and a closing NUL. */
  function StatementNameBin(pid: nat, num: nat): (r: seq<byte>)
    ensures r == Ascii(StatementName(pid, num)) + [NUL] && NUL !in Ascii(StatementName(pid, num))
  {
    Ascii(StatementName(pid, num)) + [NUL]
  }

  /** A digit string holds no underscore. */
  lemma {:induction false} DigitsNoUnderscore(n: nat)
    ensures '_' !in Numerals.NatToString(n)
  {
  }

  /** Splitting a statement name on `_` gives back its four parts. */
  lemma {:induction false} StatementNameParts(pid: nat, num: nat)
    ensures Text.SplitOn(StatementName(pid, num), '_') ==
      ["pg8000", "statement", Numerals.NatToString(pid), Numerals.NatToString(num)]
  {
    var p := Numerals.NatToString(pid);
    var n := Numerals.NatToString(num);
    DigitsNoUnderscore(pid);
    DigitsNoUnderscore(num);
    assert '_' !in "pg8000" && '_' !in "statement";
    Text.SplitOnSingle("pg8000", '_');
    Text.SplitOnNext("pg8000", "statement", '_');
    Text.SplitOnNext("pg8000" + "_" + "statement", p, '_');
    Text.SplitOnNext("pg8000" + "_" + "statement" + "_" + p, n, '_');
  }

  /** Different process ids or statement numbers never give the same statement name. */
  lemma {:induction false} StatementNameInjective(pid1: nat, num1: nat, pid2: nat, num2: nat)
    requires StatementName(pid1, num1) == StatementName(pid2, num2)
    ensures pid1 == pid2 && num1 == num2
  {
    StatementNameParts(pid1, num1);
    StatementNameParts(pid2, num2);
    Numerals.DigitsOfNat(pid1);
    Numerals.DigitsOfNat(pid2);
    Numerals.DigitsOfNat(num1);
    Numerals.DigitsOfNat(num2);
  }

  /** Different statement numbers of one process never give the same name bytes. */
  lemma {:induction false} StatementNameBinInjective(pid: nat, num1: nat, num2: nat)
    requires StatementNameBin(pid, num1) == StatementNameBin(pid, num2)
    ensures num1 == num2
  {
    var a := StatementName(pid, num1);
    var b := StatementName(pid, num2);
    assert |a| == |b|;
    forall k | 0 <= k < |a|
      ensures a[k] == b[k]
    {
      assert StatementNameBin(pid, num1)[k] == StatementNameBin(pid, num2)[k];
    }
    assert a == b;
    StatementNameInjective(pid, num1, pid, num2);
  }

  // ---------------------------------------------------------------------------
  // Parse
  // ---------------------------------------------------------------------------

  /** The type oid Parse announces: `unknown` in place of -1. */
  function ParseOid(oid: int): (r: int)
    ensures r != -1 && (oid != -1 ==> r == oid)
  {
    if oid == -1 then UNKNOWN_OID else oid
  }

  /** The type oids Parse announces, one per parameter. */
  function Oids(params: seq<Values.Param>): (r: seq<int>)
    ensures |r| == |params| && forall k :: 0 <= k < |params| ==> r[k] == ParseOid(params[k].oid)
  {
    seq(|params|, k requires 0 <= k < |params| => ParseOid(params[k].oid))
  }

  /** Every oid fits the int32 it is packed into. */
  predicate Int32s(oids: seq<int>)
  {
    oids == [] || (Int32s(oids[..|oids| - 1]) && IsInt32(oids[|oids| - 1]))
  }

  lemma {:induction false} Int32sAt(oids: seq<int>, k: nat)
    requires k < |oids|
    ensures Int32s(oids) ==> IsInt32(oids[k])
  {
    var n := |oids| - 1;
    if k < n {
      Int32sAt(oids[..n], k);
    }
  }

  /** One int32 type oid per parameter. */
  function OidBytes(oids: seq<int>): (r: seq<byte>)
    requires Int32s(oids)
    ensures |r| == 4 * |oids|
  {
    if oids == [] then [] else OidBytes(oids[..|oids| - 1]) + PackInt32(oids[|oids| - 1])
  }

  /** The Parse payload: statement name, query text and NUL, parameter count, one type oid per parameter. */
  function ParsePayload(nameBin: seq<byte>, codec: Encodings.Codec, statement: string, oids: seq<int>): Result<seq<byte>, SendError>
  {
    match Encodings.Encode(codec, statement)
    case None => Err(EncodeFailed)
    case Some(q) =>
      if !IsInt16(|oids|) || !Int32s(oids) then Err(StructError)
      else Ok(nameBin + q + [NUL] + PackInt16(|oids|) + OidBytes(oids))
  }

  /** Building the Parse payload as `execute` does, one oid at a time. */
  method WriteParse(nameBin: seq<byte>, codec: Encodings.Codec, statement: string, params: seq<Values.Param>)
    returns (r: Result<seq<byte>, SendError>)
    ensures r == ParsePayload(nameBin, codec, statement, Oids(params))
  {
    var q := Encodings.Encode(codec, statement);
    if q.None? {
      return Err(EncodeFailed);
    }
    if !IsInt16(|params|) {
      return Err(StructError);
    }
    ghost var oids := Oids(params);
    var head := nameBin + q.value + [NUL] + PackInt16(|params|);
    var val := head;
    for i := 0 to |params|
      invariant Int32s(oids[..i]) && val == head + OidBytes(oids[..i])
    {
      var oid := if params[i].oid == -1 then UNKNOWN_OID else params[i].oid;
      if !IsInt32(oid) {
        Int32sAt(oids, i);
        return Err(StructError);
      }
      assert oid == oids[i];
      OidBytesSnoc(oids, i);
      assert val + PackInt32(oid) == head + (OidBytes(oids[..i]) + PackInt32(oid));
      val := val + PackInt32(oid);
    }
    assert oids[..|params|] == oids;
    return Ok(val);
  }

  /** Writing one more oid extends the oid bytes by that oid. */
  lemma {:induction false} OidBytesSnoc(oids: seq<int>, i: nat)
    requires i < |oids| && Int32s(oids[..i]) && IsInt32(oids[i])
    ensures Int32s(oids[..i + 1]) && OidBytes(oids[..i + 1]) == OidBytes(oids[..i]) + PackInt32(oids[i])
  {
    assert oids[..i + 1][..i] == oids[..i];
  }

  /** Parse as the server reads it: the statement name, the query, the announced type oids. */
  datatype ParseMessage = ParseMessage(name: seq<byte>, query: seq<byte>, oids: seq<int>)

  /** `n` int32 oids from `at` on. */
  function ReadOids(data: seq<byte>, at: nat, n: nat): Result<seq<int>, WireError>
  {
    if at + 4 * n > |data| then Err(Truncated)
    else Ok(seq(n, k requires 0 <= k < n => UnpackInt32(data, at + 4 * k)))
  }

  function ReadParse(data: seq<byte>): Result<ParseMessage, WireError>
  {
    match FindNul(data, 0)
    case None => Err(Truncated)
    case Some(e) =>
      match FindNul(data, e + 1)
      case None => Err(Truncated)
      case Some(f) =>
        if f + 3 > |data| then Err(Truncated)
        else
          var n := UnpackInt16(data, f + 1);
          if n < 0 then Err(BadLength(n))
          else
            var oids :- ReadOids(data, f + 3, n);
            Ok(ParseMessage(data[..e], data[e + 1..f], oids))
  }

  /** The `k`th oid sits at offset `4 * k` of the oid bytes. */
  lemma {:induction false} OidBytesAt(oids: seq<int>, k: nat)
    requires Int32s(oids) && k < |oids|
    ensures IsInt32(oids[k]) && IsAt(OidBytes(oids), 4 * k, PackInt32(oids[k]))
  {
    Int32sAt(oids, k);
    var n := |oids| - 1;
    var init := oids[..n];
    assert OidBytes(oids) == OidBytes(init) + PackInt32(oids[n]);
    if k < n {
      OidBytesAt(init, k);
      assert OidBytes(oids)[4 * k..4 * k + 4] == OidBytes(init)[4 * k..4 * k + 4];
    }
  }

  /** The `k`th oid of oid bytes written at `at` is read back. */
  lemma {:induction false} OidAt(data: seq<byte>, at: nat, whole: seq<byte>, oids: seq<int>, k: nat)
    requires Int32s(oids) && whole == OidBytes(oids) && IsAt(data, at, whole) && k < |oids|
    ensures at + 4 * k + 4 <= |data| && UnpackInt32(data, at + 4 * k) == oids[k]
  {
    OidBytesAt(oids, k);
    IsAtNested(data, at, whole, 4 * k, PackInt32(oids[k]));
    Int32At(data, at + 4 * k, oids[k]);
  }

  /** Int32s that unpack one by one to the oids read back as the oids. */
  lemma {:induction false} ReadOidsOf(data: seq<byte>, at: nat, oids: seq<int>)
    requires at + 4 * |oids| <= |data|
    requires forall k :: 0 <= k < |oids| ==> UnpackInt32(data, at + 4 * k) == oids[k]
    ensures ReadOids(data, at, |oids|) == Ok(oids)
  {
    assert ReadOids(data, at, |oids|).value == oids;
  }

  /** Oid bytes written at `at` are read back as the oids. */
  lemma {:induction false} ReadOidsAt(data: seq<byte>, at: nat, oids: seq<int>)
    requires Int32s(oids) && IsAt(data, at, OidBytes(oids))
    ensures ReadOids(data, at, |oids|).Ok? && ReadOids(data, at, |oids|).value == oids
  {
    var whole := OidBytes(oids);
    forall k | 0 <= k < |oids|
      ensures UnpackInt32(data, at + 4 * k) == oids[k]
    {
      OidAt(data, at, whole, oids, k);
    }
    ReadOidsOf(data, at, oids);
  }

  /** `ReadParse` once the two terminators are found and the count and oids are in place. */
  lemma {:induction false} ReadParseUnfold(data: seq<byte>, name: seq<byte>, q: seq<byte>, oids: seq<int>)
    requires FindNul(data, 0).Some? && FindNul(data, 0).value == |name|
    requires FindNul(data, |name| + 1).Some? && FindNul(data, |name| + 1).value == |name| + 1 + |q|
    requires IsAt(data, 0, name) && IsAt(data, |name| + 1, q) && |name| + |q| + 4 <= |data|
    requires IsInt16(|oids|) && IsAt(data, |name| + |q| + 2, PackInt16(|oids|))
    requires Int32s(oids) && IsAt(data, |name| + |q| + 4, OidBytes(oids))
    ensures ReadParse(data) == Ok(ParseMessage(name, q, oids))
  {
    Int16At(data, |name| + |q| + 2, |oids|);
    ReadOidsAt(data, |name| + |q| + 4, oids);
    assert data[..|name|] == name;
  }

  /** Where the pieces of a Parse payload sit. */
  lemma {:induction false} ParseLayout(data: seq<byte>, name: seq<byte>, q: seq<byte>, count: seq<byte>, ob: seq<byte>)
    requires data == name + [NUL] + q + [NUL] + count + ob && |count| == 2
    ensures IsAt(data, 0, name + [NUL]) && IsAt(data, |name| + 1, q + [NUL])
    ensures IsAt(data, |name| + |q| + 2, count) && IsAt(data, |name| + |q| + 4, ob)
  {
    assert IsAt(data, 0, data);
    IsAtPieces(data, 0, name + [NUL] + q + [NUL] + count, ob);
    IsAtPieces(data, 0, name + [NUL] + q + [NUL], count);
    IsAtPieces(data, 0, name + [NUL] + q, [NUL]);
    IsAtPieces(data, 0, name + [NUL], q);
    IsAtJoin(data, |name| + 1, q, [NUL]);
  }

  /** `ReadParse` on bytes that hold a name, a query, a count and the oids. */
  lemma {:induction false} ReadParseAt(data: seq<byte>, name: seq<byte>, q: seq<byte>, oids: seq<int>)
    requires NUL !in name && NUL !in q && IsInt16(|oids|) && Int32s(oids)
    requires IsAt(data, 0, name + [NUL]) && IsAt(data, |name| + 1, q + [NUL])
    requires IsAt(data, |name| + |q| + 2, PackInt16(|oids|)) && IsAt(data, |name| + |q| + 4, OidBytes(oids))
    ensures ReadParse(data) == Ok(ParseMessage(name, q, oids))
  {
    NameQueryAt(data, name, q);
    ReadParseUnfold(data, name, q, oids);
  }

  /** Two NUL-terminated strings at the start of `data` are found by their terminators. */
  lemma {:induction false} NameQueryAt(data: seq<byte>, name: seq<byte>, q: seq<byte>)
    requires NUL !in name && NUL !in q
    requires IsAt(data, 0, name + [NUL]) && IsAt(data, |name| + 1, q + [NUL])
    ensures FindNul(data, 0).Some? && FindNul(data, 0).value == |name|
    ensures FindNul(data, |name| + 1).Some? && FindNul(data, |name| + 1).value == |name| + 1 + |q|
    ensures IsAt(data, 0, name) && IsAt(data, |name| + 1, q)
  {
    CStringAt(data, 0, name);
    CStringAt(data, |name| + 1, q);
  }

  /** The server reads a Parse payload back as its name, query and oids. */
  lemma {:induction false} ParseRoundTrip(name: seq<byte>, q: seq<byte>, oids: seq<int>)
    requires NUL !in name && NUL !in q && IsInt16(|oids|) && Int32s(oids)
    ensures ReadParse(name + [NUL] + q + [NUL] + PackInt16(|oids|) + OidBytes(oids)) == Ok(ParseMessage(name, q, oids))
  {
    var data := name + [NUL] + q + [NUL] + PackInt16(|oids|) + OidBytes(oids);
    ParseLayout(data, name, q, PackInt16(|oids|), OidBytes(oids));
    ReadParseAt(data, name, q, oids);
  }

  /**
   * The Parse payload `execute` builds for a new statement is read by the
   * server as that statement's name, the query in the client encoding, and
   * one oid per parameter with -1 announced as `unknown`.
   */
  lemma {:induction false} ParseReadBack(pid: nat, num: nat, codec: Encodings.Codec, statement: string, params: seq<Values.Param>)
    requires ParsePayload(StatementNameBin(pid, num), codec, statement, Oids(params)).Ok?
    requires Encodings.Encode(codec, statement).Some? && NUL !in Encodings.Encode(codec, statement).value
    ensures ReadParse(ParsePayload(StatementNameBin(pid, num), codec, statement, Oids(params)).value) ==
      Ok(ParseMessage(Ascii(StatementName(pid, num)), Encodings.Encode(codec, statement).value, Oids(params)))
  {
    ParseRoundTrip(Ascii(StatementName(pid, num)), Encodings.Encode(codec, statement).value, Oids(params));
  }

  // ---------------------------------------------------------------------------
  // Bind
  // ---------------------------------------------------------------------------

  /** `n` int16 format codes, all 0 (text). */
  function FormatCodes(n: nat): (r: seq<byte>)
    ensures |r| == 2 * n
  {
    if n == 0 then [] else FormatCodes(n - 1) + PackInt16(0)
  }

  /**
   * `bind_1`: the unnamed portal, the statement name, `n` text format codes
   * and the count of values that follow.
   */
  function Bind1(nameBin: seq<byte>, n: nat): (r: seq<byte>)
    requires IsInt16(n)
    ensures |r| >= 2 && r[|r| - 2..] == PackInt16(n)
  {
    [NUL] + nameBin + PackInt16(n) + FormatCodes(n) + PackInt16(n)
  }

  /** `bind_2`: `m` text format codes for the result columns. */
  function Bind2(m: nat): seq<byte>
    requires IsInt16(m)
  {
    PackInt16(m) + FormatCodes(m)
  }

  /** The conversion each parameter's send function performs. */
  type Sender = (Values.SendFunc, Values.Value) -> Result<string, Values.ParamError>

  /** One parameter value: `None` is NULL; anything else is converted, then encoded. */
  function BindValue(codec: Encodings.Codec, send: Sender, f: Values.SendFunc, v: Values.Value): (r: Result<Option<seq<byte>>, SendError>)
    ensures r.Ok? ==> FieldFits(r.value) && (r.value.None? <==> v.NoneValue?)
  {
    if v.NoneValue? then Ok(None)
    else
      match send(f, v)
      case Err(e) => Err(ParamFailed(e))
      case Ok(s) =>
        match Encodings.Encode(codec, s)
        case None => Err(EncodeFailed)
        case Some(b) => if IsInt32(|b|) then Ok(Some(b)) else Err(StructError)
  }

  /** The first `n` values, each with its conversion; the first failure stops the loop. */
  function BindFold(codec: Encodings.Codec, send: Sender, args: seq<Values.Value>, funcs: seq<Values.SendFunc>, n: nat)
    : (r: Result<seq<Option<seq<byte>>>, SendError>)
    requires n <= |args| && n <= |funcs|
    ensures r.Ok? ==> |r.value| == n && DataRows.FieldsFit(r.value)
  {
    if n == 0 then Ok([])
    else
      var encs :- BindFold(codec, send, args, funcs, n - 1);
      var enc :- BindValue(codec, send, funcs[n - 1], args[n - 1]);
      assert (encs + [enc])[..n - 1] == encs;
      Ok(encs + [enc])
  }

  function Min(a: nat, b: nat): nat
  {
    if a < b then a else b
  }

  /** The Bind payload: `bind_1`, the values of `zip(args, param_funcs)`, `bind_2`. */
  function BindPayload(bind1: seq<byte>, bind2: seq<byte>, codec: Encodings.Codec, send: Sender, args: seq<Values.Value>, funcs: seq<Values.SendFunc>)
    : Result<seq<byte>, SendError>
  {
    var encs :- BindFold(codec, send, args, funcs, Min(|args|, |funcs|));
    Ok(bind1 + DataRows.Fields(encs) + bind2)
  }

  lemma {:induction false} BindFoldErrSticky(codec: Encodings.Codec, send: Sender, args: seq<Values.Value>, funcs: seq<Values.SendFunc>, i: nat, n: nat)
    requires i <= n <= |args| && n <= |funcs| && BindFold(codec, send, args, funcs, i).Err?
    ensures BindFold(codec, send, args, funcs, n) == BindFold(codec, send, args, funcs, i)
    decreases n - i
  {
    if i < n {
      BindFoldErrSticky(codec, send, args, funcs, i, n - 1);
    }
  }

  /** One more value converted: the fold and its bytes grow by that value. */
  lemma {:induction false} BindFoldSnoc(codec: Encodings.Codec, send: Sender, args: seq<Values.Value>, funcs: seq<Values.SendFunc>, i: nat,
                     encs: seq<Option<seq<byte>>>, enc: Option<seq<byte>>)
    requires i < |args| && i < |funcs| && BindFold(codec, send, args, funcs, i).Ok? && BindFold(codec, send, args, funcs, i).value == encs
    requires BindValue(codec, send, funcs[i], args[i]).Ok? && BindValue(codec, send, funcs[i], args[i]).value == enc
    ensures BindFold(codec, send, args, funcs, i + 1) == Ok(encs + [enc])
  {
    assert (encs + [enc])[..i] == encs;
  }

  /** A buffer holding fields, extended by one more field. */
  lemma {:induction false} FieldsSnoc(head: seq<byte>, encs: seq<Option<seq<byte>>>, enc: Option<seq<byte>>)
    requires DataRows.FieldsFit(encs) && FieldFits(enc)
    ensures DataRows.FieldsFit(encs + [enc]) && head + DataRows.Fields(encs + [enc]) == head + DataRows.Fields(encs) + Field(enc)
  {
    assert (encs + [enc])[..|encs|] == encs;
  }

  /** A value that fails to convert fails the whole payload. */
  lemma {:induction false} BindFoldFails(bind1: seq<byte>, bind2: seq<byte>, codec: Encodings.Codec, send: Sender, args: seq<Values.Value>, funcs: seq<Values.SendFunc>, i: nat, e: SendError)
    requires i < Min(|args|, |funcs|) && BindFold(codec, send, args, funcs, i).Ok?
    requires BindValue(codec, send, funcs[i], args[i]) == Err(e)
    ensures BindPayload(bind1, bind2, codec, send, args, funcs) == Err(e)
  {
    BindFoldErrSticky(codec, send, args, funcs, i + 1, Min(|args|, |funcs|));
  }

  /** Every value converted: the payload is `bind_1`, the fields, `bind_2`. */
  lemma {:induction false} BindFoldDone(bind1: seq<byte>, bind2: seq<byte>, codec: Encodings.Codec, send: Sender, args: seq<Values.Value>, funcs: seq<Values.SendFunc>, encs: seq<Option<seq<byte>>>)
    requires BindFold(codec, send, args, funcs, Min(|args|, |funcs|)) == Ok(encs)
    ensures BindPayload(bind1, bind2, codec, send, args, funcs) == Ok(bind1 + DataRows.Fields(encs) + bind2)
  {
  }

  /** The bytes one parameter adds to the Bind payload, as the body of `execute`'s value loop builds them. */
  method WriteValue(codec: Encodings.Codec, send: Sender, f: Values.SendFunc, v: Values.Value)
    returns (r: Result<seq<byte>, SendError>)
    ensures r.Err? <==> BindValue(codec, send, f, v).Err?
    ensures r.Err? ==> r.error == BindValue(codec, send, f, v).error
    ensures r.Ok? ==> r.value == Field(BindValue(codec, send, f, v).value)
  {
    if v.NoneValue? {
      return Ok(PackInt32(-1));
    }
    var s := send(f, v);
    if s.Err? {
      return Err(ParamFailed(s.error));
    }
    var b := Encodings.Encode(codec, s.value);
    if b.None? {
      return Err(EncodeFailed);
    }
    if !IsInt32(|b.value|) {
      return Err(StructError);
    }
    return Ok(PackInt32(|b.value|) + b.value);
  }

  /** Building the Bind payload as `execute` does, extending a byte buffer value by value. */
  method WriteBind(bind1: seq<byte>, bind2: seq<byte>, codec: Encodings.Codec, send: Sender, args: seq<Values.Value>, funcs: seq<Values.SendFunc>)
    returns (r: Result<seq<byte>, SendError>)
    ensures r == BindPayload(bind1, bind2, codec, send, args, funcs)
  {
    var n := Min(|args|, |funcs|);
    var retval := bind1;
    ghost var encs: seq<Option<seq<byte>>> := [];
    for i := 0 to n
      invariant BindFold(codec, send, args, funcs, i).Ok? && BindFold(codec, send, args, funcs, i).value == encs && retval == bind1 + DataRows.Fields(encs)
    {
      var val := WriteValue(codec, send, funcs[i], args[i]);
      if val.Err? {
        BindFoldFails(bind1, bind2, codec, send, args, funcs, i, val.error);
        return Err(val.error);
      }
      ghost var enc := BindValue(codec, send, funcs[i], args[i]).value;
      BindFoldSnoc(codec, send, args, funcs, i, encs, enc);
      FieldsSnoc(bind1, encs, enc);
      retval := retval + val.value;
      encs := encs + [enc];
    }
    BindFoldDone(bind1, bind2, codec, send, args, funcs, encs);
    return Ok(retval + bind2);
  }

  /** Whether the loop succeeds, and what it produces, is decided value by value. */
  lemma {:induction false} BindFoldPointwise(codec: Encodings.Codec, send: Sender, args: seq<Values.Value>, funcs: seq<Values.SendFunc>, n: nat)
    requires n <= |args| && n <= |funcs|
    ensures BindFold(codec, send, args, funcs, n).Ok? <==> forall k :: 0 <= k < n ==> BindValue(codec, send, funcs[k], args[k]).Ok?
    ensures BindFold(codec, send, args, funcs, n).Ok? ==>
      forall k :: 0 <= k < n ==> BindFold(codec, send, args, funcs, n).value[k] == BindValue(codec, send, funcs[k], args[k]).value
  {
    if n > 0 {
      BindFoldPointwise(codec, send, args, funcs, n - 1);
      BindFoldStep(codec, send, args, funcs, n);
    }
  }

  /** The fold of `n` values is the fold of `n - 1` and the last value. */
  lemma {:induction false} BindFoldStep(codec: Encodings.Codec, send: Sender, args: seq<Values.Value>, funcs: seq<Values.SendFunc>, n: nat)
    requires 0 < n <= |args| && n <= |funcs|
    ensures BindFold(codec, send, args, funcs, n).Ok? <==>
      BindFold(codec, send, args, funcs, n - 1).Ok? && BindValue(codec, send, funcs[n - 1], args[n - 1]).Ok?
    ensures BindFold(codec, send, args, funcs, n).Ok? ==>
      BindFold(codec, send, args, funcs, n).value ==
      BindFold(codec, send, args, funcs, n - 1).value + [BindValue(codec, send, funcs[n - 1], args[n - 1]).value]
  {
  }

  /** The server's view of one parameter value: NULL, or the bytes as sent. */
  function RawIn(): DataRows.Conv
  {
    (func, b) => Ok(Values.BytesValue(b))
  }

  function Raw(encs: seq<Option<seq<byte>>>): (r: seq<Values.Value>)
    ensures |r| == |encs|
  {
    seq(|encs|, k requires 0 <= k < |encs| => if encs[k].None? then Values.NoneValue else Values.BytesValue(encs[k].value))
  }

  /** One reader per value; the raw view ignores which. */
  function RawReaders(n: nat): (r: seq<InAdapters.InFunc>)
    ensures |r| == n
  {
    seq(n, k => InAdapters.TextIn)
  }

  /** Every value converts to itself, as sent. */
  lemma {:induction false} RawConverts(encs: seq<Option<seq<byte>>>)
    ensures DataRows.Converts(RawIn(), RawReaders(|encs|), encs, Raw(encs))
  {
    var funcs := RawReaders(|encs|);
    var cells := Raw(encs);
    forall k | 0 <= k < |encs|
      ensures DataRows.ConvertsTo(RawIn(), funcs[k], encs[k], cells[k])
    {
    }
    DataRows.ConvertsPointwise(RawIn(), funcs, encs, cells);
  }

  /** Cutting `bind_1` down to its last two bytes leaves the value count. */
  lemma {:induction false} BindFromCount(b1: seq<byte>, count: seq<byte>, fields: seq<byte>, b2: seq<byte>)
    requires |b1| >= 2 && b1[|b1| - 2..] == count
    ensures (b1 + fields + b2)[|b1| - 2..] == count + fields + b2
  {
  }

  /**
   * Read from its value count on, a Bind payload gives back the number of
   * values and each value as sent: NULL for `None`, otherwise its bytes.
   */
  lemma {:induction false} BindReadBack(nameBin: seq<byte>, encs: seq<Option<seq<byte>>>, m: nat)
    requires IsInt16(|encs|) && IsInt16(m) && DataRows.FieldsFit(encs)
    ensures var b1 := Bind1(nameBin, |encs|);
      var data := (b1 + DataRows.Fields(encs) + Bind2(m))[|b1| - 2..];
      UnpackInt16(data, 0) == |encs| && DataRows.RowOf(data, RawIn(), RawReaders(|encs|)) == Ok(Raw(encs))
  {
    var b1 := Bind1(nameBin, |encs|);
    var count := PackInt16(|encs|);
    var fields := DataRows.Fields(encs);
    var b2 := Bind2(m);
    BindFromCount(b1, count, fields, b2);
    var data := count + fields + b2;
    assert (b1 + fields + b2)[|b1| - 2..] == data;
    assert IsAt(data, 0, count);
    Int16At(data, 0, |encs|);
    RawConverts(encs);
    DataRows.RowOfFieldsThen(count, RawIn(), RawReaders(|encs|), encs, Raw(encs), b2);
  }
}
