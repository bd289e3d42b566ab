/**
 * The input conversions a connection applies to result columns: the
 * `pg_types` table from type oid to converter, whose default for an oid it
 * does not list is `text_in`, and the converters themselves.
 */
module InAdapters {
  import opened Wrappers
  import Converters
  import Numerals
  import Bytes
  import Values
  import ArrayParse
  import ArrayRoundTrip

  /**
   * The converters `pg_types` names.  `LibraryIn` stands for one built on a
   * Python library type (`float`, `Decimal`, `datetime`, `uuid`, `ipaddress`,
   * `json`, the `timedelta` of `interval`, `int2vector`); the model keeps
   * only its name.
   */
  datatype InFunc =
    | TextIn | BoolIn | ByteaIn | IntIn
    | ArrayBoolIn | ArrayIntIn | ArrayTextIn
    | LibraryIn(name: string)

  /** `pg_types[oid]`: the listed converter, or `text_in` for any other oid. */
  function PgTypes(oid: int): InFunc
  {
    if oid == 16 then BoolIn
    else if oid == 17 then ByteaIn
    else if oid in {20, 21, 23, 26, 28} then IntIn
    else if oid == 22 then LibraryIn("vector_in")
    else if oid in {114, 3802} then LibraryIn("json_in")
    else if oid in {700, 701} then LibraryIn("float")
    else if oid == 869 then LibraryIn("inet_in")
    else if oid == 1000 then ArrayBoolIn
    else if oid in {1003, 1009, 1014, 1015, 1263} then ArrayTextIn
    else if oid in {1005, 1007, 1016} then ArrayIntIn
    else if oid in {1021, 1022} then LibraryIn("array_float_in")
    else if oid == 1082 then LibraryIn("date_in")
    else if oid == 1083 then LibraryIn("time_in")
    else if oid == 1114 then LibraryIn("timestamp_in")
    else if oid == 1184 then LibraryIn("timestamptz_in")
    else if oid == 1186 then LibraryIn("timedelta_in")
    else if oid == 1231 then LibraryIn("array_numeric_in")
    else if oid == 1700 then LibraryIn("numeric_in")
    else if oid == 2950 then LibraryIn("uuid_in")
    else TextIn  // 19, 25, 705, 829, 1042, 1043, 2275 and every unlisted oid
  }

  /** The element adapters of `array_bool_in`, `array_int_in` and `array_text_in`. */
  function BoolAdapter(s: string): Option<bool>
  {
    Some(Converters.BoolIn(s))
  }

  /** A parsed array as the nested Python lists it becomes, `NULL` as `None`. */
  function TreeValue<A>(t: ArrayParse.Tree<A>, leaf: A -> Values.Value): Values.Value
  {
    match t
    case Leaf(a) => leaf(a)
    case NullLeaf => Values.NoneValue
    case Node(kids) => Values.ListValue(seq(|kids|, k requires 0 <= k < |kids| => TreeValue(kids[k], leaf)))
  }

  function ArrayValue<A>(r: Result<ArrayParse.Tree<A>, ArrayParse.ParseError>, leaf: A -> Values.Value): Option<Values.Value>
  {
    if r.Ok? then Some(TreeValue(r.value, leaf)) else None
  }

  /** Applying a converter to a column's text; `None` is the exception it raises. */
  function Apply(f: InFunc, text: string): Option<Values.Value>
  {
    match f
    case TextIn => Some(Values.StrValue(Values.PlainStr, Converters.TextIn(text)))
    case BoolIn => Some(Values.BoolValue(Converters.BoolIn(text)))
    case ByteaIn =>
      var b := Converters.ByteaIn(text);
      if b.Ok? then Some(Values.BytesValue(b.value)) else None
    case IntIn =>
      var i := Converters.IntIn(text);
      if i.Some? then Some(Values.IntValue(i.value)) else None
    case ArrayBoolIn =>
      ArrayValue(ArrayParse.Parse(text, BoolAdapter), b => Values.BoolValue(b))
    case ArrayIntIn =>
      ArrayValue(ArrayParse.Parse(text, ArrayParse.IntAdapter), i => Values.IntValue(i))
    case ArrayTextIn =>
      ArrayValue(ArrayParse.Parse(text, ArrayRoundTrip.TextAdapter), s => Values.StrValue(Values.PlainStr, s))
    case LibraryIn(name) => Some(Values.OtherValue(name))
  }

  /** The Python value a parameter comes back as: `str` subclasses as `str`, `bytearray` as `bytes`. */
  function ReadBack(v: Values.Value): Values.Value
  {
    match v
    case StrValue(_, s) => Values.StrValue(Values.PlainStr, s)
    case ByteArrayValue(d) => Values.BytesValue(d)
    case _ => v
  }

  /** The parameters whose declared type is read back by a converter the model runs. */
  predicate ReadsBack(v: Values.Value)
  {
    v.StrValue? || v.BytesValue? || v.ByteArrayValue?
    || (v.IntValue? && Converters.MIN_INT8 < v.i < Converters.MAX_INT8)
  }

  /**
   * The text a parameter is sent as, given to the converter registered for
   * the oid it is declared with, yields the parameter again: strings,
   * `bytes` and integers of up to 64 bits survive a trip to the server and
   * back in the text format.
   */
  lemma {:induction false} SentValueReadBack(v: Values.Value)
    requires ReadsBack(v)
    ensures Values.ScalarParam(v).Ok?
    ensures var p := Values.ScalarParam(v).value;
      Values.SendValue(p.send, v).Ok? && Apply(PgTypes(p.oid), Values.SendValue(p.send, v).value) == Some(ReadBack(v))
  {
    match v
    case StrValue(k, s) =>
      var oid := if k.PlainStr? then 705 else if k.PGTextStr? then 25 else 1043;
      assert Values.ScalarParam(v) == Ok(Values.Param(oid, Values.TextOut));
      assert Values.SendValue(Values.TextOut, v) == Ok(s);
      assert PgTypes(oid) == TextIn;
    case BytesValue(d) =>
      assert Values.ScalarParam(v) == Ok(Values.Param(17, Values.BytesOut));
      assert Values.SendValue(Values.BytesOut, v) == Ok(Converters.BytesOut(d));
      BytesReadBack(d);
    case ByteArrayValue(d) =>
      assert Values.ScalarParam(v) == Ok(Values.Param(17, Values.BytesOut));
      assert Values.SendValue(Values.BytesOut, v) == Ok(Converters.BytesOut(d));
      BytesReadBack(d);
    case IntValue(i) =>
      var p := Values.InspectInt(i);
      assert Values.ScalarParam(v) == Ok(p);
      assert Values.SendValue(Values.IntOut, v) == Ok(Converters.IntOut(i));
      assert PgTypes(p.oid) == IntIn;
      IntReadBack(i);
  }

  lemma {:induction false} BytesReadBack(d: seq<Bytes.byte>)
    ensures Apply(ByteaIn, Converters.BytesOut(d)) == Some(Values.BytesValue(d))
  {
    Converters.ByteaRoundTrip(d);
  }

  lemma {:induction false} IntReadBack(i: int)
    ensures Apply(IntIn, Converters.IntOut(i)) == Some(Values.IntValue(i))
  {
    Converters.IntCodecRoundTrip(i, "");
  }

  /**
   * Booleans are the exception: `bool_out` sends `true`/`false`, the server
   * answers `t`/`f`, and `bool_in` reads only the latter.
   */
  lemma {:induction false} BoolReadsServerForm(b: bool)
    ensures Values.ScalarParam(Values.BoolValue(b)) == Ok(Values.Param(16, Values.BoolOut))
    ensures Apply(PgTypes(16), if b then "t" else "f") == Some(Values.BoolValue(b))
    ensures Apply(PgTypes(16), Converters.BoolOut(b)) == Some(Values.BoolValue(false))
  {
    Converters.BoolCodecsDisagree(b);
  }

  /** The array types the driver declares for its parameters are read back by the matching array converter. */
  lemma {:induction false} ArrayTypesMatchElements(elem: int)
    requires Values.ArrayOid(elem).Some?
    ensures var a := PgTypes(Values.ArrayOid(elem).value);
      (PgTypes(elem) == BoolIn ==> a == ArrayBoolIn)
      && (PgTypes(elem) == TextIn ==> a == ArrayTextIn)
      && (PgTypes(elem) == IntIn ==> a == ArrayIntIn)
    ensures forall w :: Values.IntArrayParam(w).Ok? ==> PgTypes(Values.IntArrayParam(w).value.oid) == ArrayIntIn
  {
  }
}
