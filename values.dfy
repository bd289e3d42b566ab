/**
 * Python parameter values and how the driver chooses a PostgreSQL type and a
 * text conversion for each (`make_params`, `inspect_int`, `array_inspect`),
 * together with the array helpers and the `{…}` array-literal writer
 * `_walk_array`.
 */
module Values {
  import opened Wrappers
  import opened Bytes
  import opened Text
  import Numerals
  import Converters
  import Interval

  /** The three exact string types the driver distinguishes. */
  datatype StrKind = PlainStr | PGTextStr | PGVarcharStr

  /**
   * A Python value passed as a query parameter.  Floats and decimals carry
   * their `str` text alongside their value; `OtherValue` is an object of a
   * type the driver does not map.
   */
  datatype Value =
    | NoneValue
    | BoolValue(b: bool)
    | IntValue(i: int)
    | FloatValue(f: real, repr: string)
    | StrValue(kind: StrKind, s: string)
    | BytesValue(data: seq<byte>)
    | ByteArrayValue(bdata: seq<byte>)
    | DecimalValue(d: real, drepr: string)
    | IntervalValue(iv: Interval.PGInterval)
    | ListValue(items: seq<Value>)
    | OtherValue(typeName: string)

  /** `type(v)`. */
  datatype PyType =
    | NoneType | BoolType | IntType | FloatType | StrType | PGTextType | PGVarcharType
    | BytesType | ByteArrayType | DecimalType | IntervalType | ListType | OtherType(name: string)

  function TypeOf(v: Value): PyType
  {
    match v
    case NoneValue => NoneType
    case BoolValue(_) => BoolType
    case IntValue(_) => IntType
    case FloatValue(_, _) => FloatType
    case StrValue(k, _) => (match k case PlainStr => StrType case PGTextStr => PGTextType case PGVarcharStr => PGVarcharType)
    case BytesValue(_) => BytesType
    case ByteArrayValue(_) => ByteArrayType
    case DecimalValue(_, _) => DecimalType
    case IntervalValue(_) => IntervalType
    case ListValue(_) => ListType
    case OtherValue(n) => OtherType(n)
  }

  /** `isinstance(v, t)`: `bool` is a subclass of `int`, `PGText` and `PGVarchar` of `str`. */
  predicate IsInstance(v: Value, t: PyType)
  {
    TypeOf(v) == t || (t == IntType && v.BoolValue?) || (t == StrType && v.StrValue?)
  }

  /** The text conversion functions a parameter can be bound to; `NoSend` is `None`. */
  datatype SendFunc =
    | NoSend | NullOut | BoolOut | BytesOut | IntOut | TextOut | FloatOut | NumericOut | IntervalOut
    | SendArray(typ: PyType, elem: SendFunc)

  /** A parameter's type oid and conversion, the pairs `make_params` returns. */
  datatype Param = Param(oid: int, send: SendFunc)

  datatype ParamError =
    | NotSupported(typeName: string)       // NotSupportedError: type not mapped
    | ArrayContentNotSupported             // ArrayContentNotSupportedError
    | ArrayDimensionsNotConsistent         // ArrayDimensionsNotConsistentError
    | ArrayContentNotHomogenous            // ArrayContentNotHomogenousError
    | TypeError                            // an ordering comparison or `len` the value does not support
    | ConversionFailed                     // a conversion applied to a value it cannot handle
    | MissingAttribute(name: string)       // AttributeError: the conversion read an attribute the value lacks

  // ---------------------------------------------------------------------------
  // Scalar parameters
  // ---------------------------------------------------------------------------

  /** `inspect_int`: the narrowest integer type whose open range holds the value, else numeric. */
  function InspectInt(i: int): (r: Param)
    ensures r.oid == 21 <==> Converters.MIN_INT2 < i < Converters.MAX_INT2
    ensures r.oid == 23 <==> !(Converters.MIN_INT2 < i < Converters.MAX_INT2) && Converters.MIN_INT4 < i < Converters.MAX_INT4
    ensures r.oid == 20 <==> !(Converters.MIN_INT4 < i < Converters.MAX_INT4) && Converters.MIN_INT8 < i < Converters.MAX_INT8
    ensures r.oid == 1700 <==> !(Converters.MIN_INT8 < i < Converters.MAX_INT8)
    ensures r.send == (if r.oid == 1700 then NumericOut else IntOut)
  {
    if Converters.MIN_INT2 < i < Converters.MAX_INT2 then Param(21, IntOut)
    else if Converters.MIN_INT4 < i < Converters.MAX_INT4 then Param(23, IntOut)
    else if Converters.MIN_INT8 < i < Converters.MAX_INT8 then Param(20, IntOut)
    else Param(1700, NumericOut)
  }

  /** `make_params` for one value that is not a list: the `py_types` / `inspect_funcs` lookup. */
  function ScalarParam(v: Value): (r: Result<Param, ParamError>)
    requires !v.ListValue?
    ensures r.Err? <==> v.OtherValue?
  {
    match v
    case NoneValue => Ok(Param(-1, NullOut))
    case BoolValue(_) => Ok(Param(16, BoolOut))
    case IntValue(i) => Ok(InspectInt(i))
    case FloatValue(_, _) => Ok(Param(701, FloatOut))
    case StrValue(k, _) =>
      (match k
       case PlainStr => Ok(Param(705, TextOut))
       case PGTextStr => Ok(Param(25, TextOut))
       case PGVarcharStr => Ok(Param(1043, TextOut)))
    case BytesValue(_) => Ok(Param(17, BytesOut))
    case ByteArrayValue(_) => Ok(Param(17, BytesOut))
    case DecimalValue(_, _) => Ok(Param(1700, NumericOut))
    case IntervalValue(_) => Ok(Param(1186, IntervalOut))
    case OtherValue(n) => Err(NotSupported(n))
  }

  // ---------------------------------------------------------------------------
  // Array shape helpers
  // ---------------------------------------------------------------------------

  /** `array_flatten`: the non-list leaves, depth first, left to right. */
  function Flatten(items: seq<Value>): (r: seq<Value>)
    ensures forall k :: 0 <= k < |r| ==> !r[k].ListValue?
  {
    if items == [] then []
    else
      var last := items[|items| - 1];
      Flatten(items[..|items| - 1]) + (if last.ListValue? then Flatten(last.items) else [last])
  }

  /** Flattening distributes over concatenation. */
  lemma {:induction false} FlattenAppend(a: seq<Value>, b: seq<Value>)
    ensures Flatten(a + b) == Flatten(a) + Flatten(b)
    decreases |b|
  {
    if b == [] {
      assert a + b == a;
    } else {
      var init := b[..|b| - 1];
      assert (a + b)[..|a + b| - 1] == a + init;
      FlattenAppend(a, init);
    }
  }

  /** A leaf flattens to itself. */
  lemma {:induction false} FlattenLeaf(x: Value)
    requires !x.ListValue?
    ensures Flatten([x]) == [x]
  {
    assert [x][..0] == [];
  }

  /** A nested list flattens to the flattening of its items. */
  lemma {:induction false} FlattenNested(xs: seq<Value>)
    ensures Flatten([ListValue(xs)]) == Flatten(xs)
  {
    assert [ListValue(xs)][..0] == [];
  }

  /** The first leaf that is not `None`, scanning from the left. */
  function FirstNonNone(leaves: seq<Value>): (r: Option<Value>)
    ensures r.None? <==> forall k :: 0 <= k < |leaves| ==> leaves[k] == NoneValue
    ensures r.Some? ==> exists k :: 0 <= k < |leaves| && leaves[k] == r.value && r.value != NoneValue &&
                          forall j :: 0 <= j < k ==> leaves[j] == NoneValue
  {
    if leaves == [] then None
    else if leaves[0] != NoneValue then Some(leaves[0])
    else
      var r := FirstNonNone(leaves[1..]);
      assert forall k :: 1 <= k < |leaves| ==> leaves[k] == leaves[1..][k - 1];
      r
  }

  /** `array_find_first_element`. */
  function FindFirstElement(items: seq<Value>): (r: Option<Value>)
    ensures r.Some? ==> r.value != NoneValue && !r.value.ListValue? && r.value in Flatten(items)
    ensures r.None? <==> forall k :: 0 <= k < |Flatten(items)| ==> Flatten(items)[k] == NoneValue
  {
    FirstNonNone(Flatten(items))
  }

  /** `array_has_null`, walking the nesting directly. */
  predicate HasNull(items: seq<Value>)
  {
    if items == [] then false
    else
      var last := items[|items| - 1];
      HasNull(items[..|items| - 1]) || (if last.ListValue? then HasNull(last.items) else last == NoneValue)
  }

  /** An array holds a NULL exactly when one of its flattened leaves is `None`. */
  lemma {:induction false} HasNullFlatten(items: seq<Value>)
    ensures HasNull(items) <==> NoneValue in Flatten(items)
  {
    if items != [] {
      var last := items[|items| - 1];
      HasNullFlatten(items[..|items| - 1]);
      if last.ListValue? {
        HasNullFlatten(last.items);
      }
    }
  }

  /** `array_dim_lengths`: the length at each level, following the first element down. */
  function DimLengths(items: seq<Value>): (r: seq<nat>)
    ensures |r| >= 1 && r[0] == |items|
  {
    [|items|] + (if |items| > 0 && items[0].ListValue? then DimLengths(items[0].items) else [])
  }

  /** `len(v)` for a value that has one (lists, strings and byte strings). */
  function Len(v: Value): Option<nat>
  {
    match v
    case ListValue(items) => Some(|items|)
    case StrValue(_, s) => Some(|s|)
    case BytesValue(d) => Some(|d|)
    case ByteArrayValue(d) => Some(|d|)
    case _ => None
  }

  /**
   * `array_check_dimensions` as written.  Every sibling of a list is itself
   * checked and its `len` compared; a string or byte string has a length and
   * no nested lists, so it passes where a list of that length is required,
   * and any other scalar makes `len` raise TypeError.
   */
  function CheckDimensions(items: seq<Value>): (r: Result<seq<nat>, ParamError>)
    decreases items, 1
  {
    if |items| == 0 then Ok([])
    else if items[0].ListValue? then
      var reqLen := |items[0].items|;
      var reqInner :- CheckDimensions(items[0].items);
      var _ :- CheckSiblings(items, reqLen, reqInner);
      Ok([reqLen] + reqInner)
    else if exists k :: 0 <= k < |items| && items[k].ListValue? then Err(ArrayDimensionsNotConsistent)
    else Ok([])
  }

  /** The loop of `array_check_dimensions` over the siblings of a leading list, in order. */
  function CheckSiblings(items: seq<Value>, reqLen: nat, reqInner: seq<nat>): Result<(), ParamError>
    decreases items, 0
  {
    if items == [] then Ok(())
    else
      var _ :- CheckSiblings(items[..|items| - 1], reqLen, reqInner);
      var v := items[|items| - 1];
      var inner :- (if v.ListValue? then CheckDimensions(v.items)
                    else if Len(v).Some? then Ok([]) else Err(TypeError));
      if Len(v) != Some(reqLen) || inner != reqInner then Err(ArrayDimensionsNotConsistent) else Ok(())
  }

  /** The check with the evident intent: a non-list sibling of a list is a dimension mismatch. */
  function CheckDimensionsFixed(items: seq<Value>): (r: Result<seq<nat>, ParamError>)
    ensures r.Err? ==> r.error == ArrayDimensionsNotConsistent
    decreases items, 1
  {
    if |items| == 0 then Ok([])
    else if items[0].ListValue? then
      var reqLen := |items[0].items|;
      var reqInner :- CheckDimensionsFixed(items[0].items);
      var _ :- CheckSiblingsFixed(items, reqLen, reqInner);
      Ok([reqLen] + reqInner)
    else if exists k :: 0 <= k < |items| && items[k].ListValue? then Err(ArrayDimensionsNotConsistent)
    else Ok([])
  }

  function CheckSiblingsFixed(items: seq<Value>, reqLen: nat, reqInner: seq<nat>): (r: Result<(), ParamError>)
    ensures r.Err? ==> r.error == ArrayDimensionsNotConsistent
    decreases items, 0
  {
    if items == [] then Ok(())
    else
      var _ :- CheckSiblingsFixed(items[..|items| - 1], reqLen, reqInner);
      var v := items[|items| - 1];
      var inner :- (if v.ListValue? then CheckDimensionsFixed(v.items) else Err(ArrayDimensionsNotConsistent));
      if |v.items| != reqLen || inner != reqInner then Err(ArrayDimensionsNotConsistent) else Ok(())
  }

  /** A value of rectangular shape `dims`: a scalar for `[]`, else a list of `dims[0]` such values. */
  predicate Shape(v: Value, dims: seq<nat>)
    decreases dims
  {
    if dims == [] then !v.ListValue?
    else v.ListValue? && |v.items| == dims[0] && forall k :: 0 <= k < |v.items| ==> Shape(v.items[k], dims[1..])
  }

  /** Every element of `items` has shape `dims`. */
  predicate AllShape(items: seq<Value>, dims: seq<nat>)
  {
    forall k :: 0 <= k < |items| ==> Shape(items[k], dims)
  }

  lemma {:induction false} SiblingsFixedOk(items: seq<Value>, reqLen: nat, reqInner: seq<nat>)
    requires CheckSiblingsFixed(items, reqLen, reqInner).Ok?
    ensures forall k :: 0 <= k < |items| ==>
              items[k].ListValue? && |items[k].items| == reqLen && CheckDimensionsFixed(items[k].items) == Ok(reqInner)
    decreases items, 0
  {
    if items != [] {
      SiblingsFixedOk(items[..|items| - 1], reqLen, reqInner);
    }
  }

  /** What the fixed check accepts is rectangular, with the extents it returns. */
  lemma {:induction false} FixedSound(items: seq<Value>)
    requires CheckDimensionsFixed(items).Ok?
    ensures AllShape(items, CheckDimensionsFixed(items).value)
    decreases items
  {
    var d := CheckDimensionsFixed(items).value;
    if |items| > 0 && items[0].ListValue? {
      var reqLen := |items[0].items|;
      var reqInner := CheckDimensionsFixed(items[0].items).value;
      SiblingsFixedOk(items, reqLen, reqInner);
      forall k | 0 <= k < |items| ensures Shape(items[k], d) {
        FixedSound(items[k].items);
        assert d[1..] == reqInner;
      }
    }
  }

  lemma {:induction false} SiblingsFixedComplete(items: seq<Value>, dims: seq<nat>)
    requires |dims| > 0 && AllShape(items, dims)
    requires forall k :: 0 <= k < |items| ==> CheckDimensionsFixed(items[k].items) == Ok(dims[1..])
    ensures CheckSiblingsFixed(items, dims[0], dims[1..]) == Ok(())
    decreases items
  {
    if items != [] {
      SiblingsFixedComplete(items[..|items| - 1], dims);
    }
  }

  /** Extents as the check reports them: nothing is listed below an empty level. */
  predicate CanonicalDims(dims: seq<nat>)
  {
    forall k :: 0 <= k < |dims| - 1 ==> dims[k] > 0
  }

  /** A non-empty rectangular array is accepted by the fixed check, which reports its extents. */
  lemma {:induction false} FixedComplete(items: seq<Value>, dims: seq<nat>)
    requires |items| > 0 && AllShape(items, dims) && CanonicalDims(dims)
    ensures CheckDimensionsFixed(items) == Ok(dims)
    decreases items
  {
    if dims == [] {
      assert !items[0].ListValue?;
    } else {
      forall k | 0 <= k < |items| ensures CheckDimensionsFixed(items[k].items) == Ok(dims[1..]) {
        var inner := items[k].items;
        assert Shape(items[k], dims);
        if |inner| > 0 {
          assert CanonicalDims(dims[1..]) by {
            forall j | 0 <= j < |dims[1..]| - 1 ensures dims[1..][j] > 0 {
              assert dims[1..][j] == dims[j + 1];
            }
          }
          FixedComplete(inner, dims[1..]);
        } else {
          assert dims[0] == 0;
          assert |dims| == 1;
          assert dims[1..] == [];
        }
      }
      SiblingsFixedComplete(items, dims);
      assert [dims[0]] + dims[1..] == dims;
    }
  }

  /** `array_dim_lengths` lists the extents the fixed check validates, outermost first. */
  lemma {:induction false} DimLengthsOfChecked(items: seq<Value>)
    requires CheckDimensionsFixed(items).Ok?
    ensures DimLengths(items) == [|items|] + CheckDimensionsFixed(items).value
    decreases items
  {
    if |items| > 0 && items[0].ListValue? {
      DimLengthsOfChecked(items[0].items);
    }
  }

  /**
   * The check as written accepts `[["a", "b"], "cd"]`, which has no rectangular
   * shape, because the string has length 2 and nothing nested; the fixed check
   * rejects it.
   */
  lemma {:induction false} StringSiblingAccepted()
    ensures var a := [ListValue([StrValue(PlainStr, "a"), StrValue(PlainStr, "b")]), StrValue(PlainStr, "cd")];
            CheckDimensions(a) == Ok([2]) &&
            (forall d :: !AllShape(a, d)) &&
            CheckDimensionsFixed(a) == Err(ArrayDimensionsNotConsistent)
  {
    var a := [ListValue([StrValue(PlainStr, "a"), StrValue(PlainStr, "b")]), StrValue(PlainStr, "cd")];
    var inner := [StrValue(PlainStr, "a"), StrValue(PlainStr, "b")];
    assert CheckDimensions(inner) == Ok([]);
    assert CheckDimensionsFixed(inner) == Ok([]);
    assert a[..1] == [a[0]] && [a[0]][..0] == [];
    assert CheckSiblings([a[0]], 2, []) == Ok(());
    assert CheckSiblings(a, 2, []) == Ok(());
    assert a[0].items == inner && |inner| == 2;
    assert [2] + [] == [2];
    assert CheckSiblingsFixed([a[0]], 2, []) == Ok(());
    assert CheckSiblingsFixed(a, 2, []) == Err(ArrayDimensionsNotConsistent);
    forall d ensures !AllShape(a, d) {
      if d == [] {
        assert !Shape(a[0], d);
      } else {
        assert !Shape(a[1], d);
      }
    }
  }

  /** A number beside a list makes the check as written fail with `len`'s TypeError. */
  lemma {:induction false} ScalarSiblingTypeError()
    ensures CheckDimensions([ListValue([IntValue(1)]), IntValue(2)]) == Err(TypeError)
    ensures CheckDimensionsFixed([ListValue([IntValue(1)]), IntValue(2)]) == Err(ArrayDimensionsNotConsistent)
  {
    var a := [ListValue([IntValue(1)]), IntValue(2)];
    assert a[..1] == [a[0]] && [a[0]][..0] == [];
    assert CheckDimensions([IntValue(1)]) == Ok([]);
    assert CheckSiblings([a[0]], 1, []) == Ok(());
    assert CheckDimensionsFixed([IntValue(1)]) == Ok([]);
    assert CheckSiblingsFixed([a[0]], 1, []) == Ok(());
  }

  // ---------------------------------------------------------------------------
  // _walk_array
  // ---------------------------------------------------------------------------

  /** The backslash escaping `_walk_array` applies to one character of a string element. */
  function EscapeChar(c: char): string
  {
    if c == '\\' || c == '"' then ['\\', c] else [c]
  }

  /** The escaped text of a string element. */
  function Escape(s: string): (r: string)
    ensures |r| >= |s|
  {
    if s == [] then [] else Escape(s[..|s| - 1]) + EscapeChar(s[|s| - 1])
  }

  /** A string element is quoted when empty, `NULL`, or holding a brace, comma, space or backslash. */
  predicate NeedsQuotes(val: string)
  {
    |val| == 0 || val == "NULL" || '{' in val || '}' in val || ',' in val || ' ' in val || '\\' in val
  }

  function Quote(val: string): string
  {
    if NeedsQuotes(val) then "\"" + val + "\"" else val
  }

  /** Python's `str` of a boolean, which `int_out` produces for the `int` subclass `bool`. */
  function BoolStr(b: bool): string
  {
    if b then "True" else "False"
  }

  /** Python truth value, which `bool_out` tests. */
  predicate Truthy(v: Value)
  {
    match v
    case NoneValue => false
    case BoolValue(b) => b
    case IntValue(i) => i != 0
    case FloatValue(f, _) => f != 0.0
    case StrValue(_, s) => s != []
    case BytesValue(d) => d != []
    case ByteArrayValue(d) => d != []
    case DecimalValue(d, _) => d != 0.0
    case ListValue(items) => items != []
    case _ => true
  }

  /** Applying a scalar conversion to a value; array conversions go through `SendValue`. */
  function Send(f: SendFunc, v: Value): Result<string, ParamError>
  {
    match f
    case NoSend => Err(TypeError)
    case NullOut => Ok(Converters.NULL_OUT)
    case BoolOut => Ok(Converters.BoolOut(Truthy(v)))
    case BytesOut =>
      if v.BytesValue? then Ok(Converters.BytesOut(v.data))
      else if v.ByteArrayValue? then Ok(Converters.BytesOut(v.bdata))
      else Err(ConversionFailed)
    case IntOut | NumericOut =>
      if v.IntValue? then Ok(Converters.IntOut(v.i))
      else if v.BoolValue? then Ok(BoolStr(v.b))
      else if v.DecimalValue? && f == NumericOut then Ok(v.drepr)
      else Err(ConversionFailed)
    case TextOut => if v.StrValue? then Ok(v.s) else Err(ConversionFailed)
    case FloatOut => if v.FloatValue? then Ok(v.repr) else Err(ConversionFailed)
    case IntervalOut =>
      if v.IntervalValue? then
        match Interval.StrAsWritten(v.iv)
        case Ok(text) => Ok(text)
        case Err(e) => Err(MissingAttribute(e.name))
      else Err(ConversionFailed)
    case SendArray(_, _) => Err(ConversionFailed)
  }

  /**
   * An interval parameter is sent as `str(v)`: it fails with AttributeError
   * exactly when millennia is set, and otherwise its text reads back, through
   * `from_str`, as the same interval.
   */
  lemma {:induction false} SendIntervalReadsBack(iv: Interval.PGInterval)
    ensures Send(IntervalOut, IntervalValue(iv)).Err? <==> iv.millennia.Some?
    ensures Send(IntervalOut, IntervalValue(iv)).Ok? ==> Interval.FromStrSpec(Send(IntervalOut, IntervalValue(iv)).value) == Ok(iv)
  {
    Interval.StrRoundTrip(iv);
  }

  /** One non-list element of `_walk_array`: NULL, or the converted (and, for strings, quoted) text. */
  function WalkLeaf(v: Value, typ: PyType, send: SendFunc): Result<string, ParamError>
    requires !v.ListValue?
  {
    if v.NoneValue? then Ok("NULL")
    else if IsInstance(v, typ) then
      var val :- Send(send, v);
      Ok(if v.StrValue? then Quote(Escape(v.s)) else val)
    else Err(ArrayContentNotHomogenous)
  }

  /** `_walk_array`: braces around the comma-joined element texts. */
  function Walk(items: seq<Value>, typ: PyType, send: SendFunc): Result<string, ParamError>
    decreases items, 1
  {
    var parts :- WalkItems(items, typ, send);
    Ok("{" + Join(",", parts) + "}")
  }

  function WalkItems(items: seq<Value>, typ: PyType, send: SendFunc): (r: Result<seq<string>, ParamError>)
    ensures r.Ok? ==> |r.value| == |items|
    decreases items, 0
  {
    if items == [] then Ok([])
    else
      var init :- WalkItems(items[..|items| - 1], typ, send);
      var v := items[|items| - 1];
      var val :- if v.ListValue? then Walk(v.items, typ, send) else WalkLeaf(v, typ, send);
      Ok(init + [val])
  }

  /** A leaf `_walk_array` refuses: neither `None` nor an instance of the element type. */
  predicate Foreign(v: Value, typ: PyType)
  {
    !v.NoneValue? && !IsInstance(v, typ)
  }

  predicate HasForeign(leaves: seq<Value>, typ: PyType)
  {
    exists k :: 0 <= k < |leaves| && Foreign(leaves[k], typ)
  }

  /** Every leaf that is let through converts without error. */
  predicate SendsAll(leaves: seq<Value>, typ: PyType, send: SendFunc)
  {
    forall k :: 0 <= k < |leaves| ==> !Foreign(leaves[k], typ) ==> Send(send, leaves[k]).Ok?
  }

  lemma {:induction false} ForeignSplit(a: seq<Value>, b: seq<Value>, typ: PyType, send: SendFunc)
    ensures HasForeign(a + b, typ) <==> HasForeign(a, typ) || HasForeign(b, typ)
    ensures SendsAll(a + b, typ, send) ==> SendsAll(a, typ, send) && SendsAll(b, typ, send)
  {
    ForeignOfConcat(a, b, typ);
    SendsAllOfConcat(a, b, typ, send);
  }

  lemma {:induction false} ForeignOfConcat(a: seq<Value>, b: seq<Value>, typ: PyType)
    ensures HasForeign(a + b, typ) <==> HasForeign(a, typ) || HasForeign(b, typ)
  {
    if HasForeign(a + b, typ) {
      var k :| 0 <= k < |a + b| && Foreign((a + b)[k], typ);
      if k < |a| {
        assert a[k] == (a + b)[k];
      } else {
        assert b[k - |a|] == (a + b)[k];
      }
    }
    if HasForeign(a, typ) {
      var k :| 0 <= k < |a| && Foreign(a[k], typ);
      assert (a + b)[k] == a[k];
    }
    if HasForeign(b, typ) {
      var k :| 0 <= k < |b| && Foreign(b[k], typ);
      assert (a + b)[|a| + k] == b[k];
    }
  }

  lemma {:induction false} SendsAllOfConcat(a: seq<Value>, b: seq<Value>, typ: PyType, send: SendFunc)
    ensures SendsAll(a + b, typ, send) ==> SendsAll(a, typ, send) && SendsAll(b, typ, send)
  {
    if SendsAll(a + b, typ, send) {
      forall k | 0 <= k < |a| ensures !Foreign(a[k], typ) ==> Send(send, a[k]).Ok? {
        assert (a + b)[k] == a[k];
      }
      forall k | 0 <= k < |b| ensures !Foreign(b[k], typ) ==> Send(send, b[k]).Ok? {
        assert (a + b)[|a| + k] == b[k];
      }
    }
  }

  /**
   * `_walk_array` fails exactly when some leaf is foreign to the element type, and
   * then with "not homogenous", provided every other leaf converts.
   */
  lemma {:induction false} WalkRejectsForeignLeaf(items: seq<Value>, typ: PyType, send: SendFunc)
    requires SendsAll(Flatten(items), typ, send)
    ensures Walk(items, typ, send).Err? <==> HasForeign(Flatten(items), typ)
    ensures Walk(items, typ, send).Err? ==> Walk(items, typ, send).error == ArrayContentNotHomogenous
    decreases items, 1
  {
    WalkItemsRejects(items, typ, send);
  }

  lemma {:induction false} WalkItemsRejects(items: seq<Value>, typ: PyType, send: SendFunc)
    requires SendsAll(Flatten(items), typ, send)
    ensures WalkItems(items, typ, send).Err? <==> HasForeign(Flatten(items), typ)
    ensures WalkItems(items, typ, send).Err? ==> WalkItems(items, typ, send).error == ArrayContentNotHomogenous
    decreases items, 0
  {
    if items != [] {
      var init := items[..|items| - 1];
      var v := items[|items| - 1];
      FlattenLast(items, typ, send);
      WalkItemsRejects(init, typ, send);
      WalkItemsLast(items, typ, send);
      if v.ListValue? {
        WalkRejectsForeignLeaf(v.items, typ, send);
      } else {
        LeafRejects(v, typ, send);
      }
    }
  }

  /** The leaves of `items` are those of all but the last item, then the last item's. */
  lemma {:induction false} FlattenLast(items: seq<Value>, typ: PyType, send: SendFunc)
    requires items != []
    ensures var init := Flatten(items[..|items| - 1]);
      var v := items[|items| - 1];
      var fv := if v.ListValue? then Flatten(v.items) else [v];
      (HasForeign(Flatten(items), typ) <==> HasForeign(init, typ) || HasForeign(fv, typ)) &&
      (SendsAll(Flatten(items), typ, send) ==> SendsAll(init, typ, send) && SendsAll(fv, typ, send))
  {
    var v := items[|items| - 1];
    var fv := if v.ListValue? then Flatten(v.items) else [v];
    assert Flatten(items) == Flatten(items[..|items| - 1]) + fv;
    ForeignSplit(Flatten(items[..|items| - 1]), fv, typ, send);
  }

  /** `WalkItems` fails when the items before the last do, or else when the last one does. */
  lemma {:induction false} WalkItemsLast(items: seq<Value>, typ: PyType, send: SendFunc)
    requires items != []
    ensures var init := WalkItems(items[..|items| - 1], typ, send);
      var v := items[|items| - 1];
      var w := if v.ListValue? then Walk(v.items, typ, send) else WalkLeaf(v, typ, send);
      var r := WalkItems(items, typ, send);
      (r.Err? <==> init.Err? || w.Err?) && (r.Err? ==> r.error == if init.Err? then init.error else w.error)
  {
  }

  /** A leaf whose conversion succeeds fails to walk exactly when it is foreign. */
  lemma {:induction false} LeafRejects(v: Value, typ: PyType, send: SendFunc)
    requires !v.ListValue? && SendsAll([v], typ, send)
    ensures WalkLeaf(v, typ, send).Err? <==> HasForeign([v], typ)
    ensures WalkLeaf(v, typ, send).Err? ==> WalkLeaf(v, typ, send).error == ArrayContentNotHomogenous
  {
    assert [v][0] == v;
  }

  /** The conversion a parameter applies when its message is built: arrays are checked, then walked. */
  function SendValue(f: SendFunc, v: Value): Result<string, ParamError>
  {
    match f
    case SendArray(typ, elem) =>
      if v.ListValue? then
        var _ :- CheckDimensions(v.items);
        Walk(v.items, typ, elem)
      else Err(TypeError)
    case _ => Send(f, v)
  }

  // ---------------------------------------------------------------------------
  // array_inspect
  // ---------------------------------------------------------------------------

  /** A leaf that can be ordered against an integer bound. */
  predicate Comparable(v: Value)
  {
    v.BoolValue? || v.IntValue? || v.FloatValue? || v.DecimalValue?
  }

  function NumValue(v: Value): real
    requires Comparable(v)
  {
    match v
    case BoolValue(b) => if b then 1.0 else 0.0
    case IntValue(i) => i as real
    case FloatValue(f, _) => f
    case DecimalValue(d, _) => d
  }

  predicate Within(v: Value, lo: int, hi: int)
    requires Comparable(v)
  {
    lo as real < NumValue(v) < hi as real
  }

  /** The int2 / int4 / int8 flags of `array_inspect`. */
  datatype Flags = Flags(int2: bool, int4: bool, int8: bool)

  /** One iteration of the flag loop: a leaf outside a range clears that range's flag. */
  function FlagStep(f: Flags, v: Value): (r: Result<Flags, ParamError>)
  {
    if v.NoneValue? then Ok(f)
    else if !Comparable(v) then Err(TypeError)
    else if Within(v, Converters.MIN_INT2, Converters.MAX_INT2) then Ok(f)
    else if Within(v, Converters.MIN_INT4, Converters.MAX_INT4) then Ok(f.(int2 := false))
    else if Within(v, Converters.MIN_INT8, Converters.MAX_INT8) then Ok(f.(int2 := false, int4 := false))
    else Ok(Flags(false, false, false))
  }

  function FlagsOf(leaves: seq<Value>): Result<Flags, ParamError>
  {
    if leaves == [] then Ok(Flags(true, true, true))
    else
      var f :- FlagsOf(leaves[..|leaves| - 1]);
      FlagStep(f, leaves[|leaves| - 1])
  }

  /** Every non-None leaf is comparable and within the open range. */
  predicate AllWithin(leaves: seq<Value>, lo: int, hi: int)
  {
    forall k :: 0 <= k < |leaves| && !leaves[k].NoneValue? ==> Comparable(leaves[k]) && Within(leaves[k], lo, hi)
  }

  /**
   * The flag loop fails exactly when a non-None leaf cannot be compared;
   * otherwise each flag says whether every non-None leaf fits that width.
   */
  lemma {:induction false} FlagsMeaning(leaves: seq<Value>)
    ensures FlagsOf(leaves).Ok? <==> forall k :: 0 <= k < |leaves| && !leaves[k].NoneValue? ==> Comparable(leaves[k])
    ensures FlagsOf(leaves).Ok? ==>
              (FlagsOf(leaves).value.int2 <==> AllWithin(leaves, Converters.MIN_INT2, Converters.MAX_INT2)) &&
              (FlagsOf(leaves).value.int4 <==> AllWithin(leaves, Converters.MIN_INT4, Converters.MAX_INT4)) &&
              (FlagsOf(leaves).value.int8 <==> AllWithin(leaves, Converters.MIN_INT8, Converters.MAX_INT8))
  {
    if leaves != [] {
      var init := leaves[..|leaves| - 1];
      FlagsMeaning(init);
      assert forall k :: 0 <= k < |init| ==> init[k] == leaves[k];
    }
  }

  /** `pg_array_types`: element oid to array oid. */
  function ArrayOid(oid: int): Option<int>
  {
    if oid == 16 then Some(1000)
    else if oid == 25 then Some(1009)
    else if oid == 701 then Some(1022)
    else if oid == 1043 then Some(1009)
    else if oid == 1700 then Some(1231)
    else None
  }

  /** The narrowest integer array type the flags allow. */
  function IntArrayParam(f: Flags): Result<Param, ParamError>
  {
    if f.int2 then Ok(Param(1005, SendArray(IntType, IntOut)))
    else if f.int4 then Ok(Param(1007, SendArray(IntType, IntOut)))
    else if f.int8 then Ok(Param(1016, SendArray(IntType, IntOut)))
    else Err(ArrayContentNotSupported)
  }

  /** `array_inspect`: the array oid and the conversion `send_array` applies. */
  function ArrayInspectSpec(items: seq<Value>): (r: Result<Param, ParamError>)
    ensures r.Ok? ==> r.value.send.SendArray?
  {
    match FindFirstElement(items)
    case None => Ok(Param(1009, SendArray(NoneType, NoSend)))
    case Some(first) =>
      if first.BoolValue? then Ok(Param(1000, SendArray(BoolType, BoolOut)))
      else if first.IntValue? then
        var f :- FlagsOf(Flatten(items));
        IntArrayParam(f)
      else
        match ScalarParam(first)
        case Err(_) => Err(ArrayContentNotSupported)
        case Ok(p) =>
          var oid := if p.oid == 705 || p.oid == 1043 || p.oid == 25 then 25 else p.oid;
          match ArrayOid(oid)
          case None => Err(ArrayContentNotSupported)
          case Some(a) => Ok(Param(a, SendArray(TypeOf(first), p.send)))
  }

  lemma {:induction false} FlagsErrSticky(leaves: seq<Value>, i: nat)
    requires i <= |leaves| && FlagsOf(leaves[..i]).Err?
    ensures FlagsOf(leaves) == FlagsOf(leaves[..i])
    decreases |leaves| - i
  {
    if i < |leaves| {
      assert leaves[..i + 1][..i] == leaves[..i];
      FlagsErrSticky(leaves, i + 1);
    } else {
      assert leaves[..i] == leaves;
    }
  }

  /** The loop of `array_inspect`, proved to compute `ArrayInspectSpec`. */
  method ArrayInspect(items: seq<Value>) returns (r: Result<Param, ParamError>)
    ensures r == ArrayInspectSpec(items)
  {
    var first := FindFirstElement(items);
    if first.None? {
      return Ok(Param(1009, SendArray(NoneType, NoSend)));
    }
    var e := first.value;
    if e.BoolValue? {
      return Ok(Param(1000, SendArray(BoolType, BoolOut)));
    }
    if e.IntValue? {
      var leaves := Flatten(items);
      var int2Ok, int4Ok, int8Ok := true, true, true;
      var i := 0;
      while i < |leaves|
        invariant 0 <= i <= |leaves|
        invariant FlagsOf(leaves[..i]) == Ok(Flags(int2Ok, int4Ok, int8Ok))
      {
        var v := leaves[i];
        assert leaves[..i + 1][..i] == leaves[..i];
        if !v.NoneValue? {
          if !Comparable(v) {
            FlagsErrSticky(leaves, i + 1);
            return Err(TypeError);
          }
          if !Within(v, Converters.MIN_INT2, Converters.MAX_INT2) {
            int2Ok := false;
            if !Within(v, Converters.MIN_INT4, Converters.MAX_INT4) {
              int4Ok := false;
              if !Within(v, Converters.MIN_INT8, Converters.MAX_INT8) {
                int8Ok := false;
              }
            }
          }
        }
        i := i + 1;
      }
      assert leaves[..i] == leaves;
      if int2Ok {
        r := Ok(Param(1005, SendArray(IntType, IntOut)));
      } else if int4Ok {
        r := Ok(Param(1007, SendArray(IntType, IntOut)));
      } else if int8Ok {
        r := Ok(Param(1016, SendArray(IntType, IntOut)));
      } else {
        r := Err(ArrayContentNotSupported);
      }
      return;
    }
    var p := ScalarParam(e);
    if p.Err? {
      return Err(ArrayContentNotSupported);
    }
    var oid := p.value.oid;
    if oid == 705 || oid == 1043 || oid == 25 {
      oid := 25;
    }
    var arrayOid := ArrayOid(oid);
    if arrayOid.None? {
      return Err(ArrayContentNotSupported);
    }
    r := Ok(Param(arrayOid.value, SendArray(TypeOf(e), p.value.send)));
  }

  /** A one-element integer array gets the array type of the width `inspect_int` picks for it. */
  lemma {:induction false} ArrayWidthMatchesScalar(i: int)
    ensures var r := ArrayInspectSpec([IntValue(i)]);
            (r.Ok? && r.value.oid == 1005 <==> InspectInt(i).oid == 21) &&
            (r.Ok? && r.value.oid == 1007 <==> InspectInt(i).oid == 23) &&
            (r.Ok? && r.value.oid == 1016 <==> InspectInt(i).oid == 20) &&
            (r.Err? <==> InspectInt(i).oid == 1700)
  {
    SingletonIntInspect(i);
    SingletonIntFlags(i);
  }

  lemma {:induction false} SingletonIntInspect(i: int)
    ensures FlagStep(Flags(true, true, true), IntValue(i)).Ok?
    ensures ArrayInspectSpec([IntValue(i)]) == IntArrayParam(FlagStep(Flags(true, true, true), IntValue(i)).value)
  {
    assert Flatten([IntValue(i)]) == [IntValue(i)] by {
      assert [IntValue(i)][..0] == [];
    }
    assert FlagsOf([IntValue(i)]) == FlagStep(Flags(true, true, true), IntValue(i)) by {
      assert [IntValue(i)][..0] == [];
    }
  }

  lemma {:induction false} SingletonIntFlags(i: int)
    ensures var r := IntArrayParam(FlagStep(Flags(true, true, true), IntValue(i)).value);
            (r.Ok? && r.value.oid == 1005 <==> InspectInt(i).oid == 21) &&
            (r.Ok? && r.value.oid == 1007 <==> InspectInt(i).oid == 23) &&
            (r.Ok? && r.value.oid == 1016 <==> InspectInt(i).oid == 20) &&
            (r.Err? <==> InspectInt(i).oid == 1700)
  {
  }

  /** An array whose first non-None leaf is an int gets the narrowest type all its leaves fit. */
  lemma {:induction false} IntArrayWidth(items: seq<Value>)
    requires FindFirstElement(items).Some? && FindFirstElement(items).value.IntValue?
    ensures var leaves := Flatten(items);
            var r := ArrayInspectSpec(items);
            (r == Err(TypeError) <==> exists k :: 0 <= k < |leaves| && !leaves[k].NoneValue? && !Comparable(leaves[k])) &&
            (r.Ok? && r.value.oid == 1005 <==> AllWithin(leaves, Converters.MIN_INT2, Converters.MAX_INT2)) &&
            (r.Ok? && r.value.oid == 1007 <==>
               !AllWithin(leaves, Converters.MIN_INT2, Converters.MAX_INT2) && AllWithin(leaves, Converters.MIN_INT4, Converters.MAX_INT4)) &&
            (r.Ok? && r.value.oid == 1016 <==>
               !AllWithin(leaves, Converters.MIN_INT4, Converters.MAX_INT4) && AllWithin(leaves, Converters.MIN_INT8, Converters.MAX_INT8))
  {
    var leaves := Flatten(items);
    FlagsMeaning(leaves);
    assert ArrayInspectSpec(items) == (if FlagsOf(leaves).Err? then Err(FlagsOf(leaves).error)
                                       else IntArrayParam(FlagsOf(leaves).value));
    if FlagsOf(leaves).Err? {
      FlagsErrIsTypeError(leaves);
      var k :| 0 <= k < |leaves| && !leaves[k].NoneValue? && !Comparable(leaves[k]);
      assert !AllWithin(leaves, Converters.MIN_INT2, Converters.MAX_INT2);
      assert !AllWithin(leaves, Converters.MIN_INT4, Converters.MAX_INT4);
      assert !AllWithin(leaves, Converters.MIN_INT8, Converters.MAX_INT8);
    }
  }

  lemma {:induction false} FlagsErrIsTypeError(leaves: seq<Value>)
    ensures FlagsOf(leaves).Err? ==> FlagsOf(leaves).error == TypeError
  {
    if leaves != [] {
      FlagsErrIsTypeError(leaves[..|leaves| - 1]);
    }
  }

  /** An array with no non-None leaf, empty or not, is sent as TEXT[]. */
  lemma {:induction false} AllNoneIsTextArray(n: nat)
    ensures ArrayInspectSpec(seq(n, _ => NoneValue)).Ok?
    ensures ArrayInspectSpec(seq(n, _ => NoneValue)).value.oid == 1009
  {
    AllNoneFlatten(n);
  }

  lemma {:induction false} AllNoneFlatten(n: nat)
    ensures Flatten(seq(n, _ => NoneValue)) == seq(n, _ => NoneValue)
  {
    if n > 0 {
      assert seq(n, _ => NoneValue)[..n - 1] == seq(n - 1, _ => NoneValue);
      AllNoneFlatten(n - 1);
    }
  }

  /** `[1, 3.1]` holds no nested list, so its leaves are its items. */
  lemma {:induction false} MixedArrayLeaves()
    ensures Flatten([IntValue(1), FloatValue(3.1, "3.1")]) == [IntValue(1), FloatValue(3.1, "3.1")]
  {
    var a := [IntValue(1), FloatValue(3.1, "3.1")];
    assert a[..1] == [IntValue(1)] && [IntValue(1)][..0] == [];
    assert Flatten([IntValue(1)]) == [IntValue(1)];
  }

  /** The first leaf alone picks the array type: `[1, 3.1]` is typed INT2[]. */
  lemma {:induction false} MixedArrayTypedByFirst()
    ensures ArrayInspectSpec([IntValue(1), FloatValue(3.1, "3.1")]) == Ok(Param(1005, SendArray(IntType, IntOut)))
  {
    var a := [IntValue(1), FloatValue(3.1, "3.1")];
    MixedArrayLeaves();
    assert FirstNonNone(a) == Some(IntValue(1));
    assert a[..1] == [IntValue(1)] && [IntValue(1)][..0] == [];
    assert FlagsOf([IntValue(1)]) == Ok(Flags(true, true, true));
    assert FlagsOf(a) == Ok(Flags(true, true, true));
  }

  /** Walking `[1, 3.1]` with the int conversion then fails on the float. */
  lemma {:induction false} MixedArrayNotHomogenous()
    ensures SendValue(SendArray(IntType, IntOut), ListValue([IntValue(1), FloatValue(3.1, "3.1")])) == Err(ArrayContentNotHomogenous)
  {
    var a := [IntValue(1), FloatValue(3.1, "3.1")];
    assert a[..1] == [IntValue(1)] && [IntValue(1)][..0] == [];
    assert FlagsOf([IntValue(1)]) == Ok(Flags(true, true, true));
    assert FlagsOf(a) == Ok(Flags(true, true, true));
    assert CheckDimensions(a) == Ok([]);
    assert WalkItems([IntValue(1)], IntType, IntOut).Ok?;
    assert WalkItems(a, IntType, IntOut) == Err(ArrayContentNotHomogenous);
  }

  // ---------------------------------------------------------------------------
  // make_params
  // ---------------------------------------------------------------------------

  /** `make_params` for one value. */
  function MakeParam(v: Value): Result<Param, ParamError>
  {
    if v.ListValue? then ArrayInspectSpec(v.items) else ScalarParam(v)
  }

  function MakeParamsSpec(values: seq<Value>): (r: Result<seq<Param>, ParamError>)
    ensures r.Ok? ==> |r.value| == |values|
  {
    if values == [] then Ok([])
    else
      var init :- MakeParamsSpec(values[..|values| - 1]);
      var p :- MakeParam(values[|values| - 1]);
      Ok(init + [p])
  }

  lemma {:induction false} MakeParamsErrSticky(values: seq<Value>, i: nat)
    requires i <= |values| && MakeParamsSpec(values[..i]).Err?
    ensures MakeParamsSpec(values) == MakeParamsSpec(values[..i])
    decreases |values| - i
  {
    if i < |values| {
      assert values[..i + 1][..i] == values[..i];
      MakeParamsErrSticky(values, i + 1);
    } else {
      assert values[..i] == values;
    }
  }

  /** The loop of `make_params`, proved to compute `MakeParamsSpec`. */
  method MakeParams(values: seq<Value>) returns (r: Result<seq<Param>, ParamError>)
    ensures r == MakeParamsSpec(values)
  {
    var params: seq<Param> := [];
    var i := 0;
    while i < |values|
      invariant 0 <= i <= |values|
      invariant MakeParamsSpec(values[..i]) == Ok(params)
    {
      var value := values[i];
      assert values[..i + 1][..i] == values[..i];
      var p: Result<Param, ParamError>;
      if value.ListValue? {
        p := ArrayInspect(value.items);
      } else {
        p := ScalarParam(value);
      }
      if p.Err? {
        MakeParamsErrSticky(values, i + 1);
        return Err(p.error);
      }
      params := params + [p.value];
      i := i + 1;
    }
    assert values[..i] == values;
    r := Ok(params);
  }

  /** Each parameter gets the pair chosen for its own value, in order. */
  lemma {:induction false} MakeParamsPointwise(values: seq<Value>)
    ensures MakeParamsSpec(values).Ok? <==> forall k :: 0 <= k < |values| ==> MakeParam(values[k]).Ok?
    ensures MakeParamsSpec(values).Ok? ==>
              forall k :: 0 <= k < |values| ==> MakeParamsSpec(values).value[k] == MakeParam(values[k]).value
  {
    if values != [] {
      var init := values[..|values| - 1];
      MakeParamsPointwise(init);
      assert forall k :: 0 <= k < |init| ==> init[k] == values[k];
    }
  }
}
