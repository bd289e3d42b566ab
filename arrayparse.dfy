/**
 * `_parse_array`: the reader for PostgreSQL's text form of an array
 * (`{1,2,{3}}`, `{"a b",NULL}`), a four-state character scanner over a stack
 * of lists under construction.
 *
 * The Python code appends a new list to its parent as soon as its `{` is
 * read and keeps a second reference to it on the stack.  The model keeps the
 * stack by value instead: a list under construction lives only on the stack
 * and joins its parent when its `}` is read, or, if it is never closed, when
 * the result is taken at the end.  The parent receives nothing while a child
 * is open, so the order of the children is the same in both.
 */
module ArrayParse {
  import opened Wrappers
  import opened Text
  import Values
  import Numerals

  /** A parsed array: an element converted by the adapter, a `NULL`, or a nested list. */
  datatype Tree<A> = Leaf(a: A) | NullLeaf | Node(kids: seq<Tree<A>>)

  /** `ArrayState`. */
  datatype Mode = Out | InString | InEscape | InValue

  /** The scanner's variables: the state, the stack of open lists and the current element text. */
  datatype PState<A> = PState(mode: Mode, stack: seq<seq<Tree<A>>>, val: string)

  /** IndexError from an empty stack or an empty result; or the exception the adapter raised. */
  datatype ParseError = IndexError | AdapterFailed(text: string)

  function Init<A>(): PState<A>
  {
    PState(Out, [[]], [])
  }

  /** `stack[-1].append(t)` on a non-empty stack. */
  function AddToTop<A>(stack: seq<seq<Tree<A>>>, t: Tree<A>): (r: seq<seq<Tree<A>>>)
    requires |stack| > 0
    ensures |r| == |stack| && r[..|r| - 1] == stack[..|stack| - 1]
    ensures r[|r| - 1] == stack[|stack| - 1] + [t]
  {
    stack[..|stack| - 1] + [stack[|stack| - 1] + [t]]
  }

  /** The adapter applied to an element's text; `None` stands for the exception it raises. */
  function Convert<A>(text: string, adapter: string -> Option<A>): (r: Result<Tree<A>, ParseError>)
    ensures r.Ok? <==> adapter(text).Some?
    ensures r.Ok? ==> r.value == Leaf(adapter(text).value)
    ensures r.Err? ==> r.error == AdapterFailed(text)
  {
    match adapter(text)
    case Some(a) => Ok(Leaf(a))
    case None => Err(AdapterFailed(text))
  }

  /** `stack.pop()`; the popped list joins the list below it. */
  function Pop<A>(st: PState<A>): (r: Result<PState<A>, ParseError>)
    ensures r.Err? <==> st.stack == []
    ensures r.Ok? ==> |r.value.stack| == |st.stack| - 1 && r.value.mode == st.mode && r.value.val == st.val
  {
    var n := |st.stack|;
    if n == 0 then Err(IndexError)
    else if n == 1 then Ok(st.(stack := []))
    else Ok(st.(stack := AddToTop(st.stack[..n - 1], Node(st.stack[n - 1]))))
  }

  /** One character in the `Out` state. */
  function OutChar<A>(st: PState<A>, c: char): (r: Result<PState<A>, ParseError>)
    ensures r.Ok? && c == '{' ==> |r.value.stack| == |st.stack| + 1
    ensures r.Ok? && c == '}' ==> |r.value.stack| == |st.stack| - 1
    ensures r.Err? <==> st.stack == [] && (c == '{' || c == '}')
  {
    if c == '{' then
      if st.stack == [] then Err(IndexError) else Ok(st.(stack := st.stack + [[]]))
    else if c == '}' then Pop(st)
    else if c == ',' then Ok(st)
    else if c == '"' then Ok(st.(mode := InString, val := []))
    else Ok(st.(mode := InValue, val := [c]))
  }

  /** The end of an unquoted element: `NULL` becomes a null, any other text goes through the adapter. */
  function Flush<A>(st: PState<A>, adapter: string -> Option<A>): (r: Result<PState<A>, ParseError>)
    ensures st.mode != InValue ==> r == Ok(st)
    ensures r.Ok? ==> r.value.mode != InValue
  {
    if st.mode != InValue then Ok(st)
    else if st.stack == [] then Err(IndexError)
    else
      var leaf :- if st.val == "NULL" then Ok(NullLeaf) else Convert(st.val, adapter);
      Ok(PState(Out, AddToTop(st.stack, leaf), st.val))
  }

  /** One iteration of the loop of `_parse_array`. */
  function PStep<A>(st: PState<A>, c: char, adapter: string -> Option<A>): Result<PState<A>, ParseError>
  {
    match st.mode
    case InValue =>
      if c == '}' || c == ',' then
        var out :- Flush(st, adapter);
        OutChar(out, c)
      else Ok(st.(val := st.val + [c]))
    case Out => OutChar(st, c)
    case InString =>
      if c == '"' then
        if st.stack == [] then Err(IndexError)
        else
          var leaf :- Convert(st.val, adapter);
          Ok(PState(Out, AddToTop(st.stack, leaf), st.val))
      else if c == '\\' then Ok(st.(mode := InEscape))
      else Ok(st.(val := st.val + [c]))
    case InEscape => Ok(st.(mode := InString, val := st.val + [c]))
  }

  /** The loop of `_parse_array` over `data`, from the state `st`; the first error stops it. */
  function Run<A>(st: PState<A>, data: string, adapter: string -> Option<A>): Result<PState<A>, ParseError>
  {
    if data == [] then Ok(st)
    else
      var p :- Run(st, data[..|data| - 1], adapter);
      PStep(p, data[|data| - 1], adapter)
  }

  /** Every open list joins its parent, innermost first, leaving the bottom list. */
  function CloseAll<A>(stack: seq<seq<Tree<A>>>): (r: seq<Tree<A>>)
    requires |stack| > 0
    ensures |stack| == 1 ==> r == stack[0]
    ensures |stack| > 1 ==> |r| == |stack[0]| + 1
    decreases |stack|
  {
    var n := |stack|;
    if n == 1 then stack[0] else CloseAll(AddToTop(stack[..n - 1], Node(stack[n - 1])))
  }

  /** `return stack[0][0]`. */
  function Finish<A>(st: PState<A>): (r: Result<Tree<A>, ParseError>)
    ensures r.Err? <==> st.stack == [] || (|st.stack| == 1 && st.stack[0] == [])
    ensures r.Err? ==> r.error == IndexError
  {
    if st.stack == [] then Err(IndexError)
    else
      var root := CloseAll(st.stack);
      if root == [] then Err(IndexError) else Ok(root[0])
  }

  /** `_parse_array(data, adapter)`. */
  function Parse<A>(data: string, adapter: string -> Option<A>): Result<Tree<A>, ParseError>
  {
    var st :- Run(Init(), data, adapter);
    Finish(st)
  }

  lemma {:induction false} RunErrSticky<A>(data: string, i: nat, adapter: string -> Option<A>)
    requires i <= |data| && Run(Init(), data[..i], adapter).Err?
    ensures Run(Init(), data, adapter) == Run(Init(), data[..i], adapter)
    decreases |data| - i
  {
    if i < |data| {
      assert data[..i + 1][..i] == data[..i];
      RunErrSticky(data, i + 1, adapter);
    } else {
      assert data[..i] == data;
    }
  }

  /** The loop of `_parse_array`, proved to compute `Parse`. */
  method ParseArray<A>(data: string, adapter: string -> Option<A>) returns (r: Result<Tree<A>, ParseError>)
    ensures r == Parse(data, adapter)
  {
    var mode := Out;
    var stack: seq<seq<Tree<A>>> := [[]];
    var val := "";
    var i := 0;
    while i < |data|
      invariant 0 <= i <= |data|
      invariant Run(Init(), data[..i], adapter) == Ok(PState(mode, stack, val))
    {
      var c := data[i];
      assert data[..i + 1][..i] == data[..i];
      ghost var before := PState(mode, stack, val);
      if mode == InValue {
        if c == '}' || c == ',' {
          if stack == [] {
            RunErrSticky(data, i + 1, adapter);
            return Err(IndexError);
          }
          var leaf: Tree<A>;
          if val == "NULL" {
            leaf := NullLeaf;
          } else {
            var converted := adapter(val);
            if converted.None? {
              RunErrSticky(data, i + 1, adapter);
              return Err(AdapterFailed(val));
            }
            leaf := Leaf(converted.value);
          }
          stack := stack[..|stack| - 1] + [stack[|stack| - 1] + [leaf]];
          mode := Out;
        } else {
          val := val + [c];
        }
      }
      if mode == Out {
        if c == '{' {
          if stack == [] {
            RunErrSticky(data, i + 1, adapter);
            return Err(IndexError);
          }
          stack := stack + [[]];
        } else if c == '}' {
          if stack == [] {
            RunErrSticky(data, i + 1, adapter);
            return Err(IndexError);
          }
          if |stack| == 1 {
            stack := [];
          } else {
            var top := stack[|stack| - 1];
            stack := stack[..|stack| - 1];
            stack := stack[..|stack| - 1] + [stack[|stack| - 1] + [Node(top)]];
          }
        } else if c == ',' {
        } else if c == '"' {
          val := [];
          mode := InString;
        } else {
          val := [c];
          mode := InValue;
        }
      } else if mode == InString {
        if c == '"' {
          if stack == [] {
            RunErrSticky(data, i + 1, adapter);
            return Err(IndexError);
          }
          var converted := adapter(val);
          if converted.None? {
            RunErrSticky(data, i + 1, adapter);
            return Err(AdapterFailed(val));
          }
          stack := stack[..|stack| - 1] + [stack[|stack| - 1] + [Leaf(converted.value)]];
          mode := Out;
        } else if c == '\\' {
          mode := InEscape;
        } else {
          val := val + [c];
        }
      } else if mode == InEscape {
        val := val + [c];
        mode := InString;
      }
      assert PStep(before, c, adapter) == Ok(PState(mode, stack, val));
      i := i + 1;
    }
    assert data[..i] == data;
    r := Finish(PState(mode, stack, val));
  }
  /** Reading `a` then `b` is reading `a + b`. */
  lemma {:induction false} RunAppend<A>(st: PState<A>, a: string, b: string, adapter: string -> Option<A>)
    ensures Run(st, a + b, adapter) ==
              match Run(st, a, adapter)
              case Err(e) => Err(e)
              case Ok(m) => Run(m, b, adapter)
    decreases |b|
  {
    if b == [] {
      assert a + b == a;
    } else {
      assert (a + b)[..|a + b| - 1] == a + b[..|b| - 1];
      RunAppend(st, a, b[..|b| - 1], adapter);
    }
  }

  lemma {:induction false} RunSnoc<A>(st: PState<A>, data: string, c: char, adapter: string -> Option<A>)
    ensures Run(st, data + [c], adapter) ==
              match Run(st, data, adapter)
              case Err(e) => Err(e)
              case Ok(m) => PStep(m, c, adapter)
  {
    assert (data + [c])[..|data|] == data;
  }

  lemma {:induction false} RunOne<A>(st: PState<A>, c: char, adapter: string -> Option<A>)
    ensures Run(st, [c], adapter) == PStep(st, c, adapter)
  {
    assert [c][..0] == [];
  }

  lemma {:induction false} AddToTopOf<A>(pre: seq<seq<Tree<A>>>, top: seq<Tree<A>>, t: Tree<A>)
    ensures AddToTop(pre + [top], t) == pre + [top + [t]]
  {
    assert (pre + [top])[..|pre|] == pre;
  }

  /** `int`, the adapter of `array_int_in`. */
  function IntAdapter(s: string): Option<int>
  {
    Numerals.ParseInt(s)
  }

  /**
   * An unquoted `NULL`, ended by `,` or `}`, adds a null to the open list
   * whatever the adapter would make of that text; a quoted `"NULL"` is
   * handed to the adapter like any other text.
   */
  lemma {:induction false} NullIsNotAdapted<A>(stack: seq<seq<Tree<A>>>, c: char, adapter: string -> Option<A>)
    requires |stack| > 0 && (c == ',' || c == '}')
    ensures PStep(PState(InValue, stack, "NULL"), c, adapter) == OutChar(PState(Out, AddToTop(stack, NullLeaf), "NULL"), c)
    ensures PStep(PState(InString, stack, "NULL"), '"', adapter).Ok? <==> adapter("NULL").Some?
    ensures PStep(PState(InString, stack, "NULL"), '"', adapter).Ok? ==>
      PStep(PState(InString, stack, "NULL"), '"', adapter).value == PState(Out, AddToTop(stack, Leaf(adapter("NULL").value)), "NULL")
  {
  }

  /** Nothing read, or the outer list closed one time too many, leaves no result: IndexError. */
  lemma {:induction false} ParseUnbalanced<A>(adapter: string -> Option<A>)
    ensures Parse("", adapter) == Err(IndexError)
    ensures Parse("}", adapter) == Err(IndexError)
    ensures Parse("{}}{", adapter) == Err(IndexError)
  {
    var st: PState<A> := Init();
    RunOne(st, '}', adapter);
    var open: seq<seq<Tree<A>>> := [[], []];
    assert [[]] + [[]] == open;
    RunOne(st, '{', adapter);
    assert "{" + ['}'] == "{}";
    RunSnoc(st, "{", '}', adapter);
    assert "{}" + ['}'] == "{}}";
    RunSnoc(st, "{}", '}', adapter);
    assert "{}}" + ['{'] == "{}}{";
    RunSnoc(st, "{}}", '{', adapter);
  }

  /** A list left open is still part of the result, as the shared reference makes it in the source. */
  lemma {:induction false} ParseUnclosed<A>(adapter: string -> Option<A>)
    ensures Parse("{{}", adapter) == Ok(Node([Node([])]))
  {
    var st: PState<A> := Init();
    var open: seq<seq<Tree<A>>> := [[], []];
    assert [[]] + [[]] == open;
    RunOne(st, '{', adapter);
    var three: seq<seq<Tree<A>>> := [[], [], []];
    assert open + [[]] == three;
    assert "{" + ['{'] == "{{";
    RunSnoc(st, "{", '{', adapter);
    AddToTopOf<A>([[]], [], Node([]));
    assert three[..2] == [[]] + [[]];
    var empty: Tree<A> := Node([]);
    assert [] + [empty] == [empty];
    assert AddToTop(three[..2], Node(three[2])) == [[], [Node([])]];
    assert "{{" + ['}'] == "{{}";
    RunSnoc(st, "{{", '}', adapter);
    assert Run(st, "{{}", adapter) == Ok(PState(Out, [[], [Node([])]], ""));
    var closing: seq<seq<Tree<A>>> := [[], [Node([])]];
    AddToTopOf<A>([], [], Node([Node([])]));
    assert closing[..1] == [] + [[]];
    assert CloseAll(closing) == [Node([Node([])])];
  }
}
