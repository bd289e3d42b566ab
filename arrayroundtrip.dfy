/**
 * Reading back what the driver writes: the text `_walk_array` produces for an
 * array of strings and NULLs (`send_array` with `text_out`) is parsed by
 * `_parse_array` with the text adapter into the same nesting, element for
 * element.
 */
module ArrayRoundTrip {
  import opened Wrappers
  import opened Text
  import opened ArrayParse
  import Values

  /** The adapter of `array_text_in`: `text_in`, which never fails. */
  function TextAdapter(s: string): Option<string>
  {
    Some(s)
  }

  /** An array whose leaves are all strings or `None`. */
  predicate TextItems(items: seq<Values.Value>)
    decreases items
  {
    forall k :: 0 <= k < |items| ==>
      if items[k].ListValue? then TextItems(items[k].items) else items[k].NoneValue? || items[k].StrValue?
  }

  /** The tree such an array is read back as: a string leaf, `NULL`, or a nested list. */
  function ToTree(v: Values.Value): Tree<string>
    requires !v.ListValue?
  {
    if v.StrValue? then Leaf(v.s) else NullLeaf
  }

  function ToTrees(items: seq<Values.Value>): (r: seq<Tree<string>>)
    ensures |r| == |items|
    decreases items
  {
    if items == [] then []
    else
      var last := items[|items| - 1];
      ToTrees(items[..|items| - 1]) + [if last.ListValue? then Node(ToTrees(last.items)) else ToTree(last)]
  }

  function WalkText(items: seq<Values.Value>): Result<seq<string>, Values.ParamError>
  {
    Values.WalkItems(items, Values.StrType, Values.TextOut)
  }

  /** The scan reached `stack`, possibly with one unquoted element still to be ended by `,` or `}`. */
  predicate Lands(r: Result<PState<string>, ParseError>, stack: seq<seq<Tree<string>>>)
  {
    r.Ok? && (r.value.mode == Out || r.value.mode == InValue) &&
    var f := Flush(r.value, TextAdapter);
    f.Ok? && f.value.mode == Out && f.value.stack == stack
  }

  // ---------------------------------------------------------------------------
  // The scan, piece by piece
  // ---------------------------------------------------------------------------

  /** Inside quotes, the escaped text of `s` adds exactly `s` to the element. */
  lemma {:induction false} EscapeRun<A>(st: PState<A>, s: string, adapter: string -> Option<A>)
    requires st.mode == InString
    ensures Run(st, Values.Escape(s), adapter) == Ok(st.(val := st.val + s))
    decreases |s|
  {
    if s == [] {
      assert st.val + s == st.val;
    } else {
      var init := s[..|s| - 1];
      var c := s[|s| - 1];
      EscapeRun(st, init, adapter);
      var m := st.(val := st.val + init);
      RunAppend(st, Values.Escape(init), Values.EscapeChar(c), adapter);
      if c == '\\' || c == '"' {
        RunAppend(m, ['\\'], [c], adapter);
        assert ['\\'] + [c] == Values.EscapeChar(c);
        RunOne(m, '\\', adapter);
        RunOne(m.(mode := InEscape), c, adapter);
      } else {
        RunOne(m, c, adapter);
      }
      assert st.val + init + [c] == st.val + s;
    }
  }

  /** An unquoted element: the scan collects its text and waits for the `,` or `}` after it. */
  lemma {:induction false} PlainRun<A>(st: PState<A>, t: string, adapter: string -> Option<A>)
    requires st.mode == Out && |t| > 0
    requires t[0] != '{' && t[0] != '"'
    requires forall k :: 0 <= k < |t| ==> t[k] != '}' && t[k] != ','
    ensures Run(st, t, adapter) == Ok(PState(InValue, st.stack, t))
    decreases |t|
  {
    var init := t[..|t| - 1];
    if init == [] {
      assert t == [t[0]];
      RunOne(st, t[0], adapter);
    } else {
      PlainRun(st, init, adapter);
      RunAppend(st, init, [t[|t| - 1]], adapter);
      assert init + [t[|t| - 1]] == t;
      RunOne(PState(InValue, st.stack, init), t[|t| - 1], adapter);
    }
  }

  /** Text with no backslash after escaping had nothing to escape. */
  lemma {:induction false} EscapePlain(s: string)
    requires '\\' !in Values.Escape(s)
    ensures Values.Escape(s) == s && '"' !in s
    decreases |s|
  {
    if s != [] {
      var init := s[..|s| - 1];
      EscapePlain(init);
      assert init + [s[|s| - 1]] == s;
    }
  }

  /** `NULL`, unquoted, lands as a null. */
  lemma {:induction false} NullRun(st: PState<string>)
    requires st.mode == Out && |st.stack| > 0
    ensures Lands(Run(st, "NULL", TextAdapter), AddToTop(st.stack, NullLeaf))
  {
    PlainRun(st, "NULL", TextAdapter);
  }

  /** A quoted string lands as its unescaped text. */
  lemma {:induction false} QuotedRun(st: PState<string>, s: string)
    requires st.mode == Out && |st.stack| > 0
    ensures Run(st, "\"" + Values.Escape(s) + "\"", TextAdapter) == Ok(PState(Out, AddToTop(st.stack, Leaf(s)), s))
  {
    var t := Values.Escape(s);
    RunOne(st, '"', TextAdapter);
    var m := st.(mode := InString, val := []);
    EscapeRun(m, s, TextAdapter);
    assert [] + s == s;
    RunAppend(st, "\"", t, TextAdapter);
    RunAppend(st, "\"" + t, "\"", TextAdapter);
    RunOne(m.(val := s), '"', TextAdapter);
  }

  /** A string written without quotes lands as itself. */
  lemma {:induction false} UnquotedRun(st: PState<string>, s: string)
    requires st.mode == Out && |st.stack| > 0
    requires !Values.NeedsQuotes(Values.Escape(s))
    ensures Values.Escape(s) == s
    ensures Lands(Run(st, s, TextAdapter), AddToTop(st.stack, Leaf(s)))
  {
    EscapePlain(s);
    PlainRun(st, s, TextAdapter);
  }

  /** A string or `None` element, as `_walk_array` writes it, lands as its leaf. */
  lemma {:induction false} LeafRun(v: Values.Value, st: PState<string>)
    requires v.NoneValue? || v.StrValue?
    requires st.mode == Out && |st.stack| > 0
    ensures Values.WalkLeaf(v, Values.StrType, Values.TextOut).Ok?
    ensures Lands(Run(st, Values.WalkLeaf(v, Values.StrType, Values.TextOut).value, TextAdapter),
                  AddToTop(st.stack, ToTree(v)))
  {
    if v.NoneValue? {
      NullRun(st);
    } else if Values.NeedsQuotes(Values.Escape(v.s)) {
      QuotedRun(st, v.s);
    } else {
      UnquotedRun(st, v.s);
    }
  }

  /** The `,` or `}` after an element first ends a pending unquoted element. */
  lemma {:induction false} Terminate(r: Result<PState<string>, ParseError>, stack: seq<seq<Tree<string>>>, c: char)
    requires Lands(r, stack) && (c == ',' || c == '}')
    ensures PStep(r.value, c, TextAdapter) == OutChar(Flush(r.value, TextAdapter).value, c)
  {
  }

  /** The stack with the trees `ts` added, in order, to the list on top. */
  function AddAll(stack: seq<seq<Tree<string>>>, ts: seq<Tree<string>>): seq<seq<Tree<string>>>
    requires |stack| > 0
  {
    stack[..|stack| - 1] + [stack[|stack| - 1] + ts]
  }

  lemma {:induction false} AddAllSnoc(stack: seq<seq<Tree<string>>>, ts: seq<Tree<string>>, t: Tree<string>)
    requires |stack| > 0
    ensures AddToTop(AddAll(stack, ts), t) == AddAll(stack, ts + [t])
  {
    assert stack[|stack| - 1] + ts + [t] == stack[|stack| - 1] + (ts + [t]);
  }

  lemma {:induction false} AddAllNone(stack: seq<seq<Tree<string>>>)
    requires |stack| > 0
    ensures AddAll(stack, []) == stack
  {
    assert stack[|stack| - 1] + [] == stack[|stack| - 1];
  }

  /** After landing, a comma and then a landing element land in turn. */
  lemma {:induction false} CommaThen(st: PState<string>, j0: string, s1: seq<seq<Tree<string>>>, t: string, s2: seq<seq<Tree<string>>>)
    requires Lands(Run(st, j0, TextAdapter), s1)
    requires Lands(Run(Flush(Run(st, j0, TextAdapter).value, TextAdapter).value, t, TextAdapter), s2)
    ensures Lands(Run(st, j0 + "," + t, TextAdapter), s2)
  {
    var r0 := Run(st, j0, TextAdapter);
    RunAppend(st, j0, ",", TextAdapter);
    RunOne(r0.value, ',', TextAdapter);
    Terminate(r0, s1, ',');
    RunAppend(st, j0 + ",", t, TextAdapter);
  }

  lemma {:induction false} TextItemsSnoc(items: seq<Values.Value>)
    requires items != [] && TextItems(items)
    ensures TextItems(items[..|items| - 1])
    ensures var last := items[|items| - 1];
            if last.ListValue? then TextItems(last.items) else last.NoneValue? || last.StrValue?
  {
    var init := items[..|items| - 1];
    forall k | 0 <= k < |init|
      ensures if init[k].ListValue? then TextItems(init[k].items) else init[k].NoneValue? || init[k].StrValue?
    {
      assert init[k] == items[k];
    }
  }

  /** The comma-joined elements of a list land, in order, on the list being built. */
  lemma {:induction false} ItemsRun(items: seq<Values.Value>, st: PState<string>)
    requires TextItems(items)
    requires st.mode == Out && |st.stack| > 0
    ensures WalkText(items).Ok?
    ensures Lands(Run(st, Join(",", WalkText(items).value), TextAdapter), AddAll(st.stack, ToTrees(items)))
    decreases items, 0
  {
    if items == [] {
      AddAllNone(st.stack);
    } else {
      var init := items[..|items| - 1];
      var last := items[|items| - 1];
      TextItemsSnoc(items);
      ItemsRun(init, st);
      var j0 := Join(",", WalkText(init).value);
      var s1 := AddAll(st.stack, ToTrees(init));
      var m := Flush(Run(st, j0, TextAdapter).value, TextAdapter).value;
      var lastText: string;
      var lastTree: Tree<string>;
      if last.ListValue? {
        ListRun(last.items, m);
        lastText := Values.Walk(last.items, Values.StrType, Values.TextOut).value;
        lastTree := Node(ToTrees(last.items));
      } else {
        LeafRun(last, m);
        lastText := Values.WalkLeaf(last, Values.StrType, Values.TextOut).value;
        lastTree := ToTree(last);
      }
      assert Lands(Run(m, lastText, TextAdapter), AddToTop(s1, lastTree));
      AddAllSnoc(st.stack, ToTrees(init), lastTree);
      assert ToTrees(items) == ToTrees(init) + [lastTree];
      assert WalkText(items) == Ok(WalkText(init).value + [lastText]);
      var parts := WalkText(items).value;
      assert parts[..|parts| - 1] == WalkText(init).value;
      if init == [] {
        assert Join(",", parts) == lastText;
        AddAllNone(st.stack);
      } else {
        assert Join(",", parts) == j0 + "," + lastText;
        CommaThen(st, j0, s1, lastText, AddAll(st.stack, ToTrees(items)));
      }
    }
  }

  /** A nested list, braces included, lands as one `Node` on the list being built. */
  lemma {:induction false} ListRun(items: seq<Values.Value>, st: PState<string>)
    requires TextItems(items)
    requires st.mode == Out && |st.stack| > 0
    ensures Values.Walk(items, Values.StrType, Values.TextOut).Ok?
    ensures var r := Run(st, Values.Walk(items, Values.StrType, Values.TextOut).value, TextAdapter);
            r.Ok? && r.value.mode == Out && r.value.stack == AddToTop(st.stack, Node(ToTrees(items)))
    decreases items, 1
  {
    var s1 := st.(stack := st.stack + [[]]);
    RunOne(st, '{', TextAdapter);
    ItemsRun(items, s1);
    var j := Join(",", WalkText(items).value);
    var text := Values.Walk(items, Values.StrType, Values.TextOut).value;
    assert text == "{" + j + "}";
    var inner := AddAll(s1.stack, ToTrees(items));
    assert inner == st.stack + [ToTrees(items)] by {
      assert s1.stack[..|s1.stack| - 1] == st.stack;
      assert [] + ToTrees(items) == ToTrees(items);
    }
    var r1 := Run(s1, j, TextAdapter);
    RunAppend(st, "{", j, TextAdapter);
    RunAppend(st, "{" + j, "}", TextAdapter);
    RunOne(r1.value, '}', TextAdapter);
    Terminate(r1, inner, '}');
    assert inner[..|inner| - 1] == st.stack;
  }

  /**
   * `_parse_array(_walk_array(a, str, text_out), text_in)` rebuilds `a`: every string,
   * whatever braces, commas, quotes or backslashes it holds, and every `None`, at its place.
   */
  lemma {:induction false} TextArrayRoundTrip(items: seq<Values.Value>)
    requires TextItems(items)
    ensures Values.Walk(items, Values.StrType, Values.TextOut).Ok?
    ensures Parse(Values.Walk(items, Values.StrType, Values.TextOut).value, TextAdapter) == Ok(Node(ToTrees(items)))
  {
    ListRun(items, Init());
    var t := Node(ToTrees(items));
    var root: seq<seq<Tree<string>>> := [[]];
    assert Init<string>().stack == root;
    assert root[..0] == [] && root[0] + [t] == [t];
    assert AddToTop(root, t) == [[t]];
  }
}
