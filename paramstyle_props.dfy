/**
 * What `convert_paramstyle` promises, proved about the scanner fold `Run`:
 * named and pyformat placeholders are numbered by first appearance and
 * `make_args` lines the mapping's values up with those numbers; qmark and
 * format number their markers 1, 2, ... in order; numeric only ever turns a
 * lone `:` into `$`; quoted text and comments pass through untouched.
 */
module ParamstyleProps {
  import opened Wrappers
  import opened Paramstyle

  /** The `$n` numbers of the rewritten query, in order. */
  function Markers(out: seq<Chunk>): seq<nat>
  {
    if out == [] then []
    else
      var rest := Markers(out[..|out| - 1]);
      match out[|out| - 1]
      case Lit(_) => rest
      case Marker(n) => rest + [n]
  }

  lemma {:induction false} MarkersSnoc(out: seq<Chunk>, ch: Chunk)
    ensures Markers(out + [ch]) == if ch.Marker? then Markers(out) + [ch.n] else Markers(out)
  {
    assert (out + [ch])[..|out|] == out;
  }

  lemma {:induction false} MarkersEmit(out: seq<Chunk>, emit: Option<Chunk>)
    ensures emit.None? || emit.value.Lit? ==> Markers(Emit(out, emit)) == Markers(out)
    ensures emit.Some? && emit.value.Marker? ==> Markers(Emit(out, emit)) == Markers(out) + [emit.value.n]
  {
    if emit.Some? {
      MarkersSnoc(out, emit.value);
    }
  }

  /** The names of s in order of first appearance. */
  function Dedup(s: seq<string>): seq<string>
  {
    if s == [] then []
    else
      var d := Dedup(s[..|s| - 1]);
      if s[|s| - 1] in d then d else d + [s[|s| - 1]]
  }

  predicate Distinct(s: seq<string>)
  {
    forall a, b :: 0 <= a < b < |s| ==> s[a] != s[b]
  }

  lemma {:induction false} DedupProps(s: seq<string>)
    ensures Distinct(Dedup(s))
    ensures forall x :: x in Dedup(s) <==> x in s
  {
    if s != [] {
      var init := s[..|s| - 1];
      DedupProps(init);
      assert s == init + [s[|s| - 1]];
    }
  }

  lemma {:induction false} DedupSnoc(s: seq<string>, x: string)
    ensures Dedup(s + [x]) == if x in Dedup(s) then Dedup(s) else Dedup(s) + [x]
  {
    assert (s + [x])[..|s|] == s;
  }

  /** The placeholder names already numbered: all but a name still being read. */
  function Done(st: Scanner): seq<string>
  {
    if st.lex == InParamName && |st.placeholders| > 0 then st.placeholders[..|st.placeholders| - 1]
    else st.placeholders
  }

  /**
   * The named-placeholder invariant: the numbered names are the names met so
   * far in order of first appearance, and the j-th marker numbers the j-th
   * name met.
   */
  ghost predicate Binding(st: Scanner)
  {
    var d := Done(st);
    var m := Markers(st.out);
    && d == Dedup(st.names)
    && |m| == |st.names|
    && forall j :: 0 <= j < |m| ==> 1 <= m[j] <= |d| && d[m[j] - 1] == st.names[j]
  }

  lemma {:induction false} ResolveBinding(st: Scanner)
    requires |st.placeholders| > 0 && st.lex == InParamName && Binding(st)
    ensures Binding(Resolve(st))
  {
    var p := st.placeholders;
    if IndexOf(p[..|p| - 1], p[|p| - 1]).Some? {
      ResolveRepeat(st);
    } else {
      ResolveFresh(st);
    }
  }

  /** A repeated name reuses the number of its first appearance. */
  lemma {:induction false} ResolveRepeat(st: Scanner)
    requires |st.placeholders| > 0 && st.lex == InParamName && Binding(st)
    requires IndexOf(st.placeholders[..|st.placeholders| - 1], st.placeholders[|st.placeholders| - 1]).Some?
    ensures Binding(Resolve(st))
  {
    var p := st.placeholders;
    var name := p[|p| - 1];
    var earlier := p[..|p| - 1];
    var k := IndexOf(earlier, name).value;
    ResolveRepeatShape(st);
    BindingRepeat(st, Resolve(st), k + 1, name);
  }

  lemma {:induction false} ResolveRepeatShape(st: Scanner)
    requires |st.placeholders| > 0 && st.lex == InParamName
    requires IndexOf(st.placeholders[..|st.placeholders| - 1], st.placeholders[|st.placeholders| - 1]).Some?
    ensures var p := st.placeholders;
      var k := IndexOf(p[..|p| - 1], p[|p| - 1]).value;
      var r := Resolve(st);
      && r.names == st.names + [p[|p| - 1]] && Markers(r.out) == Markers(st.out) + [k + 1]
      && Done(r) == Done(st) && 1 <= k + 1 <= |Done(st)| && Done(st)[k] == p[|p| - 1]
  {
    var p := st.placeholders;
    var k := IndexOf(p[..|p| - 1], p[|p| - 1]).value;
    MarkersSnoc(st.out, Marker(k + 1));
  }

  /** A marker reusing the number k of an already numbered name keeps the invariant. */
  lemma {:induction false} BindingRepeat(st: Scanner, r: Scanner, k: nat, name: string)
    requires Binding(st) && Done(r) == Done(st) && r.names == st.names + [name]
    requires Markers(r.out) == Markers(st.out) + [k] && 1 <= k <= |Done(st)| && Done(st)[k - 1] == name
    ensures Binding(r)
  {
    assert name in Dedup(st.names);
    DedupSnoc(st.names, name);
    BindingExtend(r, Done(st), Markers(st.out), st.names, k, name);
  }

  /** A new name gets the next number. */
  lemma {:induction false} ResolveFresh(st: Scanner)
    requires |st.placeholders| > 0 && st.lex == InParamName && Binding(st)
    requires IndexOf(st.placeholders[..|st.placeholders| - 1], st.placeholders[|st.placeholders| - 1]).None?
    ensures Binding(Resolve(st))
  {
    var p := st.placeholders;
    var name := p[|p| - 1];
    var earlier := p[..|p| - 1];
    ResolveFreshShape(st);
    BindingFresh(st, Resolve(st), name);
  }

  lemma {:induction false} ResolveFreshShape(st: Scanner)
    requires |st.placeholders| > 0 && st.lex == InParamName
    requires IndexOf(st.placeholders[..|st.placeholders| - 1], st.placeholders[|st.placeholders| - 1]).None?
    ensures var p := st.placeholders;
      var r := Resolve(st);
      && r.names == st.names + [p[|p| - 1]] && Markers(r.out) == Markers(st.out) + [|Done(st)| + 1]
      && Done(r) == Done(st) + [p[|p| - 1]] && p[|p| - 1] !in Done(st)
  {
    var p := st.placeholders;
    MarkersSnoc(st.out, Marker(|p|));
    assert p == p[..|p| - 1] + [p[|p| - 1]];
  }

  /** A marker numbering a new name by the next number keeps the invariant. */
  lemma {:induction false} BindingFresh(st: Scanner, r: Scanner, name: string)
    requires Binding(st) && Done(r) == Done(st) + [name] && name !in Done(st) && r.names == st.names + [name]
    requires Markers(r.out) == Markers(st.out) + [|Done(st)| + 1]
    ensures Binding(r)
  {
    var d, m := Done(r), Markers(st.out);
    DedupSnoc(st.names, name);
    forall j | 0 <= j < |m|
      ensures 1 <= m[j] <= |d| && d[m[j] - 1] == st.names[j]
    {
      assert d[m[j] - 1] == Done(st)[m[j] - 1];
    }
    BindingExtend(r, d, m, st.names, |d|, name);
  }

  /** Binding after one more marker k for name, given it held for the old markers. */
  lemma {:induction false} BindingExtend(r: Scanner, d: seq<string>, m: seq<nat>, names: seq<string>, k: nat, name: string)
    requires Done(r) == d && Dedup(r.names) == d
    requires Markers(r.out) == m + [k] && r.names == names + [name]
    requires |m| == |names| && 1 <= k <= |d| && d[k - 1] == name
    requires forall j :: 0 <= j < |m| ==> 1 <= m[j] <= |d| && d[m[j] - 1] == names[j]
    ensures Binding(r)
  {
  }

  lemma {:induction false} ParamNameBinding(st: Scanner, c: char, next: Option<char>)
    requires Valid(st) && st.lex == InParamName && Binding(st)
    requires st.style == Named || st.style == PyFormat
    ensures Binding(ParamNameStep(st, c, next))
  {
    if st.style == Named {
      NamedNameBinding(st, c, next);
    } else {
      PyNameBinding(st, c, next);
    }
  }

  lemma {:induction false} NamedNameBinding(st: Scanner, c: char, next: Option<char>)
    requires Valid(st) && st.lex == InParamName && Binding(st) && st.style == Named
    ensures Binding(ParamNameStep(st, c, next))
  {
    var ext := st.(placeholders := ExtendName(st.placeholders, c));
    ExtendBinding(st, c);
    if next.None? || (!IsAlnum(next.value) && next.value != '_') {
      ResolveBinding(ext);
    }
  }

  lemma {:induction false} PyNameBinding(st: Scanner, c: char, next: Option<char>)
    requires Valid(st) && st.lex == InParamName && Binding(st) && st.style == PyFormat
    ensures Binding(ParamNameStep(st, c, next))
  {
    if st.prev == Some(')') && c == 's' {
      ResolveBinding(st);
    } else if c != '(' && c != ')' {
      ExtendBinding(st, c);
    }
  }

  /** Another character of the name being read changes nothing already numbered. */
  lemma {:induction false} ExtendBinding(st: Scanner, c: char)
    requires st.lex == InParamName && |st.placeholders| > 0 && Binding(st)
    ensures Binding(st.(placeholders := ExtendName(st.placeholders, c)))
  {
    var p := st.placeholders;
    var ext := st.(placeholders := ExtendName(p, c));
    assert ExtendName(p, c)[..|p| - 1] == p[..|p| - 1];
    BindingSame(st, ext);
  }

  /** One scanner step keeps the invariant while the style stays named or pyformat. */
  lemma {:induction false} StepBinding(st: Scanner, c: char, next: Option<char>)
    requires Valid(st) && Binding(st)
    requires st.style == Named || st.style == PyFormat
    requires Step(st, c, next).Ok? && Step(st, c, next).value.style == st.style
    ensures Binding(Step(st, c, next).value)
  {
    if st.lex == InParamName {
      StepBindingName(st, c, next);
    } else if st.lex == Outside {
      StepBindingOutside(st, c, next);
    } else {
      StepBindingQuoted(st, c, next);
    }
  }

  lemma {:induction false} StepBindingName(st: Scanner, c: char, next: Option<char>)
    requires Valid(st) && Binding(st) && st.lex == InParamName
    requires st.style == Named || st.style == PyFormat
    requires Step(st, c, next).Ok?
    ensures Binding(Step(st, c, next).value)
  {
    var r := Step(st, c, next).value;
    var p := ParamNameStep(st, c, next);
    ParamNameBinding(st, c, next);
    assert r.lex == p.lex && r.placeholders == p.placeholders && r.names == p.names && r.out == p.out;
    BindingSame(p, r);
  }

  lemma {:induction false} StepBindingOutside(st: Scanner, c: char, next: Option<char>)
    requires Valid(st) && Binding(st) && st.lex == Outside
    requires st.style == Named || st.style == PyFormat
    requires Step(st, c, next).Ok? && Step(st, c, next).value.style == st.style
    ensures Binding(Step(st, c, next).value)
  {
    var r := Step(st, c, next).value;
    var o := OutsideStep(st, c, next).value;
    OutsideBinding(st, c, next);
    assert r.lex == o.lex && r.placeholders == o.placeholders && r.names == o.names && r.out == o.out;
    BindingSame(o, r);
  }

  lemma {:induction false} StepBindingQuoted(st: Scanner, c: char, next: Option<char>)
    requires Valid(st) && Binding(st) && st.lex != Outside && st.lex != InParamName
    requires Step(st, c, next).Ok?
    ensures Binding(Step(st, c, next).value)
  {
    var r := Step(st, c, next).value;
    assert r.out == st.out + [Lit(c)] && r.names == st.names && r.placeholders == st.placeholders;
    assert r.lex != InParamName;
    MarkersSnoc(st.out, Lit(c));
    BindingSame(st, r);
  }

  lemma {:induction false} OutsideBinding(st: Scanner, c: char, next: Option<char>)
    requires Valid(st) && Binding(st) && st.lex == Outside
    requires st.style == Named || st.style == PyFormat
    requires OutsideStep(st, c, next).Ok? && OutsideStep(st, c, next).value.style == st.style
    ensures Binding(OutsideStep(st, c, next).value)
  {
    var o := OutsideStep(st, c, next).value;
    OutsideShape(st, c, next);
    if o.lex == InParamName {
      assert o.placeholders[..|o.placeholders| - 1] == st.placeholders;
    } else {
      MarkersSnoc(st.out, Lit(c));
    }
    BindingSame(st, o);
  }

  /** Outside quoted text, a named or pyformat step either opens a name or copies the character. */
  lemma {:induction false} OutsideShape(st: Scanner, c: char, next: Option<char>)
    requires Valid(st) && st.lex == Outside
    requires st.style == Named || st.style == PyFormat
    requires OutsideStep(st, c, next).Ok? && OutsideStep(st, c, next).value.style == st.style
    ensures var o := OutsideStep(st, c, next).value;
      && o.names == st.names
      && (o.lex == InParamName ==> o.placeholders == st.placeholders + [""] && o.out == st.out)
      && (o.lex != InParamName ==> o.placeholders == st.placeholders && o.out == st.out + [Lit(c)])
  {
  }

  /** Binding carries over a step that numbers no name. */
  lemma {:induction false} BindingSame(st: Scanner, r: Scanner)
    requires Binding(st)
    requires Done(r) == Done(st) && r.names == st.names && Markers(r.out) == Markers(st.out)
    ensures Binding(r)
  {
  }

  lemma {:induction false} RunBinding(style: Style, q: string, n: nat)
    requires style == Named || style == PyFormat
    requires n <= |q| && Run(style, q, n).Ok? && Run(style, q, n).value.style == style
    ensures Binding(Run(style, q, n).value)
  {
    if n > 0 {
      var prior := Run(style, q, n - 1);
      assert Run(style, q, n) == Step(prior.value, q[n - 1], Next(q, n - 1));
      RunBinding(style, q, n - 1);
      StepBinding(prior.value, q[n - 1], Next(q, n - 1));
    }
  }

  /** A name cannot still be open after the last character of a named-style query. */
  lemma {:induction false} NamedEndsOutsideName(st: Scanner, c: char)
    requires Valid(st) && st.style == Named && Step(st, c, None).Ok?
    ensures Step(st, c, None).value.lex != InParamName
  {
  }

  /**
   * What named style promises of a final state: the placeholders are the
   * distinct names in order of first appearance; the j-th marker of the
   * rewritten query is the first-appearance number of the j-th name; and
   * `make_args` on a mapping succeeds exactly when every name is a key,
   * putting each name's value at its marker's position.
   */
  ghost predicate NamedPromises<V>(st: Scanner, m: map<string, V>)
  {
    var marks := Markers(st.out);
    var args := MakeArgs(Named, Dedup(st.names), Mapping(m));
    && st.placeholders == Dedup(st.names)
    && Distinct(Dedup(st.names))
    && |marks| == |st.names|
    && (forall j :: 0 <= j < |marks| ==> marks[j] >= 1 && IndexOf(Dedup(st.names), st.names[j]) == Some(marks[j] - 1))
    && (args.Ok? <==> forall x :: x in st.names ==> x in m)
    && (args.Ok? ==> forall j :: 0 <= j < |marks| ==> args.value.values[marks[j] - 1] == m[st.names[j]])
  }

  /** Named style, end to end: the rewritten query, and the promises above of the final state. */
  lemma {:induction false} NamedConversion<V>(q: string, m: map<string, V>)
    requires Run(Named, q, |q|).Ok?
    ensures var st := Run(Named, q, |q|).value;
      && Convert(Named, q) == Ok(Conversion(Render(st.out), Named, Dedup(st.names)))
      && NamedPromises(st, m)
  {
    var st := Run(Named, q, |q|).value;
    NamedRunOutcome(q, m);
    ConvertOfRun(Named, q, st);
  }

  lemma {:induction false} NamedRunOutcome<V>(q: string, m: map<string, V>)
    requires Run(Named, q, |q|).Ok?
    ensures var st := Run(Named, q, |q|).value;
      st.style == Named && st.placeholders == Dedup(st.names) && NamedPromises(st, m)
  {
    NamedFinalState(q);
    NamedOutcome(Run(Named, q, |q|).value, m);
  }

  /** A final state that keeps the invariant and reads no name keeps the named-style promises. */
  lemma {:induction false} NamedOutcome<V>(st: Scanner, m: map<string, V>)
    requires st.lex != InParamName && Binding(st)
    ensures st.placeholders == Dedup(st.names) && NamedPromises(st, m)
  {
    NamedMarkers(st);
    NamedArgs(st.names, Markers(st.out), m);
  }

  /** At the end of a named query no name is still being read, so every name is numbered. */
  lemma {:induction false} NamedFinalState(q: string)
    requires Run(Named, q, |q|).Ok?
    ensures var st := Run(Named, q, |q|).value;
      st.style == Named && st.lex != InParamName && Binding(st)
  {
    StyleStays(Named, q, |q|);
    RunBinding(Named, q, |q|);
    if |q| > 0 {
      var prior := Run(Named, q, |q| - 1);
      assert Run(Named, q, |q|) == Step(prior.value, q[|q| - 1], None);
      StyleStays(Named, q, |q| - 1);
      NamedEndsOutsideName(prior.value, q[|q| - 1]);
    }
  }

  /** Under the invariant, each marker is the first-appearance number of its name. */
  lemma {:induction false} NamedMarkers(st: Scanner)
    requires Binding(st)
    ensures var marks := Markers(st.out);
      && Distinct(Dedup(st.names))
      && |marks| == |st.names|
      && (forall j :: 0 <= j < |marks| ==> 1 <= marks[j] <= |Dedup(st.names)| && IndexOf(Dedup(st.names), st.names[j]) == Some(marks[j] - 1))
  {
    DedupProps(st.names);
    var d := Dedup(st.names);
    var marks := Markers(st.out);
    forall j | 0 <= j < |marks|
      ensures 1 <= marks[j] <= |d| && IndexOf(d, st.names[j]) == Some(marks[j] - 1)
    {
      var idx := IndexOf(d, st.names[j]);
      assert d[marks[j] - 1] == st.names[j];
    }
  }

  /** `make_args` on the distinct names: every name must be a key, and each marker picks its name's value. */
  lemma {:induction false} NamedArgs<V>(names: seq<string>, marks: seq<nat>, m: map<string, V>)
    requires |marks| == |names|
    requires forall j :: 0 <= j < |marks| ==> 1 <= marks[j] <= |Dedup(names)| && IndexOf(Dedup(names), names[j]) == Some(marks[j] - 1)
    ensures MakeArgs(Named, Dedup(names), Mapping(m)).Ok? <==> forall x :: x in names ==> x in m
    ensures MakeArgs(Named, Dedup(names), Mapping(m)).Ok? ==>
      forall j :: 0 <= j < |marks| ==> MakeArgs(Named, Dedup(names), Mapping(m)).value.values[marks[j] - 1] == m[names[j]]
  {
    DedupProps(names);
  }

  /** The named style never falls back to another style. */
  lemma {:induction false} StyleStays(style: Style, q: string, n: nat)
    requires style != PyFormat
    requires n <= |q| && Run(style, q, n).Ok?
    ensures Run(style, q, n).value.style == style
  {
    if n > 0 {
      var prior := Run(style, q, n - 1);
      assert Run(style, q, n) == Step(prior.value, q[n - 1], Next(q, n - 1));
      StyleStays(style, q, n - 1);
      StepStyle(prior.value, q[n - 1], Next(q, n - 1));
    }
  }

  /** A character the scanner copies outside quotes in every style: it opens nothing and marks nothing. */
  predicate Plain(c: char)
  {
    c != '\'' && c != '"' && c != '-' && c != '?' && c != ':' && c != '%'
  }

  /** Plain text leaves the scanner outside quotes, in its own style, with no placeholder. */
  lemma {:induction false} PlainRun(style: Style, q: string, n: nat)
    requires n <= |q| && forall k :: 0 <= k < n ==> Plain(q[k])
    ensures Run(style, q, n).Ok?
    ensures var st := Run(style, q, n).value; st.lex == Outside && st.style == style && st.placeholders == []
  {
    if n > 0 {
      PlainRun(style, q, n - 1);
      var prior := Run(style, q, n - 1);
      assert Run(style, q, n) == Step(prior.value, q[n - 1], Next(q, n - 1));
    }
  }

  /** A query of plain characters converts in every style, with no placeholder and no change of style. */
  lemma {:induction false} PlainConverts(style: Style, q: string)
    requires forall k :: 0 <= k < |q| ==> Plain(q[k])
    ensures Convert(style, q).Ok? && Convert(style, q).value.style == style && Convert(style, q).value.placeholders == []
  {
    PlainRun(style, q, |q|);
  }

  /** Only a pyformat scanner switches style (to format, on a bare `%s`). */
  lemma {:induction false} StepStyle(st: Scanner, c: char, next: Option<char>)
    requires Valid(st) && st.style != PyFormat && Step(st, c, next).Ok?
    ensures Step(st, c, next).value.style == st.style
  {
  }

  /** 1, 2, ..., n. */
  function Count(n: nat): (r: seq<nat>)
    ensures |r| == n && forall j :: 0 <= j < n ==> r[j] == j + 1
  {
    if n == 0 then [] else Count(n - 1) + [n]
  }

  /** The qmark and format invariant: no names, and markers numbered 1, 2, ... in order. */
  ghost predicate Counted(st: Scanner)
  {
    && st.placeholders == [] && st.names == []
    && st.nextParam >= 1 && Markers(st.out) == Count(st.nextParam - 1)
  }

  lemma {:induction false} StepCounted(st: Scanner, c: char, next: Option<char>)
    requires Valid(st) && Counted(st) && (st.style == QMark || st.style == Format)
    requires Step(st, c, next).Ok?
    ensures Counted(Step(st, c, next).value)
  {
    var r := Step(st, c, next).value;
    if st.lex == Outside {
      var o := OutsideStep(st, c, next).value;
      OutsideCounted(st, c, next);
      assert r == o.(prev := Some(c));
      CountedKeep(o, r);
    } else if st.lex == InParamName {
      assert r.out == st.out && r.nextParam == st.nextParam && r.names == [] && r.placeholders == [];
      CountedKeep(st, r);
    } else {
      assert r.out == st.out + [Lit(c)] && r.names == [] && r.placeholders == [];
      assert r.nextParam == st.nextParam;
      MarkersSnoc(st.out, Lit(c));
      CountedKeep(st, r);
    }
  }

  lemma {:induction false} OutsideCounted(st: Scanner, c: char, next: Option<char>)
    requires Valid(st) && Counted(st) && (st.style == QMark || st.style == Format) && st.lex == Outside
    requires OutsideStep(st, c, next).Ok?
    ensures Counted(OutsideStep(st, c, next).value)
  {
    var o := OutsideStep(st, c, next).value;
    assert o.names == [] && o.placeholders == [];
    if o.nextParam == st.nextParam + 1 {
      assert o.out == st.out + [Marker(st.nextParam)];
      CountedNext(st, o);
    } else {
      assert o.nextParam == st.nextParam;
      assert o.out == st.out || o.out == st.out + [Lit(c)];
      MarkersSnoc(st.out, Lit(c));
      CountedKeep(st, o);
    }
  }

  /** Counted carries over a step that numbers nothing. */
  lemma {:induction false} CountedKeep(st: Scanner, r: Scanner)
    requires Counted(st) && r.placeholders == [] && r.names == []
    requires r.nextParam == st.nextParam && Markers(r.out) == Markers(st.out)
    ensures Counted(r)
  {
  }

  /** Counted carries over a step that emits the next marker. */
  lemma {:induction false} CountedNext(st: Scanner, r: Scanner)
    requires Counted(st) && r.placeholders == [] && r.names == []
    requires r.nextParam == st.nextParam + 1 && r.out == st.out + [Marker(st.nextParam)]
    ensures Counted(r)
  {
    MarkersSnoc(st.out, Marker(st.nextParam));
  }

  lemma {:induction false} RunCounted(style: Style, q: string, n: nat)
    requires style == QMark || style == Format
    requires n <= |q| && Run(style, q, n).Ok?
    ensures Counted(Run(style, q, n).value)
  {
    if n > 0 {
      var prior := Run(style, q, n - 1);
      assert Run(style, q, n) == Step(prior.value, q[n - 1], Next(q, n - 1));
      RunCounted(style, q, n - 1);
      StyleStays(style, q, n - 1);
      StepCounted(prior.value, q[n - 1], Next(q, n - 1));
    }
  }

  /**
   * Qmark and format, end to end: the j-th marker of the rewritten query is
   * `$(j+1)`, no placeholder names are collected, and `make_args` passes the
   * arguments through unchanged.
   */
  lemma {:induction false} PositionalConversion<V>(style: Style, q: string, vals: Args<V>)
    requires style == QMark || style == Format
    requires Run(style, q, |q|).Ok?
    ensures var st := Run(style, q, |q|).value;
      && Convert(style, q) == Ok(Conversion(Render(st.out), style, []))
      && (forall j :: 0 <= j < |Markers(st.out)| ==> Markers(st.out)[j] == j + 1)
      && MakeArgs(style, [], vals) == Ok(vals)
  {
    RunCounted(style, q, |q|);
    StyleStays(style, q, |q|);
  }

  /** Whether numeric style turns the character at k into `$`, given the scanner state before it. */
  predicate Dollar(q: string, k: nat, lex: Lex)
    requires k < |q|
  {
    lex == Outside && q[k] == ':' && k + 1 < |q| && q[k + 1] !in ":=" && (k == 0 || q[k - 1] != ':')
  }

  /** The numeric-style invariant after n characters: one copied (or `$`) character per input character. */
  ghost predicate NumericShape(q: string, n: nat, st: Scanner)
    requires n <= |q|
  {
    && st.style == Numeric && st.lex != InParamName
    && st.placeholders == [] && st.names == []
    && st.prev == (if n == 0 then None else Some(q[n - 1]))
    && |st.out| == n
    && forall k :: 0 <= k < n ==> st.out[k] == Lit(q[k]) || (st.out[k] == Lit('$') && Dollar(q, k, Outside))
  }

  lemma {:induction false} StepNumeric(q: string, n: nat, st: Scanner)
    requires n < |q| && Valid(st)
    requires st.style == Numeric && st.lex != InParamName && st.placeholders == [] && st.names == []
    requires st.prev == (if n == 0 then None else Some(q[n - 1]))
    requires Step(st, q[n], Next(q, n)).Ok?
    ensures var r := Step(st, q[n], Next(q, n)).value;
      && r.out == st.out + [Lit(if Dollar(q, n, st.lex) then '$' else q[n])]
      && r.style == Numeric && r.lex != InParamName && r.placeholders == [] && r.names == []
  {
    if st.lex == Outside {
      var o := OutsideStep(st, q[n], Next(q, n));
      assert Step(st, q[n], Next(q, n)) == Ok(o.value.(prev := Some(q[n])));
    }
  }

  lemma {:induction false} RunNumeric(q: string, n: nat)
    requires n <= |q| && Run(Numeric, q, n).Ok?
    ensures NumericShape(q, n, Run(Numeric, q, n).value)
  {
    if n > 0 {
      var prior := Run(Numeric, q, n - 1);
      assert Run(Numeric, q, n) == Step(prior.value, q[n - 1], Next(q, n - 1));
      RunNumeric(q, n - 1);
      StepNumeric(q, n - 1, prior.value);
      NumericExtend(q, n - 1, prior.value, Run(Numeric, q, n).value);
    }
  }

  lemma {:induction false} NumericExtend(q: string, n: nat, p: Scanner, st: Scanner)
    requires n < |q| && NumericShape(q, n, p)
    requires st.out == p.out + [Lit(if Dollar(q, n, p.lex) then '$' else q[n])]
    requires st.style == Numeric && st.lex != InParamName && st.placeholders == [] && st.names == []
    requires st.prev == Some(q[n])
    ensures NumericShape(q, n + 1, st)
  {
    forall k | 0 <= k < n + 1
      ensures st.out[k] == Lit(q[k]) || (st.out[k] == Lit('$') && Dollar(q, k, Outside))
    {
      if k < n {
        assert st.out[k] == p.out[k];
      }
    }
  }

  /** Text made only of copied characters renders as those characters. */
  lemma {:induction false} RenderLits(out: seq<Chunk>)
    requires forall k :: 0 <= k < |out| ==> out[k].Lit?
    ensures |Render(out)| == |out|
    ensures forall k :: 0 <= k < |out| ==> Render(out)[k] == out[k].c
  {
    if out != [] {
      RenderLits(out[..|out| - 1]);
    }
  }

  /**
   * Numeric, end to end: the rewritten query has the input's length and
   * differs from it only where a `:` followed by neither `:` nor `=` and not
   * preceded by `:` became `$` (so `::float` and `:=` survive); no
   * placeholder names are collected and `make_args` passes the arguments
   * through. `StepNumeric` gives the other direction: such a `:` met outside
   * quoted text and comments does become `$`.
   */
  lemma {:induction false} NumericConversion<V>(q: string, vals: Args<V>)
    requires Run(Numeric, q, |q|).Ok?
    ensures Convert(Numeric, q).Ok?
    ensures var r := Convert(Numeric, q).value;
      && r.style == Numeric && r.placeholders == []
      && |r.query| == |q|
      && (forall k :: 0 <= k < |q| ==> r.query[k] == q[k] || (r.query[k] == '$' && Dollar(q, k, Outside)))
      && MakeArgs(Numeric, r.placeholders, vals) == Ok(vals)
  {
    RunNumeric(q, |q|);
    RenderLits(Run(Numeric, q, |q|).value.out);
  }

  /** A step only appends to the rewritten query. */
  lemma {:induction false} StepExtends(st: Scanner, c: char, next: Option<char>)
    requires Valid(st) && Step(st, c, next).Ok?
    ensures |st.out| <= |Step(st, c, next).value.out| && Step(st, c, next).value.out[..|st.out|] == st.out
  {
    var r := Step(st, c, next).value;
    if st.lex == Outside {
      OutsideExtends(st, c, next);
      assert r.out == OutsideStep(st, c, next).value.out;
    } else if st.lex == InParamName {
      ParamNameExtends(st, c, next);
      assert r.out == ParamNameStep(st, c, next).out;
    } else {
      assert r.out == st.out + [Lit(c)];
    }
  }

  lemma {:induction false} OutsideExtends(st: Scanner, c: char, next: Option<char>)
    requires OutsideStep(st, c, next).Ok?
    ensures var o := OutsideStep(st, c, next).value.out; o == st.out || (|o| == |st.out| + 1 && o[..|st.out|] == st.out)
  {
  }

  lemma {:induction false} ParamNameExtends(st: Scanner, c: char, next: Option<char>)
    requires Valid(st) && st.lex == InParamName
    ensures var o := ParamNameStep(st, c, next).out; o == st.out || (|o| == |st.out| + 1 && o[..|st.out|] == st.out)
  {
  }

  /** The rewritten query after n characters is a prefix of the one after m >= n characters. */
  lemma {:induction false} RunExtends(style: Style, q: string, n: nat, m: nat)
    requires n <= m <= |q| && Run(style, q, m).Ok?
    ensures Run(style, q, n).Ok?
    ensures |Run(style, q, n).value.out| <= |Run(style, q, m).value.out|
    ensures Run(style, q, m).value.out[..|Run(style, q, n).value.out|] == Run(style, q, n).value.out
    decreases m - n
  {
    if Run(style, q, n).Err? {
      RunErrSticky(Init(style), q, 0, n, m);
    } else if n < m {
      var st := Run(style, q, n).value;
      assert Run(style, q, n + 1) == Step(st, q[n], Next(q, n));
      if Run(style, q, n + 1).Err? {
        RunErrSticky(Init(style), q, 0, n + 1, m);
      }
      StepExtends(st, q[n], Next(q, n));
      RunExtends(style, q, n + 1, m);
      var a, b, c := st.out, Run(style, q, n + 1).value.out, Run(style, q, m).value.out;
      assert c[..|a|] == c[..|b|][..|a|];
    }
  }

  /**
   * Numeric, the other direction, character by character: the character at
   * k is rewritten exactly when it is a lone `:` met outside quoted text and
   * comments, and it then becomes `$`.
   */
  lemma {:induction false} NumericDollarAt(q: string, k: nat)
    requires k < |q| && Run(Numeric, q, |q|).Ok?
    ensures Run(Numeric, q, k).Ok? && Convert(Numeric, q).Ok?
    ensures var r := Convert(Numeric, q).value;
      |r.query| == |q| &&
      (r.query[k] != q[k] <==> Dollar(q, k, Run(Numeric, q, k).value.lex)) &&
      (Dollar(q, k, Run(Numeric, q, k).value.lex) ==> r.query[k] == '$')
  {
    RunExtends(Numeric, q, k + 1, |q|);
    RunExtends(Numeric, q, k, |q|);
    var st := Run(Numeric, q, k).value;
    RunNumeric(q, k);
    assert Run(Numeric, q, k + 1) == Step(st, q[k], Next(q, k));
    StepNumeric(q, k, st);
    var out := Run(Numeric, q, |q|).value.out;
    var mid := Run(Numeric, q, k + 1).value.out;
    assert out[k] == out[..k + 1][k] == mid[k];
    RunNumeric(q, |q|);
    RenderLits(out);
  }

  /**
   * The chunks a qmark or format scanner in state st emits for the character
   * at n: outside quoted text and comments a `?` (qmark) or a `%` followed
   * by `s` (format) becomes the next marker, numbered one above the markers
   * so far; of `%%` the first `%` is dropped and the second copied; the `s`
   * of `%s` is dropped; every other character is copied.
   */
  function PositionalChunks(style: Style, st: Scanner, q: string, n: nat): seq<Chunk>
    requires n < |q|
  {
    var c := q[n];
    if st.lex == Outside && style == QMark && c == '?' then [Marker(|Markers(st.out)| + 1)]
    else if st.lex == Outside && style == Format && c == '%' then
      if st.inParamEscape then [Lit('%')]
      else if Next(q, n) == Some('s') then [Marker(|Markers(st.out)| + 1)]
      else []
    else if st.lex == InParamName then []
    else [Lit(c)]
  }

  /**
   * Qmark and format, character by character: the scanner fails exactly on
   * a `%` outside quoted text that is neither `%%` nor `%s` nor the second
   * `%` of `%%`, and the whole conversion then raises UnsupportedPercent;
   * otherwise the character adds `PositionalChunks` to the rewritten query.
   */
  lemma {:induction false} PositionalStep(style: Style, q: string, n: nat)
    requires style == QMark || style == Format
    requires n < |q| && Run(style, q, n).Ok?
    ensures var st := Run(style, q, n).value;
      var r := Run(style, q, n + 1);
      && (r.Err? <==> style == Format && st.lex == Outside && q[n] == '%' && !st.inParamEscape &&
                      Next(q, n) != Some('s') && Next(q, n) != Some('%'))
      && (r.Err? ==> r.error == UnsupportedPercent && Convert(style, q) == Err(UnsupportedPercent))
      && (r.Ok? ==> r.value.out == st.out + PositionalChunks(style, st, q, n))
  {
    var st := Run(style, q, n).value;
    RunCounted(style, q, n);
    StyleStays(style, q, n);
    assert st.nextParam == |Markers(st.out)| + 1;
    assert Run(style, q, n + 1) == Step(st, q[n], Next(q, n));
    if Run(style, q, n + 1).Err? {
      RunErrSticky(Init(style), q, 0, n + 1, |q|);
    } else {
      PositionalChunksStep(style, st, q, n);
    }
  }

  /** `PositionalChunks` is what one step of a qmark or format scanner appends. */
  lemma {:induction false} PositionalChunksStep(style: Style, st: Scanner, q: string, n: nat)
    requires style == QMark || style == Format
    requires n < |q| && Valid(st) && st.style == style && st.nextParam == |Markers(st.out)| + 1
    requires Step(st, q[n], Next(q, n)).Ok?
    ensures Step(st, q[n], Next(q, n)).value.out == st.out + PositionalChunks(style, st, q, n)
  {
    var m := Marker(st.nextParam);
    assert PositionalChunks(style, st, q, n) == [m] || PositionalChunks(style, st, q, n) == [Lit('%')] ||
           PositionalChunks(style, st, q, n) == [] || PositionalChunks(style, st, q, n) == [Lit(q[n])];
  }

  /**
   * In format style the scanner is inside a marker only on the `s` of `%s`,
   * and holds a pending escape only on the second `%` of `%%`.
   */
  lemma {:induction false} FormatPending(q: string, n: nat)
    requires n <= |q| && Run(Format, q, n).Ok?
    ensures var st := Run(Format, q, n).value;
      && (st.lex == InParamName ==> 0 < n < |q| && q[n - 1] == '%' && q[n] == 's')
      && (st.inParamEscape ==> 0 < n < |q| && q[n - 1] == '%' && q[n] == '%' && st.lex == Outside)
  {
    if n > 0 {
      var prior := Run(Format, q, n - 1).value;
      StyleStays(Format, q, n - 1);
      FormatPending(q, n - 1);
      assert Run(Format, q, n) == Step(prior, q[n - 1], Next(q, n - 1));
    }
  }

  /**
   * Pyformat, end to end, for a query that kept the pyformat style (a bare
   * `%s` switches it to format): each `%(name)s` becomes the marker numbering
   * `name` by first appearance, and the placeholders are the names not yet
   * closed after the finished ones, in order of first appearance; once every
   * name is closed, `make_args` on a mapping behaves as in named style.
   */
  lemma {:induction false} PyFormatConversion<V>(q: string, m: map<string, V>)
    requires Run(PyFormat, q, |q|).Ok? && Run(PyFormat, q, |q|).value.style == PyFormat
    ensures var st := Run(PyFormat, q, |q|).value;
      var marks := Markers(st.out);
      && Convert(PyFormat, q) == Ok(Conversion(Render(st.out), PyFormat, st.placeholders))
      && Done(st) == Dedup(st.names)
      && |marks| == |st.names|
      && (forall j :: 0 <= j < |marks| ==> marks[j] >= 1 && IndexOf(Dedup(st.names), st.names[j]) == Some(marks[j] - 1))
      && (st.lex != InParamName ==>
            NamedPromises(st, m) && MakeArgs(PyFormat, st.placeholders, Mapping(m)) == MakeArgs(Named, st.placeholders, Mapping(m)))
  {
    var st := Run(PyFormat, q, |q|).value;
    RunBinding(PyFormat, q, |q|);
    PyFormatFinal(st, m);
    ConvertOfRun(PyFormat, q, st);
  }

  /** What a finished pyformat scan promises about its markers, placeholders and arguments. */
  lemma {:induction false} PyFormatFinal<V>(st: Scanner, m: map<string, V>)
    requires Binding(st)
    ensures var marks := Markers(st.out);
      && Done(st) == Dedup(st.names)
      && |marks| == |st.names|
      && (forall j :: 0 <= j < |marks| ==> marks[j] >= 1 && IndexOf(Dedup(st.names), st.names[j]) == Some(marks[j] - 1))
      && (st.lex != InParamName ==>
            NamedPromises(st, m) && MakeArgs(PyFormat, st.placeholders, Mapping(m)) == MakeArgs(Named, st.placeholders, Mapping(m)))
  {
    BindingDone(st);
    NamedMarkers(st);
    if st.lex != InParamName {
      PyFormatArgs(st, m);
    }
  }

  lemma {:induction false} BindingDone(st: Scanner)
    requires Binding(st)
    ensures Done(st) == Dedup(st.names)
  {
  }

  /** A pyformat final state with every name closed keeps the named-style promises. */
  lemma {:induction false} PyFormatArgs<V>(st: Scanner, m: map<string, V>)
    requires st.lex != InParamName && Binding(st)
    ensures NamedPromises(st, m) && MakeArgs(PyFormat, st.placeholders, Mapping(m)) == MakeArgs(Named, st.placeholders, Mapping(m))
  {
    NamedOutcome(st, m);
  }

  /** The chunks copying s character by character. */
  function Lits(s: string): (r: seq<Chunk>)
    ensures |r| == |s| && forall k :: 0 <= k < |s| ==> r[k] == Lit(s[k])
  {
    if s == [] then [] else Lits(s[..|s| - 1]) + [Lit(s[|s| - 1])]
  }

  lemma {:induction false} LitsRender(s: string)
    ensures Render(Lits(s)) == s
  {
    RenderLits(Lits(s));
  }

  /** Whether c leaves the scanner inside `"..."`, `E'...'` or a comment; prev is the character before c. */
  predicate Keeps(lex: Lex, prev: Option<char>, c: char)
  {
    match lex
    case InQuotedIdent => c != '"'
    case InEscapeString => c != '\'' || prev == Some('\\')
    case InComment => c != '\n'
    case _ => false
  }

  function PrevAt(st: Scanner, q: string, i: nat, j: nat): Option<char>
    requires i <= j <= |q|
  {
    if j == i then st.prev else Some(q[j - 1])
  }

  /**
   * Inside `"..."`, `E'...'` (where `\'` does not close) or a `--` comment,
   * every character that does not end it is copied unchanged and nothing
   * else about the scanner moves: no marker, no placeholder name.
   */
  lemma {:induction false} KeptSpan(st: Scanner, q: string, i: nat, j: nat)
    requires Valid(st) && i <= j <= |q|
    requires forall k :: i <= k < j ==> Keeps(st.lex, PrevAt(st, q, i, k), q[k])
    ensures RunFrom(st, q, i, j).Ok?
    ensures RunFrom(st, q, i, j).value == st.(out := st.out + Lits(q[i..j]), prev := PrevAt(st, q, i, j))
    decreases j - i
  {
    if j > i {
      KeptSpan(st, q, i, j - 1);
      assert Keeps(st.lex, PrevAt(st, q, i, j - 1), q[j - 1]);
      KeptAfter(st, q, i, j);
    } else {
      EmptySpan(st, q, i);
    }
  }

  /** No characters leave the scanner as it was. */
  lemma {:induction false} EmptySpan(st: Scanner, q: string, i: nat)
    requires Valid(st) && i <= |q|
    ensures RunFrom(st, q, i, i).Ok?
    ensures RunFrom(st, q, i, i).value == st.(out := st.out + Lits(q[i..i]), prev := PrevAt(st, q, i, i))
  {
    assert st.out + Lits(q[i..i]) == st.out;
  }

  /** One more kept character extends the copied span by that character. */
  lemma {:induction false} KeptAfter(st: Scanner, q: string, i: nat, j: nat)
    requires Valid(st) && i < j <= |q|
    requires Keeps(st.lex, PrevAt(st, q, i, j - 1), q[j - 1])
    requires RunFrom(st, q, i, j - 1).Ok?
    requires RunFrom(st, q, i, j - 1).value == st.(out := st.out + Lits(q[i..j - 1]), prev := PrevAt(st, q, i, j - 1))
    ensures RunFrom(st, q, i, j).Ok?
    ensures RunFrom(st, q, i, j).value == st.(out := st.out + Lits(q[i..j]), prev := PrevAt(st, q, i, j))
  {
    var before := st.(out := st.out + Lits(q[i..j - 1]), prev := PrevAt(st, q, i, j - 1));
    KeptStep(before, q[j - 1], Next(q, j - 1));
    StepAfter(st, q, i, j, before);
    LitsAfter(st.out, q, i, j);
  }

  lemma {:induction false} LitsAfter(out: seq<Chunk>, q: string, i: nat, j: nat)
    requires i < j <= |q|
    ensures out + Lits(q[i..j]) == (out + Lits(q[i..j - 1])) + [Lit(q[j - 1])]
  {
    assert q[i..j] == q[i..j - 1] + [q[j - 1]];
    assert Lits(q[i..j]) == Lits(q[i..j - 1]) + [Lit(q[j - 1])];
  }

  lemma {:induction false} KeptStep(st: Scanner, c: char, next: Option<char>)
    requires Valid(st) && Keeps(st.lex, st.prev, c)
    ensures Step(st, c, next).Ok? && Step(st, c, next).value == st.(out := st.out + [Lit(c)], prev := Some(c))
  {
  }

  /** The body of `'...'`: characters other than `'`, and `''` pairs standing for one quote. */
  predicate SingleQuoteBody(q: string, i: nat, j: nat)
    requires i <= j <= |q|
    decreases j - i
  {
    || j == i
    || (q[j - 1] != '\'' && SingleQuoteBody(q, i, j - 1))
    || (j >= i + 2 && q[j - 2] == '\'' && q[j - 1] == '\'' && SingleQuoteBody(q, i, j - 2))
  }

  /** Inside `'...'` a body made of other characters and `''` pairs is copied unchanged. */
  lemma {:induction false} SingleQuoteSpan(st: Scanner, q: string, i: nat, j: nat)
    requires Valid(st) && st.lex == InSingleQuote && !st.inQuoteEscape
    requires i <= j <= |q| && SingleQuoteBody(q, i, j)
    ensures RunFrom(st, q, i, j).Ok?
    ensures RunFrom(st, q, i, j).value == st.(out := st.out + Lits(q[i..j]), prev := PrevAt(st, q, i, j))
    decreases j - i
  {
    if j == i {
      EmptySpan(st, q, i);
    } else if q[j - 1] != '\'' && SingleQuoteBody(q, i, j - 1) {
      SingleQuoteSpan(st, q, i, j - 1);
      QuotedCharAfter(st, q, i, j);
    } else {
      SingleQuoteSpan(st, q, i, j - 2);
      DoubledQuoteAfter(st, q, i, j);
    }
  }

  lemma {:induction false} QuotedCharAfter(st: Scanner, q: string, i: nat, j: nat)
    requires Valid(st) && st.lex == InSingleQuote && !st.inQuoteEscape
    requires i < j <= |q| && q[j - 1] != '\''
    requires RunFrom(st, q, i, j - 1).Ok?
    requires RunFrom(st, q, i, j - 1).value == st.(out := st.out + Lits(q[i..j - 1]), prev := PrevAt(st, q, i, j - 1))
    ensures RunFrom(st, q, i, j).Ok?
    ensures RunFrom(st, q, i, j).value == st.(out := st.out + Lits(q[i..j]), prev := PrevAt(st, q, i, j))
  {
    var before := st.(out := st.out + Lits(q[i..j - 1]), prev := PrevAt(st, q, i, j - 1));
    QuotedStep(before, q[j - 1], Next(q, j - 1));
    StepAfter(st, q, i, j, before);
    LitsAfter(st.out, q, i, j);
  }

  lemma {:induction false} DoubledQuoteAfter(st: Scanner, q: string, i: nat, j: nat)
    requires Valid(st) && st.lex == InSingleQuote && !st.inQuoteEscape
    requires i + 2 <= j <= |q| && q[j - 2] == '\'' && q[j - 1] == '\''
    requires RunFrom(st, q, i, j - 2).Ok?
    requires RunFrom(st, q, i, j - 2).value == st.(out := st.out + Lits(q[i..j - 2]), prev := PrevAt(st, q, i, j - 2))
    ensures RunFrom(st, q, i, j).Ok?
    ensures RunFrom(st, q, i, j).value == st.(out := st.out + Lits(q[i..j]), prev := PrevAt(st, q, i, j))
  {
    var s0 := st.(out := st.out + Lits(q[i..j - 2]), prev := PrevAt(st, q, i, j - 2));
    QuotePair(st, q, i, j, s0);
    PairLits(st.out, q, i, j);
  }

  /** `''` inside `'...'` is copied as two characters and leaves the escape flag clear. */
  lemma {:induction false} QuotePair(st: Scanner, q: string, i: nat, j: nat, s0: Scanner)
    requires Valid(st) && Valid(s0) && s0.lex == InSingleQuote && !s0.inQuoteEscape
    requires i + 2 <= j <= |q| && q[j - 2] == '\'' && q[j - 1] == '\''
    requires RunFrom(st, q, i, j - 2).Ok? && RunFrom(st, q, i, j - 2).value == s0
    ensures RunFrom(st, q, i, j).Ok?
    ensures RunFrom(st, q, i, j).value == s0.(out := s0.out + [Lit('\''), Lit('\'')], prev := Some('\''))
  {
    OpeningQuote(st, q, i, j, s0);
    var s1 := s0.(out := s0.out + [Lit('\'')], prev := Some('\''), inQuoteEscape := true);
    DoubledQuoteStep(s1, Next(q, j - 1));
    StepAfter(st, q, i, j, s1);
    assert s1.out + [Lit('\'')] == s0.out + [Lit('\''), Lit('\'')];
  }

  lemma {:induction false} PairLits(out: seq<Chunk>, q: string, i: nat, j: nat)
    requires i + 2 <= j <= |q| && q[j - 2] == '\'' && q[j - 1] == '\''
    ensures out + Lits(q[i..j]) == out + Lits(q[i..j - 2]) + [Lit('\''), Lit('\'')]
  {
    LitsAfter(out, q, i, j - 1);
    LitsAfter(out, q, i, j);
  }

  /** The first quote of `''` is copied and sets the escape flag. */
  lemma {:induction false} OpeningQuote(st: Scanner, q: string, i: nat, j: nat, s0: Scanner)
    requires Valid(st) && Valid(s0) && s0.lex == InSingleQuote && !s0.inQuoteEscape
    requires i + 2 <= j <= |q| && q[j - 2] == '\'' && q[j - 1] == '\''
    requires RunFrom(st, q, i, j - 2).Ok? && RunFrom(st, q, i, j - 2).value == s0
    ensures RunFrom(st, q, i, j - 1).Ok?
    ensures RunFrom(st, q, i, j - 1).value == s0.(out := s0.out + [Lit('\'')], prev := Some('\''), inQuoteEscape := true)
  {
    assert Next(q, j - 2) == Some('\'');
    DoubledQuoteStep(s0, Next(q, j - 2));
    StepAfter(st, q, i, j - 1, s0);
  }

  /** One more character: the run to j is the step from the run to j - 1. */
  lemma {:induction false} StepAfter(st: Scanner, q: string, i: nat, j: nat, s: Scanner)
    requires Valid(st) && i < j <= |q| && RunFrom(st, q, i, j - 1).Ok? && RunFrom(st, q, i, j - 1).value == s
    ensures RunFrom(st, q, i, j) == Step(s, q[j - 1], Next(q, j - 1))
  {
  }

  lemma {:induction false} QuotedStep(st: Scanner, c: char, next: Option<char>)
    requires Valid(st) && st.lex == InSingleQuote && c != '\''
    ensures Step(st, c, next).Ok? && Step(st, c, next).value == st.(out := st.out + [Lit(c)], prev := Some(c))
  {
  }

  /** The two quotes of `''`: the first sets the escape flag, the second clears it. */
  lemma {:induction false} DoubledQuoteStep(st: Scanner, next: Option<char>)
    requires Valid(st) && st.lex == InSingleQuote && (st.inQuoteEscape || next == Some('\''))
    ensures Step(st, '\'', next).Ok?
    ensures Step(st, '\'', next).value ==
      st.(out := st.out + [Lit('\'')], prev := Some('\''), inQuoteEscape := !st.inQuoteEscape)
  {
  }

}
