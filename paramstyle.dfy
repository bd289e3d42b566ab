/**
 * The placeholder rewriter `convert_paramstyle`: a character-by-character
 * scanner that turns the caller's paramstyle markers (qmark `?`, numeric `:1`,
 * named `:name`, format `%s`, pyformat `%(name)s`) into the server's `$n`
 * markers, leaving quoted text and `--` comments alone, and that returns the
 * placeholder names `make_args` uses to order a mapping of arguments.
 *
 * `Step` is one turn of the scanner's loop; `Run` folds it over a prefix of
 * the query; `ConvertParamstyle` is the loop itself, proved to compute `Convert`.
 */
module Paramstyle {
  import opened Wrappers
  import opened Numerals

  datatype Style = QMark | Numeric | Named | Format | PyFormat

  /** The scanner's six states. */
  datatype Lex =
    | Outside          // outside quoted text
    | InSingleQuote    // '...'
    | InQuotedIdent    // "..."
    | InEscapeString   // E'...'
    | InParamName      // :name or %(name)s
    | InComment        // from -- to the end of the line

  /** One piece of the rewritten query: a copied character or a `$n` marker. */
  datatype Chunk = Lit(c: char) | Marker(n: nat)

  datatype ScanError =
    | UnsupportedPercent   // InterfaceError: only %s and %% are supported
    | BareColonAtEnd       // TypeError: `None not in ':='` for a trailing ':'

  /**
   * The scanner's variables. `names` is a trace that the source does not keep:
   * the placeholder name behind each marker emitted by named or pyformat
   * resolution, in order of emission.
   */
  datatype Scanner = Scanner(
    style: Style,
    lex: Lex,
    prev: Option<char>,
    inQuoteEscape: bool,
    inParamEscape: bool,
    placeholders: seq<string>,
    out: seq<Chunk>,
    names: seq<string>,
    nextParam: nat)

  datatype Conversion = Conversion(query: string, style: Style, placeholders: seq<string>)

  /** The actual arguments: a sequence, or a mapping from placeholder names. */
  datatype Args<V> = Positional(values: seq<V>) | Mapping(byName: map<string, V>)

  datatype ArgsError = KeyError(name: string) | NotAMapping

  function Init(style: Style): Scanner
  {
    Scanner(style, Outside, None, false, false, [], [], [], 1)
  }

  ghost predicate Valid(st: Scanner)
  {
    && st.nextParam >= 1
    && (st.lex == InParamName && (st.style == Named || st.style == PyFormat) ==> |st.placeholders| > 0)
  }

  /** ASCII letters and digits (`str.isalnum` restricted to ASCII). */
  predicate IsAlnum(c: char)
  {
    ('a' <= c <= 'z') || ('A' <= c <= 'Z') || ('0' <= c <= '9')
  }

  /** `list.index(x)`: the first position of `x`, or None (ValueError). */
  function IndexOf(s: seq<string>, x: string): (r: Option<nat>)
    ensures r.Some? ==> r.value < |s| && s[r.value] == x && forall k :: 0 <= k < r.value ==> s[k] != x
    ensures r.None? ==> x !in s
  {
    if s == [] then None
    else if s[0] == x then Some(0)
    else match IndexOf(s[1..], x)
      case None => None
      case Some(k) => Some(k + 1)
  }

  /** The character after position k of q, or None at the end. */
  function Next(q: string, k: nat): Option<char>
  {
    if k + 1 < |q| then Some(q[k + 1]) else None
  }

  /**
   * The end of a placeholder name: reuse the number of an earlier identical
   * name (dropping the new entry), or number the new name by its position.
   */
  function Resolve(st: Scanner): (r: Scanner)
    requires |st.placeholders| > 0
  {
    var name := st.placeholders[|st.placeholders| - 1];
    var earlier := st.placeholders[..|st.placeholders| - 1];
    match IndexOf(earlier, name)
    case Some(k) =>
      st.(lex := Outside, out := st.out + [Marker(k + 1)], placeholders := earlier,
          names := st.names + [name])
    case None =>
      st.(lex := Outside, out := st.out + [Marker(|st.placeholders|)], names := st.names + [name])
  }

  /** Appends c to the placeholder name being read. */
  function ExtendName(p: seq<string>, c: char): seq<string>
    requires |p| > 0
  {
    p[..|p| - 1] + [p[|p| - 1] + [c]]
  }

  function OutsideStep(st: Scanner, c: char, next: Option<char>): (r: Result<Scanner, ScanError>)
    ensures r.Ok? && Valid(st) ==> Valid(r.value)
  {
    if c == '\'' then
      Ok(st.(out := st.out + [Lit(c)],
             lex := if st.prev == Some('E') then InEscapeString else InSingleQuote))
    else if c == '"' then
      Ok(st.(out := st.out + [Lit(c)], lex := InQuotedIdent))
    else if c == '-' then
      Ok(st.(out := st.out + [Lit(c)], lex := if st.prev == Some('-') then InComment else st.lex))
    else if st.style == QMark && c == '?' then
      Ok(st.(out := st.out + [Marker(st.nextParam)], nextParam := st.nextParam + 1))
    else if (st.style == Numeric || st.style == Named) && c == ':' && next.None? then
      Err(BareColonAtEnd)
    else if st.style == Numeric && c == ':' && next.value !in ":=" && st.prev != Some(':') then
      Ok(st.(out := st.out + [Lit('$')]))
    else if st.style == Named && c == ':' && next.value !in ":=" && st.prev != Some(':') then
      Ok(st.(lex := InParamName, placeholders := st.placeholders + [""]))
    else if st.style == PyFormat && c == '%' && next == Some('(') then
      Ok(st.(lex := InParamName, placeholders := st.placeholders + [""]))
    else if (st.style == Format || st.style == PyFormat) && c == '%' then
      var s := st.(style := Format);
      if s.inParamEscape then Ok(s.(inParamEscape := false, out := s.out + [Lit(c)]))
      else if next == Some('%') then Ok(s.(inParamEscape := true))
      else if next == Some('s') then
        Ok(s.(lex := InParamName, out := s.out + [Marker(s.nextParam)], nextParam := s.nextParam + 1))
      else Err(UnsupportedPercent)
    else
      Ok(st.(out := st.out + [Lit(c)]))
  }

  function ParamNameStep(st: Scanner, c: char, next: Option<char>): (r: Scanner)
    requires Valid(st) && st.lex == InParamName
    ensures Valid(r)
  {
    if st.style == Named then
      var s := st.(placeholders := ExtendName(st.placeholders, c));
      if next.None? || (!IsAlnum(next.value) && next.value != '_') then Resolve(s) else s
    else if st.style == PyFormat then
      if st.prev == Some(')') && c == 's' then Resolve(st)
      else if c == '(' || c == ')' then st
      else st.(placeholders := ExtendName(st.placeholders, c))
    else if st.style == Format then st.(lex := Outside)
    else st
  }

  /** One turn of the scanner loop on character c, with lookahead next; prev becomes c. */
  function Step(st: Scanner, c: char, next: Option<char>): (r: Result<Scanner, ScanError>)
    requires Valid(st)
    ensures r.Ok? ==> Valid(r.value) && r.value.prev == Some(c)
    ensures r.Ok? ==> |r.value.names| <= |st.names| + 1
    ensures r.Ok? ==> r.value.style == st.style || r.value.style == Format
  {
    var r := match st.lex
      case Outside => OutsideStep(st, c, next)
      case InSingleQuote =>
        Ok((if c == '\'' then
              if st.inQuoteEscape then st.(inQuoteEscape := false)
              else if next == Some('\'') then st.(inQuoteEscape := true)
              else st.(lex := Outside)
            else st).(out := st.out + [Lit(c)]))
      case InQuotedIdent =>
        Ok(st.(lex := if c == '"' then Outside else st.lex, out := st.out + [Lit(c)]))
      case InEscapeString =>
        Ok(st.(lex := if c == '\'' && st.prev != Some('\\') then Outside else st.lex,
               out := st.out + [Lit(c)]))
      case InParamName => Ok(ParamNameStep(st, c, next))
      case InComment =>
        Ok(st.(out := st.out + [Lit(c)], lex := if c == '\n' then Outside else st.lex));
    if r.Err? then r else Ok(r.value.(prev := Some(c)))
  }

  /** The scanner state after the characters q[i..j], starting from st. */
  function RunFrom(st: Scanner, q: string, i: nat, j: nat): (r: Result<Scanner, ScanError>)
    requires Valid(st) && i <= j <= |q|
    ensures r.Ok? ==> Valid(r.value)
    decreases j - i
  {
    if j == i then Ok(st)
    else
      match RunFrom(st, q, i, j - 1)
      case Err(e) => Err(e)
      case Ok(s) => Step(s, q[j - 1], Next(q, j - 1))
  }

  function Run(style: Style, q: string, n: nat): (r: Result<Scanner, ScanError>)
    requires n <= |q|
    ensures r.Ok? ==> Valid(r.value)
  {
    RunFrom(Init(style), q, 0, n)
  }

  function RenderChunk(ch: Chunk): string
  {
    match ch
    case Lit(c) => [c]
    case Marker(n) => "$" + NatToString(n)
  }

  /** `''.join(output_query)`. */
  function Render(out: seq<Chunk>): string
  {
    if out == [] then "" else Render(out[..|out| - 1]) + RenderChunk(out[|out| - 1])
  }

  /** What `convert_paramstyle(style, q)` returns: the rewritten query, plus what `make_args` needs. */
  function Convert(style: Style, q: string): Result<Conversion, ScanError>
  {
    match Run(style, q, |q|)
    case Err(e) => Err(e)
    case Ok(st) => Ok(Conversion(Render(st.out), st.style, st.placeholders))
  }

  /**
   * `make_args(vals)`: the identity for numeric, qmark and format (including a
   * pyformat query that fell back to format), otherwise the mapping's values
   * in placeholder order.
   */
  function MakeArgs<V>(style: Style, placeholders: seq<string>, vals: Args<V>): (r: Result<Args<V>, ArgsError>)
    ensures (style == Numeric || style == QMark || style == Format) ==> r == Ok(vals)
    ensures r.Ok? && (style == Named || style == PyFormat) ==>
      r.value.Positional? && |r.value.values| == |placeholders| &&
      (vals.Mapping? ==> forall k :: 0 <= k < |placeholders| ==>
        placeholders[k] in vals.byName && r.value.values[k] == vals.byName[placeholders[k]])
    ensures r.Err? && (style == Named || style == PyFormat) && vals.Mapping? ==>
      exists k :: 0 <= k < |placeholders| && placeholders[k] !in vals.byName
  {
    if style == Numeric || style == QMark || style == Format then Ok(vals)
    else match vals
      case Positional(_) => if placeholders == [] then Ok(Positional([])) else Err(NotAMapping)
      case Mapping(m) => PickAll(placeholders, m)
  }

  function PickAll<V>(names: seq<string>, m: map<string, V>): (r: Result<Args<V>, ArgsError>)
    ensures r.Ok? ==> r.value.Positional? && |r.value.values| == |names|
    ensures r.Ok? ==> forall k :: 0 <= k < |names| ==> names[k] in m && r.value.values[k] == m[names[k]]
    ensures r.Err? ==> exists k :: 0 <= k < |names| && names[k] !in m
  {
    if names == [] then Ok(Positional([]))
    else
      var last := names[|names| - 1];
      match PickAll(names[..|names| - 1], m)
      case Err(e) => Err(e)
      case Ok(a) =>
        if last in m then Ok(Positional(a.values + [m[last]]))
        else Err(KeyError(last))
  }

  /** Once the scanner has raised, the whole conversion raises. */
  lemma {:induction false} RunErrSticky(st: Scanner, q: string, i: nat, j: nat, k: nat)
    requires Valid(st) && i <= j <= k <= |q|
    requires RunFrom(st, q, i, j).Err?
    ensures RunFrom(st, q, i, k) == RunFrom(st, q, i, j)
    decreases k - j
  {
    if k > j {
      RunErrSticky(st, q, i, j, k - 1);
    }
  }

  /** `out` after one turn of the loop appended nothing or one chunk. */
  function Emit(out: seq<Chunk>, emit: Option<Chunk>): seq<Chunk>
  {
    if emit.Some? then out + [emit.value] else out
  }

  /** `names` after one turn of the loop resolved at most one placeholder name. */
  function Trace(names: seq<string>, name: Option<string>): seq<string>
  {
    if name.Some? then names + [name.value] else names
  }

  lemma {:induction false} RenderSnoc(out: seq<Chunk>, ch: Chunk)
    ensures Render(out + [ch]) == Render(out) + RenderChunk(ch)
  {
    assert (out + [ch])[..|out|] == out;
  }

  /**
   * The branch of the loop for a character outside quoted text. `before` is
   * the scanner state whose fields the other parameters carry.
   */
  method OutsideChar(ghost before: Scanner, style: Style, prevC: Option<char>, inParamEscape: bool,
                     placeholders: seq<string>, paramIdx: nat, c: char, nextC: Option<char>)
    returns (err: Option<ScanError>, style': Style, state': Lex, inParamEscape': bool,
             placeholders': seq<string>, paramIdx': nat, emit: Option<Chunk>)
    requires before.lex == Outside && before.style == style && before.prev == prevC
    requires before.inParamEscape == inParamEscape && before.placeholders == placeholders
    requires before.nextParam == paramIdx
    ensures err.Some? ==> OutsideStep(before, c, nextC) == Err(err.value)
    ensures err.None? ==>
      OutsideStep(before, c, nextC) ==
        Ok(before.(style := style', lex := state', inParamEscape := inParamEscape',
                   placeholders := placeholders', nextParam := paramIdx', out := Emit(before.out, emit)))
  {
    err, style', state', inParamEscape', placeholders', paramIdx', emit :=
      None, style, Outside, inParamEscape, placeholders, paramIdx, None;
    if c == '\'' {
      emit := Some(Lit(c));
      state' := if prevC == Some('E') then InEscapeString else InSingleQuote;
    } else if c == '"' {
      emit := Some(Lit(c));
      state' := InQuotedIdent;
    } else if c == '-' {
      emit := Some(Lit(c));
      if prevC == Some('-') {
        state' := InComment;
      }
    } else if style == QMark && c == '?' {
      emit := Some(Marker(paramIdx));
      paramIdx' := paramIdx + 1;
    } else if (style == Numeric || style == Named) && c == ':' && nextC.None? {
      err := Some(BareColonAtEnd);
    } else if style == Numeric && c == ':' && nextC.value !in ":=" && prevC != Some(':') {
      emit := Some(Lit('$'));
    } else if style == Named && c == ':' && nextC.value !in ":=" && prevC != Some(':') {
      state' := InParamName;
      placeholders' := placeholders + [""];
    } else if style == PyFormat && c == '%' && nextC == Some('(') {
      state' := InParamName;
      placeholders' := placeholders + [""];
    } else if (style == Format || style == PyFormat) && c == '%' {
      style' := Format;
      if inParamEscape {
        inParamEscape' := false;
        emit := Some(Lit(c));
      } else if nextC == Some('%') {
        inParamEscape' := true;
      } else if nextC == Some('s') {
        state' := InParamName;
        emit := Some(Marker(paramIdx));
        paramIdx' := paramIdx + 1;
      } else {
        err := Some(UnsupportedPercent);
      }
    } else {
      emit := Some(Lit(c));
    }
  }

  /**
   * The end of a placeholder name in the loop: `placeholders.index` of the
   * name among the earlier ones decides the marker.
   */
  method ResolveName(ghost before: Scanner, placeholders: seq<string>)
    returns (placeholders': seq<string>, name: string, emit: Option<Chunk>)
    requires before.placeholders == placeholders && |placeholders| > 0
    ensures Resolve(before) ==
      before.(lex := Outside, placeholders := placeholders', out := Emit(before.out, emit),
              names := before.names + [name])
  {
    name := placeholders[|placeholders| - 1];
    var pidx := IndexOf(placeholders[..|placeholders| - 1], name);
    if pidx.Some? {
      emit := Some(Marker(pidx.value + 1));
      placeholders' := placeholders[..|placeholders| - 1];
    } else {
      emit := Some(Marker(|placeholders|));
      placeholders' := placeholders;
    }
  }

  /** The branch of the loop while reading a placeholder name (or just after `%s`). */
  method ParamNameChar(ghost before: Scanner, style: Style, prevC: Option<char>,
                       placeholders: seq<string>, c: char, nextC: Option<char>)
    returns (state': Lex, placeholders': seq<string>, name: Option<string>, emit: Option<Chunk>)
    requires Valid(before) && before.lex == InParamName
    requires before.style == style && before.prev == prevC && before.placeholders == placeholders
    ensures ParamNameStep(before, c, nextC) ==
      before.(lex := state', placeholders := placeholders', out := Emit(before.out, emit),
              names := Trace(before.names, name))
  {
    state', placeholders', name, emit := InParamName, placeholders, None, None;
    if style == Named {
      placeholders' := ExtendName(placeholders, c);
      if nextC.None? || (!IsAlnum(nextC.value) && nextC.value != '_') {
        var n;
        placeholders', n, emit := ResolveName(before.(placeholders := placeholders'), placeholders');
        state', name := Outside, Some(n);
      }
    } else if style == PyFormat {
      if prevC == Some(')') && c == 's' {
        var n;
        placeholders', n, emit := ResolveName(before, placeholders);
        state', name := Outside, Some(n);
      } else if c == '(' || c == ')' {
      } else {
        placeholders' := ExtendName(placeholders, c);
      }
    } else if style == Format {
      state' := Outside;
    }
  }

  /** One turn of the loop of `convert_paramstyle`, on the scanner variables carried by `before`. */
  method ScanChar(ghost before: Scanner, style: Style, state: Lex, prevC: Option<char>,
                  inQuoteEscape: bool, inParamEscape: bool, placeholders: seq<string>, paramIdx: nat,
                  c: char, nextC: Option<char>)
    returns (err: Option<ScanError>, style': Style, state': Lex, inQuoteEscape': bool, inParamEscape': bool,
             placeholders': seq<string>, paramIdx': nat, name: Option<string>, emit: Option<Chunk>)
    requires Valid(before)
    requires before == Scanner(style, state, prevC, inQuoteEscape, inParamEscape, placeholders,
                               before.out, before.names, paramIdx)
    ensures err.Some? ==> Step(before, c, nextC) == Err(err.value)
    ensures err.None? ==>
      Step(before, c, nextC) ==
        Ok(Scanner(style', state', Some(c), inQuoteEscape', inParamEscape', placeholders',
                   Emit(before.out, emit), Trace(before.names, name), paramIdx'))
  {
    err, style', state', inQuoteEscape', inParamEscape', placeholders', paramIdx', name, emit :=
      None, style, state, inQuoteEscape, inParamEscape, placeholders, paramIdx, None, None;
    match state {
      case Outside =>
        err, style', state', inParamEscape', placeholders', paramIdx', emit :=
          OutsideChar(before, style, prevC, inParamEscape, placeholders, paramIdx, c, nextC);
      case InSingleQuote =>
        if c == '\'' {
          if inQuoteEscape {
            inQuoteEscape' := false;
          } else if nextC == Some('\'') {
            inQuoteEscape' := true;
          } else {
            state' := Outside;
          }
        }
        emit := Some(Lit(c));
      case InQuotedIdent =>
        if c == '"' {
          state' := Outside;
        }
        emit := Some(Lit(c));
      case InEscapeString =>
        if c == '\'' && prevC != Some('\\') {
          state' := Outside;
        }
        emit := Some(Lit(c));
      case InParamName =>
        state', placeholders', name, emit := ParamNameChar(before, style, prevC, placeholders, c, nextC);
      case InComment =>
        emit := Some(Lit(c));
        if c == '\n' {
          state' := Outside;
        }
    }
  }

  /** One step of the spec fold, unfolded. */
  lemma {:induction false} RunNext(style: Style, q: string, i: nat)
    requires i < |q| && Run(style, q, i).Ok?
    ensures Run(style, q, i + 1) == Step(Run(style, q, i).value, q[i], Next(q, i))
  {
  }

  lemma {:induction false} ConvertOfRun(style: Style, q: string, st: Scanner)
    requires Run(style, q, |q|).Ok? && Run(style, q, |q|).value == st
    ensures Convert(style, q) == Ok(Conversion(Render(st.out), st.style, st.placeholders))
  {
  }

  lemma {:induction false} ConvertOfErr(style: Style, q: string, i: nat, e: ScanError)
    requires i <= |q| && Run(style, q, i) == Err(e)
    ensures Convert(style, q) == Err(e)
  {
    RunErrSticky(Init(style), q, 0, i, |q|);
  }

  /** The loop of `convert_paramstyle`, updating the scanner variables in place. */
  method ConvertParamstyle(style0: Style, query: string) returns (r: Result<Conversion, ScanError>)
    ensures r == Convert(style0, query)
  {
    var style := style0;
    var state := Outside;
    var inQuoteEscape := false;
    var inParamEscape := false;
    var placeholders: seq<string> := [];
    var outputQuery: string := "";
    var paramIdx: nat := 1;
    var prevC: Option<char> := None;
    ghost var out: seq<Chunk> := [];
    ghost var names: seq<string> := [];
    var i := 0;
    while i < |query|
      invariant 0 <= i <= |query|
      invariant Run(style0, query, i) ==
        Ok(Scanner(style, state, prevC, inQuoteEscape, inParamEscape, placeholders, out, names, paramIdx))
      invariant outputQuery == Render(out)
      decreases |query| - i
    {
      var c := query[i];
      var nextC := if i + 1 < |query| then Some(query[i + 1]) else None;
      ghost var before := Scanner(style, state, prevC, inQuoteEscape, inParamEscape, placeholders, out, names, paramIdx);
      RunNext(style0, query, i);
      assert Next(query, i) == nextC;
      var err, name, emit;
      err, style, state, inQuoteEscape, inParamEscape, placeholders, paramIdx, name, emit :=
        ScanChar(before, style, state, prevC, inQuoteEscape, inParamEscape, placeholders, paramIdx, c, nextC);
      if err.Some? {
        ConvertOfErr(style0, query, i + 1, err.value);
        return Err(err.value);
      }
      names := Trace(names, name);
      if emit.Some? {
        RenderSnoc(out, emit.value);
        outputQuery := outputQuery + RenderChunk(emit.value);
      }
      out := Emit(out, emit);
      prevC := Some(c);
      i := i + 1;
    }
    ConvertOfRun(style0, query, Scanner(style, state, prevC, inQuoteEscape, inParamEscape, placeholders, out, names, paramIdx));
    r := Ok(Conversion(outputQuery, style, placeholders));
  }
}
