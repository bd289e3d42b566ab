/**
 * `PGInterval`: a PostgreSQL interval kept as eleven optional unit counts,
 * its parser for the server's text form, its `normalize`-based equality and
 * its two renderings (`__repr__` and `__str__`).
 */
module Interval {
  import opened Wrappers
  import opened Text
  import Numerals

  /** The eleven attributes of a `PGInterval`, in the order the renderings list them. */
  datatype Unit =
    | Millennia | Centuries | Decades | Years | Months | Weeks
    | Days | Hours | Minutes | Seconds | Microseconds

  const ORDER: seq<Unit> :=
    [Millennia, Centuries, Decades, Years, Months, Weeks, Days, Hours, Minutes, Seconds, Microseconds]

  /** The attribute's name, which is also the unit word the renderings print. */
  function Name(u: Unit): (r: string)
    ensures |r| > 0
  {
    match u
    case Millennia => "millennia"
    case Centuries => "centuries"
    case Decades => "decades"
    case Years => "years"
    case Months => "months"
    case Weeks => "weeks"
    case Days => "days"
    case Hours => "hours"
    case Minutes => "minutes"
    case Seconds => "seconds"
    case Microseconds => "microseconds"
  }

  /** `PGInterval.UNIT_MAP`: the unit words the parser understands. */
  function UnitMap(word: string): Option<Unit>
  {
    match word
    case "year" => Some(Years)
    case "years" => Some(Years)
    case "millennia" => Some(Millennia)
    case "millenium" => Some(Millennia)
    case "centuries" => Some(Centuries)
    case "century" => Some(Centuries)
    case "decades" => Some(Decades)
    case "decade" => Some(Decades)
    case "months" => Some(Months)
    case "month" => Some(Months)
    case "mon" => Some(Months)
    case "mons" => Some(Months)
    case "weeks" => Some(Weeks)
    case "week" => Some(Weeks)
    case "days" => Some(Days)
    case "day" => Some(Days)
    case "hours" => Some(Hours)
    case "hour" => Some(Hours)
    case "minutes" => Some(Minutes)
    case "minute" => Some(Minutes)
    case "seconds" => Some(Seconds)
    case "second" => Some(Seconds)
    case "microseconds" => Some(Microseconds)
    case "microsecond" => Some(Microseconds)
    case _ => None
  }

  /** A non-empty run of lower-case ASCII letters. */
  predicate LowerWord(w: string)
  {
    |w| > 0 && forall k :: 0 <= k < |w| ==> 'a' <= w[k] <= 'z'
  }

  /** Unit words are lower-case words: single tokens that are neither clock fields nor integers. */
  lemma {:induction false} UnitWordShape(word: string)
    requires UnitMap(word).Some?
    ensures IsWord(word) && ':' !in word && Numerals.ParseInt(word).None?
  {
    UnitWordLower(word);
    LowerWordShape(word);
  }

  lemma {:induction false} UnitWordLower(word: string)
    requires UnitMap(word).Some?
    ensures LowerWord(word)
  {
  }

  lemma {:induction false} LowerWordShape(word: string)
    requires LowerWord(word)
    ensures IsWord(word) && ':' !in word && Numerals.ParseInt(word).None?
  {
    assert !Numerals.IsDigit(word[0]);
  }

  /** Every attribute name is itself a key of the unit map, and maps to that attribute. */
  lemma {:induction false} NamesAreUnitWords(u: Unit)
    ensures UnitMap(Name(u)) == Some(u)
  {
  }

  /** An interval; `None` is an attribute the constructor was not given. */
  datatype PGInterval = PGInterval(
    millennia: Option<int>, centuries: Option<int>, decades: Option<int>,
    years: Option<int>, months: Option<int>, weeks: Option<int>, days: Option<int>,
    hours: Option<int>, minutes: Option<int>, seconds: Option<int>,
    microseconds: Option<int>)

  /** `PGInterval()`: every attribute absent. */
  const EMPTY: PGInterval :=
    PGInterval(None, None, None, None, None, None, None, None, None, None, None)

  function Get(iv: PGInterval, u: Unit): Option<int>
  {
    match u
    case Millennia => iv.millennia
    case Centuries => iv.centuries
    case Decades => iv.decades
    case Years => iv.years
    case Months => iv.months
    case Weeks => iv.weeks
    case Days => iv.days
    case Hours => iv.hours
    case Minutes => iv.minutes
    case Seconds => iv.seconds
    case Microseconds => iv.microseconds
  }

  /** Setting one attribute (the dictionary store `t[unit] = value`) leaves the others alone. */
  function Set(iv: PGInterval, u: Unit, v: Option<int>): (r: PGInterval)
    ensures Get(r, u) == v
    ensures forall w :: w != u ==> Get(r, w) == Get(iv, w)
  {
    match u
    case Millennia => iv.(millennia := v)
    case Centuries => iv.(centuries := v)
    case Decades => iv.(decades := v)
    case Years => iv.(years := v)
    case Months => iv.(months := v)
    case Weeks => iv.(weeks := v)
    case Days => iv.(days := v)
    case Hours => iv.(hours := v)
    case Minutes => iv.(minutes := v)
    case Seconds => iv.(seconds := v)
    case Microseconds => iv.(microseconds := v)
  }

  /** Two intervals agreeing on every attribute are the same interval. */
  lemma {:induction false} Extensionality(a: PGInterval, b: PGInterval)
    requires forall u :: Get(a, u) == Get(b, u)
    ensures a == b
  {
    assert Get(a, Millennia) == Get(b, Millennia) && Get(a, Centuries) == Get(b, Centuries);
    assert Get(a, Decades) == Get(b, Decades) && Get(a, Years) == Get(b, Years);
    assert Get(a, Months) == Get(b, Months) && Get(a, Weeks) == Get(b, Weeks);
    assert Get(a, Days) == Get(b, Days) && Get(a, Hours) == Get(b, Hours);
    assert Get(a, Minutes) == Get(b, Minutes) && Get(a, Seconds) == Get(b, Seconds);
    assert Get(a, Microseconds) == Get(b, Microseconds);
  }

  // ---------------------------------------------------------------------------
  // from_str
  // ---------------------------------------------------------------------------

  /**
   * What `from_str` raises: a ValueError from `int` or from unpacking an
   * `H:M:S` token, a KeyError for an unknown unit word, or (not modelled)
   * a seconds field with a fraction, which the source reads with `float`.
   */
  datatype IntervalError = ValueError | KeyError(word: string) | FractionalSeconds(text: string)

  /** The parser's variables between tokens: the dictionary `t` and `curr_val`. */
  datatype Parsing = Parsing(t: PGInterval, curr: Option<int>)

  /**
   * An `H:M:S` token: it is read exactly when it has three colon-separated
   * integers; each nonzero one is stored, a zero one leaves the attribute as
   * it was, and no other attribute changes.
   */
  function ClockToken(t: PGInterval, k: string): (r: Result<PGInterval, IntervalError>)
    ensures var parts := SplitOn(k, ':');
      r.Ok? <==> |parts| == 3 && Numerals.ParseInt(parts[0]).Some? && Numerals.ParseInt(parts[1]).Some? && Numerals.ParseInt(parts[2]).Some?
    ensures r.Ok? ==>
      var parts := SplitOn(k, ':');
      var h, m, sec := Numerals.ParseInt(parts[0]).value, Numerals.ParseInt(parts[1]).value, Numerals.ParseInt(parts[2]).value;
      r.value == t.(hours := if h != 0 then Some(h) else t.hours,
                    minutes := if m != 0 then Some(m) else t.minutes,
                    seconds := if sec != 0 then Some(sec) else t.seconds)
    ensures r.Ok? ==> Get(r.value, Hours) != Some(0) || Get(t, Hours) == Some(0)
  {
    var parts := SplitOn(k, ':');
    if |parts| != 3 then Err(ValueError)
    else
      match Numerals.ParseInt(parts[0])
      case None => Err(ValueError)
      case Some(hours) =>
        var t1 := if hours != 0 then t.(hours := Some(hours)) else t;
        match Numerals.ParseInt(parts[1])
        case None => Err(ValueError)
        case Some(minutes) =>
          var t2 := if minutes != 0 then t1.(minutes := Some(minutes)) else t1;
          match Numerals.ParseInt(parts[2])
          case None => Err(FractionalSeconds(parts[2]))
          case Some(seconds) =>
            Ok(if seconds != 0 then t2.(seconds := Some(seconds)) else t2)
  }

  /** One iteration of the token loop of `from_str`. */
  function TokenStep(p: Parsing, k: string): (r: Result<Parsing, IntervalError>)
    ensures r.Ok? && ':' !in k && Numerals.ParseInt(k).None? ==>
              UnitMap(k).Some? && r.value == Parsing(Set(p.t, UnitMap(k).value, p.curr), p.curr)
    ensures r.Err? && ':' !in k ==> r == Err(KeyError(k))
  {
    if ':' in k then
      var t :- ClockToken(p.t, k);
      Ok(p.(t := t))
    else
      match Numerals.ParseInt(k)
      case Some(v) => Ok(p.(curr := Some(v)))
      case None =>
        match UnitMap(k)
        case None => Err(KeyError(k))
        case Some(u) => Ok(p.(t := Set(p.t, u, p.curr)))
  }

  function TokensFrom(p: Parsing, tokens: seq<string>): Result<Parsing, IntervalError>
  {
    if tokens == [] then Ok(p)
    else
      var q :- TokensFrom(p, tokens[..|tokens| - 1]);
      TokenStep(q, tokens[|tokens| - 1])
  }

  /** `PGInterval.from_str(s)`. */
  function FromStrSpec(s: string): Result<PGInterval, IntervalError>
  {
    var p :- TokensFrom(Parsing(EMPTY, None), Split(s));
    Ok(p.t)
  }

  lemma {:induction false} TokensNext(p: Parsing, tokens: seq<string>, i: nat)
    requires i < |tokens|
    ensures TokensFrom(p, tokens[..i + 1]) ==
              (if TokensFrom(p, tokens[..i]).Err? then TokensFrom(p, tokens[..i])
               else TokenStep(TokensFrom(p, tokens[..i]).value, tokens[i]))
  {
    assert tokens[..i + 1][..i] == tokens[..i];
  }

  /** The token loop of `from_str`, proved to compute `FromStrSpec`. */
  method FromStr(s: string) returns (r: Result<PGInterval, IntervalError>)
    ensures r == FromStrSpec(s)
  {
    var tokens := Split(s);
    var t := EMPTY;
    var currVal: Option<int> := None;
    var i := 0;
    while i < |tokens|
      invariant 0 <= i <= |tokens|
      invariant TokensFrom(Parsing(EMPTY, None), tokens[..i]) == Ok(Parsing(t, currVal))
    {
      var k := tokens[i];
      TokensNext(Parsing(EMPTY, None), tokens, i);
      if ':' in k {
        var clock := ClockToken(t, k);
        if clock.Err? {
          assert TokensFrom(Parsing(EMPTY, None), tokens[..i + 1]).Err?;
          TokensErrSticky(Parsing(EMPTY, None), tokens, i + 1);
          assert tokens[..|tokens|] == tokens;
          return Err(clock.error);
        }
        t := clock.value;
      } else {
        var v := Numerals.ParseInt(k);
        if v.Some? {
          currVal := v;
        } else {
          var unit := UnitMap(k);
          if unit.None? {
            TokensErrSticky(Parsing(EMPTY, None), tokens, i + 1);
            assert tokens[..|tokens|] == tokens;
            return Err(KeyError(k));
          }
          t := Set(t, unit.value, currVal);
        }
      }
      i := i + 1;
    }
    assert tokens[..i] == tokens;
    r := Ok(t);
  }

  lemma {:induction false} TokensErrSticky(p: Parsing, tokens: seq<string>, i: nat)
    requires i <= |tokens|
    requires TokensFrom(p, tokens[..i]).Err?
    ensures TokensFrom(p, tokens) == TokensFrom(p, tokens[..i])
    decreases |tokens| - i
  {
    if i < |tokens| {
      TokensNext(p, tokens, i);
      TokensErrSticky(p, tokens, i + 1);
    } else {
      assert tokens[..i] == tokens;
    }
  }

  lemma {:induction false} TokensAppend(p: Parsing, a: seq<string>, b: seq<string>)
    requires TokensFrom(p, a).Ok?
    ensures TokensFrom(p, a + b) == TokensFrom(TokensFrom(p, a).value, b)
    decreases |b|
  {
    if b == [] {
      assert a + b == a;
    } else {
      assert (a + b)[..|a + b| - 1] == a + b[..|b| - 1];
      TokensAppend(p, a, b[..|b| - 1]);
    }
  }

  /** A count followed by a unit word stores the count under that word's attribute. */
  lemma {:induction false} CountAndUnit(n: int, word: string)
    requires UnitMap(word).Some?
    ensures FromStrSpec(Numerals.IntToString(n) + " " + word) == Ok(Set(EMPTY, UnitMap(word).value, Some(n)))
  {
    var num := Numerals.IntToString(n);
    NumberIsWord(n);
    UnitWordShape(word);
    JoinTwo(num, word);
    SplitJoin([num, word]);
    CountThenUnit(Parsing(EMPTY, None), n, word);
  }

  lemma {:induction false} JoinTwo(a: string, b: string)
    ensures Join(" ", [a, b]) == a + " " + b
  {
    assert [a, b][..1] == [a];
  }

  /** The two tokens `str(n)` and a unit word, read from any parser state. */
  lemma {:induction false} CountThenUnit(p: Parsing, n: int, word: string)
    requires UnitMap(word).Some?
    ensures TokensFrom(p, [Numerals.IntToString(n), word]) ==
              Ok(Parsing(Set(p.t, UnitMap(word).value, Some(n)), Some(n)))
  {
    var num := Numerals.IntToString(n);
    Numerals.IntRoundTrip(n);
    NumberIsWord(n);
    UnitWordShape(word);
    assert TokensFrom(p, [num]) == Ok(p.(curr := Some(n))) by {
      assert [num][..0] == [];
    }
    assert [num, word][..1] == [num];
  }

  /** The clock token `H:M:S` for three integers. */
  function Clock(h: int, m: int, sec: int): string
  {
    Numerals.IntToString(h) + ":" + Numerals.IntToString(m) + ":" + Numerals.IntToString(sec)
  }

  lemma {:induction false} ClockIsWord(h: int, m: int, sec: int)
    ensures IsWord(Clock(h, m, sec)) && ':' in Clock(h, m, sec)
    ensures SplitOn(Clock(h, m, sec), ':') ==
              [Numerals.IntToString(h), Numerals.IntToString(m), Numerals.IntToString(sec)]
  {
    var hs, ms, ss := Numerals.IntToString(h), Numerals.IntToString(m), Numerals.IntToString(sec);
    NumberIsWord(h);
    NumberIsWord(m);
    NumberIsWord(sec);
    var k := Clock(h, m, sec);
    SplitOnThree(hs, ms, ss, ':');
    assert k == hs + [':'] + ms + [':'] + ss;
    forall j | 0 <= j < |k| ensures !IsSpace(k[j]) {
      if j < |hs| { assert k[j] == hs[j]; }
      else if j == |hs| { }
      else if j < |hs| + 1 + |ms| { assert k[j] == ms[j - |hs| - 1]; }
      else if j == |hs| + 1 + |ms| { }
      else { assert k[j] == ss[j - |hs| - 2 - |ms|]; }
    }
    assert k[|hs|] == ':';
  }

  /** The clock token sets exactly its nonzero fields on the interval read so far. */
  lemma {:induction false} ClockTokenFields(t: PGInterval, h: int, m: int, sec: int)
    ensures ClockToken(t, Clock(h, m, sec)) ==
              Ok(t.(hours := if h != 0 then Some(h) else t.hours,
                    minutes := if m != 0 then Some(m) else t.minutes,
                    seconds := if sec != 0 then Some(sec) else t.seconds))
  {
    ClockIsWord(h, m, sec);
    Numerals.IntRoundTrip(h);
    Numerals.IntRoundTrip(m);
    Numerals.IntRoundTrip(sec);
  }

  /** A string that is a single token is parsed by one step of the token loop. */
  lemma {:induction false} SingleToken(k: string)
    requires IsWord(k)
    ensures FromStrSpec(k) ==
              (var r := TokenStep(Parsing(EMPTY, None), k); if r.Ok? then Ok(r.value.t) else Err(r.error))
  {
    SplitJoin([k]);
    assert Split(k) == [k];
    var p0 := Parsing(EMPTY, None);
    assert [k][..0] == [];
    assert TokensFrom(p0, [k]) == TokenStep(p0, k);
  }

  /** A clock token alone sets exactly its nonzero fields, whatever their signs. */
  lemma {:induction false} ClockFields(h: int, m: int, sec: int)
    ensures FromStrSpec(Clock(h, m, sec)) ==
              Ok(EMPTY.(hours := if h != 0 then Some(h) else None,
                        minutes := if m != 0 then Some(m) else None,
                        seconds := if sec != 0 then Some(sec) else None))
  {
    ClockIsWord(h, m, sec);
    SingleToken(Clock(h, m, sec));
    ClockTokenFields(EMPTY, h, m, sec);
  }

  /** `str(n)` is a single token free of colons. */
  lemma {:induction false} NumberIsWord(n: int)
    ensures IsWord(Numerals.IntToString(n)) && ':' !in Numerals.IntToString(n)
  {
    var num := Numerals.IntToString(n);
    if n < 0 {
      assert num[1..] == Numerals.NatToString(-n);
      forall k | 1 <= k < |num| ensures Numerals.IsDigit(num[k]) {
        assert num[k] == num[1..][k - 1];
      }
    }
  }

  // ---------------------------------------------------------------------------
  // Renderings
  // ---------------------------------------------------------------------------

  /** The `str(value)`, unit-name pairs of the given attributes that are set. */
  function Parts(iv: PGInterval, us: seq<Unit>): (r: seq<string>)
    ensures forall k :: 0 <= k < |r| ==> IsWord(r[k])
  {
    if us == [] then []
    else
      var u := us[|us| - 1];
      var init := Parts(iv, us[..|us| - 1]);
      match Get(iv, u)
      case None => init
      case Some(v) =>
        NumberIsWord(v);
        NamesAreUnitWords(u);
        init + [Numerals.IntToString(v), Name(u)]
  }

  /** `__repr__`: `<PGInterval` and the set attributes, space separated, then `>`. */
  function ReprText(iv: PGInterval): string
  {
    Join(" ", ["<PGInterval"] + Parts(iv, ORDER)) + ">"
  }

  /** The loop of `__repr__`, proved to compute `ReprText`. */
  method Repr(iv: PGInterval) returns (r: string)
    ensures r == ReprText(iv)
  {
    var res := ["<PGInterval"];
    var i := 0;
    while i < |ORDER|
      invariant 0 <= i <= |ORDER|
      invariant res == ["<PGInterval"] + Parts(iv, ORDER[..i])
    {
      var u := ORDER[i];
      assert ORDER[..i + 1][..i] == ORDER[..i];
      var value := Get(iv, u);
      if value.Some? {
        res := res + [Numerals.IntToString(value.value)];
        res := res + [Name(u)];
      }
      i := i + 1;
    }
    assert ORDER[..i] == ORDER;
    r := Join(" ", res) + ">";
  }

  /** `__str__` as intended: the set attributes, space separated, each named by its attribute. */
  function StrText(iv: PGInterval): string
  {
    Join(" ", Parts(iv, ORDER))
  }

  /** The AttributeError raised by reading an attribute the object does not have. */
  datatype AttributeError = AttributeError(name: string)

  /**
   * `__str__` as written: the millennia branch reads the misspelt attribute
   * `millenia`, which no interval has, so it raises whenever millennia is set.
   */
  function StrAsWritten(iv: PGInterval): Result<string, AttributeError>
  {
    if iv.millennia.Some? then Err(AttributeError("millenia")) else Ok(StrText(iv))
  }

  /** Any interval with millennia set makes the written `__str__` raise. */
  lemma {:induction false} StrAsWrittenFails(n: int)
    ensures StrAsWritten(EMPTY.(millennia := Some(n))).Err?
    ensures StrAsWritten(EMPTY.(years := Some(n))) == Ok(StrText(EMPTY.(years := Some(n))))
  {
  }

  /** `__repr__` is `__str__` wrapped in `<PGInterval …>`. */
  lemma {:induction false} ReprIsWrappedStr(iv: PGInterval)
    ensures ReprText(iv) ==
              "<PGInterval" + (if Parts(iv, ORDER) == [] then "" else " " + StrText(iv)) + ">"
  {
    JoinCons(" ", "<PGInterval", Parts(iv, ORDER));
  }

  lemma {:induction false} JoinCons(sep: string, head: string, ps: seq<string>)
    ensures Join(sep, [head] + ps) == head + (if ps == [] then "" else sep + Join(sep, ps))
    decreases |ps|
  {
    if |ps| > 1 {
      var init := ps[..|ps| - 1];
      assert ([head] + ps)[..|ps|] == [head] + init;
      JoinCons(sep, head, init);
    } else if |ps| == 1 {
      assert ([head] + ps)[..1] == [head];
    } else {
      assert [head] + ps == [head];
    }
  }

  /** The attributes among `us` copied from `iv` onto an empty interval. */
  function Restrict(iv: PGInterval, us: seq<Unit>): PGInterval
  {
    if us == [] then EMPTY
    else
      var u := us[|us| - 1];
      var init := Restrict(iv, us[..|us| - 1]);
      if Get(iv, u).Some? then Set(init, u, Get(iv, u)) else init
  }

  lemma {:induction false} RestrictGet(iv: PGInterval, us: seq<Unit>, w: Unit)
    ensures Get(Restrict(iv, us), w) == if w in us then Get(iv, w) else None
  {
    if us != [] {
      var u := us[|us| - 1];
      RestrictGet(iv, us[..|us| - 1], w);
      assert us == us[..|us| - 1] + [u];
      assert w in us <==> w in us[..|us| - 1] || w == u;
    }
  }

  /** Parsing the rendered pairs of some attributes recovers exactly those attributes. */
  lemma {:induction false} ParseParts(iv: PGInterval, us: seq<Unit>)
    ensures TokensFrom(Parsing(EMPTY, None), Parts(iv, us)).Ok?
    ensures TokensFrom(Parsing(EMPTY, None), Parts(iv, us)).value.t == Restrict(iv, us)
  {
    if us != [] {
      var init := us[..|us| - 1];
      var u := us[|us| - 1];
      ParseParts(iv, init);
      var pre := Parts(iv, init);
      var p := TokensFrom(Parsing(EMPTY, None), pre).value;
      match Get(iv, u)
      case None =>
        assert Parts(iv, us) == pre;
        assert Restrict(iv, us) == Restrict(iv, init);
      case Some(v) =>
        var num := Numerals.IntToString(v);
        assert Parts(iv, us) == pre + [num, Name(u)];
        assert Restrict(iv, us) == Set(Restrict(iv, init), u, Some(v));
        TokensAppend(Parsing(EMPTY, None), pre, [num, Name(u)]);
        NamesAreUnitWords(u);
        CountThenUnit(p, v, Name(u));
    }
  }

  /** `from_str(str(iv)) == iv`, for the intended `__str__`. */
  lemma {:induction false} StrRoundTrip(iv: PGInterval)
    ensures FromStrSpec(StrText(iv)) == Ok(iv)
  {
    SplitJoin(Parts(iv, ORDER));
    ParseParts(iv, ORDER);
    forall w ensures Get(Restrict(iv, ORDER), w) == Get(iv, w) {
      RestrictGet(iv, ORDER, w);
      assert w in ORDER;
    }
    Extensionality(Restrict(iv, ORDER), iv);
  }

  // ---------------------------------------------------------------------------
  // Equality
  // ---------------------------------------------------------------------------

  function OrZero(v: Option<int>): int
  {
    if v.Some? then v.value else 0
  }

  /** The interval `normalize` returns: only months, days and (fractional) seconds. */
  datatype Normalized = Normalized(months: int, days: int, seconds: real)

  /** `normalize`: fold years into months, weeks into days, and clock fields into seconds. */
  function Normalize(iv: PGInterval): Normalized
  {
    var months := OrZero(iv.months) + OrZero(iv.years) * 12;
    var days := OrZero(iv.days) + OrZero(iv.weeks) * 7;
    var seconds := (OrZero(iv.hours) * 60 * 60 + OrZero(iv.minutes) * 60 + OrZero(iv.seconds)) as real
                   + OrZero(iv.microseconds) as real / 1000000.0;
    Normalized(months, days, seconds)
  }

  /** The right-hand operand of `==`: another interval, or any other Python object. */
  datatype Operand = IntervalOperand(iv: PGInterval) | OtherObject

  /** `PGInterval.__eq__`. */
  predicate Eq(a: PGInterval, other: Operand)
  {
    match other
    case OtherObject => false
    case IntervalOperand(b) =>
      var s := Normalize(a);
      var o := Normalize(b);
      s.months == o.months && s.days == o.days && s.seconds == o.seconds
  }

  /** How much of each quantity one unit of an attribute contributes: months, days, seconds. */
  function Weight(u: Unit): (real, real, real)
  {
    match u
    case Years => (12.0, 0.0, 0.0)
    case Months => (1.0, 0.0, 0.0)
    case Weeks => (0.0, 7.0, 0.0)
    case Days => (0.0, 1.0, 0.0)
    case Hours => (0.0, 0.0, 3600.0)
    case Minutes => (0.0, 0.0, 60.0)
    case Seconds => (0.0, 0.0, 1.0)
    case Microseconds => (0.0, 0.0, 0.000001)
    case _ => (0.0, 0.0, 0.0)
  }

  /** The weighted sum of the attributes among `us`, one quantity at a time. */
  function Total(iv: PGInterval, us: seq<Unit>, which: nat): real
    requires which < 3
  {
    if us == [] then 0.0
    else
      var u := us[|us| - 1];
      var w := Weight(u);
      Total(iv, us[..|us| - 1], which) + OrZero(Get(iv, u)) as real * Component(w, which)
  }

  function Component(w: (real, real, real), which: nat): real
    requires which < 3
  {
    if which == 0 then w.0 else if which == 1 then w.1 else w.2
  }

  lemma {:induction false} TotalSnoc(iv: PGInterval, i: nat, which: nat)
    requires 0 < i <= |ORDER| && which < 3
    ensures Total(iv, ORDER[..i], which) ==
              Total(iv, ORDER[..i - 1], which) + OrZero(Get(iv, ORDER[i - 1])) as real * Component(Weight(ORDER[i - 1]), which)
  {
    assert ORDER[..i][..i - 1] == ORDER[..i - 1];
  }

  lemma {:induction false} TotalsOfNormalize(iv: PGInterval)
    ensures Normalize(iv).months as real == Total(iv, ORDER, 0)
    ensures Normalize(iv).days as real == Total(iv, ORDER, 1)
    ensures Normalize(iv).seconds == Total(iv, ORDER, 2)
  {
    MonthsTotal(iv);
    DaysTotal(iv);
    SecondsTotal(iv);
  }

  lemma {:induction false} MonthsTotal(iv: PGInterval)
    ensures Normalize(iv).months as real == Total(iv, ORDER, 0)
  {
    TotalUnfold(iv, 0);
  }

  lemma {:induction false} DaysTotal(iv: PGInterval)
    ensures Normalize(iv).days as real == Total(iv, ORDER, 1)
  {
    TotalUnfold(iv, 1);
  }

  lemma {:induction false} SecondsTotal(iv: PGInterval)
    ensures Normalize(iv).seconds == Total(iv, ORDER, 2)
  {
    TotalUnfold(iv, 2);
  }

  /** The weighted total over all attributes, written out term by term. */
  lemma {:induction false} TotalUnfold(iv: PGInterval, which: nat)
    requires which < 3
    ensures Total(iv, ORDER, which) ==
              OrZero(iv.millennia) as real * Component(Weight(Millennia), which)
              + OrZero(iv.centuries) as real * Component(Weight(Centuries), which)
              + OrZero(iv.decades) as real * Component(Weight(Decades), which)
              + OrZero(iv.years) as real * Component(Weight(Years), which)
              + OrZero(iv.months) as real * Component(Weight(Months), which)
              + OrZero(iv.weeks) as real * Component(Weight(Weeks), which)
              + OrZero(iv.days) as real * Component(Weight(Days), which)
              + OrZero(iv.hours) as real * Component(Weight(Hours), which)
              + OrZero(iv.minutes) as real * Component(Weight(Minutes), which)
              + OrZero(iv.seconds) as real * Component(Weight(Seconds), which)
              + OrZero(iv.microseconds) as real * Component(Weight(Microseconds), which)
  {
    TotalSnoc(iv, 11, which);
    TotalSnoc(iv, 10, which);
    TotalSnoc(iv, 9, which);
    TotalSnoc(iv, 8, which);
    TotalSnoc(iv, 7, which);
    TotalSnoc(iv, 6, which);
    TotalSnoc(iv, 5, which);
    TotalSnoc(iv, 4, which);
    TotalSnoc(iv, 3, which);
    TotalSnoc(iv, 2, which);
    TotalSnoc(iv, 1, which);
    assert ORDER[..0] == [] && ORDER[..|ORDER|] == ORDER;
  }

  /**
   * Two intervals are equal exactly when the weighted totals of months,
   * days and seconds agree; a non-interval is never equal.
   */
  lemma {:induction false} EqMeansEqualTotals(a: PGInterval, b: PGInterval)
    ensures Eq(a, IntervalOperand(b)) <==>
              (forall which :: 0 <= which < 3 ==> Total(a, ORDER, which) == Total(b, ORDER, which))
    ensures !Eq(a, OtherObject)
  {
    TotalsOfNormalize(a);
    TotalsOfNormalize(b);
    if forall which :: 0 <= which < 3 ==> Total(a, ORDER, which) == Total(b, ORDER, which) {
      assert Total(a, ORDER, 0) == Total(b, ORDER, 0);
      assert Total(a, ORDER, 1) == Total(b, ORDER, 1);
      assert Total(a, ORDER, 2) == Total(b, ORDER, 2);
    }
  }

  /** Equality ignores millennia, centuries and decades, and is an equivalence. */
  lemma {:induction false} EqProperties(a: PGInterval, b: PGInterval, c: PGInterval, m: Option<int>, cs: Option<int>, d: Option<int>)
    ensures Eq(a, IntervalOperand(a.(millennia := m, centuries := cs, decades := d)))
    ensures Eq(a, IntervalOperand(b)) ==> Eq(b, IntervalOperand(a))
    ensures Eq(a, IntervalOperand(b)) && Eq(b, IntervalOperand(c)) ==> Eq(a, IntervalOperand(c))
    ensures Eq(EMPTY.(years := Some(1)), IntervalOperand(EMPTY.(months := Some(12))))
  {
  }
}
