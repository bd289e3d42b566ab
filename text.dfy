/**
 * The Python string helpers the driver leans on: `sep.join(parts)`,
 * whitespace `str.split()` and single-character `str.split(sep)`.
 */
module Text {

  /** `sep.join(parts)`, built from the left. */
  function Join(sep: string, parts: seq<string>): (r: string)
    ensures |parts| == 1 ==> r == parts[0]
    ensures |parts| == 0 ==> r == ""
  {
    if |parts| == 0 then ""
    else if |parts| == 1 then parts[0]
    else Join(sep, parts[..|parts| - 1]) + sep + parts[|parts| - 1]
  }

  /** The characters `str.isspace` accepts in the ASCII range. */
  predicate IsSpace(c: char)
  {
    c == ' ' || '\t' <= c <= '\r' || 28 as char <= c <= 31 as char
  }

  /** A token `str.split()` can return: non-empty, without whitespace. */
  predicate IsWord(w: string)
  {
    |w| > 0 && forall k :: 0 <= k < |w| ==> !IsSpace(w[k])
  }

  /** Progress of `str.split()`: the words finished so far and the one being read. */
  datatype Splitting = Splitting(words: seq<string>, cur: string)

  function SplitStep(st: Splitting, c: char): (r: Splitting)
    ensures IsSpace(c) ==> r.cur == []
    ensures !IsSpace(c) ==> r.words == st.words && r.cur == st.cur + [c]
  {
    if IsSpace(c) then
      if st.cur == [] then st else Splitting(st.words + [st.cur], [])
    else st.(cur := st.cur + [c])
  }

  function SplitFrom(st: Splitting, s: string): Splitting
  {
    if s == [] then st else SplitStep(SplitFrom(st, s[..|s| - 1]), s[|s| - 1])
  }

  /** `s.split()`: the maximal runs of non-whitespace characters, in order. */
  function Split(s: string): (r: seq<string>)
  {
    var st := SplitFrom(Splitting([], []), s);
    if st.cur == [] then st.words else st.words + [st.cur]
  }

  lemma {:induction false} SplitFromAppend(st: Splitting, a: string, b: string)
    ensures SplitFrom(st, a + b) == SplitFrom(SplitFrom(st, a), b)
    decreases |b|
  {
    if b == [] {
      assert a + b == a;
    } else {
      assert (a + b)[..|a + b| - 1] == a + b[..|b| - 1];
      SplitFromAppend(st, a, b[..|b| - 1]);
    }
  }

  lemma {:induction false} SplitWord(ws: seq<string>, pre: string, w: string)
    requires forall k :: 0 <= k < |w| ==> !IsSpace(w[k])
    ensures SplitFrom(Splitting(ws, pre), w) == Splitting(ws, pre + w)
    decreases |w|
  {
    if w == [] {
      assert pre + w == pre;
    } else {
      SplitWord(ws, pre, w[..|w| - 1]);
      assert pre + w[..|w| - 1] + [w[|w| - 1]] == pre + w;
    }
  }

  /** Splitting words joined by single spaces gives back the words. */
  lemma {:induction false} SplitJoinState(ws: seq<string>)
    requires |ws| > 0
    requires forall k :: 0 <= k < |ws| ==> IsWord(ws[k])
    ensures SplitFrom(Splitting([], []), Join(" ", ws)) == Splitting(ws[..|ws| - 1], ws[|ws| - 1])
    decreases |ws|
  {
    var n := |ws|;
    if n == 1 {
      SplitWord([], [], ws[0]);
    } else {
      var init := ws[..n - 1];
      SplitJoinState(init);
      SplitFromAppend(Splitting([], []), Join(" ", init) + " ", ws[n - 1]);
      SplitFromAppend(Splitting([], []), Join(" ", init), " ");
      assert SplitFrom(Splitting(init[..n - 2], init[n - 2]), " ") == Splitting(init, []) by {
        assert " "[..0] == [];
      }
      SplitWord(init, [], ws[n - 1]);
    }
  }

  lemma {:induction false} SplitJoin(ws: seq<string>)
    requires forall k :: 0 <= k < |ws| ==> IsWord(ws[k])
    ensures Split(Join(" ", ws)) == ws
  {
    if |ws| > 0 {
      SplitJoinState(ws);
      var st := SplitFrom(Splitting([], []), Join(" ", ws));
      assert st.cur == ws[|ws| - 1] != [];
      assert ws[..|ws| - 1] + [ws[|ws| - 1]] == ws;
    }
  }

  /** `s.split(sep)` for a one-element separator: empty pieces are kept (strings and bytes alike). */
  function SplitOn<T(==)>(s: seq<T>, sep: T): (r: seq<seq<T>>)
    ensures |r| >= 1
  {
    if s == [] then [[]]
    else
      var p := SplitOn(s[..|s| - 1], sep);
      if s[|s| - 1] == sep then p + [[]] else p[..|p| - 1] + [p[|p| - 1] + [s[|s| - 1]]]
  }

  lemma {:induction false} SplitOnPiece<T>(pre: seq<T>, piece: seq<T>, sep: T)
    requires sep !in piece
    ensures var p := SplitOn(pre, sep);
            SplitOn(pre + piece, sep) == p[..|p| - 1] + [p[|p| - 1] + piece]
    decreases |piece|
  {
    var p := SplitOn(pre, sep);
    if piece == [] {
      assert pre + piece == pre;
      assert p[|p| - 1] + piece == p[|p| - 1];
      assert p[..|p| - 1] + [p[|p| - 1]] == p;
    } else {
      var init := piece[..|piece| - 1];
      SplitOnPiece(pre, init, sep);
      assert (pre + piece)[..|pre + piece| - 1] == pre + init;
      assert p[|p| - 1] + init + [piece[|piece| - 1]] == p[|p| - 1] + piece;
    }
  }

  lemma {:induction false} SplitOnSep<T>(pre: seq<T>, sep: T)
    ensures SplitOn(pre + [sep], sep) == SplitOn(pre, sep) + [[]]
  {
    assert (pre + [sep])[..|pre|] == pre;
  }

  /** A separator followed by a piece free of it adds that piece as the last part. */
  lemma {:induction false} SplitOnNext<T>(pre: seq<T>, piece: seq<T>, sep: T)
    requires sep !in piece
    ensures SplitOn(pre + [sep] + piece, sep) == SplitOn(pre, sep) + [piece]
  {
    SplitOnSep(pre, sep);
    SplitOnPiece(pre + [sep], piece, sep);
    var p := SplitOn(pre, sep) + [[]];
    assert p[..|p| - 1] == SplitOn(pre, sep);
    assert p[|p| - 1] + piece == piece;
  }

  /** A piece free of the separator splits into itself alone. */
  lemma {:induction false} SplitOnSingle<T>(piece: seq<T>, sep: T)
    requires sep !in piece
    ensures SplitOn(piece, sep) == [piece]
  {
    SplitOnPiece([], piece, sep);
    assert [] + piece == piece;
  }

  /** Three pieces free of the separator, joined by it, split back into those three. */
  lemma {:induction false} SplitOnThree<T>(a: seq<T>, b: seq<T>, c: seq<T>, sep: T)
    requires sep !in a && sep !in b && sep !in c
    ensures SplitOn(a + [sep] + b + [sep] + c, sep) == [a, b, c]
  {
    SplitOnSingle(a, sep);
    SplitOnNext(a, b, sep);
    SplitOnNext(a + [sep] + b, c, sep);
  }

  /** `sep.join(parts)` for a one-element separator (strings and bytes alike). */
  function JoinOn<T>(parts: seq<seq<T>>, sep: T): (r: seq<T>)
    ensures |parts| == 1 ==> r == parts[0]
  {
    if |parts| == 0 then []
    else if |parts| == 1 then parts[0]
    else JoinOn(parts[..|parts| - 1], sep) + [sep] + parts[|parts| - 1]
  }

  /** Splitting on the separator gives back the pieces it joined, when none of them contains it. */
  lemma {:induction false} SplitOnJoinOn<T>(parts: seq<seq<T>>, sep: T)
    requires |parts| > 0 && forall k :: 0 <= k < |parts| ==> sep !in parts[k]
    ensures SplitOn(JoinOn(parts, sep), sep) == parts
    decreases |parts|
  {
    if |parts| == 1 {
      SplitOnSingle(parts[0], sep);
    } else {
      var init := parts[..|parts| - 1];
      SplitOnJoinOn(init, sep);
      SplitOnNext(JoinOn(init, sep), parts[|parts| - 1], sep);
      assert init + [parts[|parts| - 1]] == parts;
    }
  }
}
