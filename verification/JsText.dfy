/** The string operations of JavaScript that the models below depend on. */
module JsText {

  /** The characters `trim` removes: white space and line terminators. */
  predicate IsSpace(c: char) {
    || '\t' <= c <= '\r'
    || c == ' ' || c == '\U{00A0}' || c == '\U{1680}'
    || '\U{2000}' <= c <= '\U{200A}'
    || c == '\U{2028}' || c == '\U{2029}' || c == '\U{202F}' || c == '\U{205F}'
    || c == '\U{3000}' || c == '\U{FEFF}'
  }

  function TrimStart(s: string): string {
    if s != "" && IsSpace(s[0]) then TrimStart(s[1..]) else s
  }

  function TrimEnd(s: string): string {
    if s != "" && IsSpace(s[|s| - 1]) then TrimEnd(s[..|s| - 1]) else s
  }

  function Trim(s: string): string { TrimEnd(TrimStart(s)) }

  predicate Trimmed(s: string) {
    s == "" || (!IsSpace(s[0]) && !IsSpace(s[|s| - 1]))
  }

  lemma TrimOfTrimmed(s: string)
    requires Trimmed(s)
    ensures Trim(s) == s
  {
  }

  predicate AllSpace(s: string) { forall i :: 0 <= i < |s| ==> IsSpace(s[i]) }

  lemma {:induction false} TrimStartIs(s: string) returns (a: string)
    ensures s == a + TrimStart(s) && AllSpace(a)
    ensures TrimStart(s) != "" ==> !IsSpace(TrimStart(s)[0])
    decreases |s|
  {
    a := "";
    if s != "" && IsSpace(s[0]) {
      var rest := TrimStartIs(s[1..]);
      a := [s[0]] + rest;
    }
  }

  lemma {:induction false} TrimEndIs(s: string) returns (b: string)
    ensures s == TrimEnd(s) + b && AllSpace(b)
    ensures TrimEnd(s) != "" ==> !IsSpace(TrimEnd(s)[|TrimEnd(s)| - 1])
    decreases |s|
  {
    b := "";
    if s != "" && IsSpace(s[|s| - 1]) {
      var rest := TrimEndIs(s[..|s| - 1]);
      b := rest + [s[|s| - 1]];
    }
  }

  /** Only white space is taken off, and none is left at either end. */
  lemma TrimIs(s: string) returns (a: string, b: string)
    ensures s == a + Trim(s) + b && AllSpace(a) && AllSpace(b) && Trimmed(Trim(s))
  {
    a := TrimStartIs(s);
    b := TrimEndIs(TrimStart(s));
  }

  /** Nothing is left exactly of what is all white space. */
  lemma BlankExactlyWhen(s: string)
    ensures Trim(s) == "" <==> AllSpace(s)
  {
    var a, b := TrimIs(s);
    if Trim(s) != "" {
      assert s[|a|] == Trim(s)[0];
    }
  }

  // ---- split ----

  /** The pieces of a string between separators, `piece` being what the first has so far. */
  function SplitFrom(piece: string, s: string, seps: set<char>): (pieces: seq<string>)
    ensures pieces != []
    decreases |s|
  {
    if s == "" then [piece]
    else if s[0] in seps then [piece] + SplitFrom("", s[1..], seps)
    else SplitFrom(piece + [s[0]], s[1..], seps)
  }

  /** A stretch without separators, between two of them or the ends. */
  predicate PieceAt(s: string, seps: set<char>, i: int, j: int) {
    && 0 <= i <= j <= |s|
    && (i == 0 || s[i - 1] in seps) && (j == |s| || s[j] in seps)
    && forall k :: i <= k < j ==> s[k] !in seps
  }

  ghost predicate IsPiece(s: string, seps: set<char>, x: string) {
    exists i, j :: PieceAt(s, seps, i, j) && x == s[i..j]
  }

  /** A piece of what follows a separator, seen in the whole. */
  lemma PieceShifted(head: string, rest: string, seps: set<char>, i: int, j: int)
    requires head != "" && head[|head| - 1] in seps && 0 <= i <= j <= |rest|
    ensures PieceAt(head + rest, seps, i + |head|, j + |head|) <==> PieceAt(rest, seps, i, j)
    ensures (head + rest)[i + |head|..j + |head|] == rest[i..j]
  {
    var s, n := head + rest, |head|;
    assert forall k | 0 <= k < |rest| :: s[k + n] == rest[k];
    if PieceAt(s, seps, i + n, j + n) {
      assert forall k | i <= k < j :: rest[k] == s[k + n];
    }
    if PieceAt(rest, seps, i, j) {
      assert forall k | i + n <= k < j + n :: s[k] == rest[k - n];
    }
  }

  /** Up to the first separator there is one piece. */
  lemma PieceFirst(piece: string, c: char, rest: string, seps: set<char>, i: int, j: int)
    requires c in seps && forall k :: 0 <= k < |piece| ==> piece[k] !in seps
    requires PieceAt(piece + [c] + rest, seps, i, j) && i <= |piece|
    ensures i == 0 && j == |piece|
  {
    var s := piece + [c] + rest;
    assert s[|piece|] == c;
    assert forall k | 0 <= k < |piece| :: s[k] == piece[k];
  }

  /** Past a separator the pieces are the first, and those of the rest. */
  lemma PiecesAfter(piece: string, c: char, rest: string, seps: set<char>, x: string)
    requires c in seps && forall k :: 0 <= k < |piece| ==> piece[k] !in seps
    ensures IsPiece(piece + [c] + rest, seps, x) <==> x == piece || IsPiece(rest, seps, x)
  {
    var head := piece + [c];
    var s, n := head + rest, |head|;
    if IsPiece(s, seps, x) {
      var i, j :| PieceAt(s, seps, i, j) && x == s[i..j];
      if i < n {
        PieceFirst(piece, c, rest, seps, i, j);
        assert s[0..|piece|] == piece;
      } else {
        PieceShifted(head, rest, seps, i - n, j - n);
      }
    }
    if x == piece {
      assert forall k | 0 <= k < |piece| :: s[k] == piece[k];
      assert s[|piece|] == c && s[0..|piece|] == x;
      assert PieceAt(s, seps, 0, |piece|);
    }
    if IsPiece(rest, seps, x) {
      var i, j :| PieceAt(rest, seps, i, j) && x == rest[i..j];
      PieceShifted(head, rest, seps, i, j);
    }
  }

  /** `split` gives exactly the stretches between separators. */
  lemma {:induction false} SplitIs(piece: string, s: string, seps: set<char>, x: string)
    requires forall k :: 0 <= k < |piece| ==> piece[k] !in seps
    ensures x in SplitFrom(piece, s, seps) <==> IsPiece(piece + s, seps, x)
    decreases |s|
  {
    if s == "" {
      assert piece + s == piece;
      assert PieceAt(piece, seps, 0, |piece|) && piece[0..|piece|] == piece;
    } else if s[0] in seps {
      SplitIs("", s[1..], seps, x);
      assert "" + s[1..] == s[1..];
      PiecesAfter(piece, s[0], s[1..], seps, x);
      assert piece + s == piece + [s[0]] + s[1..];
    } else {
      SplitIs(piece + [s[0]], s[1..], seps, x);
      assert piece + s == piece + [s[0]] + s[1..];
    }
  }

  /** A piece without any of the further separators is one with them, too. */
  lemma FinerSplit(s: string, few: set<char>, more: set<char>, x: string)
    requires few <= more && x in SplitFrom("", s, few) && forall k :: 0 <= k < |x| ==> x[k] !in more
    ensures x in SplitFrom("", s, more)
  {
    SplitIs("", s, few, x);
    SplitIs("", s, more, x);
    assert "" + s == s;
    var i, j :| PieceAt(s, few, i, j) && x == s[i..j];
    PieceFiner(s, few, more, i, j);
  }

  lemma PieceFiner(s: string, few: set<char>, more: set<char>, i: int, j: int)
    requires few <= more && PieceAt(s, few, i, j) && forall k :: 0 <= k < j - i ==> s[i..j][k] !in more
    ensures PieceAt(s, more, i, j)
  {
    forall k | i <= k < j
      ensures s[k] !in more
    {
      assert s[i..j][k - i] == s[k];
    }
  }

  function JoinedBy(pieces: seq<string>, sep: char): string {
    if pieces == [] then "" else if |pieces| == 1 then pieces[0] else pieces[0] + [sep] + JoinedBy(pieces[1..], sep)
  }

  /** In order: joining the pieces again gives the string. */
  lemma {:induction false} SplitJoins(piece: string, s: string, sep: char)
    ensures JoinedBy(SplitFrom(piece, s, {sep}), sep) == piece + s
    decreases |s|
  {
    if s != "" {
      if s[0] == sep {
        var rest := SplitFrom("", s[1..], {sep});
        SplitJoins("", s[1..], sep);
        assert ([piece] + rest)[1..] == rest;
        assert piece + s == piece + [sep] + s[1..];
        assert "" + s[1..] == s[1..];
      } else {
        SplitJoins(piece + [s[0]], s[1..], sep);
        assert piece + s == piece + [s[0]] + s[1..];
      }
    }
  }
}
