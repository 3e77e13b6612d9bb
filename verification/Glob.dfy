/** Path patterns: the row-by-row matcher and what a pattern means. */
module Glob {
  import opened Base

  datatype Token = Literal(c: char) | One | Star | GlobStar

  /** `**` takes a following slash with it. */
  function Tokens(pattern: string): seq<Token>
    decreases |pattern|
  {
    if pattern == "" then []
    else if pattern[0] == '*' && |pattern| > 1 && pattern[1] == '*' then
      [GlobStar] + Tokens(if |pattern| > 2 && pattern[2] == '/' then pattern[3..] else pattern[2..])
    else
      [if pattern[0] == '*' then Star else if pattern[0] == '?' then One else Literal(pattern[0])] + Tokens(pattern[1..])
  }

  // ---- The meaning ----

  predicate NoSlash(s: string) { forall i :: 0 <= i < |s| ==> s[i] != '/' }

  predicate Piece(t: Token, piece: string) {
    match t
    case Literal(c) => piece == [c]
    case One => |piece| == 1 && piece[0] != '/'
    case Star => NoSlash(piece)
    case GlobStar => true
  }

  /** The path is cut into one piece per token, each fitting its token. */
  predicate Cut(ts: seq<Token>, pieces: seq<string>, path: string) {
    |pieces| == |ts| && Flatten(pieces) == path && forall i :: 0 <= i < |ts| ==> Piece(ts[i], pieces[i])
  }

  ghost predicate Matches(ts: seq<Token>, path: string) { exists pieces :: Cut(ts, pieces, path) }

  // ---- One more token ----

  ghost predicate LastPiece(ts: seq<Token>, t: Token, path: string, k: nat)
    requires k <= |path|
  {
    Matches(ts, path[..k]) && Piece(t, path[k..])
  }

  lemma {:induction false} MatchesNone(path: string)
    ensures Matches([], path) <==> path == ""
  {
    if path == "" { assert Cut([], [], path); }
  }

  lemma {:induction false} LastPieceMatches(ts: seq<Token>, t: Token, path: string, k: nat)
    requires k <= |path| && LastPiece(ts, t, path, k)
    ensures Matches(ts + [t], path)
  {
    var pieces :| Cut(ts, pieces, path[..k]);
    FlattenSnoc(pieces, path[k..]);
    assert path == path[..k] + path[k..];
    assert Cut(ts + [t], pieces + [path[k..]], path);
  }

  lemma {:induction false} MatchesLastPiece(ts: seq<Token>, t: Token, path: string) returns (k: nat)
    requires Matches(ts + [t], path)
    ensures k <= |path| && LastPiece(ts, t, path, k)
  {
    var pieces :| Cut(ts + [t], pieces, path);
    var n := |ts|;
    var front, last := pieces[..n], pieces[n];
    assert pieces == front + [last];
    FlattenSnoc(front, last);
    k := |path| - |last|;
    assert path[..k] == Flatten(front) && path[k..] == last;
    assert forall i :: 0 <= i < n ==> (ts + [t])[i] == ts[i];
    assert (ts + [t])[n] == t;
    assert Cut(ts, front, path[..k]);
  }

  /** A token that takes exactly one character. */
  lemma {:induction false} SingleStep(ts: seq<Token>, t: Token, path: string)
    requires t.Literal? || t.One?
    ensures Matches(ts + [t], path)
            <==> |path| > 0 && Matches(ts, path[..|path| - 1]) && Piece(t, [path[|path| - 1]])
  {
    if Matches(ts + [t], path) {
      var k := MatchesLastPiece(ts, t, path);
      assert |path[k..]| == 1;
      assert path[k..] == [path[|path| - 1]];
    }
    if |path| > 0 && Matches(ts, path[..|path| - 1]) && Piece(t, [path[|path| - 1]]) {
      assert path[|path| - 1..] == [path[|path| - 1]];
      LastPieceMatches(ts, t, path, |path| - 1);
    }
  }

  /** A run without its last character is a run, and a run grows by any character it may hold. */
  lemma {:induction false} RunPiece(t: Token, path: string, k: nat)
    requires (t.Star? || t.GlobStar?) && k < |path|
    ensures Piece(t, path[k..]) <==> (t.Star? ==> path[|path| - 1] != '/') && Piece(t, path[..|path| - 1][k..])
    ensures path[..|path| - 1][..k] == path[..k]
  {
    var n := |path|;
    assert path[k..] == path[..n - 1][k..] + [path[n - 1]];
    assert path[k..][n - 1 - k] == path[n - 1];
    assert forall i :: 0 <= i < n - 1 - k ==> path[..n - 1][k..][i] == path[k..][i];
  }

  /** A token that takes a run: nothing, or one more character of a run. */
  lemma {:induction false} RunStep(ts: seq<Token>, t: Token, path: string)
    requires t.Star? || t.GlobStar?
    ensures Matches(ts + [t], path)
            <==> (|| Matches(ts, path)
                  || (|path| > 0 && (t.Star? ==> path[|path| - 1] != '/') && Matches(ts + [t], path[..|path| - 1])))
  {
    hide Matches, Piece;
    var n := |path|;
    assert path[..n] == path && path[n..] == "";
    if Matches(ts, path) {
      EmptyRun(t);
      LastPieceMatches(ts, t, path, n);
    }
    if n > 0 && (t.Star? ==> path[n - 1] != '/') && Matches(ts + [t], path[..n - 1]) {
      var k := MatchesLastPiece(ts, t, path[..n - 1]);
      RunPiece(t, path, k);
      LastPieceMatches(ts, t, path, k);
    }
    if Matches(ts + [t], path) && !Matches(ts, path) {
      var k := MatchesLastPiece(ts, t, path);
      assert k < n;
      RunPiece(t, path, k);
      LastPieceMatches(ts, t, path[..n - 1], k);
    }
  }

  lemma {:induction false} EmptyRun(t: Token)
    requires t.Star? || t.GlobStar?
    ensures Piece(t, "")
  {
  }

  // ---- The matcher ----

  /** The token at an index and the index after it. */
  predicate TokenAt(chars: string, index: nat, t: Token, next: nat)
    requires index < |chars|
  {
    if chars[index] == '*' && index + 1 < |chars| && chars[index + 1] == '*'
    then t == GlobStar && next == if index + 2 < |chars| && chars[index + 2] == '/' then index + 3 else index + 2
    else next == index + 1
         && t == if chars[index] == '*' then Star else if chars[index] == '?' then One else Literal(chars[index])
  }

  lemma {:induction false} TokensFrom(chars: string, index: nat, t: Token, next: nat, before: seq<Token>)
    requires index < |chars| && TokenAt(chars, index, t, next)
    ensures before + Tokens(chars[index..]) == before + [t] + Tokens(chars[next..])
  {
    var rest := chars[index..];
    assert rest[next - index..] == chars[next..];
    assert Tokens(rest) == [t] + Tokens(rest[next - index..]);
  }

  method Tokenize(chars: string) returns (tokens: seq<Token>)
    ensures tokens == Tokens(chars)
  {
    hide Tokens;
    tokens := [];
    var index := 0;
    assert chars[0..] == chars && [] + Tokens(chars) == Tokens(chars);
    while index < |chars|
      invariant index <= |chars| && Tokens(chars) == tokens + Tokens(chars[index..])
    {
      ghost var at, before := index, tokens;
      if chars[index] == '*' && index + 1 < |chars| && chars[index + 1] == '*' {
        tokens := tokens + [GlobStar];
        index := index + 2;
        if index < |chars| && chars[index] == '/' {
          index := index + 1;
        }
      } else if chars[index] == '*' {
        tokens := tokens + [Star];
        index := index + 1;
      } else if chars[index] == '?' {
        tokens := tokens + [One];
        index := index + 1;
      } else {
        tokens := tokens + [Literal(chars[index])];
        index := index + 1;
      }
      TokensFrom(chars, at, tokens[|tokens| - 1], index, before);
    }
    TokensEmpty(chars[index..]);
  }

  lemma {:induction false} TokensEmpty(s: string)
    requires s == ""
    ensures Tokens(s) == []
  {
  }

  /** Position `p` of a row: the tokens so far match the first `p` characters. */
  ghost predicate Row(row: array<bool>, ts: seq<Token>, path: string)
    reads row
  {
    row.Length == |path| + 1 && forall p :: 0 <= p <= |path| ==> row[p] == Matches(ts, path[..p])
  }

  method SingleRow(previous: array<bool>, ghost ts: seq<Token>, token: Token, path: string) returns (current: array<bool>)
    requires Row(previous, ts, path) && (token.Literal? || token.One?)
    ensures Row(current, ts + [token], path) && fresh(current)
  {
    hide Matches;
    current := new bool[|path| + 1](_ => false);
    SingleStep(ts, token, path[..0]);
    for position := 1 to |path| + 1
      invariant forall p :: 0 <= p < position ==> current[p] == Matches(ts + [token], path[..p])
    {
      current[position] := previous[position - 1]
        && (if token.Literal? then path[position - 1] == token.c else path[position - 1] != '/');
      SingleStep(ts, token, path[..position]);
      assert path[..position][..position - 1] == path[..position - 1];
    }
  }

  method RunRow(previous: array<bool>, ghost ts: seq<Token>, token: Token, path: string) returns (current: array<bool>)
    requires Row(previous, ts, path) && (token.Star? || token.GlobStar?)
    ensures Row(current, ts + [token], path) && fresh(current)
  {
    hide Matches;
    current := new bool[|path| + 1](_ => false);
    current[0] := previous[0];
    RunStep(ts, token, path[..0]);
    for position := 1 to |path| + 1
      invariant forall p :: 0 <= p < position ==> current[p] == Matches(ts + [token], path[..p])
    {
      current[position] := previous[position] || ((token.Star? ==> path[position - 1] != '/') && current[position - 1]);
      RunStep(ts, token, path[..position]);
      assert path[..position][..position - 1] == path[..position - 1];
    }
  }

  /** The matcher decides the meaning, for every pattern and every path. */
  method GlobMatch(pattern: string, path: string) returns (matched: bool)
    ensures matched == Means(pattern, path)
  {
    hide Matches, Tokens;
    var tokens := Tokenize(pattern);
    var previous := new bool[|path| + 1](_ => false);
    previous[0] := true;
    forall p | 0 <= p <= |path| ensures previous[p] == Matches([], path[..p]) { MatchesNone(path[..p]); }
    assert tokens[..0] == [];
    for i := 0 to |tokens|
      invariant Row(previous, tokens[..i], path)
    {
      var token := tokens[i];
      if token.Literal? || token.One? {
        previous := SingleRow(previous, tokens[..i], token, path);
      } else {
        previous := RunRow(previous, tokens[..i], token, path);
      }
      assert tokens[..i] + [token] == tokens[..i + 1];
    }
    assert tokens[..|tokens|] == tokens && path[..|path|] == path;
    return previous[|path|];
  }

  // ---- What patterns mean ----

  ghost predicate FirstPiece(t: Token, ts: seq<Token>, path: string, k: nat)
    requires k <= |path|
  {
    Piece(t, path[..k]) && Matches(ts, path[k..])
  }

  lemma {:induction false} MatchesFirst(t: Token, ts: seq<Token>, path: string)
    ensures Matches([t] + ts, path) <==> exists k: nat :: k <= |path| && FirstPiece(t, ts, path, k)
  {
    if Matches([t] + ts, path) {
      var pieces :| Cut([t] + ts, pieces, path);
      var k := |pieces[0]|;
      assert path[..k] == pieces[0] && path[k..] == Flatten(pieces[1..]);
      assert forall i :: 0 <= i < |ts| ==> ([t] + ts)[i + 1] == ts[i] && pieces[1..][i] == pieces[i + 1];
      assert ([t] + ts)[0] == t;
      assert Cut(ts, pieces[1..], path[k..]);
      assert FirstPiece(t, ts, path, k);
    }
    if k: nat :| k <= |path| && FirstPiece(t, ts, path, k) {
      var pieces :| Cut(ts, pieces, path[k..]);
      assert ([path[..k]] + pieces)[1..] == pieces;
      assert path == path[..k] + path[k..];
      assert Cut([t] + ts, [path[..k]] + pieces, path);
    }
  }

  ghost predicate Means(pattern: string, path: string) { Matches(Tokens(pattern), path) }

  /** The empty pattern, an ordinary character, and a question mark. */
  lemma {:induction false} CharacterMeans(c: char, rest: string, path: string)
    requires c != '*'
    ensures Means("", path) <==> path == ""
    ensures Means([c] + rest, path)
            <==> path != "" && (if c == '?' then path[0] != '/' else path[0] == c) && Means(rest, path[1..])
  {
    hide Matches;
    MatchesNone(path);
    var p := [c] + rest;
    assert p[1..] == rest;
    var t := if c == '?' then One else Literal(c);
    MatchesFirst(t, Tokens(rest), path);
    forall k: nat | k <= |path| && FirstPiece(t, Tokens(rest), path, k) ensures k == 1 { assert |path[..k]| == 1; }
    if path != "" {
      assert path[..1] == [path[0]];
      assert FirstPiece(t, Tokens(rest), path, 1) <==> Piece(t, [path[0]]) && Means(rest, path[1..]);
    }
    assert Tokens(p) == [t] + Tokens(rest);
  }

  /** A single star is any run without a slash. */
  lemma {:induction false} StarMeans(rest: string, path: string)
    requires rest == "" || rest[0] != '*'
    ensures Means("*" + rest, path)
            <==> exists k: nat :: k <= |path| && NoSlash(path[..k]) && Means(rest, path[k..])
  {
    hide Matches;
    assert ("*" + rest)[1..] == rest;
    MatchesFirst(Star, Tokens(rest), path);
    if Means("*" + rest, path) {
      var k: nat :| k <= |path| && FirstPiece(Star, Tokens(rest), path, k);
      assert NoSlash(path[..k]) && Means(rest, path[k..]);
    }
    if k: nat :| k <= |path| && NoSlash(path[..k]) && Means(rest, path[k..]) {
      assert FirstPiece(Star, Tokens(rest), path, k);
    }
  }

  /** A double star, with the slash after it if there is one, is any run. */
  lemma {:induction false} DoubleStarMeans(rest: string, path: string)
    ensures Means("**/" + rest, path) <==> exists k: nat :: k <= |path| && Means(rest, path[k..])
    ensures rest == "" || rest[0] != '/' ==>
              (Means("**" + rest, path) <==> exists k: nat :: k <= |path| && Means(rest, path[k..]))
  {
    hide Matches;
    assert ("**/" + rest)[3..] == rest && ("**" + rest)[2..] == rest;
    MatchesFirst(GlobStar, Tokens(rest), path);
    assert forall k: nat :: k <= |path| ==> (FirstPiece(GlobStar, Tokens(rest), path, k) <==> Means(rest, path[k..]));
  }

  /** A pattern without wildcards matches itself and nothing else. */
  lemma {:induction false} LiteralMeans(pattern: string, path: string)
    requires '*' !in pattern && '?' !in pattern
    ensures Means(pattern, path) <==> path == pattern
    decreases |pattern|
  {
    if pattern == "" {
      CharacterMeans('a', "", path);
    } else {
      CharacterMeans(pattern[0], pattern[1..], path);
      assert pattern == [pattern[0]] + pattern[1..];
      if path != "" {
        LiteralMeans(pattern[1..], path[1..]);
        assert path == [path[0]] + path[1..];
      }
    }
  }
}
