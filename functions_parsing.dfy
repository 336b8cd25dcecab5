/// The hand-written text loops of the functions validator: splitting an
/// argument list at its top-level commas (`ParseArguments`), taking the text of
/// a parenthesised call (`ExtractArgumentsFromPosition`) and finding where a
/// call's bracket closes (the inner loop of `ParseFunctions`).
module FunctionsParsing {
  import opened Wrappers
  import opened Text

  /** The bracket level after character `c`: `(` and `[` open, `)` and `]` close. */
  function LevelAfter(c: char, level: int): int {
    if c == '(' || c == '[' then level + 1
    else if c == ')' || c == ']' then level - 1
    else level
  }

  /** The pieces of `s[i..]` cut at the commas found at level 0, the first piece
      continuing `current`; pieces are untrimmed and the last is always present. */
  function PiecesFrom(s: string, i: nat, level: int, current: string): (r: seq<string>)
    requires i <= |s|
    ensures |r| >= 1
    decreases |s| - i
  {
    if i == |s| then [current]
    else
      var next := LevelAfter(s[i], level);
      if s[i] == ',' && next == 0 then [current] + PiecesFrom(s, i + 1, next, "")
      else PiecesFrom(s, i + 1, next, current + [s[i]])
  }

  /** `s` cut at its top-level commas. */
  function Pieces(s: string): (r: seq<string>)
    ensures |r| >= 1
  {
    PiecesFrom(s, 0, 0, "")
  }

  function TrimAll(ps: seq<string>): (r: seq<string>)
    ensures |r| == |ps|
  {
    if |ps| == 0 then [] else [Trim(ps[0])] + TrimAll(ps[1..])
  }

  /** The list `ParseArguments` returns for the pieces `ps`: every piece trimmed,
      except that a last piece with no characters at all is dropped. */
  function Finish(ps: seq<string>): seq<string>
    requires |ps| >= 1
  {
    if ps[|ps| - 1] == "" then TrimAll(ps[..|ps| - 1]) else TrimAll(ps)
  }

  /** `ParseArguments`: the trimmed top-level pieces of `s`. */
  function Arguments(s: string): seq<string> {
    Finish(Pieces(s))
  }

  lemma FinishCons(current: string, rest: seq<string>)
    requires |rest| >= 1
    ensures Finish([current] + rest) == [Trim(current)] + Finish(rest)
  {
    var ps := [current] + rest;
    assert ps[1..] == rest;
    if rest[|rest| - 1] == "" {
      var front := rest[..|rest| - 1];
      assert ps[..|ps| - 1] == [current] + front;
      assert ([current] + front)[1..] == front;
    }
  }

  lemma PiecesStep(s: string, i: nat, level: int, current: string)
    requires i < |s|
    ensures var next := LevelAfter(s[i], level);
      PiecesFrom(s, i, level, current)
        == if s[i] == ',' && next == 0 then [current] + PiecesFrom(s, i + 1, next, "")
           else PiecesFrom(s, i + 1, next, current + [s[i]])
  {
  }

  /** `ParseArguments` as the source runs it: one pass with a level counter and
      a growing current piece. */
  method ParseArguments(arguments: string) returns (result: seq<string>)
    ensures result == Arguments(arguments)
  {
    var level := 0;
    result := [];
    var current := "";
    var i := 0;
    ghost var target := Arguments(arguments);
    while i < |arguments|
      invariant 0 <= i <= |arguments|
      invariant result + Finish(PiecesFrom(arguments, i, level, current)) == target
    {
      var c := arguments[i];
      ParseStep(arguments, i, level, current, result, target);
      ghost var before := level;
      if c == '(' || c == '[' {
        level := level + 1;
      } else if c == ')' || c == ']' {
        level := level - 1;
      }
      assert level == LevelAfter(c, before);
      if c == ',' && level == 0 {
        result := result + [Trim(current)];
        current := "";
      } else {
        current := current + [c];
      }
      i := i + 1;
    }
    ParseEnd(arguments, level, current, result, target);
    if |current| > 0 {
      result := result + [Trim(current)];
    }
  }

  /** One character of the loop: a top-level comma closes the current piece,
      any other character extends it. */
  lemma ParseStep(s: string, i: nat, level: int, current: string, result: seq<string>, target: seq<string>)
    requires i < |s| && result + Finish(PiecesFrom(s, i, level, current)) == target
    ensures var next := LevelAfter(s[i], level);
      if s[i] == ',' && next == 0 then (result + [Trim(current)]) + Finish(PiecesFrom(s, i + 1, next, "")) == target
      else result + Finish(PiecesFrom(s, i + 1, next, current + [s[i]])) == target
  {
    PiecesStep(s, i, level, current);
    var next := LevelAfter(s[i], level);
    if s[i] == ',' && next == 0 {
      FinishCons(current, PiecesFrom(s, i + 1, next, ""));
    }
  }

  /** At the end of the text the current piece is kept unless it is empty. */
  lemma ParseEnd(s: string, level: int, current: string, result: seq<string>, target: seq<string>)
    requires result + Finish(PiecesFrom(s, |s|, level, current)) == target
    ensures (if |current| > 0 then result + [Trim(current)] else result) == target
  {
    assert PiecesFrom(s, |s|, level, current) == [current];
    FinishSingle(current);
  }

  lemma FinishSingle(current: string)
    ensures Finish([current]) == if |current| > 0 then [Trim(current)] else []
  {
  }

  /** Joining the pieces back with commas gives the text they were cut from. */
  lemma {:induction false} JoinPiecesFrom(s: string, i: nat, level: int, current: string)
    requires i <= |s|
    ensures Join(",", PiecesFrom(s, i, level, current)) == current + s[i..]
    decreases |s| - i
  {
    if i < |s| {
      var next := LevelAfter(s[i], level);
      if s[i] == ',' && next == 0 {
        var rest := PiecesFrom(s, i + 1, next, "");
        JoinPiecesFrom(s, i + 1, next, "");
        assert ([current] + rest)[1..] == rest;
        assert s[i..] == [s[i]] + s[i + 1..];
      } else {
        JoinPiecesFrom(s, i + 1, next, current + [s[i]]);
        assert s[i..] == [s[i]] + s[i + 1..];
      }
    }
  }

  /** The pieces are a cut of the argument text: joined with commas they give it back. */
  lemma JoinPieces(s: string)
    ensures Join(",", Pieces(s)) == s
  {
    JoinPiecesFrom(s, 0, 0, "");
  }

  /** An empty text has no arguments. */
  lemma EmptyHasNoArguments()
    ensures Arguments("") == []
  {
  }

  /** A trailing comma adds no argument. */
  lemma TrailingCommaDropped()
    ensures Arguments("a,") == ["a"]
  {
    var s := "a,";
    assert "" + [s[0]] == "a";
    assert PiecesFrom(s, 0, 0, "") == PiecesFrom(s, 1, 0, "a");
    assert PiecesFrom(s, 1, 0, "a") == ["a"] + PiecesFrom(s, 2, 0, "");
    assert Trim("a") == "a";
  }

  /** A trailing comma followed by blanks adds an empty argument. */
  lemma TrailingBlankKept()
    ensures Arguments("a, ") == ["a", ""]
  {
    var s := "a, ";
    assert "" + [s[0]] == "a";
    assert PiecesFrom(s, 0, 0, "") == PiecesFrom(s, 1, 0, "a");
    assert PiecesFrom(s, 1, 0, "a") == ["a"] + PiecesFrom(s, 2, 0, "");
    assert "" + [s[2]] == " ";
    assert PiecesFrom(s, 2, 0, "") == PiecesFrom(s, 3, 0, " ");
    assert Trim("a") == "a";
    assert TrimStart(" ") == "";
  }

  /** A comma inside brackets does not cut. */
  lemma NestedCommaKept()
    ensures Arguments("1,[2,3]") == ["1", "[2,3]"]
  {
    var s := "1,[2,3]";
    assert "" + [s[0]] == "1";
    assert PiecesFrom(s, 0, 0, "") == PiecesFrom(s, 1, 0, "1");
    BracketedPiece();
    assert PiecesFrom(s, 1, 0, "1") == ["1"] + ["[2,3]"];
    FinishOfNested();
  }

  lemma BracketedPiece()
    ensures PiecesFrom("1,[2,3]", 2, 0, "") == ["[2,3]"]
  {
    var s := "1,[2,3]";
    assert "" + [s[2]] == "[";
    assert PiecesFrom(s, 2, 0, "") == PiecesFrom(s, 3, 1, "[");
    assert "[" + [s[3]] == "[2";
    assert "[2" + [s[4]] == "[2,";
    assert PiecesFrom(s, 3, 1, "[") == PiecesFrom(s, 5, 1, "[2,");
    assert "[2," + [s[5]] == "[2,3";
    assert "[2,3" + [s[6]] == "[2,3]";
    assert PiecesFrom(s, 5, 1, "[2,") == PiecesFrom(s, 7, 0, "[2,3]");
  }

  lemma FinishOfNested()
    ensures Finish(["1", "[2,3]"]) == ["1", "[2,3]"]
  {
    assert Trim("1") == "1";
    assert Trim("[2,3]") == "[2,3]";
  }

  /** The number of `open` minus the number of `close` characters in `s[i..k]`. */
  function Net(s: string, i: nat, k: nat, open: char, close: char): int
    requires i <= k <= |s|
    decreases k - i
  {
    if k == i then 0
    else Net(s, i, k - 1, open, close) + (if s[k - 1] == open then 1 else if s[k - 1] == close then -1 else 0)
  }

  lemma {:induction false} NetFront(s: string, i: nat, k: nat, open: char, close: char)
    requires i < k <= |s|
    ensures Net(s, i, k, open, close)
            == (if s[i] == open then 1 else if s[i] == close then -1 else 0) + Net(s, i + 1, k, open, close)
    decreases k - i
  {
    if k > i + 1 {
      NetFront(s, i, k - 1, open, close);
    }
  }

  /** The index of the `close` that ends a bracket already `level` deep at `i`,
      counting only `open` and `close`; `None` if it never closes. */
  function MatchingCloser(s: string, i: nat, open: char, close: char, level: nat): (r: Option<nat>)
    requires i <= |s|
    ensures r.Some? ==> i <= r.value < |s| && s[r.value] == close
    decreases |s| - i
  {
    if i == |s| then None
    else if s[i] == open then MatchingCloser(s, i + 1, open, close, level + 1)
    else if s[i] == close then
      if level == 0 then Some(i) else MatchingCloser(s, i + 1, open, close, level - 1)
    else MatchingCloser(s, i + 1, open, close, level)
  }

  /** The closer found is the one that balances: before it the level never drops
      below zero, and at it the count of `open` and `close` is even again. */
  lemma {:induction false} MatchingCloserBalances(s: string, i: nat, open: char, close: char, level: nat)
    requires i <= |s| && open != close
    ensures var r := MatchingCloser(s, i, open, close, level);
      (r.Some? ==> level + Net(s, i, r.value, open, close) == 0
                   && forall k :: i <= k <= r.value ==> level + Net(s, i, k, open, close) >= 0)
      && (r.None? ==> forall k :: i <= k <= |s| ==> level + Net(s, i, k, open, close) >= 0)
    decreases |s| - i
  {
    var r := MatchingCloser(s, i, open, close, level);
    if i < |s| {
      var next: int := if s[i] == open then level + 1 else if s[i] == close then level - 1 else level;
      if s[i] == close && level == 0 {
        assert r == Some(i);
      } else {
        MatchingCloserBalances(s, i + 1, open, close, next as nat);
        assert r == MatchingCloser(s, i + 1, open, close, next as nat);
        forall k | i + 1 <= k <= |s|
          ensures level + Net(s, i, k, open, close) == next + Net(s, i + 1, k, open, close)
        {
          NetFront(s, i, k, open, close);
        }
      }
    }
  }

  /** The inner loop of `ParseFunctions`: from the character after the opening
      bracket at `open`, count the depth of that bracket kind and collect the
      characters while it stays positive. */
  method CallArguments(s: string, open: nat) returns (closed: bool, args: string)
    requires open < |s| && (s[open] == '(' || s[open] == '[')
    ensures var o := s[open];
      var m := MatchingCloser(s, open + 1, o, if o == '(' then ')' else ']', 0);
      closed == m.Some? && (closed ==> args == s[open + 1..m.value])
  {
    var o := s[open];
    var c := if o == '(' then ')' else ']';
    var index := open + 1;
    var depth := 1;
    args := "";
    ghost var target := MatchingCloser(s, open + 1, o, c, 0);
    while index < |s| && depth > 0
      invariant open + 1 <= index <= |s|
      invariant depth >= 0
      invariant depth > 0 ==> MatchingCloser(s, index, o, c, depth - 1) == target
                              && args == s[open + 1..index]
      invariant depth == 0 ==> target == Some(index - 1) && args == s[open + 1..index - 1]
      decreases |s| - index
    {
      var ch := s[index];
      if ch == o {
        depth := depth + 1;
      } else if ch == c {
        depth := depth - 1;
      }
      if depth > 0 {
        args := args + [ch];
      }
      index := index + 1;
    }
    closed := depth == 0;
  }

  /** The first `c` at or after `from` (`string.IndexOf(char, int)`). */
  function IndexOfFrom(s: string, c: char, from: nat): (r: Option<nat>)
    requires from <= |s|
    ensures r.Some? ==> from <= r.value < |s| && s[r.value] == c
    ensures r.Some? ==> forall k :: from <= k < r.value ==> s[k] != c
    ensures r.None? ==> forall k :: from <= k < |s| ==> s[k] != c
    decreases |s| - from
  {
    if from == |s| then None
    else if s[from] == c then Some(from)
    else IndexOfFrom(s, c, from + 1)
  }

  /** `ExtractArgumentsFromPosition`: the text after the first `(` at or after
      `start`, up to its matching `)` or, when it is never closed, to the end. */
  function ExtractArguments(s: string, start: nat): string
    requires start <= |s|
  {
    match IndexOfFrom(s, '(', start)
    case None => ""
    case Some(p) =>
      match MatchingCloser(s, p + 1, '(', ')', 0)
      case Some(e) => s[p + 1..e]
      case None => s[p + 1..]
  }

  /** `ExtractArgumentsFromPosition` as the source runs it: a level counter and
      a builder, returning at the `)` met at level 0. */
  method ExtractArgumentsFromPosition(input: string, startIndex: nat) returns (r: string)
    requires startIndex <= |input|
    ensures r == ExtractArguments(input, startIndex)
  {
    var parenStart := IndexOfFrom(input, '(', startIndex);
    if parenStart.None? {
      return "";
    }
    var p := parenStart.value;
    var level: nat := 0;
    var builder := "";
    var i := p + 1;
    ghost var target := MatchingCloser(input, p + 1, '(', ')', 0);
    while i < |input|
      invariant p + 1 <= i <= |input|
      invariant MatchingCloser(input, i, '(', ')', level) == target
      invariant builder == input[p + 1..i]
    {
      var c := input[i];
      if c == '(' {
        level := level + 1;
      }
      if c == ')' {
        if level == 0 {
          return builder;
        }
        level := level - 1;
      }
      builder := builder + [c];
      i := i + 1;
    }
    return builder;
  }
}
