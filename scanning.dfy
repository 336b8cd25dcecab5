/// Building blocks for the hand-written scanners that stand in for the
/// calculator's regular expressions: the leftmost index satisfying a test
/// (`Regex.Match` reports the leftmost match), the end of a maximal run of a
/// character class (greedy `+` and `*`), and the word boundary `\b`.
module Scanning {
  import opened Wrappers
  import opened Text

  /** The least index in [from, upto) satisfying `p`, if any. */
  function FirstIndex(from: nat, upto: nat, p: nat -> bool): (r: Option<nat>)
    requires from <= upto
    ensures r.Some? ==> from <= r.value < upto && p(r.value)
    ensures r.Some? ==> (forall j :: from <= j < r.value ==> !p(j))
    ensures r.None? ==> (forall j :: from <= j < upto ==> !p(j))
    decreases upto - from
  {
    if from == upto then None
    else if p(from) then Some(from)
    else FirstIndex(from + 1, upto, p)
  }

  /** The end of the maximal run of characters satisfying `p` that starts at `j`. */
  function RunEnd(s: string, j: nat, p: char -> bool): (k: nat)
    requires j <= |s|
    ensures j <= k <= |s|
    ensures forall m :: j <= m < k ==> p(s[m])
    ensures k < |s| ==> !p(s[k])
    decreases |s| - j
  {
    if j < |s| && p(s[j]) then RunEnd(s, j + 1, p) else j
  }

  /** Any index whose preceding characters from `j` all satisfy `p` lies inside the run. */
  lemma RunEndIsMaximal(s: string, j: nat, k: nat, p: char -> bool)
    requires j <= k <= |s|
    requires forall m :: j <= m < k ==> p(s[m])
    ensures k <= RunEnd(s, j, p)
  {
  }

  /** The end of the whitespace run at `j` (`\s*`). */
  function SkipWhiteSpace(s: string, j: nat): (k: nat)
    requires j <= |s|
    ensures j <= k <= |s| && AllWhiteSpace(s[j..k])
    ensures k < |s| ==> !IsWhiteSpace(s[k])
    decreases |s| - j
  {
    if j < |s| && IsWhiteSpace(s[j]) then
      var k := SkipWhiteSpace(s, j + 1);
      assert s[j..k] == [s[j]] + s[j + 1..k];
      k
    else j
  }

  /** Any index up to which everything from `j` is whitespace lies within the skipped run. */
  lemma {:induction false} SkipWhiteSpaceIsMaximal(s: string, j: nat, k: nat)
    requires j <= k <= |s| && AllWhiteSpace(s[j..k])
    ensures k <= SkipWhiteSpace(s, j)
    decreases |s| - j
  {
    if j < k {
      assert s[j..k][0] == s[j];
      assert s[j + 1..k] == s[j..k][1..];
      SkipWhiteSpaceIsMaximal(s, j + 1, k);
    }
  }

  /** A run that stops where `p` first fails is the maximal run. */
  lemma RunEndExact(s: string, j: nat, k: nat, p: char -> bool)
    requires j <= k <= |s|
    requires forall m :: j <= m < k ==> p(s[m])
    requires k < |s| ==> !p(s[k])
    ensures RunEnd(s, j, p) == k
  {
    RunEndIsMaximal(s, j, k, p);
  }

  /** Blanks that stop at a non-blank are the whole skipped run. */
  lemma SkipWhiteSpaceExact(s: string, j: nat, k: nat)
    requires j <= k <= |s| && AllWhiteSpace(s[j..k])
    requires k < |s| ==> !IsWhiteSpace(s[k])
    ensures SkipWhiteSpace(s, j) == k
  {
    SkipWhiteSpaceIsMaximal(s, j, k);
  }

  /** A character between optional whitespace (Sprache's `Parse.Char(c).Token()`):
      the end of the trailing whitespace when `c` follows the leading whitespace. */
  function TokenChar(s: string, j: nat, c: char): (r: Option<nat>)
    requires j <= |s|
    ensures r.Some? <==> SkipWhiteSpace(s, j) < |s| && s[SkipWhiteSpace(s, j)] == c
    ensures r.Some? ==> j < r.value <= |s| && r.value == SkipWhiteSpace(s, SkipWhiteSpace(s, j) + 1)
  {
    var a := SkipWhiteSpace(s, j);
    if a < |s| && s[a] == c then Some(SkipWhiteSpace(s, a + 1)) else None
  }

  /** Regex `\b` at index `i`: exactly one of the neighbouring characters is a word character. */
  predicate WordBoundary(s: string, i: nat) {
    (0 < i <= |s| && IsWordChar(s[i - 1])) != (i < |s| && IsWordChar(s[i]))
  }

  /** The number of double quotes among the first `n` characters. */
  function QuoteCount(s: string, n: nat): nat
    requires n <= |s|
  {
    if n == 0 then 0 else QuoteCount(s, n - 1) + (if s[n - 1] == '"' then 1 else 0)
  }

  /** Index `n` lies between an opening and a closing quote. */
  predicate InQuotes(s: string, n: nat)
    requires n <= |s|
  {
    QuoteCount(s, n) % 2 == 1
  }

  /** `[a-zA-Zа-яА-Я_]`: a character that may start a name in the call pattern. */
  predicate IsNameStart(c: char) { IsAsciiLetter(c) || IsRussianLetter(c) || c == '_' }

  /** `[a-zA-Zа-яА-Я0-9_]`: a character that may continue a name in the call pattern. */
  predicate IsNameChar(c: char) { IsNameStart(c) || IsDigit(c) }

  predicate IsCloser(c: char) { c == ')' || c == ']' }

  /** One match of the call pattern `\b name \s* [\[\(] args [\]\)]`: the name
      occupies [start, nameEnd), the opening bracket stands at `open`, the
      arguments occupy (open, close) and the first closer stands at `close`. */
  datatype CallMatch = CallMatch(start: nat, nameEnd: nat, open: nat, close: nat)

  /** The end of the run of name characters starting at `j`. */
  function NameEnd(s: string, j: nat): (k: nat)
    requires j <= |s|
    ensures j <= k <= |s|
    decreases |s| - j
  {
    if j < |s| && IsNameChar(s[j]) then NameEnd(s, j + 1) else j
  }

  lemma {:induction false} NameEndFacts(s: string, j: nat)
    requires j <= |s|
    ensures forall k :: j <= k < NameEnd(s, j) ==> IsNameChar(s[k])
    ensures NameEnd(s, j) < |s| ==> !IsNameChar(s[NameEnd(s, j)])
    decreases |s| - j
  {
    if j < |s| && IsNameChar(s[j]) {
      NameEndFacts(s, j + 1);
    }
  }

  /** The first `)` or `]` at or after `j`, if any. */
  function FirstCloser(s: string, j: nat): (r: Option<nat>)
    requires j <= |s|
    ensures r.Some? ==> j <= r.value < |s|
    decreases |s| - j
  {
    if j == |s| then None
    else if IsCloser(s[j]) then Some(j)
    else FirstCloser(s, j + 1)
  }

  lemma {:induction false} FirstCloserFacts(s: string, j: nat)
    requires j <= |s|
    ensures FirstCloser(s, j).Some? ==> IsCloser(s[FirstCloser(s, j).value])
    ensures FirstCloser(s, j).Some? ==> forall k :: j <= k < FirstCloser(s, j).value ==> !IsCloser(s[k])
    ensures FirstCloser(s, j).None? ==> forall k :: j <= k < |s| ==> !IsCloser(s[k])
    decreases |s| - j
  {
    if j < |s| && !IsCloser(s[j]) {
      FirstCloserFacts(s, j + 1);
    }
  }

  /** The call pattern matched at `p`, if it matches there. The name run is
      maximal and the arguments stop at the first `)` or `]`, whichever kind. */
  function CallMatchAt(s: string, p: nat): (r: Option<CallMatch>)
    ensures r.Some? ==> r.value.start == p < r.value.nameEnd <= r.value.open < r.value.close < |s|
  {
    if p < |s| && IsNameStart(s[p]) && (p == 0 || !IsWordChar(s[p - 1])) then
      var e := NameEnd(s, p);
      var b := SkipWhiteSpace(s, e);
      if b < |s| && (s[b] == '(' || s[b] == '[') then
        match FirstCloser(s, b + 1)
        case Some(c) => Some(CallMatch(p, e, b, c))
        case None => None
      else None
    else None
  }

  /** What a call match consists of. */
  lemma CallMatchShape(s: string, p: nat)
    requires CallMatchAt(s, p).Some?
    ensures var m := CallMatchAt(s, p).value;
      m.start == p < m.nameEnd <= m.open < m.close < |s|
      && (p == 0 || !IsWordChar(s[p - 1])) && IsNameStart(s[p])
      && (forall k :: p <= k < m.nameEnd ==> IsNameChar(s[k]))
      && (m.nameEnd < |s| ==> !IsNameChar(s[m.nameEnd]))
      && AllWhiteSpace(s[m.nameEnd..m.open])
      && (s[m.open] == '(' || s[m.open] == '[')
      && IsCloser(s[m.close]) && (forall k :: m.open < k < m.close ==> !IsCloser(s[k]))
  {
    var e := NameEnd(s, p);
    NameEndFacts(s, p);
    FirstCloserFacts(s, SkipWhiteSpace(s, e) + 1);
  }

  /** Call matches that lie inside `s`. */
  predicate WithinText(s: string, ms: seq<CallMatch>) {
    forall m | m in ms :: m.start < m.nameEnd <= m.open < m.close < |s|
  }

  /** `Regex.Matches` of the call pattern from `p` on: each match is tried at
      every position, and the search resumes after the closer of a match. */
  function CallMatches(s: string, p: nat): (ms: seq<CallMatch>)
    requires p <= |s|
    ensures forall m | m in ms :: p <= m.start < m.nameEnd <= m.open < m.close < |s|
    decreases |s| - p
  {
    if p == |s| then []
    else match CallMatchAt(s, p)
      case None => CallMatches(s, p + 1)
      case Some(m) => [m] + CallMatches(s, m.close + 1)
  }

  lemma NoCallMatchAt(s: string, p: nat)
    requires p < |s| && CallMatchAt(s, p).None?
    ensures CallMatches(s, p) == CallMatches(s, p + 1)
  {
  }

  lemma CallMatchFirst(s: string, p: nat, m: CallMatch)
    requires p < |s| && CallMatchAt(s, p) == Some(m)
    ensures CallMatches(s, p) == [m] + CallMatches(s, m.close + 1)
  {
  }

  /** Each match is a match of the pattern where it starts. */
  lemma {:induction false} CallMatchesAreMatches(s: string, p: nat, i: nat)
    requires p <= |s| && i < |CallMatches(s, p)|
    ensures CallMatchAt(s, CallMatches(s, p)[i].start) == Some(CallMatches(s, p)[i])
    decreases |s| - p
  {
    match CallMatchAt(s, p)
    case None =>
      NoCallMatchAt(s, p);
      CallMatchesAreMatches(s, p + 1, i);
    case Some(first) =>
      CallMatchFirst(s, p, first);
      var rest := CallMatches(s, first.close + 1);
      if i == 0 {
        assert CallMatches(s, p)[i] == first && first.start == p;
      } else {
        assert CallMatches(s, p)[i] == rest[i - 1];
        CallMatchesAreMatches(s, first.close + 1, i - 1);
      }
  }

  /** Matches in order, each one ending before the next one starts. */
  predicate Ordered(ms: seq<CallMatch>) {
    forall i :: 0 < i < |ms| ==> ms[i - 1].close < ms[i].start
  }

  /** Where the search goes on after trying position `p`. */
  function ResumeSearch(s: string, p: nat): (r: nat)
    requires p < |s|
    ensures p < r <= |s|
  {
    if CallMatchAt(s, p).Some? then CallMatchAt(s, p).value.close + 1 else p + 1
  }

  /** The matches come in order and do not overlap. */
  lemma {:induction false} CallMatchesOrdered(s: string, p: nat)
    requires p <= |s|
    ensures Ordered(CallMatches(s, p))
    decreases |s| - p
  {
    if p < |s| {
      CallMatchesOrdered(s, ResumeSearch(s, p));
      OrderedStep(s, p);
    }
  }

  lemma OrderedStep(s: string, p: nat)
    requires p < |s| && Ordered(CallMatches(s, ResumeSearch(s, p)))
    ensures Ordered(CallMatches(s, p))
  {
    if CallMatchAt(s, p).Some? {
      var m := CallMatchAt(s, p).value;
      CallMatchFirst(s, p, m);
      var rest := CallMatches(s, m.close + 1);
      if |rest| > 0 {
        assert rest[0] in rest;
      }
      assert CallMatches(s, p) == [m] + rest;
      forall i | 0 < i < |CallMatches(s, p)|
        ensures CallMatches(s, p)[i - 1].close < CallMatches(s, p)[i].start
      {
        if i > 1 {
          assert CallMatches(s, p)[i - 1] == rest[i - 2] && CallMatches(s, p)[i] == rest[i - 1];
        }
      }
    } else {
      NoCallMatchAt(s, p);
    }
  }

  /** The first of `names` spelt at `p`, ignoring case; gives its length. */
  function NameAt(s: string, p: nat, names: seq<string>): (r: Option<nat>)
    ensures r.Some? ==> p + r.value <= |s| && Lower(s[p..p + r.value]) in names
    decreases |names|
  {
    if |names| == 0 then None
    else if p + |names[0]| <= |s| && Lower(s[p..p + |names[0]|]) == names[0] then Some(|names[0]|)
    else NameAt(s, p, names[1..])
  }

  /** The first double quote at or after `j`. */
  function NextQuote(s: string, j: nat): (r: Option<nat>)
    requires j <= |s|
    ensures r.Some? ==> j <= r.value < |s| && s[r.value] == '"'
    ensures r.Some? ==> forall k :: j <= k < r.value ==> s[k] != '"'
    ensures r.None? ==> forall k :: j <= k < |s| ==> s[k] != '"'
    decreases |s| - j
  {
    if j == |s| then None
    else if s[j] == '"' then Some(j)
    else NextQuote(s, j + 1)
  }
}
