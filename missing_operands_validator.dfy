/// The missing-operands validator. String literals, square-bracket calls and
/// innermost parenthesised groups are first rewritten as `#STR#n#`,
/// `name#FUNC#n#` and `#FUNC#n#` markers; then every operator `+ * / ^` that
/// the scan pattern picks out must be followed, after blanks, by something
/// that can start an operand. Positions are indices into the rewritten text.
module MissingOperandsValidator {
  import opened Wrappers
  import opened Text
  import opened Scanning
  import opened BaseValidator
  import FunctionsParsing

  // ---------------------------------------------------------------- literals

  /** The body of a literal as `(?:[^"]|"")*` reads it: plain characters and
      doubled quotes. */
  predicate EscapedBody(b: string)
    decreases |b|
  {
    |b| == 0
    || (b[|b| - 1] != '"' && EscapedBody(b[..|b| - 1]))
    || (|b| >= 2 && b[|b| - 2] == '"' && b[|b| - 1] == '"' && EscapedBody(b[..|b| - 2]))
  }

  /** Where the literal whose body resumes at `j` closes. The body walks over
      plain characters and doubled quotes; a lone quote closes it. If the text
      ends first, the regex backtracks to the last doubled quote seen (`best`)
      and closes at its first half. */
  function LiteralClose(s: string, j: nat, best: Option<nat>): (r: Option<nat>)
    requires j <= |s|
    ensures r.Some? ==> r == best || (j <= r.value < |s| && s[r.value] == '"')
    decreases |s| - j
  {
    if j == |s| then best
    else if s[j] != '"' then LiteralClose(s, j + 1, best)
    else if j + 1 < |s| && s[j + 1] == '"' then LiteralClose(s, j + 2, Some(j))
    else Some(j)
  }

  /** The closing quote found ends a well-formed body. */
  lemma {:induction false} LiteralCloseBody(s: string, start: nat, j: nat, best: Option<nat>)
    requires start <= j <= |s| && EscapedBody(s[start..j])
    requires best.Some? ==> start <= best.value < |s| && s[best.value] == '"' && EscapedBody(s[start..best.value])
    ensures var r := LiteralClose(s, j, best);
      r.Some? ==> start <= r.value < |s| && s[r.value] == '"' && EscapedBody(s[start..r.value])
    decreases |s| - j
  {
    if j < |s| {
      if s[j] != '"' {
        BodyTakesPlain(s, start, j);
        LiteralCloseBody(s, start, j + 1, best);
      } else if j + 1 < |s| && s[j + 1] == '"' {
        BodyTakesDoubledQuote(s, start, j);
        LiteralCloseBody(s, start, j + 2, Some(j));
      }
    }
  }

  lemma BodyTakesPlain(s: string, start: nat, j: nat)
    requires start <= j < |s| && s[j] != '"' && EscapedBody(s[start..j])
    ensures EscapedBody(s[start..j + 1])
  {
    var b := s[start..j + 1];
    assert b[|b| - 1] == s[j];
    assert b[..|b| - 1] == s[start..j];
  }

  lemma BodyTakesDoubledQuote(s: string, start: nat, j: nat)
    requires start <= j && j + 1 < |s| && s[j] == '"' && s[j + 1] == '"' && EscapedBody(s[start..j])
    ensures EscapedBody(s[start..j + 2])
  {
    var b := s[start..j + 2];
    assert b[|b| - 2] == s[j] && b[|b| - 1] == s[j + 1];
    assert b[..|b| - 2] == s[start..j];
  }

  // ------------------------------------------------------------- the passes

  /** The three rewriting passes: string literals, square-bracket calls and
      innermost parenthesised groups. */
  datatype Pass = Literals | SquareCalls | Parens

  /** The match of `pass` starting at `i`, given by its end (exclusive). */
  function MatchAt(s: string, i: nat, pass: Pass): (r: Option<nat>)
    requires i < |s|
    ensures r.Some? ==> i < r.value <= |s|
  {
    match pass
    case Literals =>
      if s[i] == '"' then
        match LiteralClose(s, i + 1, None)
        case Some(k) => Some(k + 1)
        case None => None
      else None
    case SquareCalls =>
      if IsWordChar(s[i]) then
        var e := RunEnd(s, i, IsWordChar);
        if e + 1 < |s| && s[e] == '[' && s[e + 1] != ']' then
          match FunctionsParsing.MatchingCloser(s, e + 1, '[', ']', 0)
          case Some(c) => Some(c + 1)
          case None => None
        else None
      else None
    case Parens =>
      if s[i] == '(' then
        var f := FirstParen(s, i + 1);
        if f.Some? && s[f.value] == ')' then Some(f.value + 1) else None
      else None
  }

  /** The first `(` or `)` at or after `j`. */
  function FirstParen(s: string, j: nat): (r: Option<nat>)
    requires j <= |s|
    ensures r.Some? ==> j <= r.value < |s| && (s[r.value] == '(' || s[r.value] == ')')
    ensures r.Some? ==> forall k :: j <= k < r.value ==> s[k] != '(' && s[k] != ')'
    ensures r.None? ==> forall k :: j <= k < |s| ==> s[k] != '(' && s[k] != ')'
    decreases |s| - j
  {
    if j == |s| then None
    else if s[j] == '(' || s[j] == ')' then Some(j)
    else FirstParen(s, j + 1)
  }

  /** The marker that replaces the match at `i`, numbered `n`. */
  function Key(s: string, i: nat, pass: Pass, n: nat): string
    requires i < |s|
  {
    match pass
    case Literals => "#STR#" + NatToString(n) + "#"
    case SquareCalls => s[i..RunEnd(s, i, IsWordChar)] + "#FUNC#" + NatToString(n) + "#"
    case Parens => "#FUNC#" + NatToString(n) + "#"
  }

  /** A rewritten text and the counter after it. */
  datatype Rewritten = Rewritten(text: string, counter: nat)

  /** `Regex.Replace` from `i` on, the counter standing at `n`: each match,
      leftmost first, becomes its marker and the search resumes after it. */
  function RewriteFrom(s: string, i: nat, pass: Pass, n: nat): (r: Rewritten)
    requires i <= |s|
    ensures r.counter >= n
    decreases |s| - i
  {
    if i == |s| then Rewritten("", n)
    else match MatchAt(s, i, pass)
      case Some(e) =>
        var rest := RewriteFrom(s, e, pass, n + 1);
        Rewritten(Key(s, i, pass, n) + rest.text, rest.counter)
      case None =>
        var rest := RewriteFrom(s, i + 1, pass, n);
        Rewritten([s[i]] + rest.text, rest.counter)
  }

  lemma RewriteMatchStep(s: string, i: nat, pass: Pass, n: nat)
    requires i < |s| && MatchAt(s, i, pass).Some?
    ensures var rest := RewriteFrom(s, MatchAt(s, i, pass).value, pass, n + 1);
      RewriteFrom(s, i, pass, n) == Rewritten(Key(s, i, pass, n) + rest.text, rest.counter)
  {
  }

  lemma RewriteCopyStep(s: string, i: nat, pass: Pass, n: nat)
    requires i < |s| && MatchAt(s, i, pass).None?
    ensures var rest := RewriteFrom(s, i + 1, pass, n);
      RewriteFrom(s, i, pass, n) == Rewritten([s[i]] + rest.text, rest.counter)
  {
  }

  /** One replace pass with its counter. */
  method Replace(s: string, pass: Pass, counter: nat) returns (text: string, next: nat)
    ensures Rewritten(text, next) == RewriteFrom(s, 0, pass, counter)
  {
    ghost var target := RewriteFrom(s, 0, pass, counter);
    var i := 0;
    text := "";
    next := counter;
    while i < |s|
      invariant i <= |s|
      invariant text + RewriteFrom(s, i, pass, next).text == target.text
      invariant RewriteFrom(s, i, pass, next).counter == target.counter
      decreases |s| - i
    {
      var m := MatchAt(s, i, pass);
      if m.Some? {
        ReplaceMatchStep(s, i, pass, next, text);
        text := text + Key(s, i, pass, next);
        next := next + 1;
        i := m.value;
      } else {
        ReplaceCopyStep(s, i, pass, next, text);
        text := text + [s[i]];
        i := i + 1;
      }
    }
  }

  /** The loop of `Replace` keeps its invariant across a match. */
  lemma ReplaceMatchStep(s: string, i: nat, pass: Pass, n: nat, text: string)
    requires i < |s| && MatchAt(s, i, pass).Some?
    ensures var rest := RewriteFrom(s, MatchAt(s, i, pass).value, pass, n + 1);
      && (text + Key(s, i, pass, n)) + rest.text == text + RewriteFrom(s, i, pass, n).text
      && rest.counter == RewriteFrom(s, i, pass, n).counter
  {
    RewriteMatchStep(s, i, pass, n);
    var rest := RewriteFrom(s, MatchAt(s, i, pass).value, pass, n + 1);
    assert text + (Key(s, i, pass, n) + rest.text) == (text + Key(s, i, pass, n)) + rest.text;
  }

  /** The loop of `Replace` keeps its invariant across a copied character. */
  lemma ReplaceCopyStep(s: string, i: nat, pass: Pass, n: nat, text: string)
    requires i < |s| && MatchAt(s, i, pass).None?
    ensures var rest := RewriteFrom(s, i + 1, pass, n);
      && (text + [s[i]]) + rest.text == text + RewriteFrom(s, i, pass, n).text
      && rest.counter == RewriteFrom(s, i, pass, n).counter
  {
    RewriteCopyStep(s, i, pass, n);
    var rest := RewriteFrom(s, i + 1, pass, n);
    assert text + ([s[i]] + rest.text) == (text + [s[i]]) + rest.text;
  }

  /** The text the operator scan runs over: literals with their own counter,
      then square-bracket calls and parenthesised groups sharing one. */
  function Rewrite(s: string): string {
    var literals := RewriteFrom(s, 0, Literals, 0).text;
    var calls := RewriteFrom(literals, 0, SquareCalls, 0);
    RewriteFrom(calls.text, 0, Parens, calls.counter).text
  }

  // --------------------------------------------------------- operator scan

  /** The characters the lookbehind `(?<![0-9\]"#A-Z])` refuses. */
  predicate ShieldsOperator(c: char) { IsDigit(c) || c == ']' || c == '"' || c == '#' || 'A' <= c <= 'Z' }

  /** The characters the lookahead `(?![0-9(\["#A-Z])` refuses. */
  predicate StartsOperand(c: char) { IsDigit(c) || c == '(' || c == '[' || c == '"' || c == '#' || 'A' <= c <= 'Z' }

  predicate IsCandidateOperator(c: char) { c == '+' || c == '*' || c == '/' || c == '^' }

  /** The operator pattern matches at `p`: the lookbehind accepts the
      character before `p`, blanks follow, then one of `+ * / ^`, and the
      lookahead accepts the character after it. Gives the index of the
      operator, which ends the match. */
  function OperatorAt(t: string, p: nat): (r: Option<nat>)
    requires p <= |t|
    ensures r.Some? ==> p <= r.value < |t| && IsCandidateOperator(t[r.value])
  {
    if p > 0 && ShieldsOperator(t[p - 1]) then None
    else
      var w := SkipWhiteSpace(t, p);
      if w < |t| && IsCandidateOperator(t[w]) && (w + 1 == |t| || !StartsOperand(t[w + 1])) then Some(w)
      else None
  }

  /** What may follow an operator, after blanks: a letter or digit, `(`, `[`,
      a quote or a marker's `#` (`A` and `F` are letters already). */
  predicate OperandStart(c: char) {
    IsLetter(c) || IsDigit(c) || c == '(' || c == '[' || c == '"' || c == '#' || c == 'A' || c == 'F'
  }

  predicate OperandFollows(t: string, w: nat)
    requires w < |t|
  {
    var q := SkipWhiteSpace(t, w + 1);
    q < |t| && OperandStart(t[q])
  }

  /** The first match from `p` on whose operator has no operand after it: the
      match index and the operator. */
  function FirstMissing(t: string, p: nat): (r: Option<(nat, char)>)
    requires p <= |t|
    ensures r.Some? ==> (p <= r.value.0 < |t| && OperatorAt(t, r.value.0).Some?
      && t[OperatorAt(t, r.value.0).value] == r.value.1 && !OperandFollows(t, OperatorAt(t, r.value.0).value))
    decreases |t| - p
  {
    if p == |t| then None
    else match OperatorAt(t, p)
      case None => FirstMissing(t, p + 1)
      case Some(w) => if OperandFollows(t, w) then FirstMissing(t, w + 1) else Some((p, t[w]))
  }

  function MissingOperandMessage(op: char): string {
    "Отсутствует операнд перед оператором '" + [op] + "'"
  }

  /** The outcome of the operator scan over a rewritten text `t`. */
  function Verdict(t: string): Outcome {
    match FirstMissing(t, 0)
    case None => Pass
    case Some((p, op)) => Fail(ReportError(MissingOperandMessage(op), p))
  }

  /** The validator's outcome on the rewritten text. */
  function Validate(s: string): Outcome {
    Verdict(Rewrite(s))
  }

  /** The three replace passes of `CheckForMissingOperands`, literals with
      their own counter and the two call passes sharing one. */
  method ReplaceAll(input: string) returns (tempInput: string)
    ensures tempInput == Rewrite(input)
  {
    var strCounter := 0;
    var funcCounter := 0;
    tempInput, strCounter := Replace(input, Literals, strCounter);
    tempInput, funcCounter := Replace(tempInput, SquareCalls, funcCounter);
    tempInput, funcCounter := Replace(tempInput, Parens, funcCounter);
  }

  /** `CheckForMissingOperands`: the three passes, then the matches in order,
      each followed by a skip over blanks and a look at the next character. */
  method CheckForMissingOperands(input: string) returns (r: Outcome)
    ensures r == Validate(input)
  {
    var tempInput := ReplaceAll(input);
    r := ScanOperators(tempInput);
  }

  /** The scan loop of `CheckForMissingOperands` over the rewritten text. */
  method ScanOperators(tempInput: string) returns (r: Outcome)
    ensures r == Verdict(tempInput)
  {
    var p := 0;
    while p < |tempInput|
      invariant p <= |tempInput|
      invariant FirstMissing(tempInput, p) == FirstMissing(tempInput, 0)
      decreases |tempInput| - p
    {
      MissingStep(tempInput, p);
      match OperatorAt(tempInput, p)
      case None =>
        p := p + 1;
      case Some(w) =>
        var posAfterOperator := SkipBlanks(tempInput, w + 1);
        var hasValidOperandAfter := false;
        if posAfterOperator < |tempInput| {
          hasValidOperandAfter := OperandStart(tempInput[posAfterOperator]);
        }
        assert hasValidOperandAfter == OperandFollows(tempInput, w);
        if !hasValidOperandAfter {
          return Fail(ReportError(MissingOperandMessage(tempInput[w]), p));
        }
        p := w + 1;
    }
    return Pass;
  }

  /** The inner loop of the scan: the index past the blanks from `j`. */
  method SkipBlanks(t: string, j: nat) returns (k: nat)
    requires j <= |t|
    ensures k == SkipWhiteSpace(t, j)
  {
    k := j;
    while k < |t| && IsWhiteSpace(t[k])
      invariant j <= k <= |t|
      invariant SkipWhiteSpace(t, k) == SkipWhiteSpace(t, j)
      decreases |t| - k
    {
      k := k + 1;
    }
  }

  lemma MissingStep(t: string, p: nat)
    requires p < |t|
    ensures FirstMissing(t, p) == match OperatorAt(t, p)
      case None => FirstMissing(t, p + 1)
      case Some(w) => if OperandFollows(t, w) then FirstMissing(t, w + 1) else Some((p, t[w]))
  {
  }

  // ------------------------------------------------------------- properties

  /** A literal match is a quote, a well-formed body and a closing quote. */
  lemma LiteralMatchShape(s: string, i: nat)
    requires i < |s| && MatchAt(s, i, Literals).Some?
    ensures var e := MatchAt(s, i, Literals).value;
      i + 2 <= e && s[i] == '"' && s[e - 1] == '"' && EscapedBody(s[i + 1..e - 1])
  {
    assert s[i + 1..i + 1] == [];
    LiteralCloseBody(s, i + 1, i + 1, None);
  }

  /** `[` and `]` balance on [a, b) and no prefix closes more than it opens. */
  predicate Balanced(s: string, a: nat, b: nat)
    requires a <= b <= |s|
  {
    FunctionsParsing.Net(s, a, b, '[', ']') == 0
    && forall k :: a <= k <= b ==> FunctionsParsing.Net(s, a, k, '[', ']') >= 0
  }

  /** A square-bracket call match is a name, `[`, a non-empty content whose
      brackets balance without ever closing more than they opened, and `]`. */
  lemma SquareCallShape(s: string, i: nat)
    requires i < |s| && MatchAt(s, i, SquareCalls).Some?
    ensures var e := MatchAt(s, i, SquareCalls).value;
      var n := RunEnd(s, i, IsWordChar);
      i < n && n + 2 < e && s[n] == '[' && s[e - 1] == ']'
      && Balanced(s, n + 1, e - 1)
  {
    var n := RunEnd(s, i, IsWordChar);
    FunctionsParsing.MatchingCloserBalances(s, n + 1, '[', ']', 0);
  }

  /** Text in which no match of `pass` starts is copied unchanged. */
  lemma {:induction false} RewriteWithoutMatches(s: string, i: nat, pass: Pass, n: nat)
    requires i <= |s|
    requires forall k :: i <= k < |s| ==> MatchAt(s, k, pass).None?
    ensures RewriteFrom(s, i, pass, n) == Rewritten(s[i..], n)
    decreases |s| - i
  {
    if i < |s| {
      RewriteWithoutMatches(s, i + 1, pass, n);
      assert s[i..] == [s[i]] + s[i + 1..];
    }
  }

  /** Text without quotes, `[` or `(` is scanned as it is. */
  lemma RewritePlain(s: string)
    requires forall k :: 0 <= k < |s| ==> s[k] != '"' && s[k] != '[' && s[k] != '('
    ensures Rewrite(s) == s
  {
    RewriteWithoutMatches(s, 0, Literals, 0);
    forall k | 0 <= k < |s| ensures MatchAt(s, k, SquareCalls).None? {
      if IsWordChar(s[k]) {
        var e := RunEnd(s, k, IsWordChar);
        assert e < |s| ==> s[e] != '[';
      }
    }
    RewriteWithoutMatches(s, 0, SquareCalls, 0);
    RewriteWithoutMatches(s, 0, Parens, 0);
  }

  /** An operator right after a digit, `]`, a quote, `#` or a capital is never
      examined, nor is one followed directly by such a character or `(`/`[`. */
  lemma ShieldedOperatorsPass(t: string, w: nat)
    requires 0 < w < |t| && IsCandidateOperator(t[w])
    requires ShieldsOperator(t[w - 1]) || (w + 1 < |t| && StartsOperand(t[w + 1]))
    ensures forall p :: 0 <= p <= w ==> OperatorAt(t, p) != Some(w)
  {
  }

  lemma ScanOfSpacedTrailingOperator()
    ensures FirstMissing("2 +", 0) == Some((2, '+'))
  {
    var t := "2 +";
    assert SkipWhiteSpace(t, 0) == 0;
    assert OperatorAt(t, 0).None?;
    assert OperatorAt(t, 1).None?;
    assert SkipWhiteSpace(t, 2) == 2 && SkipWhiteSpace(t, 3) == 3;
    assert OperatorAt(t, 2) == Some(2);
    assert !OperandFollows(t, 2);
    MissingStep(t, 0);
    MissingStep(t, 1);
    MissingStep(t, 2);
  }

  /** `2 +` fails at the operator, position 3. */
  lemma SpacedTrailingOperator()
    ensures Validate("2 +") == Fail(ReportError(MissingOperandMessage('+'), 2))
  {
    RewritePlain("2 +");
    ScanOfSpacedTrailingOperator();
  }

  lemma ScanOfGluedTrailingOperator()
    ensures FirstMissing("2+", 0).None?
  {
    var t := "2+";
    assert SkipWhiteSpace(t, 0) == 0;
    assert OperatorAt(t, 0).None?;
    assert OperatorAt(t, 1).None?;
    MissingStep(t, 0);
    MissingStep(t, 1);
  }

  /** `2+` passes: the digit before the operator hides it from the scan. */
  lemma GluedTrailingOperator()
    ensures Validate("2+").Pass?
  {
    RewritePlain("2+");
    ScanOfGluedTrailingOperator();
  }

  /** Positions where the operator pattern does not match are passed over. */
  lemma {:induction false} NoOperatorBetween(t: string, p: nat, q: nat)
    requires p <= q <= |t|
    requires forall i :: p <= i < q ==> OperatorAt(t, i).None?
    ensures FirstMissing(t, p) == FirstMissing(t, q)
    decreases q - p
  {
    if p < q {
      NoOperatorBetween(t, p + 1, q);
    }
  }

  const CallThenOperator: string := "sum[1] +"

  lemma LiteralsOfCallThenOperator()
    ensures RewriteFrom(CallThenOperator, 0, Literals, 0).text == CallThenOperator
  {
    var s := CallThenOperator;
    RewriteWithoutMatches(s, 0, Literals, 0);
    assert s[0..] == s;
  }

  lemma CallThenOperatorMatch()
    ensures MatchAt(CallThenOperator, 0, SquareCalls) == Some(6)
    ensures Key(CallThenOperator, 0, SquareCalls, 0) == "sum#FUNC#0#"
  {
    var s := CallThenOperator;
    RunEndExact(s, 0, 3, IsWordChar);
    assert FunctionsParsing.MatchingCloser(s, 4, '[', ']', 0) == Some(5);
    assert NatToString(0) == "0";
    assert s[0..3] == "sum";
  }

  lemma CallThenOperatorTail()
    ensures RewriteFrom(CallThenOperator, 6, SquareCalls, 1) == Rewritten(" +", 1)
  {
    var s := CallThenOperator;
    assert MatchAt(s, 6, SquareCalls).None? && MatchAt(s, 7, SquareCalls).None?;
    RewriteWithoutMatches(s, 6, SquareCalls, 1);
    assert s[6..] == " +";
  }

  lemma SquareCallOfCallThenOperator()
    ensures RewriteFrom(CallThenOperator, 0, SquareCalls, 0) == Rewritten("sum#FUNC#0# +", 1)
  {
    CallThenOperatorMatch();
    RewriteMatchStep(CallThenOperator, 0, SquareCalls, 0);
    CallThenOperatorTail();
  }

  lemma ParensOfCallThenOperator()
    ensures RewriteFrom("sum#FUNC#0# +", 0, Parens, 1).text == "sum#FUNC#0# +"
  {
    var t := "sum#FUNC#0# +";
    RewriteWithoutMatches(t, 0, Parens, 1);
    assert t[0..] == t;
  }

  lemma RewriteOfCallThenOperator()
    ensures Rewrite(CallThenOperator) == "sum#FUNC#0# +"
  {
    LiteralsOfCallThenOperator();
    SquareCallOfCallThenOperator();
    ParensOfCallThenOperator();
  }

  /** A position holding neither a blank nor an operator starts no match. */
  lemma NoOperatorAtPlain(t: string, p: nat)
    requires p < |t| && !IsWhiteSpace(t[p]) && !IsCandidateOperator(t[p])
    ensures OperatorAt(t, p).None?
  {
    SkipWhiteSpaceExact(t, p, p);
  }

  lemma ScanOfCallThenOperator()
    ensures FirstMissing("sum#FUNC#0# +", 0) == Some((12, '+'))
  {
    var t := "sum#FUNC#0# +";
    NoOperatorInMarkerAndBlank();
    NoOperatorBetween(t, 0, 12);
    TrailingOperatorMissing(t, 12);
  }

  lemma NoOperatorInMarkerAndBlank()
    ensures forall i :: 0 <= i < 12 ==> OperatorAt("sum#FUNC#0# +", i).None?
  {
    var t := "sum#FUNC#0# +";
    forall i | 0 <= i < 11 ensures OperatorAt(t, i).None? {
      NoOperatorAtPlain(t, i);
    }
    assert ShieldsOperator(t[10]);
  }

  /** An operator that ends the text, after a character that does not shield
      it, is reported. */
  lemma TrailingOperatorMissing(t: string, w: nat)
    requires 0 < w && w + 1 == |t| && IsCandidateOperator(t[w]) && !ShieldsOperator(t[w - 1])
    ensures FirstMissing(t, w) == Some((w, t[w]))
  {
    SkipWhiteSpaceExact(t, w, w);
    SkipWhiteSpaceExact(t, w + 1, w + 1);
    MissingStep(t, w);
  }

  /** The position is an index into the rewritten text: after `sum[1]` the
      operator of the eight-character input is reported at index 12, where
      it stands after the marker `sum#FUNC#0#`. */
  lemma PositionInRewrittenText()
    ensures Validate(CallThenOperator) == Fail(ReportError(MissingOperandMessage('+'), 12))
    ensures |CallThenOperator| == 8
  {
    RewriteOfCallThenOperator();
    ScanOfCallThenOperator();
  }
}
