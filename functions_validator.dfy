/// The functions validator: every name written before a bracket must be one of
/// the twelve known functions, with the bracket kind and the number of
/// arguments that function takes, and the vector functions and `pow` get
/// further checks on their arguments.
module FunctionsValidator {
  import opened Wrappers
  import opened Text
  import opened Errors
  import opened Scanning
  import opened BaseValidator
  import opened NumberText
  import opened FunctionsParsing

  /** The arity table, keyed by lower-case name; -1 marks a function taking any
      positive number of arguments. Lookups ignore case. */
  const ArgumentCounts: map<string, int> :=
    map["cos" := 1, "sin" := 1, "sqrt" := 1, "abs" := 1, "pow" := 2, "min" := 2, "max" := 2,
        "if" := 3, "log" := 2, "mean" := -1, "sum" := -1, "fact" := -1]

  /** The functions called with square brackets. */
  const SquareBracketFunctions: set<string> := {"sum", "mean", "fact"}

  predicate IsKnown(name: string) { Lower(name) in ArgumentCounts }

  predicate UsesSquareBrackets(name: string) { Lower(name) in SquareBracketFunctions }

  function UnknownFunctionMessage(name: string): string { "Неизвестная функция: " + name }

  function RoundBracketsMessage(name: string): string {
    "Функция '" + name + "' должна использовать круглые скобки ()"
  }

  function SquareBracketsMessage(name: string): string {
    "Функция '" + name + "' должна использовать квадратные скобки []"
  }

  /** A match of `\b name \s* [\[\(]`: the name occupies [start, nameEnd) and the
      bracket stands at `open`. */
  datatype CallHead = CallHead(start: nat, nameEnd: nat, open: nat)

  /** The pattern `\b([a-zA-Zа-яА-Я_][a-zA-Zа-яА-Я0-9_]*)\s*[\[\(]` matched at `p`;
      the name run is maximal, as no shorter name can be followed by a space or
      a bracket. */
  function CallHeadAt(s: string, p: nat): (r: Option<CallHead>)
    ensures r.Some? ==> r.value.start == p < r.value.nameEnd <= r.value.open < |s|
                        && (s[r.value.open] == '(' || s[r.value.open] == '[')
  {
    if p < |s| && IsNameStart(s[p]) && (p == 0 || !IsWordChar(s[p - 1])) then
      var e := NameEnd(s, p);
      var b := SkipWhiteSpace(s, e);
      if b < |s| && (s[b] == '(' || s[b] == '[') then Some(CallHead(p, e, b)) else None
    else None
  }

  /** No match starts inside another: after a match at `p` the next one can
      start no earlier than just past its bracket. */
  lemma NoHeadInside(s: string, p: nat)
    requires CallHeadAt(s, p).Some?
    ensures forall q :: p < q <= CallHeadAt(s, p).value.open ==> CallHeadAt(s, q).None?
  {
    var h := CallHeadAt(s, p).value;
    NameEndFacts(s, p);
    forall q | p < q <= h.open
      ensures CallHeadAt(s, q).None?
    {
      if q < h.nameEnd {
        assert IsNameChar(s[q - 1]);
      } else if q < h.open {
        assert s[h.nameEnd..h.open][q - h.nameEnd] == s[q];
      }
    }
  }

  /** The two checks that look only at the name and the bracket of each match. */
  datatype HeadCheck = KnownName | BracketKind

  /** `CheckForInvalidFunctions` and `CheckBracketTypes` for one match. */
  function HeadError(s: string, h: CallHead, check: HeadCheck): (r: Option<CalcError>)
    requires h.start <= h.nameEnd <= h.open < |s|
    ensures check == KnownName ==> (r.None? <==> IsKnown(s[h.start..h.nameEnd]))
    ensures check == BracketKind && (s[h.open] == '(' || s[h.open] == '[') ==>
              (r.None? <==> (s[h.open] == '[' <==> UsesSquareBrackets(s[h.start..h.nameEnd])))
    ensures r.Some? ==> r.value.errorPosition == h.start + 1
  {
    var name := s[h.start..h.nameEnd];
    match check
    case KnownName =>
      if IsKnown(name) then None else Some(ReportError(UnknownFunctionMessage(name), h.start))
    case BracketKind =>
      if s[h.open] == '[' && !UsesSquareBrackets(name) then Some(ReportError(RoundBracketsMessage(name), h.start))
      else if s[h.open] == '(' && UsesSquareBrackets(name) then Some(ReportError(SquareBracketsMessage(name), h.start))
      else None
  }

  /** One of the two checks over the matches from `p` on, in match order. */
  function HeadCheckFrom(s: string, p: nat, check: HeadCheck): Outcome
    requires p <= |s|
    decreases |s| - p
  {
    if p == |s| then Pass
    else
      var h := CallHeadAt(s, p);
      if h.None? then HeadCheckFrom(s, p + 1, check)
      else
        var e := HeadError(s, h.value, check);
        if e.Some? then Fail(e.value) else HeadCheckFrom(s, h.value.open + 1, check)
  }

  /** The match at `q`, if any, passes the check. */
  predicate HeadOk(s: string, q: nat, check: HeadCheck) {
    q < |s| && CallHeadAt(s, q).Some? ==> HeadError(s, CallHeadAt(s, q).value, check).None?
  }

  lemma NoHeadStep(s: string, p: nat, check: HeadCheck)
    requires p < |s| && CallHeadAt(s, p).None?
    ensures HeadCheckFrom(s, p, check) == HeadCheckFrom(s, p + 1, check)
  {
  }

  lemma HeadStep(s: string, p: nat, check: HeadCheck)
    requires p < |s| && CallHeadAt(s, p).Some?
    ensures var h := CallHeadAt(s, p).value;
      var e := HeadError(s, h, check);
      HeadCheckFrom(s, p, check) == if e.Some? then Fail(e.value) else HeadCheckFrom(s, h.open + 1, check)
  {
  }

  lemma PassedHeadCovers(s: string, p: nat, check: HeadCheck)
    requires CallHeadAt(s, p).Some? && HeadError(s, CallHeadAt(s, p).value, check).None?
    ensures forall q :: p <= q <= CallHeadAt(s, p).value.open ==> HeadOk(s, q, check)
  {
    NoHeadInside(s, p);
  }

  /** The check from `p` on passes exactly when every match from `p` on passes it. */
  predicate MeansAllPass(s: string, p: nat, check: HeadCheck)
    requires p <= |s|
  {
    (HeadCheckFrom(s, p, check).Pass? || HeadCheckFrom(s, p, check).Fail?)
    && (HeadCheckFrom(s, p, check).Pass? <==> forall q :: p <= q < |s| ==> HeadOk(s, q, check))
  }

  lemma MeaningPastNoHead(s: string, p: nat, check: HeadCheck)
    requires p < |s| && CallHeadAt(s, p).None? && MeansAllPass(s, p + 1, check)
    ensures MeansAllPass(s, p, check)
  {
    NoHeadStep(s, p, check);
    assert HeadOk(s, p, check);
  }

  lemma MeaningPastPassedHead(s: string, p: nat, check: HeadCheck)
    requires p < |s| && CallHeadAt(s, p).Some? && HeadError(s, CallHeadAt(s, p).value, check).None?
    requires CallHeadAt(s, p).value.open + 1 <= |s| && MeansAllPass(s, CallHeadAt(s, p).value.open + 1, check)
    ensures MeansAllPass(s, p, check)
  {
    HeadStep(s, p, check);
    PassedHeadCovers(s, p, check);
  }

  lemma MeaningAtFailedHead(s: string, p: nat, check: HeadCheck)
    requires p < |s| && CallHeadAt(s, p).Some? && HeadError(s, CallHeadAt(s, p).value, check).Some?
    ensures MeansAllPass(s, p, check)
  {
    HeadStep(s, p, check);
    assert !HeadOk(s, p, check);
  }

  /** Where the check resumes after position `p`: past a match's opening
      bracket, or at the next position. */
  function HeadResume(s: string, p: nat): (r: nat)
    requires p < |s|
    ensures p < r <= |s|
  {
    if CallHeadAt(s, p).Some? then CallHeadAt(s, p).value.open + 1 else p + 1
  }

  /** A position whose match, if any, passes hands the check on. */
  lemma PassedStep(s: string, p: nat, check: HeadCheck)
    requires p < |s| && HeadOk(s, p, check)
    ensures HeadCheckFrom(s, p, check) == HeadCheckFrom(s, HeadResume(s, p), check)
  {
    if CallHeadAt(s, p).Some? {
      HeadStep(s, p, check);
    } else {
      NoHeadStep(s, p, check);
    }
  }

  lemma MeaningStep(s: string, p: nat, check: HeadCheck)
    requires p < |s| && (HeadOk(s, p, check) ==> MeansAllPass(s, HeadResume(s, p), check))
    ensures MeansAllPass(s, p, check)
  {
    if CallHeadAt(s, p).None? {
      MeaningPastNoHead(s, p, check);
    } else if HeadError(s, CallHeadAt(s, p).value, check).None? {
      MeaningPastPassedHead(s, p, check);
    } else {
      MeaningAtFailedHead(s, p, check);
    }
  }

  /** A check over the matches passes exactly when every match passes it. */
  lemma {:induction false} HeadCheckMeaning(s: string, p: nat, check: HeadCheck)
    requires p <= |s|
    ensures MeansAllPass(s, p, check)
    decreases |s| - p
  {
    if p < |s| {
      if HeadOk(s, p, check) {
        HeadCheckMeaning(s, HeadResume(s, p), check);
      }
      MeaningStep(s, p, check);
    }
  }

  /** A failing check reports the error of one of the matches. */
  lemma {:induction false} HeadCheckFailure(s: string, p: nat, check: HeadCheck)
    requires p <= |s| && HeadCheckFrom(s, p, check).Fail?
    ensures exists q :: p <= q < |s| && CallHeadAt(s, q).Some?
                        && HeadError(s, CallHeadAt(s, q).value, check) == Some(HeadCheckFrom(s, p, check).error)
    decreases |s| - p
  {
    if HeadOk(s, p, check) {
      PassedStep(s, p, check);
      HeadCheckFailure(s, HeadResume(s, p), check);
    } else {
      FailedHeadReported(s, p, check);
    }
  }

  lemma FailedHeadReported(s: string, p: nat, check: HeadCheck)
    requires p < |s| && !HeadOk(s, p, check)
    ensures CallHeadAt(s, p).Some? && HeadError(s, CallHeadAt(s, p).value, check) == Some(HeadCheckFrom(s, p, check).error)
  {
    HeadStep(s, p, check);
  }

  /** `CheckForInvalidFunctions`: every name before a bracket must be in the table. */
  function CheckForInvalidFunctions(s: string): Outcome {
    HeadCheckFrom(s, 0, KnownName)
  }

  /** `CheckBracketTypes`: `[` exactly for sum, mean and fact. */
  function CheckBracketTypes(s: string): Outcome {
    HeadCheckFrom(s, 0, BracketKind)
  }

  /** The check on the unknown names passes exactly when every name written
      before a bracket is known. */
  lemma InvalidFunctionsMeaning(s: string)
    ensures CheckForInvalidFunctions(s).Pass? || CheckForInvalidFunctions(s).Fail?
    ensures CheckForInvalidFunctions(s).Pass? <==>
      forall q :: 0 <= q < |s| && CallHeadAt(s, q).Some? ==>
        IsKnown(s[q..CallHeadAt(s, q).value.nameEnd])
  {
    HeadCheckMeaning(s, 0, KnownName);
    assert forall q :: 0 <= q < |s| ==> (HeadOk(s, q, KnownName) <==>
      (CallHeadAt(s, q).Some? ==> IsKnown(s[q..CallHeadAt(s, q).value.nameEnd])));
  }

  /** The check on bracket kinds passes exactly when every name written before
      a bracket uses `[` if and only if it is sum, mean or fact. */
  lemma BracketTypesMeaning(s: string)
    ensures CheckBracketTypes(s).Pass? || CheckBracketTypes(s).Fail?
    ensures CheckBracketTypes(s).Pass? <==>
      forall q :: 0 <= q < |s| && CallHeadAt(s, q).Some? ==>
        (s[CallHeadAt(s, q).value.open] == '[' <==> UsesSquareBrackets(s[q..CallHeadAt(s, q).value.nameEnd]))
  {
    HeadCheckMeaning(s, 0, BracketKind);
    assert forall q :: 0 <= q < |s| ==> (HeadOk(s, q, BracketKind) <==>
      (CallHeadAt(s, q).Some? ==>
        (s[CallHeadAt(s, q).value.open] == '[' <==> UsesSquareBrackets(s[q..CallHeadAt(s, q).value.nameEnd]))));
  }

  // ---------------------------------------------------------------- arity

  function VariadicMessage(name: string): string {
    "Функция '" + name + "' должна принимать хотя бы один аргумент."
  }

  function ArityMessage(name: string, expected: int, given: nat): string {
    "Функция '" + name + "' должна принимать " + IntToString(expected) + " аргумента(ов), передано: "
    + IntToString(given) + "."
  }

  function IfConditionMessage(condition: string): string {
    "Первый аргумент функции 'if' должен быть булевым выражением, получено: '" + condition + "'."
  }

  /** `bool.TryParse`: `true` or `false` in any case, with surrounding blanks. */
  predicate IsBooleanText(s: string) { Lower(Trim(s)) == "true" || Lower(Trim(s)) == "false" }

  /** The pattern `[<>!=]=?|&&|\|\|` occurs in `s`. */
  predicate HasLogicalOperator(s: string) {
    exists i :: 0 <= i < |s| && (s[i] in "<>!=" || OccursAt(s, "&&", i) || OccursAt(s, "||", i))
  }

  /** A known function is given as many arguments as the table asks: at least
      one for the variadic ones (count -1), exactly the count for the others. */
  predicate CountFits(name: string, args: seq<string>)
    requires IsKnown(name)
  {
    var expected := ArgumentCounts[Lower(name)];
    if expected == -1 then |args| > 0 else |args| == expected
  }

  /** The rule for `if`: with three arguments, the first must read as a boolean
      or hold a comparison or logical operator. */
  predicate IfConditionBroken(name: string, args: seq<string>) {
    Lower(name) == "if" && |args| == 3 && !IsBooleanText(args[0]) && !HasLogicalOperator(args[0])
  }

  /** The arity checks for one closed call with the given name and trimmed
      argument text, reported at `index`: unknown names are not checked; a
      known call passes exactly when its count fits and the `if` rule holds;
      a wrong count is reported before the `if` rule is looked at. */
  function ArityError(name: string, argsText: string, index: nat): (r: Option<CalcError>)
    ensures !IsKnown(name) ==> r.None?
    ensures r.None? <==>
              (!IsKnown(name) || (CountFits(name, Arguments(argsText)) && !IfConditionBroken(name, Arguments(argsText))))
    ensures IsKnown(name) && ArgumentCounts[Lower(name)] == -1 && |Arguments(argsText)| == 0 ==>
              r == Some(ReportError(VariadicMessage(name), index))
    ensures IsKnown(name) && ArgumentCounts[Lower(name)] != -1
            && |Arguments(argsText)| != ArgumentCounts[Lower(name)] ==>
              r == Some(ReportError(ArityMessage(name, ArgumentCounts[Lower(name)], |Arguments(argsText)|), index))
    ensures IsKnown(name) && CountFits(name, Arguments(argsText)) && IfConditionBroken(name, Arguments(argsText)) ==>
              r == Some(ReportError(IfConditionMessage(Arguments(argsText)[0]), index))
    ensures r.Some? ==> r.value.errorPosition == index + 1
  {
    if !IsKnown(name) then None
    else
      var expected := ArgumentCounts[Lower(name)];
      var args := Arguments(argsText);
      if expected == -1 && |args| == 0 then Some(ReportError(VariadicMessage(name), index))
      else if expected != -1 && |args| != expected then Some(ReportError(ArityMessage(name, expected, |args|), index))
      else if IfConditionBroken(name, args) then
        Some(ReportError(IfConditionMessage(args[0]), index))
      else None
  }

  /** `CheckFunctionArgumentsCount` over the matches from `p` on: a call whose
      bracket never closes is skipped, as `ParseFunctions` yields only closed calls. */
  function ArityFrom(s: string, p: nat): Outcome
    requires p <= |s|
    decreases |s| - p
  {
    if p == |s| then Pass
    else
      var h := CallHeadAt(s, p);
      if h.None? then ArityFrom(s, p + 1)
      else
        var e := CallArityError(s, h.value);
        if e.Some? then Fail(e.value) else ArityFrom(s, h.value.open + 1)
  }

  /** The arity checks for the call whose head is `h`, once its bracket closes. */
  function CallArityError(s: string, h: CallHead): Option<CalcError>
    requires h.start <= h.nameEnd <= h.open < |s|
  {
    var o := s[h.open];
    var close := MatchingCloser(s, h.open + 1, o, if o == '(' then ')' else ']', 0);
    if close.None? then None
    else ArityError(s[h.start..h.nameEnd], Trim(s[h.open + 1..close.value]), h.start)
  }

  function CheckFunctionArgumentsCount(s: string): Outcome {
    ArityFrom(s, 0)
  }

  // ---------------------------------------------------------------- call syntax

  const SquareCallNames: seq<string> := ["mean", "sum", "fact"]

  const RoundCallNames: seq<string> := ["cos", "sin", "sqrt", "min", "max", "if", "pow", "abs", "log"]

  /** `\b(names)\b(?!\s*bracket)` matches at `p`: a whole word from `names` that
      is not followed, after blanks, by `bracket`. */
  predicate MisusedAt(s: string, p: nat, names: seq<string>, bracket: char) {
    p < |s| && (p == 0 || !IsWordChar(s[p - 1]))
    && var n := NameAt(s, p, names);
       n.Some? && (p + n.value == |s| || !IsWordChar(s[p + n.value]))
       && var q := SkipWhiteSpace(s, p + n.value);
          !(q < |s| && s[q] == bracket)
  }

  function SquareUsageMessage(v: string): string {
    "Функция '" + v + "' должна вызываться с квадратными скобками: " + v + "[]"
  }

  function RoundUsageMessage(v: string): string {
    "Функция '" + v + "' должна вызываться с круглыми скобками: " + v + "()"
  }

  /** The first misused name of one list, reported with its spelling as written. */
  function FirstMisuse(s: string, square: bool): (r: Outcome)
    ensures var names := if square then SquareCallNames else RoundCallNames;
      var bracket := if square then '[' else '(';
      (r.Pass? || r.Fail?)
      && (r.Pass? <==> forall p :: 0 <= p < |s| ==> !MisusedAt(s, p, names, bracket))
      && (r.Fail? ==>
           exists p :: 0 <= p < |s| && MisusedAt(s, p, names, bracket) && r.error.errorPosition == p + 1
                       && (forall j :: 0 <= j < p ==> !MisusedAt(s, j, names, bracket)))
  {
    var names := if square then SquareCallNames else RoundCallNames;
    var bracket := if square then '[' else '(';
    var f := (p: nat) => MisusedAt(s, p, names, bracket);
    match FirstIndex(0, |s|, f)
    case None =>
      assert forall p :: 0 <= p < |s| ==> f(p) == MisusedAt(s, p, names, bracket);
      Pass
    case Some(p) =>
      assert forall j :: 0 <= j <= p ==> f(j) == MisusedAt(s, j, names, bracket);
      var v := s[p..p + NameAt(s, p, names).value];
      Fail(ReportError(if square then SquareUsageMessage(v) else RoundUsageMessage(v), p))
  }

  /** `CheckForIncorrectFunctionUsage`: the square-bracket names first, then the others. */
  function CheckForIncorrectFunctionUsage(s: string): Outcome {
    if FirstMisuse(s, true).Pass? then FirstMisuse(s, false) else FirstMisuse(s, true)
  }

  // ---------------------------------------------------------------- vector arguments

  /** `IsVectorVariable`: neither bracketed at either end nor a number. */
  predicate IsVectorVariable(num: Conversions, arg: string) {
    !StartsWith(arg, "[") && !EndsWith(arg, "]") && !IsNumber(num, arg)
  }

  /** `IsVectorLiteral`: bracketed at both ends. */
  predicate IsVectorLiteral(arg: string) { StartsWith(arg, "[") && EndsWith(arg, "]") }

  function CountVectorVariables(num: Conversions, args: seq<string>): (n: nat)
    ensures n <= |args|
    ensures n == 0 <==> forall k :: 0 <= k < |args| ==> !IsVectorVariable(num, args[k])
  {
    if |args| == 0 then 0
    else (if IsVectorVariable(num, args[0]) then 1 else 0) + CountVectorVariables(num, args[1..])
  }

  function MixedArgumentsMessage(func: string): string {
    "Функция '" + func + "' должна принимать либо только векторную переменную, либо только числа/литералы"
  }

  function OneVectorMessage(func: string): string {
    "Функция '" + func + "' может принимать только одну векторную переменную"
  }

  /** `CheckSumMeanArguments`: a vector variable may not be mixed with numbers or
      literals, and may not be given twice. */
  function SumMeanError(num: Conversions, func: string, args: seq<string>, index: nat): (r: Option<CalcError>)
    ensures r.None? <==>
      (forall k :: 0 <= k < |args| ==> !IsVectorVariable(num, args[k])) ||
      ((forall k :: 0 <= k < |args| ==> !(IsNumber(num, args[k]) || IsVectorLiteral(args[k])))
       && CountVectorVariables(num, args) <= 1)
    ensures r.Some? ==> r.value.errorPosition == index + 1
  {
    var hasVectorVar := exists k :: 0 <= k < |args| && IsVectorVariable(num, args[k]);
    var hasScalars := exists k :: 0 <= k < |args| && (IsNumber(num, args[k]) || IsVectorLiteral(args[k]));
    if hasVectorVar && hasScalars then Some(ReportError(MixedArgumentsMessage(func), index))
    else if CountVectorVariables(num, args) > 1 then Some(ReportError(OneVectorMessage(func), index))
    else None
  }

  /** A match of `\b(sum|mean|fact)\s*\[([^\]]+)\]`: the lower-case name, and
      the argument text between `open` and the first `]` at `close`. */
  datatype VectorCall = VectorCall(func: string, open: nat, close: nat)

  function VectorCallAt(s: string, p: nat): (r: Option<VectorCall>)
    ensures r.Some? ==> p < r.value.open + 1 < r.value.close < |s|
  {
    if p < |s| && (p == 0 || !IsWordChar(s[p - 1])) then
      match NameAt(s, p, ["sum", "mean", "fact"])
      case None => None
      case Some(n) =>
        var q := SkipWhiteSpace(s, p + n);
        if q < |s| && s[q] == '[' then
          match IndexOfFrom(s, ']', q + 1)
          case Some(c) => if c > q + 1 then Some(VectorCall(Lower(s[p..p + n]), q, c)) else None
          case None => None
        else None
    else None
  }

  /** The sum/mean/fact checks over the matches from `p` on. */
  function VectorCallsFrom(num: Conversions, s: string, p: nat): Outcome
    requires p <= |s|
    decreases |s| - p
  {
    if p == |s| then Pass
    else
      match VectorCallAt(s, p)
      case None => VectorCallsFrom(num, s, p + 1)
      case Some(m) =>
        var e := SumMeanError(num, m.func, Arguments(Trim(s[m.open + 1..m.close])), p);
        if e.Some? then Fail(e.value) else VectorCallsFrom(num, s, m.close + 1)
  }

  function MixingMessage(func: string): string {
    "Функция '" + func + "' не поддерживает смешивание векторных переменных с выражениями"
  }

  const NegativeExponentMessage: string := "Второй аргумент функции 'pow' не может быть отрицательным"

  const NegativeElementsMessage: string := "Второй аргумент функции 'pow' не может содержать отрицательные значения"

  function TwoArgumentsMessage(func: string): string {
    "Функция '" + func + "' требует ровно 2 аргумента"
  }

  /** `Trim('[', ']')`: brackets of either kind removed from both ends. */
  function TrimBrackets(s: string): (r: string)
    ensures |r| <= |s|
    decreases |s|
  {
    if |s| > 0 && (s[0] == '[' || s[0] == ']') then TrimBrackets(s[1..])
    else if |s| > 0 && (s[|s| - 1] == '[' || s[|s| - 1] == ']') then TrimBrackets(s[..|s| - 1])
    else s
  }

  /** The lazy `Any(v => v < 0)` over the invariant-culture values of `pieces`:
      the first piece that does not parse escapes as a `FormatException`, unless
      a negative value comes before it. */
  function NegativeElement(num: Conversions, pieces: seq<string>): (r: Outcome)
    ensures r.Pass? <==> forall k :: 0 <= k < |pieces| ==>
      num.parseInvariant(Trim(pieces[k])).Some? && num.parseInvariant(Trim(pieces[k])).value >= 0.0
    ensures r.Fail? ==> r.error == ReportError(NegativeElementsMessage, 0)
  {
    if |pieces| == 0 then Pass
    else match num.parseInvariant(Trim(pieces[0]))
      case None => Fault(FormatErrorMessage(Trim(pieces[0])))
      case Some(v) =>
        if v < 0.0 then Fail(ReportError(NegativeElementsMessage, 0))
        else
          var r := NegativeElement(num, pieces[1..]);
          assert forall k :: 1 <= k < |pieces| ==> pieces[k] == pieces[1..][k - 1];
          r
  }

  /** `CheckElementwiseFunctionArguments` with `Match.Empty`: every error is
      reported at position 1. */
  function ElementwiseOutcome(num: Conversions, func: string, args: seq<string>): (r: Outcome)
    ensures r.Fail? ==> r.error.errorPosition == 1
    ensures func == "pow" && |args| == 2 && IsNumber(num, args[1]) && num.tryParse(args[1]).value < 0.0
            ==> r.Fail?
  {
    var stray := exists k :: 0 <= k < |args|
                   && !IsVectorVariable(num, args[k]) && !IsNumber(num, args[k]) && !IsVectorLiteral(args[k]);
    if CountVectorVariables(num, args) > 0 && stray then Fail(ReportError(MixingMessage(func), 0))
    else if func == "pow" && |args| == 2 then
      if IsNumber(num, args[1]) then
        if num.tryParse(args[1]).value < 0.0 then Fail(ReportError(NegativeExponentMessage, 0)) else Pass
      else if IsVectorLiteral(args[1]) then NegativeElement(num, Split(TrimBrackets(args[1]), ','))
      else Pass
    else Pass
  }

  /** A match of `\bname\s*\(` at `p`: gives the index of its `(`. */
  function ParenCallAt(s: string, p: nat, name: string): (r: Option<nat>)
    ensures r.Some? ==> p + |name| <= r.value < |s| && s[r.value] == '('
  {
    if p < |s| && (p == 0 || !IsWordChar(s[p - 1])) && p + |name| <= |s| && Lower(s[p..p + |name|]) == name then
      var q := SkipWhiteSpace(s, p + |name|);
      if q < |s| && s[q] == '(' then Some(q) else None
    else None
  }

  /** The checks on the calls of `name` from `p` on: two arguments, then the
      elementwise checks. */
  function ParenCallsFrom(num: Conversions, s: string, name: string, p: nat): Outcome
    requires p <= |s|
    decreases |s| - p
  {
    if p == |s| then Pass
    else
      match ParenCallAt(s, p, name)
      case None => ParenCallsFrom(num, s, name, p + 1)
      case Some(q) =>
        var args := Arguments(ExtractArguments(s, p + |name|));
        if |args| != 2 then Fail(ReportError(TwoArgumentsMessage(name), p))
        else
          var o := ElementwiseOutcome(num, name, args);
          if !o.Pass? then o else ParenCallsFrom(num, s, name, q + 1)
  }

  /** The names `FindFunctionCalls` looks for, in the order it looks. */
  const ElementwiseFunctions: seq<string> := ["min", "max", "pow", "log"]

  /** All calls of the first name, then all calls of the next, and so on. */
  function ElementwiseCalls(num: Conversions, s: string, names: seq<string>): Outcome
    decreases |names|
  {
    if |names| == 0 then Pass
    else
      var o := ParenCallsFrom(num, s, names[0], 0);
      if !o.Pass? then o else ElementwiseCalls(num, s, names[1..])
  }

  /** `CheckVectorFunctionArguments`: the sum/mean/fact calls, then the min/max/pow/log calls. */
  function CheckVectorFunctionArguments(num: Conversions, s: string): Outcome {
    var v := VectorCallsFrom(num, s, 0);
    if v.Pass? then ElementwiseCalls(num, s, ElementwiseFunctions) else v
  }

  /** `Validate`: the five checks in order, stopping at the first that does not pass. */
  function Validate(num: Conversions, s: string): (r: Outcome)
    ensures !CheckForInvalidFunctions(s).Pass? ==> r == CheckForInvalidFunctions(s)
    ensures r.Pass? <==>
              (CheckForInvalidFunctions(s).Pass? && CheckBracketTypes(s).Pass?
               && CheckFunctionArgumentsCount(s).Pass? && CheckForIncorrectFunctionUsage(s).Pass?
               && CheckVectorFunctionArguments(num, s).Pass?)
    ensures CheckForInvalidFunctions(s).Pass? && !CheckBracketTypes(s).Pass? ==> r == CheckBracketTypes(s)
    ensures (CheckForInvalidFunctions(s).Pass? && CheckBracketTypes(s).Pass?
             && !CheckFunctionArgumentsCount(s).Pass?) ==> r == CheckFunctionArgumentsCount(s)
    ensures (CheckForInvalidFunctions(s).Pass? && CheckBracketTypes(s).Pass? && CheckFunctionArgumentsCount(s).Pass?
             && !CheckForIncorrectFunctionUsage(s).Pass?) ==> r == CheckForIncorrectFunctionUsage(s)
    ensures (CheckForInvalidFunctions(s).Pass? && CheckBracketTypes(s).Pass? && CheckFunctionArgumentsCount(s).Pass?
             && CheckForIncorrectFunctionUsage(s).Pass?) ==> r == CheckVectorFunctionArguments(num, s)
  {
    if !CheckForInvalidFunctions(s).Pass? then CheckForInvalidFunctions(s)
    else if !CheckBracketTypes(s).Pass? then CheckBracketTypes(s)
    else if !CheckFunctionArgumentsCount(s).Pass? then CheckFunctionArgumentsCount(s)
    else if !CheckForIncorrectFunctionUsage(s).Pass? then CheckForIncorrectFunctionUsage(s)
    else CheckVectorFunctionArguments(num, s)
  }

  // ---------------------------------------------------------------- examples

  /** Where no name can start, no call is matched. */
  lemma {:induction false} NoNamesPass(s: string, i: nat)
    requires i <= |s| && forall k :: i <= k < |s| ==> !IsNameStart(s[k])
    ensures HeadCheckFrom(s, i, KnownName) == Pass && HeadCheckFrom(s, i, BracketKind) == Pass
    ensures ArityFrom(s, i) == Pass
    decreases |s| - i
  {
    if i < |s| {
      NoNamesPass(s, i + 1);
    }
  }

  /** The call at the start of `s` is `name` followed directly by its bracket. */
  lemma HeadAtStart(s: string, n: nat)
    requires 0 < n < |s| && (s[n] == '(' || s[n] == '[')
    requires forall k :: 0 <= k < n ==> IsNameStart(s[k])
    ensures CallHeadAt(s, 0) == Some(CallHead(0, n, n))
  {
    assert forall k :: 0 <= k <= n ==> NameEnd(s, k) == n by {
      forall k | 0 <= k <= n
        ensures NameEnd(s, k) == n
      {
        NameEndFrom(s, k, n);
      }
    }
  }

  lemma {:induction false} NameEndFrom(s: string, k: nat, n: nat)
    requires k <= n < |s| && !IsNameChar(s[n])
    requires forall j :: k <= j < n ==> IsNameStart(s[j])
    ensures NameEnd(s, k) == n
    decreases n - k
  {
    if k < n {
      NameEndFrom(s, k + 1, n);
    }
  }

  /** `sum(1, 2)` is a known function with the wrong bracket, reported at position 1. */
  lemma SumWithRoundBrackets()
    ensures Validate(Conversions((t: string) => None, (t: string) => None, (x: real) => ""), "sum(1, 2)")
            == Fail(ReportError(SquareBracketsMessage("sum"), 0))
  {
    var s := "sum(1, 2)";
    HeadAtStart(s, 3);
    NoNamesPass(s, 4);
    assert Lower("sum") == "sum";
    assert s[0..3] == "sum";
  }

  /** `sum[]` has no argument, reported at position 1. */
  lemma SumWithoutArguments()
    ensures Validate(Conversions((t: string) => None, (t: string) => None, (x: real) => ""), "sum[]")
            == Fail(ReportError(VariadicMessage("sum"), 0))
  {
    var s := "sum[]";
    HeadAtStart(s, 3);
    NoNamesPass(s, 4);
    assert Lower("sum") == "sum";
    assert s[0..3] == "sum";
    assert MatchingCloser(s, 4, '[', ']', 0) == Some(4);
    assert Trim(s[4..4]) == "";
    EmptyHasNoArguments();
  }

  /** `pow(1)` has one argument instead of two, reported at position 1. */
  lemma PowWithOneArgument()
    ensures Validate(Conversions((t: string) => None, (t: string) => None, (x: real) => ""), "pow(1)")
            == Fail(ReportError(ArityMessage("pow", 2, 1), 0))
  {
    PowHeadsPass();
    PowArityFails();
  }

  lemma PowHeadsPass()
    ensures CheckForInvalidFunctions("pow(1)") == Pass && CheckBracketTypes("pow(1)") == Pass
  {
    var s := "pow(1)";
    HeadAtStart(s, 3);
    NoNamesPass(s, 4);
    assert Lower("pow") == "pow";
    assert s[0..3] == "pow";
  }

  lemma PowArityFails()
    ensures CheckFunctionArgumentsCount("pow(1)") == Fail(ReportError(ArityMessage("pow", 2, 1), 0))
  {
    var s := "pow(1)";
    HeadAtStart(s, 3);
    assert s[0..3] == "pow";
    assert MatchingCloser(s, 4, '(', ')', 0) == Some(5);
    assert Trim(s[4..5]) == "1";
    PowArityError();
    assert CallArityError(s, CallHead(0, 3, 3)) == Some(ReportError(ArityMessage("pow", 2, 1), 0));
    ArityAtHead(s, 0, ReportError(ArityMessage("pow", 2, 1), 0));
  }

  lemma PowArityError()
    ensures ArityError("pow", "1", 0) == Some(ReportError(ArityMessage("pow", 2, 1), 0))
  {
    assert Lower("pow") == "pow";
    OneArgument();
  }

  /** `if(x, 1, 2)`: the count is right, but `x` neither reads as a boolean nor
      holds a comparison or logical operator, so the call is rejected at position 1. */
  lemma IfPlainConditionFails()
    ensures CheckFunctionArgumentsCount("if(x, 1, 2)") == Fail(ReportError(IfConditionMessage("x"), 0))
  {
    var s := "if(x, 1, 2)";
    IfCallText(s, 10);
    assert s[3..10] == "x, 1, 2";
    IfPlainConditionError();
    ArityAtHead(s, 0, ReportError(IfConditionMessage("x"), 0));
  }

  lemma IfPlainConditionError()
    ensures Trim("x, 1, 2") == "x, 1, 2"
    ensures ArityError("if", "x, 1, 2", 0) == Some(ReportError(IfConditionMessage("x"), 0))
  {
    TrimUnpadded("x, 1, 2");
    PlainConditionArguments();
    IfTakesThree();
    PlainConditionNotBoolean();
  }

  lemma PlainConditionNotBoolean()
    ensures !IsBooleanText("x") && !HasLogicalOperator("x")
  {
    TrimUnpadded("x");
    assert Lower("x") == "x";
  }

  /** `if` is known, in lower case already, and takes three arguments. */
  lemma IfTakesThree()
    ensures Lower("if") == "if" && IsKnown("if") && ArgumentCounts["if"] == 3
  {
    assert Lower("if")[0] == 'i' && Lower("if")[1] == 'f';
  }

  /** Text with no blank at either end is its own trim. */
  lemma TrimUnpadded(t: string)
    requires |t| > 0 && !IsWhiteSpace(t[0]) && !IsWhiteSpace(t[|t| - 1])
    ensures Trim(t) == t
  {
  }

  /** `if(a > 1, 1, 2)`: a comparison as the first of three arguments passes the
      count check. */
  lemma IfComparisonPasses()
    ensures CheckFunctionArgumentsCount("if(a > 1, 1, 2)") == Pass
  {
    var s := "if(a > 1, 1, 2)";
    assert s[3..14] == "a > 1, 1, 2";
    IfCallText(s, 14);
    IfComparisonNoError();
    assert CallArityError(s, CallHead(0, 2, 2)) == None;
    ArityPastHead(s, 0);
    NoHeadAfterIf();
  }

  lemma IfComparisonNoError()
    ensures Trim("a > 1, 1, 2") == "a > 1, 1, 2"
    ensures ArityError("if", "a > 1, 1, 2", 0) == None
  {
    TrimUnpadded("a > 1, 1, 2");
    ComparisonConditionArguments();
    IfTakesThree();
    assert HasLogicalOperator("a > 1") by {
      assert "a > 1"[2] in "<>!=";
    }
  }

  /** In `if(a > 1, 1, 2)` the `a` is followed by a blank and `>`, not a bracket,
      and nothing after it can start a name. */
  lemma NoHeadAfterIf()
    ensures ArityFrom("if(a > 1, 1, 2)", 3) == Pass
  {
    var s := "if(a > 1, 1, 2)";
    NameEndFrom(s, 3, 4);
    SkipWhiteSpaceExact(s, 4, 5);
    assert CallHeadAt(s, 3) == None;
    NoNamesPass(s, 4);
  }

  /** A text `if(` ... `)` with no bracket inside: one call head at 0 whose
      argument text runs to the closing `)` at `close`. */
  lemma IfCallText(s: string, close: nat)
    requires 3 <= close == |s| - 1 && s[..3] == "if(" && s[close] == ')'
    requires forall k :: 3 <= k < close ==> s[k] != '(' && s[k] != ')' && s[k] != '[' && s[k] != ']'
    ensures CallHeadAt(s, 0) == Some(CallHead(0, 2, 2))
    ensures s[0..2] == "if"
    ensures CallArityError(s, CallHead(0, 2, 2)) == ArityError("if", Trim(s[3..close]), 0)
  {
    assert s[0] == 'i' && s[1] == 'f' && s[2] == '(';
    HeadAtStart(s, 2);
    CloserAfterPlainText(s, 3, close, '(', ')');
  }

  /** Where no bracket of either kind comes before the closer at `j`, that closer
      is the one found. */
  lemma {:induction false} CloserAfterPlainText(s: string, i: nat, j: nat, open: char, close: char)
    requires open != close && i <= j < |s| && s[j] == close
    requires forall k :: i <= k < j ==> s[k] != open && s[k] != close
    ensures MatchingCloser(s, i, open, close, 0) == Some(j)
    decreases j - i
  {
    if i < j {
      CloserAfterPlainText(s, i + 1, j, open, close);
    }
  }

  lemma PlainConditionArguments()
    ensures Arguments("x, 1, 2") == ["x", "1", "2"]
  {
    PlainConditionPieces();
    ThreeTrimmed("x", " 1", " 2", "1", "2");
  }

  lemma PlainConditionPieces()
    ensures Pieces("x, 1, 2") == ["x", " 1", " 2"]
  {
    var s := "x, 1, 2";
    PieceThenComma(s, 0, 1);
    PieceThenComma(s, 2, 4);
    PlainRun(s, 5, 7, "");
    assert "" + s[5..7] == s[5..7] && PiecesFrom(s, 7, 0, s[5..7]) == [s[5..7]];
    assert s[0..1] == "x" && s[2..4] == " 1" && s[5..7] == " 2";
  }

  lemma ComparisonConditionArguments()
    ensures Arguments("a > 1, 1, 2") == ["a > 1", "1", "2"]
  {
    ComparisonConditionPieces();
    TrimUnpadded("a > 1");
    ThreeTrimmed("a > 1", " 1", " 2", "1", "2");
  }

  lemma ComparisonConditionPieces()
    ensures Pieces("a > 1, 1, 2") == ["a > 1", " 1", " 2"]
  {
    var s := "a > 1, 1, 2";
    PieceThenComma(s, 0, 5);
    PieceThenComma(s, 6, 8);
    PlainRun(s, 9, 11, "");
    assert "" + s[9..11] == s[9..11] && PiecesFrom(s, 11, 0, s[9..11]) == [s[9..11]];
    assert s[0..5] == "a > 1" && s[6..8] == " 1" && s[9..11] == " 2";
  }

  /** A run with no comma and no bracket only extends the current piece. */
  lemma {:induction false} PlainRun(s: string, i: nat, j: nat, current: string)
    requires i <= j <= |s|
    requires forall k :: i <= k < j ==> s[k] !in ",()[]"
    ensures PiecesFrom(s, i, 0, current) == PiecesFrom(s, j, 0, current + s[i..j])
    decreases j - i
  {
    if i < j {
      PlainRun(s, i + 1, j, current + [s[i]]);
      assert current + [s[i]] + s[i + 1..j] == current + s[i..j];
    } else {
      assert current + s[i..j] == current;
    }
  }

  /** A plain run followed by a comma at level 0 is one whole piece. */
  lemma PieceThenComma(s: string, i: nat, j: nat)
    requires i <= j < |s| && s[j] == ','
    requires forall k :: i <= k < j ==> s[k] !in ",()[]"
    ensures PiecesFrom(s, i, 0, "") == [s[i..j]] + PiecesFrom(s, j + 1, 0, "")
  {
    PlainRun(s, i, j, "");
    assert "" + s[i..j] == s[i..j];
  }

  /** The pieces `first`, a blank and `b`, a blank and `c`, trimmed. */
  lemma ThreeTrimmed(first: string, b1: string, c1: string, b: string, c: string)
    requires Trim(first) == first && |b| == 1 && |c| == 1 && !IsWhiteSpace(b[0]) && !IsWhiteSpace(c[0])
    requires b1 == " " + b && c1 == " " + c
    ensures Finish([first, b1, c1]) == [first, b, c]
  {
    OneBlankTrimmed(b1, b);
    OneBlankTrimmed(c1, c);
    var ps := [first, b1, c1];
    assert ps[1..] == [b1, c1] && ps[1..][1..] == [c1] && ps[1..][1..][1..] == [];
    assert TrimAll([c1]) == [c];
    assert TrimAll([b1, c1]) == [b, c];
  }

  lemma OneBlankTrimmed(b1: string, b: string)
    requires |b| == 1 && !IsWhiteSpace(b[0]) && b1 == " " + b
    ensures Trim(b1) == b
  {
    assert b1[1..] == b;
    assert TrimStart(b) == b;
    assert TrimStart(b1) == b;
    assert TrimEnd(b) == b;
  }

  /** A call at `p` that keeps the arity rules leaves the check to the text past its bracket. */
  lemma ArityPastHead(s: string, p: nat)
    requires p < |s| && CallHeadAt(s, p).Some? && CallArityError(s, CallHeadAt(s, p).value).None?
    ensures ArityFrom(s, p) == ArityFrom(s, CallHeadAt(s, p).value.open + 1)
  {
  }

  /** A call at `p` whose arguments break the arity rules fails the check there. */
  lemma ArityAtHead(s: string, p: nat, e: CalcError)
    requires p < |s| && CallHeadAt(s, p).Some? && CallArityError(s, CallHeadAt(s, p).value) == Some(e)
    ensures ArityFrom(s, p) == Fail(e)
  {
  }

  lemma OneArgument()
    ensures Arguments("1") == ["1"]
  {
    var s := "1";
    assert "" + [s[0]] == "1";
    assert PiecesFrom(s, 0, 0, "") == PiecesFrom(s, 1, 0, "1");
    assert Trim("1") == "1";
  }

  /** `sum[1, , 2]`: the empty middle argument is not a number, so it counts
      as a vector variable mixed with numbers. */
  lemma EmptyArgumentIsVectorVariable(num: Conversions)
    requires num.tryParse("1").Some? && num.tryParse("2").Some? && num.tryParse("").None?
    ensures SumMeanError(num, "sum", ["1", "", "2"], 0) == Some(ReportError(MixedArgumentsMessage("sum"), 0))
  {
    var args := ["1", "", "2"];
    assert IsVectorVariable(num, args[1]);
    assert IsNumber(num, args[0]);
  }

  /** `pow(0, -1)`: a negative numeric exponent is rejected at position 1,
      wherever the call stands. */
  lemma NegativeExponent(num: Conversions)
    requires num.tryParse("0") == Some(0.0) && num.tryParse("-1") == Some(-1.0)
    ensures ElementwiseOutcome(num, "pow", ["0", "-1"]) == Fail(ReportError(NegativeExponentMessage, 0))
  {
    var args := ["0", "-1"];
    assert IsNumber(num, args[0]) && IsNumber(num, args[1]);
    NumbersAreNoVectorVariables(num, args);
    NegativeExponentRejected(num, args);
  }

  lemma NumbersAreNoVectorVariables(num: Conversions, args: seq<string>)
    requires forall k :: 0 <= k < |args| ==> IsNumber(num, args[k])
    ensures CountVectorVariables(num, args) == 0
  {
    assert forall k :: 0 <= k < |args| ==> !IsVectorVariable(num, args[k]);
  }

  /** Two plain arguments of `pow` whose second is a negative number are
      rejected, whatever the first is. */
  lemma NegativeExponentRejected(num: Conversions, args: seq<string>)
    requires |args| == 2 && CountVectorVariables(num, args) == 0
    requires IsNumber(num, args[1]) && num.tryParse(args[1]).value < 0.0
    ensures ElementwiseOutcome(num, "pow", args) == Fail(ReportError(NegativeExponentMessage, 0))
  {
  }
}
