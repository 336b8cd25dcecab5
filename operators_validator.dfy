/// The operators validator: no run of two arithmetic operators, no `=` or `==`
/// outside brackets, and no division by a literal `0`.
module OperatorsValidator {
  import opened Wrappers
  import opened Text
  import opened Errors
  import opened Scanning
  import opened BaseValidator

  /** The operator class of the repeated-operator pattern: `+`, `-`, `*`, `/` and `^`. */
  predicate IsArithmeticOperator(c: char) { c == '+' || c == '-' || c == '*' || c == '/' || c == '^' }

  /** The repeated-operator pattern (two or more operators in a row) can start at `i`. */
  predicate RepeatedOperatorsAt(s: string, i: nat) {
    i + 1 < |s| && IsArithmeticOperator(s[i]) && IsArithmeticOperator(s[i + 1])
  }

  function RepeatedOperatorsMessage(operators: string): string {
    "Недопустимое сочетание операторов: " + operators + "."
  }

  /** The repeated-operator check: fails at the leftmost run of two or more
      operators, naming the whole (greedy) run. */
  function CheckRepeatedOperators(s: string): (r: Outcome)
    ensures r.Pass? || r.Fail?
    ensures r.Pass? <==> forall i :: 0 <= i < |s| ==> !RepeatedOperatorsAt(s, i)
    ensures r.Fail? ==>
      exists i, k :: 0 <= i < k <= |s| && RepeatedOperatorsAt(s, i)
        && (forall j :: 0 <= j < i ==> !RepeatedOperatorsAt(s, j))
        && i + 2 <= k && (forall m :: i <= m < k ==> IsArithmeticOperator(s[m]))
        && (k == |s| || !IsArithmeticOperator(s[k]))
        && r.error == ReportError(RepeatedOperatorsMessage(s[i..k]), i)
  {
    var p := (i: nat) => RepeatedOperatorsAt(s, i);
    match FirstIndex(0, |s|, p)
    case None =>
      assert forall i :: 0 <= i < |s| ==> p(i) == RepeatedOperatorsAt(s, i);
      Pass
    case Some(i) =>
      assert forall j :: 0 <= j <= i ==> p(j) == RepeatedOperatorsAt(s, j);
      var k := RunEnd(s, i, IsArithmeticOperator);
      Fail(ReportError(RepeatedOperatorsMessage(s[i..k]), i))
  }

  /** First alternative of `(?<![<>=!])=(?!=)|(?<!=)==(?!=)`: a lone `=` not
      ending a comparison operator. */
  predicate LoneEqualsAt(s: string, i: nat) {
    i < |s| && s[i] == '='
    && (i == 0 || !(s[i - 1] in {'<', '>', '=', '!'}))
    && (i + 1 == |s| || s[i + 1] != '=')
  }

  /** Second alternative: exactly two `=`. */
  predicate DoubleEqualsAt(s: string, i: nat) {
    i + 2 <= |s| && s[i] == '=' && s[i + 1] == '='
    && (i == 0 || s[i - 1] != '=')
    && (i + 2 == |s| || s[i + 2] != '=')
  }

  predicate EqualsAt(s: string, i: nat) { LoneEqualsAt(s, i) || DoubleEqualsAt(s, i) }

  /** No match can start inside a `==` match, so successive `Regex.Matches`
      results are exactly the indices where `EqualsAt` holds. */
  lemma NoMatchInsideDoubleEquals(s: string, i: nat)
    requires DoubleEqualsAt(s, i)
    ensures !EqualsAt(s, i + 1)
  {
  }

  /** The bracket count over the first `n` characters: `(` and `[` add one,
      `)` and `]` take one away; quotes are not skipped. */
  function Depth(s: string, n: nat): int
    requires n <= |s|
  {
    if n == 0 then 0
    else if s[n - 1] == '(' || s[n - 1] == '[' then Depth(s, n - 1) + 1
    else if s[n - 1] == ')' || s[n - 1] == ']' then Depth(s, n - 1) - 1
    else Depth(s, n - 1)
  }

  /** The bracket count as the source computes it, one loop over the prefix. */
  method CountBrackets(s: string, n: nat) returns (bracketCount: int)
    requires n <= |s|
    ensures bracketCount == Depth(s, n)
  {
    bracketCount := 0;
    var i := 0;
    while i < n
      invariant 0 <= i <= n
      invariant bracketCount == Depth(s, i)
    {
      if s[i] == '(' || s[i] == '[' {
        bracketCount := bracketCount + 1;
      } else if s[i] == ')' || s[i] == ']' {
        bracketCount := bracketCount - 1;
      }
      i := i + 1;
    }
  }

  const LoneEqualsMessage: string := "Знак '=' недопустим в выражении."

  const DoubleEqualsMessage: string := "Оператор '==' недопустим в выражении."

  /** An equals match the check rejects: one at bracket count 0. */
  predicate BadEqualsAt(s: string, i: nat) {
    i < |s| && EqualsAt(s, i) && Depth(s, i) == 0
  }

  /** The equals check: fails at the first `=`/`==` match outside brackets,
      with the message for the kind of match found. */
  function CheckEquals(s: string): (r: Outcome)
    ensures r.Pass? || r.Fail?
    ensures r.Pass? <==> forall i :: 0 <= i < |s| ==> !BadEqualsAt(s, i)
    ensures r.Fail? ==>
      exists i :: 0 <= i < |s| && BadEqualsAt(s, i)
        && (forall j :: 0 <= j < i ==> !BadEqualsAt(s, j))
        && r.error == ReportError(if LoneEqualsAt(s, i) then LoneEqualsMessage else DoubleEqualsMessage, i)
  {
    var p := (i: nat) => BadEqualsAt(s, i);
    match FirstIndex(0, |s|, p)
    case None =>
      assert forall i :: 0 <= i < |s| ==> p(i) == BadEqualsAt(s, i);
      Pass
    case Some(i) =>
      assert forall j :: 0 <= j <= i ==> p(j) == BadEqualsAt(s, j);
      Fail(ReportError(if LoneEqualsAt(s, i) then LoneEqualsMessage else DoubleEqualsMessage, i))
  }

  /** The equals check as the source runs it: over every match in order, count
      the brackets before it and stop at the first match at count 0. */
  method EqualsScan(s: string) returns (r: Outcome)
    ensures r == CheckEquals(s)
  {
    var i := 0;
    while i < |s|
      invariant 0 <= i <= |s|
      invariant forall j :: 0 <= j < i ==> !BadEqualsAt(s, j)
    {
      if EqualsAt(s, i) {
        var bracketCount := CountBrackets(s, i);
        if bracketCount == 0 {
          if LoneEqualsAt(s, i) {
            r := Fail(ReportError(LoneEqualsMessage, i));
          } else {
            r := Fail(ReportError(DoubleEqualsMessage, i));
          }
          CheckEqualsAtFirst(s, i);
          return;
        }
      }
      i := i + 1;
    }
    CheckEqualsPasses(s);
    r := Pass;
  }

  lemma CheckEqualsAtFirst(s: string, i: nat)
    requires BadEqualsAt(s, i) && forall j :: 0 <= j < i ==> !BadEqualsAt(s, j)
    ensures CheckEquals(s) == Fail(ReportError(if LoneEqualsAt(s, i) then LoneEqualsMessage else DoubleEqualsMessage, i))
  {
    var r := CheckEquals(s);
    if r.Fail? {
      var k :| 0 <= k < |s| && BadEqualsAt(s, k) && (forall j :: 0 <= j < k ==> !BadEqualsAt(s, j))
        && r.error == ReportError(if LoneEqualsAt(s, k) then LoneEqualsMessage else DoubleEqualsMessage, k);
      assert k == i;
    }
  }

  lemma CheckEqualsPasses(s: string)
    requires forall j :: 0 <= j < |s| ==> !BadEqualsAt(s, j)
    ensures CheckEquals(s) == Pass
  {
  }

  /** `CheckForInvalidOperators`: repeated operators first, then `=`/`==`. */
  function CheckForInvalidOperators(s: string): Outcome {
    if CheckRepeatedOperators(s).Pass? then CheckEquals(s) else CheckRepeatedOperators(s)
  }

  /** Regex `(/|÷)\s*0\b` matches at `i`. */
  predicate DivisionByZeroAt(s: string, i: nat) {
    i < |s| && (s[i] == '/' || s[i] == '÷')
    && var k := SkipWhiteSpace(s, i + 1);
       k < |s| && s[k] == '0' && WordBoundary(s, k + 1)
  }

  const DivisionByZeroMessage: string := "Деление на ноль недопустимо."

  /** `CheckForDivisionByZero`: fails at the slash of the first division by a literal `0`. */
  function CheckForDivisionByZero(s: string): (r: Outcome)
    ensures r.Pass? || r.Fail?
    ensures r.Pass? <==> forall i :: 0 <= i < |s| ==> !DivisionByZeroAt(s, i)
    ensures r.Fail? ==>
      exists i :: 0 <= i < |s| && DivisionByZeroAt(s, i)
        && (forall j :: 0 <= j < i ==> !DivisionByZeroAt(s, j))
        && r.error == ReportError(DivisionByZeroMessage, i)
  {
    var p := (i: nat) => DivisionByZeroAt(s, i);
    match FirstIndex(0, |s|, p)
    case None =>
      assert forall i :: 0 <= i < |s| ==> p(i) == DivisionByZeroAt(s, i);
      Pass
    case Some(i) =>
      assert forall j :: 0 <= j <= i ==> p(j) == DivisionByZeroAt(s, j);
      Fail(ReportError(DivisionByZeroMessage, i))
  }

  /** The division-by-zero pattern: a slash, only whitespace, then a `0` that
      ends a word, so a following digit, letter or `_` saves it but `.` does not. */
  lemma DivisionByZeroMeaning(s: string, i: nat)
    requires i < |s|
    ensures DivisionByZeroAt(s, i) <==>
      (s[i] == '/' || s[i] == '÷')
      && (exists k :: i < k < |s| && AllWhiteSpace(s[i + 1..k]) && s[k] == '0' && (k + 1 == |s| || !IsWordChar(s[k + 1])))
  {
    if s[i] == '/' || s[i] == '÷' {
      var k0 := SkipWhiteSpace(s, i + 1);
      if k0 < |s| && s[k0] == '0' && WordBoundary(s, k0 + 1) {
        assert IsWordChar(s[k0]);
      }
      forall k | i < k < |s| && AllWhiteSpace(s[i + 1..k]) && s[k] == '0'
        ensures k == k0
      {
        SkipWhiteSpaceIsMaximal(s, i + 1, k);
      }
    }
  }

  /** `Validate`: the invalid-operator checks first, then division by zero. */
  function Validate(s: string): (r: Outcome)
    ensures CheckForInvalidOperators(s).Fail? ==> r == CheckForInvalidOperators(s)
    ensures CheckForInvalidOperators(s).Pass? ==> r == CheckForDivisionByZero(s)
  {
    if CheckForInvalidOperators(s).Pass? then CheckForDivisionByZero(s) else CheckForInvalidOperators(s)
  }

  /** `1 / 0` is a division by zero at position 3. */
  lemma DivisionByZeroExample()
    ensures Validate("1 / 0") == Fail(ReportError(DivisionByZeroMessage, 2))
  {
    var s := "1 / 0";
    assert forall i :: 0 <= i < |s| ==> !RepeatedOperatorsAt(s, i);
    assert forall i :: 0 <= i < |s| ==> !EqualsAt(s, i);
    assert SkipWhiteSpace(s, 3) == 4;
    assert DivisionByZeroAt(s, 2);
  }

  /** `2*-3` is a repeated-operator error at position 2. */
  lemma RepeatedOperatorsExample()
    ensures Validate("2*-3") == Fail(ReportError(RepeatedOperatorsMessage("*-"), 1))
  {
    var s := "2*-3";
    assert RepeatedOperatorsAt(s, 1) && !RepeatedOperatorsAt(s, 0);
    assert RunEnd(s, 1, IsArithmeticOperator) == 3;
    assert s[1..3] == "*-";
  }

  /** Inside brackets `=` passes: `if(a = 1, 2, 3)` is not rejected by the equals check. */
  lemma EqualsInsideBracketsExample()
    ensures CheckEquals("if(a = 1, 2, 3)") == Pass
  {
    var s := "if(a = 1, 2, 3)";
    assert forall i :: 0 <= i < |s| && i != 5 ==> !EqualsAt(s, i);
    assert Depth(s, 5) == 1;
  }
}
