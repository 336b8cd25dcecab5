/// The function-arguments validator: inside the argument text of a reserved
/// function, neither a lone `=` nor `==` may appear.
module FunctionArgumentsValidator {
  import opened Wrappers
  import opened Text
  import opened Errors
  import opened Scanning
  import opened BaseValidator
  import OperatorsValidator

  const LoneEqualsMessage: string :=
    "Знак '=' недопустим в аргументах функции. Используйте '<=', '>=', или '==' при необходимости логики."

  const DoubleEqualsMessage: string := "Оператор '==' недопустим в аргументах. Используйте '=' при передаче значений."

  /** The first `=`/`==` match in the argument text, which is searched on its own,
      so the lookbehind sees nothing before the argument text. */
  function FirstEqualsIn(args: string): (r: Option<nat>)
    ensures r.Some? ==> r.value < |args| && OperatorsValidator.EqualsAt(args, r.value)
    ensures r.Some? ==> forall k :: 0 <= k < r.value ==> !OperatorsValidator.EqualsAt(args, k)
    ensures r.None? ==> forall k :: 0 <= k < |args| ==> !OperatorsValidator.EqualsAt(args, k)
  {
    var p := (k: nat) => OperatorsValidator.EqualsAt(args, k);
    match FirstIndex(0, |args|, p)
    case Some(k) =>
      assert forall j :: 0 <= j <= k ==> p(j) == OperatorsValidator.EqualsAt(args, j);
      Some(k)
    case None =>
      assert forall j :: 0 <= j < |args| ==> p(j) == OperatorsValidator.EqualsAt(args, j);
      None
  }

  /** The error for one call: only reserved names are checked, and the first
      match in their argument text is reported at `offset` plus its index. */
  function CallError(name: string, args: string, offset: nat): (r: Option<CalcError>)
    ensures !IsReserved(name) ==> r.None?
    ensures r.Some? ==> offset < r.value.errorPosition <= offset + |args|
                        && args[r.value.errorPosition - 1 - offset] == '='
  {
    if !IsReserved(name) then None
    else match FirstEqualsIn(args)
      case None => None
      case Some(k) =>
        var message := if OperatorsValidator.LoneEqualsAt(args, k) then LoneEqualsMessage else DoubleEqualsMessage;
        Some(ReportError(message, offset + k))
  }

  /** Where the arguments of call match `m` are taken to start: the code adds the
      match index to the already absolute group index (`asWritten`); otherwise
      the group index alone. */
  function ArgumentsOffset(m: CallMatch, asWritten: bool): nat {
    if asWritten then m.start + m.open + 1 else m.open + 1
  }

  /** The error for call match `m` of `s`. */
  function MatchError(s: string, m: CallMatch, asWritten: bool): (r: Option<CalcError>)
    requires m.start <= m.nameEnd <= m.open < m.close <= |s|
    ensures !asWritten && r.Some? ==>
      m.open < r.value.errorPosition - 1 < m.close && s[r.value.errorPosition - 1] == '='
  {
    var args := s[m.open + 1..m.close];
    var r := CallError(s[m.start..m.nameEnd], args, ArgumentsOffset(m, asWritten));
    assert !asWritten && r.Some? ==> s[r.value.errorPosition - 1] == args[r.value.errorPosition - 1 - (m.open + 1)];
    r
  }

  /** The checks over the call matches `ms`, in match order. */
  function CheckFunctionArgumentsIn(s: string, ms: seq<CallMatch>, asWritten: bool): Outcome
    requires WithinText(s, ms)
  {
    if ms == [] then Pass
    else match MatchError(s, ms[0], asWritten)
      case Some(e) => Fail(e)
      case None => CheckFunctionArgumentsIn(s, ms[1..], asWritten)
  }

  /** The validator with positions as the code computes them. */
  function ValidateAsWritten(s: string): Outcome {
    CheckFunctionArgumentsIn(s, CallMatches(s, 0), true)
  }

  /** The validator with positions taken from the group index alone. */
  function Validate(s: string): Outcome {
    CheckFunctionArgumentsIn(s, CallMatches(s, 0), false)
  }

  /** Every error reported points at an `=` of the input, inside the
      argument text of the call it is reported for. */
  lemma {:induction false} ErrorAtEquals(s: string, ms: seq<CallMatch>)
    requires WithinText(s, ms) && CheckFunctionArgumentsIn(s, ms, false).Fail?
    ensures var q := CheckFunctionArgumentsIn(s, ms, false).error.errorPosition - 1;
      0 <= q < |s| && s[q] == '='
  {
    assert ms[0] in ms;
    if MatchError(s, ms[0], false).None? {
      ErrorAtEquals(s, ms[1..]);
    }
  }

  /** `<=`, `>=` and `!=` are never flagged: an `=` after `<`, `>` or `!` and
      before anything but `=` starts no match. */
  lemma ComparisonsNotFlagged(args: string, k: nat)
    requires 0 < k < |args| && args[k] == '=' && args[k - 1] in {'<', '>', '!'}
    requires k + 1 == |args| || args[k + 1] != '='
    ensures !OperatorsValidator.EqualsAt(args, k)
  {
  }

  /** Moving the offset moves the reported position by as much and changes
      nothing else about whether there is an error. */
  lemma CallErrorShift(name: string, args: string, offset: nat, d: nat)
    ensures CallError(name, args, offset + d).Some? <==> CallError(name, args, offset).Some?
    ensures CallError(name, args, offset).Some? ==>
      CallError(name, args, offset + d).value.errorPosition == CallError(name, args, offset).value.errorPosition + d
  {
  }

  /** The code's arithmetic finds an error in the same calls as the group
      index alone, and reports it further on by the index of the call's match. */
  lemma MatchErrorShifted(s: string, m: CallMatch)
    requires m.start <= m.nameEnd <= m.open < m.close <= |s|
    ensures MatchError(s, m, true).Some? <==> MatchError(s, m, false).Some?
    ensures MatchError(s, m, false).Some? ==>
      MatchError(s, m, true).value.errorPosition == MatchError(s, m, false).value.errorPosition + m.start
  {
    CallErrorShift(s[m.start..m.nameEnd], s[m.open + 1..m.close], m.open + 1, m.start);
    assert ArgumentsOffset(m, true) == m.open + 1 + m.start;
  }

  /** The index of the first call match with an error, or the number of
      matches when none has. */
  function FirstMatchError(s: string, ms: seq<CallMatch>): (k: nat)
    requires WithinText(s, ms)
    ensures k <= |ms|
    decreases |ms|
  {
    if ms == [] then 0
    else
      assert ms[0] in ms;
      if MatchError(s, ms[0], false).Some? then 0 else 1 + FirstMatchError(s, ms[1..])
  }

  /** Either way of computing positions, the checks fail exactly at the first
      call with an error, with that call's error. */
  lemma {:induction false} ChecksAtFirstError(s: string, ms: seq<CallMatch>, asWritten: bool)
    requires WithinText(s, ms)
    ensures var k := FirstMatchError(s, ms);
      && (k == |ms| ==> CheckFunctionArgumentsIn(s, ms, asWritten) == Pass)
      && (k < |ms| ==> MatchError(s, ms[k], asWritten).Some?
                       && CheckFunctionArgumentsIn(s, ms, asWritten) == Fail(MatchError(s, ms[k], asWritten).value))
    decreases |ms|
  {
    if ms != [] {
      assert ms[0] in ms;
      MatchErrorShifted(s, ms[0]);
      if MatchError(s, ms[0], false).None? {
        ChecksAtFirstError(s, ms[1..], asWritten);
        FirstMatchErrorStep(s, ms);
      }
    }
  }

  lemma FirstMatchErrorStep(s: string, ms: seq<CallMatch>)
    requires WithinText(s, ms) && ms != [] && ms[0].start <= ms[0].nameEnd <= ms[0].open < ms[0].close <= |s|
    requires MatchError(s, ms[0], false).None? && MatchError(s, ms[0], true).None?
    ensures FirstMatchError(s, ms) == 1 + FirstMatchError(s, ms[1..])
    ensures FirstMatchError(s, ms) < |ms| ==> ms[FirstMatchError(s, ms)] == ms[1..][FirstMatchError(s, ms[1..])]
    ensures forall b :: CheckFunctionArgumentsIn(s, ms, b) == CheckFunctionArgumentsIn(s, ms[1..], b)
  {
  }

  /** So the code's validator fails on the same inputs as the one with the
      group index alone, and reports the same `=`, shifted by the index of
      the match of the call it stands in. */
  lemma AsWrittenShifted(s: string)
    ensures ValidateAsWritten(s).Pass? <==> Validate(s).Pass?
    ensures Validate(s).Pass? || Validate(s).Fail?
    ensures Validate(s).Fail? ==>
      var ms := CallMatches(s, 0);
      var k := FirstMatchError(s, ms);
      k < |ms| && ValidateAsWritten(s).Fail?
      && ValidateAsWritten(s).error.errorPosition == Validate(s).error.errorPosition + ms[k].start
  {
    var ms := CallMatches(s, 0);
    ChecksAtFirstError(s, ms, true);
    ChecksAtFirstError(s, ms, false);
    var k := FirstMatchError(s, ms);
    if k < |ms| {
      assert ms[k] in ms;
      MatchErrorShifted(s, ms[k]);
    }
  }

  const Example: string := "1 + max(a = 1, 2)"

  lemma CallMatchesOfExample()
    ensures CallMatchAt(Example, 0).None? && CallMatchAt(Example, 1).None?
    ensures CallMatchAt(Example, 2).None? && CallMatchAt(Example, 3).None?
    ensures CallMatchAt(Example, 4) == Some(CallMatch(4, 7, 7, 16))
  {
    var s := "1 + max(a = 1, 2)";
    assert NameEnd(s, 4) == 7;
    assert SkipWhiteSpace(s, 7) == 7;
    assert FirstCloser(s, 8) == FirstCloser(s, 15);
  }

  /** The error for the `max` call of the example, both ways. */
  lemma MatchErrorOfExample()
    ensures MatchError(Example, CallMatch(4, 7, 7, 16), true) == Some(ReportError(LoneEqualsMessage, 14))
    ensures MatchError(Example, CallMatch(4, 7, 7, 16), false) == Some(ReportError(LoneEqualsMessage, 10))
  {
    PartsOfExample();
    CallErrorOfExample(12);
    CallErrorOfExample(8);
  }

  lemma PartsOfExample()
    ensures Example[4..7] == "max" && Example[8..16] == "a = 1, 2"
    ensures Example[10] == '=' && Example[14] == ' '
  {
  }

  /** `a = 1, 2` in a call of `max`: the lone `=` at index 2 is reported. */
  lemma CallErrorOfExample(offset: nat)
    ensures CallError("max", "a = 1, 2", offset) == Some(ReportError(LoneEqualsMessage, offset + 2))
  {
    var args := "a = 1, 2";
    assert IsReserved("max") by { assert Lower("max") == "max"; }
    assert OperatorsValidator.LoneEqualsAt(args, 2) && OperatorsValidator.EqualsAt(args, 2);
    assert !OperatorsValidator.EqualsAt(args, 0) && !OperatorsValidator.EqualsAt(args, 1);
    assert FirstEqualsIn(args) == Some(2);
  }

  lemma MatchesOfExample()
    ensures CallMatches(Example, 0) == [CallMatch(4, 7, 7, 16)]
  {
    var s := Example;
    CallMatchesOfExample();
    NoCallMatchAt(s, 0);
    NoCallMatchAt(s, 1);
    NoCallMatchAt(s, 2);
    NoCallMatchAt(s, 3);
    CallMatchFirst(s, 4, CallMatch(4, 7, 7, 16));
  }

  /** With the code's arithmetic a call that does not start the input reports
      its `=` too far right: in `1 + max(a = 1, 2)` the `=` stands at index 10
      and the position reported is 15 instead of 11. */
  lemma AsWrittenPositionShifted(s: string)
    requires s == Example
    ensures ValidateAsWritten(s) == Fail(ReportError(LoneEqualsMessage, 14))
    ensures Validate(s) == Fail(ReportError(LoneEqualsMessage, 10))
    ensures s[10] == '=' && s[14] == ' '
  {
    PartsOfExample();
    MatchesOfExample();
    MatchErrorOfExample();
    var ms := [CallMatch(4, 7, 7, 16)];
    assert CheckFunctionArgumentsIn(s, ms, true) == Fail(ReportError(LoneEqualsMessage, 14));
    assert CheckFunctionArgumentsIn(s, ms, false) == Fail(ReportError(LoneEqualsMessage, 10));
  }

  /** `log` is not reserved, so `log(x = 1)` passes. */
  lemma LogNotChecked()
    ensures Validate("log(x = 1)") == Pass
  {
    var s := "log(x = 1)";
    assert NameEnd(s, 0) == 3;
    assert SkipWhiteSpace(s, 3) == 3;
    assert CallMatchAt(s, 0) == Some(CallMatch(0, 3, 3, 9));
    CallMatchFirst(s, 0, CallMatch(0, 3, 3, 9));
    assert !IsReserved("log") by { assert Lower("log") == "log"; }
    assert s[0..3] == "log";
  }
}
