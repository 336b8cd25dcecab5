/// The commas validator: a comma outside brackets must stand between two
/// operand-like characters, and the argument text of a call may not begin or
/// end with a comma or hold two commas in a row.
module CommasValidator {
  import opened Wrappers
  import opened Text
  import opened Errors
  import opened Scanning
  import opened BaseValidator

  const TopLevelCommaMessage: string := "Недопустимое использование запятой вне скобок"

  const LeadingCommaMessage: string := "Запятая не может быть первым символом в аргументах функции"

  const TrailingCommaMessage: string := "Запятая не может быть последним символом в аргументах функции"

  const DoubleCommaMessage: string := "Не может быть двух запятых подряд"

  /** A comma at `i` outside brackets is rejected: it is the first character,
      or its predecessor is not a digit, `)`, `]` or `"`, or it has a successor
      that is not a digit, `(`, `[` or `"`. */
  predicate InvalidTopLevelComma(s: string, i: nat)
    requires i < |s|
  {
    (i == 0 || !(IsDigit(s[i - 1]) || s[i - 1] == ')' || s[i - 1] == ']' || s[i - 1] == '"'))
    || (i < |s| - 1 && !(IsDigit(s[i + 1]) || s[i + 1] == '(' || s[i + 1] == '[' || s[i + 1] == '"'))
  }

  /** The outside-brackets scan from index `i` on, with the quote flag and bracket
      level reached so far. Inside quotes neither the level nor commas are looked at. */
  function TopLevelFrom(s: string, i: nat, insideQuotes: bool, level: int): Outcome
    requires i <= |s|
    decreases |s| - i
  {
    if i == |s| then Pass
    else
      var c := s[i];
      var quoted := if c == '"' then !insideQuotes else insideQuotes;
      if quoted then TopLevelFrom(s, i + 1, quoted, level)
      else
        var newLevel := if c == '(' || c == '[' then level + 1 else if IsCloser(c) then level - 1 else level;
        if c == ',' && newLevel == 0 && InvalidTopLevelComma(s, i) then Fail(ReportError(TopLevelCommaMessage, i))
        else TopLevelFrom(s, i + 1, quoted, newLevel)
  }

  function CheckTopLevelCommas(s: string): Outcome {
    TopLevelFrom(s, 0, false, 0)
  }

  /** A top-level failure always points at a comma outside quotes. */
  lemma {:induction false} TopLevelErrorAtComma(s: string, i: nat, insideQuotes: bool, level: int)
    requires i <= |s| && insideQuotes == InQuotes(s, i)
    requires TopLevelFrom(s, i, insideQuotes, level).Fail?
    ensures var p := TopLevelFrom(s, i, insideQuotes, level).error.errorPosition - 1;
      i <= p < |s| && s[p] == ',' && !InQuotes(s, p) && InvalidTopLevelComma(s, p)
    decreases |s| - i
  {
    var c := s[i];
    assert QuoteCount(s, i + 1) == QuoteCount(s, i) + (if c == '"' then 1 else 0);
    var quoted := if c == '"' then !insideQuotes else insideQuotes;
    var newLevel := if c == '(' || c == '[' then level + 1 else if IsCloser(c) then level - 1 else level;
    if quoted {
      TopLevelErrorAtComma(s, i + 1, quoted, level);
    } else if !(c == ',' && newLevel == 0 && InvalidTopLevelComma(s, i)) {
      TopLevelErrorAtComma(s, i + 1, quoted, newLevel);
    }
  }

  /** Commas at `k` and `k + 1` of `args`. */
  predicate DoubleCommaAt(args: string, k: nat) {
    k + 1 < |args| && args[k] == ',' && args[k + 1] == ','
  }

  /** The first index `k` of `args` with commas at `k` and `k + 1`. */
  function FirstDoubleComma(args: string): (r: Option<nat>)
    ensures r.Some? ==> DoubleCommaAt(args, r.value)
    ensures r.Some? ==> forall k :: 0 <= k < r.value ==> !DoubleCommaAt(args, k)
    ensures r.None? ==> forall k :: 0 <= k < |args| ==> !DoubleCommaAt(args, k)
  {
    var upto := if |args| == 0 then 0 else |args| - 1;
    var double := (k: nat) => DoubleCommaAt(args, k);
    match FirstIndex(0, upto, double)
    case Some(k) =>
      assert forall j :: 0 <= j < k ==> double(j) == DoubleCommaAt(args, j);
      Some(k)
    case None =>
      assert forall j :: 0 <= j < upto ==> double(j) == DoubleCommaAt(args, j);
      None
  }

  /** The loop over the argument text that looks for two commas in a row. */
  method DoubleCommaScan(args: string) returns (r: Option<nat>)
    ensures r == FirstDoubleComma(args)
  {
    var i := 0;
    while i < |args| - 1
      invariant 0 <= i <= (if |args| == 0 then 0 else |args| - 1)
      invariant forall k :: 0 <= k < i ==> !DoubleCommaAt(args, k)
    {
      if args[i] == ',' && args[i + 1] == ',' {
        FirstDoubleCommaIs(args, i);
        return Some(i);
      }
      i := i + 1;
    }
    return None;
  }

  lemma FirstDoubleCommaIs(args: string, i: nat)
    requires DoubleCommaAt(args, i)
    requires forall k :: 0 <= k < i ==> !DoubleCommaAt(args, k)
    ensures FirstDoubleComma(args) == Some(i)
  {
  }

  /** The checks on one call's argument text, whose first character stands at
      `startPos` in the reported numbering. */
  function ArgumentsError(args: string, startPos: nat): (r: Option<CalcError>)
    ensures r.Some? && StartsWith(args, ",") ==> r.value == ReportError(LeadingCommaMessage, startPos)
    ensures r.Some? ==> startPos < r.value.errorPosition <= startPos + |args|
                        && args[r.value.errorPosition - 1 - startPos] == ','
    ensures r.None? <==> !StartsWith(args, ",") && !EndsWith(args, ",") && FirstDoubleComma(args).None?
  {
    if StartsWith(args, ",") then Some(ReportError(LeadingCommaMessage, startPos))
    else if EndsWith(args, ",") then Some(ReportError(TrailingCommaMessage, startPos + |args| - 1))
    else match FirstDoubleComma(args)
      case Some(k) => Some(ReportError(DoubleCommaMessage, startPos + k))
      case None => None
  }

  /** Where the arguments of call match `m` are taken to start. The code adds the
      match index to the group index, which is already absolute; `asWritten`
      selects that sum, otherwise the group index alone is used. */
  function ArgumentsStart(m: CallMatch, asWritten: bool): nat {
    if asWritten then m.start + m.open + 1 else m.open + 1
  }

  /** The checks on the argument text of call match `m`, between its brackets. */
  function CallArgumentsError(s: string, m: CallMatch, asWritten: bool): Option<CalcError>
    requires m.open < m.close <= |s|
  {
    ArgumentsError(s[m.open + 1..m.close], ArgumentsStart(m, asWritten))
  }

  /** The argument checks over the call matches `ms`, in match order. */
  function ArgumentCommasIn(s: string, ms: seq<CallMatch>, asWritten: bool): Outcome
    requires WithinText(s, ms)
  {
    if ms == [] then Pass
    else match CallArgumentsError(s, ms[0], asWritten)
      case Some(e) => Fail(e)
      case None => ArgumentCommasIn(s, ms[1..], asWritten)
  }

  /** `CheckForInvalidCommas`: the whole outside-brackets scan, then the argument checks. */
  function CheckForInvalidCommasWith(s: string, asWritten: bool): Outcome {
    if CheckTopLevelCommas(s).Pass? then ArgumentCommasIn(s, CallMatches(s, 0), asWritten) else CheckTopLevelCommas(s)
  }

  /** The validator with argument positions as the code computes them. */
  function ValidateAsWritten(s: string): Outcome {
    CheckForInvalidCommasWith(s, true)
  }

  /** The validator with argument positions taken from the group index alone. */
  function Validate(s: string): Outcome {
    CheckForInvalidCommasWith(s, false)
  }

  /** The outside-brackets scan: one pass with a quote flag and a bracket level. */
  method TopLevelScan(s: string) returns (r: Outcome)
    ensures r == CheckTopLevelCommas(s)
  {
    var insideQuotes := false;
    var bracketLevel := 0;
    var i := 0;
    while i < |s|
      invariant 0 <= i <= |s|
      invariant TopLevelFrom(s, i, insideQuotes, bracketLevel) == CheckTopLevelCommas(s)
    {
      var c := s[i];
      if c == '"' {
        insideQuotes := !insideQuotes;
      }
      if !insideQuotes {
        if c == '(' || c == '[' {
          bracketLevel := bracketLevel + 1;
        } else if c == ')' || c == ']' {
          bracketLevel := bracketLevel - 1;
        }
        if c == ',' && bracketLevel == 0 && InvalidTopLevelComma(s, i) {
          return Fail(ReportError(TopLevelCommaMessage, i));
        }
      }
      i := i + 1;
    }
    return Pass;
  }

  /** The checks on one call's argument text, with the inner loop for double commas. */
  method CheckArguments(args: string, startPos: nat) returns (r: Option<CalcError>)
    ensures r == ArgumentsError(args, startPos)
  {
    if StartsWith(args, ",") {
      return Some(ReportError(LeadingCommaMessage, startPos));
    }
    if EndsWith(args, ",") {
      return Some(ReportError(TrailingCommaMessage, startPos + |args| - 1));
    }
    var double := DoubleCommaScan(args);
    if double.Some? {
      return Some(ReportError(DoubleCommaMessage, startPos + double.value));
    }
    return None;
  }

  /** The argument checks on the call matches of the whole text. */
  method ArgumentCommasScan(s: string) returns (r: Outcome)
    ensures r == ArgumentCommasIn(s, CallMatches(s, 0), true)
  {
    r := ArgumentChecksLoop(s, CallMatches(s, 0));
  }

  /** The loop over the call matches, in order, stopping at the first error. */
  method ArgumentChecksLoop(s: string, matches: seq<CallMatch>) returns (r: Outcome)
    requires WithinText(s, matches)
    ensures r == ArgumentCommasIn(s, matches, true)
  {
    var i := 0;
    assert matches[0..] == matches;
    while i < |matches|
      invariant i <= |matches|
      invariant ArgumentCommasIn(s, matches[i..], true) == ArgumentCommasIn(s, matches, true)
    {
      var e := CheckCallArguments(s, matches, i);
      if e.Some? {
        return Fail(e.value);
      }
      i := i + 1;
    }
    assert matches[i..] == [];
    return Pass;
  }

  /** The checks on the argument text of the `i`-th match. */
  method CheckCallArguments(s: string, matches: seq<CallMatch>, i: nat) returns (e: Option<CalcError>)
    requires WithinText(s, matches) && i < |matches|
    ensures e.Some? ==> ArgumentCommasIn(s, matches[i..], true) == Fail(e.value)
    ensures e.None? ==> ArgumentCommasIn(s, matches[i..], true) == ArgumentCommasIn(s, matches[i + 1..], true)
  {
    ArgumentCommasStep(s, matches, i, true);
    e := CheckArguments(s[matches[i].open + 1..matches[i].close], ArgumentsStart(matches[i], true));
  }

  /** One match of the argument checks: its error, or the checks on the matches after it. */
  lemma ArgumentCommasStep(s: string, ms: seq<CallMatch>, i: nat, asWritten: bool)
    requires WithinText(s, ms) && i < |ms|
    ensures ms[i].open < ms[i].close <= |s|
    ensures var e := ArgumentsError(s[ms[i].open + 1..ms[i].close], ArgumentsStart(ms[i], asWritten));
      && (e.Some? ==> ArgumentCommasIn(s, ms[i..], asWritten) == Fail(e.value))
      && (e.None? ==> ArgumentCommasIn(s, ms[i..], asWritten) == ArgumentCommasIn(s, ms[i + 1..], asWritten))
  {
    assert ms[i] in ms;
    assert ms[i..][0] == ms[i];
    assert ms[i..][1..] == ms[i + 1..];
  }

  /** The validator: the whole outside-brackets scan, then the loop over the call matches. */
  method CheckForInvalidCommas(s: string) returns (r: Outcome)
    ensures r == ValidateAsWritten(s)
  {
    r := TopLevelScan(s);
    if r.Pass? {
      r := ArgumentCommasScan(s);
    }
  }

  /** An error in the argument text of a call points at a comma of the input. */
  lemma CallErrorAtComma(s: string, m: CallMatch, e: CalcError)
    requires m.open < m.close < |s| && CallArgumentsError(s, m, false) == Some(e)
    ensures m.open + 1 < e.errorPosition <= m.close && s[e.errorPosition - 1] == ','
  {
    var args := s[m.open + 1..m.close];
    assert s[e.errorPosition - 1] == args[e.errorPosition - 1 - (m.open + 1)];
  }

  /** Every error the argument checks report points at a comma of the input. */
  lemma {:induction false} ArgumentErrorAtComma(s: string, ms: seq<CallMatch>)
    requires WithinText(s, ms) && ArgumentCommasIn(s, ms, false).Fail?
    ensures 0 < ArgumentCommasIn(s, ms, false).error.errorPosition <= |s|
    ensures s[ArgumentCommasIn(s, ms, false).error.errorPosition - 1] == ','
  {
    assert ms[0] in ms;
    match CallArgumentsError(s, ms[0], false)
    case Some(e) =>
      CallErrorAtComma(s, ms[0], e);
    case None =>
      ArgumentErrorAtComma(s, ms[1..]);
  }

  lemma ReportedPositionIsComma(s: string)
    requires Validate(s).Fail?
    ensures 1 <= Validate(s).error.errorPosition <= |s| && s[Validate(s).error.errorPosition - 1] == ','
  {
    if CheckTopLevelCommas(s).Fail? {
      TopLevelErrorAtComma(s, 0, false, 0);
    } else {
      ArgumentErrorAtComma(s, CallMatches(s, 0));
    }
  }

  /** Moving the start of the argument text moves the reported position by
      as much and changes nothing else about whether there is an error. */
  lemma ArgumentsErrorShift(args: string, startPos: nat, d: nat)
    ensures ArgumentsError(args, startPos + d).Some? <==> ArgumentsError(args, startPos).Some?
    ensures ArgumentsError(args, startPos).Some? ==>
      ArgumentsError(args, startPos + d).value.errorPosition == ArgumentsError(args, startPos).value.errorPosition + d
  {
  }

  /** The code's arithmetic finds an error in the same calls as the group
      index alone, and reports it further on by the index of the call's match. */
  lemma CallErrorShifted(s: string, m: CallMatch)
    requires m.open < m.close <= |s|
    ensures CallArgumentsError(s, m, true).Some? <==> CallArgumentsError(s, m, false).Some?
    ensures CallArgumentsError(s, m, false).Some? ==>
      CallArgumentsError(s, m, true).value.errorPosition == CallArgumentsError(s, m, false).value.errorPosition + m.start
  {
    ArgumentsErrorShift(s[m.open + 1..m.close], m.open + 1, m.start);
    assert ArgumentsStart(m, true) == m.open + 1 + m.start;
  }

  /** The index of the first call match whose argument text has an error, or
      the number of matches when none has. */
  function FirstCallError(s: string, ms: seq<CallMatch>): (k: nat)
    requires WithinText(s, ms)
    ensures k <= |ms|
    decreases |ms|
  {
    if ms == [] then 0
    else
      assert ms[0] in ms;
      if CallArgumentsError(s, ms[0], false).Some? then 0 else 1 + FirstCallError(s, ms[1..])
  }

  /** Either way of computing positions, the argument checks fail exactly at
      the first call with an error, with that call's error. */
  lemma {:induction false} ArgumentCommasAtFirstError(s: string, ms: seq<CallMatch>, asWritten: bool)
    requires WithinText(s, ms)
    ensures var k := FirstCallError(s, ms);
      && (k == |ms| ==> ArgumentCommasIn(s, ms, asWritten) == Pass)
      && (k < |ms| ==> CallArgumentsError(s, ms[k], asWritten).Some?
                       && ArgumentCommasIn(s, ms, asWritten) == Fail(CallArgumentsError(s, ms[k], asWritten).value))
    decreases |ms|
  {
    if ms != [] {
      assert ms[0] in ms;
      CallErrorShifted(s, ms[0]);
      if CallArgumentsError(s, ms[0], false).None? {
        ArgumentCommasAtFirstError(s, ms[1..], asWritten);
        FirstCallErrorStep(s, ms);
      }
    }
  }

  lemma FirstCallErrorStep(s: string, ms: seq<CallMatch>)
    requires WithinText(s, ms) && ms != [] && ms[0].open < ms[0].close <= |s|
    requires CallArgumentsError(s, ms[0], false).None? && CallArgumentsError(s, ms[0], true).None?
    ensures FirstCallError(s, ms) == 1 + FirstCallError(s, ms[1..])
    ensures FirstCallError(s, ms) < |ms| ==> ms[FirstCallError(s, ms)] == ms[1..][FirstCallError(s, ms[1..])]
    ensures forall b :: ArgumentCommasIn(s, ms, b) == ArgumentCommasIn(s, ms[1..], b)
  {
  }

  /** The argument checks fail on the same matches either way, and the code's
      arithmetic reports the error further on by the index of the failing
      call's match. */
  lemma ArgumentChecksShifted(s: string, ms: seq<CallMatch>)
    requires WithinText(s, ms)
    ensures ArgumentCommasIn(s, ms, true).Pass? <==> ArgumentCommasIn(s, ms, false).Pass?
    ensures ArgumentCommasIn(s, ms, false).Fail? ==>
      var k := FirstCallError(s, ms);
      k < |ms| && ArgumentCommasIn(s, ms, true).Fail?
      && ArgumentCommasIn(s, ms, true).error.errorPosition == ArgumentCommasIn(s, ms, false).error.errorPosition + ms[k].start
  {
    ArgumentCommasAtFirstError(s, ms, true);
    ArgumentCommasAtFirstError(s, ms, false);
    var k := FirstCallError(s, ms);
    if k < |ms| {
      assert ms[k] in ms;
      CallErrorShifted(s, ms[k]);
    }
  }

  /** So the code's commas validator fails on the same inputs as the one with
      the group index alone, and reports the same comma, shifted by the index
      of the match of the call it stands in. */
  lemma AsWrittenShifted(s: string)
    ensures ValidateAsWritten(s).Pass? <==> Validate(s).Pass?
    ensures CheckTopLevelCommas(s).Fail? ==> ValidateAsWritten(s) == Validate(s)
    ensures CheckTopLevelCommas(s).Pass? && Validate(s).Fail? ==>
      var ms := CallMatches(s, 0);
      var k := FirstCallError(s, ms);
      k < |ms| && ValidateAsWritten(s).Fail?
      && ValidateAsWritten(s).error.errorPosition == Validate(s).error.errorPosition + ms[k].start
  {
    ArgumentChecksShifted(s, CallMatches(s, 0));
  }

  /** `max(1,,2)` reports the double comma at position 6. */
  lemma DoubleCommaExample()
    ensures Validate("max(1,,2)") == Fail(ReportError(DoubleCommaMessage, 5))
  {
    var s := "max(1,,2)";
    assert TopLevelFrom(s, 0, false, 0) == TopLevelFrom(s, 4, false, 1);
    assert CallMatchAt(s, 0) == Some(CallMatch(0, 3, 3, 8)) by {
      assert NameEnd(s, 0) == 3;
      assert SkipWhiteSpace(s, 3) == 3;
    }
    CallMatchFirst(s, 0, CallMatch(0, 3, 3, 8));
    assert s[4..8] == "1,,2";
    assert FirstDoubleComma("1,,2") == Some(1) by { FirstDoubleCommaIs("1,,2", 1); }
  }

  /** `sum(1,)` reports the trailing comma at position 6. */
  lemma TrailingCommaExample()
    ensures Validate("sum(1,)") == Fail(ReportError(TrailingCommaMessage, 5))
  {
    var s := "sum(1,)";
    assert TopLevelFrom(s, 0, false, 0) == TopLevelFrom(s, 4, false, 1);
    assert CallMatchAt(s, 0) == Some(CallMatch(0, 3, 3, 6)) by {
      assert NameEnd(s, 0) == 3;
      assert SkipWhiteSpace(s, 3) == 3;
    }
    CallMatchFirst(s, 0, CallMatch(0, 3, 3, 6));
    assert s[4..6] == "1,";
  }

  /** `2 , 3` reports the outside-brackets comma at position 3. */
  lemma TopLevelCommaExample()
    ensures Validate("2 , 3") == Fail(ReportError(TopLevelCommaMessage, 2))
  {
    var s := "2 , 3";
    assert InvalidTopLevelComma(s, 2) by { assert s[1] == ' '; }
    assert TopLevelFrom(s, 2, false, 0) == Fail(ReportError(TopLevelCommaMessage, 2));
    assert TopLevelFrom(s, 0, false, 0) == TopLevelFrom(s, 2, false, 0);
  }

  const Example: string := "x + max(1,,2)"

  /** The call matches of `x + max(1,,2)`: none before `max`, whose arguments are `1,,2`. */
  lemma CallMatchesOfExample()
    ensures CallMatchAt(Example, 0).None? && CallMatchAt(Example, 1).None?
    ensures CallMatchAt(Example, 2).None? && CallMatchAt(Example, 3).None?
    ensures CallMatchAt(Example, 4) == Some(CallMatch(4, 7, 7, 12))
  {
    var s := "x + max(1,,2)";
    assert NameEnd(s, 0) == 1;
    assert SkipWhiteSpace(s, 1) == 2;
    assert NameEnd(s, 4) == 7;
    assert SkipWhiteSpace(s, 7) == 7;
  }

  /** `max(1,,2)` is the one call match of the example. */
  lemma MatchesOfExample()
    ensures CallMatches(Example, 0) == [CallMatch(4, 7, 7, 12)]
  {
    var s := Example;
    CallMatchesOfExample();
    NoCallMatchAt(s, 0);
    NoCallMatchAt(s, 1);
    NoCallMatchAt(s, 2);
    NoCallMatchAt(s, 3);
    CallMatchFirst(s, 4, CallMatch(4, 7, 7, 12));
  }

  /** The argument checks of `max(1,,2)` in the example, both ways. */
  lemma ErrorsOfExample()
    ensures CallArgumentsError(Example, CallMatch(4, 7, 7, 12), true) == Some(ReportError(DoubleCommaMessage, 13))
    ensures CallArgumentsError(Example, CallMatch(4, 7, 7, 12), false) == Some(ReportError(DoubleCommaMessage, 9))
  {
    assert Example[8..12] == "1,,2";
    FirstDoubleCommaIs("1,,2", 1);
  }

  lemma TopLevelOfExample()
    ensures CheckTopLevelCommas(Example) == Pass
  {
    var s := "x + max(1,,2)";
    assert TopLevelFrom(s, 0, false, 0) == TopLevelFrom(s, 8, false, 1);
  }

  /** With the code's arithmetic, a call that does not start the input reports a
      position past its comma: in `x + max(1,,2)` (13 characters) the double comma
      stands at index 9, but the position reported is 14. */
  lemma AsWrittenPositionPastInput(s: string)
    requires s == Example
    ensures ValidateAsWritten(s) == Fail(ReportError(DoubleCommaMessage, 13))
    ensures Validate(s) == Fail(ReportError(DoubleCommaMessage, 9))
    ensures |s| == 13 && s[9] == ','
  {
    TopLevelOfExample();
    MatchesOfExample();
    ErrorsOfExample();
    var ms := [CallMatch(4, 7, 7, 12)];
    assert ArgumentCommasIn(s, ms, true) == Fail(ReportError(DoubleCommaMessage, 13));
    assert ArgumentCommasIn(s, ms, false) == Fail(ReportError(DoubleCommaMessage, 9));
  }
}
