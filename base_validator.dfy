/// What every validator shares: the reserved function names and the way an
/// error is reported, with a 1-based position both in the message and in the
/// exception.
module BaseValidator {
  import opened Text
  import opened Errors

  /** What a validator does with its input: returns normally, throws a
      `CalculatorException`, or lets another .NET exception escape. */
  datatype Outcome = Pass | Fail(error: CalcError) | Fault(message: string)

  /** The reserved names, in lower case; `log` and `fact` are not among them. */
  const ReservedFunctions: set<string> := {"cos", "sin", "sqrt", "min", "max", "if", "pow", "abs", "mean", "sum"}

  /** Membership in the reserved set under `StringComparer.OrdinalIgnoreCase`. */
  predicate IsReserved(name: string) { Lower(name) in ReservedFunctions }

  /** The text put before the position in every validator message. */
  const PositionPrefix: string := "\n(позиция "

  /** The exception a validator throws for an error at 0-based `errorIndex`:
      its position is one more, and the message ends with that same number. */
  function ReportError(message: string, errorIndex: nat): (e: CalcError)
    ensures e.errorPosition == errorIndex + 1
    ensures e.message == message + PositionPrefix + NatToString(e.errorPosition) + ")"
    ensures e.variablePositions.None?
  {
    WithPosition(message + PositionPrefix + NatToString(errorIndex + 1) + ")", errorIndex + 1)
  }

  /** The number printed in a reported message reads back as the position. */
  lemma ReportedPositionInMessage(message: string, errorIndex: nat)
    ensures var e := ReportError(message, errorIndex);
      var digits := e.message[|message| + |PositionPrefix|..|e.message| - 1];
      AllDigits(digits) && DigitsValue(digits) == e.errorPosition
  {
    var e := ReportError(message, errorIndex);
    var digits := e.message[|message| + |PositionPrefix|..|e.message| - 1];
    assert digits == NatToString(errorIndex + 1);
    NatToStringRoundTrip(errorIndex + 1);
  }

  /** Reserved-name lookup ignores case, and `log` and `fact` are not reserved. */
  lemma ReservedIgnoresCase(name: string)
    ensures IsReserved(name) <==> IsReserved(Lower(name))
    ensures !IsReserved("log") && !IsReserved("fact") && IsReserved("SQRT")
  {
    LowerIdempotent(name);
    assert Lower("log") == "log";
    assert Lower("fact") == "fact";
    assert Lower("SQRT") == "sqrt";
  }
}
