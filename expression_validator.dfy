/// The composite validator: eleven validators applied in a fixed order, the
/// first error stopping the rest.
module ExpressionValidator {
  import opened BaseValidator
  import opened NumberText
  import BracketsValidator
  import QuotesValidator
  import OperatorsValidator
  import CommasValidator
  import FunctionsValidator
  import VariablesValidator
  import NumbersValidator
  import MissingOperandsValidator
  import SqrtValidator
  import FunctionArgumentsValidator
  import FunctionSpacingValidator

  datatype ValidatorKind =
    | Brackets | Quotes | Operators | Commas | Functions | Variables
    | Numbers | MissingOperands | Sqrt | FunctionArguments | FunctionSpacing

  /** The order the constructor lists the validators in. */
  const StandardOrder: seq<ValidatorKind> :=
    [Brackets, Quotes, Operators, Commas, Functions, Variables,
     Numbers, MissingOperands, Sqrt, FunctionArguments, FunctionSpacing]

  /** One validator's verdict on `s`, with the positions each validator
      computes, including the commas and function-arguments offsets that count
      the match index twice and the variables positions in the rewritten text. */
  function Run(num: Conversions, kind: ValidatorKind, s: string): Outcome {
    match kind
    case Brackets => BracketsValidator.Validate(s)
    case Quotes => QuotesValidator.Validate(s)
    case Operators => OperatorsValidator.Validate(s)
    case Commas => CommasValidator.ValidateAsWritten(s)
    case Functions => FunctionsValidator.Validate(num, s)
    case Variables => VariablesValidator.ValidateAsWritten(s)
    case Numbers => NumbersValidator.Validate(s)
    case MissingOperands => MissingOperandsValidator.Validate(s)
    case Sqrt => SqrtValidator.Validate(s)
    case FunctionArguments => FunctionArgumentsValidator.ValidateAsWritten(s)
    case FunctionSpacing => FunctionSpacingValidator.Validate(s)
  }

  /** The verdicts of the validators of `kinds` on `s`, in order. */
  function Verdicts(num: Conversions, kinds: seq<ValidatorKind>, s: string): (vs: seq<Outcome>)
    ensures |vs| == |kinds| && forall i :: 0 <= i < |kinds| ==> vs[i] == Run(num, kinds[i], s)
  {
    seq(|kinds|, i requires 0 <= i < |kinds| => Run(num, kinds[i], s))
  }

  /** The first verdict that is not a pass, or a pass when there is none. */
  function FirstNonPass(vs: seq<Outcome>): Outcome
    decreases |vs|
  {
    if |vs| == 0 then Pass
    else if vs[0].Pass? then FirstNonPass(vs[1..])
    else vs[0]
  }

  /** The validators of `kinds` in order: the first that does not pass decides. */
  function RunAll(num: Conversions, kinds: seq<ValidatorKind>, s: string): Outcome {
    FirstNonPass(Verdicts(num, kinds, s))
  }

  lemma {:induction false} FirstNonPassPasses(vs: seq<Outcome>)
    ensures FirstNonPass(vs).Pass? <==> forall i :: 0 <= i < |vs| ==> vs[i].Pass?
    decreases |vs|
  {
    if |vs| > 0 {
      FirstNonPassPasses(vs[1..]);
      assert forall i :: 1 <= i < |vs| ==> vs[i] == vs[1..][i - 1];
    }
  }

  lemma {:induction false} FirstNonPassIsFirst(vs: seq<Outcome>)
    requires !FirstNonPass(vs).Pass?
    ensures exists k :: 0 <= k < |vs| && (forall i :: 0 <= i < k ==> vs[i].Pass?) && FirstNonPass(vs) == vs[k]
    decreases |vs|
  {
    if vs[0].Pass? {
      FirstNonPassIsFirst(vs[1..]);
      var k :| 0 <= k < |vs| - 1 && (forall i :: 0 <= i < k ==> vs[1..][i].Pass?) && FirstNonPass(vs[1..]) == vs[1..][k];
      assert forall i :: 1 <= i < k + 1 ==> vs[i] == vs[1..][i - 1];
      assert vs[k + 1] == vs[1..][k];
    } else {
      assert FirstNonPass(vs) == vs[0];
    }
  }

  /** The outcome is a pass exactly when every validator passes. */
  lemma RunAllPasses(num: Conversions, kinds: seq<ValidatorKind>, s: string)
    ensures RunAll(num, kinds, s).Pass? <==> forall i :: 0 <= i < |kinds| ==> Run(num, kinds[i], s).Pass?
  {
    FirstNonPassPasses(Verdicts(num, kinds, s));
  }

  /** Otherwise the outcome is the verdict of the first validator that does
      not pass, all before it having passed. */
  lemma RunAllFirstFailure(num: Conversions, kinds: seq<ValidatorKind>, s: string)
    requires !RunAll(num, kinds, s).Pass?
    ensures exists k :: (0 <= k < |kinds|
      && (forall i :: 0 <= i < k ==> Run(num, kinds[i], s).Pass?)
      && RunAll(num, kinds, s) == Run(num, kinds[k], s))
  {
    var vs := Verdicts(num, kinds, s);
    FirstNonPassIsFirst(vs);
    var k :| 0 <= k < |vs| && (forall i :: 0 <= i < k ==> vs[i].Pass?) && FirstNonPass(vs) == vs[k];
    assert RunAll(num, kinds, s) == Run(num, kinds[k], s);
  }

  /** `ExpressionValidator`: the list of validators, filled once. */
  class ExpressionValidator {
    const validators: seq<ValidatorKind>

    constructor ()
      ensures validators == StandardOrder
    {
      validators := StandardOrder;
    }

    /** Runs the validators in order; the first error ends the run. */
    method Validate(num: Conversions, input: string) returns (r: Outcome)
      ensures r == RunAll(num, validators, input)
    {
      ghost var vs := Verdicts(num, validators, input);
      var i := 0;
      while i < |validators|
        invariant i <= |validators|
        invariant RunAll(num, validators, input) == FirstNonPass(vs[i..])
        decreases |validators| - i
      {
        var verdict := Run(num, validators[i], input);
        assert vs[i..][1..] == vs[i + 1..];
        if !verdict.Pass? {
          return verdict;
        }
        i := i + 1;
      }
      return Pass;
    }
  }

  /** The brackets run first: for `sum(1, 2` the unclosed `(` at position 4 is
      reported, whatever the later validators would say. */
  lemma BracketsReportedFirst(num: Conversions)
    ensures RunAll(num, StandardOrder, "sum(1, 2")
      == Fail(ReportError(BracketsValidator.UnclosedMessage('('), 3))
  {
    BracketsValidator.UnclosedCallExample();
  }
}
