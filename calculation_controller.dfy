/// `CalculationController`: substitution, validation of the substituted
/// text, parsing and running, with every exception that is not a
/// `CalculatorException` turned into one at position 0.
module CalculationController {
  import opened Wrappers
  import opened Values
  import opened Errors
  import opened NumberText
  import opened Expressions
  import opened BaseValidator
  import opened ExpressionValidator
  import VariableExtractor
  import VariableSubstitutor
  import Syntax

  /** What the model leaves to the platform: number text, the numeric
      library, Sprache's failure description of a text and the message of
      each .NET factory-method exception. */
  datatype Platform = Platform(
    num: Conversions,
    math: MathLib,
    parseFailure: string -> string,
    libraryMessage: LibraryFault -> string)

  const ErrorPrefix: string := "Ошибка: "
  const WrongResultMessage: string := "Неверный тип результата."

  /** The message of the `TargetInvocationException` that `DynamicInvoke`
      wraps around whatever the compiled expression throws. */
  const InvocationMessage: string := "Exception has been thrown by the target of an invocation."

  /** The second `catch`: any other exception becomes a `CalculatorException`
      at position 0 whose message is the original one after the prefix. */
  function Translated(message: string): (e: CalcError)
    ensures e.errorPosition == 0 && e.variablePositions.None?
    ensures |e.message| == |ErrorPrefix| + |message| && e.message[..|ErrorPrefix|] == ErrorPrefix
    ensures e.message[|ErrorPrefix|..] == message
  {
    WithPosition(ErrorPrefix + message, 0)
  }

  /** What the controller reports for an exception raised while the tree is built. */
  function BuildFailure(pf: Platform, e: BuildError): CalcError {
    match e
    case Calc(c) => c
    case Raised(m) => Translated(m)
    case Library(f) => Translated(pf.libraryMessage(f))
  }

  /** `Calculate`: the result array, or the `CalculatorException` it throws. */
  function Calculated(pf: Platform, validators: seq<ValidatorKind>, input: string,
                      scalars: VariableSubstitutor.ScalarTable, vectors: VariableSubstitutor.VectorTable): Result<seq<real>, CalcError>
  {
    match VariableSubstitutor.Substituted(pf.num, input, scalars, vectors)
    case Err(m) => Err(Translated(m))
    case Ok(text) =>
      match RunAll(pf.num, validators, text)
      case Fail(e) => Err(e)
      case Fault(m) => Err(Translated(m))
      case Pass =>
        match Syntax.Parse(text, pf.parseFailure)
        case Err(e) => Err(BuildFailure(pf, e))
        case Ok(body) =>
          match Eval(pf.math, body)
          case Err(_) => Err(Translated(InvocationMessage))
          case Ok(Vector(xs)) => Ok(xs)
          case Ok(Scalar(x)) => Ok([x])
          case Ok(Boolean(_)) => Err(WithPosition(WrongResultMessage))
  }

  class CalculationController {
    const validator: ExpressionValidator
    const platform: Platform

    constructor (validator: ExpressionValidator, platform: Platform)
      ensures this.validator == validator && this.platform == platform
    {
      this.validator := validator;
      this.platform := platform;
    }

    /** `GetVariables`: the extractor's names for the text as typed. */
    method GetVariables(input: string) returns (r: seq<string>)
      ensures r == VariableExtractor.Names(VariableExtractor.Variables(platform.num, input))
    {
      r := VariableExtractor.ExtractVariables(platform.num, input);
    }

    /** `GetVariablesWithPositions`: the extractor's positions for the text as typed. */
    method GetVariablesWithPositions(input: string) returns (r: VariableExtractor.Table<(int, int)>)
      ensures r == VariableExtractor.VariablePositions(platform.num, input)
    {
      r := VariableExtractor.ExtractVariablesWithPositions(platform.num, input);
    }

    /** `ValidateExpression`: the validator's verdict. */
    method ValidateExpression(input: string) returns (r: Outcome)
      ensures r == RunAll(platform.num, validator.validators, input)
    {
      r := validator.Validate(platform.num, input);
    }

    method Calculate(input: string, scalars: VariableSubstitutor.ScalarTable, vectors: VariableSubstitutor.VectorTable)
      returns (r: Result<seq<real>, CalcError>)
      ensures r == Calculated(platform, validator.validators, input, scalars, vectors)
    {
      var substituted := VariableSubstitutor.Substitute(platform.num, input, scalars, vectors);
      if substituted.Err? {
        return Err(Translated(substituted.error));
      }
      var text := substituted.value;
      var verdict := ValidateExpression(text);
      match verdict
      case Fail(e) => return Err(e);
      case Fault(m) => return Err(Translated(m));
      case Pass =>
      var parsed := Syntax.Parse(text, platform.parseFailure);
      if parsed.Err? {
        return Err(BuildFailure(platform, parsed.error));
      }
      var raw := Eval(platform.math, parsed.value);
      if raw.Err? {
        return Err(Translated(InvocationMessage));
      }
      match raw.value
      case Vector(xs) => r := Ok(xs);
      case Scalar(x) => r := Ok([x]);
      case Boolean(_) => r := Err(WithPosition(WrongResultMessage));
    }
  }

  // ---------------------------------------------------------- properties

  /** A result is the value of the parsed substituted text, a scalar as a
      one-element array and a vector as it is. */
  lemma ResultIsTheValue(pf: Platform, validators: seq<ValidatorKind>, input: string,
                         scalars: VariableSubstitutor.ScalarTable, vectors: VariableSubstitutor.VectorTable)
    requires Calculated(pf, validators, input, scalars, vectors).Ok?
    ensures var text := VariableSubstitutor.Substituted(pf.num, input, scalars, vectors);
      && text.Ok?
      && RunAll(pf.num, validators, text.value).Pass?
      && Syntax.Parse(text.value, pf.parseFailure).Ok?
      && var v := Eval(pf.math, Syntax.Parse(text.value, pf.parseFailure).value);
      && v.Ok?
      && (v.value.Scalar? ==> Calculated(pf, validators, input, scalars, vectors).value == [v.value.x])
      && (v.value.Vector? ==> Calculated(pf, validators, input, scalars, vectors).value == v.value.elements)
  {
  }

  /** Every stage succeeds: the substitution, each validator on the
      substituted text, the parse and the run. */
  predicate StagesSucceed(pf: Platform, validators: seq<ValidatorKind>, input: string,
                          scalars: VariableSubstitutor.ScalarTable, vectors: VariableSubstitutor.VectorTable)
  {
    var text := VariableSubstitutor.Substituted(pf.num, input, scalars, vectors);
    && text.Ok?
    && RunAll(pf.num, validators, text.value).Pass?
    && Syntax.Parse(text.value, pf.parseFailure).Ok?
    && Eval(pf.math, Syntax.Parse(text.value, pf.parseFailure).value).Ok?
  }

  /** A result comes exactly when every stage succeeds: the wrong-type branch
      is never taken, since a parsed text is a `double` or a `double[]`. */
  lemma SucceedsExactlyWhenStagesDo(pf: Platform, validators: seq<ValidatorKind>, input: string,
                                    scalars: VariableSubstitutor.ScalarTable, vectors: VariableSubstitutor.VectorTable)
    ensures Calculated(pf, validators, input, scalars, vectors).Ok? <==> StagesSucceed(pf, validators, input, scalars, vectors)
  {
    var text := VariableSubstitutor.Substituted(pf.num, input, scalars, vectors);
    if StagesSucceed(pf, validators, input, scalars, vectors) {
      var body := Syntax.Parse(text.value, pf.parseFailure).value;
      assert Syntax.Boxable(body);
      assert KindOfValue(Eval(pf.math, body).value) == KindOf(body).value;
    }
  }

  /** How each stage's failure is reported: a `CalculatorException` from the
      validators or from building the tree as it is, and every other
      exception at position 0 behind the prefix. */
  lemma FailuresReported(pf: Platform, validators: seq<ValidatorKind>, input: string,
                         scalars: VariableSubstitutor.ScalarTable, vectors: VariableSubstitutor.VectorTable)
    ensures var text := VariableSubstitutor.Substituted(pf.num, input, scalars, vectors);
      var r := Calculated(pf, validators, input, scalars, vectors);
      && (text.Err? ==> r == Err(Translated(text.error)))
      && (text.Ok? && RunAll(pf.num, validators, text.value).Fail? ==> r == Err(RunAll(pf.num, validators, text.value).error))
      && (text.Ok? && RunAll(pf.num, validators, text.value).Fault? ==> r == Err(Translated(RunAll(pf.num, validators, text.value).message)))
      && (text.Ok? && RunAll(pf.num, validators, text.value).Pass? ==>
            var parsed := Syntax.Parse(text.value, pf.parseFailure);
            && (parsed.Err? && parsed.error.Calc? ==> r == Err(parsed.error.error))
            && (parsed.Err? && parsed.error.Raised? ==> r == Err(Translated(parsed.error.message)))
            && (parsed.Ok? && Eval(pf.math, parsed.value).Err? ==> r == Err(Translated(InvocationMessage))))
  {
  }

  /** The message the compiled expression throws when it runs, once every
      earlier stage has succeeded; `None` when no stage gets that far or the
      run succeeds. */
  function RunFailure(pf: Platform, validators: seq<ValidatorKind>, input: string,
                      scalars: VariableSubstitutor.ScalarTable, vectors: VariableSubstitutor.VectorTable): Option<string>
  {
    match VariableSubstitutor.Substituted(pf.num, input, scalars, vectors)
    case Err(_) => None
    case Ok(text) =>
      if !RunAll(pf.num, validators, text).Pass? then None
      else
        match Syntax.Parse(text, pf.parseFailure)
        case Err(_) => None
        case Ok(body) =>
          match Eval(pf.math, body)
          case Err(m) => Some(m)
          case Ok(_) => None
  }

  /** As written, the message of a run-time failure never reaches the user:
      `DynamicInvoke` wraps it, and the wrapper's fixed message is reported. */
  lemma RunFailureHidden(pf: Platform, validators: seq<ValidatorKind>, input: string,
                         scalars: VariableSubstitutor.ScalarTable, vectors: VariableSubstitutor.VectorTable, m: string)
    requires RunFailure(pf, validators, input, scalars, vectors) == Some(m)
    ensures Calculated(pf, validators, input, scalars, vectors) == Err(Translated(InvocationMessage))
    ensures m != InvocationMessage ==> Calculated(pf, validators, input, scalars, vectors) != Err(Translated(m))
  {
    assert Translated(m).message[|ErrorPrefix|..] == m;
  }

  /** `Calculate` as its second `catch` is evidently meant to work: an
      exception thrown while the expression runs is reported with its own
      message (the wrapper's `InnerException`). Everything else is reported
      as `Calculated` reports it. */
  function CalculatedUnwrapped(pf: Platform, validators: seq<ValidatorKind>, input: string,
                               scalars: VariableSubstitutor.ScalarTable, vectors: VariableSubstitutor.VectorTable): (r: Result<seq<real>, CalcError>)
    ensures RunFailure(pf, validators, input, scalars, vectors).None? ==> r == Calculated(pf, validators, input, scalars, vectors)
  {
    match RunFailure(pf, validators, input, scalars, vectors)
    case Some(m) => Err(Translated(m))
    case None => Calculated(pf, validators, input, scalars, vectors)
  }

  /** With the wrapper unwrapped, a run-time failure is reported at position
      0 with its own message after the prefix, and the two versions differ
      only there. */
  lemma RunFailureReported(pf: Platform, validators: seq<ValidatorKind>, input: string,
                           scalars: VariableSubstitutor.ScalarTable, vectors: VariableSubstitutor.VectorTable, m: string)
    requires RunFailure(pf, validators, input, scalars, vectors) == Some(m)
    ensures CalculatedUnwrapped(pf, validators, input, scalars, vectors).Err?
    ensures CalculatedUnwrapped(pf, validators, input, scalars, vectors).error.message == ErrorPrefix + m
    ensures CalculatedUnwrapped(pf, validators, input, scalars, vectors).error.errorPosition == 0
    ensures Calculated(pf, validators, input, scalars, vectors).Err?
  {
    RunFailureHidden(pf, validators, input, scalars, vectors, m);
  }
}
