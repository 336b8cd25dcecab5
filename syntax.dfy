/// `Syntax.ParseUniversalLambda` and `ExpressionParser.Parse`: the whole text
/// read as one add/sub-level expression whose value is a `double` or a
/// `double[]`.
module Syntax {
  import opened Wrappers
  import opened Values
  import opened Expressions
  import opened Grammar

  const UnsupportedTypePrefix: string := "Неподдерживаемый тип выражения: "
  const ParseFailurePrefix: string := "Ошибка парсинга выражения: "

  /** `ConvertToObject`: a `double` or `double[]` body is boxed (the node is
      unchanged); a `bool` body is refused. */
  function ConvertToObject(body: Node): (r: Result<Node, BuildError>)
    requires WellKinded(body)
    ensures r.Ok? <==> KindOf(body) != Some(BoolKind)
    ensures r.Ok? ==> r.value == body
    ensures r.Err? ==> r.error == Raised(UnsupportedTypePrefix + TypeText(BoolKind))
  {
    match KindOf(body).value
    case BoolKind => Err(Raised(UnsupportedTypePrefix + TypeText(BoolKind)))
    case _ => Ok(body)
  }

  /** A result a compiled lambda can return: a `double` or a `double[]`. */
  predicate Boxable(n: Node) {
    KindOf(n) == Some(ScalarKind) || KindOf(n) == Some(VectorKind)
  }

  /** `ParseUniversalLambda`: an expression, then the end of the input, then
      the conversion; the conversion runs only once the end is reached. */
  function ParseUniversalLambda(s: string): (r: Parsed<Node>)
    ensures r.Done? ==> r.rest == |s| && Boxable(r.value)
    ensures r.Done? <==> Expr(s, 0).Done? && Expr(s, 0).rest == |s| && KindOf(Expr(s, 0).value) != Some(BoolKind)
    ensures r.Done? ==> r.value == Expr(s, 0).value
  {
    match Expr(s, 0)
    case NoMatch => NoMatch
    case Threw(e) => Threw(e)
    case Done(body, q) =>
      if q == |s| then
        match ConvertToObject(body)
        case Ok(b) => Done(b, q)
        case Err(e) => Threw(e)
      else NoMatch
  }

  /** `ExpressionParser.Parse`: a failed parse becomes an exception whose
      message carries Sprache's description of the failure (`failure`). */
  function Parse(s: string, failure: string -> string): (r: Result<Node, BuildError>)
    ensures r.Ok? ==> Boxable(r.value) && WellKinded(r.value)
    ensures ParseUniversalLambda(s).NoMatch? ==> r == Err(Raised(ParseFailurePrefix + failure(s)))
    ensures ParseUniversalLambda(s).Threw? ==> r == Err(ParseUniversalLambda(s).error)
    ensures ParseUniversalLambda(s).Done? ==> r == Ok(ParseUniversalLambda(s).value)
  {
    match ParseUniversalLambda(s)
    case Done(body, _) => Ok(body)
    case NoMatch => Err(Raised(ParseFailurePrefix + failure(s)))
    case Threw(e) => Err(e)
  }
}
