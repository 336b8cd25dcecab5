/// `OperatorPrecedence`: the standalone precedence grammar over the same
/// operands. Its levels build the .NET binary nodes directly (only two
/// `double`s are accepted), no operator skips whitespace, `%` is not an
/// operator, and a division whose right operand is the literal 0 is refused
/// while the tree is built.
module OperatorPrecedence {
  import opened Wrappers
  import opened Values
  import opened Expressions
  import opened Grammar

  const DivisionByZeroMessage: string := "Деление на ноль недопустимо."

  /** `*`, `×`, `⋅` and `/`, `÷`, read with no whitespace skipped. */
  function TermSign(s: string, q: nat): (r: Option<(ArithOp, nat)>)
    requires q <= |s|
    ensures r.Some? ==> r.value.1 == q + 1 <= |s| && (r.value.0 == Multiply || r.value.0 == Divide)
  {
    if q == |s| then None
    else if s[q] == '*' || s[q] == '×' || s[q] == '⋅' then Some((Multiply, q + 1))
    else if s[q] == '/' || s[q] == '÷' then Some((Divide, q + 1))
    else None
  }

  /** The combine function of `Term`: a division by a constant node whose
      value is 0 throws before the node is built. */
  function Divided(op: ArithOp, l: Node, r: Node): (res: Result<Node, BuildError>)
    requires WellKinded(l) && WellKinded(r)
    ensures op == Divide && r == Constant(0.0) ==> res == Err(Raised(DivisionByZeroMessage))
    ensures !(op == Divide && r == Constant(0.0)) ==>
      (res.Ok? <==> KindOf(l) == Some(ScalarKind) && KindOf(r) == Some(ScalarKind))
    ensures res.Ok? ==> res.value == Binary(op, l, r)
  {
    if op == Divide && r.Constant? && r.x == 0.0 then Err(Raised(DivisionByZeroMessage))
    else match MakeArith(op, l, r)
      case Ok(n) => Ok(n)
      case Err(f) => Err(Library(f))
  }

  /** `Term`: factors (the power level shared with `FactorParser.Factor`)
      joined by multiplication and division, grouped from the left. */
  function Term(s: string, p: nat): (r: Parsed<Node>)
    requires p <= |s|
    ensures r.Done? ==> p < r.rest <= |s| && WellKinded(r.value)
  {
    match Factor(s, p, false)
    case NoMatch => NoMatch
    case Threw(e) => Threw(e)
    case Done(n, q) => TermRest(s, q, n)
  }

  function TermRest(s: string, q: nat, left: Node): (r: Parsed<Node>)
    requires q <= |s| && WellKinded(left)
    ensures r.Done? ==> q <= r.rest <= |s| && WellKinded(r.value)
    decreases |s| - q
  {
    match TermSign(s, q)
    case None => Done(left, q)
    case Some((op, a)) =>
      match Factor(s, a, false)
      case NoMatch => Done(left, q)
      case Threw(e) => Threw(e)
      case Done(right, k) =>
        match Divided(op, left, right)
        case Ok(n) => TermRest(s, k, n)
        case Err(e) => Threw(e)
  }

  /** `+` and `-`, read with no whitespace skipped. */
  function ExprSign(s: string, q: nat): (r: Option<(ArithOp, nat)>)
    requires q <= |s|
    ensures r.Some? ==> r.value.1 == q + 1 <= |s| && (r.value.0 == Add || r.value.0 == Subtract)
  {
    if q < |s| && s[q] == '+' then Some((Add, q + 1))
    else if q < |s| && s[q] == '-' then Some((Subtract, q + 1))
    else None
  }

  /** `Expr`: terms joined by `+` and `-`, grouped from the left, as native
      `double` additions and subtractions. */
  function Expr(s: string, p: nat): (r: Parsed<Node>)
    requires p <= |s|
    ensures r.Done? ==> p < r.rest <= |s| && WellKinded(r.value)
  {
    match Term(s, p)
    case NoMatch => NoMatch
    case Threw(e) => Threw(e)
    case Done(n, q) => ExprRest(s, q, n)
  }

  function ExprRest(s: string, q: nat, left: Node): (r: Parsed<Node>)
    requires q <= |s| && WellKinded(left)
    ensures r.Done? ==> q <= r.rest <= |s| && WellKinded(r.value)
    decreases |s| - q
  {
    match ExprSign(s, q)
    case None => Done(left, q)
    case Some((op, a)) =>
      match Term(s, a)
      case NoMatch => Done(left, q)
      case Threw(e) => Threw(e)
      case Done(right, k) =>
        match MakeArith(op, left, right)
        case Ok(n) => ExprRest(s, k, n)
        case Err(f) => Threw(Library(f))
  }

  /** `ComparisonExpr` (and `LogicalExpr`, the same parser): expressions
      joined by the comparison operators, as native comparisons. */
  function ComparisonExpr(s: string, p: nat): (r: Parsed<Node>)
    requires p <= |s|
    ensures r.Done? ==> p < r.rest <= |s| && WellKinded(r.value)
  {
    match Expr(s, p)
    case NoMatch => NoMatch
    case Threw(e) => Threw(e)
    case Done(n, q) => ComparisonRest(s, q, n)
  }

  function ComparisonRest(s: string, q: nat, left: Node): (r: Parsed<Node>)
    requires q <= |s| && WellKinded(left)
    ensures r.Done? ==> q <= r.rest <= |s| && WellKinded(r.value)
    decreases |s| - q
  {
    match ComparisonSign(s, q)
    case None => Done(left, q)
    case Some((rel, a)) =>
      match Expr(s, a)
      case NoMatch => Done(left, q)
      case Threw(e) => Threw(e)
      case Done(right, k) =>
        match MakeRelation(rel, left, right)
        case Ok(n) => ComparisonRest(s, k, n)
        case Err(f) => Threw(Library(f))
  }

  // ---------------------------------------------------------- properties

  /** A first term whose divisor is the literal 0 throws the division-by-zero
      exception, and it reaches the top of the grammar unchanged. */
  lemma LiteralZeroDivisorThrows(s: string, p: nat, left: Node, q: nat, a: nat, k: nat)
    requires p <= |s| && Factor(s, p, false) == Done(left, q)
    requires TermSign(s, q) == Some((Divide, a)) && Factor(s, a, false) == Done(Constant(0.0), k)
    ensures Term(s, p) == Threw(Raised(DivisionByZeroMessage))
    ensures Expr(s, p) == Threw(Raised(DivisionByZeroMessage))
    ensures ComparisonExpr(s, p) == Threw(Raised(DivisionByZeroMessage))
  {
    assert TermRest(s, q, left) == Threw(Raised(DivisionByZeroMessage));
  }

  /** `%` is no operator here: a first factor followed by `%` is the whole
      result of every level, and the rest of the text is left unread. */
  lemma RemainderNotRead(s: string, p: nat, n: Node, q: nat)
    requires p <= |s| && Factor(s, p, false) == Done(n, q)
    requires q < |s| && s[q] == '%'
    ensures Term(s, p) == Done(n, q) && Expr(s, p) == Done(n, q) && ComparisonExpr(s, p) == Done(n, q)
  {
    assert TermSign(s, q).None? && ExprSign(s, q).None? && ComparisonSign(s, q).None?;
    assert Term(s, p) == Done(n, q);
    assert Expr(s, p) == Done(n, q);
  }
}
