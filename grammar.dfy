/// The Sprache grammar of the calculator, as one group of mutually recursive
/// parsing functions: operands (`OperandParser`, `NumberParser`,
/// `ConstantParser`, `ParenthesizedParser`, `FunctionParser`,
/// `IfFunctionParser`, `NegateParser`, `VectorParser`) and the operator levels
/// (`FactorParser`, `TermParser`, `ExprParser`, `ComparisonExprParser`).
///
/// A parser at position `p` of the input either succeeds with a value and the
/// position after what it read, fails without consuming anything (Sprache's
/// `Or` and `Many` always backtrack), or throws: an exception raised while a
/// tree is built escapes every enclosing parser.
module Grammar {
  import opened Wrappers
  import opened Text
  import opened Scanning
  import opened Values
  import opened Errors
  import opened Expressions
  import NumberParser
  import FunctionEvaluator
  import opened Operators

  datatype Parsed<T> = Done(value: T, rest: nat) | NoMatch | Threw(error: BuildError)

  /** The first characters an operand can start with: a digit (a number), `[`
      (a literal array or a vector), a letter (a constant, a function or
      `if`), `(` and `-`. */
  predicate OperandStart(c: char) {
    IsDigit(c) || IsLetter(c) || c == '[' || c == '(' || c == '-'
  }

  /** An operand can start at `p` once the whitespace there is skipped. */
  predicate AtOperand(s: string, p: nat)
    requires p <= |s|
  {
    var a := SkipWhiteSpace(s, p);
    a < |s| && OperandStart(s[a])
  }

  /** `ConstantParser.Constant`: `pi`, else `e`. */
  function ConstantOperand(s: string, p: nat): (r: Option<(Node, nat)>)
    requires p <= |s|
    ensures r.Some? ==> p < r.value.1 <= |s| && KindOf(r.value.0) == Some(ScalarKind)
  {
    if p + 1 < |s| && s[p] == 'p' && s[p + 1] == 'i' then Some((Constant(Pi), p + 2))
    else if p < |s| && s[p] == 'e' then Some((Constant(E), p + 1))
    else None
  }

  /** `OperandParser.Operand` (and `OperandUniversal`, which reads the same
      language): the alternatives between optional whitespace. */
  function Operand(s: string, p: nat): (r: Parsed<Node>)
    requires p <= |s|
    ensures r.Done? ==> p < r.rest <= |s| && WellKinded(r.value)
    ensures r.Done? ==> r.rest == |s| || !IsWhiteSpace(s[r.rest])
    ensures !AtOperand(s, p) ==> r.NoMatch?
    decreases |s| - p, 5
  {
    var a := SkipWhiteSpace(s, p);
    match OperandCore(s, a)
    case Done(n, q) => Done(n, SkipWhiteSpace(s, q))
    case NoMatch => NoMatch
    case Threw(e) => Threw(e)
  }

  /** The alternatives of an operand, tried in order: a number, a constant, a
      parenthesized comparison, a function call, `if`, a negation, a vector. */
  function OperandCore(s: string, p: nat): (r: Parsed<Node>)
    requires p <= |s|
    ensures r.Done? ==> p < r.rest <= |s| && WellKinded(r.value)
    ensures !r.NoMatch? ==> p < |s| && (OperandStart(s[p]) || IsWhiteSpace(s[p]))
    decreases |s| - p, 4
  {
    match NumberParser.Number(s, p)
    case Some((n, k)) => Done(n, k)
    case None =>
      match ConstantOperand(s, p)
      case Some((n, k)) => Done(n, k)
      case None =>
        match Parenthesized(s, p)
        case Done(n, k) => Done(n, k)
        case Threw(e) => Threw(e)
        case NoMatch =>
          match Function(s, p)
          case Done(n, k) => Done(n, k)
          case Threw(e) => Threw(e)
          case NoMatch =>
            match IfFunction(s, p)
            case Done(n, k) => Done(n, k)
            case Threw(e) => Threw(e)
            case NoMatch =>
              match NegateOperand(s, p)
              case Done(n, k) => Done(n, k)
              case Threw(e) => Threw(e)
              case NoMatch => VectorOperand(s, p)
  }

  /** `ParenthesizedParser.Parenthesized`: a comparison between `(` and `)`. */
  function Parenthesized(s: string, p: nat): (r: Parsed<Node>)
    requires p <= |s|
    ensures r.Done? ==> p < r.rest <= |s| && WellKinded(r.value)
    ensures !r.NoMatch? ==> p < |s| && s[p] == '('
    decreases |s| - p, 3
  {
    if p < |s| && s[p] == '(' then
      match Comparison(s, p + 1)
      case Done(n, q) => if q < |s| && s[q] == ')' then Done(n, q + 1) else NoMatch
      case NoMatch => NoMatch
      case Threw(e) => Threw(e)
    else NoMatch
  }

  /** `FunctionParser.Function`: a call with parentheses, else with brackets. */
  function Function(s: string, p: nat): (r: Parsed<Node>)
    requires p <= |s|
    ensures r.Done? ==> p < r.rest <= |s| && WellKinded(r.value)
    ensures !r.NoMatch? ==> FunctionName(s, p).Some?
    decreases |s| - p, 3
  {
    match FunctionWith(s, p, '(', ')')
    case NoMatch => FunctionWith(s, p, '[', ']')
    case other => other
  }

  /** The name of a call at `p`: the run of letters after the whitespace,
      when there is at least one letter. */
  function FunctionName(s: string, p: nat): (r: Option<(nat, nat)>)
    requires p <= |s|
    ensures r.Some? ==> p <= r.value.0 < r.value.1 <= |s|
    ensures r.Some? ==> r.value.0 == SkipWhiteSpace(s, p) && IsLetter(s[r.value.0])
  {
    var a := SkipWhiteSpace(s, p);
    var k := RunEnd(s, a, IsLetter);
    if k == a then None else Some((a, k))
  }

  function CallName(s: string, p: nat): string
    requires p <= |s| && FunctionName(s, p).Some?
  {
    s[FunctionName(s, p).value.0..FunctionName(s, p).value.1]
  }

  /** `CreateFunctionExpression`: the tree `FunctionEvaluator` builds for the
      call, or the exception it throws; an unknown name is reported with a
      map from the name to the position of the call. */
  function Call(name: string, args: seq<Node>, position: nat, after: nat): (r: Parsed<Node>)
    requires AllWellKinded(args)
    ensures r.Done? ==> r.rest == after && WellKinded(r.value)
    ensures FunctionEvaluator.Lookup(name).None? ==>
      r == Threw(Calc(WithPositions(FunctionEvaluator.UnknownFunctionMessage(name), Some([(name, position as int)]))))
  {
    match FunctionEvaluator.GetFunctionExpression(name, args, position)
    case Ok(n) => Done(n, after)
    case Err(e) => Threw(e)
  }

  /** One of `FunctionWithParentheses` and `FunctionWithBrackets`: a name,
      the opening bracket, one or more comma-separated arguments and the
      closing bracket; the tree comes from `FunctionEvaluator`, with the
      position where the name parser started. */
  function FunctionWith(s: string, p: nat, open: char, close: char): (r: Parsed<Node>)
    requires p <= |s|
    ensures r.Done? ==> p < r.rest <= |s| && WellKinded(r.value)
    ensures !r.NoMatch? ==> FunctionName(s, p).Some?
    ensures !r.NoMatch? && !r.Threw? ==> FunctionEvaluator.Lookup(CallName(s, p)).Some?
    decreases |s| - p, 2
  {
    match FunctionName(s, p)
    case None => NoMatch
    case Some((a, k)) =>
      match TokenChar(s, SkipWhiteSpace(s, k), open)
      case None => NoMatch
      case Some(b) =>
        match ExprList(s, b)
        case NoMatch => NoMatch
        case Threw(e) => Threw(e)
        case Done(args, q) =>
          if q < |s| && s[q] == close then Call(CallName(s, p), args, p, q + 1) else NoMatch
  }

  /** `IfFunctionParser.IfFunction`: `if` in any case, `(` at once, a
      comparison, two comma-separated expressions and `)`; the tree is
      `Expression.Condition`. */
  function IfFunction(s: string, p: nat): (r: Parsed<Node>)
    requires p <= |s|
    ensures r.Done? ==> p < r.rest <= |s| && WellKinded(r.value)
    ensures r.Done? ==> r.value.Condition? && KindOf(r.value.test) == Some(BoolKind)
    ensures !r.NoMatch? ==> p + 2 < |s| && s[p + 2] == '('
    decreases |s| - p, 3
  {
    if p + 2 < |s| && (s[p] == 'i' || s[p] == 'I') && (s[p + 1] == 'f' || s[p + 1] == 'F') && s[p + 2] == '(' then
      match Comparison(s, p + 3)
      case NoMatch => NoMatch
      case Threw(e) => Threw(e)
      case Done(test, q1) =>
        match TokenChar(s, q1, ',')
        case None => NoMatch
        case Some(a1) =>
          match Expr(s, a1)
          case NoMatch => NoMatch
          case Threw(e) => Threw(e)
          case Done(whenTrue, q2) =>
            match TokenChar(s, q2, ',')
            case None => NoMatch
            case Some(a2) =>
              match Expr(s, a2)
              case NoMatch => NoMatch
              case Threw(e) => Threw(e)
              case Done(whenFalse, q3) =>
                if q3 < |s| && s[q3] == ')' then
                  match MakeCondition(test, whenTrue, whenFalse)
                  case Ok(n) => Done(n, q3 + 1)
                  case Err(f) => Threw(Library(f))
                else NoMatch
    else NoMatch
  }

  /** `NegateParser.Negate`: `-` and a factor (powers bind tighter than the sign). */
  function NegateOperand(s: string, p: nat): (r: Parsed<Node>)
    requires p <= |s|
    ensures r.Done? ==> p < r.rest <= |s| && KindOf(r.value) == Some(ScalarKind)
    ensures r.Done? ==> r.value.Negate?
    ensures !r.NoMatch? ==> p < |s| && s[p] == '-'
    decreases |s| - p, 3
  {
    if p < |s| && s[p] == '-' then
      match Factor(s, p + 1, false)
      case NoMatch => NoMatch
      case Threw(e) => Threw(e)
      case Done(e, q) =>
        match MakeNegate(e)
        case Ok(n) => Done(n, q)
        case Err(f) => Threw(Library(f))
    else NoMatch
  }

  /** `VectorParser.Vector`: `[`, one or more comma-separated operands, `]`;
      every element must be a `double`. */
  function VectorOperand(s: string, p: nat): (r: Parsed<Node>)
    requires p <= |s|
    ensures r.Done? ==> p < r.rest <= |s| && KindOf(r.value) == Some(VectorKind)
    ensures !r.NoMatch? ==> p < |s| && s[p] == '['
    decreases |s| - p, 3
  {
    if p < |s| && s[p] == '[' then
      match OperandList(s, p + 1)
      case NoMatch => NoMatch
      case Threw(e) => Threw(e)
      case Done(items, q) =>
        if q < |s| && s[q] == ']' then
          match MakeNewArray(items)
          case Ok(n) => Done(n, q + 1)
          case Err(f) => Threw(Library(f))
        else NoMatch
    else NoMatch
  }

  /** `Operand.DelimitedBy(Parse.Char(',').Token())`. */
  function OperandList(s: string, p: nat): (r: Parsed<seq<Node>>)
    requires p <= |s|
    ensures r.Done? ==> p < r.rest <= |s| && |r.value| >= 1 && AllWellKinded(r.value)
    ensures !AtOperand(s, p) ==> r.NoMatch?
    decreases |s| - p, 6
  {
    match Operand(s, p)
    case NoMatch => NoMatch
    case Threw(e) => Threw(e)
    case Done(n, q) => OperandListRest(s, q, [n])
  }

  /** The `(',' Operand)*` tail: a comma without an operand after it is left unread. */
  function OperandListRest(s: string, q: nat, acc: seq<Node>): (r: Parsed<seq<Node>>)
    requires q <= |s| && AllWellKinded(acc)
    ensures r.Done? ==> q <= r.rest <= |s| && |r.value| >= |acc| && AllWellKinded(r.value)
    ensures !r.Threw? ==> r.Done?
    decreases |s| - q, 6
  {
    match TokenChar(s, q, ',')
    case None => Done(acc, q)
    case Some(a) =>
      match Operand(s, a)
      case NoMatch => Done(acc, q)
      case Threw(e) => Threw(e)
      case Done(n, k) => OperandListRest(s, k, acc + [n])
  }

  /** `FactorParser.Factor` (`universal` false: `Expression.MakeBinary(Power)`)
      and `FactorParser.FactorUniversal` (`universal` true: a call of `Math.Pow`):
      operands joined by `^`, grouped from the left. */
  function Factor(s: string, p: nat, universal: bool): (r: Parsed<Node>)
    requires p <= |s|
    ensures r.Done? ==> p < r.rest <= |s| && WellKinded(r.value)
    ensures !AtOperand(s, p) ==> r.NoMatch?
    decreases |s| - p, 6
  {
    match Operand(s, p)
    case NoMatch => NoMatch
    case Threw(e) => Threw(e)
    case Done(n, q) => FactorRest(s, q, n, universal)
  }

  /** The operator the power level reads at `q`: `^` itself, or between
      optional whitespace in the universal parser. */
  function PowerSign(s: string, q: nat, universal: bool): (r: Option<nat>)
    requires q <= |s|
    ensures r.Some? ==> q < r.value <= |s|
  {
    if universal then TokenChar(s, q, '^')
    else if q < |s| && s[q] == '^' then Some(q + 1)
    else None
  }

  /** How the power level joins two operands. */
  function Power(l: Node, r: Node, universal: bool): (res: Result<Node, LibraryFault>)
    requires WellKinded(l) && WellKinded(r)
    ensures res.Ok? <==> KindOf(l) == Some(ScalarKind) && KindOf(r) == Some(ScalarKind)
    ensures res.Ok? ==> res.value == MathCall2(Pow, l, r)
  {
    if universal then CallMath2(Pow, l, r) else MakePower(l, r)
  }

  /** `Parse.ChainOperator`'s loop for the power level: the operator and an
      operand, combined at once; when either is missing the tree so far is
      the result and the operator is left unread. */
  function FactorRest(s: string, q: nat, left: Node, universal: bool): (r: Parsed<Node>)
    requires q <= |s| && WellKinded(left)
    ensures r.Done? ==> q <= r.rest <= |s| && WellKinded(r.value)
    decreases |s| - q, 6
  {
    match PowerSign(s, q, universal)
    case None => Done(left, q)
    case Some(a) =>
      match Operand(s, a)
      case NoMatch => Done(left, q)
      case Threw(e) => Threw(e)
      case Done(right, k) =>
        match Power(left, right, universal)
        case Ok(n) => FactorRest(s, k, n, universal)
        case Err(f) => Threw(Library(f))
  }

  /** The operators of `TermParser.TermUniversal`, each between optional
      whitespace: `*`, `×`, `⋅`, `/`, `÷`, `%`. */
  function TermSign(s: string, q: nat): (r: Option<(ArithOp, nat)>)
    requires q <= |s|
    ensures r.Some? ==> q < r.value.1 <= |s| && IsTermOp(r.value.0)
  {
    var a := SkipWhiteSpace(s, q);
    if a == |s| then None
    else
      var c := s[a];
      var op :=
        if c == '*' || c == '×' || c == '⋅' then Some(Multiply)
        else if c == '/' || c == '÷' then Some(Divide)
        else if c == '%' then Some(Modulo)
        else None;
      match op
      case None => None
      case Some(o) => Some((o, SkipWhiteSpace(s, a + 1)))
  }

  /** `TermParser.TermUniversal`: factors joined by `*`, `/` and `%`, grouped
      from the left, each step built by `ApplyOperation`. */
  function Term(s: string, p: nat): (r: Parsed<Node>)
    requires p <= |s|
    ensures r.Done? ==> p < r.rest <= |s| && WellKinded(r.value)
    ensures !AtOperand(s, p) ==> r.NoMatch?
    decreases |s| - p, 7
  {
    match Factor(s, p, true)
    case NoMatch => NoMatch
    case Threw(e) => Threw(e)
    case Done(n, q) => TermRest(s, q, n)
  }

  function TermRest(s: string, q: nat, left: Node): (r: Parsed<Node>)
    requires q <= |s| && WellKinded(left)
    ensures r.Done? ==> q <= r.rest <= |s| && WellKinded(r.value)
    decreases |s| - q, 7
  {
    match TermSign(s, q)
    case None => Done(left, q)
    case Some((op, a)) =>
      match Factor(s, a, true)
      case NoMatch => Done(left, q)
      case Threw(e) => Threw(e)
      case Done(right, k) =>
        match ApplyOperation(op, left, right)
        case Ok(n) => TermRest(s, k, n)
        case Err(e) => Threw(e)
  }

  /** The operators of `ExprParser.ExprUniversal`, each between optional whitespace. */
  function ExprSign(s: string, q: nat): (r: Option<(ArithOp, nat)>)
    requires q <= |s|
    ensures r.Some? ==> q < r.value.1 <= |s| && IsExprOp(r.value.0)
  {
    match TokenChar(s, q, '+')
    case Some(a) => Some((Add, a))
    case None =>
      match TokenChar(s, q, '-')
      case Some(a) => Some((Subtract, a))
      case None => None
  }

  /** `ExprParser.ExprUniversal`: terms joined by `+` and `-`, grouped from
      the left, each step built by `HandleOperation`. */
  function Expr(s: string, p: nat): (r: Parsed<Node>)
    requires p <= |s|
    ensures r.Done? ==> p < r.rest <= |s| && WellKinded(r.value)
    ensures !AtOperand(s, p) ==> r.NoMatch?
    decreases |s| - p, 8
  {
    match Term(s, p)
    case NoMatch => NoMatch
    case Threw(e) => Threw(e)
    case Done(n, q) => ExprRest(s, q, n)
  }

  function ExprRest(s: string, q: nat, left: Node): (r: Parsed<Node>)
    requires q <= |s| && WellKinded(left)
    ensures r.Done? ==> q <= r.rest <= |s| && WellKinded(r.value)
    decreases |s| - q, 8
  {
    match ExprSign(s, q)
    case None => Done(left, q)
    case Some((op, a)) =>
      match Term(s, a)
      case NoMatch => Done(left, q)
      case Threw(e) => Threw(e)
      case Done(right, k) =>
        match HandleOperation(op, left, right)
        case Ok(n) => ExprRest(s, k, n)
        case Err(e) => Threw(e)
  }

  /** The comparison operators, tried in the order `<=`, `>=`, `==`, `!=`,
      `<`, `>`, with no whitespace skipped. */
  function ComparisonSign(s: string, q: nat): (r: Option<(CompareOp, nat)>)
    requires q <= |s|
    ensures r.Some? ==> q < r.value.1 <= |s|
  {
    if q + 1 < |s| && s[q + 1] == '=' && s[q] in "<>=!" then
      var rel := match s[q]
        case '<' => LessThanOrEqual
        case '>' => GreaterThanOrEqual
        case '=' => Equal
        case _ => NotEqual;
      Some((rel, q + 2))
    else if q < |s| && s[q] == '<' then Some((LessThan, q + 1))
    else if q < |s| && s[q] == '>' then Some((GreaterThan, q + 1))
    else None
  }

  /** `ComparisonExprParser.ComparisonExpr` (also `LogicalExprParser.LogicalExpr`):
      expressions joined by comparisons, grouped from the left. */
  function Comparison(s: string, p: nat): (r: Parsed<Node>)
    requires p <= |s|
    ensures r.Done? ==> p < r.rest <= |s| && WellKinded(r.value)
    ensures !AtOperand(s, p) ==> r.NoMatch?
    decreases |s| - p, 9
  {
    match Expr(s, p)
    case NoMatch => NoMatch
    case Threw(e) => Threw(e)
    case Done(n, q) => ComparisonRest(s, q, n)
  }

  function ComparisonRest(s: string, q: nat, left: Node): (r: Parsed<Node>)
    requires q <= |s| && WellKinded(left)
    ensures r.Done? ==> q <= r.rest <= |s| && WellKinded(r.value)
    decreases |s| - q, 9
  {
    match ComparisonSign(s, q)
    case None => Done(left, q)
    case Some((rel, a)) =>
      match Expr(s, a)
      case NoMatch => Done(left, q)
      case Threw(e) => Threw(e)
      case Done(right, k) =>
        match CompareOperation(rel, left, right)
        case Ok(n) => ComparisonRest(s, k, n)
        case Err(e) => Threw(e)
  }

  /** A function's arguments: `ExprUniversal.DelimitedBy(Parse.Char(',').Token())`. */
  function ExprList(s: string, p: nat): (r: Parsed<seq<Node>>)
    requires p <= |s|
    ensures r.Done? ==> p < r.rest <= |s| && |r.value| >= 1 && AllWellKinded(r.value)
    ensures !AtOperand(s, p) ==> r.NoMatch?
    decreases |s| - p, 9
  {
    match Expr(s, p)
    case NoMatch => NoMatch
    case Threw(e) => Threw(e)
    case Done(n, q) => ExprListRest(s, q, [n])
  }

  function ExprListRest(s: string, q: nat, acc: seq<Node>): (r: Parsed<seq<Node>>)
    requires q <= |s| && AllWellKinded(acc)
    ensures r.Done? ==> q <= r.rest <= |s| && |r.value| >= |acc| && AllWellKinded(r.value)
    ensures !r.Threw? ==> r.Done?
    decreases |s| - q, 9
  {
    match TokenChar(s, q, ',')
    case None => Done(acc, q)
    case Some(a) =>
      match Expr(s, a)
      case NoMatch => Done(acc, q)
      case Threw(e) => Threw(e)
      case Done(n, k) => ExprListRest(s, k, acc + [n])
  }
}
