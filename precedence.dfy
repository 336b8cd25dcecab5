/// What each binary level of the two grammars reads, for every input: an
/// operand of the level below, then operator-operand pairs for as long as
/// both are there, and the tree is the left fold of the level's combine
/// function over those pairs. The power level sits below the
/// multiplicative one, which sits below the additive one, which sits below
/// the comparisons, so an operand of `+` is a whole product and an operand
/// of `*` a whole power.
module Precedence {
  import opened Wrappers
  import opened Expressions
  import opened Values
  import opened Operators
  import opened Grammar
  import OperatorPrecedence

  /** The four binary levels; `universal` picks the levels of
      `ExprParser.ExprUniversal` and its parts, otherwise those of the
      standalone `OperatorPrecedence` grammar. */
  datatype Level =
    | PowerLevel(universal: bool)
    | TermLevel(universal: bool)
    | ExprLevel(universal: bool)
    | ComparisonLevel(universal: bool)

  /** The operator of one step: an arithmetic operator, a comparison, or `^`. */
  datatype BinaryOp = Arith(op: ArithOp) | Compared(rel: CompareOp) | Raise

  /** One operator-operand pair: the operator, the operand read after it and
      where that operand ends. */
  datatype Step = Step(op: BinaryOp, operand: Node, end: nat)

  /** The operators each level reads. */
  predicate Fits(level: Level, op: BinaryOp) {
    match level
    case PowerLevel(_) => op == Raise
    case TermLevel(u) => op.Arith? && (if u then IsTermOp(op.op) else op.op == Multiply || op.op == Divide)
    case ExprLevel(u) => op.Arith? && IsExprOp(op.op)
    case ComparisonLevel(_) => op.Compared?
  }

  /** The operator a level reads at `q`, and where the operand after it starts. */
  function Sign(level: Level, s: string, q: nat): (r: Option<(BinaryOp, nat)>)
    requires q <= |s|
    ensures r.Some? ==> q < r.value.1 <= |s| && Fits(level, r.value.0)
  {
    match level
    case PowerLevel(u) =>
      (match PowerSign(s, q, u)
       case None => None
       case Some(a) => Some((Raise, a)))
    case TermLevel(u) =>
      (match (if u then Grammar.TermSign(s, q) else OperatorPrecedence.TermSign(s, q))
       case None => None
       case Some((op, a)) => Some((Arith(op), a)))
    case ExprLevel(u) =>
      (match (if u then Grammar.ExprSign(s, q) else OperatorPrecedence.ExprSign(s, q))
       case None => None
       case Some((op, a)) => Some((Arith(op), a)))
    case ComparisonLevel(_) =>
      (match ComparisonSign(s, q)
       case None => None
       case Some((rel, a)) => Some((Compared(rel), a)))
  }

  /** The parser of the level below, which reads the first operand and the
      operand after each operator. */
  function OperandOf(level: Level, s: string, a: nat): (r: Parsed<Node>)
    requires a <= |s|
    ensures r.Done? ==> a < r.rest <= |s| && WellKinded(r.value)
  {
    match level
    case PowerLevel(_) => Operand(s, a)
    case TermLevel(u) => Factor(s, a, u)
    case ExprLevel(u) => if u then Grammar.Term(s, a) else OperatorPrecedence.Term(s, a)
    case ComparisonLevel(u) => if u then Grammar.Expr(s, a) else OperatorPrecedence.Expr(s, a)
  }

  /** How a level joins the tree so far with the next operand. */
  function Combine(level: Level, op: BinaryOp, l: Node, r: Node): (res: Result<Node, BuildError>)
    requires Fits(level, op) && WellKinded(l) && WellKinded(r)
    ensures res.Ok? ==> WellKinded(res.value)
  {
    match level
    case PowerLevel(u) =>
      (match Power(l, r, u)
       case Ok(n) => Ok(n)
       case Err(f) => Err(Library(f)))
    case TermLevel(u) =>
      if u then ApplyOperation(op.op, l, r) else OperatorPrecedence.Divided(op.op, l, r)
    case ExprLevel(u) =>
      if u then HandleOperation(op.op, l, r)
      else
        (match MakeArith(op.op, l, r)
         case Ok(n) => Ok(n)
         case Err(f) => Err(Library(f)))
    case ComparisonLevel(u) =>
      if u then CompareOperation(op.rel, l, r)
      else
        (match MakeRelation(op.rel, l, r)
         case Ok(n) => Ok(n)
         case Err(f) => Err(Library(f)))
  }

  /** The loop of a level, as each grammar writes it. */
  function Rest(level: Level, s: string, q: nat, left: Node): (r: Parsed<Node>)
    requires q <= |s| && WellKinded(left)
  {
    match level
    case PowerLevel(u) => FactorRest(s, q, left, u)
    case TermLevel(u) => if u then Grammar.TermRest(s, q, left) else OperatorPrecedence.TermRest(s, q, left)
    case ExprLevel(u) => if u then Grammar.ExprRest(s, q, left) else OperatorPrecedence.ExprRest(s, q, left)
    case ComparisonLevel(u) => if u then Grammar.ComparisonRest(s, q, left) else OperatorPrecedence.ComparisonRest(s, q, left)
  }

  /** The whole level: its first operand, then its loop. */
  function Parse(level: Level, s: string, p: nat): (r: Parsed<Node>)
    requires p <= |s|
  {
    match level
    case PowerLevel(u) => Factor(s, p, u)
    case TermLevel(u) => if u then Grammar.Term(s, p) else OperatorPrecedence.Term(s, p)
    case ExprLevel(u) => if u then Grammar.Expr(s, p) else OperatorPrecedence.Expr(s, p)
    case ComparisonLevel(u) => if u then Grammar.Comparison(s, p) else OperatorPrecedence.ComparisonExpr(s, p)
  }

  /** Nothing more is read at `q`: no operator, or an operator with no
      operand after it (the operator is then left unread). */
  predicate Stops(level: Level, s: string, q: nat)
    requires q <= |s|
  {
    match Sign(level, s, q)
    case None => true
    case Some((_, a)) => OperandOf(level, s, a).NoMatch?
  }

  /** `steps` are the operator-operand pairs a level reads from `q` on, and
      the level stops after the last of them. */
  predicate Chain(level: Level, s: string, q: nat, steps: seq<Step>)
    decreases |steps|
  {
    q <= |s| &&
    if steps == [] then Stops(level, s, q)
    else
      match Sign(level, s, q)
      case None => false
      case Some((op, a)) =>
        steps[0].op == op && OperandOf(level, s, a) == Done(steps[0].operand, steps[0].end)
        && Chain(level, s, steps[0].end, steps[1..])
  }

  /** Every operator fits the level and every operand is well kinded. */
  predicate Fitting(level: Level, steps: seq<Step>) {
    forall i | 0 <= i < |steps| :: Fits(level, steps[i].op) && WellKinded(steps[i].operand)
  }

  /** Where a chain from `q` ends. */
  function ChainEnd(q: nat, steps: seq<Step>): nat {
    if steps == [] then q else steps[|steps| - 1].end
  }

  /** The left fold: the last operator is the root, with the fold of all
      earlier pairs as its left operand and the last operand as its right;
      the first combine that fails is the failure. */
  function Fold(level: Level, left: Node, steps: seq<Step>): (r: Result<Node, BuildError>)
    requires WellKinded(left) && Fitting(level, steps)
    ensures r.Ok? ==> WellKinded(r.value)
    decreases |steps|
  {
    if steps == [] then Ok(left)
    else
      var last := steps[|steps| - 1];
      match Fold(level, left, steps[..|steps| - 1])
      case Err(e) => Err(e)
      case Ok(n) => Combine(level, last.op, n, last.operand)
  }

  /** A fold as a parse outcome: the tree read up to `end`, or the failure thrown. */
  function Outcome(r: Result<Node, BuildError>, end: nat): Parsed<Node> {
    match r
    case Ok(n) => Done(n, end)
    case Err(e) => Threw(e)
  }

  /** The operands of a chain are what the level below produces. */
  lemma {:induction false} ChainFitting(level: Level, s: string, q: nat, steps: seq<Step>)
    requires Chain(level, s, q, steps)
    ensures Fitting(level, steps)
    decreases |steps|
  {
    if steps != [] {
      ChainFitting(level, s, steps[0].end, steps[1..]);
      forall i | 0 <= i < |steps| ensures Fits(level, steps[i].op) && WellKinded(steps[i].operand) {
        if i > 0 {
          assert steps[i] == steps[1..][i - 1];
        }
      }
    }
  }

  /** A slice of a fitting sequence of pairs fits too. */
  lemma FittingSlice(level: Level, steps: seq<Step>, i: nat, j: nat)
    requires i <= j <= |steps| && Fitting(level, steps)
    ensures Fitting(level, steps[i..j])
  {
    forall m | 0 <= m < j - i ensures Fits(level, steps[i..j][m].op) && WellKinded(steps[i..j][m].operand) {
      assert steps[i..j][m] == steps[i + m];
    }
  }

  /** The fold taken from the front: combine the first pair, then fold the rest. */
  lemma {:induction false} FoldFromFront(level: Level, left: Node, steps: seq<Step>)
    requires |steps| > 0 && WellKinded(left) && Fitting(level, steps)
    ensures Fold(level, left, steps) ==
      match Combine(level, steps[0].op, left, steps[0].operand)
      case Err(e) => Err(e)
      case Ok(n) => Fold(level, n, steps[1..])
    decreases |steps|
  {
    if |steps| > 1 {
      var init := steps[..|steps| - 1];
      FittingSlice(level, steps, 0, |steps| - 1);
      FoldFromFront(level, left, init);
      assert init[0] == steps[0];
      var c := Combine(level, steps[0].op, left, steps[0].operand);
      if c.Ok? {
        var tail := steps[1..];
        assert tail[..|tail| - 1] == init[1..];
        assert tail[|tail| - 1] == steps[|steps| - 1];
      }
    }
  }

  /** A level's loop stops where the chain stops, with the tree so far. */
  lemma RestStops(level: Level, s: string, q: nat, left: Node)
    requires q <= |s| && WellKinded(left) && Stops(level, s, q)
    ensures Rest(level, s, q, left) == Done(left, q)
  {
    match level
    case PowerLevel(u) =>
    case TermLevel(u) =>
    case ExprLevel(u) =>
    case ComparisonLevel(u) =>
  }

  /** One turn of a level's loop: after an operator and an operand, the
      combined tree, and the loop goes on from the end of the operand. */
  lemma RestStep(level: Level, s: string, q: nat, left: Node, op: BinaryOp, a: nat, right: Node, k: nat)
    requires q <= |s| && WellKinded(left)
    requires Sign(level, s, q) == Some((op, a)) && OperandOf(level, s, a) == Done(right, k)
    ensures Rest(level, s, q, left) ==
      match Combine(level, op, left, right)
      case Ok(n) => Rest(level, s, k, n)
      case Err(e) => Threw(e)
  {
    match level
    case PowerLevel(u) =>
    case TermLevel(u) =>
    case ExprLevel(u) =>
    case ComparisonLevel(u) =>
  }

  /** Left associativity: a level's loop over a chain of pairs yields the
      left fold of the level's combine function over them, ending where the
      last operand ends. */
  lemma {:induction false} RestIsLeftFold(level: Level, s: string, q: nat, left: Node, steps: seq<Step>)
    requires WellKinded(left) && Chain(level, s, q, steps)
    ensures Fitting(level, steps)
    ensures Rest(level, s, q, left) == Outcome(Fold(level, left, steps), ChainEnd(q, steps))
    decreases |steps|
  {
    ChainFitting(level, s, q, steps);
    if steps == [] {
      RestStops(level, s, q, left);
    } else {
      var a := Sign(level, s, q).value.1;
      RestStep(level, s, q, left, steps[0].op, a, steps[0].operand, steps[0].end);
      FoldFromFront(level, left, steps);
      var e0 := steps[0].end;
      match Combine(level, steps[0].op, left, steps[0].operand)
      case Err(e) =>
      case Ok(n) =>
        RestIsLeftFold(level, s, e0, n, steps[1..]);
        assert ChainEnd(e0, steps[1..]) == ChainEnd(q, steps);
    }
  }

  /** Precedence: a whole level is its first operand, read by the level
      below, followed by a chain of pairs whose operands the level below
      reads too, folded from the left. */
  lemma LevelIsLeftFold(level: Level, s: string, p: nat, first: Node, q: nat, steps: seq<Step>)
    requires p <= |s| && OperandOf(level, s, p) == Done(first, q)
    requires Chain(level, s, q, steps)
    ensures Fitting(level, steps)
    ensures Parse(level, s, p) == Outcome(Fold(level, first, steps), ChainEnd(q, steps))
  {
    RestIsLeftFold(level, s, q, first, steps);
  }
}
