/// The expression trees the parser builds (in the source, `System.Linq.Expressions`
/// nodes), the checks the .NET factory methods make when a node is built, and
/// what evaluating a compiled tree computes.
module Expressions {
  import opened Wrappers
  import opened Values
  import opened Errors
  import VectorOperations

  /** The one-argument `System.Math` methods of the function table. */
  datatype UnaryFn = Sqrt | Abs | Sin | Cos

  /** The two-argument `System.Math` methods of the function table. */
  datatype BinaryFn = Min | Max | Pow | Log

  function UnaryName(f: UnaryFn): string {
    match f
    case Sqrt => "Sqrt"
    case Abs => "Abs"
    case Sin => "Sin"
    case Cos => "Cos"
  }

  function BinaryName(g: BinaryFn): string {
    match g
    case Min => "Min"
    case Max => "Max"
    case Pow => "Pow"
    case Log => "Log"
  }

  /** `Math.Abs` is exact; the others come from the library. */
  function Apply1(math: MathLib, f: UnaryFn, x: real): real {
    match f
    case Sqrt => math.sqrt(x)
    case Abs => if x < 0.0 then -x else x
    case Sin => math.sin(x)
    case Cos => math.cos(x)
  }

  /** `Math.Min` and `Math.Max` are exact; `Math.Log(a, newBase)` and `Math.Pow` come from the library. */
  function Apply2(math: MathLib, g: BinaryFn, a: real, b: real): real {
    match g
    case Min => if a <= b then a else b
    case Max => if a >= b then a else b
    case Pow => math.pow(a, b)
    case Log => math.log(a, b)
  }

  /** Which `VectorOperations` overload a vector operator calls. */
  datatype Shape = BothVectors | ScalarFirst | VectorFirst

  /** A built expression tree. */
  datatype Node =
    | Constant(x: real)                                          // Expression.Constant(double)
    | NewArray(items: seq<Node>)                                 // Expression.NewArrayInit(typeof(double), ...)
    | Negate(operand: Node)                                      // Expression.Negate
    | Binary(op: ArithOp, left: Node, right: Node)               // the double operators
    | VectorCall(op: ArithOp, shape: Shape, left: Node, right: Node)  // VectorOperations.Add ... Modulo
    | Relation(rel: CompareOp, left: Node, right: Node)          // a comparison of two doubles or two bools
    | VectorRelation(rel: CompareOp, left: Node, right: Node)    // VectorOperations.Equal ... GreaterThanOrEqual
    | VectorScalarRelation(rel: CompareOp, left: Node, right: Node)  // CompareVectorToScalar
    | ScalarVectorRelation(rel: CompareOp, left: Node, right: Node)  // CompareScalarToVector
    | MathCall1(f: UnaryFn, arg: Node)                           // Math.Sqrt(x) ...
    | MathCall2(g: BinaryFn, left: Node, right: Node)            // Math.Pow(a, b) ...
    | MapArray(f: UnaryFn, arg: Node)                            // the loop of ApplyUnaryToArray
    | ZipArrays(g: BinaryFn, left: Node, right: Node)            // the loop of ApplyElementWiseBinary
    | BroadcastArray(g: BinaryFn, vector: Node, scalar: Node, scalarFirst: bool)  // the loop of ApplyScalarToArray
    | Concat(left: Node, right: Node)                            // Enumerable.Concat
    | SumOf(arg: Node)                                           // Enumerable.Sum
    | First(arg: Node)                                           // Enumerable.First
    | Condition(test: Node, whenTrue: Node, whenFalse: Node)     // Expression.Condition
    | FactCall(arg: Node)                                        // VectorOperations.Fact, either overload

  /** The static type of a node, or `None` for a tree no factory method builds. */
  function KindOf(n: Node): Option<Kind> {
    match n
    case Constant(_) => Some(ScalarKind)
    case NewArray(items) =>
      if forall i :: 0 <= i < |items| ==> KindOf(items[i]) == Some(ScalarKind) then Some(VectorKind) else None
    case Negate(e) => if KindOf(e) == Some(ScalarKind) then Some(ScalarKind) else None
    case Binary(_, l, r) => if KindOf(l) == Some(ScalarKind) && KindOf(r) == Some(ScalarKind) then Some(ScalarKind) else None
    case VectorCall(_, shape, l, r) =>
      if (KindOf(l), KindOf(r)) == ShapeKinds(shape) then Some(VectorKind) else None
    case Relation(rel, l, r) =>
      if KindOf(l) == Some(ScalarKind) && KindOf(r) == Some(ScalarKind) then Some(BoolKind)
      else if KindOf(l) == Some(BoolKind) && KindOf(r) == Some(BoolKind) && IsEquality(rel) then Some(BoolKind)
      else None
    case VectorRelation(_, l, r) =>
      if KindOf(l) == Some(VectorKind) && KindOf(r) == Some(VectorKind) then Some(BoolKind) else None
    case VectorScalarRelation(_, l, r) =>
      if KindOf(l) == Some(VectorKind) && KindOf(r) == Some(ScalarKind) then Some(BoolKind) else None
    case ScalarVectorRelation(_, l, r) =>
      if KindOf(l) == Some(ScalarKind) && KindOf(r) == Some(VectorKind) then Some(BoolKind) else None
    case MathCall1(_, e) => if KindOf(e) == Some(ScalarKind) then Some(ScalarKind) else None
    case MathCall2(_, l, r) => if KindOf(l) == Some(ScalarKind) && KindOf(r) == Some(ScalarKind) then Some(ScalarKind) else None
    case MapArray(_, e) => if KindOf(e) == Some(VectorKind) then Some(VectorKind) else None
    case ZipArrays(_, l, r) => if KindOf(l) == Some(VectorKind) && KindOf(r) == Some(VectorKind) then Some(VectorKind) else None
    case BroadcastArray(_, a, s, _) =>
      if KindOf(a) == Some(VectorKind) && KindOf(s) == Some(ScalarKind) then Some(VectorKind) else None
    case Concat(l, r) => if KindOf(l) == Some(VectorKind) && KindOf(r) == Some(VectorKind) then Some(VectorKind) else None
    case SumOf(e) => if KindOf(e) == Some(VectorKind) then Some(ScalarKind) else None
    case First(e) => if KindOf(e) == Some(VectorKind) then Some(ScalarKind) else None
    case Condition(c, t, f) =>
      if KindOf(c) == Some(BoolKind) && KindOf(t).Some? && KindOf(t) == KindOf(f) then KindOf(t) else None
    case FactCall(e) => if KindOf(e) == Some(ScalarKind) || KindOf(e) == Some(VectorKind) then KindOf(e) else None
  }

  predicate WellKinded(n: Node) { KindOf(n).Some? }

  predicate AllWellKinded(ns: seq<Node>) { forall i :: 0 <= i < |ns| ==> WellKinded(ns[i]) }

  predicate IsEquality(rel: CompareOp) { rel == Equal || rel == NotEqual }

  /** The operand kinds each `VectorOperations` overload takes. */
  function ShapeKinds(shape: Shape): (Option<Kind>, Option<Kind>) {
    match shape
    case BothVectors => (Some(VectorKind), Some(VectorKind))
    case ScalarFirst => (Some(ScalarKind), Some(VectorKind))
    case VectorFirst => (Some(VectorKind), Some(ScalarKind))
  }

  /** The exceptions the .NET factory methods throw for operand types they do
      not accept; the controller turns each into its .NET message. */
  datatype LibraryFault =
    | UnaryOperatorUndefined(unaryOp: string, operand: Kind)
    | BinaryOperatorUndefined(binaryOp: string, leftKind: Kind, rightKind: Kind)
    | ArgumentType(methodName: string, argument: Kind)
    | ArrayElementType(element: Kind)
    | TestNotBoolean(testKind: Kind)
    | BranchTypesDiffer(trueKind: Kind, falseKind: Kind)
    | CoercionUndefined(from: Kind)

  /** How building a tree can fail: a `CalculatorException`, another exception
      the calculator throws with its own message, or a factory-method fault. */
  datatype BuildError = Calc(error: CalcError) | Raised(message: string) | Library(fault: LibraryFault)

  function ArithName(op: ArithOp): string { OpName(op) }

  function RelationName(rel: CompareOp): string {
    match rel
    case Equal => "Equal"
    case NotEqual => "NotEqual"
    case LessThan => "LessThan"
    case LessThanOrEqual => "LessThanOrEqual"
    case GreaterThan => "GreaterThan"
    case GreaterThanOrEqual => "GreaterThanOrEqual"
  }

  // ---------------- The factory methods and the checks they make ----------------

  /** `Expression.Negate`: defined for `double` only. */
  function MakeNegate(e: Node): (r: Result<Node, LibraryFault>)
    requires WellKinded(e)
    ensures r.Ok? <==> KindOf(e) == Some(ScalarKind)
    ensures r.Ok? ==> KindOf(r.value) == Some(ScalarKind)
    ensures r.Err? ==> r.error == UnaryOperatorUndefined("Negate", KindOf(e).value)
  {
    if KindOf(e) == Some(ScalarKind) then Ok(Negate(e)) else Err(UnaryOperatorUndefined("Negate", KindOf(e).value))
  }

  /** `Expression.MakeBinary` (`Add`, `Divide`, ...) for an arithmetic operator:
      defined for two `double`s only. */
  function MakeArith(op: ArithOp, l: Node, r: Node): (res: Result<Node, LibraryFault>)
    requires WellKinded(l) && WellKinded(r)
    ensures res.Ok? <==> KindOf(l) == Some(ScalarKind) && KindOf(r) == Some(ScalarKind)
    ensures res.Ok? ==> KindOf(res.value) == Some(ScalarKind)
    ensures res.Err? ==> res.error == BinaryOperatorUndefined(ArithName(op), KindOf(l).value, KindOf(r).value)
  {
    if KindOf(l) == Some(ScalarKind) && KindOf(r) == Some(ScalarKind) then Ok(Binary(op, l, r))
    else Err(BinaryOperatorUndefined(ArithName(op), KindOf(l).value, KindOf(r).value))
  }

  /** `Expression.MakeBinary(ExpressionType.Power, ...)`, which calls `Math.Pow`:
      defined for two `double`s only. */
  function MakePower(l: Node, r: Node): (res: Result<Node, LibraryFault>)
    requires WellKinded(l) && WellKinded(r)
    ensures res.Ok? <==> KindOf(l) == Some(ScalarKind) && KindOf(r) == Some(ScalarKind)
    ensures res.Ok? ==> KindOf(res.value) == Some(ScalarKind)
    ensures res.Err? ==> res.error == BinaryOperatorUndefined("Power", KindOf(l).value, KindOf(r).value)
  {
    if KindOf(l) == Some(ScalarKind) && KindOf(r) == Some(ScalarKind) then Ok(MathCall2(Pow, l, r))
    else Err(BinaryOperatorUndefined("Power", KindOf(l).value, KindOf(r).value))
  }

  /** The operand kinds a comparison operator is defined for: two `double`s,
      or two `bool`s under `==` and `!=`. */
  predicate RelationDefined(rel: CompareOp, l: Kind, r: Kind) {
    (l == ScalarKind && r == ScalarKind) || (l == BoolKind && r == BoolKind && IsEquality(rel))
  }

  /** `Expression.MakeBinary` for a comparison: two `double`s, or two `bool`s
      under `==` and `!=`. */
  function MakeRelation(rel: CompareOp, l: Node, r: Node): (res: Result<Node, LibraryFault>)
    requires WellKinded(l) && WellKinded(r)
    ensures res.Ok? <==> RelationDefined(rel, KindOf(l).value, KindOf(r).value)
    ensures res.Ok? ==> KindOf(res.value) == Some(BoolKind)
    ensures res.Err? ==> res.error == BinaryOperatorUndefined(RelationName(rel), KindOf(l).value, KindOf(r).value)
  {
    var node := Relation(rel, l, r);
    if KindOf(node).Some? then Ok(node)
    else Err(BinaryOperatorUndefined(RelationName(rel), KindOf(l).value, KindOf(r).value))
  }

  /** `Expression.Call` of a one-argument `Math` method: the argument must be a `double`. */
  function CallMath1(f: UnaryFn, e: Node): (r: Result<Node, LibraryFault>)
    requires WellKinded(e)
    ensures r.Ok? <==> KindOf(e) == Some(ScalarKind)
    ensures r.Ok? ==> KindOf(r.value) == Some(ScalarKind)
    ensures r.Err? ==> r.error == ArgumentType(UnaryName(f), KindOf(e).value)
  {
    if KindOf(e) == Some(ScalarKind) then Ok(MathCall1(f, e)) else Err(ArgumentType(UnaryName(f), KindOf(e).value))
  }

  /** `Expression.Call` of a two-argument `Math` method: both arguments must be
      `double`s; the first that is not is reported. */
  function CallMath2(g: BinaryFn, l: Node, r: Node): (res: Result<Node, LibraryFault>)
    requires WellKinded(l) && WellKinded(r)
    ensures res.Ok? <==> KindOf(l) == Some(ScalarKind) && KindOf(r) == Some(ScalarKind)
    ensures res.Ok? ==> KindOf(res.value) == Some(ScalarKind)
    ensures res.Err? && KindOf(l) != Some(ScalarKind) ==> res.error == ArgumentType(BinaryName(g), KindOf(l).value)
    ensures res.Err? && KindOf(l) == Some(ScalarKind) ==> res.error == ArgumentType(BinaryName(g), KindOf(r).value)
  {
    if KindOf(l) != Some(ScalarKind) then Err(ArgumentType(BinaryName(g), KindOf(l).value))
    else if KindOf(r) != Some(ScalarKind) then Err(ArgumentType(BinaryName(g), KindOf(r).value))
    else Ok(MathCall2(g, l, r))
  }

  /** The index of the first node that is not a `double`, if any. */
  function FirstNonScalar(items: seq<Node>): (r: Option<nat>)
    ensures r.None? <==> forall i :: 0 <= i < |items| ==> KindOf(items[i]) == Some(ScalarKind)
    ensures r.Some? ==> r.value < |items| && KindOf(items[r.value]) != Some(ScalarKind)
    ensures r.Some? ==> forall i :: 0 <= i < r.value ==> KindOf(items[i]) == Some(ScalarKind)
    decreases |items|
  {
    if |items| == 0 then None
    else if KindOf(items[0]) != Some(ScalarKind) then Some(0)
    else match FirstNonScalar(items[1..])
      case None => None
      case Some(k) => Some(k + 1)
  }

  /** `Expression.NewArrayInit(typeof(double), items)`: every element must be a
      `double`; the first that is not is reported. */
  function MakeNewArray(items: seq<Node>): (r: Result<Node, LibraryFault>)
    requires AllWellKinded(items)
    ensures r.Ok? <==> forall i :: 0 <= i < |items| ==> KindOf(items[i]) == Some(ScalarKind)
    ensures r.Ok? ==> KindOf(r.value) == Some(VectorKind)
    ensures r.Err? ==> exists i :: 0 <= i < |items| && r.error == ArrayElementType(KindOf(items[i]).value)
  {
    match FirstNonScalar(items)
    case None => Ok(NewArray(items))
    case Some(k) => Err(ArrayElementType(KindOf(items[k]).value))
  }

  /** `Expression.Condition`: the test must be a `bool` and both branches of one type. */
  function MakeCondition(test: Node, whenTrue: Node, whenFalse: Node): (r: Result<Node, LibraryFault>)
    requires WellKinded(test) && WellKinded(whenTrue) && WellKinded(whenFalse)
    ensures r.Ok? <==> KindOf(test) == Some(BoolKind) && KindOf(whenTrue) == KindOf(whenFalse)
    ensures r.Ok? ==> KindOf(r.value) == KindOf(whenTrue)
    ensures KindOf(test) != Some(BoolKind) ==> r == Err(TestNotBoolean(KindOf(test).value))
    ensures KindOf(test) == Some(BoolKind) && KindOf(whenTrue) != KindOf(whenFalse) ==>
      r == Err(BranchTypesDiffer(KindOf(whenTrue).value, KindOf(whenFalse).value))
  {
    if KindOf(test) != Some(BoolKind) then Err(TestNotBoolean(KindOf(test).value))
    else if KindOf(whenTrue) != KindOf(whenFalse) then Err(BranchTypesDiffer(KindOf(whenTrue).value, KindOf(whenFalse).value))
    else Ok(Condition(test, whenTrue, whenFalse))
  }

  // ---------------- Evaluation ----------------

  /** The message of `Enumerable.First` on an empty sequence. */
  const NoElementsMessage: string := "Sequence contains no elements"

  /** The unary loop: the function applied to every element. */
  function MapAll(math: MathLib, f: UnaryFn, xs: seq<real>): (r: seq<real>)
    ensures |r| == |xs|
  {
    seq(|xs|, i requires 0 <= i < |xs| => Apply1(math, f, xs[i]))
  }

  /** The element-wise loop: it runs to the shorter length. */
  function ZipShorter(math: MathLib, g: BinaryFn, a: seq<real>, b: seq<real>): (r: seq<real>)
    ensures |r| == if |a| < |b| then |a| else |b|
  {
    var n := if |a| < |b| then |a| else |b|;
    seq(n, i requires 0 <= i < n => Apply2(math, g, a[i], b[i]))
  }

  /** The scalar-to-array loop, with the scalar as first or second argument. */
  function Broadcast(math: MathLib, g: BinaryFn, xs: seq<real>, s: real, scalarFirst: bool): (r: seq<real>)
    ensures |r| == |xs|
  {
    seq(|xs|, i requires 0 <= i < |xs| => if scalarFirst then Apply2(math, g, s, xs[i]) else Apply2(math, g, xs[i], s))
  }

  /** What running a compiled tree gives: a value of the node's kind, or the
      message of the exception a `VectorOperations` method or `Enumerable.First`
      throws. Operands are evaluated left to right and only the chosen branch
      of a condition runs. */
  function Eval(math: MathLib, n: Node): (r: Result<Value, string>)
    requires WellKinded(n)
    ensures r.Ok? ==> KindOfValue(r.value) == KindOf(n).value
    decreases n
  {
    match n
    case Constant(x) => Ok(Scalar(x))
    case NewArray(items) =>
      var xs :- EvalScalars(math, items);
      Ok(Vector(xs))
    case Negate(e) =>
      var v :- Eval(math, e);
      Ok(Scalar(-v.x))
    case Binary(op, l, r) =>
      var a :- Eval(math, l);
      var b :- Eval(math, r);
      Ok(Scalar(Arith(math, op, a.x, b.x)))
    case VectorCall(op, shape, l, r) =>
      var a :- Eval(math, l);
      var b :- Eval(math, r);
      var v :- match shape
        case BothVectors => VectorOperations.VectorVector(math, op, a.elements, b.elements)
        case ScalarFirst => VectorOperations.ScalarVector(math, op, a.x, b.elements)
        case VectorFirst => VectorOperations.VectorScalar(math, op, a.elements, b.x);
      Ok(Vector(v))
    case Relation(rel, l, r) =>
      var a :- Eval(math, l);
      var b :- Eval(math, r);
      if a.Scalar? then Ok(Boolean(Compare(a.x, b.x, rel)))
      else Ok(Boolean(if rel == Equal then a.b == b.b else a.b != b.b))
    case VectorRelation(rel, l, r) =>
      var a :- Eval(math, l);
      var b :- Eval(math, r);
      var t :- VectorOperations.Vectors(rel, a.elements, b.elements);
      Ok(Boolean(t))
    case VectorScalarRelation(rel, l, r) =>
      var a :- Eval(math, l);
      var b :- Eval(math, r);
      Ok(Boolean(VectorOperations.VectorToScalar(a.elements, b.x, rel)))
    case ScalarVectorRelation(rel, l, r) =>
      var a :- Eval(math, l);
      var b :- Eval(math, r);
      Ok(Boolean(VectorOperations.ScalarToVector(a.x, b.elements, rel)))
    case MathCall1(f, e) =>
      var a :- Eval(math, e);
      Ok(Scalar(Apply1(math, f, a.x)))
    case MathCall2(g, l, r) =>
      var a :- Eval(math, l);
      var b :- Eval(math, r);
      Ok(Scalar(Apply2(math, g, a.x, b.x)))
    case MapArray(f, e) =>
      var a :- Eval(math, e);
      Ok(Vector(MapAll(math, f, a.elements)))
    case ZipArrays(g, l, r) =>
      var a :- Eval(math, l);
      var b :- Eval(math, r);
      Ok(Vector(ZipShorter(math, g, a.elements, b.elements)))
    case BroadcastArray(g, arr, s, scalarFirst) =>
      var a :- Eval(math, arr);
      if |a.elements| == 0 then Ok(Vector([]))
      else
        var b :- Eval(math, s);
        Ok(Vector(Broadcast(math, g, a.elements, b.x, scalarFirst)))
    case Concat(l, r) =>
      var a :- Eval(math, l);
      var b :- Eval(math, r);
      Ok(Vector(a.elements + b.elements))
    case SumOf(e) =>
      var a :- Eval(math, e);
      Ok(Scalar(VectorOperations.Total(a.elements)))
    case First(e) =>
      var a :- Eval(math, e);
      if |a.elements| == 0 then Err(NoElementsMessage) else Ok(Scalar(a.elements[0]))
    case Condition(c, t, f) =>
      var b :- Eval(math, c);
      if b.b then Eval(math, t) else Eval(math, f)
    case FactCall(e) =>
      var a :- Eval(math, e);
      if a.Scalar? then
        var y :- VectorOperations.Fact(a.x);
        Ok(Scalar(y))
      else
        var ys :- VectorOperations.FactAll(a.elements);
        Ok(Vector(ys))
  }

  /** The elements of an array initializer, evaluated left to right. */
  function EvalScalars(math: MathLib, items: seq<Node>): (r: Result<seq<real>, string>)
    requires forall i :: 0 <= i < |items| ==> KindOf(items[i]) == Some(ScalarKind)
    ensures r.Ok? ==> |r.value| == |items|
    decreases items
  {
    if |items| == 0 then Ok([])
    else
      var v :- Eval(math, items[0]);
      var rest :- EvalScalars(math, items[1..]);
      Ok([v.x] + rest)
  }
}
