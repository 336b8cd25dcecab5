/// The combine functions of the three operator levels: `TermParser.ApplyOperation`
/// (`* / %`), `ExprParser.HandleOperation` (`+ -`) and the comparison level
/// of `ComparisonExprParser`. Each picks the node to build from the static
/// kinds of its two operands.
module Operators {
  import opened Wrappers
  import opened Values
  import opened Expressions
  import VectorOperations

  /** The operators the term level produces. */
  predicate IsTermOp(op: ArithOp) { op == Multiply || op == Divide || op == Modulo }

  /** The operators the additive level produces. */
  predicate IsExprOp(op: ArithOp) { op == Add || op == Subtract }

  /** The kind of an arithmetic result: a `double` from two `double`s, an array otherwise. */
  function ArithKind(l: Kind, r: Kind): Kind {
    if l == ScalarKind && r == ScalarKind then ScalarKind else VectorKind
  }

  function UnsupportedMessage(op: ArithOp, l: Kind, r: Kind): string {
    "Операция " + OpName(op) + " не поддерживается для типов: " + TypeText(l) + " и " + TypeText(r)
  }

  function MethodNotFoundMessage(op: ArithOp): string {
    "Метод для операции " + OpName(op) + " не найден."
  }

  // ---------------- TermParser.ApplyOperation ----------------

  /** `ApplyOperation`: two `double`s use the native operator; any pairing of
      `double` and `double[]` calls the `VectorOperations` overload with the
      operands in their written order; anything with a `bool` is rejected. */
  function ApplyOperation(op: ArithOp, l: Node, r: Node): (res: Result<Node, BuildError>)
    requires IsTermOp(op) && WellKinded(l) && WellKinded(r)
    ensures res.Ok? <==> KindOf(l) != Some(BoolKind) && KindOf(r) != Some(BoolKind)
    ensures res.Ok? ==> KindOf(res.value) == Some(ArithKind(KindOf(l).value, KindOf(r).value))
    ensures res.Err? ==> res.error == Raised(UnsupportedMessage(op, KindOf(l).value, KindOf(r).value))
  {
    match (KindOf(l).value, KindOf(r).value)
    case (ScalarKind, ScalarKind) => Ok(Binary(op, l, r))
    case (VectorKind, VectorKind) => Ok(VectorCall(op, BothVectors, l, r))
    case (ScalarKind, VectorKind) => Ok(VectorCall(op, ScalarFirst, l, r))
    case (VectorKind, ScalarKind) => Ok(VectorCall(op, VectorFirst, l, r))
    case (kl, kr) => Err(Raised(UnsupportedMessage(op, kl, kr)))
  }

  /** A term keeps the written operand order: an array divided by a scalar
      divides every element by it, and a scalar divided by an array divides
      it by every element. */
  lemma TermKeepsOperandOrder(math: MathLib, op: ArithOp, l: Node, r: Node, xs: seq<real>, y: real)
    requires IsTermOp(op) && KindOf(l) == Some(VectorKind) && KindOf(r) == Some(ScalarKind)
    requires Eval(math, l) == Ok(Vector(xs)) && Eval(math, r) == Ok(Scalar(y))
    requires op == Divide ==> y != 0.0 && !VectorOperations.HasZero(xs)
    ensures ApplyOperation(op, l, r) == Ok(VectorCall(op, VectorFirst, l, r))
    ensures ApplyOperation(op, r, l) == Ok(VectorCall(op, ScalarFirst, r, l))
    ensures Eval(math, VectorCall(op, VectorFirst, l, r))
      == Ok(Vector(seq(|xs|, i requires 0 <= i < |xs| => Arith(math, op, xs[i], y))))
    ensures Eval(math, VectorCall(op, ScalarFirst, r, l))
      == Ok(Vector(seq(|xs|, i requires 0 <= i < |xs| => Arith(math, op, y, xs[i]))))
  {
    var vs := VectorOperations.VectorScalar(math, op, xs, y);
    assert vs.value == seq(|xs|, i requires 0 <= i < |xs| => Arith(math, op, xs[i], y));
    var sv := VectorOperations.ScalarVector(math, op, y, xs);
    assert sv.value == seq(|xs|, i requires 0 <= i < |xs| => Arith(math, op, y, xs[i]));
  }

  /** Two scalars are divided natively, with no zero-divisor check. */
  lemma ScalarDivisionUnchecked(math: MathLib, l: Node, r: Node, x: real)
    requires KindOf(l) == Some(ScalarKind) && KindOf(r) == Some(ScalarKind)
    requires Eval(math, l) == Ok(Scalar(x)) && Eval(math, r) == Ok(Scalar(0.0))
    ensures ApplyOperation(Divide, l, r) == Ok(Binary(Divide, l, r))
    ensures Eval(math, Binary(Divide, l, r)) == Ok(Scalar(math.divideByZero(x)))
  {
  }

  /** An array divided by a zero scalar fails when it runs. */
  lemma VectorDivisionByZeroFails(math: MathLib, l: Node, r: Node, xs: seq<real>)
    requires KindOf(l) == Some(VectorKind) && KindOf(r) == Some(ScalarKind)
    requires Eval(math, l) == Ok(Vector(xs)) && Eval(math, r) == Ok(Scalar(0.0))
    ensures ApplyOperation(Divide, l, r) == Ok(VectorCall(Divide, VectorFirst, l, r))
    ensures Eval(math, VectorCall(Divide, VectorFirst, l, r)) == Err(VectorOperations.ZeroMessage)
  {
  }

  // ---------------- ExprParser.HandleOperation ----------------

  /** `HandleOperation`: two `double`s use the native `+`/`-`, two arrays the
      array-with-array overload; otherwise the `double` operand is taken as the
      scalar and the other as the vector, whatever their written order, and the
      scalar-first overload is looked up, which fails unless they really are a
      `double` and a `double[]`. */
  function HandleOperation(op: ArithOp, l: Node, r: Node): (res: Result<Node, BuildError>)
    requires IsExprOp(op) && WellKinded(l) && WellKinded(r)
    ensures res.Ok? <==> KindOf(l) != Some(BoolKind) && KindOf(r) != Some(BoolKind)
    ensures res.Ok? ==> KindOf(res.value) == Some(ArithKind(KindOf(l).value, KindOf(r).value))
    ensures res.Err? ==> res.error == Raised(MethodNotFoundMessage(op))
  {
    match (KindOf(l).value, KindOf(r).value)
    case (ScalarKind, ScalarKind) => Ok(Binary(op, l, r))
    case (VectorKind, VectorKind) => Ok(VectorCall(op, BothVectors, l, r))
    case (ScalarKind, VectorKind) => Ok(VectorCall(op, ScalarFirst, l, r))
    case (VectorKind, ScalarKind) => Ok(VectorCall(op, ScalarFirst, r, l))
    case _ => Err(Raised(MethodNotFoundMessage(op)))
  }

  /** For a scalar and an array the written order is ignored: both orders
      build the same tree. */
  lemma MixedOperandOrderIgnored(op: ArithOp, l: Node, r: Node)
    requires IsExprOp(op) && WellKinded(l) && WellKinded(r)
    requires KindOf(l) == Some(VectorKind) && KindOf(r) == Some(ScalarKind)
    ensures HandleOperation(op, l, r) == HandleOperation(op, r, l) == Ok(VectorCall(op, ScalarFirst, r, l))
  {
  }

  /** So an array minus a scalar computes the scalar minus each element, the
      opposite of what a term-level operator in written order gives. */
  lemma VectorMinusScalarReversed(math: MathLib, l: Node, r: Node, xs: seq<real>, y: real)
    requires KindOf(l) == Some(VectorKind) && KindOf(r) == Some(ScalarKind)
    requires Eval(math, l) == Ok(Vector(xs)) && Eval(math, r) == Ok(Scalar(y))
    ensures HandleOperation(Subtract, l, r) == HandleOperation(Subtract, r, l) == Ok(VectorCall(Subtract, ScalarFirst, r, l))
    ensures Eval(math, VectorCall(Subtract, ScalarFirst, r, l))
      == Ok(Vector(seq(|xs|, i requires 0 <= i < |xs| => y - xs[i])))
  {
    var d := VectorOperations.ScalarVector(math, Subtract, y, xs).value;
    assert d == seq(|xs|, i requires 0 <= i < |xs| => y - xs[i]);
  }

  /** Adding a scalar and an array gives the same array in either order. */
  lemma MixedAdditionCommutes(math: MathLib, l: Node, r: Node, xs: seq<real>, y: real)
    requires KindOf(l) == Some(VectorKind) && KindOf(r) == Some(ScalarKind)
    requires Eval(math, l) == Ok(Vector(xs)) && Eval(math, r) == Ok(Scalar(y))
    ensures HandleOperation(Add, l, r) == HandleOperation(Add, r, l) == Ok(VectorCall(Add, ScalarFirst, r, l))
    ensures Eval(math, VectorCall(Add, ScalarFirst, r, l))
      == Ok(Vector(seq(|xs|, i requires 0 <= i < |xs| => xs[i] + y)))
  {
    var d := VectorOperations.ScalarVector(math, Add, y, xs).value;
    assert d == seq(|xs|, i requires 0 <= i < |xs| => xs[i] + y);
  }

  /** `HandleOperation` as its mixed branch is evidently meant to work: an
      array on the left and a scalar on the right pick the array-first
      overload, which `VectorOperations` has for `Add` and `Subtract`, as
      `ApplyOperation` does for the term level. Every other pairing builds
      what `HandleOperation` builds. */
  function HandleOperationInOrder(op: ArithOp, l: Node, r: Node): (res: Result<Node, BuildError>)
    requires IsExprOp(op) && WellKinded(l) && WellKinded(r)
    ensures res.Ok? <==> KindOf(l) != Some(BoolKind) && KindOf(r) != Some(BoolKind)
    ensures res.Ok? ==> KindOf(res.value) == Some(ArithKind(KindOf(l).value, KindOf(r).value))
    ensures !(KindOf(l) == Some(VectorKind) && KindOf(r) == Some(ScalarKind)) ==> res == HandleOperation(op, l, r)
  {
    if KindOf(l) == Some(VectorKind) && KindOf(r) == Some(ScalarKind) then Ok(VectorCall(op, VectorFirst, l, r))
    else HandleOperation(op, l, r)
  }

  /** With the operands in written order an array minus a scalar subtracts
      the scalar from every element. */
  lemma VectorMinusScalarInOrder(math: MathLib, l: Node, r: Node, xs: seq<real>, y: real)
    requires KindOf(l) == Some(VectorKind) && KindOf(r) == Some(ScalarKind)
    requires Eval(math, l) == Ok(Vector(xs)) && Eval(math, r) == Ok(Scalar(y))
    ensures HandleOperationInOrder(Subtract, l, r) == Ok(VectorCall(Subtract, VectorFirst, l, r))
    ensures Eval(math, VectorCall(Subtract, VectorFirst, l, r))
      == Ok(Vector(seq(|xs|, i requires 0 <= i < |xs| => xs[i] - y)))
  {
    var d := VectorOperations.VectorScalar(math, Subtract, xs, y).value;
    assert d == seq(|xs|, i requires 0 <= i < |xs| => xs[i] - y);
  }

  // ---------------- The comparison level ----------------

  /** The combine function of `ComparisonExpr`: two arrays call the named
      `VectorOperations` comparison, an array and a scalar call
      `CompareVectorToScalar` or `CompareScalarToVector` in their written
      order, and anything else is `Expression.MakeBinary`. */
  function CompareOperation(rel: CompareOp, l: Node, r: Node): (res: Result<Node, BuildError>)
    requires WellKinded(l) && WellKinded(r)
    ensures res.Ok? <==>
      var kl, kr := KindOf(l).value, KindOf(r).value;
      (kl != BoolKind && kr != BoolKind) || RelationDefined(rel, kl, kr)
    ensures res.Ok? ==> KindOf(res.value) == Some(BoolKind)
    ensures res.Err? ==> res.error == Library(BinaryOperatorUndefined(RelationName(rel), KindOf(l).value, KindOf(r).value))
  {
    match (KindOf(l).value, KindOf(r).value)
    case (VectorKind, VectorKind) => Ok(VectorRelation(rel, l, r))
    case (VectorKind, ScalarKind) => Ok(VectorScalarRelation(rel, l, r))
    case (ScalarKind, VectorKind) => Ok(ScalarVectorRelation(rel, l, r))
    case _ =>
      match MakeRelation(rel, l, r)
      case Ok(n) => Ok(n)
      case Err(f) => Err(Library(f))
  }

  /** Two arrays compared the other way round with the mirrored operator. */
  lemma VectorsMirror(rel: CompareOp, xs: seq<real>, ys: seq<real>)
    ensures VectorOperations.Vectors(Mirror(rel), ys, xs) == VectorOperations.Vectors(rel, xs, ys)
  {
    if |xs| == |ys| {
      assert (forall i :: 0 <= i < |xs| ==> xs[i] == ys[i]) <==> (forall i :: 0 <= i < |ys| ==> ys[i] == xs[i]);
      assert (forall i :: 0 <= i < |xs| ==> Compare(xs[i], ys[i], rel))
        <==> (forall i :: 0 <= i < |ys| ==> Compare(ys[i], xs[i], Mirror(rel)));
    }
  }

  /** Two arrays compared the other way round with the mirrored operator. */
  lemma MirrorVectors(math: MathLib, rel: CompareOp, l: Node, r: Node, xs: seq<real>, ys: seq<real>)
    requires KindOf(l) == Some(VectorKind) && KindOf(r) == Some(VectorKind)
    requires Eval(math, l) == Ok(Vector(xs)) && Eval(math, r) == Ok(Vector(ys))
    ensures Eval(math, VectorRelation(Mirror(rel), r, l)) == Eval(math, VectorRelation(rel, l, r))
  {
    VectorsMirror(rel, xs, ys);
  }

  /** An array and a scalar compared the other way round with the mirrored operator. */
  lemma MirrorVectorScalar(math: MathLib, rel: CompareOp, l: Node, r: Node, xs: seq<real>, y: real)
    requires KindOf(l) == Some(VectorKind) && KindOf(r) == Some(ScalarKind)
    requires Eval(math, l) == Ok(Vector(xs)) && Eval(math, r) == Ok(Scalar(y))
    ensures Eval(math, ScalarVectorRelation(Mirror(rel), r, l)) == Eval(math, VectorScalarRelation(rel, l, r))
  {
    VectorOperations.ScalarToVectorMirrors(y, xs, Mirror(rel));
    assert Mirror(Mirror(rel)) == rel;
  }

  /** A scalar and an array compared the other way round with the mirrored operator. */
  lemma MirrorScalarVector(math: MathLib, rel: CompareOp, l: Node, r: Node, x: real, ys: seq<real>)
    requires KindOf(l) == Some(ScalarKind) && KindOf(r) == Some(VectorKind)
    requires Eval(math, l) == Ok(Scalar(x)) && Eval(math, r) == Ok(Vector(ys))
    ensures Eval(math, VectorScalarRelation(Mirror(rel), r, l)) == Eval(math, ScalarVectorRelation(rel, l, r))
  {
    VectorOperations.ScalarToVectorMirrors(x, ys, rel);
  }

  /** Two scalars, or two booleans under `==` and `!=`, compared the other way round. */
  lemma MirrorNative(math: MathLib, rel: CompareOp, l: Node, r: Node, a: Value, b: Value)
    requires KindOf(l) == Some(KindOfValue(a)) && KindOf(r) == Some(KindOfValue(b))
    requires RelationDefined(rel, KindOfValue(a), KindOfValue(b))
    requires Eval(math, l) == Ok(a) && Eval(math, r) == Ok(b)
    ensures Eval(math, Relation(Mirror(rel), r, l)) == Eval(math, Relation(rel, l, r))
  {
  }

  /** Writing the operands the other way round with the mirrored operator
      builds a comparison of the same truth value. */
  lemma ComparisonMirrors(math: MathLib, rel: CompareOp, l: Node, r: Node, a: Value, b: Value)
    requires KindOf(l) == Some(KindOfValue(a)) && KindOf(r) == Some(KindOfValue(b))
    requires CompareOperation(rel, l, r).Ok?
    requires Eval(math, l) == Ok(a) && Eval(math, r) == Ok(b)
    ensures CompareOperation(Mirror(rel), r, l).Ok?
    ensures Eval(math, CompareOperation(Mirror(rel), r, l).value) == Eval(math, CompareOperation(rel, l, r).value)
  {
    match (a, b)
    case (Vector(xs), Vector(ys)) =>
      assert CompareOperation(rel, l, r) == Ok(VectorRelation(rel, l, r));
      assert CompareOperation(Mirror(rel), r, l) == Ok(VectorRelation(Mirror(rel), r, l));
      MirrorVectors(math, rel, l, r, xs, ys);
    case (Vector(xs), Scalar(y)) =>
      assert CompareOperation(rel, l, r) == Ok(VectorScalarRelation(rel, l, r));
      assert CompareOperation(Mirror(rel), r, l) == Ok(ScalarVectorRelation(Mirror(rel), r, l));
      MirrorVectorScalar(math, rel, l, r, xs, y);
    case (Scalar(x), Vector(ys)) =>
      assert CompareOperation(rel, l, r) == Ok(ScalarVectorRelation(rel, l, r));
      assert CompareOperation(Mirror(rel), r, l) == Ok(VectorScalarRelation(Mirror(rel), r, l));
      MirrorScalarVector(math, rel, l, r, x, ys);
    case (Scalar(_), Scalar(_)) =>
      assert CompareOperation(rel, l, r) == Ok(Relation(rel, l, r));
      assert CompareOperation(Mirror(rel), r, l) == Ok(Relation(Mirror(rel), r, l));
      MirrorNative(math, rel, l, r, a, b);
    case (Boolean(_), Boolean(_)) =>
      assert CompareOperation(rel, l, r) == Ok(Relation(rel, l, r));
      assert CompareOperation(Mirror(rel), r, l) == Ok(Relation(Mirror(rel), r, l));
      MirrorNative(math, rel, l, r, a, b);
    case _ =>
      // a `bool` beside a number: `CompareOperation` rejected it
      assert false;
  }

  /** An array compared with a scalar holds when every element stands in the
      relation to it. */
  lemma VectorScalarComparisonMeaning(math: MathLib, rel: CompareOp, l: Node, r: Node, xs: seq<real>, y: real)
    requires KindOf(l) == Some(VectorKind) && KindOf(r) == Some(ScalarKind)
    requires Eval(math, l) == Ok(Vector(xs)) && Eval(math, r) == Ok(Scalar(y))
    ensures CompareOperation(rel, l, r) == Ok(VectorScalarRelation(rel, l, r))
    ensures Eval(math, VectorScalarRelation(rel, l, r)) == Ok(Boolean(forall i :: 0 <= i < |xs| ==> Compare(xs[i], y, rel)))
  {
  }
}
