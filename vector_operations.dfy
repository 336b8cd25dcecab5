/// `VectorOperations`: element-wise arithmetic and comparisons over `double[]`,
/// with the length and zero-divisor guards the calculator calls at run time,
/// and the factorial.
module VectorOperations {
  import opened Wrappers
  import opened Values

  const LengthMessage: string := "Векторы должны быть одинаковой длины."
  const ZeroMessage: string := "Невозможно делить на ноль."
  const FactorialMessage: string := "Факториал только для неотрицательных целых чисел."

  predicate HasZero(v: seq<real>) { exists i :: 0 <= i < |v| && v[i] == 0.0 }

  /** The vector-with-vector form: both lengths must agree and, for a division,
      no divisor may be zero; then `result[i] = l[i] op r[i]`. */
  function VectorVector(math: MathLib, op: ArithOp, l: seq<real>, r: seq<real>): (res: Result<seq<real>, string>)
    ensures res.Err? <==> |l| != |r| || (op == Divide && HasZero(r))
    ensures res.Err? && |l| != |r| ==> res.error == LengthMessage
    ensures res.Err? && |l| == |r| ==> res.error == ZeroMessage
    ensures res.Ok? ==> |res.value| == |l| && forall i :: 0 <= i < |l| ==> res.value[i] == Arith(math, op, l[i], r[i])
  {
    if |l| != |r| then Err(LengthMessage)
    else if op == Divide && HasZero(r) then Err(ZeroMessage)
    else Ok(seq(|l|, i requires 0 <= i < |l| => Arith(math, op, l[i], r[i])))
  }

  /** The scalar-first form: `result[i] = s op v[i]`; a division fails on any zero
      element; `%` is never guarded. */
  function ScalarVector(math: MathLib, op: ArithOp, s: real, v: seq<real>): (res: Result<seq<real>, string>)
    ensures res.Err? <==> op == Divide && HasZero(v)
    ensures res.Err? ==> res.error == ZeroMessage
    ensures res.Ok? ==> |res.value| == |v| && forall i :: 0 <= i < |v| ==> res.value[i] == Arith(math, op, s, v[i])
  {
    if op == Divide && HasZero(v) then Err(ZeroMessage)
    else Ok(seq(|v|, i requires 0 <= i < |v| => Arith(math, op, s, v[i])))
  }

  /** The vector-first form: `result[i] = v[i] op s`; a division fails on a zero scalar. */
  function VectorScalar(math: MathLib, op: ArithOp, v: seq<real>, s: real): (res: Result<seq<real>, string>)
    ensures res.Err? <==> op == Divide && s == 0.0
    ensures res.Err? ==> res.error == ZeroMessage
    ensures res.Ok? ==> |res.value| == |v| && forall i :: 0 <= i < |v| ==> res.value[i] == Arith(math, op, v[i], s)
  {
    if op == Divide && s == 0.0 then Err(ZeroMessage)
    else Ok(seq(|v|, i requires 0 <= i < |v| => Arith(math, op, v[i], s)))
  }

  /** Dividing two vectors and multiplying the quotient back by the divisor
      restores the dividend. */
  lemma DivideThenMultiply(math: MathLib, l: seq<real>, r: seq<real>)
    requires VectorVector(math, Divide, l, r).Ok?
    ensures VectorVector(math, Multiply, VectorVector(math, Divide, l, r).value, r) == Ok(l)
  {
    var q := VectorVector(math, Divide, l, r).value;
    var back := VectorVector(math, Multiply, q, r).value;
    forall i | 0 <= i < |l|
      ensures back[i] == l[i]
    {
      assert r[i] != 0.0;
    }
    assert back == l;
  }

  /** Vector addition and multiplication do not depend on the operand order. */
  lemma VectorVectorCommutes(math: MathLib, op: ArithOp, l: seq<real>, r: seq<real>)
    requires op == Add || op == Multiply
    ensures VectorVector(math, op, l, r) == VectorVector(math, op, r, l)
  {
    if |l| == |r| {
      assert VectorVector(math, op, l, r).value == VectorVector(math, op, r, l).value;
    }
  }

  /** The two mixed subtractions give opposite elements: `s - v[i]` and `v[i] - s`. */
  lemma MixedSubtractionsOpposite(math: MathLib, s: real, v: seq<real>)
    ensures var a := ScalarVector(math, Subtract, s, v).value;
      var b := VectorScalar(math, Subtract, v, s).value;
      |a| == |b| && forall i :: 0 <= i < |a| ==> a[i] == -b[i]
  {
  }

  /** `Enumerable.Sum`: the elements added from the first to the last. */
  function Total(xs: seq<real>): real
    decreases |xs|
  {
    if |xs| == 0 then 0.0 else Total(xs[..|xs| - 1]) + xs[|xs| - 1]
  }

  /** The sum of a concatenation is the sum of the sums. */
  lemma {:induction false} TotalAppend(a: seq<real>, b: seq<real>)
    ensures Total(a + b) == Total(a) + Total(b)
    decreases |b|
  {
    if |b| == 0 {
      assert a + b == a;
    } else {
      var c := a + b;
      assert c[..|c| - 1] == a + b[..|b| - 1];
      TotalAppend(a, b[..|b| - 1]);
    }
  }

  /** `DotProduct`: equal lengths, then the sum of the element products. */
  function DotProduct(l: seq<real>, r: seq<real>): (res: Result<real, string>)
    ensures res.Err? <==> |l| != |r|
    ensures res.Err? ==> res.error == LengthMessage
  {
    if |l| != |r| then Err(LengthMessage)
    else Ok(Total(seq(|l|, i requires 0 <= i < |l| => l[i] * r[i])))
  }

  /** The dot product does not depend on the operand order. */
  lemma DotProductCommutes(l: seq<real>, r: seq<real>)
    ensures DotProduct(l, r) == DotProduct(r, l)
  {
    if |l| == |r| {
      assert seq(|l|, i requires 0 <= i < |l| => l[i] * r[i]) == seq(|r|, i requires 0 <= i < |r| => r[i] * l[i]);
    }
  }

  /** The sum of the squares under `Magnitude`'s square root. */
  function SumOfSquares(v: seq<real>): real {
    Total(seq(|v|, i requires 0 <= i < |v| => v[i] * v[i]))
  }

  /** `Magnitude`: the square root of the sum of squares, i.e. of the vector's
      dot product with itself. */
  function Magnitude(math: MathLib, v: seq<real>): (m: real)
    ensures DotProduct(v, v) == Ok(SumOfSquares(v)) && m == math.sqrt(SumOfSquares(v))
  {
    math.sqrt(SumOfSquares(v))
  }

  const NormalizeMessage: string := "Невозможно нормализовать нулевой вектор."

  /** `Normalize`: a zero magnitude is rejected; otherwise every element is
      divided by the magnitude. */
  function Normalize(math: MathLib, v: seq<real>): (res: Result<seq<real>, string>)
    ensures res.Err? <==> Magnitude(math, v) == 0.0
    ensures res.Err? ==> res.error == NormalizeMessage
    ensures res.Ok? ==> res == VectorScalar(math, Divide, v, Magnitude(math, v))
  {
    var m := Magnitude(math, v);
    if m == 0.0 then Err(NormalizeMessage)
    else
      var q := seq(|v|, i requires 0 <= i < |v| => v[i] / m);
      assert q == VectorScalar(math, Divide, v, m).value;
      Ok(q)
  }

  /** Scaling a normalized vector back by the magnitude restores it. */
  lemma NormalizeThenScale(math: MathLib, v: seq<real>)
    requires Normalize(math, v).Ok?
    ensures VectorScalar(math, Multiply, Normalize(math, v).value, Magnitude(math, v)) == Ok(v)
  {
    var m := Magnitude(math, v);
    var back := VectorScalar(math, Multiply, Normalize(math, v).value, m).value;
    assert forall i :: 0 <= i < |v| ==> back[i] == v[i];
    assert back == v;
  }

  /** `VectorOperations.Equal` and the four ordered comparisons: equal lengths,
      then the relation at every index. `NotEqual` negates `Equal`, so it holds
      as soon as one pair differs. */
  function Vectors(op: CompareOp, l: seq<real>, r: seq<real>): (res: Result<bool, string>)
    ensures res.Err? <==> |l| != |r|
    ensures res.Err? ==> res.error == LengthMessage
    ensures res.Ok? && op != NotEqual ==> (res.value <==> forall i :: 0 <= i < |l| ==> Compare(l[i], r[i], op))
  {
    if |l| != |r| then Err(LengthMessage)
    else if op == NotEqual then Ok(!(forall i :: 0 <= i < |l| ==> l[i] == r[i]))
    else Ok(forall i :: 0 <= i < |l| ==> Compare(l[i], r[i], op))
  }

  /** `NotEqual` holds exactly when some pair of elements differs. */
  lemma NotEqualMeansSomePairDiffers(l: seq<real>, r: seq<real>)
    requires |l| == |r|
    ensures Vectors(NotEqual, l, r) == Ok(exists i :: 0 <= i < |l| && l[i] != r[i])
    ensures Vectors(NotEqual, l, r) == Ok(!Vectors(Equal, l, r).value)
  {
  }

  /** `CompareVectorToScalar`: every element stands in the relation to the scalar. */
  function VectorToScalar(v: seq<real>, s: real, op: CompareOp): bool {
    forall i :: 0 <= i < |v| ==> Compare(v[i], s, op)
  }

  /** `CompareScalarToVector`: the scalar stands in the relation to every element. */
  function ScalarToVector(s: real, v: seq<real>, op: CompareOp): bool {
    forall i :: 0 <= i < |v| ==> Compare(s, v[i], op)
  }

  /** Writing the scalar on the other side is the mirrored comparison. */
  lemma ScalarToVectorMirrors(s: real, v: seq<real>, op: CompareOp)
    ensures ScalarToVector(s, v, op) == VectorToScalar(v, s, Mirror(op))
  {
    assert forall i :: 0 <= i < |v| ==> (Compare(s, v[i], op) <==> Compare(v[i], s, Mirror(op)));
  }

  /** The product 2 * 3 * ... * n. */
  function Factorial(n: nat): nat {
    if n <= 1 then 1 else n * Factorial(n - 1)
  }

  lemma {:induction false} FactorialPositive(n: nat)
    ensures Factorial(n) >= 1
  {
    if n > 1 {
      FactorialPositive(n - 1);
    }
  }

  predicate IsWhole(x: real) { x == x.Floor as real }

  /** `Fact(double)`: negative or non-integral arguments are rejected; otherwise
      the factorial of the argument. */
  function Fact(x: real): (r: Result<real, string>)
    ensures r.Err? <==> x < 0.0 || !IsWhole(x)
    ensures r.Err? ==> r.error == FactorialMessage
    ensures r.Ok? ==> r.value >= 1.0
  {
    if x < 0.0 || !IsWhole(x) then Err(FactorialMessage)
    else
      FactorialPositive(x.Floor);
      Ok(Factorial(x.Floor) as real)
  }

  /** The loop of `Fact(double)`: `result` starts at 1 and is multiplied by
      2, 3, ..., x. */
  method FactLoop(x: real) returns (r: Result<real, string>)
    ensures r == Fact(x)
  {
    if x < 0.0 || x != x.Floor as real {
      return Err(FactorialMessage);
    }
    var n: nat := x.Floor;
    var result: real := 1.0;
    var i: nat := 2;
    while i <= n
      invariant 2 <= i <= if n < 2 then 2 else n + 1
      invariant result == Factorial(i - 1) as real
    {
      result := result * i as real;
      i := i + 1;
    }
    return Ok(result);
  }

  /** Each accepted argument's successor is accepted too, with its factorial
      multiplied by the successor: `fact(x + 1) = (x + 1) * fact(x)`. */
  lemma FactStep(x: real)
    requires Fact(x).Ok?
    ensures Fact(x + 1.0) == Ok((x + 1.0) * Fact(x).value)
  {
    assert (x + 1.0).Floor == x.Floor + 1;
  }

  /** `Fact(double[])`: the factorial of each element; the first element that is
      rejected rejects the vector. */
  function FactAll(v: seq<real>): (r: Result<seq<real>, string>)
    ensures r.Ok? <==> forall i :: 0 <= i < |v| ==> Fact(v[i]).Ok?
    ensures r.Ok? ==> |r.value| == |v| && forall i :: 0 <= i < |v| ==> r.value[i] == Fact(v[i]).value
    ensures r.Err? ==> r.error == FactorialMessage
    decreases |v|
  {
    if |v| == 0 then Ok([])
    else match Fact(v[0])
      case Err(e) => Err(e)
      case Ok(f) =>
        match FactAll(v[1..])
        case Err(e) => Err(e)
        case Ok(rest) =>
          assert forall i :: 1 <= i < |v| ==> v[i] == v[1..][i - 1];
          Ok([f] + rest)
  }
}
