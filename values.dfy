/// The run-time values of a compiled expression and the numeric library it
/// calls. A `double` is a `real`; the library functions whose results this
/// model does not compute (`Math.Sqrt`, `Math.Sin`, `Math.Cos`, `Math.Pow`,
/// `Math.Log`, the `%` operator and a division by zero) are a parameter.
module Values {
  /** The `System.Math` functions and the IEEE 754 results the model leaves open. */
  datatype MathLib = MathLib(
    sqrt: real -> real,
    sin: real -> real,
    cos: real -> real,
    pow: (real, real) -> real,
    log: (real, real) -> real,
    remainder: (real, real) -> real,
    divideByZero: real -> real)

  /** The static type of an expression node: `double`, `double[]` or `bool`. */
  datatype Kind = ScalarKind | VectorKind | BoolKind

  datatype Value = Scalar(x: real) | Vector(elements: seq<real>) | Boolean(b: bool)

  function KindOfValue(v: Value): Kind {
    match v
    case Scalar(_) => ScalarKind
    case Vector(_) => VectorKind
    case Boolean(_) => BoolKind
  }

  /** `Type.ToString()` of each kind. */
  function TypeText(k: Kind): string {
    match k
    case ScalarKind => "System.Double"
    case VectorKind => "System.Double[]"
    case BoolKind => "System.Boolean"
  }

  /** `Type.Name` of each kind. */
  function TypeName(k: Kind): string {
    match k
    case ScalarKind => "Double"
    case VectorKind => "Double[]"
    case BoolKind => "Boolean"
  }

  /** `Math.PI` and `Math.E`, as the decimal text of the `double` values. */
  const Pi: real := 3.141592653589793
  const E: real := 2.718281828459045

  /** The `double` operators the calculator uses, `+ - * / %`. */
  datatype ArithOp = Add | Subtract | Multiply | Divide | Modulo

  /** The name of the `VectorOperations` method or `ExpressionType` for each operator. */
  function OpName(op: ArithOp): string {
    match op
    case Add => "Add"
    case Subtract => "Subtract"
    case Multiply => "Multiply"
    case Divide => "Divide"
    case Modulo => "Modulo"
  }

  /** One `double` operation; dividing by zero gives the library's infinity or NaN. */
  function Arith(math: MathLib, op: ArithOp, l: real, r: real): real {
    match op
    case Add => l + r
    case Subtract => l - r
    case Multiply => l * r
    case Divide => if r != 0.0 then l / r else math.divideByZero(l)
    case Modulo => math.remainder(l, r)
  }

  /** The six comparison operators. */
  datatype CompareOp = Equal | NotEqual | LessThan | LessThanOrEqual | GreaterThan | GreaterThanOrEqual

  /** `CompareScalar`, and the native `double` comparison. */
  function Compare(l: real, r: real, op: CompareOp): bool {
    match op
    case Equal => l == r
    case NotEqual => l != r
    case LessThan => l < r
    case LessThanOrEqual => l <= r
    case GreaterThan => l > r
    case GreaterThanOrEqual => l >= r
  }

  /** The same relation with its operands swapped. */
  function Mirror(op: CompareOp): (m: CompareOp)
    ensures forall l: real, r: real :: Compare(l, r, op) == Compare(r, l, m)
  {
    match op
    case Equal => Equal
    case NotEqual => NotEqual
    case LessThan => GreaterThan
    case LessThanOrEqual => GreaterThanOrEqual
    case GreaterThan => LessThan
    case GreaterThanOrEqual => LessThanOrEqual
  }
}
