/// `FunctionEvaluator`: the table of named functions and the handlers that
/// build each call's expression tree from the parsed arguments, and the three
/// broadcasting loops those trees contain.
module FunctionEvaluator {
  import opened Wrappers
  import opened Text
  import opened Values
  import opened Errors
  import opened Expressions
  import VectorOperations

  /** What a table entry does with its arguments. */
  datatype Handler =
    | UnaryMath(f: UnaryFn)       // HandleMathFunction(name, 1)
    | BinaryMath(g: BinaryFn)     // HandleMathFunction(name, 2)
    | Aggregate                   // HandleAggregateFunction("Sum")
    | Mean                        // HandleMean
    | Fact                        // HandleFact
    | If                          // HandleIf

  /** The table, keys in lower case as the constructor lists them. */
  const Functions: seq<(string, Handler)> := [
    ("sqrt", UnaryMath(Sqrt)), ("abs", UnaryMath(Abs)), ("sin", UnaryMath(Sin)), ("cos", UnaryMath(Cos)),
    ("min", BinaryMath(Min)), ("max", BinaryMath(Max)), ("pow", BinaryMath(Pow)), ("log", BinaryMath(Log)),
    ("sum", Aggregate), ("mean", Mean), ("fact", Fact), ("if", If)]

  /** The entry of `entries` whose key equals `name` under `OrdinalIgnoreCase`;
      the keys are written in lower case, so that is the key equal to the
      name's lower-case spelling. */
  function LookupIn(entries: seq<(string, Handler)>, name: string): (r: Option<Handler>)
    ensures r.Some? <==> exists i :: 0 <= i < |entries| && entries[i].0 == Lower(name)
    ensures r.Some? ==> exists i :: 0 <= i < |entries| && entries[i].0 == Lower(name) && entries[i].1 == r.value
    decreases |entries|
  {
    if |entries| == 0 then None
    else if entries[0].0 == Lower(name) then Some(entries[0].1)
    else
      var r := LookupIn(entries[1..], name);
      assert forall i :: 1 <= i < |entries| ==> entries[i] == entries[1..][i - 1];
      r
  }

  /** `_functions.TryGetValue(name, ...)`. */
  function Lookup(name: string): Option<Handler> {
    LookupIn(Functions, name)
  }

  /** Two names with the same lower-case spelling find the same entry. */
  lemma {:induction false} LookupInSameLower(entries: seq<(string, Handler)>, a: string, b: string)
    requires Lower(a) == Lower(b)
    ensures LookupIn(entries, a) == LookupIn(entries, b)
    decreases |entries|
  {
    if |entries| > 0 {
      LookupInSameLower(entries[1..], a, b);
    }
  }

  /** Names are looked up ignoring case: a name and its lower-case spelling
      find the same entry. */
  lemma LookupIgnoresCase(name: string)
    ensures Lookup(name) == Lookup(Lower(name))
  {
    LowerIdempotent(name);
    LookupInSameLower(Functions, name, Lower(name));
  }

  /** `SQRT` finds the `sqrt` entry. */
  lemma LookupUpperCase()
    ensures Lookup("SQRT") == Some(UnaryMath(Sqrt))
  {
    assert Lower("SQRT") == "sqrt";
    assert Functions[0].0 == "sqrt";
  }

  /** `exp` is not in the table. */
  lemma LookupMissing()
    ensures Lookup("exp") == None
  {
    assert Lower("exp") == "exp";
    assert forall i :: 0 <= i < |Functions| ==> Functions[i].0 != "exp";
  }

  // ---------------- Messages ----------------

  function ArityMessage(methodName: string, arity: nat): string {
    "Функция " + methodName + " требует " + NatToString(arity) + " аргумент(ов)"
  }

  function AtLeastOneMessage(methodName: string): string {
    "Функция " + methodName + " требует хотя бы один аргумент"
  }

  const MeanArityMessage: string := "Функция mean требует хотя бы один аргумент"
  const IfArityMessage: string := "Функция if требует три аргумента"
  const FactArityMessage: string := "Функция fact требует ровно один аргумент"

  function UnknownFunctionMessage(name: string): string {
    "Неизвестная функция: " + name
  }

  function FactNotFoundMessage(k: Kind): string {
    "Метод VectorOperations.Fact(" + TypeName(k) + ") не найден."
  }

  function Lifted(r: Result<Node, LibraryFault>): (res: Result<Node, BuildError>)
    ensures res.Ok? <==> r.Ok?
    ensures r.Ok? ==> res.value == r.value
    ensures r.Err? ==> res.error == Library(r.error)
  {
    match r
    case Ok(n) => Ok(n)
    case Err(f) => Err(Library(f))
  }

  // ---------------- The math functions ----------------

  /** `HandleUnaryFunction`: the loop over an array argument, otherwise a
      direct call, which needs a `double`. */
  function HandleUnary(f: UnaryFn, arg: Node): (r: Result<Node, LibraryFault>)
    requires WellKinded(arg)
    ensures r.Ok? <==> KindOf(arg) != Some(BoolKind)
    ensures r.Ok? ==> KindOf(r.value) == KindOf(arg)
  {
    match KindOf(arg).value
    case VectorKind => Ok(MapArray(f, arg))
    case _ => CallMath1(f, arg)
  }

  /** `ApplyScalarToArray`: the loop calls the method with one array element
      and the scalar, which must be a `double`. */
  function ScalarToArray(g: BinaryFn, vector: Node, scalar: Node, scalarFirst: bool): (r: Result<Node, LibraryFault>)
    requires KindOf(vector) == Some(VectorKind) && WellKinded(scalar)
    ensures r.Ok? <==> KindOf(scalar) == Some(ScalarKind)
    ensures r.Ok? ==> KindOf(r.value) == Some(VectorKind)
    ensures r.Err? ==> r.error == ArgumentType(BinaryName(g), KindOf(scalar).value)
  {
    if KindOf(scalar) == Some(ScalarKind) then Ok(BroadcastArray(g, vector, scalar, scalarFirst))
    else Err(ArgumentType(BinaryName(g), KindOf(scalar).value))
  }

  /** `HandleBinaryFunction`: a direct call for two non-arrays, the
      element-wise loop for two arrays, and the scalar loop otherwise, the
      scalar keeping its place as first or second argument. */
  function HandleBinary(g: BinaryFn, a: Node, b: Node): (r: Result<Node, LibraryFault>)
    requires WellKinded(a) && WellKinded(b)
    ensures r.Ok? <==> KindOf(a) != Some(BoolKind) && KindOf(b) != Some(BoolKind)
    ensures r.Ok? && KindOf(a) == KindOf(b) == Some(ScalarKind) ==> r.value == MathCall2(g, a, b)
    ensures r.Ok? && KindOf(a) == KindOf(b) == Some(VectorKind) ==> r.value == ZipArrays(g, a, b)
    ensures r.Ok? && KindOf(a) == Some(VectorKind) && KindOf(b) == Some(ScalarKind) ==> r.value == BroadcastArray(g, a, b, false)
    ensures r.Ok? && KindOf(a) == Some(ScalarKind) && KindOf(b) == Some(VectorKind) ==> r.value == BroadcastArray(g, b, a, true)
    ensures r.Ok? ==> KindOf(r.value) == (if KindOf(a) == KindOf(b) == Some(ScalarKind) then Some(ScalarKind) else Some(VectorKind))
  {
    match (KindOf(a).value, KindOf(b).value)
    case (VectorKind, VectorKind) => Ok(ZipArrays(g, a, b))
    case (VectorKind, _) => ScalarToArray(g, a, b, false)
    case (_, VectorKind) => ScalarToArray(g, b, a, true)
    case _ => CallMath2(g, a, b)
  }

  /** `HandleMathFunction(methodName, arity)`: the argument count must be the arity. */
  function HandleMathFunction(h: Handler, args: seq<Node>): (r: Result<Node, BuildError>)
    requires h.UnaryMath? || h.BinaryMath?
    requires AllWellKinded(args)
    ensures h.UnaryMath? && |args| != 1 ==> r == Err(Calc(WithPosition(ArityMessage(UnaryName(h.f), 1))))
    ensures h.BinaryMath? && |args| != 2 ==> r == Err(Calc(WithPosition(ArityMessage(BinaryName(h.g), 2))))
    ensures r.Ok? ==> WellKinded(r.value)
  {
    if h.UnaryMath? then
      if |args| != 1 then Err(Calc(WithPosition(ArityMessage(UnaryName(h.f), 1))))
      else Lifted(HandleUnary(h.f, args[0]))
    else
      if |args| != 2 then Err(Calc(WithPosition(ArityMessage(BinaryName(h.g), 2))))
      else Lifted(HandleBinary(h.g, args[0], args[1]))
  }

  // ---------------- sum ----------------

  /** One argument of `sum` as a sequence of doubles: an array is cast, and a
      scalar is converted to `double` and wrapped in a one-element array; a
      `bool` cannot be converted. */
  function Enumerable(arg: Node): (r: Result<Node, LibraryFault>)
    requires WellKinded(arg)
    ensures r.Ok? <==> KindOf(arg) != Some(BoolKind)
    ensures r.Ok? ==> KindOf(r.value) == Some(VectorKind)
    ensures r.Err? ==> r.error == CoercionUndefined(BoolKind)
  {
    match KindOf(arg).value
    case VectorKind => Ok(arg)
    case ScalarKind => Ok(NewArray([arg]))
    case BoolKind => Err(CoercionUndefined(BoolKind))
  }

  predicate AllVectors(es: seq<Node>) { forall i :: 0 <= i < |es| ==> KindOf(es[i]) == Some(VectorKind) }

  /** The `enumerables` list the first loop builds; the first argument that
      cannot be converted stops it. */
  function Enumerables(args: seq<Node>): (r: Result<seq<Node>, LibraryFault>)
    requires AllWellKinded(args)
    ensures r.Ok? <==> forall i :: 0 <= i < |args| ==> KindOf(args[i]) != Some(BoolKind)
    ensures r.Ok? ==> |r.value| == |args| && AllVectors(r.value)
    decreases |args|
  {
    if |args| == 0 then Ok([])
    else
      var init := args[..|args| - 1];
      assert forall i :: 0 <= i < |init| ==> init[i] == args[i];
      var es :- Enumerables(init);
      var last :- Enumerable(args[|args| - 1]);
      Ok(es + [last])
  }

  /** The `Concat` chain the second loop builds: the first sequence, then each
      next one appended on the right. */
  function Combined(es: seq<Node>): (r: Node)
    requires |es| > 0 && AllVectors(es)
    ensures KindOf(r) == Some(VectorKind)
    decreases |es|
  {
    if |es| == 1 then es[0] else Concat(Combined(es[..|es| - 1]), es[|es| - 1])
  }

  /** `HandleAggregateFunction("Sum")`: at least one argument, none of them a
      `bool`; the call of `Enumerable.Sum` on the concatenation. */
  function HandleSum(args: seq<Node>): (r: Result<Node, BuildError>)
    requires AllWellKinded(args)
    ensures r.Ok? <==> |args| > 0 && forall i :: 0 <= i < |args| ==> KindOf(args[i]) != Some(BoolKind)
    ensures |args| == 0 ==> r == Err(Calc(WithPosition(AtLeastOneMessage("Sum"))))
    ensures r.Ok? ==> KindOf(r.value) == Some(ScalarKind)
  {
    if |args| == 0 then Err(Calc(WithPosition(AtLeastOneMessage("Sum"))))
    else match Enumerables(args)
      case Err(f) => Err(Library(f))
      case Ok(es) => Ok(SumOf(Combined(es)))
  }

  /** A failure among the first `k` arguments is the failure of the whole list. */
  lemma {:induction false} EnumerablesFailureStays(args: seq<Node>, k: nat)
    requires AllWellKinded(args) && k <= |args|
    requires Enumerables(args[..k]).Err?
    ensures Enumerables(args) == Enumerables(args[..k])
    decreases |args|
  {
    if k < |args| {
      var init := args[..|args| - 1];
      assert init[..k] == args[..k];
      EnumerablesFailureStays(init, k);
    } else {
      assert args[..k] == args;
    }
  }

  /** The two loops of `HandleAggregateFunction`: the first converts each
      argument in turn, the second folds the list with `Concat`. */
  method HandleAggregateFunction(args: seq<Node>) returns (r: Result<Node, BuildError>)
    requires AllWellKinded(args)
    ensures r == HandleSum(args)
  {
    if |args| == 0 {
      return Err(Calc(WithPosition(AtLeastOneMessage("Sum"))));
    }
    var enumerables: seq<Node> := [];
    var i := 0;
    while i < |args|
      invariant 0 <= i <= |args|
      invariant Enumerables(args[..i]) == Ok(enumerables)
    {
      assert args[..i + 1][..i] == args[..i];
      var e := Enumerable(args[i]);
      if e.Err? {
        EnumerablesFailureStays(args, i + 1);
        return Err(Library(e.error));
      }
      enumerables := enumerables + [e.value];
      i := i + 1;
    }
    assert args[..|args|] == args;
    var combined := enumerables[0];
    var j := 1;
    while j < |enumerables|
      invariant 1 <= j <= |enumerables|
      invariant combined == Combined(enumerables[..j])
    {
      assert enumerables[..j + 1][..j] == enumerables[..j];
      combined := Concat(combined, enumerables[j]);
      j := j + 1;
    }
    assert enumerables[..j] == enumerables;
    return Ok(SumOf(combined));
  }

  /** The doubles a value contributes to `sum`: itself for a scalar, its
      elements for an array. */
  function ValueElements(v: Value): seq<real> {
    match v
    case Scalar(x) => [x]
    case Vector(xs) => xs
    case Boolean(_) => []
  }

  /** The doubles all the values contribute, in order. */
  function Elements(vals: seq<Value>): seq<real>
    decreases |vals|
  {
    if |vals| == 0 then [] else Elements(vals[..|vals| - 1]) + ValueElements(vals[|vals| - 1])
  }

  predicate EvaluatesTo(math: MathLib, args: seq<Node>, vals: seq<Value>)
    requires AllWellKinded(args)
  {
    |vals| == |args| && forall i :: 0 <= i < |args| ==> Eval(math, args[i]) == Ok(vals[i])
  }

  /** A converted argument evaluates to the argument's doubles. */
  lemma EnumerableElements(math: MathLib, arg: Node, v: Value)
    requires WellKinded(arg) && Enumerable(arg).Ok? && Eval(math, arg) == Ok(v)
    ensures Eval(math, Enumerable(arg).value) == Ok(Vector(ValueElements(v)))
  {
    if KindOf(arg) == Some(ScalarKind) {
      assert [arg][0] == arg;
      assert EvalScalars(math, [arg][1..]) == Ok([]);
      assert Eval(math, [arg][0]) == Ok(v) && v.Scalar?;
      assert EvalScalars(math, [arg]) == Ok([v.x] + []);
      assert Enumerable(arg).value == NewArray([arg]);
      assert [v.x] + [] == [v.x];
      assert Eval(math, NewArray([arg])) == Ok(Vector([v.x]));
    }
  }

  /** The converted arguments, concatenated, evaluate to all the arguments' doubles. */
  lemma {:induction false} CombinedElements(math: MathLib, args: seq<Node>, vals: seq<Value>)
    requires AllWellKinded(args) && |args| > 0 && Enumerables(args).Ok?
    requires EvaluatesTo(math, args, vals)
    ensures Eval(math, Combined(Enumerables(args).value)) == Ok(Vector(Elements(vals)))
    decreases |args|
  {
    var n := |args|;
    var init := args[..n - 1];
    EnumerablesSnoc(args);
    EvaluatesToInit(math, args, vals);
    EnumerableElements(math, args[n - 1], vals[n - 1]);
    if n == 1 {
      assert init == [];
      assert Enumerables(args).value == [Enumerable(args[0]).value];
      assert Elements(vals) == [] + ValueElements(vals[0]) == ValueElements(vals[0]);
      assert Combined(Enumerables(args).value) == Enumerable(args[0]).value;
    } else {
      CombinedElements(math, init, vals[..n - 1]);
      CombinedSnoc(math, Enumerables(init).value, Enumerable(args[n - 1]).value);
    }
  }

  /** The conversions of all but the last argument, then the last one's. */
  lemma EnumerablesSnoc(args: seq<Node>)
    requires AllWellKinded(args) && |args| > 0 && Enumerables(args).Ok?
    ensures AllWellKinded(args[..|args| - 1]) && Enumerables(args[..|args| - 1]).Ok?
    ensures Enumerable(args[|args| - 1]).Ok?
    ensures Enumerables(args).value == Enumerables(args[..|args| - 1]).value + [Enumerable(args[|args| - 1]).value]
  {
    var init := args[..|args| - 1];
    assert forall i :: 0 <= i < |init| ==> init[i] == args[i];
  }

  lemma EvaluatesToInit(math: MathLib, args: seq<Node>, vals: seq<Value>)
    requires AllWellKinded(args) && |args| > 0 && EvaluatesTo(math, args, vals)
    ensures AllWellKinded(args[..|args| - 1]) && EvaluatesTo(math, args[..|args| - 1], vals[..|vals| - 1])
    ensures Eval(math, args[|args| - 1]) == Ok(vals[|vals| - 1])
  {
    var init := args[..|args| - 1];
    assert forall i :: 0 <= i < |init| ==> init[i] == args[i];
  }

  /** Appending one more array to the concatenation appends its elements. */
  lemma CombinedSnoc(math: MathLib, es: seq<Node>, e: Node)
    requires |es| > 0 && AllVectors(es) && KindOf(e) == Some(VectorKind)
    ensures AllVectors(es + [e])
    ensures Combined(es + [e]) == Concat(Combined(es), e)
    ensures Eval(math, Combined(es)).Ok? && Eval(math, e).Ok? ==>
      Eval(math, Combined(es + [e])) == Ok(Vector(Eval(math, Combined(es)).value.elements + Eval(math, e).value.elements))
  {
    assert (es + [e])[..|es|] == es;
  }

  /** `sum` adds every double of every argument: the scalars and all the
      elements of the arrays. */
  lemma SumAddsEveryElement(math: MathLib, args: seq<Node>, vals: seq<Value>)
    requires AllWellKinded(args) && HandleSum(args).Ok?
    requires EvaluatesTo(math, args, vals)
    ensures Eval(math, HandleSum(args).value) == Ok(Scalar(VectorOperations.Total(Elements(vals))))
  {
    CombinedElements(math, args, vals);
  }

  // ---------------- mean ----------------

  /** `args.Aggregate(Expression.Add)`: the arguments added from the left; a
      single argument is returned as it is. */
  function AddChain(args: seq<Node>): (r: Result<Node, LibraryFault>)
    requires |args| > 0 && AllWellKinded(args)
    ensures |args| == 1 ==> r == Ok(args[0])
    ensures |args| > 1 ==> (r.Ok? <==> forall i :: 0 <= i < |args| ==> KindOf(args[i]) == Some(ScalarKind))
    ensures |args| > 1 && r.Ok? ==> KindOf(r.value) == Some(ScalarKind)
    decreases |args|
  {
    if |args| == 1 then Ok(args[0])
    else
      var init := args[..|args| - 1];
      assert forall i :: 0 <= i < |init| ==> init[i] == args[i];
      var l :- AddChain(init);
      MakeArith(Add, l, args[|args| - 1])
  }

  /** `HandleMean`: the sum of the arguments divided by their count. */
  function HandleMean(args: seq<Node>): (r: Result<Node, BuildError>)
    requires AllWellKinded(args)
    ensures |args| == 0 ==> r == Err(Calc(WithPosition(MeanArityMessage)))
    ensures r.Ok? <==> |args| > 0 && forall i :: 0 <= i < |args| ==> KindOf(args[i]) == Some(ScalarKind)
    ensures r.Ok? ==> KindOf(r.value) == Some(ScalarKind)
  {
    if |args| < 1 then Err(Calc(WithPosition(MeanArityMessage)))
    else match AddChain(args)
      case Err(f) => Err(Library(f))
      case Ok(sum) => Lifted(MakeArith(Divide, sum, Constant(|args| as real)))
  }

  /** The added arguments evaluate to the sum of their values. */
  lemma {:induction false} AddChainTotal(math: MathLib, args: seq<Node>, xs: seq<real>)
    requires |args| > 0 && AllWellKinded(args) && AddChain(args).Ok?
    requires |xs| == |args| && forall i :: 0 <= i < |args| ==> Eval(math, args[i]) == Ok(Scalar(xs[i]))
    ensures Eval(math, AddChain(args).value) == Ok(Scalar(VectorOperations.Total(xs)))
    decreases |args|
  {
    var n := |args|;
    assert xs[..n - 1][..n - 1] == xs[..n - 1];
    if n == 1 {
      assert VectorOperations.Total(xs) == VectorOperations.Total(xs[..0]) + xs[0];
    } else {
      var init := args[..n - 1];
      assert forall i :: 0 <= i < |init| ==> init[i] == args[i];
      AddChainTotal(math, init, xs[..n - 1]);
    }
  }

  /** `mean` of scalars is their sum divided by their number. */
  lemma MeanOfScalars(math: MathLib, args: seq<Node>, xs: seq<real>)
    requires AllWellKinded(args) && HandleMean(args).Ok?
    requires |xs| == |args| && forall i :: 0 <= i < |args| ==> Eval(math, args[i]) == Ok(Scalar(xs[i]))
    ensures Eval(math, HandleMean(args).value) == Ok(Scalar(VectorOperations.Total(xs) / (|args| as real)))
  {
    AddChainTotal(math, args, xs);
  }

  // ---------------- if and fact ----------------

  /** `HandleIf`: three arguments; an array condition is replaced by its first
      element, and `Expression.Condition` then needs a `bool` test and two
      branches of one type. */
  function HandleIf(args: seq<Node>): (r: Result<Node, BuildError>)
    requires AllWellKinded(args)
    ensures |args| != 3 ==> r == Err(Calc(WithPosition(IfArityMessage)))
    ensures r.Ok? <==> |args| == 3 && KindOf(args[0]) == Some(BoolKind) && KindOf(args[1]) == KindOf(args[2])
    ensures r.Ok? ==> r.value == Condition(args[0], args[1], args[2]) && KindOf(r.value) == KindOf(args[1])
  {
    if |args| != 3 then Err(Calc(WithPosition(IfArityMessage)))
    else
      var test := if KindOf(args[0]) == Some(VectorKind) then First(args[0]) else args[0];
      Lifted(MakeCondition(test, args[1], args[2]))
  }

  /** The first element of an array condition is a `double`, not a `bool`, so
      an `if` whose condition is an array is never built. */
  lemma IfArrayConditionRejected(args: seq<Node>)
    requires AllWellKinded(args) && |args| == 3 && KindOf(args[0]) == Some(VectorKind)
    ensures HandleIf(args) == Err(Library(TestNotBoolean(ScalarKind)))
  {
  }

  /** A built `if` runs the branch its condition selects, and only that one. */
  lemma IfRunsSelectedBranch(math: MathLib, args: seq<Node>, b: bool)
    requires AllWellKinded(args) && HandleIf(args).Ok?
    requires Eval(math, args[0]) == Ok(Boolean(b))
    ensures Eval(math, HandleIf(args).value) == (if b then Eval(math, args[1]) else Eval(math, args[2]))
  {
  }

  /** `HandleFact`: exactly one argument, for which `VectorOperations` has a
      `Fact` overload (`double` or `double[]`). */
  function HandleFact(args: seq<Node>): (r: Result<Node, BuildError>)
    requires AllWellKinded(args)
    ensures |args| != 1 ==> r == Err(Calc(WithPosition(FactArityMessage)))
    ensures |args| == 1 && KindOf(args[0]) == Some(BoolKind) ==> r == Err(Raised(FactNotFoundMessage(BoolKind)))
    ensures r.Ok? <==> |args| == 1 && KindOf(args[0]) != Some(BoolKind)
    ensures r.Ok? ==> KindOf(r.value) == KindOf(args[0])
  {
    if |args| != 1 then Err(Calc(WithPosition(FactArityMessage)))
    else match KindOf(args[0]).value
      case BoolKind => Err(Raised(FactNotFoundMessage(BoolKind)))
      case _ => Ok(FactCall(args[0]))
  }

  // ---------------- GetFunctionExpression ----------------

  /** The handler of a table entry applied to the arguments. */
  function Invoke(h: Handler, args: seq<Node>): (r: Result<Node, BuildError>)
    requires AllWellKinded(args)
    ensures r.Ok? ==> WellKinded(r.value)
  {
    match h
    case UnaryMath(_) => HandleMathFunction(h, args)
    case BinaryMath(_) => HandleMathFunction(h, args)
    case Aggregate => HandleSum(args)
    case Mean => HandleMean(args)
    case Fact => HandleFact(args)
    case If => HandleIf(args)
  }

  /** `GetFunctionExpression`: an unknown name fails with a map from the name
      to its position; a handler's `CalculatorException` with position -1 would
      be re-thrown with that map. */
  function GetFunctionExpression(name: string, args: seq<Node>, position: int): (r: Result<Node, BuildError>)
    requires AllWellKinded(args)
    ensures Lookup(name).None? ==>
      r == Err(Calc(WithPositions(UnknownFunctionMessage(name), Some([(name, position)]))))
    ensures r.Ok? ==> WellKinded(r.value)
  {
    match Lookup(name)
    case None => Err(Calc(WithPositions(UnknownFunctionMessage(name), Some([(name, position)]))))
    case Some(h) =>
      var r := Invoke(h, args);
      if r.Err? && r.error.Calc? && r.error.error.errorPosition == -1 then
        Err(Calc(WithPositions(r.error.error.message, Some([(name, position)]))))
      else r
  }

  /** No handler throws with position -1, so the re-throw never happens: a
      known name gives exactly what its handler gives, and the unknown-name
      error is the only one carrying a position map. */
  lemma KnownNameUsesHandler(name: string, args: seq<Node>, position: int)
    requires AllWellKinded(args) && Lookup(name).Some?
    ensures GetFunctionExpression(name, args, position) == Invoke(Lookup(name).value, args)
  {
    HandlersThrowAtZero(Lookup(name).value, args);
  }

  /** Every `CalculatorException` a handler throws has position 0 and no map. */
  lemma HandlersThrowAtZero(h: Handler, args: seq<Node>)
    requires AllWellKinded(args)
    ensures var r := Invoke(h, args);
      r.Err? && r.error.Calc? ==> r.error.error.errorPosition == 0 && r.error.error.variablePositions.None?
  {
  }

  /** An unknown function is reported at its own position in the parsed text. */
  lemma UnknownNamePosition(name: string, args: seq<Node>, position: int)
    requires AllWellKinded(args) && Lookup(name).None?
    ensures GetFunctionExpression(name, args, position).Err?
    ensures GetFunctionExpression(name, args, position).error.error.errorPosition == position
  {
  }

  // ---------------- The loops inside the built trees ----------------

  /** The loop of `ApplyUnaryToArray`: a new array of the same length, element
      `i` being the function of element `i`. */
  method ApplyUnaryToArray(math: MathLib, f: UnaryFn, xs: array<real>) returns (result: array<real>)
    ensures result[..] == MapAll(math, f, xs[..])
  {
    result := new real[xs.Length];
    var i := 0;
    while i < xs.Length
      invariant 0 <= i <= xs.Length == result.Length
      invariant forall k :: 0 <= k < i ==> result[k] == Apply1(math, f, xs[k])
    {
      result[i] := Apply1(math, f, xs[i]);
      i := i + 1;
    }
  }

  /** The loop of `ApplyElementWiseBinary`: a list filled up to the shorter
      length, then copied to an array. */
  method ApplyElementWiseBinary(math: MathLib, g: BinaryFn, a: array<real>, b: array<real>) returns (result: array<real>)
    ensures result[..] == ZipShorter(math, g, a[..], b[..])
  {
    var minLength := if a.Length < b.Length then a.Length else b.Length;
    var list: seq<real> := [];
    var i := 0;
    while i < minLength
      invariant 0 <= i <= minLength && |list| == i
      invariant forall k :: 0 <= k < i ==> list[k] == Apply2(math, g, a[k], b[k])
    {
      list := list + [Apply2(math, g, a[i], b[i])];
      i := i + 1;
    }
    result := new real[|list|](k requires 0 <= k < |list| => list[k]);
  }

  /** The loop of `ApplyScalarToArray`: a new array of the same length, the
      scalar passed first or second as the flag says. */
  method ApplyScalarToArray(math: MathLib, g: BinaryFn, xs: array<real>, scalar: real, scalarFirst: bool)
    returns (result: array<real>)
    ensures result[..] == Broadcast(math, g, xs[..], scalar, scalarFirst)
  {
    result := new real[xs.Length];
    var i := 0;
    while i < xs.Length
      invariant 0 <= i <= xs.Length == result.Length
      invariant forall k :: 0 <= k < i ==>
        result[k] == if scalarFirst then Apply2(math, g, scalar, xs[k]) else Apply2(math, g, xs[k], scalar)
    {
      result[i] := if scalarFirst then Apply2(math, g, scalar, xs[i]) else Apply2(math, g, xs[i], scalar);
      i := i + 1;
    }
  }

  /** Where the element-wise loop truncates to the shorter array, the
      `VectorOperations` methods reject arrays of different lengths. */
  lemma TruncationVersusRejection(math: MathLib, g: BinaryFn, op: ArithOp, a: seq<real>, b: seq<real>)
    requires |a| != |b|
    ensures |ZipShorter(math, g, a, b)| < |a| || |ZipShorter(math, g, a, b)| < |b|
    ensures VectorOperations.VectorVector(math, op, a, b) == Err(VectorOperations.LengthMessage)
  {
  }
}
