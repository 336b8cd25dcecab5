/// The trees of the worked inputs, with their kinds and the combine steps
/// that build them, kept apart from the parsers.
module ExampleTrees {
  import opened Wrappers
  import opened Values
  import opened Expressions
  import opened Operators
  import VectorOperations

  const TwoCubed: Node := MathCall2(Pow, Constant(2.0), Constant(3.0))
  const TwoCubedSquared: Node := MathCall2(Pow, TwoCubed, Constant(2.0))
  const TwoSquared: Node := MathCall2(Pow, Constant(2.0), Constant(2.0))
  const Product34: Node := Binary(Multiply, Constant(3.0), Constant(4.0))
  const Sum234: Node := Binary(Add, Constant(2.0), Product34)
  const Five: Node := NewArray([Constant(5.0)])
  const OneMinusFive: Node := VectorCall(Subtract, ScalarFirst, Constant(1.0), Five)
  const OneOverZero: Node := Binary(Divide, Constant(1.0), Constant(0.0))

  lemma PowerKinds()
    ensures KindOf(TwoCubed) == Some(ScalarKind) && KindOf(TwoCubedSquared) == Some(ScalarKind)
    ensures KindOf(TwoSquared) == Some(ScalarKind) && KindOf(Negate(TwoSquared)) == Some(ScalarKind)
  {
  }

  lemma SumBuilt()
    ensures ApplyOperation(Multiply, Constant(3.0), Constant(4.0)) == Ok(Product34)
    ensures HandleOperation(Add, Constant(2.0), Product34) == Ok(Sum234)
    ensures KindOf(Sum234) == Some(ScalarKind)
  {
  }

  lemma QuotientBuilt()
    ensures ApplyOperation(Divide, Constant(1.0), Constant(0.0)) == Ok(OneOverZero)
    ensures KindOf(OneOverZero) == Some(ScalarKind)
  {
  }

  lemma SumValue(math: MathLib)
    ensures Eval(math, Sum234) == Ok(Scalar(14.0))
  {
  }

  lemma DifferenceBuilt()
    ensures KindOf(Five) == Some(VectorKind)
    ensures HandleOperation(Subtract, Five, Constant(1.0)) == Ok(OneMinusFive)
    ensures KindOf(OneMinusFive) == Some(VectorKind)
  {
  }

  /** `1 - [5]` by the scalar-first overload is `[-4]`. */
  lemma DifferenceValue(math: MathLib)
    ensures Eval(math, OneMinusFive) == Ok(Vector([-4.0]))
  {
    assert [Constant(5.0)][1..] == [];
    assert Eval(math, Constant(5.0)) == Ok(Scalar(5.0));
    assert EvalScalars(math, []) == Ok([]);
    assert [5.0] + [] == [5.0];
    assert EvalScalars(math, [Constant(5.0)]) == Ok([5.0]);
    var v := VectorOperations.ScalarVector(math, Subtract, 1.0, [5.0]);
    assert v.Ok? && |v.value| == 1 && v.value[0] == -4.0;
    assert v.value == [-4.0];
  }
}

/// Worked inputs of the grammar: each lemma fixes the tree (or the failure)
/// the parsers give for one text, and for some the value it runs to. Each
/// input is taken one parser level at a time, through the step lemmas at
/// the top, which hold for any input.
module ParseExamples {
  import opened Wrappers
  import opened Text
  import opened Scanning
  import opened Values
  import opened Expressions
  import opened Grammar
  import opened Operators
  import Syntax
  import NumberParser
  import OperatorPrecedence
  import VectorOperations
  import opened ExampleTrees

  // ---------------------------------------------------------------- steps

  /** Whitespace skipping stops at once at a character that is not whitespace. */
  lemma NoSpaceAt(s: string, q: nat)
    requires q <= |s| && (q < |s| ==> !IsWhiteSpace(s[q]))
    ensures SkipWhiteSpace(s, q) == q
  {
    SkipWhiteSpaceExact(s, q, q);
  }

  /** One space, then something else or the end. */
  lemma OneSpaceAt(s: string, q: nat)
    requires q < |s| && s[q] == ' ' && (q + 1 < |s| ==> !IsWhiteSpace(s[q + 1]))
    ensures SkipWhiteSpace(s, q) == q + 1
  {
    SkipWhiteSpaceExact(s, q, q + 1);
  }

  lemma OperandAt(s: string, p: nat, n: Node, q: nat)
    requires p < |s| && !IsWhiteSpace(s[p]) && OperandCore(s, p) == Done(n, q)
    ensures Operand(s, p) == Done(n, SkipWhiteSpace(s, q))
  {
    NoSpaceAt(s, p);
  }

  lemma NumberCore(s: string, p: nat, n: Node, k: nat)
    requires p <= |s| && NumberParser.Number(s, p) == Some((n, k))
    ensures OperandCore(s, p) == Done(n, k)
  {
  }

  /** An operand that starts with '-' can only be a negation. */
  lemma MinusCore(s: string, p: nat)
    requires p < |s| && s[p] == '-'
    ensures OperandCore(s, p) == NegateOperand(s, p)
  {
  }

  lemma FactorStep(s: string, p: nat, universal: bool, n: Node, q: nat)
    requires p <= |s| && Operand(s, p) == Done(n, q)
    ensures Factor(s, p, universal) == FactorRest(s, q, n, universal)
  {
  }

  lemma FactorRestStep(s: string, q: nat, left: Node, universal: bool, a: nat, right: Node, k: nat, n: Node)
    requires q <= |s| && WellKinded(left)
    requires PowerSign(s, q, universal) == Some(a) && Operand(s, a) == Done(right, k)
    requires Power(left, right, universal) == Ok(n)
    ensures FactorRest(s, q, left, universal) == FactorRest(s, k, n, universal)
  {
  }

  lemma TermStep(s: string, p: nat, n: Node, q: nat)
    requires p <= |s| && Factor(s, p, true) == Done(n, q)
    ensures Term(s, p) == TermRest(s, q, n)
  {
  }

  lemma TermRestStep(s: string, q: nat, left: Node, op: ArithOp, a: nat, right: Node, k: nat, n: Node)
    requires q <= |s| && WellKinded(left)
    requires TermSign(s, q) == Some((op, a)) && Factor(s, a, true) == Done(right, k)
    requires ApplyOperation(op, left, right) == Ok(n)
    ensures TermRest(s, q, left) == TermRest(s, k, n)
  {
  }

  lemma ExprStep(s: string, p: nat, n: Node, q: nat)
    requires p <= |s| && Term(s, p) == Done(n, q)
    ensures Expr(s, p) == ExprRest(s, q, n)
  {
  }

  lemma ExprRestStep(s: string, q: nat, left: Node, op: ArithOp, a: nat, right: Node, k: nat, n: Node)
    requires q <= |s| && WellKinded(left)
    requires ExprSign(s, q) == Some((op, a)) && Term(s, a) == Done(right, k)
    requires HandleOperation(op, left, right) == Ok(n)
    ensures ExprRest(s, q, left) == ExprRest(s, k, n)
  {
  }

  /** A whole input read by the sum level is the parse, unless it is a comparison. */
  lemma WholeInput(s: string, n: Node)
    requires Expr(s, 0) == Done(n, |s|) && KindOf(n) != Some(BoolKind)
    ensures Syntax.ParseUniversalLambda(s) == Done(n, |s|)
  {
  }

  /** Text left after the sum level fails the parse. */
  lemma TrailingText(s: string, n: Node, q: nat)
    requires Expr(s, 0) == Done(n, q) && q < |s|
    ensures Syntax.ParseUniversalLambda(s) == NoMatch
  {
  }

  /** The power and product levels stop, leaving the tree as it is, at the
      end of the input or at a character that is not one of their operators. */
  lemma ProductLevelsStopAt(s: string, q: nat, left: Node)
    requires q <= |s| && WellKinded(left)
    requires q < |s| ==> !IsWhiteSpace(s[q]) && s[q] !in "^*×⋅/÷%"
    ensures FactorRest(s, q, left, true) == Done(left, q)
    ensures TermRest(s, q, left) == Done(left, q)
  {
    NoSpaceAt(s, q);
  }

  /** An operand followed by no power or product operator is a whole term. */
  lemma SingleFactorTerm(s: string, p: nat, n: Node, q: nat)
    requires p <= |s| && Operand(s, p) == Done(n, q)
    requires q < |s| ==> !IsWhiteSpace(s[q]) && s[q] !in "^*×⋅/÷%"
    ensures Factor(s, p, true) == Done(n, q) && Term(s, p) == Done(n, q)
  {
    FactorStep(s, p, true, n, q);
    ProductLevelsStopAt(s, q, n);
    TermStep(s, p, n, q);
  }

  /** The same for the sum level too. */
  lemma LevelsStopAt(s: string, q: nat, left: Node)
    requires q <= |s| && WellKinded(left)
    requires q < |s| ==> !IsWhiteSpace(s[q]) && s[q] !in "^*×⋅/÷%+-"
    ensures FactorRest(s, q, left, true) == Done(left, q)
    ensures TermRest(s, q, left) == Done(left, q)
    ensures ExprRest(s, q, left) == Done(left, q)
  {
    ProductLevelsStopAt(s, q, left);
    NoSpaceAt(s, q);
  }

  /** The power level stops at a character other than `^` and whitespace. */
  lemma PowerLevelStopsAt(s: string, q: nat, left: Node)
    requires q < |s| && WellKinded(left) && !IsWhiteSpace(s[q]) && s[q] != '^'
    ensures FactorRest(s, q, left, true) == Done(left, q)
  {
    NoSpaceAt(s, q);
  }

  /** Both power levels stop at the end of the input. */
  lemma PowerLevelStopsAtEnd(s: string, left: Node, universal: bool)
    requires WellKinded(left)
    ensures FactorRest(s, |s|, left, universal) == Done(left, |s|)
  {
    NoSpaceAt(s, |s|);
  }

  /** A one-digit literal is an operand of its value; the whitespace after it is read too. */
  lemma DigitOperand(s: string, p: nat)
    requires p < |s| && IsDigit(s[p])
    requires p + 1 < |s| ==> !IsDigit(s[p + 1]) && s[p + 1] != '.' && s[p + 1] != ','
    ensures Operand(s, p) == Done(Constant(DigitValue(s[p]) as real), SkipWhiteSpace(s, p + 1))
  {
    assert s[p..p + 1] == [s[p]];
    assert DigitsValue([s[p]]) == DigitValue(s[p]) by { assert [s[p]][..0] == []; }
    NumberParser.WholeNumberAt(s, p, p + 1);
    NumberCore(s, p, Constant(DigitValue(s[p]) as real), p + 1);
    OperandAt(s, p, Constant(DigitValue(s[p]) as real), p + 1);
  }

  // ---- "2^3^2": the power operator groups from the left.

  const PowerText: string := "2^3^2"

  lemma PowerOperands()
    ensures Operand(PowerText, 0) == Done(Constant(2.0), 1)
    ensures Operand(PowerText, 2) == Done(Constant(3.0), 3)
    ensures Operand(PowerText, 4) == Done(Constant(2.0), 5)
  {
    NoSpaceAt(PowerText, 1);
    DigitOperand(PowerText, 0);
    NoSpaceAt(PowerText, 3);
    DigitOperand(PowerText, 2);
    NoSpaceAt(PowerText, 5);
    DigitOperand(PowerText, 4);
  }

  lemma PowerSigns()
    ensures PowerSign(PowerText, 1, true) == Some(2)
    ensures PowerSign(PowerText, 3, true) == Some(4)
  {
    NoSpaceAt(PowerText, 1);
    NoSpaceAt(PowerText, 2);
    NoSpaceAt(PowerText, 3);
    NoSpaceAt(PowerText, 4);
  }

  lemma PowerFactor()
    ensures Factor(PowerText, 0, true) == Done(TwoCubedSquared, 5)
  {
    PowerKinds();
    PowerOperands();
    PowerSigns();
    FactorStep(PowerText, 0, true, Constant(2.0), 1);
    FactorRestStep(PowerText, 1, Constant(2.0), true, 2, Constant(3.0), 3, TwoCubed);
    FactorRestStep(PowerText, 3, TwoCubed, true, 4, Constant(2.0), 5, TwoCubedSquared);
    PowerLevelStopsAtEnd(PowerText, TwoCubedSquared, true);
  }

  lemma PowerExpr()
    ensures Expr(PowerText, 0) == Done(TwoCubedSquared, 5)
  {
    PowerFactor();
    TermStep(PowerText, 0, TwoCubedSquared, 5);
    LevelsStopAt(PowerText, 5, TwoCubedSquared);
    ExprStep(PowerText, 0, TwoCubedSquared, 5);
  }

  /** `2^3^2` is `(2^3)^2`. */
  lemma PowerGroupsLeft()
    ensures Syntax.ParseUniversalLambda(PowerText) == Done(TwoCubedSquared, 5)
  {
    PowerKinds();
    PowerExpr();
    WholeInput(PowerText, TwoCubedSquared);
  }

  // ---- "-2^2": the sign applies to the whole power.

  const NegatedText: string := "-2^2"

  lemma NegatedFactor()
    ensures Factor(NegatedText, 1, false) == Done(TwoSquared, 4)
  {
    PowerKinds();
    NoSpaceAt(NegatedText, 2);
    DigitOperand(NegatedText, 1);
    NoSpaceAt(NegatedText, 4);
    DigitOperand(NegatedText, 3);
    FactorStep(NegatedText, 1, false, Constant(2.0), 2);
    FactorRestStep(NegatedText, 2, Constant(2.0), false, 3, Constant(2.0), 4, TwoSquared);
    PowerLevelStopsAtEnd(NegatedText, TwoSquared, false);
  }

  lemma NegatedOperand()
    ensures Operand(NegatedText, 0) == Done(Negate(TwoSquared), 4)
  {
    PowerKinds();
    NegatedFactor();
    MinusCore(NegatedText, 0);
    OperandAt(NegatedText, 0, Negate(TwoSquared), 4);
    NoSpaceAt(NegatedText, 4);
  }

  lemma NegatedExpr()
    ensures Expr(NegatedText, 0) == Done(Negate(TwoSquared), 4)
  {
    PowerKinds();
    NegatedOperand();
    FactorStep(NegatedText, 0, true, Negate(TwoSquared), 4);
    LevelsStopAt(NegatedText, 4, Negate(TwoSquared));
    TermStep(NegatedText, 0, Negate(TwoSquared), 4);
    ExprStep(NegatedText, 0, Negate(TwoSquared), 4);
  }

  /** `-2^2` is `-(2^2)`. */
  lemma NegationTakesPower()
    ensures Syntax.ParseUniversalLambda(NegatedText) == Done(Negate(TwoSquared), 4)
  {
    PowerKinds();
    NegatedExpr();
    WholeInput(NegatedText, Negate(TwoSquared));
  }

  // ---- "2 + 3 * 4": the product is built first and added to the left operand.

  const SumText: string := "2 + 3 * 4"

  lemma SumOperandTwo()
    ensures Operand(SumText, 0) == Done(Constant(2.0), 2)
  {
    OneSpaceAt(SumText, 1);
    DigitOperand(SumText, 0);
  }

  lemma SumOperandThree()
    ensures Operand(SumText, 4) == Done(Constant(3.0), 6)
  {
    OneSpaceAt(SumText, 5);
    DigitOperand(SumText, 4);
  }

  lemma SumOperandFour()
    ensures Operand(SumText, 8) == Done(Constant(4.0), 9)
  {
    NoSpaceAt(SumText, 9);
    DigitOperand(SumText, 8);
  }

  lemma SumSigns()
    ensures ExprSign(SumText, 2) == Some((Add, 4))
    ensures TermSign(SumText, 6) == Some((Multiply, 8))
  {
    NoSpaceAt(SumText, 2);
    OneSpaceAt(SumText, 3);
    NoSpaceAt(SumText, 6);
    OneSpaceAt(SumText, 7);
  }

  lemma ProductTerm()
    ensures Term(SumText, 4) == Done(Product34, 9)
  {
    SumBuilt();
    SumOperandThree();
    SumOperandFour();
    SumSigns();
    FactorStep(SumText, 4, true, Constant(3.0), 6);
    PowerLevelStopsAt(SumText, 6, Constant(3.0));
    TermStep(SumText, 4, Constant(3.0), 6);
    FactorStep(SumText, 8, true, Constant(4.0), 9);
    PowerLevelStopsAtEnd(SumText, Constant(4.0), true);
    TermRestStep(SumText, 6, Constant(3.0), Multiply, 8, Constant(4.0), 9, Product34);
    LevelsStopAt(SumText, 9, Product34);
  }

  lemma TwoTerm()
    ensures Term(SumText, 0) == Done(Constant(2.0), 2)
  {
    SumOperandTwo();
    FactorStep(SumText, 0, true, Constant(2.0), 2);
    ProductLevelsStopAt(SumText, 2, Constant(2.0));
    TermStep(SumText, 0, Constant(2.0), 2);
  }

  lemma SumExpr()
    ensures Expr(SumText, 0) == Done(Sum234, 9)
  {
    SumBuilt();
    TwoTerm();
    ExprStep(SumText, 0, Constant(2.0), 2);
    SumSigns();
    ProductTerm();
    ExprRestStep(SumText, 2, Constant(2.0), Add, 4, Product34, 9, Sum234);
    LevelsStopAt(SumText, 9, Sum234);
  }

  /** `2 + 3 * 4` is `2 + (3 * 4)`, which runs to 14. */
  lemma ProductBindsTighter(math: MathLib)
    ensures Syntax.ParseUniversalLambda(SumText) == Done(Sum234, 9)
    ensures Eval(math, Sum234) == Ok(Scalar(14.0))
  {
    SumBuilt();
    SumExpr();
    WholeInput(SumText, Sum234);
    SumValue(math);
  }

  // ---- "[5] - 1": an array minus a number subtracts every element from the number.

  const ArrayText: string := "[5] - 1"

  lemma ArrayLiteral()
    ensures NumberParser.Number(ArrayText, 0) == Some((Five, 3))
  {
    NumberParser.WholeNumberAt(ArrayText, 1, 2);
    assert ArrayText[1..2] == "5";
    NoSpaceAt(ArrayText, 2);
  }

  lemma ArrayOperand()
    ensures Operand(ArrayText, 0) == Done(Five, 4)
  {
    ArrayLiteral();
    NumberCore(ArrayText, 0, Five, 3);
    OperandAt(ArrayText, 0, Five, 3);
    OneSpaceAt(ArrayText, 3);
  }

  lemma OneOperand()
    ensures Operand(ArrayText, 6) == Done(Constant(1.0), 7)
  {
    NoSpaceAt(ArrayText, 7);
    DigitOperand(ArrayText, 6);
  }

  lemma ArrayFirstTerm()
    ensures Term(ArrayText, 0) == Done(Five, 4)
  {
    ArrayOperand();
    SingleFactorTerm(ArrayText, 0, Five, 4);
  }

  lemma ArrayLastTerm()
    ensures Term(ArrayText, 6) == Done(Constant(1.0), 7)
  {
    OneOperand();
    SingleFactorTerm(ArrayText, 6, Constant(1.0), 7);
  }

  lemma ArrayExpr()
    ensures Expr(ArrayText, 0) == Done(OneMinusFive, 7)
  {
    DifferenceBuilt();
    ArrayFirstTerm();
    ArrayLastTerm();
    ExprStep(ArrayText, 0, Five, 4);
    NoSpaceAt(ArrayText, 4);
    OneSpaceAt(ArrayText, 5);
    assert ExprSign(ArrayText, 4) == Some((Subtract, 6));
    ExprRestStep(ArrayText, 4, Five, Subtract, 6, Constant(1.0), 7, OneMinusFive);
    LevelsStopAt(ArrayText, 7, OneMinusFive);
  }

  /** `[5] - 1` calls the scalar-first overload with 1 and `[5]`. */
  lemma ArrayMinusNumber()
    ensures Syntax.ParseUniversalLambda(ArrayText) == Done(OneMinusFive, 7)
  {
    DifferenceBuilt();
    ArrayExpr();
    WholeInput(ArrayText, OneMinusFive);
  }

  // ---- "5 > 3": a comparison is not accepted at the top level.

  const ComparisonText: string := "5 > 3"

  lemma FiveBeforeComparison()
    ensures Expr(ComparisonText, 0) == Done(Constant(5.0), 2)
  {
    OneSpaceAt(ComparisonText, 1);
    DigitOperand(ComparisonText, 0);
    FactorStep(ComparisonText, 0, true, Constant(5.0), 2);
    LevelsStopAt(ComparisonText, 2, Constant(5.0));
    TermStep(ComparisonText, 0, Constant(5.0), 2);
    ExprStep(ComparisonText, 0, Constant(5.0), 2);
  }

  lemma BareComparisonRejected()
    ensures Syntax.ParseUniversalLambda(ComparisonText) == NoMatch
  {
    FiveBeforeComparison();
    TrailingText(ComparisonText, Constant(5.0), 2);
  }

  // ---- "1/0": the standalone precedence grammar refuses the literal zero
  // divisor while it builds the tree; the calculator's parser reads it.

  const DivisionText: string := "1/0"

  lemma DivisionOperands()
    ensures Operand(DivisionText, 0) == Done(Constant(1.0), 1)
    ensures Operand(DivisionText, 2) == Done(Constant(0.0), 3)
  {
    NoSpaceAt(DivisionText, 1);
    DigitOperand(DivisionText, 0);
    NoSpaceAt(DivisionText, 3);
    DigitOperand(DivisionText, 2);
  }

  lemma DivisionFactors(universal: bool)
    ensures Factor(DivisionText, 0, universal) == Done(Constant(1.0), 1)
    ensures Factor(DivisionText, 2, universal) == Done(Constant(0.0), 3)
  {
    DivisionOperands();
    FactorStep(DivisionText, 0, universal, Constant(1.0), 1);
    NoSpaceAt(DivisionText, 1);
    FactorStep(DivisionText, 2, universal, Constant(0.0), 3);
    PowerLevelStopsAtEnd(DivisionText, Constant(0.0), universal);
  }

  lemma ZeroDivisorRefused()
    ensures OperatorPrecedence.ComparisonExpr(DivisionText, 0)
      == Threw(Raised(OperatorPrecedence.DivisionByZeroMessage))
  {
    DivisionFactors(false);
    OperatorPrecedence.LiteralZeroDivisorThrows(DivisionText, 0, Constant(1.0), 1, 2, 3);
  }

  lemma DivisionSign()
    ensures TermSign(DivisionText, 1) == Some((Divide, 2))
  {
    NoSpaceAt(DivisionText, 1);
    NoSpaceAt(DivisionText, 2);
  }

  lemma QuotientTerm()
    ensures Term(DivisionText, 0) == Done(OneOverZero, 3)
  {
    QuotientBuilt();
    DivisionFactors(true);
    DivisionSign();
    TermStep(DivisionText, 0, Constant(1.0), 1);
    TermRestStep(DivisionText, 1, Constant(1.0), Divide, 2, Constant(0.0), 3, OneOverZero);
    LevelsStopAt(DivisionText, 3, OneOverZero);
  }

  lemma ZeroDivisorRead()
    ensures Syntax.ParseUniversalLambda(DivisionText) == Done(OneOverZero, 3)
  {
    QuotientBuilt();
    QuotientTerm();
    LevelsStopAt(DivisionText, 3, OneOverZero);
    ExprStep(DivisionText, 0, OneOverZero, 3);
    WholeInput(DivisionText, OneOverZero);
  }

  // ---- "5%2": `%` is no operator of the standalone precedence grammar.

  const RemainderText: string := "5%2"

  lemma RemainderStopsAfterFive()
    ensures OperatorPrecedence.ComparisonExpr(RemainderText, 0) == Done(Constant(5.0), 1)
  {
    NoSpaceAt(RemainderText, 1);
    DigitOperand(RemainderText, 0);
    FactorStep(RemainderText, 0, false, Constant(5.0), 1);
    OperatorPrecedence.RemainderNotRead(RemainderText, 0, Constant(5.0), 1);
  }
}
