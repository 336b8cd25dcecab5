/// Properties of the operand grammar that hold for every input: where an
/// unknown function is reported, what leading whitespace does, and which
/// texts no operand reads (an empty argument list, a bare name).
module GrammarProperties {
  import opened Wrappers
  import opened Text
  import opened Scanning
  import opened Errors
  import opened Expressions
  import opened Grammar
  import FunctionEvaluator
  import Syntax
  import NumberParser

  /** A call whose brackets and arguments read but whose name is not in the
      function table throws "Неизвестная функция: name", with the one-entry
      map from the name to the position where the call starts, and that
      position as the error position. */
  lemma UnknownFunctionThrows(s: string, p: nat, open: char, close: char, args: seq<Node>, q: nat)
    requires p <= |s| && FunctionName(s, p).Some?
    requires TokenChar(s, SkipWhiteSpace(s, FunctionName(s, p).value.1), open).Some?
    requires ExprList(s, TokenChar(s, SkipWhiteSpace(s, FunctionName(s, p).value.1), open).value) == Done(args, q)
    requires q < |s| && s[q] == close
    requires FunctionEvaluator.Lookup(CallName(s, p)).None?
    ensures FunctionWith(s, p, open, close)
      == Threw(Calc(WithPositions(FunctionEvaluator.UnknownFunctionMessage(CallName(s, p)), Some([(CallName(s, p), p as int)]))))
    ensures FunctionWith(s, p, open, close).error.error.errorPosition == p
  {
  }

  /** Whitespace before an operand is skipped: starting anywhere inside it
      reads the same operand to the same place. */
  lemma OperandSkipsLeadingSpace(s: string, p: nat, p': nat)
    requires p <= |s| && p <= p' <= SkipWhiteSpace(s, p)
    ensures Operand(s, p') == Operand(s, p)
  {
    var k := SkipWhiteSpace(s, p);
    assert AllWhiteSpace(s[p'..k]) by {
      forall m | 0 <= m < k - p' ensures IsWhiteSpace(s[p'..k][m]) {
        assert s[p'..k][m] == s[p..k][m + p' - p];
      }
    }
    SkipWhiteSpaceExact(s, p', k);
  }

  /** A call needs at least one argument: a name, its opening bracket and
      at once the closing bracket is not a call. */
  lemma EmptyArgumentsRejected(s: string, p: nat, open: char, close: char)
    requires p <= |s| && FunctionName(s, p).Some?
    requires TokenChar(s, SkipWhiteSpace(s, FunctionName(s, p).value.1), open).Some?
    requires var b := TokenChar(s, SkipWhiteSpace(s, FunctionName(s, p).value.1), open).value;
      b < |s| && s[b] == close && (close == ')' || close == ']')
    ensures FunctionWith(s, p, open, close) == NoMatch
  {
    var b := TokenChar(s, SkipWhiteSpace(s, FunctionName(s, p).value.1), open).value;
    SkipWhiteSpaceExact(s, b, b);
    assert !AtOperand(s, b);
  }

  /** `f()` is not an operand. */
  lemma EmptyCallRejected()
    ensures Function("f()", 0) == NoMatch
  {
    var s := "f()";
    SkipWhiteSpaceExact(s, 0, 0);
    RunEndExact(s, 0, 1, IsLetter);
    SkipWhiteSpaceExact(s, 1, 1);
    SkipWhiteSpaceExact(s, 2, 2);
    EmptyArgumentsRejected(s, 0, '(', ')');
  }

  /** With no operand where one is needed, no level of the grammar matches. */
  lemma NoOperand(s: string, p: nat)
    requires p <= |s| && OperandCore(s, SkipWhiteSpace(s, p)) == NoMatch
    ensures Operand(s, p) == NoMatch && Factor(s, p, true) == NoMatch
    ensures Term(s, p) == NoMatch && Expr(s, p) == NoMatch
  {
  }

  /** A word of letters is no call: no bracket follows the name. */
  lemma BareNameNotACall(s: string)
    requires |s| > 0 && forall i :: 0 <= i < |s| ==> IsLetter(s[i])
    ensures Function(s, 0) == NoMatch && IfFunction(s, 0) == NoMatch
  {
    SkipWhiteSpaceExact(s, 0, 0);
    RunEndExact(s, 0, |s|, IsLetter);
    SkipWhiteSpaceExact(s, |s|, |s|);
    assert FunctionName(s, 0).Some? && FunctionName(s, 0).value.1 == |s|;
    assert IfFunction(s, 0) == NoMatch by {
      if 2 < |s| {
        assert IsLetter(s[2]);
      }
    }
  }

  /** A name made of letters, other than a constant, is no operand at all. */
  lemma BareNameNotAnOperand(s: string)
    requires |s| > 0 && forall i :: 0 <= i < |s| ==> IsLetter(s[i])
    requires s[0] != 'e' && !(|s| > 1 && s[0] == 'p' && s[1] == 'i')
    ensures OperandCore(s, 0) == NoMatch
  {
    BareNameNotACall(s);
    LetterStartsNoOtherOperand(s, 0);
  }

  /** At a letter that starts no constant, only a call can begin. */
  lemma LetterStartsNoOtherOperand(s: string, p: nat)
    requires p < |s| && IsLetter(s[p]) && s[p] != 'e' && !(p + 1 < |s| && s[p] == 'p' && s[p + 1] == 'i')
    ensures NumberParser.Number(s, p).None? && ConstantOperand(s, p).None?
    ensures Parenthesized(s, p) == NoMatch && NegateOperand(s, p) == NoMatch && VectorOperand(s, p) == NoMatch
  {
    assert !IsDigit(s[p]);
  }

  /** There is no variable operand: a text that is a bare name (other than a
      constant) does not parse, so a name must be substituted first; the
      constants are case-sensitive, so `PI` is such a name. */
  lemma VariableNameRejected(s: string)
    requires |s| > 0 && forall i :: 0 <= i < |s| ==> IsLetter(s[i])
    requires s[0] != 'e' && !(|s| > 1 && s[0] == 'p' && s[1] == 'i')
    ensures Syntax.ParseUniversalLambda(s) == NoMatch
  {
    BareNameNotAnOperand(s);
    SkipWhiteSpaceExact(s, 0, 0);
    NoOperand(s, 0);
  }

  lemma UpperCasePiRejected()
    ensures Syntax.ParseUniversalLambda("PI") == NoMatch
  {
    VariableNameRejected("PI");
  }
}
