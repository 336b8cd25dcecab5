/// The brackets validator: round and square brackets outside double quotes
/// must nest properly, and no `(` may be followed by only whitespace and `)`.
module BracketsValidator {
  import opened Wrappers
  import opened Text
  import opened Errors
  import opened Scanning
  import opened BaseValidator

  predicate IsOpener(c: char) { c == '(' || c == '[' }

  /** The closer that matches an opener. */
  function Closing(opener: char): char { if opener == '(' then ')' else ']' }

  /** A stack entry: an opening bracket and the index where it stands. */
  type Opener = (char, nat)

  function UnclosedMessage(opener: char): string { "Незакрытая скобка '" + [opener] + "'" }

  function ExtraCloserMessage(closer: char): string { "Лишняя закрывающая скобка '" + [closer] + "'" }

  function MismatchMessage(opener: char, closer: char): string {
    "Несоответствие скобок: ожидалось '" + [Closing(opener)] + "', но получено '" + [closer] + "'"
  }

  /** `CheckBalancedBrackets` from index `i` on, with the stack (top last) and the
      quoted state reached so far. */
  function BalanceFrom(s: string, i: nat, stack: seq<Opener>, insideQuotes: bool): Outcome
    requires i <= |s|
    decreases |s| - i
  {
    if i == |s| then
      if |stack| > 0 then Fail(ReportError(UnclosedMessage(stack[|stack| - 1].0), stack[|stack| - 1].1))
      else Pass
    else
      var c := s[i];
      if c == '"' then BalanceFrom(s, i + 1, stack, !insideQuotes)
      else if insideQuotes then BalanceFrom(s, i + 1, stack, insideQuotes)
      else if IsOpener(c) then BalanceFrom(s, i + 1, stack + [(c, i)], insideQuotes)
      else if IsCloser(c) then
        if |stack| == 0 then Fail(ReportError(ExtraCloserMessage(c), i))
        else
          var top := stack[|stack| - 1];
          if (top.0 == '(' && c != ')') || (top.0 == '[' && c != ']') then
            Fail(ReportError(MismatchMessage(top.0, c), top.1))
          else BalanceFrom(s, i + 1, stack[..|stack| - 1], insideQuotes)
      else BalanceFrom(s, i + 1, stack, insideQuotes)
  }

  /** The result of the balance check on the whole input. */
  function CheckBalancedBrackets(s: string): Outcome {
    BalanceFrom(s, 0, [], false)
  }

  /** The balance check as the source runs it: one pass with a stack and a quote flag. */
  method BalanceScan(s: string) returns (r: Outcome)
    ensures r == CheckBalancedBrackets(s)
  {
    var stack: seq<Opener> := [];
    var insideQuotes := false;
    var i := 0;
    while i < |s|
      invariant 0 <= i <= |s|
      invariant BalanceFrom(s, i, stack, insideQuotes) == CheckBalancedBrackets(s)
    {
      var c := s[i];
      if c == '"' {
        insideQuotes := !insideQuotes;
      } else if !insideQuotes {
        if c == '(' || c == '[' {
          stack := stack + [(c, i)];
        } else if c == ')' || c == ']' {
          if |stack| == 0 {
            return Fail(ReportError(ExtraCloserMessage(c), i));
          }
          var top := stack[|stack| - 1];
          stack := stack[..|stack| - 1];
          if (top.0 == '(' && c != ')') || (top.0 == '[' && c != ']') {
            return Fail(ReportError(MismatchMessage(top.0, c), top.1));
          }
        }
      }
      i := i + 1;
    }
    if |stack| > 0 {
      var top := stack[|stack| - 1];
      return Fail(ReportError(UnclosedMessage(top.0), top.1));
    }
    return Pass;
  }

  /** Every stack entry is an opener standing, outside quotes, at its recorded index before `i`. */
  predicate StackRecordsOpeners(s: string, i: nat, stack: seq<Opener>)
    requires i <= |s|
  {
    forall k :: 0 <= k < |stack| ==>
      stack[k].1 < i && s[stack[k].1] == stack[k].0 && IsOpener(stack[k].0) && !InQuotes(s, stack[k].1)
  }

  /** A reported error always points, outside quotes, at a bracket of the input:
      at the closer for an extra closer, and at an opener otherwise. */
  lemma {:induction false} BalanceErrorAtBracket(s: string, i: nat, stack: seq<Opener>, insideQuotes: bool)
    requires i <= |s| && insideQuotes == InQuotes(s, i) && StackRecordsOpeners(s, i, stack)
    requires BalanceFrom(s, i, stack, insideQuotes).Fail?
    ensures var p := BalanceFrom(s, i, stack, insideQuotes).error.errorPosition - 1;
      0 <= p < |s| && (IsOpener(s[p]) || IsCloser(s[p])) && !InQuotes(s, p)
    decreases |s| - i
  {
    if i < |s| {
      var c := s[i];
      assert QuoteCount(s, i + 1) == QuoteCount(s, i) + (if c == '"' then 1 else 0);
      if c == '"' {
        BalanceErrorAtBracket(s, i + 1, stack, !insideQuotes);
      } else if insideQuotes {
        BalanceErrorAtBracket(s, i + 1, stack, insideQuotes);
      } else if IsOpener(c) {
        BalanceErrorAtBracket(s, i + 1, stack + [(c, i)], insideQuotes);
      } else if IsCloser(c) {
        if |stack| > 0 {
          var top := stack[|stack| - 1];
          if !((top.0 == '(' && c != ')') || (top.0 == '[' && c != ']')) {
            BalanceErrorAtBracket(s, i + 1, stack[..|stack| - 1], insideQuotes);
          }
        }
      } else {
        BalanceErrorAtBracket(s, i + 1, stack, insideQuotes);
      }
    }
  }

  /** At index `k`, `s` and `t` both have or both lack a double quote, and agree if `k` is outside quotes in `s`. */
  predicate AgreeOutsideQuotes(s: string, t: string, k: nat)
    requires k < |s| == |t|
  {
    (s[k] == '"' <==> t[k] == '"') && (!InQuotes(s, k) ==> s[k] == t[k])
  }

  /** Two inputs with double quotes in the same places and the same text outside quotes. */
  predicate SameOutsideQuotes(s: string, t: string) {
    |s| == |t| && forall k :: 0 <= k < |s| ==> AgreeOutsideQuotes(s, t, k)
  }

  /** Brackets between quotes are ignored: text inside quotes does not change the outcome. */
  lemma {:induction false} QuotedTextIgnored(s: string, t: string, i: nat, stack: seq<Opener>, insideQuotes: bool)
    requires SameOutsideQuotes(s, t) && i <= |s| && insideQuotes == InQuotes(s, i)
    ensures BalanceFrom(s, i, stack, insideQuotes) == BalanceFrom(t, i, stack, insideQuotes)
    decreases |s| - i
  {
    if i < |s| {
      var c := s[i];
      assert QuoteCount(s, i + 1) == QuoteCount(s, i) + (if c == '"' then 1 else 0);
      assert AgreeOutsideQuotes(s, t, i);
      if c == '"' {
        QuotedTextIgnored(s, t, i + 1, stack, !insideQuotes);
      } else if insideQuotes {
        QuotedTextIgnored(s, t, i + 1, stack, insideQuotes);
      } else {
        assert !InQuotes(s, i);
        assert t[i] == c;
        if IsOpener(c) {
          QuotedTextIgnored(s, t, i + 1, stack + [(c, i)], insideQuotes);
        } else if IsCloser(c) {
          if |stack| > 0 {
            QuotedTextIgnored(s, t, i + 1, stack[..|stack| - 1], insideQuotes);
          }
        } else {
          QuotedTextIgnored(s, t, i + 1, stack, insideQuotes);
        }
      }
    }
  }

  /** The whole-input form: the check gives the same answer on inputs that differ only inside quotes. */
  lemma CheckIgnoresQuotedText(s: string, t: string)
    requires SameOutsideQuotes(s, t)
    ensures CheckBalancedBrackets(s) == CheckBalancedBrackets(t)
  {
    QuotedTextIgnored(s, t, 0, [], false);
  }

  /** Regex `\(\s*\)` matches at `i`: `(`, only whitespace, then `)`. */
  predicate EmptyParensAt(s: string, i: nat) {
    i < |s| && s[i] == '(' && exists j :: i < j < |s| && s[j] == ')' && AllWhiteSpace(s[i + 1..j])
  }

  const EmptyParensMessage: string := "Пустые скобки '()' недопустимы"

  /** `CheckForStandaloneEmptyParentheses`: fails at the leftmost `()` with only whitespace inside. */
  function CheckForStandaloneEmptyParentheses(s: string): (r: Outcome)
    ensures r.Pass? || r.Fail?
    ensures r.Pass? <==> forall i :: 0 <= i < |s| ==> !EmptyParensAt(s, i)
    ensures r.Fail? ==> exists i :: 0 <= i < |s| && r.error == ReportError(EmptyParensMessage, i)
                                 && EmptyParensAt(s, i) && (forall j :: 0 <= j < i ==> !EmptyParensAt(s, j))
  {
    var p := (i: nat) => EmptyParensAt(s, i);
    match FirstIndex(0, |s|, p)
    case None =>
      assert forall i :: 0 <= i < |s| ==> p(i) == EmptyParensAt(s, i);
      Pass
    case Some(i) =>
      assert forall j :: 0 <= j <= i ==> p(j) == EmptyParensAt(s, j);
      Fail(ReportError(EmptyParensMessage, i))
  }

  /** `Validate`: the balance check first, then the empty-parentheses check. */
  function Validate(s: string): (r: Outcome)
    ensures CheckBalancedBrackets(s).Fail? ==> r == CheckBalancedBrackets(s)
    ensures CheckBalancedBrackets(s).Pass? ==> r == CheckForStandaloneEmptyParentheses(s)
  {
    if CheckBalancedBrackets(s).Pass? then CheckForStandaloneEmptyParentheses(s)
    else CheckBalancedBrackets(s)
  }

  /** `sqrt(1 + (2` reports the innermost unclosed `(`, at position 10. */
  lemma UnclosedExample()
    ensures Validate("sqrt(1 + (2") == Fail(ReportError(UnclosedMessage('('), 9))
  {
    var s := "sqrt(1 + (2";
    assert BalanceFrom(s, 0, [], false) == BalanceFrom(s, 5, [('(', 4)], false);
    assert BalanceFrom(s, 5, [('(', 4)], false) == BalanceFrom(s, 10, [('(', 4), ('(', 9)], false);
  }

  /** `sum(1, 2` reports its unclosed `(` at position 4. */
  lemma UnclosedCallExample()
    ensures Validate("sum(1, 2") == Fail(ReportError(UnclosedMessage('('), 3))
  {
    var s := "sum(1, 2";
    assert BalanceFrom(s, 0, [], false) == BalanceFrom(s, 4, [('(', 3)], false);
  }

  /** `cos()` is balanced but has empty parentheses at position 4. */
  lemma EmptyCallExample()
    ensures Validate("cos()") == Fail(ReportError(EmptyParensMessage, 3))
  {
    var s := "cos()";
    assert BalanceFrom(s, 0, [], false) == Pass;
    assert EmptyParensAt(s, 3) by { assert s[4] == ')' && s[4..4] == []; }
    assert forall j :: 0 <= j < 3 ==> !EmptyParensAt(s, j);
  }
}
