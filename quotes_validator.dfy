/// The quotes validator: double quotes must pair up, and no pair may be empty.
/// A quote has no escape form; every `"` opens or closes.
module QuotesValidator {
  import opened Wrappers
  import opened Text
  import opened Errors
  import opened Scanning
  import opened BaseValidator

  const UnclosedQuoteMessage: string := "Незакрытая кавычка"

  const EmptyQuotesMessage: string := "Пустые кавычки недопустимы"

  /** The index of the quote left open after the first `n` characters, if any:
      the scan records each opening quote and forgets it at the closing one. */
  function OpenQuote(s: string, n: nat): Option<nat>
    requires n <= |s|
  {
    if n == 0 then None
    else if s[n - 1] != '"' then OpenQuote(s, n - 1)
    else if InQuotes(s, n - 1) then None
    else Some(n - 1)
  }

  /** A quote is open exactly when an odd number of quotes has been seen, and
      then it is the last quote so far, standing outside any earlier pair. */
  lemma {:induction false} OpenQuoteIsLastOddQuote(s: string, n: nat)
    requires n <= |s|
    ensures OpenQuote(s, n).Some? <==> InQuotes(s, n)
    ensures OpenQuote(s, n).Some? ==>
      var p := OpenQuote(s, n).value;
      p < n && s[p] == '"' && !InQuotes(s, p) && (forall k :: p < k < n ==> s[k] != '"')
  {
    if n > 0 {
      OpenQuoteIsLastOddQuote(s, n - 1);
    }
  }

  /** `CheckForUnclosedQuotes`: fails at the quote left open, if any. */
  function CheckForUnclosedQuotes(s: string): Outcome {
    match OpenQuote(s, |s|)
    case None => Pass
    case Some(p) => Fail(ReportError(UnclosedQuoteMessage, p))
  }

  /** The unclosed-quote check as the source runs it: one pass that toggles
      the quoted state and overwrites the remembered opening position. */
  method UnclosedQuotesScan(s: string) returns (r: Outcome)
    ensures r == CheckForUnclosedQuotes(s)
  {
    var insideQuotes := false;
    var firstQuotePos: Option<nat> := None;
    var i := 0;
    while i < |s|
      invariant 0 <= i <= |s|
      invariant insideQuotes == InQuotes(s, i)
      invariant firstQuotePos == OpenQuote(s, i)
    {
      if s[i] == '"' {
        if !insideQuotes {
          firstQuotePos := Some(i);
        } else {
          firstQuotePos := None;
        }
        insideQuotes := !insideQuotes;
      }
      i := i + 1;
    }
    if firstQuotePos.Some? {
      return Fail(ReportError(UnclosedQuoteMessage, firstQuotePos.value));
    }
    return Pass;
  }

  /** The unclosed-quote check fails exactly on an odd number of quotes, and
      then at the last quote of the input. */
  lemma UnclosedIffOddQuotes(s: string)
    ensures CheckForUnclosedQuotes(s).Fail? <==> QuoteCount(s, |s|) % 2 == 1
    ensures CheckForUnclosedQuotes(s).Fail? ==>
      var p := CheckForUnclosedQuotes(s).error.errorPosition - 1;
      0 <= p < |s| && s[p] == '"' && (forall k :: p < k < |s| ==> s[k] != '"')
  {
    OpenQuoteIsLastOddQuote(s, |s|);
  }

  /** `CheckForEmptyQuotes`: fails at the first `""` of the input. */
  function CheckForEmptyQuotes(s: string): (r: Outcome)
    ensures r.Pass? || r.Fail?
    ensures r.Pass? <==> forall i :: 0 <= i < |s| ==> !OccursAt(s, "\"\"", i)
    ensures r.Fail? ==> exists i :: 0 <= i < |s| && r.error == ReportError(EmptyQuotesMessage, i)
                                 && OccursAt(s, "\"\"", i) && (forall j :: 0 <= j < i ==> !OccursAt(s, "\"\"", j))
  {
    var p := (i: nat) => OccursAt(s, "\"\"", i);
    match FirstIndex(0, |s|, p)
    case None =>
      assert forall i :: 0 <= i < |s| ==> p(i) == OccursAt(s, "\"\"", i);
      Pass
    case Some(i) =>
      assert forall j :: 0 <= j <= i ==> p(j) == OccursAt(s, "\"\"", j);
      Fail(ReportError(EmptyQuotesMessage, i))
  }

  /** `Validate`: the unclosed-quote check first, then the empty-quotes check. */
  function Validate(s: string): (r: Outcome)
    ensures CheckForUnclosedQuotes(s).Fail? ==> r == CheckForUnclosedQuotes(s)
    ensures CheckForUnclosedQuotes(s).Pass? ==> r == CheckForEmptyQuotes(s)
  {
    if CheckForUnclosedQuotes(s).Pass? then CheckForEmptyQuotes(s) else CheckForUnclosedQuotes(s)
  }

  /** `"unclosed` reports its quote at position 1. */
  lemma UnclosedExample()
    ensures Validate("\"unclosed") == Fail(ReportError(UnclosedQuoteMessage, 0))
  {
    var s := "\"unclosed";
    assert OpenQuote(s, 9) == OpenQuote(s, 1);
  }

  /** `a + ""` has balanced but empty quotes, reported at position 5. */
  lemma EmptyExample()
    ensures Validate("a + \"\"") == Fail(ReportError(EmptyQuotesMessage, 4))
  {
    var s := "a + \"\"";
    assert OpenQuote(s, 6) == None;
    assert OccursAt(s, "\"\"", 4);
    assert forall j :: 0 <= j < 4 ==> !OccursAt(s, "\"\"", j);
  }
}
