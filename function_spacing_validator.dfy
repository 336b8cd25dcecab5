/// The function-spacing validator: a reserved function name may not be
/// separated from its `(` by blanks.
module FunctionSpacingValidator {
  import opened Text
  import opened Scanning
  import opened BaseValidator

  const SpacedCallMessage: string := "Недопустимый пробел между именем функции и скобкой."

  /** The reserved names in the order the pattern's alternation lists them. */
  const Alternatives: seq<string> := ["cos", "sin", "sqrt", "min", "max", "if", "pow", "abs", "mean", "sum"]

  lemma AlternativesAreReserved()
    ensures forall n :: n in Alternatives <==> n in ReservedFunctions
  {
  }

  /** One way for `\b(names)\s+\(` to match at `p`, ignoring case: name `n`,
      then blanks up to the `(` at `w`. */
  predicate SpacedCall(s: string, p: nat, n: string, w: nat) {
    WordBoundary(s, p) && p + |n| < w < |s| && Lower(s[p..p + |n|]) == n
    && AllWhiteSpace(s[p + |n|..w]) && s[w] == '('
  }

  /** The pattern matches at `p`, by the regex's own reading. */
  ghost predicate PatternAt(s: string, p: nat) {
    exists n, w: nat :: n in ReservedFunctions && SpacedCall(s, p, n, w)
  }

  /** Alternative `n` followed by at least one blank and `(`. */
  predicate AlternativeAt(s: string, p: nat, n: string) {
    p + |n| <= |s| && Lower(s[p..p + |n|]) == n
    && var w := SkipWhiteSpace(s, p + |n|);
       p + |n| < w < |s| && s[w] == '('
  }

  /** The alternation, tried in order. */
  predicate SomeAlternativeAt(s: string, p: nat, names: seq<string>)
    decreases |names|
  {
    |names| > 0 && (AlternativeAt(s, p, names[0]) || SomeAlternativeAt(s, p, names[1..]))
  }

  predicate SpacedCallAt(s: string, p: nat) {
    WordBoundary(s, p) && SomeAlternativeAt(s, p, Alternatives)
  }

  /** Trying the alternatives in order finds a match exactly when some name of
      the list starts one. */
  lemma {:induction false} AlternationMeaning(s: string, p: nat, names: seq<string>)
    requires WordBoundary(s, p)
    ensures SomeAlternativeAt(s, p, names) <==> exists n, w: nat :: n in names && SpacedCall(s, p, n, w)
    decreases |names|
  {
    if |names| > 0 {
      AlternationMeaning(s, p, names[1..]);
      var n := names[0];
      if AlternativeAt(s, p, n) {
        assert SpacedCall(s, p, n, SkipWhiteSpace(s, p + |n|));
      }
      if exists w: nat :: SpacedCall(s, p, n, w) {
        var w: nat :| SpacedCall(s, p, n, w);
        SkipWhiteSpaceExact(s, p + |n|, w);
      }
      forall m, w: nat | m in names && SpacedCall(s, p, m, w)
        ensures m == n || m in names[1..]
      {
        assert m == names[0] || m in names[1..];
      }
    }
  }

  lemma ScanIsPattern(s: string, p: nat)
    ensures SpacedCallAt(s, p) <==> PatternAt(s, p)
  {
    AlternativesAreReserved();
    if WordBoundary(s, p) {
      AlternationMeaning(s, p, Alternatives);
    }
  }

  /** `CheckForFunctionSpacing`: the error is reported at the first match. */
  function Validate(s: string): (r: Outcome)
    ensures r.Pass? || r.Fail?
    ensures r.Pass? <==> forall p :: 0 <= p < |s| ==> !SpacedCallAt(s, p)
    ensures r.Fail? ==> exists p :: (0 <= p < |s| && SpacedCallAt(s, p)
      && (forall q :: 0 <= q < p ==> !SpacedCallAt(s, q))
      && r.error == ReportError(SpacedCallMessage, p))
  {
    var f := (p: nat) => SpacedCallAt(s, p);
    match FirstIndex(0, |s|, f)
    case Some(p) =>
      assert forall j :: 0 <= j <= p ==> f(j) == SpacedCallAt(s, j);
      Fail(ReportError(SpacedCallMessage, p))
    case None =>
      assert forall j :: 0 <= j < |s| ==> f(j) == SpacedCallAt(s, j);
      Pass
  }

  /** The validator in the pattern's terms: it fails exactly when the pattern
      matches somewhere, and then at the leftmost match. */
  lemma ValidateMeaning(s: string)
    ensures Validate(s).Pass? <==> forall p :: 0 <= p < |s| ==> !PatternAt(s, p)
    ensures Validate(s).Fail? ==> var p := Validate(s).error.errorPosition - 1;
      0 <= p < |s| && PatternAt(s, p) && forall q :: 0 <= q < p ==> !PatternAt(s, q)
  {
    forall p | 0 <= p < |s| { ScanIsPattern(s, p); }
  }

  /** Every alternative starts with a letter, so none matches at a character
      that lower-cases to something else. */
  lemma {:induction false} NoAlternativeBeforeLetter(s: string, p: nat, names: seq<string>)
    requires p < |s| && !IsAsciiLetter(ToLower(s[p]))
    requires forall n :: n in names ==> |n| > 0 && IsAsciiLetter(n[0])
    ensures !SomeAlternativeAt(s, p, names)
    decreases |names|
  {
    if |names| > 0 {
      var n := names[0];
      if p + |n| <= |s| {
        assert Lower(s[p..p + |n|])[0] == ToLower(s[p]);
      }
      NoAlternativeBeforeLetter(s, p, names[1..]);
    }
  }

  lemma SpacedCallOfExample()
    ensures SpacedCallAt("1 + Sin (x)", 4)
  {
    var s := "1 + Sin (x)";
    assert s[4..7] == "Sin";
    assert Lower("Sin") == "sin";
    assert SkipWhiteSpace(s, 7) == 8;
    assert AlternativeAt(s, 4, "sin");
    assert Alternatives[1..][0] == "sin";
    assert SomeAlternativeAt(s, 4, Alternatives[1..]);
  }

  lemma AlternativesStartWithLetters()
    ensures forall n :: n in Alternatives ==> |n| > 0 && IsAsciiLetter(n[0])
  {
  }

  /** No match starts at a character that is not a letter. */
  lemma NoSpacedCallAtNonLetter(s: string, q: nat)
    requires q < |s| && !IsAsciiLetter(ToLower(s[q]))
    ensures !SpacedCallAt(s, q)
  {
    AlternativesStartWithLetters();
    NoAlternativeBeforeLetter(s, q, Alternatives);
  }

  lemma NoSpacedCallBeforeExample()
    ensures forall q :: 0 <= q < 4 ==> !SpacedCallAt("1 + Sin (x)", q)
  {
    var s := "1 + Sin (x)";
    forall q | 0 <= q < 4 ensures !SpacedCallAt(s, q) {
      NoSpacedCallAtNonLetter(s, q);
    }
  }

  lemma SpacedCallRejected()
    ensures Validate("1 + Sin (x)") == Fail(ReportError(SpacedCallMessage, 4))
  {
    SpacedCallOfExample();
    NoSpacedCallBeforeExample();
  }
}
