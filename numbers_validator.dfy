/// The numbers validator: two digit groups separated only by blanks read as
/// one number with a space in it.
module NumbersValidator {
  import opened Text
  import opened Scanning
  import opened BaseValidator

  const SpaceInNumberMessage: string := "Число содержит пробел, что недопустимо."

  /** One way for `\b\d+\s+\d+\b` to match at `p`: digits on [p, d1), blanks on
      [d1, w), digits on [w, d2), with word boundaries at `p` and `d2`. */
  predicate SpacedDigits(s: string, p: nat, d1: nat, w: nat, d2: nat) {
    p < d1 < w < d2 <= |s| && WordBoundary(s, p) && AllDigits(s[p..d1])
    && AllWhiteSpace(s[d1..w]) && AllDigits(s[w..d2]) && WordBoundary(s, d2)
  }

  /** The pattern matches at `p`, by the regex's own reading. */
  ghost predicate PatternAt(s: string, p: nat) {
    exists d1: nat, w: nat, d2: nat :: SpacedDigits(s, p, d1, w, d2)
  }

  /** The greedy scan at `p`: the digit run, the blanks after it, a second
      digit run and a boundary after it. */
  predicate SpacedNumberAt(s: string, p: nat) {
    p < |s| && IsDigit(s[p]) && (p == 0 || !IsWordChar(s[p - 1]))
    && var d1 := RunEnd(s, p, IsDigit);
       var w := SkipWhiteSpace(s, d1);
       d1 < w < |s| && IsDigit(s[w])
       && var d2 := RunEnd(s, w, IsDigit);
          (d2 == |s| || !IsWordChar(s[d2]))
  }

  /** Greedy runs lose no match: the scan succeeds exactly where the pattern
      matches, since a shorter digit run is followed by a digit, not a blank
      or a boundary. */
  lemma ScanIsPattern(s: string, p: nat)
    ensures SpacedNumberAt(s, p) <==> PatternAt(s, p)
  {
    if SpacedNumberAt(s, p) {
      var d1 := RunEnd(s, p, IsDigit);
      var w := SkipWhiteSpace(s, d1);
      var d2 := RunEnd(s, w, IsDigit);
      assert forall i :: 0 <= i < d1 - p ==> s[p..d1][i] == s[p + i];
      assert forall i :: 0 <= i < d2 - w ==> s[w..d2][i] == s[w + i];
      assert SpacedDigits(s, p, d1, w, d2);
    }
    if PatternAt(s, p) {
      var d1: nat, w: nat, d2: nat :| SpacedDigits(s, p, d1, w, d2);
      forall m | p <= m < d1 ensures IsDigit(s[m]) { assert s[p..d1][m - p] == s[m]; }
      forall m | w <= m < d2 ensures IsDigit(s[m]) { assert s[w..d2][m - w] == s[m]; }
      assert s[d1..w][0] == s[d1];
      RunEndExact(s, p, d1, IsDigit);
      SkipWhiteSpaceExact(s, d1, w);
      RunEndExact(s, w, d2, IsDigit);
    }
  }

  /** `CheckNumbers`: the error is reported at the first match. */
  function Validate(s: string): (r: Outcome)
    ensures r.Pass? || r.Fail?
    ensures r.Pass? <==> forall p :: 0 <= p < |s| ==> !SpacedNumberAt(s, p)
    ensures r.Fail? ==> exists p :: (0 <= p < |s| && SpacedNumberAt(s, p)
      && (forall q :: 0 <= q < p ==> !SpacedNumberAt(s, q))
      && r.error == ReportError(SpaceInNumberMessage, p))
  {
    var f := (p: nat) => SpacedNumberAt(s, p);
    match FirstIndex(0, |s|, f)
    case Some(p) =>
      assert forall j :: 0 <= j <= p ==> f(j) == SpacedNumberAt(s, j);
      Fail(ReportError(SpaceInNumberMessage, p))
    case None =>
      assert forall j :: 0 <= j < |s| ==> f(j) == SpacedNumberAt(s, j);
      Pass
  }

  /** The validator in the pattern's terms: it fails exactly when the pattern
      matches somewhere, and then at the leftmost match. */
  lemma ValidateMeaning(s: string)
    ensures Validate(s).Pass? <==> forall p :: 0 <= p < |s| ==> !PatternAt(s, p)
    ensures Validate(s).Fail? ==> var p := Validate(s).error.errorPosition - 1;
      0 <= p < |s| && PatternAt(s, p) && forall q :: 0 <= q < p ==> !PatternAt(s, q)
  {
    forall p | 0 <= p < |s| { ScanIsPattern(s, p); }
  }

  lemma SpacedNumberRejected()
    ensures Validate("1 2") == Fail(ReportError(SpaceInNumberMessage, 0))
  {
    var s := "1 2";
    assert RunEnd(s, 0, IsDigit) == 1;
    assert SkipWhiteSpace(s, 1) == 2;
    assert RunEnd(s, 2, IsDigit) == 3;
    assert SpacedNumberAt(s, 0);
  }

  /** A digit group glued to a name is not a number: `x1 2` passes. */
  lemma DigitsAfterNameAccepted()
    ensures Validate("x1 2").Pass?
  {
    var s := "x1 2";
    assert !SpacedNumberAt(s, 1);
    assert RunEnd(s, 3, IsDigit) == 4;
    assert !SpacedNumberAt(s, 3);
  }
}
