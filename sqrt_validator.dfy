/// The sqrt validator: `sqrt` applied to a negated name or number is refused.
module SqrtValidator {
  import opened Text
  import opened Scanning
  import opened BaseValidator

  const NegativeSqrtMessage: string := "Недопустимый аргумент для sqrt: переменная не может быть отрицательной."

  /** One way for `sqrt\s*\(\s*-\s*\w+` to match at `p`: the `(` at `a`, the
      `-` at `b`, a word character at `c`, and only blanks in between. */
  predicate NegatedArgument(s: string, p: nat, a: nat, b: nat, c: nat) {
    OccursAt(s, "sqrt", p) && p + 4 <= a < b < c < |s|
    && AllWhiteSpace(s[p + 4..a]) && s[a] == '('
    && AllWhiteSpace(s[a + 1..b]) && s[b] == '-'
    && AllWhiteSpace(s[b + 1..c]) && IsWordChar(s[c])
  }

  /** The pattern matches at `p`, by the regex's own reading. */
  ghost predicate PatternAt(s: string, p: nat) {
    exists a: nat, b: nat, c: nat :: NegatedArgument(s, p, a, b, c)
  }

  /** The scan at `p`: `sqrt`, blanks, `(`, blanks, `-`, blanks, a word character. */
  predicate NegativeSqrtAt(s: string, p: nat) {
    OccursAt(s, "sqrt", p)
    && var a := SkipWhiteSpace(s, p + 4);
       a < |s| && s[a] == '('
       && var b := SkipWhiteSpace(s, a + 1);
          b < |s| && s[b] == '-'
          && var c := SkipWhiteSpace(s, b + 1);
             c < |s| && IsWordChar(s[c])
  }

  lemma ScanFindsPattern(s: string, p: nat)
    requires NegativeSqrtAt(s, p)
    ensures PatternAt(s, p)
  {
    var a := SkipWhiteSpace(s, p + 4);
    var b := SkipWhiteSpace(s, a + 1);
    var c := SkipWhiteSpace(s, b + 1);
    assert NegatedArgument(s, p, a, b, c);
  }

  lemma PatternFoundByScan(s: string, p: nat)
    requires PatternAt(s, p)
    ensures NegativeSqrtAt(s, p)
  {
    var a: nat, b: nat, c: nat :| NegatedArgument(s, p, a, b, c);
    SkipWhiteSpaceExact(s, p + 4, a);
    SkipWhiteSpaceExact(s, a + 1, b);
    SkipWhiteSpaceExact(s, b + 1, c);
  }

  /** The scan succeeds exactly where the pattern matches: every blank run
      of the pattern ends at a non-blank, so it is the maximal run. */
  lemma ScanIsPattern(s: string, p: nat)
    ensures NegativeSqrtAt(s, p) <==> PatternAt(s, p)
  {
    if NegativeSqrtAt(s, p) {
      ScanFindsPattern(s, p);
    }
    if PatternAt(s, p) {
      PatternFoundByScan(s, p);
    }
  }

  /** `CheckForInvalidSqrtUsage`: the error is reported at the first match. */
  function Validate(s: string): (r: Outcome)
    ensures r.Pass? || r.Fail?
    ensures r.Pass? <==> forall p :: 0 <= p < |s| ==> !NegativeSqrtAt(s, p)
    ensures r.Fail? ==> exists p :: (0 <= p < |s| && NegativeSqrtAt(s, p)
      && (forall q :: 0 <= q < p ==> !NegativeSqrtAt(s, q))
      && r.error == ReportError(NegativeSqrtMessage, p))
  {
    var f := (p: nat) => NegativeSqrtAt(s, p);
    match FirstIndex(0, |s|, f)
    case Some(p) =>
      assert forall j :: 0 <= j <= p ==> f(j) == NegativeSqrtAt(s, j);
      Fail(ReportError(NegativeSqrtMessage, p))
    case None =>
      assert forall j :: 0 <= j < |s| ==> f(j) == NegativeSqrtAt(s, j);
      Pass
  }

  /** The validator in the pattern's terms: it fails exactly when the pattern
      matches somewhere, and then at the leftmost match. */
  lemma ValidateMeaning(s: string)
    ensures Validate(s).Pass? <==> forall p :: 0 <= p < |s| ==> !PatternAt(s, p)
    ensures Validate(s).Fail? ==> var p := Validate(s).error.errorPosition - 1;
      0 <= p < |s| && PatternAt(s, p) && forall q :: 0 <= q < p ==> !PatternAt(s, q)
  {
    forall p | 0 <= p < |s| { ScanIsPattern(s, p); }
  }

  /** Only a minus directly inside the bracket counts: `sqrt(0 - x)` passes. */
  lemma MinusMustComeFirst(s: string, p: nat)
    requires OccursAt(s, "sqrt", p) && SkipWhiteSpace(s, p + 4) < |s| && s[SkipWhiteSpace(s, p + 4)] == '('
    requires var b := SkipWhiteSpace(s, SkipWhiteSpace(s, p + 4) + 1); b < |s| && s[b] != '-'
    ensures !PatternAt(s, p)
  {
    ScanIsPattern(s, p);
  }

  lemma NegatedNameMatch()
    ensures var s := "2*sqrt( - x)"; NegativeSqrtAt(s, 2) && !NegativeSqrtAt(s, 0) && !NegativeSqrtAt(s, 1)
  {
    var s := "2*sqrt( - x)";
    assert s[2..6] == "sqrt";
    assert SkipWhiteSpace(s, 6) == 6;
    assert SkipWhiteSpace(s, 7) == 8;
    assert SkipWhiteSpace(s, 9) == 10;
    assert s[0..4][0] != 's' && s[1..5][0] != 's';
  }

  /** The first position where the scan succeeds is the one reported. */
  lemma FirstMatchReported(s: string, k: nat)
    requires k < |s| && NegativeSqrtAt(s, k) && forall q :: 0 <= q < k ==> !NegativeSqrtAt(s, q)
    ensures Validate(s) == Fail(ReportError(NegativeSqrtMessage, k))
  {
    var p :| 0 <= p < |s| && NegativeSqrtAt(s, p)
      && (forall q :: 0 <= q < p ==> !NegativeSqrtAt(s, q))
      && Validate(s).error == ReportError(NegativeSqrtMessage, p);
    assert p == k;
  }

  lemma NegatedNameRejected()
    ensures Validate("2*sqrt( - x)") == Fail(ReportError(NegativeSqrtMessage, 2))
  {
    NegatedNameMatch();
    FirstMatchReported("2*sqrt( - x)", 2);
  }
}
