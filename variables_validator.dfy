/// The variables validator: no blank between two identifiers unless one of
/// them is a reserved function name, and no character outside the permitted
/// set. Both checks first rewrite every quoted span as `"QUOTED"`.
module VariablesValidator {
  import opened Wrappers
  import opened Text
  import opened Scanning
  import opened BaseValidator

  /** What every quoted span becomes. */
  const Marker: string := "\"QUOTED\""

  /** `Regex.Replace(input, "\"[^\"]*\"", "\"QUOTED\"")`: from left to right each
      quote and the next one, with what lies between, become the marker. A
      quote without a partner leaves the rest, which holds no other quote, as
      it is. */
  function Sanitize(s: string): string
    decreases |s|
  {
    if |s| == 0 then ""
    else if s[0] == '"' then
      match NextQuote(s, 1)
      case Some(k) => Marker + Sanitize(s[k + 1..])
      case None => s
    else [s[0]] + Sanitize(s[1..])
  }

  /** Text without quotes is left unchanged. */
  lemma {:induction false} SanitizeQuoteFree(s: string)
    requires '"' !in s
    ensures Sanitize(s) == s
    decreases |s|
  {
    if |s| > 0 {
      assert s[0] in s;
      assert forall c :: c in s[1..] ==> c in s;
      SanitizeQuoteFree(s[1..]);
    }
  }

  /** A quoted span after quote-free text becomes the marker, whatever it holds. */
  lemma {:induction false} SanitizeQuotedSpan(pre: string, inner: string, post: string)
    requires '"' !in pre && '"' !in inner
    ensures Sanitize(pre + ['"'] + inner + ['"'] + post) == pre + Marker + Sanitize(post)
    decreases |pre|
  {
    var s := pre + ['"'] + inner + ['"'] + post;
    if |pre| == 0 {
      var q := ['"'] + inner + ['"'] + post;
      assert s == q;
      forall i | 1 <= i < |inner| + 1 ensures q[i] != '"' {
        assert q[i] == inner[i - 1] && inner[i - 1] in inner;
      }
      NextQuoteExact(q, 1, |inner| + 1);
      assert q[|inner| + 2..] == post;
      SanitizeQuoteStep(q, |inner| + 1);
    } else {
      assert s[0] == pre[0] && pre[0] in pre;
      assert s[1..] == pre[1..] + ['"'] + inner + ['"'] + post;
      assert forall c :: c in pre[1..] ==> c in pre;
      SanitizeQuotedSpan(pre[1..], inner, post);
      SanitizeCopyStep(s);
      assert [pre[0]] + pre[1..] == pre;
    }
  }

  /** `xs` with `d` added to every entry. */
  function Shift(xs: seq<nat>, d: nat): (r: seq<nat>)
    ensures |r| == |xs| && forall i :: 0 <= i < |xs| ==> r[i] == xs[i] + d
  {
    seq(|xs|, i requires 0 <= i < |xs| => xs[i] + d)
  }

  /** 0, 1, ..., n - 1. */
  function Range(n: nat): (r: seq<nat>)
    ensures |r| == n && forall i :: 0 <= i < n ==> r[i] == i
  {
    seq(n, i requires 0 <= i < n => i)
  }

  lemma NextQuoteExact(s: string, j: nat, k: nat)
    requires j <= k < |s| && s[k] == '"' && forall i :: j <= i < k ==> s[i] != '"'
    ensures NextQuote(s, j) == Some(k)
  {
  }

  lemma SanitizeQuoteStep(s: string, k: nat)
    requires |s| > 0 && s[0] == '"' && NextQuote(s, 1) == Some(k)
    ensures Sanitize(s) == Marker + Sanitize(s[k + 1..])
  {
  }

  lemma SanitizeCopyStep(s: string)
    requires |s| > 0 && s[0] != '"'
    ensures Sanitize(s) == [s[0]] + Sanitize(s[1..])
  {
  }

  /** For each character of the sanitized text, the index of the input
      character it stands for: a character copied from the input, or, within
      a marker, the quote that opened the span (the closing quote for the
      marker's last character). */
  function Origins(s: string): (r: seq<nat>)
    ensures |r| == |Sanitize(s)|
    ensures forall k :: 0 <= k < |r| ==> r[k] < |s|
    decreases |s|
  {
    if |s| == 0 then []
    else if s[0] == '"' then
      match NextQuote(s, 1)
      case Some(k) => [0, 0, 0, 0, 0, 0, 0, k] + Shift(Origins(s[k + 1..]), k + 1)
      case None => Range(|s|)
    else [0] + Shift(Origins(s[1..]), 1)
  }

  /** Every character of the sanitized text is the input character it stands
      for, or one of the letters of the marker. */
  lemma {:induction false} OriginsFaithful(s: string)
    ensures forall k :: 0 <= k < |Sanitize(s)| ==> Sanitize(s)[k] == s[Origins(s)[k]] || Sanitize(s)[k] in "QUOTED"
    decreases |s|
  {
    var t := Sanitize(s);
    var r := Origins(s);
    if |s| > 0 {
      if s[0] == '"' {
        match NextQuote(s, 1)
        case Some(k) =>
          SanitizeQuoteStep(s, k);
          OriginsFaithful(s[k + 1..]);
          forall i | 0 <= i < |t| ensures t[i] == s[r[i]] || t[i] in "QUOTED" {
            if i == 0 || i == 7 {
            } else if i < 7 {
              assert t[i] == Marker[i];
            } else {
              assert t[i] == Sanitize(s[k + 1..])[i - 8];
              assert r[i] == Origins(s[k + 1..])[i - 8] + k + 1;
            }
          }
        case None =>
      } else {
        SanitizeCopyStep(s);
        OriginsFaithful(s[1..]);
        forall i | 1 <= i < |t| ensures t[i] == s[r[i]] || t[i] in "QUOTED" {
          assert t[i] == Sanitize(s[1..])[i - 1];
          assert r[i] == Origins(s[1..])[i - 1] + 1;
        }
      }
    }
  }

  /** One match of `(\w+)\s+(\w+)`: the left word on [start, leftEnd), blanks
      up to `rightStart`, the right word on [rightStart, end). */
  datatype WordPair = WordPair(start: nat, leftEnd: nat, rightStart: nat, end: nat)

  predicate WellFormed(t: string, m: WordPair) {
    m.start < m.leftEnd < m.rightStart < m.end <= |t|
  }

  /** One way for `(\w+)\s+(\w+)` to match at `p`. */
  predicate PairPattern(t: string, p: nat, a: nat, b: nat, c: nat) {
    p < a < b < c <= |t|
    && (forall k :: p <= k < a ==> IsWordChar(t[k]))
    && AllWhiteSpace(t[a..b])
    && (forall k :: b <= k < c ==> IsWordChar(t[k]))
  }

  /** The match at `p` as the regex takes it: both words and the blanks greedy. */
  function PairAt(t: string, p: nat): (r: Option<WordPair>)
    ensures r.Some? ==> WellFormed(t, r.value) && r.value.start == p
    ensures r.Some? ==> PairPattern(t, p, r.value.leftEnd, r.value.rightStart, r.value.end)
  {
    if p < |t| && IsWordChar(t[p]) then
      var a := RunEnd(t, p, IsWordChar);
      var b := SkipWhiteSpace(t, a);
      if a < b < |t| && IsWordChar(t[b]) then Some(WordPair(p, a, b, RunEnd(t, b, IsWordChar)))
      else None
    else None
  }

  /** The greedy reading finds a match exactly when the pattern can match:
      a shorter left word is followed by a word character, not a blank. */
  lemma PairAtMeaning(t: string, p: nat)
    ensures PairAt(t, p).Some? <==> exists a: nat, b: nat, c: nat :: PairPattern(t, p, a, b, c)
  {
    if exists a: nat, b: nat, c: nat :: PairPattern(t, p, a, b, c) {
      var a: nat, b: nat, c: nat :| PairPattern(t, p, a, b, c);
      assert t[a..b][0] == t[a];
      RunEndExact(t, p, a, IsWordChar);
      SkipWhiteSpaceExact(t, a, b);
    }
  }

  function Left(t: string, m: WordPair): string
    requires WellFormed(t, m)
  {
    t[m.start..m.leftEnd]
  }

  function Right(t: string, m: WordPair): string
    requires WellFormed(t, m)
  {
    t[m.rightStart..m.end]
  }

  /** A pair the check refuses: neither side is a string and neither is reserved. */
  predicate Refused(t: string, m: WordPair)
    requires WellFormed(t, m)
  {
    Left(t, m) != "QUOTED" && Right(t, m) != "QUOTED" && !IsReserved(Left(t, m)) && !IsReserved(Right(t, m))
  }

  /** The search for the first refused pair among the matches from `p` on;
      it resumes after each match. */
  function RefusedScan(t: string, p: nat): Option<WordPair>
    requires p <= |t|
    decreases |t| - p
  {
    if p == |t| then None
    else match PairAt(t, p)
      case None => RefusedScan(t, p + 1)
      case Some(m) => if Refused(t, m) then Some(m) else RefusedScan(t, m.end)
  }

  lemma {:induction false} RefusedScanFinds(t: string, p: nat)
    requires p <= |t|
    ensures var r := RefusedScan(t, p);
      r.Some? ==> (WellFormed(t, r.value) && p <= r.value.start && Refused(t, r.value)
                   && PairAt(t, r.value.start) == Some(r.value))
    decreases |t| - p
  {
    if p < |t| {
      if PairAt(t, p).None? {
        RefusedScanFinds(t, p + 1);
      } else if !Refused(t, PairAt(t, p).value) {
        RefusedScanFinds(t, PairAt(t, p).value.end);
      }
    }
  }

  /** The first refused pair among the matches from `p` on: a match the
      pattern makes where it starts, and one the check refuses. */
  function FirstRefused(t: string, p: nat): (r: Option<WordPair>)
    requires p <= |t|
    ensures r.Some? ==> WellFormed(t, r.value) && p <= r.value.start && Refused(t, r.value)
    ensures r.Some? ==> PairAt(t, r.value.start) == Some(r.value)
  {
    RefusedScanFinds(t, p);
    RefusedScan(t, p)
  }

  function SpacingMessage(left: string, right: string): string {
    "Недопустимый пробел между идентификаторами: \"" + left + " " + right + "\""
  }

  /** `c` is permitted: a word character, a basic Russian letter, a blank
      (U+0020 only) or one of `+ - * / % ^ ( ) . , [ ] _ < > = !` and the double quote. */
  predicate Permitted(c: char) {
    IsWordChar(c) || IsRussianLetter(c) || c == '+' || c == '-' || c == '*' || c == '/' || c == '%'
    || c == '^' || c == '(' || c == ')' || c == '.' || c == ',' || c == '[' || c == ']' || c == ' '
    || c == '_' || c == '<' || c == '>' || c == '=' || c == '!' || c == '"'
  }

  function CharacterMessage(c: char): string {
    "Недопустимый символ: '" + [c] + "'"
  }

  /** The first character of `t` that is not permitted. */
  function FirstForbidden(t: string): (r: Option<nat>)
    ensures r.Some? ==> r.value < |t| && !Permitted(t[r.value])
    ensures r.Some? ==> forall k :: 0 <= k < r.value ==> Permitted(t[k])
    ensures r.None? ==> forall k :: 0 <= k < |t| ==> Permitted(t[k])
  {
    var f := (k: nat) => k < |t| && !Permitted(t[k]);
    match FirstIndex(0, |t|, f)
    case Some(k) =>
      assert forall j :: 0 <= j <= k ==> f(j) == (j < |t| && !Permitted(t[j]));
      Some(k)
    case None =>
      assert forall j :: 0 <= j < |t| ==> f(j) == (j < |t| && !Permitted(t[j]));
      None
  }

  /** Where an error found at index `k` of the sanitized text is reported:
      at `k` itself, as the code does (`asWritten`), or at the input
      character it stands for. */
  function Reported(s: string, k: nat, asWritten: bool): nat
    requires k < |Sanitize(s)|
  {
    if asWritten then k else Origins(s)[k]
  }

  /** `CheckForInvalidVariableSpacing`. */
  function CheckSpacing(s: string, asWritten: bool): Outcome {
    var t := Sanitize(s);
    match FirstRefused(t, 0)
    case None => Pass
    case Some(m) => Fail(ReportError(SpacingMessage(Left(t, m), Right(t, m)), Reported(s, m.leftEnd, asWritten)))
  }

  /** `CheckForInvalidCharacters`. */
  function CheckCharacters(s: string, asWritten: bool): Outcome {
    var t := Sanitize(s);
    match FirstForbidden(t)
    case None => Pass
    case Some(k) => Fail(ReportError(CharacterMessage(t[k]), Reported(s, k, asWritten)))
  }

  function Check(s: string, asWritten: bool): Outcome {
    var spacing := CheckSpacing(s, asWritten);
    if spacing.Pass? then CheckCharacters(s, asWritten) else spacing
  }

  /** The validator with positions in the sanitized text, as the code reports them. */
  function ValidateAsWritten(s: string): Outcome {
    Check(s, true)
  }

  /** The validator with positions in the input as typed. */
  function Validate(s: string): Outcome {
    Check(s, false)
  }

  /** A refused pair is reported at a blank of the input. */
  lemma SpacingPointsAtBlank(s: string)
    ensures CheckSpacing(s, false).Fail? ==> var i := CheckSpacing(s, false).error.errorPosition - 1;
      0 <= i < |s| && IsWhiteSpace(s[i])
  {
    var t := Sanitize(s);
    match FirstRefused(t, 0)
    case Some(m) =>
      assert t[m.leftEnd..m.rightStart][0] == t[m.leftEnd];
      OriginsFaithful(s);
    case None =>
  }

  /** A forbidden character is reported at that same character of the input. */
  lemma CharacterPointsAtItself(s: string)
    ensures CheckCharacters(s, false).Fail? ==> var i := CheckCharacters(s, false).error.errorPosition - 1;
      0 <= i < |s| && !Permitted(s[i])
      && CheckCharacters(s, false) == Fail(ReportError(CharacterMessage(s[i]), i))
  {
    var t := Sanitize(s);
    match FirstForbidden(t)
    case Some(k) =>
      OriginsFaithful(s);
      assert t[k] == s[Origins(s)[k]];
    case None =>
  }

  /** Quoted text is never looked at: between quote-free text, any quoted
      span gives the same outcome as an empty one. */
  lemma QuotedContentIgnored(pre: string, inner: string, post: string)
    requires '"' !in pre && '"' !in inner
    ensures ValidateAsWritten(pre + ['"'] + inner + ['"'] + post) == ValidateAsWritten(pre + ['"', '"'] + post)
  {
    SanitizeQuotedSpan(pre, inner, post);
    SanitizeQuotedSpan(pre, "", post);
    assert pre + ['"'] + "" + ['"'] + post == pre + ['"', '"'] + post;
  }

  lemma {:induction false} OriginsQuoteFree(s: string)
    requires '"' !in s
    ensures Origins(s) == Range(|s|)
    decreases |s|
  {
    if |s| > 0 {
      assert s[0] in s;
      assert forall c :: c in s[1..] ==> c in s;
      OriginsQuoteFree(s[1..]);
    }
  }

  /** No pair starts at any position in `[p, q)`. */
  predicate NoPairIn(t: string, p: nat, q: nat)
    requires p <= q <= |t|
    decreases q - p
  {
    p == q || (PairAt(t, p).None? && NoPairIn(t, p + 1, q))
  }

  lemma {:induction false} NoPairInEach(t: string, p: nat, q: nat)
    requires p <= q <= |t|
    requires forall i :: p <= i < q ==> PairAt(t, i).None?
    ensures NoPairIn(t, p, q)
    decreases q - p
  {
    if p < q {
      NoPairInEach(t, p + 1, q);
    }
  }

  /** Positions where no pair starts are passed over one by one. */
  lemma NoPairBetween(t: string, p: nat, q: nat)
    requires p <= q <= |t|
    requires forall i :: p <= i < q ==> PairAt(t, i).None?
    ensures FirstRefused(t, p) == FirstRefused(t, q)
  {
    NoPairInEach(t, p, q);
    NoPairSkipped(t, p, q);
  }

  lemma {:induction false} NoPairSkipped(t: string, p: nat, q: nat)
    requires p <= q <= |t| && NoPairIn(t, p, q)
    ensures RefusedScan(t, p) == RefusedScan(t, q)
    decreases q - p
  {
    if p < q {
      NoPairSkipped(t, p + 1, q);
    }
  }

  /** No pair starts at a word `[p, a)` that neither blanks nor a second
      word follow. */
  lemma NoPairAt(t: string, p: nat, a: nat, b: nat)
    requires p < a <= b <= |t| && forall k :: p <= k < a ==> IsWordChar(t[k])
    requires a < |t| ==> !IsWordChar(t[a])
    requires AllWhiteSpace(t[a..b]) && (b < |t| ==> !IsWhiteSpace(t[b]))
    requires a == b || b == |t| || !IsWordChar(t[b])
    ensures PairAt(t, p).None?
  {
    RunEndExact(t, p, a, IsWordChar);
    SkipWhiteSpaceExact(t, a, b);
  }

  /** After a marker at the start, no pair starts before index 8: the word
      `QUOTED` is followed by a quote, not a blank. */
  lemma NoPairInMarker(t: string)
    requires |t| >= 8 && t[..8] == Marker
    ensures forall i :: 0 <= i < 8 ==> PairAt(t, i).None?
  {
    assert t[7] == '"' && t[0] == '"';
    forall i | 1 <= i < 7 ensures PairAt(t, i).None? {
      assert t[i] == Marker[i];
      RunEndExact(t, i, 7, IsWordChar);
    }
  }

  const SpacedName: string := "my var + 5"

  lemma SpacedNamePair()
    ensures FirstRefused(SpacedName, 0) == Some(WordPair(0, 2, 3, 6))
    ensures Left(SpacedName, WordPair(0, 2, 3, 6)) == "my" && Right(SpacedName, WordPair(0, 2, 3, 6)) == "var"
  {
    var s := SpacedName;
    assert RunEnd(s, 0, IsWordChar) == 2;
    assert SkipWhiteSpace(s, 2) == 3;
    assert RunEnd(s, 3, IsWordChar) == 6;
    assert PairAt(s, 0) == Some(WordPair(0, 2, 3, 6));
    assert s[0..2] == "my" && s[3..6] == "var";
    assert !IsReserved("my") by { assert Lower("my") == "my"; }
    assert !IsReserved("var") by { assert Lower("var") == "var"; }
  }

  /** A quote-free input whose first refused pair is `m` fails the spacing
      check at the pair's blank, the same position either way. */
  lemma OnlyRefusedPair(s: string, m: WordPair)
    requires '"' !in s && FirstRefused(s, 0) == Some(m)
    ensures Validate(s) == Fail(ReportError(SpacingMessage(Left(s, m), Right(s, m)), m.leftEnd))
    ensures ValidateAsWritten(s) == Validate(s)
  {
    SanitizeQuoteFree(s);
    OriginsQuoteFree(s);
  }

  lemma SpacedNameQuoteFree()
    ensures '"' !in SpacedName
  {
  }

  lemma SpacedNameRejected()
    ensures Validate(SpacedName) == Fail(ReportError(SpacingMessage("my", "var"), 2))
    ensures ValidateAsWritten(SpacedName) == Validate(SpacedName)
  {
    SpacedNameQuoteFree();
    SpacedNamePair();
    OnlyRefusedPair(SpacedName, WordPair(0, 2, 3, 6));
  }

  lemma SinReserved()
    ensures IsReserved("sin")
  {
    assert Lower("sin") == "sin";
  }

  lemma SinPair()
    ensures var s := "sin x"; PairAt(s, 0) == Some(WordPair(0, 3, 4, 5)) && Left(s, WordPair(0, 3, 4, 5)) == "sin"
    ensures '"' !in "sin x"
  {
    var s := "sin x";
    RunEndExact(s, 0, 3, IsWordChar);
    assert s[3..4] == " ";
    SkipWhiteSpaceExact(s, 3, 4);
    RunEndExact(s, 4, 5, IsWordChar);
    assert s[0..3] == "sin";
  }

  /** A reserved name may stand before a blank: `sin x` passes the spacing check. */
  lemma ReservedNameMaySpace()
    ensures CheckSpacing("sin x", false).Pass?
  {
    var s := "sin x";
    SinPair();
    SinReserved();
    SanitizeQuoteFree(s);
    assert FirstRefused(s, 0) == FirstRefused(s, 5);
  }

  /** A quote-free input with no pair and a first forbidden character at `k`
      fails the character check there. */
  lemma OnlyForbiddenCharacter(s: string, k: nat)
    requires '"' !in s && k < |s|
    requires forall i :: 0 <= i < |s| ==> PairAt(s, i).None?
    requires !Permitted(s[k]) && forall i :: 0 <= i < k ==> Permitted(s[i])
    ensures Validate(s) == Fail(ReportError(CharacterMessage(s[k]), k))
  {
    SanitizeQuoteFree(s);
    OriginsQuoteFree(s);
    NoPairBetween(s, 0, |s|);
    assert FirstForbidden(s) == Some(k);
  }

  lemma HashNoPair()
    ensures forall i :: 0 <= i < 5 ==> PairAt("a + #", i).None?
    ensures '"' !in "a + #"
  {
    var s := "a + #";
    assert s[1..2] == " ";
    NoPairAt(s, 0, 1, 2);
    assert !IsWordChar(s[1]) && !IsWordChar(s[2]) && !IsWordChar(s[3]) && !IsWordChar(s[4]);
  }

  lemma HashFirstForbidden()
    ensures var s := "a + #"; !Permitted(s[4]) && s[4] == '#' && forall i :: 0 <= i < 4 ==> Permitted(s[i])
  {
    var s := "a + #";
    assert Permitted(s[0]) && Permitted(s[1]) && Permitted(s[2]) && Permitted(s[3]);
  }

  /** `a + #`: the `#` is reported at position 5. */
  lemma HashRejected()
    ensures Validate("a + #") == Fail(ReportError(CharacterMessage('#'), 4))
  {
    HashNoPair();
    HashFirstForbidden();
    OnlyForbiddenCharacter("a + #", 4);
  }

  lemma DollarNoPair()
    ensures forall i :: 0 <= i < 9 ==> PairAt("var$ + 10", i).None?
    ensures '"' !in "var$ + 10"
  {
    var s := "var$ + 10";
    NoPairAt(s, 0, 3, 3);
    NoPairAt(s, 1, 3, 3);
    NoPairAt(s, 2, 3, 3);
    NoPairAt(s, 7, 9, 9);
    NoPairAt(s, 8, 9, 9);
    assert !IsWordChar(s[3]) && !IsWordChar(s[4]) && !IsWordChar(s[5]) && !IsWordChar(s[6]);
  }

  lemma DollarFirstForbidden()
    ensures var s := "var$ + 10"; !Permitted(s[3]) && s[3] == '$' && forall i :: 0 <= i < 3 ==> Permitted(s[i])
  {
    var s := "var$ + 10";
    assert Permitted(s[0]) && Permitted(s[1]) && Permitted(s[2]);
  }

  /** `var$ + 10`: the `$` is reported at position 4. */
  lemma DollarRejected()
    ensures Validate("var$ + 10") == Fail(ReportError(CharacterMessage('$'), 3))
  {
    DollarNoPair();
    DollarFirstForbidden();
    OnlyForbiddenCharacter("var$ + 10", 3);
  }

  const QuotedThenSpaced: string := "\"\" x y"

  lemma SanitizedQuotedThenSpaced()
    ensures Sanitize(QuotedThenSpaced) == Marker + " x y"
    ensures Origins(QuotedThenSpaced)[10] == 4
  {
    var s := QuotedThenSpaced;
    NextQuoteExact(s, 1, 1);
    SanitizeQuoteStep(s, 1);
    var rest := s[2..];
    assert rest == " x y";
    assert '"' !in rest;
    SanitizeQuoteFree(rest);
    OriginsQuoteFree(rest);
  }

  lemma QuotedThenSpacedPair()
    ensures FirstRefused(Marker + " x y", 0) == Some(WordPair(9, 10, 11, 12))
  {
    var t := Marker + " x y";
    assert t[..8] == Marker;
    NoPairInMarker(t);
    assert PairAt(t, 8).None?;
    NoPairBetween(t, 0, 9);
    PairOfQuotedThenSpaced();
  }

  lemma PairOfQuotedThenSpaced()
    ensures var t := Marker + " x y"; PairAt(t, 9) == Some(WordPair(9, 10, 11, 12)) && Refused(t, WordPair(9, 10, 11, 12))
    ensures var t := Marker + " x y"; Left(t, WordPair(9, 10, 11, 12)) == "x" && Right(t, WordPair(9, 10, 11, 12)) == "y"
  {
    var t := Marker + " x y";
    assert RunEnd(t, 9, IsWordChar) == 10;
    assert SkipWhiteSpace(t, 10) == 11;
    assert RunEnd(t, 11, IsWordChar) == 12;
    assert PairAt(t, 9) == Some(WordPair(9, 10, 11, 12));
    assert t[9..10] == "x" && t[11..12] == "y";
    assert !IsReserved("x") by { assert Lower("x") == "x"; }
    assert !IsReserved("y") by { assert Lower("y") == "y"; }
  }

  /** After a quoted string the code reports the blank of `x y` at its index
      in the sanitized text, past the end of the six-character input; the
      blank stands at index 4. */
  lemma SpacingOfQuotedThenSpaced(asWritten: bool)
    ensures CheckSpacing(QuotedThenSpaced, asWritten) == Fail(ReportError(SpacingMessage("x", "y"), if asWritten then 10 else 4))
  {
    SanitizedQuotedThenSpaced();
    QuotedThenSpacedPair();
    PairOfQuotedThenSpaced();
  }

  lemma SpacingPositionShifted()
    ensures ValidateAsWritten(QuotedThenSpaced) == Fail(ReportError(SpacingMessage("x", "y"), 10))
    ensures Validate(QuotedThenSpaced) == Fail(ReportError(SpacingMessage("x", "y"), 4))
    ensures |QuotedThenSpaced| == 6 && QuotedThenSpaced[4] == ' '
  {
    SpacingOfQuotedThenSpaced(true);
    SpacingOfQuotedThenSpaced(false);
  }

  const QuotedThenHash: string := "\"\" #"

  lemma SanitizedQuotedThenHash()
    ensures Sanitize(QuotedThenHash) == Marker + " #"
    ensures Origins(QuotedThenHash)[9] == 3
  {
    var s := QuotedThenHash;
    NextQuoteExact(s, 1, 1);
    SanitizeQuoteStep(s, 1);
    var rest := s[2..];
    assert rest == " #";
    assert '"' !in rest;
    SanitizeQuoteFree(rest);
    OriginsQuoteFree(rest);
  }

  lemma QuotedThenHashNoPair()
    ensures FirstRefused(Marker + " #", 0).None?
  {
    var t := Marker + " #";
    assert t[..8] == Marker;
    NoPairInMarker(t);
    assert PairAt(t, 8).None? && PairAt(t, 9).None?;
    NoPairBetween(t, 0, 10);
  }

  lemma QuotedThenHashForbidden()
    ensures FirstForbidden(Marker + " #") == Some(9)
  {
    var t := Marker + " #";
    assert forall i :: 0 <= i < 9 ==> Permitted(t[i]);
    assert !Permitted(t[9]);
  }

  lemma QuotedThenHashScans()
    ensures FirstRefused(Marker + " #", 0).None?
    ensures FirstForbidden(Marker + " #") == Some(9)
  {
    QuotedThenHashNoPair();
    QuotedThenHashForbidden();
  }


  /** The same shift in the character check: after `""` the `#` at index 3 is
      reported at index 9, past the end of the four-character input. */
  lemma CharacterPositionShifted()
    ensures ValidateAsWritten(QuotedThenHash) == Fail(ReportError(CharacterMessage('#'), 9))
    ensures Validate(QuotedThenHash) == Fail(ReportError(CharacterMessage('#'), 3))
    ensures |QuotedThenHash| == 4 && QuotedThenHash[3] == '#'
  {
    SanitizedQuotedThenHash();
    QuotedThenHashScans();
  }
}
