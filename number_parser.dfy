/// `NumberParser`: a decimal literal (`\d+([.,]\d+)?`, read with the comma
/// taken as the decimal point) and a bracketed list of such literals.
module NumberParser {
  import opened Wrappers
  import opened Text
  import opened Scanning
  import opened Values
  import opened Expressions

  /** `WithComma` and the `Replace(',', '.')` of `ScalarNumber`: every comma becomes a point. */
  function WithComma(t: string): string {
    seq(|t|, i requires 0 <= i < |t| => if t[i] == ',' then '.' else t[i])
  }

  function Pow10(n: nat): (r: nat)
    ensures r >= 1
  {
    if n == 0 then 1 else 10 * Pow10(n - 1)
  }

  /** The exact value of a literal's text after `WithComma`: the integer digits,
      plus the fraction digits over the matching power of ten when a point
      and digits follow. */
  function DecimalValue(t: string): real {
    var i := RunEnd(t, 0, IsDigit);
    assert AllDigits(t[..i]);
    var whole := DigitsValue(t[..i]) as real;
    if i + 1 < |t| && t[i] == '.' then
      var j := RunEnd(t, i + 1, IsDigit);
      assert AllDigits(t[i + 1..j]);
      whole + DigitsValue(t[i + 1..j]) as real / Pow10(j - i - 1) as real
    else whole
  }

  /** The number written `a.b` in positional notation. */
  function PointNotation(a: string, b: string): real
    requires AllDigits(a) && AllDigits(b)
  {
    DigitsValue(a) as real + DigitsValue(b) as real / Pow10(|b|) as real
  }

  /** The end of the match of `\d+([.,]\d+)?` at `p`: a digit run, extended by
      a point or comma and a second digit run when one follows. */
  function ScalarEnd(s: string, p: nat): (r: Option<nat>)
    requires p <= |s|
    ensures r.Some? <==> p < |s| && IsDigit(s[p])
    ensures r.Some? ==> p < r.value <= |s|
    ensures r.Some? ==> r.value < |s| ==> !IsDigit(s[r.value])
  {
    var k := RunEnd(s, p, IsDigit);
    if k == p then None
    else if k + 1 < |s| && (s[k] == '.' || s[k] == ',') && IsDigit(s[k + 1]) then Some(RunEnd(s, k + 1, IsDigit))
    else Some(k)
  }

  /** `ScalarNumber`: the literal at `p` as a `double` constant. */
  function ScalarNumber(s: string, p: nat): (r: Option<(Node, nat)>)
    requires p <= |s|
    ensures r.Some? <==> p < |s| && IsDigit(s[p])
    ensures r.Some? ==> p < r.value.1 <= |s| && r.value.0.Constant?
  {
    match ScalarEnd(s, p)
    case None => None
    case Some(k) => Some((Constant(DecimalValue(WithComma(s[p..k]))), k))
  }

  /** The `(',' ScalarNumber)*` tail of `ScalarNumber.DelimitedBy(Parse.Char(',').Token())`:
      a separator whose literal does not follow is left unread. */
  function ScalarListRest(s: string, q: nat, acc: seq<Node>): (r: (seq<Node>, nat))
    requires q <= |s|
    ensures q <= r.1 <= |s| && |r.0| >= |acc| && r.0[..|acc|] == acc
    ensures forall i :: 0 <= i < |r.0| ==> r.0[i] in acc || r.0[i].Constant?
    decreases |s| - q
  {
    match TokenChar(s, q, ',')
    case None => (acc, q)
    case Some(a) =>
      match ScalarNumber(s, a)
      case None => (acc, q)
      case Some((n, k)) =>
        var r := ScalarListRest(s, k, acc + [n]);
        assert r.0[..|acc|] == (acc + [n])[..|acc|];
        r
  }

  /** `VectorNumber`: `[`, one or more literals separated by commas, `]`. */
  function VectorNumber(s: string, p: nat): (r: Option<(Node, nat)>)
    requires p <= |s|
    ensures r.Some? ==> p < r.value.1 <= |s| && KindOf(r.value.0) == Some(VectorKind)
    ensures r.Some? ==> s[p] == '[' && p + 1 < |s| && IsDigit(s[p + 1])
  {
    if p < |s| && s[p] == '[' then
      match ScalarNumber(s, p + 1)
      case None => None
      case Some((first, k)) =>
        var (items, q) := ScalarListRest(s, k, [first]);
        if q < |s| && s[q] == ']' then
          assert forall i :: 0 <= i < |items| ==> KindOf(items[i]) == Some(ScalarKind);
          Some((NewArray(items), q + 1))
        else None
    else None
  }

  /** `Number`: a scalar literal, else a literal array. */
  function Number(s: string, p: nat): (r: Option<(Node, nat)>)
    requires p <= |s|
    ensures r.Some? ==> p < r.value.1 <= |s| && WellKinded(r.value.0)
    ensures r.Some? ==> p < |s| && (IsDigit(s[p]) || s[p] == '[')
    ensures p < |s| && IsDigit(s[p]) ==> r == ScalarNumber(s, p)
  {
    match ScalarNumber(s, p)
    case Some(x) => Some(x)
    case None => VectorNumber(s, p)
  }

  // ---------------- Properties ----------------

  /** The match of `\\d+[.,]\\d+` covers both digit runs and the separator. */
  lemma SeparatedDigitsEnd(a: string, sep: char, b: string)
    requires |a| > 0 && |b| > 0 && AllDigits(a) && AllDigits(b) && (sep == '.' || sep == ',')
    ensures ScalarEnd(a + [sep] + b, 0) == Some(|a| + 1 + |b|)
  {
    var t := a + [sep] + b;
    assert forall m :: 0 <= m < |a| ==> t[m] == a[m];
    assert forall m :: |a| + 1 <= m < |t| ==> t[m] == b[m - |a| - 1];
    RunEndExact(t, 0, |a|, IsDigit);
    RunEndExact(t, |a| + 1, |t|, IsDigit);
  }

  /** The value of `a.b` is `a` plus `b` over ten to the number of digits of `b`. */
  lemma PointValue(a: string, b: string)
    requires |a| > 0 && |b| > 0 && AllDigits(a) && AllDigits(b)
    ensures DecimalValue(a + "." + b) == PointNotation(a, b)
  {
    var u := a + "." + b;
    assert u[..|a|] == a;
    assert u[|a| + 1..] == b;
    assert u[|a|] == '.';
    assert forall m :: |a| + 1 <= m < |u| ==> IsDigit(u[m]) by {
      forall m | |a| + 1 <= m < |u| ensures IsDigit(u[m]) {
        assert u[m] == u[|a| + 1..][m - |a| - 1];
      }
    }
    RunEndExact(u, 0, |a|, IsDigit);
    RunEndExact(u, |a| + 1, |u|, IsDigit);
    assert u[|a| + 1..|u|] == b;
  }

  /** Replacing commas turns `a,b` and `a.b` alike into `a.b`. */
  lemma CommaBecomesPoint(a: string, b: string)
    requires AllDigits(a) && AllDigits(b)
    ensures WithComma(a + "," + b) == a + "." + b
    ensures WithComma(a + "." + b) == a + "." + b
  {
    var c, u := a + "," + b, a + "." + b;
    forall m | 0 <= m < |u| ensures WithComma(c)[m] == u[m] && WithComma(u)[m] == u[m] {
      if m < |a| {
        assert c[m] == a[m] == u[m];
      } else if m > |a| {
        assert c[m] == b[m - |a| - 1] == u[m];
      }
    }
  }

  /** A literal with a comma and one with a point have the same value: the
      integer digits plus the fraction digits over the matching power of ten. */
  lemma CommaEqualsPoint(a: string, b: string)
    requires |a| > 0 && |b| > 0 && AllDigits(a) && AllDigits(b)
    ensures ScalarNumber(a + "," + b, 0) == ScalarNumber(a + "." + b, 0)
    ensures ScalarNumber(a + "." + b, 0) == Some((Constant(PointNotation(a, b)), |a| + 1 + |b|))
  {
    SeparatedDigitsEnd(a, ',', b);
    SeparatedDigitsEnd(a, '.', b);
    WholeLiteral(a + "," + b);
    WholeLiteral(a + "." + b);
    CommaBecomesPoint(a, b);
    PointValue(a, b);
  }

  /** A literal that spans its whole text has the value of that text. */
  lemma WholeLiteral(t: string)
    requires ScalarEnd(t, 0) == Some(|t|)
    ensures ScalarNumber(t, 0) == Some((Constant(DecimalValue(WithComma(t))), |t|))
  {
    assert t[0..|t|] == t;
  }

  /** A run of digits that no separator and digit follow reads as its value. */
  lemma WholeNumberAt(s: string, p: nat, k: nat)
    requires p < k <= |s| && AllDigits(s[p..k])
    requires k < |s| ==> !IsDigit(s[k]) && !(k + 1 < |s| && (s[k] == '.' || s[k] == ',') && IsDigit(s[k + 1]))
    ensures ScalarNumber(s, p) == Some((Constant(DigitsValue(s[p..k]) as real), k))
  {
    assert forall m :: p <= m < k ==> IsDigit(s[m]) by {
      forall m | p <= m < k ensures IsDigit(s[m]) { assert s[m] == s[p..k][m - p]; }
    }
    RunEndExact(s, p, k, IsDigit);
    var t := s[p..k];
    assert WithComma(t) == t;
    RunEndExact(t, 0, |t|, IsDigit);
    assert t[..|t|] == t;
  }

  /** A whole number's decimal text reads back as that number. */
  lemma ReadsNaturalBack(n: nat)
    ensures ScalarNumber(NatToString(n), 0) == Some((Constant(n as real), |NatToString(n)|))
  {
    var t := NatToString(n);
    NatToStringRoundTrip(n);
    assert t[0..|t|] == t;
    WholeNumberAt(t, 0, |t|);
  }

  /** Inside a literal array, `1,2` with no space is the single element 1.2. */
  lemma GreedyCommaInArray()
    ensures VectorNumber("[1,2]", 0) == Some((NewArray([Constant(1.2)]), 5))
  {
    var s := "[1,2]";
    RunEndExact(s, 1, 2, IsDigit);
    RunEndExact(s, 3, 4, IsDigit);
    assert ScalarEnd(s, 1) == Some(4);
    var t := WithComma(s[1..4]);
    assert t == "1.2";
    RunEndExact(t, 0, 1, IsDigit);
    RunEndExact(t, 2, 3, IsDigit);
    assert t[..1] == "1" && t[2..3] == "2";
    assert DigitsValue("1") == 1 && DigitsValue("2") == 2;
    assert DecimalValue(t) == 1.2;
    assert SkipWhiteSpace(s, 4) == 4;
    assert TokenChar(s, 4, ',') == None;
  }

  /** An empty pair of brackets is not a literal array. */
  lemma EmptyArrayRejected(s: string, p: nat)
    requires p + 1 < |s| && s[p] == '[' && s[p + 1] == ']'
    ensures VectorNumber(s, p) == None
  {
  }
}
