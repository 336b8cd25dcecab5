/// The variable substitutor: writes the caller's scalar and vector values into
/// the expression text in four steps, quoted names, vector-function arguments,
/// a vector-length check for `max`, `min`, `log` and `if`, and finally plain
/// names, scalars before vectors.
module VariableSubstitutor {
  import opened Wrappers
  import opened Text
  import opened Scanning
  import opened NumberText

  /** A `Dictionary<string, double>` in enumeration order. */
  type ScalarTable = seq<(string, real)>

  /** A `Dictionary<string, double[]>` in enumeration order. */
  type VectorTable = seq<(string, seq<real>)>

  /** `TryGetValue` with the dictionary's default, ordinal key comparison. */
  function Find<T>(d: seq<(string, T)>, key: string): (r: Option<T>)
    ensures r.Some? ==> (key, r.value) in d
    ensures r.None? ==> forall i :: 0 <= i < |d| ==> d[i].0 != key
    decreases |d|
  {
    if |d| == 0 then None
    else if d[0].0 == key then Some(d[0].1)
    else
      var r := Find(d[1..], key);
      assert forall i :: 1 <= i < |d| ==> d[i] == d[1..][i - 1];
      r
  }

  /** The invariant-culture texts of the elements of `v`. */
  function Formatted(num: Conversions, v: seq<real>): (r: seq<string>)
    ensures |r| == |v| && forall i :: 0 <= i < |v| ==> r[i] == num.formatInvariant(v[i])
  {
    seq(|v|, i requires 0 <= i < |v| => num.formatInvariant(v[i]))
  }

  /** The elements of `v` joined by `, `, without brackets. */
  function ElementsText(num: Conversions, v: seq<real>): string {
    Join(", ", Formatted(num, v))
  }

  /** The text a vector value is written as: `[v1, v2, ...]`. */
  function VectorText(num: Conversions, v: seq<real>): (r: string)
    ensures |r| >= 2 && r[0] == '[' && r[|r| - 1] == ']'
  {
    "[" + ElementsText(num, v) + "]"
  }

  // ------------------------------------------------ step 1: "name"

  /** The `"([^"]+)"` match at `p`, given by its closing quote. */
  function QuotedNameAt(s: string, p: nat): (r: Option<nat>)
    requires p < |s|
    ensures r.Some? ==> p + 1 < r.value < |s| && s[p] == '"' && s[r.value] == '"'
    ensures r.Some? ==> forall k :: p < k < r.value ==> s[k] != '"'
    ensures r.None? && s[p] == '"' ==> p + 1 == |s| || s[p + 1] == '"' || NextQuote(s, p + 1).None?
  {
    if s[p] == '"' && p + 1 < |s| then
      match NextQuote(s, p + 1)
      case Some(q) => if q > p + 1 then Some(q) else None
      case None => None
    else None
  }

  /** `ReplaceQuotedVariables` from `p` on: a quoted name bound in `scalars`
      becomes the text of its value; an unbound one stays as it is. */
  function ReplaceQuotedFrom(num: Conversions, s: string, scalars: ScalarTable, p: nat): string
    requires p <= |s|
    decreases |s| - p
  {
    if p == |s| then ""
    else match QuotedNameAt(s, p)
      case Some(q) =>
        var replacement := match Find(scalars, s[p + 1..q])
          case Some(v) => num.formatInvariant(v)
          case None => s[p..q + 1];
        replacement + ReplaceQuotedFrom(num, s, scalars, q + 1)
      case None => [s[p]] + ReplaceQuotedFrom(num, s, scalars, p + 1)
  }

  function ReplaceQuotedVariables(num: Conversions, s: string, scalars: ScalarTable): string {
    ReplaceQuotedFrom(num, s, scalars, 0)
  }

  /** When no quoted name is bound, the step leaves the text as it is. */
  lemma {:induction false} QuotedUnboundKept(num: Conversions, s: string, scalars: ScalarTable, p: nat)
    requires p <= |s|
    requires forall i :: p <= i < |s| && QuotedNameAt(s, i).Some? ==> Find(scalars, s[i + 1..QuotedNameAt(s, i).value]).None?
    ensures ReplaceQuotedFrom(num, s, scalars, p) == s[p..]
    decreases |s| - p
  {
    if p < |s| {
      if QuotedNameAt(s, p).Some? {
        var q := QuotedNameAt(s, p).value + 1;
        QuotedUnboundKept(num, s, scalars, q);
        QuotedKeptStep(num, s, scalars, p);
        JoinSlices(s, ReplaceQuotedFrom(num, s, scalars, p), ReplaceQuotedFrom(num, s, scalars, q), p, q);
      } else {
        QuotedUnboundKept(num, s, scalars, p + 1);
        QuotedCopyStep(num, s, scalars, p);
        JoinSlices(s, ReplaceQuotedFrom(num, s, scalars, p), ReplaceQuotedFrom(num, s, scalars, p + 1), p, p + 1);
      }
    }
  }

  /** A quoted name bound to no scalar is copied with its quotes. */
  lemma QuotedKeptStep(num: Conversions, s: string, scalars: ScalarTable, p: nat)
    requires p < |s| && QuotedNameAt(s, p).Some?
    requires Find(scalars, s[p + 1..QuotedNameAt(s, p).value]).None?
    ensures var q := QuotedNameAt(s, p).value;
      ReplaceQuotedFrom(num, s, scalars, p) == s[p..q + 1] + ReplaceQuotedFrom(num, s, scalars, q + 1)
  {
  }

  lemma QuotedCopyStep(num: Conversions, s: string, scalars: ScalarTable, p: nat)
    requires p < |s| && QuotedNameAt(s, p).None?
    ensures ReplaceQuotedFrom(num, s, scalars, p) == s[p..p + 1] + ReplaceQuotedFrom(num, s, scalars, p + 1)
  {
    assert s[p..p + 1] == [s[p]];
  }

  // ---------------------------------------- step 2: op[name] vectors

  /** The functions whose bracketed vector argument is expanded. */
  const ExpandedFunctions: seq<string> := ["sum", "mean", "fact", "log"]

  /** `[a-zA-Z_]`. */
  predicate IsVariableHead(c: char) { IsAsciiLetter(c) || c == '_' }

  /** A match of `\b(Sum|Mean|Fact|Log)\s*\[\s*([a-zA-Z_]\w*)\s*\]`: where the
      function name ends, the `[`, the variable name's span and the `]`. */
  datatype VectorCall = VectorCall(opEnd: nat, open: nat, nameStart: nat, nameEnd: nat, close: nat)

  function VectorCallAt(s: string, p: nat): (r: Option<VectorCall>)
    requires p < |s|
    ensures r.Some? ==> p < r.value.opEnd <= r.value.open < r.value.nameStart < r.value.nameEnd <= r.value.close < |s|
    ensures r.Some? ==> s[r.value.open] == '[' && s[r.value.close] == ']'
    ensures r.Some? ==> Lower(s[p..r.value.opEnd]) in ExpandedFunctions
  {
    if !WordBoundary(s, p) then None
    else match NameAt(s, p, ExpandedFunctions)
      case None => None
      case Some(n) =>
        var a := SkipWhiteSpace(s, p + n);
        if a < |s| && s[a] == '[' then
          var b := SkipWhiteSpace(s, a + 1);
          if b < |s| && IsVariableHead(s[b]) then
            var c := RunEnd(s, b + 1, IsWordChar);
            var d := SkipWhiteSpace(s, c);
            if d < |s| && s[d] == ']' then Some(VectorCall(p + n, a, b, c, d)) else None
          else None
        else None
  }

  /** `ProcessVectorOperations` from `p` on: `op[name]` with `name` bound to a
      vector becomes `op[v1, v2, ...]`, keeping the spelling of `op`. */
  function ExpandFrom(num: Conversions, s: string, vectors: VectorTable, p: nat): string
    requires p <= |s|
    decreases |s| - p
  {
    if p == |s| then ""
    else match VectorCallAt(s, p)
      case Some(m) =>
        var replacement := match Find(vectors, s[m.nameStart..m.nameEnd])
          case Some(v) => s[p..m.opEnd] + "[" + ElementsText(num, v) + "]"
          case None => s[p..m.close + 1];
        replacement + ExpandFrom(num, s, vectors, m.close + 1)
      case None => [s[p]] + ExpandFrom(num, s, vectors, p + 1)
  }

  function ProcessVectorOperations(num: Conversions, s: string, vectors: VectorTable): string {
    ExpandFrom(num, s, vectors, 0)
  }

  // ------------------------------------ step 3: vector-length check

  /** The functions whose vector arguments must have one length. */
  const CheckedFunctions: seq<string> := ["max", "min", "log", "if"]

  /** The first `c` at or after `j`. */
  function NextIndexOf(s: string, j: nat, c: char): (r: Option<nat>)
    requires j <= |s|
    ensures r.Some? ==> j <= r.value < |s| && s[r.value] == c
    ensures r.Some? ==> forall k :: j <= k < r.value ==> s[k] != c
    ensures r.None? ==> forall k :: j <= k < |s| ==> s[k] != c
    decreases |s| - j
  {
    if j == |s| then None
    else if s[j] == c then Some(j)
    else NextIndexOf(s, j + 1, c)
  }

  /** A match of `\b(Max|Min|Log|If)\s*\(\s*([^)]+?)\s*\)`: where the name ends,
      the `(` and the first `)` after it, with at least one character between. */
  datatype CheckedCall = CheckedCall(nameEnd: nat, open: nat, close: nat)

  function CheckedCallAt(s: string, p: nat): (r: Option<CheckedCall>)
    requires p < |s|
    ensures r.Some? ==> p < r.value.nameEnd <= r.value.open && r.value.open + 1 < r.value.close < |s|
  {
    if !WordBoundary(s, p) then None
    else match NameAt(s, p, CheckedFunctions)
      case None => None
      case Some(n) =>
        var a := SkipWhiteSpace(s, p + n);
        if a < |s| && s[a] == '(' then
          match NextIndexOf(s, a + 1, ')')
          case Some(c) => if a + 1 < c then Some(CheckedCall(p + n, a, c)) else None
          case None => None
        else None
  }

  /** The comma-separated pieces of `args`, trimmed, that name a vector. */
  function VectorArguments(pieces: seq<string>, vectors: VectorTable): (r: seq<string>)
    ensures forall k :: 0 <= k < |r| ==> Find(vectors, r[k]).Some?
    decreases |pieces|
  {
    if |pieces| == 0 then []
    else
      var rest := VectorArguments(pieces[..|pieces| - 1], vectors);
      var last := Trim(pieces[|pieces| - 1]);
      if Find(vectors, last).Some? then rest + [last] else rest
  }

  function LengthOf(vectors: VectorTable, name: string): nat
    requires Find(vectors, name).Some?
  {
    |Find(vectors, name).value|
  }

  function LengthMessage(func: string, first: string, firstLength: nat, other: string, otherLength: nat): string {
    "Функция " + func + " требует векторы одинаковой длины: '" + first + "' имеет " + NatToString(firstLength)
      + ", а '" + other + "' — " + NatToString(otherLength) + "."
  }

  /** The first vector argument, from the second on, whose length differs from
      the first one's. */
  function FirstMismatch(names: seq<string>, vectors: VectorTable, k: nat): (r: Option<nat>)
    requires 1 <= k <= |names|
    requires forall i :: 0 <= i < |names| ==> Find(vectors, names[i]).Some?
    ensures r.Some? ==> k <= r.value < |names| && LengthOf(vectors, names[r.value]) != LengthOf(vectors, names[0])
    ensures r.Some? ==> forall i :: k <= i < r.value ==> LengthOf(vectors, names[i]) == LengthOf(vectors, names[0])
    ensures r.None? ==> forall i :: k <= i < |names| ==> LengthOf(vectors, names[i]) == LengthOf(vectors, names[0])
    decreases |names| - k
  {
    if k == |names| then None
    else if LengthOf(vectors, names[k]) != LengthOf(vectors, names[0]) then Some(k)
    else FirstMismatch(names, vectors, k + 1)
  }

  /** The `ArgumentException` message for one call, if its vector arguments
      differ in length. */
  function CallLengthError(func: string, args: string, vectors: VectorTable): (r: Option<string>)
    ensures r.None? ==> var names := VectorArguments(Split(args, ','), vectors);
      forall i :: 0 <= i < |names| ==> LengthOf(vectors, names[i]) == LengthOf(vectors, names[0])
  {
    var names := VectorArguments(Split(args, ','), vectors);
    if |names| < 2 then None
    else match FirstMismatch(names, vectors, 1)
      case None => None
      case Some(k) =>
        Some(LengthMessage(func, names[0], LengthOf(vectors, names[0]), names[k], LengthOf(vectors, names[k])))
  }

  /** `ValidateVectorArgumentsInFunctions` from `p` on: the message of the first
      call whose vector arguments differ in length. */
  function CheckFrom(s: string, vectors: VectorTable, p: nat): Option<string>
    requires p <= |s|
    decreases |s| - p
  {
    if p == |s| then None
    else match CheckedCallAt(s, p)
      case Some(m) =>
        var e := CallLengthError(s[p..m.nameEnd], s[m.open + 1..m.close], vectors);
        if e.Some? then e else CheckFrom(s, vectors, m.close + 1)
      case None => CheckFrom(s, vectors, p + 1)
  }

  function ValidateVectorArguments(s: string, vectors: VectorTable): Option<string> {
    CheckFrom(s, vectors, 0)
  }

  // ------------------------------------------- step 4: plain names

  /** `key` stands at `i`, ignoring case, with no word character on either side. */
  predicate KeyAt(t: string, i: nat, key: string) {
    i + |key| <= |t| && EqualsIgnoreCase(t[i..i + |key|], key)
    && (i == 0 || !IsWordChar(t[i - 1]))
    && (i + |key| == |t| || !IsWordChar(t[i + |key|]))
  }

  /** `Regex.Replace` of `(?<!\w)key(?!\w)` from `i` on. After an empty match
      the next character is copied before the search goes on. */
  function ReplaceWordFrom(t: string, key: string, value: string, i: nat): string
    requires i <= |t|
    decreases |t| - i
  {
    if KeyAt(t, i, key) then
      if |key| == 0 then value + (if i == |t| then "" else [t[i]] + ReplaceWordFrom(t, key, value, i + 1))
      else value + ReplaceWordFrom(t, key, value, i + |key|)
    else if i == |t| then ""
    else [t[i]] + ReplaceWordFrom(t, key, value, i + 1)
  }

  function ReplaceWord(t: string, key: string, value: string): string {
    ReplaceWordFrom(t, key, value, 0)
  }

  /** Where the key never stands as a whole word, nothing is replaced. */
  lemma {:induction false} ReplaceWordAbsent(t: string, key: string, value: string, i: nat)
    requires i <= |t|
    requires forall j :: i <= j <= |t| ==> !KeyAt(t, j, key)
    ensures ReplaceWordFrom(t, key, value, i) == t[i..]
    decreases |t| - i
  {
    if i < |t| {
      ReplaceWordCopyStep(t, key, value, i);
      ReplaceWordAbsent(t, key, value, i + 1);
      assert t[i..] == [t[i]] + t[i + 1..];
    }
  }

  /** Text before the first occurrence is copied. */
  lemma {:induction false} ReplaceWordCopies(t: string, key: string, value: string, i: nat, k: nat)
    requires i <= k <= |t|
    requires forall j :: i <= j < k ==> !KeyAt(t, j, key)
    ensures ReplaceWordFrom(t, key, value, i) == t[i..k] + ReplaceWordFrom(t, key, value, k)
    decreases k - i
  {
    if i < k {
      ReplaceWordCopyStep(t, key, value, i);
      ReplaceWordCopies(t, key, value, i + 1, k);
      var rest := ReplaceWordFrom(t, key, value, k);
      calc {
        ReplaceWordFrom(t, key, value, i);
        [t[i]] + (t[i + 1..k] + rest);
        ([t[i]] + t[i + 1..k]) + rest;
        { assert t[i..k] == [t[i]] + t[i + 1..k]; }
        t[i..k] + rest;
      }
    }
  }

  lemma ReplaceWordCopyStep(t: string, key: string, value: string, i: nat)
    requires i < |t| && !KeyAt(t, i, key)
    ensures ReplaceWordFrom(t, key, value, i) == [t[i]] + ReplaceWordFrom(t, key, value, i + 1)
  {
  }

  /** A whole-word occurrence is replaced and the text after it is treated on
      its own. */
  lemma ReplaceWordAt(t: string, key: string, value: string, i: nat)
    requires KeyAt(t, i, key) && |key| > 0
    ensures ReplaceWordFrom(t, key, value, i) == value + ReplaceWordFrom(t, key, value, i + |key|)
  {
  }

  /** The scalars written in, in dictionary order. */
  function ScalarsApplied(num: Conversions, t: string, scalars: ScalarTable): string
    decreases |scalars|
  {
    if |scalars| == 0 then t
    else
      var last := scalars[|scalars| - 1];
      ReplaceWord(ScalarsApplied(num, t, scalars[..|scalars| - 1]), last.0, num.formatInvariant(last.1))
  }

  /** The vectors written in, in dictionary order. */
  function VectorsApplied(num: Conversions, t: string, vectors: VectorTable): string
    decreases |vectors|
  {
    if |vectors| == 0 then t
    else
      var last := vectors[|vectors| - 1];
      ReplaceWord(VectorsApplied(num, t, vectors[..|vectors| - 1]), last.0, VectorText(num, last.1))
  }

  /** `ReplaceRegularVariables`: every scalar, then every vector, replaced as
      a whole word in the text the previous replacement left. */
  method ReplaceRegularVariables(num: Conversions, input: string, scalars: ScalarTable, vectors: VectorTable)
    returns (r: string)
    ensures r == VectorsApplied(num, ScalarsApplied(num, input, scalars), vectors)
  {
    r := input;
    var i := 0;
    while i < |scalars|
      invariant i <= |scalars|
      invariant r == ScalarsApplied(num, input, scalars[..i])
    {
      assert scalars[..i + 1][..i] == scalars[..i];
      r := ReplaceWord(r, scalars[i].0, num.formatInvariant(scalars[i].1));
      i := i + 1;
    }
    assert scalars[..i] == scalars;
    ghost var scalarText := r;
    var j := 0;
    while j < |vectors|
      invariant j <= |vectors|
      invariant r == VectorsApplied(num, scalarText, vectors[..j])
    {
      assert vectors[..j + 1][..j] == vectors[..j];
      r := ReplaceWord(r, vectors[j].0, VectorText(num, vectors[j].1));
      j := j + 1;
    }
    assert vectors[..j] == vectors;
  }

  // ----------------------------------------------------- Substitute

  /** What `Substitute` gives: the text after the four steps, or the message
      of the `ArgumentException` the length check throws. Blank text is
      returned as it is. */
  function Substituted(num: Conversions, input: string, scalars: ScalarTable, vectors: VectorTable): Result<string, string> {
    if AllWhiteSpace(input) then Ok(input)
    else
      var quoted := ReplaceQuotedVariables(num, input, scalars);
      var expanded := ProcessVectorOperations(num, quoted, vectors);
      match ValidateVectorArguments(expanded, vectors)
      case Some(message) => Err(message)
      case None => Ok(VectorsApplied(num, ScalarsApplied(num, expanded, scalars), vectors))
  }

  method Substitute(num: Conversions, input: string, scalars: ScalarTable, vectors: VectorTable)
    returns (r: Result<string, string>)
    ensures r == Substituted(num, input, scalars, vectors)
  {
    if AllWhiteSpace(input) {
      return Ok(input);
    }
    var text := ReplaceQuotedVariables(num, input, scalars);
    text := ProcessVectorOperations(num, text, vectors);
    var error := ValidateVectorArguments(text, vectors);
    if error.Some? {
      return Err(error.value);
    }
    text := ReplaceRegularVariables(num, text, scalars, vectors);
    return Ok(text);
  }

  // ------------------------------------------------------ properties

  /** When no bracketed name is bound to a vector, the expansion step leaves
      the text as it is. */
  lemma {:induction false} ExpandUnboundKept(num: Conversions, s: string, vectors: VectorTable, p: nat)
    requires p <= |s|
    requires forall i :: p <= i < |s| && VectorCallAt(s, i).Some? ==>
      Find(vectors, s[VectorCallAt(s, i).value.nameStart..VectorCallAt(s, i).value.nameEnd]).None?
    ensures ExpandFrom(num, s, vectors, p) == s[p..]
    decreases |s| - p
  {
    if p < |s| {
      if VectorCallAt(s, p).Some? {
        var q := VectorCallAt(s, p).value.close + 1;
        ExpandUnboundKept(num, s, vectors, q);
        ExpandKeptStep(num, s, vectors, p);
        JoinSlices(s, ExpandFrom(num, s, vectors, p), ExpandFrom(num, s, vectors, q), p, q);
      } else {
        ExpandUnboundKept(num, s, vectors, p + 1);
        ExpandCopyStep(num, s, vectors, p);
        JoinSlices(s, ExpandFrom(num, s, vectors, p), ExpandFrom(num, s, vectors, p + 1), p, p + 1);
      }
    }
  }

  /** A call whose name is bound to no vector is copied as it is. */
  lemma ExpandKeptStep(num: Conversions, s: string, vectors: VectorTable, p: nat)
    requires p < |s| && VectorCallAt(s, p).Some?
    requires var m := VectorCallAt(s, p).value; Find(vectors, s[m.nameStart..m.nameEnd]).None?
    ensures var m := VectorCallAt(s, p).value;
      ExpandFrom(num, s, vectors, p) == s[p..m.close + 1] + ExpandFrom(num, s, vectors, m.close + 1)
  {
  }

  lemma ExpandCopyStep(num: Conversions, s: string, vectors: VectorTable, p: nat)
    requires p < |s| && VectorCallAt(s, p).None?
    ensures ExpandFrom(num, s, vectors, p) == s[p..p + 1] + ExpandFrom(num, s, vectors, p + 1)
  {
    assert s[p..p + 1] == [s[p]];
  }

  /** A text that is `s[p..q]` followed by `s[q..]` is `s[p..]`. */
  lemma JoinSlices(s: string, whole: string, rest: string, p: nat, q: nat)
    requires p <= q <= |s| && whole == s[p..q] + rest && rest == s[q..]
    ensures whole == s[p..]
  {
    assert s[p..] == s[p..q] + s[q..];
  }

  /** Every vector in the table has length `n`. */
  predicate OneLength(vectors: VectorTable, n: nat) {
    forall i :: 0 <= i < |vectors| ==> |vectors[i].1| == n
  }

  lemma FoundHasLength(vectors: VectorTable, name: string, n: nat)
    requires OneLength(vectors, n) && Find(vectors, name).Some?
    ensures LengthOf(vectors, name) == n
  {
    var k :| 0 <= k < |vectors| && vectors[k] == (name, Find(vectors, name).value);
  }

  /** A call is never rejected when all vectors have one length. */
  lemma CallAcceptedWithOneLength(func: string, args: string, vectors: VectorTable, n: nat)
    requires OneLength(vectors, n)
    ensures CallLengthError(func, args, vectors).None?
  {
    var names := VectorArguments(Split(args, ','), vectors);
    if |names| >= 2 {
      match FirstMismatch(names, vectors, 1)
      case None =>
      case Some(k) =>
        FoundHasLength(vectors, names[0], n);
        FoundHasLength(vectors, names[k], n);
        assert false;
    }
  }

  /** Where the length check resumes after position `p`. */
  function ResumeAt(s: string, p: nat): (r: nat)
    requires p < |s|
    ensures p < r <= |s|
  {
    if CheckedCallAt(s, p).Some? then CheckedCallAt(s, p).value.close + 1 else p + 1
  }

  /** The length check passes whenever all vectors have one length: it only
      rejects what differs. */
  lemma {:induction false} CheckPassesWithOneLength(s: string, vectors: VectorTable, n: nat, p: nat)
    requires OneLength(vectors, n) && p <= |s|
    ensures CheckFrom(s, vectors, p).None?
    decreases |s| - p
  {
    if p < |s| {
      CheckStepWithOneLength(s, vectors, n, p);
      CheckPassesWithOneLength(s, vectors, n, ResumeAt(s, p));
    }
  }

  lemma CheckStepWithOneLength(s: string, vectors: VectorTable, n: nat, p: nat)
    requires OneLength(vectors, n) && p < |s|
    ensures CheckFrom(s, vectors, p) == CheckFrom(s, vectors, ResumeAt(s, p))
  {
    if CheckedCallAt(s, p).Some? {
      var m := CheckedCallAt(s, p).value;
      CallAcceptedWithOneLength(s[p..m.nameEnd], s[m.open + 1..m.close], vectors, n);
      CheckPassedStep(s, vectors, p);
    } else {
      CheckSkipStep(s, vectors, p);
    }
  }

  /** A call the length check accepts passes the search on past it. */
  lemma CheckPassedStep(s: string, vectors: VectorTable, p: nat)
    requires p < |s| && CheckedCallAt(s, p).Some?
    requires var m := CheckedCallAt(s, p).value;
      CallLengthError(s[p..m.nameEnd], s[m.open + 1..m.close], vectors).None?
    ensures CheckFrom(s, vectors, p) == CheckFrom(s, vectors, CheckedCallAt(s, p).value.close + 1)
  {
  }

  lemma CheckSkipStep(s: string, vectors: VectorTable, p: nat)
    requires p < |s| && CheckedCallAt(s, p).None?
    ensures CheckFrom(s, vectors, p) == CheckFrom(s, vectors, p + 1)
  {
  }

  // -------------------------------------------------------- examples

  /** Splitting a text that starts with an ordinary character puts that
      character at the head of the first piece. */
  lemma SplitPlain(s: string, sep: char)
    requires |s| > 0 && s[0] != sep
    ensures Split(s, sep) == [[s[0]] + Split(s[1..], sep)[0]] + Split(s[1..], sep)[1..]
  {
  }

  /** `max(a, b)` with vectors of lengths 1 and 2: the check reports both
      names and both lengths. */
  lemma MismatchCallExample()
    ensures CallLengthError("max", "a, b", [("a", [1.0]), ("b", [1.0, 2.0])])
      == Some(LengthMessage("max", "a", 1, "b", 2))
  {
    var vectors: VectorTable := [("a", [1.0]), ("b", [1.0, 2.0])];
    SplitOfTwoArguments();
    ArgumentsOfTwoVectors();
    assert LengthOf(vectors, "a") == 1 && LengthOf(vectors, "b") == 2;
    assert FirstMismatch(["a", "b"], vectors, 1) == Some(1);
  }

  lemma SplitOfTwoArguments()
    ensures Split("a, b", ',') == ["a", " b"]
  {
    assert "b"[1..] == "" && " b"[1..] == "b" && ", b"[1..] == " b" && "a, b"[1..] == ", b";
    assert Split("", ',') == [""];
    SplitPlain("b", ',');
    assert ['b'] + "" == "b" && [""][1..] == [];
    assert Split("b", ',') == ["b"];
    SplitPlain(" b", ',');
    assert [' '] + "b" == " b" && ["b"][1..] == [];
    assert Split(" b", ',') == [" b"];
    assert Split(", b", ',') == ["", " b"];
    SplitPlain("a, b", ',');
    assert ['a'] + "" == "a" && ["", " b"][1..] == [" b"];
  }

  lemma ArgumentsOfTwoVectors()
    ensures VectorArguments(["a", " b"], [("a", [1.0]), ("b", [1.0, 2.0])]) == ["a", "b"]
  {
    var vectors: VectorTable := [("a", [1.0]), ("b", [1.0, 2.0])];
    assert Trim(" b") == "b";
    assert Trim("a") == "a";
    assert VectorArguments(["a"], vectors) == ["a"];
  }

  lemma MismatchMatchExample()
    ensures CheckedCallAt("max(a, b)", 0) == Some(CheckedCall(3, 3, 8))
  {
    var s := "max(a, b)";
    assert Lower(s[0..3]) == "max";
    assert NameAt(s, 0, CheckedFunctions) == Some(3);
    assert SkipWhiteSpace(s, 3) == 3;
    assert NextIndexOf(s, 4, ')') == Some(8);
  }

  /** A text without a bracket or quote passes the first two steps unchanged. */
  lemma PlainTextKept(num: Conversions, s: string, scalars: ScalarTable, vectors: VectorTable)
    requires forall i :: 0 <= i < |s| ==> s[i] != '[' && s[i] != '"'
    ensures ProcessVectorOperations(num, ReplaceQuotedVariables(num, s, scalars), vectors) == s
  {
    QuotedUnboundKept(num, s, scalars, 0);
    ExpandUnboundKept(num, s, vectors, 0);
  }

  lemma MismatchCheckExample()
    ensures ValidateVectorArguments("max(a, b)", [("a", [1.0]), ("b", [1.0, 2.0])])
      == Some(LengthMessage("max", "a", 1, "b", 2))
  {
    var s := "max(a, b)";
    MismatchMatchExample();
    MismatchCallExample();
    assert s[0..3] == "max" && s[4..8] == "a, b";
  }

  /** `max(a, b)` with vectors of different lengths is rejected before any
      name is replaced. */
  lemma MismatchExample(num: Conversions)
    ensures Substituted(num, "max(a, b)", [], [("a", [1.0]), ("b", [1.0, 2.0])])
      == Err(LengthMessage("max", "a", 1, "b", 2))
  {
    var s := "max(a, b)";
    assert !AllWhiteSpace(s) by { assert !IsWhiteSpace(s[0]); }
    PlainTextKept(num, s, [], [("a", [1.0]), ("b", [1.0, 2.0])]);
    MismatchCheckExample();
  }

  /** The key is matched ignoring case and only as a whole word: in `A + ab`
      the `A` is replaced and the `a` of `ab` is not. */
  lemma WholeWordExample(value: string)
    ensures ReplaceWord("A + ab", "a", value) == value + " + ab"
  {
    var t := "A + ab";
    assert Lower(t[0..1]) == "a";
    ReplaceWordAt(t, "a", value, 0);
    assert !IsWordChar(' ') && IsWordChar('b');
    assert !KeyAt(t, 1, "a") && !KeyAt(t, 2, "a") && !KeyAt(t, 3, "a") by {
      assert Lower(t[1..2])[0] == ' ' && Lower(t[2..3])[0] == '+' && Lower(t[3..4])[0] == ' ';
    }
    assert !KeyAt(t, 5, "a") by { assert Lower(t[5..6])[0] == 'b'; }
    ReplaceWordAbsent(t, "a", value, 1);
    assert t[1..] == " + ab";
  }

  /** `sum[a]` with `a` bound to a two-element vector becomes the call on
      the vector's elements. */
  lemma ExpandExample(num: Conversions)
    ensures ProcessVectorOperations(num, "sum[a]", [("a", [1.0, 2.0])])
      == "sum[" + num.formatInvariant(1.0) + ", " + num.formatInvariant(2.0) + "]"
  {
    var s := "sum[a]";
    assert Lower(s[0..3]) == "sum";
    assert NameAt(s, 0, ExpandedFunctions) == Some(3);
    assert SkipWhiteSpace(s, 3) == 3 && SkipWhiteSpace(s, 4) == 4;
    assert RunEnd(s, 5, IsWordChar) == 5 && SkipWhiteSpace(s, 5) == 5;
    assert VectorCallAt(s, 0) == Some(VectorCall(3, 3, 4, 5, 5));
    assert s[4..5] == "a" && s[0..3] == "sum";
    var parts := [num.formatInvariant(1.0), num.formatInvariant(2.0)];
    assert Formatted(num, [1.0, 2.0]) == parts;
    assert Join(", ", parts) == parts[0] + ", " + Join(", ", parts[1..]);
    assert ElementsText(num, [1.0, 2.0]) == num.formatInvariant(1.0) + ", " + num.formatInvariant(2.0);
    assert ExpandFrom(num, s, [("a", [1.0, 2.0])], 6) == "";
  }

  /** A key does not start at a character that differs from its first one
      in every case. */
  lemma KeyAbsentAt(t: string, j: nat, key: string)
    requires j < |t| && |key| > 0 && ToLower(t[j]) != ToLower(key[0])
    ensures !KeyAt(t, j, key)
  {
    if j + |key| <= |t| {
      assert Lower(t[j..j + |key|])[0] == ToLower(t[j]);
      assert Lower(key)[0] == ToLower(key[0]);
    }
  }

  lemma FirstScalarExample()
    ensures ReplaceWord("a + b * c", "a", "2") == "2 + b * c"
  {
    var t := "a + b * c";
    assert Lower(t[0..1]) == "a";
    ReplaceWordAt(t, "a", "2", 0);
    forall j | 1 <= j < |t| ensures !KeyAt(t, j, "a") {
      KeyAbsentAt(t, j, "a");
    }
    ReplaceWordAbsent(t, "a", "2", 1);
    assert t[1..] == " + b * c";
  }

  lemma SecondScalarKeys()
    ensures var t := "2 + b * c"; KeyAt(t, 4, "b") && forall j :: 0 <= j <= |t| && j != 4 ==> !KeyAt(t, j, "b")
  {
    var t := "2 + b * c";
    forall j | 0 <= j < |t| && j != 4 ensures !KeyAt(t, j, "b") {
      KeyAbsentAt(t, j, "b");
    }
    assert Lower(t[4..5]) == "b";
  }

  lemma SecondScalarExample()
    ensures ReplaceWord("2 + b * c", "b", "3") == "2 + 3 * c"
  {
    var t := "2 + b * c";
    SecondScalarKeys();
    ReplaceWordAt(t, "b", "3", 4);
    ReplaceWordAbsent(t, "b", "3", 5);
    assert t[5..] == " * c";
    ReplaceWordCopies(t, "b", "3", 0, 4);
    assert t[0..4] == "2 + ";
  }

  lemma ThirdScalarExample()
    ensures ReplaceWord("2 + 3 * c", "c", "4") == "2 + 3 * 4"
  {
    var t := "2 + 3 * c";
    forall j | 0 <= j < 8 ensures !KeyAt(t, j, "c") {
      KeyAbsentAt(t, j, "c");
    }
    assert Lower(t[8..9]) == "c";
    ReplaceWordAt(t, "c", "4", 8);
    ReplaceWordCopies(t, "c", "4", 0, 8);
    assert t[0..8] == "2 + 3 * ";
  }

  lemma ScalarsAppliedExample(num: Conversions)
    requires num.formatInvariant(2.0) == "2" && num.formatInvariant(3.0) == "3" && num.formatInvariant(4.0) == "4"
    ensures ScalarsApplied(num, "a + b * c", [("a", 2.0), ("b", 3.0), ("c", 4.0)]) == "2 + 3 * 4"
  {
    var s := "a + b * c";
    var scalars: ScalarTable := [("a", 2.0), ("b", 3.0), ("c", 4.0)];
    FirstScalarExample();
    SecondScalarExample();
    ThirdScalarExample();
    assert scalars[..2] == [("a", 2.0), ("b", 3.0)] && scalars[..2][..1] == [("a", 2.0)];
    assert ScalarsApplied(num, s, scalars[..2][..1]) == "2 + b * c";
    assert ScalarsApplied(num, s, scalars[..2]) == "2 + 3 * c";
  }

  /** `a + b * c` with the scalars 2, 3 and 4: each name is replaced by the
      text of its value. */
  lemma ScalarsExample(num: Conversions)
    requires num.formatInvariant(2.0) == "2" && num.formatInvariant(3.0) == "3" && num.formatInvariant(4.0) == "4"
    ensures Substituted(num, "a + b * c", [("a", 2.0), ("b", 3.0), ("c", 4.0)], []) == Ok("2 + 3 * 4")
  {
    var s := "a + b * c";
    var scalars: ScalarTable := [("a", 2.0), ("b", 3.0), ("c", 4.0)];
    assert !AllWhiteSpace(s) by { assert !IsWhiteSpace(s[0]); }
    PlainTextKept(num, s, scalars, []);
    CheckPassesWithOneLength(s, [], 0, 0);
    ScalarsAppliedExample(num);
  }
}
