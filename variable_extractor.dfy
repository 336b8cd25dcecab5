/// The variable extractor: the text between double quotes, taken verbatim, and
/// the unquoted identifiers that are neither reserved words nor numbers. Names
/// are kept once under case-insensitive comparison, the first spelling winning;
/// the positions variant also records where each name first stands.
module VariableExtractor {
  import opened Wrappers
  import opened Text
  import opened Scanning
  import opened NumberText

  /** The words never taken as variables, in lower case: the reserved functions
      together with `pi`, `e`, `fact` and `log`. */
  const ReservedWords: set<string> :=
    {"cos", "sin", "sqrt", "pi", "e", "min", "max", "if", "pow", "abs", "mean", "sum", "fact", "log"}

  /** Membership in the reserved words under `StringComparer.OrdinalIgnoreCase`. */
  predicate IsReservedWord(name: string) { Lower(name) in ReservedWords }

  /** `IsValidVariable`: not a reserved word and not something `double.TryParse` reads. */
  predicate IsValidVariable(num: Conversions, name: string) {
    !IsReservedWord(name) && !IsNumber(num, name)
  }

  // ----------------------------------------------------- quoted spans

  /** Every `"` in `s[lo..hi]` is escaped: a backslash inside the range stands
      just before it. This is what `(?:\\"|[^"])*` accepts. */
  predicate EscapedIn(s: string, lo: nat, hi: nat)
    requires lo <= hi <= |s|
  {
    forall i :: lo <= i < hi && s[i] == '"' ==> lo < i && s[i - 1] == '\\'
  }

  /** The quoted pattern matches `s[p..q + 1]`: quotes at both ends and an
      escaped body between them. */
  predicate QuotedPattern(s: string, p: nat, q: nat) {
    p < q < |s| && s[p] == '"' && s[q] == '"' && EscapedIn(s, p + 1, q)
  }

  /** The closing quote the regex settles on, the body resuming at `j`. The body
      walks over `\"` pairs and other characters; an unescaped `"` closes it.
      If the text ends first, the regex backtracks to the last escaped quote
      seen (`best`) and closes there. */
  function QuoteClose(s: string, j: nat, best: Option<nat>): (r: Option<nat>)
    requires j <= |s|
    requires best.Some? ==> best.value < |s| && s[best.value] == '"'
    ensures r.Some? ==> r.value < |s| && s[r.value] == '"' && (r == best || j <= r.value)
    decreases |s| - j
  {
    if j == |s| then best
    else if s[j] == '\\' && j + 1 < |s| && s[j + 1] == '"' then QuoteClose(s, j + 2, Some(j + 1))
    else if s[j] == '"' then Some(j)
    else QuoteClose(s, j + 1, best)
  }

  /** The end (exclusive) of the quoted match starting at `p`, if any. */
  function QuotedAt(s: string, p: nat): (r: Option<nat>)
    requires p < |s|
    ensures r.Some? ==> p + 2 <= r.value <= |s| && s[p] == '"' && s[r.value - 1] == '"'
  {
    if s[p] != '"' then None
    else match QuoteClose(s, p + 1, None)
      case Some(q) => Some(q + 1)
      case None => None
  }

  /** The walk finds the longest match of the pattern, and none exists when
      no quote follows. */
  lemma {:induction false} QuoteCloseMeaning(s: string, p: nat, j: nat, best: Option<nat>)
    requires p < j <= |s| && s[p] == '"'
    requires EscapedIn(s, p + 1, j)
    requires best.Some? ==> p < best.value < j && s[best.value] == '"'
    requires forall k :: (if best.Some? then best.value + 1 else p + 1) <= k < j ==> s[k] != '"'
    requires j < |s| && s[j] == '"' && p + 1 < j ==> s[j - 1] != '\\'
    ensures var r := QuoteClose(s, j, best);
      (r.Some? ==> QuotedPattern(s, p, r.value) && forall q :: r.value < q ==> !QuotedPattern(s, p, q))
      && (r.None? ==> forall q :: p < q < |s| ==> s[q] != '"')
    decreases |s| - j
  {
    if j == |s| {
      if best.Some? {
        assert EscapedIn(s, p + 1, best.value);
      }
    } else if s[j] == '\\' && j + 1 < |s| && s[j + 1] == '"' {
      QuoteCloseMeaning(s, p, j + 2, Some(j + 1));
    } else if s[j] == '"' {
      forall q | j < q ensures !QuotedPattern(s, p, q) {
        assert q < |s| ==> p + 1 <= j < q && s[j] == '"';
      }
    } else {
      QuoteCloseMeaning(s, p, j + 1, best);
    }
  }

  /** `QuotedAt` is the longest match of the quoted pattern at `p`. */
  lemma QuotedAtMeaning(s: string, p: nat)
    requires p < |s|
    ensures QuotedAt(s, p).Some? ==> (QuotedPattern(s, p, QuotedAt(s, p).value - 1)
      && forall q :: QuotedAt(s, p).value - 1 < q ==> !QuotedPattern(s, p, q))
    ensures QuotedAt(s, p).None? ==> forall q :: !QuotedPattern(s, p, q)
  {
    if s[p] == '"' {
      QuoteCloseMeaning(s, p, p + 1, None);
    }
  }

  /** A half-open range `[start, end)` of a text. */
  datatype Span = Span(start: nat, end: nat)

  predicate SpansIn(t: string, spans: seq<Span>) {
    forall k :: 0 <= k < |spans| ==> spans[k].start <= spans[k].end <= |t|
  }

  /** Each span is at least two characters long and lies in `s`. */
  predicate QuotedShaped(s: string, spans: seq<Span>) {
    forall k :: 0 <= k < |spans| ==> spans[k].start + 2 <= spans[k].end <= |s|
  }

  /** `Regex.Matches` of the quoted pattern from `p` on: leftmost first, each
      search resuming after the previous match. */
  function QuotedSpans(s: string, p: nat): (r: seq<Span>)
    requires p <= |s|
    ensures QuotedShaped(s, r)
    decreases |s| - p
  {
    if p == |s| then []
    else match QuotedAt(s, p)
      case Some(e) => [Span(p, e)] + QuotedSpans(s, e)
      case None => QuotedSpans(s, p + 1)
  }

  /** `n` spaces. */
  function Spaces(n: nat): (r: string)
    ensures |r| == n && forall i :: 0 <= i < n ==> r[i] == ' '
  {
    seq(n, _ => ' ')
  }

  /** `Regex.Replace` of the quoted pattern from `p` on: each match deleted, or
      with `blank`, overwritten by as many spaces. */
  function StripQuoted(s: string, p: nat, blank: bool): (r: string)
    requires p <= |s|
    ensures blank ==> |r| == |s| - p && forall i :: 0 <= i < |r| ==> r[i] == s[p + i] || r[i] == ' '
    decreases |s| - p
  {
    if p == |s| then ""
    else match QuotedAt(s, p)
      case Some(e) => (if blank then Spaces(e - p) else "") + StripQuoted(s, e, blank)
      case None => [s[p]] + StripQuoted(s, p + 1, blank)
  }

  // --------------------------------------------------- unquoted names

  /** `[a-zA-Zа-яА-ЯёЁ_]`: a character that may start the letter part of a name. */
  predicate IsNameStartChar(c: char) {
    IsAsciiLetter(c) || IsRussianLetter(c) || c == 'ё' || c == 'Ё' || c == '_'
  }

  /** The end (exclusive) of the unquoted-name match at `p`. A match is a whole
      run of word characters starting at a word boundary, either a name-start
      character and word characters, or digits, a name-start character and
      word characters. */
  function IdentifierAt(t: string, p: nat): (r: Option<nat>)
    requires p < |t|
    ensures r.Some? ==> p < r.value <= |t| && forall m :: p <= m < r.value ==> IsWordChar(t[m])
    ensures r.Some? ==> p == 0 || !IsWordChar(t[p - 1])
    ensures r.Some? ==> r.value == |t| || !IsWordChar(t[r.value])
  {
    if IsWordChar(t[p]) && WordBoundary(t, p) then
      var e := RunEnd(t, p, IsWordChar);
      var d := RunEnd(t, p, IsDigit);
      if d < e && IsNameStartChar(t[d]) then Some(e) else None
    else None
  }

  /** Each span is a non-empty run of word characters of `t`. */
  predicate WordSpans(t: string, spans: seq<Span>)
    requires SpansIn(t, spans)
  {
    forall k, m :: 0 <= k < |spans| && spans[k].start <= m < spans[k].end ==> spans[k].start < spans[k].end && IsWordChar(t[m])
  }

  /** `Regex.Matches` of the unquoted-name pattern from `p` on. */
  function IdentifierSpans(t: string, p: nat): (r: seq<Span>)
    requires p <= |t|
    ensures SpansIn(t, r) && WordSpans(t, r)
    decreases |t| - p
  {
    if p == |t| then []
    else match IdentifierAt(t, p)
      case Some(e) => [Span(p, e)] + IdentifierSpans(t, e)
      case None => IdentifierSpans(t, p + 1)
  }

  // ------------------------------------------------------- candidates

  /** The capture group of each quoted match: the text between its quotes. */
  function Bodies(s: string, spans: seq<Span>): (r: seq<Span>)
    requires QuotedShaped(s, spans)
    ensures |r| == |spans| && SpansIn(s, r)
  {
    seq(|spans|, k requires 0 <= k < |spans| => Span(spans[k].start + 1, spans[k].end - 1))
  }

  /** The first `n` of `spans` whose text is not empty. */
  function NonEmptySpans(t: string, spans: seq<Span>, n: nat): (r: seq<Span>)
    requires SpansIn(t, spans) && n <= |spans|
    ensures forall k :: 0 <= k < |r| ==> r[k] in spans && r[k].start < r[k].end
    ensures SpansIn(t, r)
  {
    if n == 0 then []
    else
      var last := spans[n - 1];
      var rest := NonEmptySpans(t, spans, n - 1);
      if t[last.start..last.end] != "" then rest + [last] else rest
  }

  /** The name matches among the first `n` of `spans` that pass `IsValidVariable`. */
  function ValidNameSpans(num: Conversions, t: string, spans: seq<Span>, n: nat): (r: seq<Span>)
    requires SpansIn(t, spans) && n <= |spans|
    ensures forall k :: 0 <= k < |r| ==> r[k] in spans
    ensures SpansIn(t, r)
  {
    if n == 0 then []
    else
      var last := spans[n - 1];
      var rest := ValidNameSpans(num, t, spans, n - 1);
      if IsValidVariable(num, t[last.start..last.end]) then rest + [last] else rest
  }

  // ------------------------------------------- case-insensitive tables

  /** A `HashSet` or `Dictionary` keyed by `StringComparer.OrdinalIgnoreCase`,
      as its entries in insertion order. */
  type Table<T> = seq<(string, T)>

  predicate HasKey<T>(d: Table<T>, key: string) {
    exists i :: 0 <= i < |d| && EqualsIgnoreCase(d[i].0, key)
  }

  /** No two entries have keys that are equal ignoring case. */
  predicate DistinctKeys<T>(d: Table<T>) {
    forall i, j :: 0 <= i < j < |d| ==> Lower(d[i].0) != Lower(d[j].0)
  }

  /** `HashSet.Add`, or `if (!ContainsKey(k)) d[k] = v`: a key already present
      (ignoring case) leaves the table as it is. */
  function TryAdd<T>(d: Table<T>, key: string, value: T): Table<T> {
    if HasKey(d, key) then d else d + [(key, value)]
  }

  /** The entries offered one after another, from the first. */
  function AddAll<T>(d: Table<T>, entries: Table<T>): Table<T>
    decreases |entries|
  {
    if |entries| == 0 then d
    else
      var last := entries[|entries| - 1];
      TryAdd(AddAll(d, entries[..|entries| - 1]), last.0, last.1)
  }

  /** The entries present before stay, in place. */
  lemma {:induction false} AddAllKeeps<T>(d: Table<T>, entries: Table<T>)
    ensures |d| <= |AddAll(d, entries)| && AddAll(d, entries)[..|d|] == d
    decreases |entries|
  {
    if |entries| > 0 {
      AddAllKeeps(d, entries[..|entries| - 1]);
    }
  }

  /** Keys stay distinct ignoring case. */
  lemma {:induction false} AddAllDistinct<T>(d: Table<T>, entries: Table<T>)
    requires DistinctKeys(d)
    ensures DistinctKeys(AddAll(d, entries))
    decreases |entries|
  {
    if |entries| > 0 {
      var before := AddAll(d, entries[..|entries| - 1]);
      var last := entries[|entries| - 1];
      AddAllDistinct(d, entries[..|entries| - 1]);
      if !HasKey(before, last.0) {
        var r := before + [last];
        forall i, j | 0 <= i < j < |r| ensures Lower(r[i].0) != Lower(r[j].0) {
          if j == |before| {
            assert !EqualsIgnoreCase(before[i].0, last.0);
          }
        }
      }
    }
  }

  /** Every key offered is found in the result, ignoring case. */
  lemma {:induction false} AddAllHasEvery<T>(d: Table<T>, entries: Table<T>)
    ensures forall k :: 0 <= k < |entries| ==> HasKey(AddAll(d, entries), entries[k].0)
    decreases |entries|
  {
    if |entries| > 0 {
      var init := entries[..|entries| - 1];
      var before := AddAll(d, init);
      var last := entries[|entries| - 1];
      var r := AddAll(d, entries);
      AddAllHasEvery(d, init);
      forall k | 0 <= k < |entries| ensures HasKey(r, entries[k].0) {
        if k < |init| {
          assert entries[k] == init[k];
          var i :| 0 <= i < |before| && EqualsIgnoreCase(before[i].0, entries[k].0);
          assert r[i] == before[i];
        } else if !HasKey(before, last.0) {
          assert r[|r| - 1] == last;
        }
      }
    }
  }

  /** Offer `j` is the first of its key, and the key was not in `d`. */
  predicate FirstOffer<T>(d: Table<T>, entries: Table<T>, j: nat)
    requires j < |entries|
  {
    !HasKey(d, entries[j].0) && forall j' :: 0 <= j' < j ==> !EqualsIgnoreCase(entries[j'].0, entries[j].0)
  }

  /** Each added entry is the first offer of its key: the first spelling wins,
      with the index or length given with it. */
  lemma {:induction false} AddAllFirstWins<T>(d: Table<T>, entries: Table<T>)
    ensures var r := AddAll(d, entries);
      forall i :: |d| <= i < |r| ==> exists j :: 0 <= j < |entries| && r[i] == entries[j] && FirstOffer(d, entries, j)
    decreases |entries|
  {
    if |entries| > 0 {
      var init := entries[..|entries| - 1];
      var before := AddAll(d, init);
      var r := AddAll(d, entries);
      AddAllFirstWins(d, init);
      AddAllKeeps(d, init);
      forall i | |d| <= i < |r| ensures exists j :: 0 <= j < |entries| && r[i] == entries[j] && FirstOffer(d, entries, j) {
        if i < |before| {
          var j :| 0 <= j < |init| && before[i] == init[j] && FirstOffer(d, init, j);
          EarlierOfferStaysFirst(d, entries, i, j);
        } else {
          LastOfferFirst(d, entries);
          assert i == |r| - 1;
          assert r[i] == entries[|entries| - 1] && FirstOffer(d, entries, |entries| - 1);
        }
      }
    }
  }

  /** An entry added before the last offer is still that offer's first. */
  lemma EarlierOfferStaysFirst<T>(d: Table<T>, entries: Table<T>, i: nat, j: nat)
    requires |entries| > 0 && j < |entries| - 1
    requires var init := entries[..|entries| - 1];
      i < |AddAll(d, init)| && AddAll(d, init)[i] == init[j] && FirstOffer(d, init, j)
    ensures i < |AddAll(d, entries)| && AddAll(d, entries)[i] == entries[j] && FirstOffer(d, entries, j)
  {
    var init := entries[..|entries| - 1];
    assert entries[j] == init[j];
    forall j' | 0 <= j' < j ensures entries[j'] == init[j'] { }
  }

  /** An entry added by the last offer is the first offer of its key. */
  lemma LastOfferFirst<T>(d: Table<T>, entries: Table<T>)
    requires |entries| > 0
    requires |AddAll(d, entries)| > |AddAll(d, entries[..|entries| - 1])|
    ensures var r := AddAll(d, entries);
      r[|r| - 1] == entries[|entries| - 1] && FirstOffer(d, entries, |entries| - 1)
  {
    var init := entries[..|entries| - 1];
    var before := AddAll(d, init);
    var last := entries[|entries| - 1];
    AddAllKeeps(d, init);
    assert !HasKey(before, last.0);
    AddAllHasEvery(d, init);
    forall j' | 0 <= j' < |init| ensures !EqualsIgnoreCase(entries[j'].0, last.0) {
      assert entries[j'] == init[j'];
      var m :| 0 <= m < |before| && EqualsIgnoreCase(before[m].0, init[j'].0);
      assert !EqualsIgnoreCase(before[m].0, last.0);
    }
  }

  /** Every entry of the result was already there or was offered. */
  lemma AddAllFrom<T>(d: Table<T>, entries: Table<T>)
    ensures forall i :: 0 <= i < |AddAll(d, entries)| ==> AddAll(d, entries)[i] in d || AddAll(d, entries)[i] in entries
  {
    AddAllKeeps(d, entries);
    AddAllFirstWins(d, entries);
    var r := AddAll(d, entries);
    forall i | 0 <= i < |r| ensures r[i] in d || r[i] in entries {
      if i < |d| {
        assert r[i] == d[i];
      }
    }
  }

  lemma AddAllLast<T>(d: Table<T>, entries: Table<T>, e: (string, T))
    ensures AddAll(d, entries + [e]) == TryAdd(AddAll(d, entries), e.0, e.1)
  {
    assert (entries + [e])[..|entries|] == entries;
  }

  // ----------------------------------------------------- the two modes

  /** Name spans of `t` as set entries. */
  function KeysOf(t: string, spans: seq<Span>): (r: Table<()>)
    requires SpansIn(t, spans)
    ensures |r| == |spans| && forall k :: 0 <= k < |r| ==> r[k].0 == t[spans[k].start..spans[k].end]
  {
    seq(|spans|, k requires 0 <= k < |spans| => (t[spans[k].start..spans[k].end], ()))
  }

  /** Name spans of `t` as dictionary entries: the name, its index and its
      length, as the pair of `int`s the dictionary stores. */
  function PositionsOf(t: string, spans: seq<Span>): (r: Table<(int, int)>)
    requires SpansIn(t, spans)
    ensures |r| == |spans| && forall k :: 0 <= k < |r| ==>
      r[k] == (t[spans[k].start..spans[k].end], (spans[k].start, spans[k].end - spans[k].start))
  {
    seq(|spans|, k requires 0 <= k < |spans| => (t[spans[k].start..spans[k].end], (spans[k].start, spans[k].end - spans[k].start)))
  }

  lemma KeysOfLast(t: string, spans: seq<Span>, m: Span)
    requires SpansIn(t, spans) && m.start <= m.end <= |t|
    ensures SpansIn(t, spans + [m])
    ensures KeysOf(t, spans + [m]) == KeysOf(t, spans) + [(t[m.start..m.end], ())]
  {
  }

  lemma PositionsOfLast(t: string, spans: seq<Span>, m: Span)
    requires SpansIn(t, spans) && m.start <= m.end <= |t|
    ensures SpansIn(t, spans + [m])
    ensures PositionsOf(t, spans + [m]) == PositionsOf(t, spans) + [(t[m.start..m.end], (m.start, m.end - m.start))]
  {
  }

  /** The quoted names of `s` in order of appearance. */
  function QuotedNames(s: string): Table<()> {
    var bodies := Bodies(s, QuotedSpans(s, 0));
    KeysOf(s, NonEmptySpans(s, bodies, |bodies|))
  }

  /** The unquoted names of `s`, read after the quoted spans are deleted. */
  function UnquotedNames(num: Conversions, s: string): Table<()> {
    var t := StripQuoted(s, 0, false);
    var spans := IdentifierSpans(t, 0);
    KeysOf(t, ValidNameSpans(num, t, spans, |spans|))
  }

  /** The quoted names with the index just after the opening quote and the
      length of the body. */
  function QuotedPositions(s: string): Table<(int, int)> {
    var bodies := Bodies(s, QuotedSpans(s, 0));
    PositionsOf(s, NonEmptySpans(s, bodies, |bodies|))
  }

  /** The unquoted names with their index and length in the text whose quoted
      spans are overwritten by spaces, which keeps every index. */
  function UnquotedPositions(num: Conversions, s: string): Table<(int, int)> {
    var t := StripQuoted(s, 0, true);
    var spans := IdentifierSpans(t, 0);
    PositionsOf(t, ValidNameSpans(num, t, spans, |spans|))
  }

  /** What `ExtractVariables` returns: quoted names first, then unquoted ones. */
  function Variables(num: Conversions, s: string): Table<()> {
    if |s| == 0 then [] else AddAll(AddAll([], QuotedNames(s)), UnquotedNames(num, s))
  }

  /** What `ExtractVariablesWithPositions` returns. */
  function VariablePositions(num: Conversions, s: string): Table<(int, int)> {
    if |s| == 0 then [] else AddAll(AddAll([], QuotedPositions(s)), UnquotedPositions(num, s))
  }

  function Names(d: Table<()>): (r: seq<string>)
    ensures |r| == |d| && forall i :: 0 <= i < |d| ==> r[i] == d[i].0
  {
    seq(|d|, i requires 0 <= i < |d| => d[i].0)
  }

  // ------------------------------------------------------- the methods

  /** `ExtractQuotedVariables`: each non-empty body of a quoted match is added. */
  method ExtractQuotedVariables(input: string, variables: Table<()>) returns (r: Table<()>)
    ensures r == AddAll(variables, QuotedNames(input))
  {
    var matches := Bodies(input, QuotedSpans(input, 0));
    r := variables;
    var i := 0;
    while i < |matches|
      invariant i <= |matches|
      invariant r == AddAll(variables, KeysOf(input, NonEmptySpans(input, matches, i)))
    {
      var m := matches[i];
      var content := input[m.start..m.end];
      if content != "" {
        KeysOfLast(input, NonEmptySpans(input, matches, i), m);
        AddAllLast(variables, KeysOf(input, NonEmptySpans(input, matches, i)), (content, ()));
        r := TryAdd(r, content, ());
      }
      i := i + 1;
    }
  }

  /** `ExtractUnquotedVariables`: the quoted spans are deleted, then each name
      match that is a valid variable is added. */
  method ExtractUnquotedVariables(num: Conversions, input: string, variables: Table<()>) returns (r: Table<()>)
    ensures r == AddAll(variables, UnquotedNames(num, input))
  {
    var filtered := StripQuoted(input, 0, false);
    var matches := IdentifierSpans(filtered, 0);
    r := variables;
    var i := 0;
    while i < |matches|
      invariant i <= |matches|
      invariant r == AddAll(variables, KeysOf(filtered, ValidNameSpans(num, filtered, matches, i)))
    {
      var m := matches[i];
      var name := filtered[m.start..m.end];
      if IsValidVariable(num, name) {
        KeysOfLast(filtered, ValidNameSpans(num, filtered, matches, i), m);
        AddAllLast(variables, KeysOf(filtered, ValidNameSpans(num, filtered, matches, i)), (name, ()));
        r := TryAdd(r, name, ());
      }
      i := i + 1;
    }
  }

  /** `ExtractQuotedVariablesWithPositions`: each non-empty body is added
      with its index and length, unless its name is already a key. */
  method ExtractQuotedVariablesWithPositions(input: string, result: Table<(int, int)>) returns (r: Table<(int, int)>)
    ensures r == AddAll(result, QuotedPositions(input))
  {
    var matches := Bodies(input, QuotedSpans(input, 0));
    r := result;
    var i := 0;
    while i < |matches|
      invariant i <= |matches|
      invariant r == AddAll(result, PositionsOf(input, NonEmptySpans(input, matches, i)))
    {
      var m := matches[i];
      var content := input[m.start..m.end];
      if content != "" {
        PositionsOfLast(input, NonEmptySpans(input, matches, i), m);
        AddAllLast(result, PositionsOf(input, NonEmptySpans(input, matches, i)), (content, (m.start, m.end - m.start)));
        r := TryAdd(r, content, (m.start, m.end - m.start));
      }
      i := i + 1;
    }
  }

  /** `ExtractUnquotedVariablesWithPositions`. */
  method ExtractUnquotedVariablesWithPositions(num: Conversions, input: string, result: Table<(int, int)>)
    returns (r: Table<(int, int)>)
    ensures r == AddAll(result, UnquotedPositions(num, input))
  {
    var filtered := StripQuoted(input, 0, true);
    var matches := IdentifierSpans(filtered, 0);
    r := result;
    var i := 0;
    while i < |matches|
      invariant i <= |matches|
      invariant r == AddAll(result, PositionsOf(filtered, ValidNameSpans(num, filtered, matches, i)))
    {
      var m := matches[i];
      var name := filtered[m.start..m.end];
      if IsValidVariable(num, name) {
        var entry: (string, (int, int)) := (name, (m.start, m.end - m.start));
        PositionsOfLast(filtered, ValidNameSpans(num, filtered, matches, i), m);
        AddAllLast(result, PositionsOf(filtered, ValidNameSpans(num, filtered, matches, i)), entry);
        if !HasKey(r, name) {
          r := r + [entry];
        }
      }
      i := i + 1;
    }
  }

  /** `ExtractVariables`. */
  method ExtractVariables(num: Conversions, input: string) returns (r: seq<string>)
    ensures r == Names(Variables(num, input))
  {
    if |input| == 0 {
      return [];
    }
    var variables := ExtractQuotedVariables(input, []);
    variables := ExtractUnquotedVariables(num, input, variables);
    r := Names(variables);
  }

  /** `ExtractVariablesWithPositions`. */
  method ExtractVariablesWithPositions(num: Conversions, input: string) returns (r: Table<(int, int)>)
    ensures r == VariablePositions(num, input)
  {
    if |input| == 0 {
      return [];
    }
    r := ExtractQuotedVariablesWithPositions(input, []);
    r := ExtractUnquotedVariablesWithPositions(num, input, r);
  }

  // --------------------------------------------------------- properties

  /** The names come out distinct ignoring case, quoted names first, and every
      quoted and every valid unquoted name is among them under some spelling. */
  lemma VariablesComplete(num: Conversions, s: string)
    requires |s| > 0
    ensures var v := Variables(num, s);
      var quoted := AddAll([], QuotedNames(s));
      && DistinctKeys(v)
      && |quoted| <= |v| && v[..|quoted|] == quoted
      && (forall k :: 0 <= k < |QuotedNames(s)| ==> HasKey(v, QuotedNames(s)[k].0))
      && (forall k :: 0 <= k < |UnquotedNames(num, s)| ==> HasKey(v, UnquotedNames(num, s)[k].0))
  {
    var q := QuotedNames(s);
    var quoted := AddAll([], q);
    var v := Variables(num, s);
    AddAllDistinct([], q);
    AddAllDistinct(quoted, UnquotedNames(num, s));
    AddAllKeeps(quoted, UnquotedNames(num, s));
    AddAllHasEvery([], q);
    AddAllHasEvery(quoted, UnquotedNames(num, s));
    forall k | 0 <= k < |q| ensures HasKey(v, q[k].0) {
      var i :| 0 <= i < |quoted| && EqualsIgnoreCase(quoted[i].0, q[k].0);
      assert v[i] == quoted[i];
    }
  }

  /** Each name is kept with its first spelling: an unquoted entry is the first
      unquoted offer of its name and no quoted name has it. */
  lemma UnquotedFirstSpellingWins(num: Conversions, s: string, i: nat)
    requires |s| > 0
    requires |AddAll([], QuotedNames(s))| <= i < |Variables(num, s)|
    ensures exists j :: (0 <= j < |UnquotedNames(num, s)| && Variables(num, s)[i] == UnquotedNames(num, s)[j]
      && FirstOffer(AddAll([], QuotedNames(s)), UnquotedNames(num, s), j))
  {
    assert Variables(num, s) == AddAll(AddAll([], QuotedNames(s)), UnquotedNames(num, s));
    AddAllFirstWins(AddAll([], QuotedNames(s)), UnquotedNames(num, s));
  }

  /** Blanking the quoted spans keeps every word character in place. */
  lemma BlankKeepsWords(s: string, a: nat, b: nat)
    requires a <= b <= |StripQuoted(s, 0, true)|
    requires forall m :: a <= m < b ==> IsWordChar(StripQuoted(s, 0, true)[m])
    ensures b <= |s| && StripQuoted(s, 0, true)[a..b] == s[a..b]
  {
    var t := StripQuoted(s, 0, true);
    forall m | a <= m < b ensures t[m] == s[m] {
      assert IsWordChar(t[m]);
    }
  }

  /** The entry's index and length pick its name out of `s`. */
  predicate Locates(s: string, e: (string, (int, int))) {
    0 <= e.1.0 && 0 <= e.1.1 && e.1.0 + e.1.1 <= |s| && s[e.1.0..e.1.0 + e.1.1] == e.0
  }

  /** A quoted entry is located in the input itself. */
  lemma QuotedPositionsLocate(s: string)
    ensures forall k :: 0 <= k < |QuotedPositions(s)| ==> Locates(s, QuotedPositions(s)[k])
  {
  }

  /** An unquoted entry is located in the blanked text, and blanking keeps
      the word characters, so it is located in the input too. */
  lemma UnquotedPositionsLocate(num: Conversions, s: string)
    ensures forall k :: 0 <= k < |UnquotedPositions(num, s)| ==> Locates(s, UnquotedPositions(num, s)[k])
  {
    var t := StripQuoted(s, 0, true);
    var identifiers := IdentifierSpans(t, 0);
    var spans := ValidNameSpans(num, t, identifiers, |identifiers|);
    var unquoted := UnquotedPositions(num, s);
    forall k | 0 <= k < |unquoted| ensures Locates(s, unquoted[k]) {
      var m := spans[k];
      assert m in identifiers;
      BlankKeepsWords(s, m.start, m.end);
    }
  }

  /** Every recorded position locates its name in the input: the name is the
      text at that index with that length. */
  lemma PositionsLocateNames(num: Conversions, s: string)
    ensures forall i :: 0 <= i < |VariablePositions(num, s)| ==> Locates(s, VariablePositions(num, s)[i])
  {
    if |s| > 0 {
      var quoted := QuotedPositions(s);
      var unquoted := UnquotedPositions(num, s);
      var first := AddAll([], quoted);
      var v := VariablePositions(num, s);
      QuotedPositionsLocate(s);
      UnquotedPositionsLocate(num, s);
      AddAllFrom([], quoted);
      AddAllFrom(first, unquoted);
      forall i | 0 <= i < |v| ensures Locates(s, v[i]) {
        if v[i] in first {
          var k :| 0 <= k < |first| && first[k] == v[i];
          assert first[k] in quoted;
        }
      }
    }
  }

  // ----------------------------------------------------------- examples

  /** Deleting a quoted span joins its neighbours: in `a"q"b` the set mode
      finds `q` and `ab`, while the positions mode finds `q`, `a` and `b`. */
  lemma QuotedSpanOfJoinExample()
    ensures QuotedSpans("a\"q\"b", 0) == [Span(1, 4)]
  {
    var s := "a\"q\"b";
    assert QuotedAt(s, 1) == Some(4);
    assert QuotedAt(s, 4).None?;
    assert QuotedSpans(s, 4) == QuotedSpans(s, 5);
  }

  lemma StrippedJoinExample()
    ensures StripQuoted("a\"q\"b", 0, false) == "ab"
    ensures StripQuoted("a\"q\"b", 0, true) == "a   b"
  {
    var s := "a\"q\"b";
    assert QuotedAt(s, 0).None? && QuotedAt(s, 1) == Some(4) && QuotedAt(s, 4).None?;
    assert Spaces(3) == "   ";
  }

  lemma IdentifiersOfJoinExample()
    ensures IdentifierSpans("ab", 0) == [Span(0, 2)]
    ensures IdentifierSpans("a   b", 0) == [Span(0, 1), Span(4, 5)]
  {
    var t := "a   b";
    assert IdentifierAt("ab", 0) == Some(2) by { RunEndExact("ab", 0, 2, IsWordChar); }
    assert IdentifierAt(t, 0) == Some(1) by { RunEndExact(t, 0, 1, IsWordChar); }
    assert IdentifierAt(t, 1).None? && IdentifierAt(t, 2).None? && IdentifierAt(t, 3).None?;
    assert IdentifierAt(t, 4) == Some(5) by { RunEndExact(t, 4, 5, IsWordChar); }
  }

  lemma QuotedOfJoinExample()
    ensures QuotedNames("a\"q\"b") == [("q", ())]
    ensures QuotedPositions("a\"q\"b") == [("q", (2, 1))]
  {
    QuotedSpanOfJoinExample();
    BodyOfJoinExample();
    OneQuotedBody("a\"q\"b", Span(1, 4), "q");
  }

  lemma BodyOfJoinExample()
    ensures "a\"q\"b"[2..3] == "q"
  {
  }

  /** A text with one quoted span whose body is not empty has that body as
      its only quoted name, found just after the opening quote. */
  lemma OneQuotedBody(s: string, span: Span, name: string)
    requires QuotedSpans(s, 0) == [span] && name != ""
    requires span.start + 1 <= span.end - 1 <= |s| && s[span.start + 1..span.end - 1] == name
    ensures QuotedNames(s) == [(name, ())]
    ensures QuotedPositions(s) == [(name, (span.start + 1, |name|))]
  {
    var body := Span(span.start + 1, span.end - 1);
    OneBody(s, span);
    assert NonEmptySpans(s, [body], 1) == [body];
    KeysOfOne(s, body, name);
    PositionsOfOne(s, body, name);
  }

  lemma OneBody(s: string, span: Span)
    requires span.start + 2 <= span.end <= |s|
    ensures Bodies(s, [span]) == [Span(span.start + 1, span.end - 1)]
  {
    assert Bodies(s, [span])[0] == Span(span.start + 1, span.end - 1);
  }

  /** One span gives one entry, keyed by its text, with its index and length. */
  lemma PositionsOfOne(t: string, span: Span, name: string)
    requires span.start <= span.end <= |t| && t[span.start..span.end] == name
    ensures PositionsOf(t, [span]) == [(name, (span.start, |name|))]
  {
    assert PositionsOf(t, [span])[0] == (name, (span.start, |name|));
  }

  lemma ValidOfJoinedExample(num: Conversions)
    requires !IsNumber(num, "ab")
    ensures ValidNameSpans(num, "ab", [Span(0, 2)], 1) == [Span(0, 2)]
  {
    assert !IsReservedWord("ab") by { assert Lower("ab") == "ab"; }
    assert "ab"[0..2] == "ab";
  }

  lemma KeysOfJoinedExample()
    ensures KeysOf("ab", [Span(0, 2)]) == [("ab", ())]
  {
    assert "ab"[0..2] == "ab";
  }

  lemma UnquotedOfJoinExample(num: Conversions)
    requires !IsNumber(num, "ab")
    ensures UnquotedNames(num, "a\"q\"b") == [("ab", ())]
  {
    StrippedJoinExample();
    IdentifiersOfJoinExample();
    ValidOfJoinedExample(num);
    KeysOfJoinedExample();
  }

  lemma ValidOfJoinExample(num: Conversions)
    requires !IsNumber(num, "a") && !IsNumber(num, "b")
    ensures ValidNameSpans(num, "a   b", [Span(0, 1), Span(4, 5)], 2) == [Span(0, 1), Span(4, 5)]
  {
    var t := "a   b";
    assert !IsReservedWord("a") by { assert Lower("a") == "a"; }
    assert !IsReservedWord("b") by { assert Lower("b") == "b"; }
    assert t[0..1] == "a" && t[4..5] == "b";
    var spans := [Span(0, 1), Span(4, 5)];
    assert ValidNameSpans(num, t, spans, 1) == [Span(0, 1)];
  }

  lemma BlankedPositionsOfJoinExample()
    ensures PositionsOf("a   b", [Span(0, 1), Span(4, 5)]) == [("a", (0, 1)), ("b", (4, 1))]
  {
    var t := "a   b";
    assert t[0..1] == "a" && t[4..5] == "b";
  }

  lemma UnquotedPositionsOfJoinExample(num: Conversions)
    requires !IsNumber(num, "a") && !IsNumber(num, "b")
    ensures UnquotedPositions(num, "a\"q\"b") == [("a", (0, 1)), ("b", (4, 1))]
  {
    StrippedJoinExample();
    IdentifiersOfJoinExample();
    ValidOfJoinExample(num);
    BlankedPositionsOfJoinExample();
  }

  lemma NamesOfJoinExample()
    ensures AddAll(AddAll([], [("q", ())]), [("ab", ())]) == [("q", ()), ("ab", ())]
  {
    assert Lower("q") == "q" && Lower("ab") == "ab";
    assert !HasKey([("q", ())], "ab");
    assert AddAll([], [("q", ())]) == [("q", ())];
  }

  lemma PositionsOfJoinExample()
    ensures AddAll(AddAll([], [("q", (2, 1))]), [("a", (0, 1)), ("b", (4, 1))])
      == [("q", (2, 1)), ("a", (0, 1)), ("b", (4, 1))]
  {
    var two: Table<(int, int)> := [("a", (0, 1)), ("b", (4, 1))];
    var q: Table<(int, int)> := [("q", (2, 1))];
    assert Lower("q") == "q" && Lower("a") == "a" && Lower("b") == "b";
    assert AddAll([], q) == q;
    assert two[..1] == [("a", (0, 1))];
    assert !HasKey(q, "a");
    assert AddAll(q, two[..1]) == q + [("a", (0, 1))];
    assert !HasKey(q + [("a", (0, 1))], "b");
  }

  lemma JoinExample(num: Conversions)
    requires !IsNumber(num, "ab") && !IsNumber(num, "a") && !IsNumber(num, "b")
    ensures Names(Variables(num, "a\"q\"b")) == ["q", "ab"]
    ensures VariablePositions(num, "a\"q\"b") == [("q", (2, 1)), ("a", (0, 1)), ("b", (4, 1))]
  {
    var s := "a\"q\"b";
    QuotedOfJoinExample();
    UnquotedOfJoinExample(num);
    UnquotedPositionsOfJoinExample(num);
    NamesOfJoinExample();
    PositionsOfJoinExample();
    assert Variables(num, s) == [("q", ()), ("ab", ())];
    var p: Table<(int, int)> := [("q", (2, 1))];
    var u: Table<(int, int)> := [("a", (0, 1)), ("b", (4, 1))];
    assert VariablePositions(num, s) == AddAll(AddAll([], p), u);
  }

  /** The body of a quoted name is taken verbatim, and a number is no name:
      `"dqff" + 10` gives `dqff` alone. */
  lemma QuotedOfDqffExample()
    ensures QuotedSpans("\"dqff\" + 10", 0) == [Span(0, 6)]
    ensures StripQuoted("\"dqff\" + 10", 0, false) == " + 10"
  {
    var s := "\"dqff\" + 10";
    assert QuotedAt(s, 0) == Some(6);
    assert forall k :: 6 <= k < |s| ==> QuotedAt(s, k).None?;
    assert QuotedSpans(s, 6) == [] by {
      assert QuotedSpans(s, 10) == [];
      assert QuotedSpans(s, 8) == [];
    }
    assert StripQuoted(s, 6, false) == " + 10" by {
      assert StripQuoted(s, 9, false) == "10";
    }
  }

  lemma NoIdentifierInDqffExample()
    ensures IdentifierSpans(" + 10", 0) == []
  {
    var t := " + 10";
    assert IdentifierAt(t, 3).None? by {
      RunEndExact(t, 3, 5, IsWordChar);
      RunEndExact(t, 3, 5, IsDigit);
    }
    assert IdentifierAt(t, 4).None?;
    assert IdentifierSpans(t, 3) == [];
  }

  lemma CandidatesOfDqffExample(num: Conversions)
    ensures QuotedNames("\"dqff\" + 10") == [("dqff", ())]
    ensures UnquotedNames(num, "\"dqff\" + 10") == []
  {
    QuotedNamesOfDqffExample();
    QuotedOfDqffExample();
    NoIdentifierInDqffExample();
  }

  lemma QuotedNamesOfDqffExample()
    ensures QuotedNames("\"dqff\" + 10") == [("dqff", ())]
  {
    QuotedOfDqffExample();
    BodiesOfDqffExample();
    KeysOfDqffExample();
  }

  lemma BodiesOfDqffExample()
    ensures Bodies("\"dqff\" + 10", [Span(0, 6)]) == [Span(1, 5)]
  {
  }

  lemma KeysOfDqffExample()
    ensures KeysOf("\"dqff\" + 10", NonEmptySpans("\"dqff\" + 10", [Span(1, 5)], 1)) == [("dqff", ())]
  {
    NonEmptyOfDqffExample();
    BodyOfDqffExample();
    KeysOfOne("\"dqff\" + 10", Span(1, 5), "dqff");
  }

  lemma BodyOfDqffExample()
    ensures "\"dqff\" + 10"[1..5] == "dqff"
  {
  }

  /** One span gives one entry, keyed by its text. */
  lemma KeysOfOne(t: string, span: Span, name: string)
    requires span.start <= span.end <= |t| && t[span.start..span.end] == name
    ensures KeysOf(t, [span]) == [(name, ())]
  {
  }

  lemma NonEmptyOfDqffExample()
    ensures NonEmptySpans("\"dqff\" + 10", [Span(1, 5)], 1) == [Span(1, 5)]
  {
    var s := "\"dqff\" + 10";
    assert s[1..5] != "";
  }

  lemma DqffExample(num: Conversions)
    ensures Names(Variables(num, "\"dqff\" + 10")) == ["dqff"]
  {
    CandidatesOfDqffExample(num);
    OneQuotedName(num, "\"dqff\" + 10", "dqff");
  }

  /** A text whose only candidate is one quoted name has that name alone. */
  lemma OneQuotedName(num: Conversions, s: string, name: string)
    requires |s| > 0 && QuotedNames(s) == [(name, ())] && UnquotedNames(num, s) == []
    ensures Names(Variables(num, s)) == [name]
  {
    assert AddAll([], [(name, ())]) == [(name, ())];
  }

}
