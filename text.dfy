/// Character classes and the few .NET string operations the calculator relies
/// on: trimming, splitting and joining, case-insensitive comparison and the
/// decimal text of integers.
///
/// Character classes cover ASCII and the Cyrillic block U+0400..U+04FF, the two
/// scripts the calculator's patterns name; other Unicode letters are treated as
/// non-letters.
module Text {

  /** `\d` and `char.IsDigit`, restricted to the ASCII digits; .NET also
      accepts the decimal digits of other scripts. */
  predicate IsDigit(c: char) { '0' <= c <= '9' }

  /** `[a-zA-Z]`. */
  predicate IsAsciiLetter(c: char) { 'a' <= c <= 'z' || 'A' <= c <= 'Z' }

  /** `[а-яА-Я]`: the basic Russian letters (`ё` and `Ё` lie outside these ranges). */
  predicate IsRussianLetter(c: char) { 'а' <= c <= 'я' || 'А' <= c <= 'Я' }

  /** The letters of the Cyrillic block. */
  predicate IsCyrillicLetter(c: char) {
    '\U{0400}' <= c <= '\U{0481}' || '\U{048A}' <= c <= '\U{04FF}'
  }

  /** `char.IsLetter` and `\p{L}` restricted to ASCII and the Cyrillic block;
      .NET accepts the letters of every script. */
  predicate IsLetter(c: char) { IsAsciiLetter(c) || IsCyrillicLetter(c) }

  /** Regex `\w` restricted as `IsLetter` and `IsDigit` are: letters, digits,
      `_` and the Cyrillic combining marks. */
  predicate IsWordChar(c: char) {
    IsLetter(c) || IsDigit(c) || c == '_' || '\U{0483}' <= c <= '\U{0487}'
  }

  /** `char.IsWhiteSpace` and regex `\s`: the separators of categories Zs, Zl, Zp and the controls TAB..CR, NEL. */
  predicate IsWhiteSpace(c: char) {
    c == ' ' || '\t' <= c <= '\r' || c == '\U{0085}' || c == '\U{00A0}' || c == '\U{1680}'
    || '\U{2000}' <= c <= '\U{200A}' || c == '\U{2028}' || c == '\U{2029}' || c == '\U{202F}'
    || c == '\U{205F}' || c == '\U{3000}'
  }

  predicate AllWhiteSpace(s: string) { forall i :: 0 <= i < |s| ==> IsWhiteSpace(s[i]) }

  predicate AllDigits(s: string) { forall i :: 0 <= i < |s| ==> IsDigit(s[i]) }

  /** Lower-case mapping of ASCII capitals and the Cyrillic capitals U+0400..U+042F. */
  function ToLower(c: char): char {
    if 'A' <= c <= 'Z' then (c as int + 32) as char
    else if '\U{0410}' <= c <= '\U{042F}' then (c as int + 32) as char
    else if '\U{0400}' <= c <= '\U{040F}' then (c as int + 80) as char
    else c
  }

  function Lower(s: string): (r: string)
    ensures |r| == |s|
  {
    seq(|s|, i requires 0 <= i < |s| => ToLower(s[i]))
  }

  lemma LowerIdempotent(s: string)
    ensures Lower(Lower(s)) == Lower(s)
  {
    assert forall i :: 0 <= i < |s| ==> Lower(Lower(s))[i] == Lower(s)[i];
  }

  /** `StringComparer.OrdinalIgnoreCase` equality and `RegexOptions.IgnoreCase` literal matching. */
  predicate EqualsIgnoreCase(a: string, b: string) { Lower(a) == Lower(b) }

  predicate StartsWith(s: string, prefix: string) { |prefix| <= |s| && s[..|prefix|] == prefix }

  predicate EndsWith(s: string, suffix: string) { |suffix| <= |s| && s[|s| - |suffix|..] == suffix }

  /** `s` contains `sub` starting at index `i`. */
  predicate OccursAt(s: string, sub: string, i: int) {
    0 <= i && i + |sub| <= |s| && s[i..i + |sub|] == sub
  }

  predicate Contains(s: string, sub: string) {
    exists i :: 0 <= i <= |s| - |sub| && OccursAt(s, sub, i)
  }

  /** `string.TrimStart()`. */
  function TrimStart(s: string): (r: string)
    decreases |s|
  {
    if |s| > 0 && IsWhiteSpace(s[0]) then TrimStart(s[1..]) else s
  }

  /** `string.TrimEnd()`. */
  function TrimEnd(s: string): (r: string)
    decreases |s|
  {
    if |s| > 0 && IsWhiteSpace(s[|s| - 1]) then TrimEnd(s[..|s| - 1]) else s
  }

  /** `string.Trim()`: the whitespace-free core of `s`, which is a slice of `s`. */
  function Trim(s: string): (r: string)
  {
    TrimEnd(TrimStart(s))
  }

  /** `Trim` removes only whitespace from the two ends and leaves none there. */
  lemma {:induction false} TrimIsCore(s: string)
    ensures exists i, j ::
      0 <= i <= j <= |s| && Trim(s) == s[i..j] && AllWhiteSpace(s[..i]) && AllWhiteSpace(s[j..])
    ensures |Trim(s)| > 0 ==> !IsWhiteSpace(Trim(s)[0]) && !IsWhiteSpace(Trim(s)[|Trim(s)| - 1])
  {
    var i := TrimStartIndex(s);
    TrimStartIndexFacts(s);
    var j := TrimEndIndex(s[i..]);
    TrimEndIndexFacts(s[i..]);
    assert Trim(s) == s[i..i + j];
    assert s[i + j..] == s[i..][j..];
    assert AllWhiteSpace(s[i..][j..]);
  }

  lemma {:induction false} TrimStartIndexFacts(s: string)
    ensures 0 <= TrimStartIndex(s) <= |s| && TrimStart(s) == s[TrimStartIndex(s)..]
    ensures AllWhiteSpace(s[..TrimStartIndex(s)])
    ensures TrimStartIndex(s) < |s| ==> !IsWhiteSpace(s[TrimStartIndex(s)])
    decreases |s|
  {
    if |s| > 0 && IsWhiteSpace(s[0]) {
      TrimStartIndexFacts(s[1..]);
      assert s[1..][TrimStartIndex(s[1..])..] == s[1 + TrimStartIndex(s[1..])..];
      assert s[..TrimStartIndex(s)] == [s[0]] + s[1..][..TrimStartIndex(s[1..])];
    }
  }

  function TrimStartIndex(s: string): nat
    decreases |s|
  {
    if |s| > 0 && IsWhiteSpace(s[0]) then 1 + TrimStartIndex(s[1..]) else 0
  }

  function TrimEndIndex(s: string): nat
    decreases |s|
  {
    if |s| > 0 && IsWhiteSpace(s[|s| - 1]) then TrimEndIndex(s[..|s| - 1]) else |s|
  }

  lemma {:induction false} TrimEndIndexFacts(s: string)
    ensures TrimEndIndex(s) <= |s| && TrimEnd(s) == s[..TrimEndIndex(s)]
    ensures AllWhiteSpace(s[TrimEndIndex(s)..])
    ensures TrimEndIndex(s) > 0 ==> !IsWhiteSpace(s[TrimEndIndex(s) - 1])
    decreases |s|
  {
    if |s| > 0 && IsWhiteSpace(s[|s| - 1]) {
      TrimEndIndexFacts(s[..|s| - 1]);
      assert s[..|s| - 1][..TrimEndIndex(s[..|s| - 1])] == s[..TrimEndIndex(s)];
      assert s[TrimEndIndex(s)..] == s[..|s| - 1][TrimEndIndex(s)..] + [s[|s| - 1]];
    }
  }

  /** `string.Split(sep)`: the pieces between separators, always at least one. */
  function Split(s: string, sep: char): (parts: seq<string>)
    ensures |parts| >= 1
    ensures forall k :: 0 <= k < |parts| ==> sep !in parts[k]
    decreases |s|
  {
    if |s| == 0 then [""]
    else
      var rest := Split(s[1..], sep);
      if s[0] == sep then [""] + rest
      else [[s[0]] + rest[0]] + rest[1..]
  }

  /** `string.Join(sep, parts)`. */
  function Join(sep: string, parts: seq<string>): string
    decreases |parts|
  {
    if |parts| == 0 then ""
    else if |parts| == 1 then parts[0]
    else parts[0] + sep + Join(sep, parts[1..])
  }

  /** Joining the pieces of a split with the separator gives back the text. */
  lemma {:induction false} JoinSplit(s: string, sep: char)
    ensures Join([sep], Split(s, sep)) == s
    decreases |s|
  {
    if |s| > 0 {
      var rest := Split(s[1..], sep);
      JoinSplit(s[1..], sep);
      if s[0] != sep {
        if |rest| == 1 {
          assert Split(s, sep) == [[s[0]] + rest[0]];
        } else {
          assert Split(s, sep)[1..] == rest[1..];
          assert Join([sep], rest) == rest[0] + [sep] + Join([sep], rest[1..]);
        }
      }
    }
  }

  /** The digit character for `d`. */
  function DigitChar(d: nat): (c: char)
    requires d < 10
    ensures IsDigit(c)
  {
    ('0' as int + d) as char
  }

  /** The value of a digit character. */
  function DigitValue(c: char): (d: nat)
    requires IsDigit(c)
    ensures d < 10
  {
    c as int - '0' as int
  }

  /** The number a run of decimal digits denotes. */
  function DigitsValue(s: string): nat
    requires AllDigits(s)
    decreases |s|
  {
    if |s| == 0 then 0 else DigitsValue(s[..|s| - 1]) * 10 + DigitValue(s[|s| - 1])
  }

  /** `int.ToString()` for a non-negative number: its decimal digits with no leading zero. */
  function NatToString(n: nat): (s: string)
    ensures |s| >= 1 && AllDigits(s)
    ensures |s| > 1 ==> s[0] != '0'
    decreases n
  {
    if n < 10 then [DigitChar(n)] else NatToString(n / 10) + [DigitChar(n % 10)]
  }

  /** Reading the decimal text of `n` back gives `n`. */
  lemma {:induction false} NatToStringRoundTrip(n: nat)
    ensures DigitsValue(NatToString(n)) == n
    decreases n
  {
    var s := NatToString(n);
    if n >= 10 {
      NatToStringRoundTrip(n / 10);
      assert s[..|s| - 1] == NatToString(n / 10);
    }
  }

  /** `int.ToString()`: a minus sign for negative numbers, then the decimal digits. */
  function IntToString(i: int): (s: string)
    ensures |s| >= 1
  {
    if i < 0 then "-" + NatToString(-i) else NatToString(i)
  }

  /** The text of an integer determines the integer. */
  lemma IntToStringInjective(i: int, j: int)
    requires IntToString(i) == IntToString(j)
    ensures i == j
  {
    if i < 0 && j < 0 {
      assert NatToString(-i) == IntToString(i)[1..];
      NatToStringRoundTrip(-i);
      NatToStringRoundTrip(-j);
    } else if i >= 0 && j >= 0 {
      NatToStringRoundTrip(i);
      NatToStringRoundTrip(j);
    }
  }
}
