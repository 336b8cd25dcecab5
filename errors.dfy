/// The calculator's exception type: a message, a position and, for errors tied
/// to a named variable or function, an insertion-ordered name -> position map.
/// Its properties are get-only, so the model is an immutable datatype.
module Errors {
  import opened Wrappers
  import opened Text

  /** A `Dictionary<string, int>` in its enumeration (insertion) order. */
  type PositionMap = seq<(string, int)>

  datatype CalcError = CalcError(message: string, errorPosition: int, variablePositions: Option<PositionMap>)

  /** The message-and-position constructor; the position defaults to 0 and no map is kept. */
  function WithPosition(message: string, errorPosition: int := 0): (e: CalcError)
    ensures e.message == message && e.errorPosition == errorPosition
    ensures e.variablePositions == None
  {
    CalcError(message, errorPosition, None)
  }

  predicate HasPositions(e: CalcError) {
    e.variablePositions.Some? && |e.variablePositions.value| > 0
  }

  /** The message-and-map constructor: the map is kept and the position is the
      value of its first entry, or 0 for a missing or empty map. */
  function WithPositions(message: string, variablePositions: Option<PositionMap>): (e: CalcError)
    ensures e.message == message && e.variablePositions == variablePositions
    ensures HasPositions(e) ==> e.errorPosition == variablePositions.value[0].1
    ensures !HasPositions(e) ==> e.errorPosition == 0
  {
    var first := if variablePositions.Some? && |variablePositions.value| > 0
                 then variablePositions.value[0].1 else 0;
    CalcError(message, first, variablePositions)
  }

  /** One map entry as `ToString` prints it. */
  function EntryText(entry: (string, int)): string {
    entry.0 + ": " + IntToString(entry.1)
  }

  function EntriesText(ps: PositionMap): seq<string> {
    seq(|ps|, i requires 0 <= i < |ps| => EntryText(ps[i]))
  }

  /** `ToString`, given the text of the base exception: it appends the map
      entries when there is a non-empty map, and the single position otherwise. */
  function Describe(e: CalcError, baseText: string): (s: string)
    ensures StartsWith(s, baseText) && EndsWith(s, ")")
    ensures !HasPositions(e) ==> s == baseText + " (Position: " + IntToString(e.errorPosition) + ")"
  {
    if HasPositions(e) then
      baseText + " (Positions: " + Join(", ", EntriesText(e.variablePositions.value)) + ")"
    else
      baseText + " (Position: " + IntToString(e.errorPosition) + ")"
  }

  /** With a non-empty map, `ToString` lists every entry as `name: position`. */
  lemma DescribeListsEveryEntry(e: CalcError, baseText: string, k: nat)
    requires HasPositions(e) && k < |e.variablePositions.value|
    ensures Contains(Describe(e, baseText), EntryText(e.variablePositions.value[k]))
  {
    var entries := EntriesText(e.variablePositions.value);
    var listed := Join(", ", entries);
    var s := Describe(e, baseText);
    var at := JoinListsPart(", ", entries, k);
    var shift := |baseText + " (Positions: "|;
    var entry := EntryText(e.variablePositions.value[k]);
    assert s == baseText + " (Positions: " + listed + ")";
    assert s[shift + at..shift + at + |entry|] == listed[at..at + |entry|];
    assert OccursAt(s, entry, shift + at);
  }

  /** Every part appears in the joined text, at the returned index. */
  lemma {:induction false} JoinListsPart(sep: string, parts: seq<string>, k: nat) returns (at: nat)
    requires k < |parts|
    ensures OccursAt(Join(sep, parts), parts[k], at)
    decreases |parts|
  {
    if |parts| == 1 {
      at := 0;
    } else if k == 0 {
      at := 0;
      assert Join(sep, parts)[..|parts[0]|] == parts[0];
    } else {
      var inner := JoinListsPart(sep, parts[1..], k - 1);
      at := |parts[0] + sep| + inner;
      var joined := Join(sep, parts);
      assert joined == parts[0] + sep + Join(sep, parts[1..]);
      assert joined[at..at + |parts[k]|] == Join(sep, parts[1..])[inner..inner + |parts[k]|];
    }
  }
}
