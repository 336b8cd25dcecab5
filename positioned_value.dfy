/// `PositionedValue<T>`: a value with the offset where Sprache's `Positioned`
/// combinator found it. The function parser wraps each call's name in one.
module PositionedValue {
  import opened Scanning
  import opened Grammar

  class PositionedValue<T> {
    /** Set by the constructor, never changed. */
    const Value: T
    /** The offset of the first character read; 0 until `SetPos` runs. */
    var Position: int

    constructor (value: T)
      ensures Value == value && Position == 0
    {
      Value := value;
      Position := 0;
    }

    /** `SetPos`: keeps the start offset (Sprache's `Position.Pos`), ignores
      the length, and returns the same object. */
    method SetPos(startPos: nat, length: nat) returns (self: PositionedValue<T>)
      modifies this
      ensures self == this && Position == startPos
    {
      Position := startPos;
      self := this;
    }
  }

  /** The name of a call as `FunctionParser` reads it: the letters after any
      whitespace, positioned at the offset where the name parser started,
      which is the position `FunctionWith` reports. */
  method PositionedName(s: string, p: nat) returns (r: PositionedValue?<string>)
    requires p <= |s|
    ensures FunctionName(s, p).None? <==> r == null
    ensures r != null ==> fresh(r) && r.Value == CallName(s, p) && r.Position == p
  {
    var span := FunctionName(s, p);
    if span.None? {
      return null;
    }
    var named := new PositionedValue(s[span.value.0..span.value.1]);
    var end := SkipWhiteSpace(s, span.value.1);
    r := named.SetPos(p, end - p);
  }
}
