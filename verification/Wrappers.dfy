/** What the other modules share: optional values and a few functions on numbers and sequences. */
module Wrappers {
  datatype Option<+T> = None | Some(value: T) {
    function GetOr(default: T): T {
      match this
      case Some(v) => v
      case None => default
    }
  }

  function Max(a: int, b: int): int {
    if a < b then b else a
  }

  /** The blocks of a stream, put together. */
  function Joined<T>(blocks: seq<seq<T>>): seq<T> {
    if blocks == [] then [] else Joined(blocks[..|blocks| - 1]) + blocks[|blocks| - 1]
  }

  /** A text without the spaces around it; what a space is depends on the language. */
  function Stripped(text: string, isSpace: char -> bool): string {
    if text == [] then []
    else if isSpace(text[0]) then Stripped(text[1..], isSpace)
    else if isSpace(text[|text| - 1]) then Stripped(text[..|text| - 1], isSpace)
    else text
  }

  /** Only spaces go, all of those at both ends, and nothing else. */
  lemma {:induction false} StrippedMeans(text: string, isSpace: char -> bool) returns (lead: string, trail: string)
    ensures text == lead + Stripped(text, isSpace) + trail
    ensures forall c | c in lead || c in trail :: isSpace(c)
    ensures var core := Stripped(text, isSpace); core != [] ==> !isSpace(core[0]) && !isSpace(core[|core| - 1])
    decreases |text|
  {
    lead, trail := [], [];
    if text != [] {
      if isSpace(text[0]) {
        lead, trail := StrippedMeans(text[1..], isSpace);
        lead := [text[0]] + lead;
        assert text == [text[0]] + text[1..];
      } else if isSpace(text[|text| - 1]) {
        lead, trail := StrippedMeans(text[..|text| - 1], isSpace);
        assert text == text[..|text| - 1] + [text[|text| - 1]];
        trail := trail + [text[|text| - 1]];
      }
    }
  }
}
