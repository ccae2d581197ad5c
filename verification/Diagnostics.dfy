/** Where a configuration error is: `line_col` (src/config_v1.rs), over characters. */
module Diagnostics {
  datatype Position = Position(line: nat, col: nat)

  function Newlines(s: string): nat {
    if |s| == 0 then 0 else Newlines(s[..|s| - 1]) + if s[|s| - 1] == '\n' then 1 else 0
  }

  /** The characters after the last newline. */
  function LastLineLength(s: string): nat {
    if |s| == 0 || s[|s| - 1] == '\n' then 0 else LastLineLength(s[..|s| - 1]) + 1
  }

  /** Both count from one; an offset past the end means the end. */
  function LineCol(text: string, offset: nat): Position {
    var before := text[..if offset < |text| then offset else |text|];
    Position(Newlines(before) + 1, LastLineLength(before) + 1)
  }

  predicate Precedes(a: Position, b: Position) {
    a.line < b.line || (a.line == b.line && a.col < b.col)
  }

  function Next(p: Position, c: char): Position {
    if c == '\n' then Position(p.line + 1, 1) else Position(p.line, p.col + 1)
  }

  lemma OneFurther(text: string, offset: nat)
    requires offset < |text|
    ensures LineCol(text, offset + 1) == Next(LineCol(text, offset), text[offset])
  {
    assert text[..offset + 1][..offset] == text[..offset];
  }

  /** Later offsets have later positions, so a position names at most one offset. */
  lemma {:induction false} PositionsIncrease(text: string, a: nat, b: nat)
    requires a < b <= |text|
    ensures Precedes(LineCol(text, a), LineCol(text, b))
  {
    OneFurther(text, b - 1);
    if a < b - 1 {
      PositionsIncrease(text, a, b - 1);
    }
  }

  /** Read on from `offset`, which is at `here`, until the position is reached or the text ends. */
  function WalkTo(text: string, offset: nat, here: Position, goal: Position): nat
    requires offset <= |text|
    decreases |text| - offset
  {
    if here == goal || offset == |text| then offset
    else WalkTo(text, offset + 1, Next(here, text[offset]), goal)
  }

  lemma {:induction false} WalkArrives(text: string, from: nat, offset: nat)
    requires from <= offset <= |text|
    ensures WalkTo(text, from, LineCol(text, from), LineCol(text, offset)) == offset
    decreases offset - from
  {
    if from < offset {
      PositionsIncrease(text, from, offset);
      OneFurther(text, from);
      WalkArrives(text, from + 1, offset);
    }
  }

  /** Walking to the reported line and column from the first character finds the offset again. */
  lemma WalkInvertsLineCol(text: string, offset: nat)
    ensures WalkTo(text, 0, Position(1, 1), LineCol(text, offset)) == if offset < |text| then offset else |text|
  {
    assert LineCol(text, 0) == Position(1, 1);
    WalkArrives(text, 0, if offset < |text| then offset else |text|);
  }
}
