/** The character grid that entities draw themselves into (src/frame.rs).
    It is indexed column first: `frame[x, y]` is the cell in column x and
    row y, and it exists exactly when x < NumCols and y < NumRows. */
module Frames {
  import opened Board

  type Frame = array2<string>

  /** The cell (x, y) exists in the frame; every draw writes only such cells. */
  predicate InFrame(frame: Frame, x: nat, y: nat) {
    x < frame.Length0 && y < frame.Length1
  }

  /** A blank frame: NumCols columns of NumRows cells, each holding a space. */
  method NewFrame() returns (frame: Frame)
    ensures fresh(frame)
    ensures frame.Length0 == NumCols && frame.Length1 == NumRows
    ensures forall x: nat, y: nat :: InFrame(frame, x, y) <==> x < NumCols && y < NumRows
    ensures forall x, y :: 0 <= x < NumCols && 0 <= y < NumRows ==> frame[x, y] == " "
  {
    frame := new string[NumCols, NumRows];
    for x := 0 to NumCols
      invariant forall i, j :: 0 <= i < x && 0 <= j < NumRows ==> frame[i, j] == " "
    {
      for y := 0 to NumRows
        invariant forall i, j :: 0 <= i < x && 0 <= j < NumRows ==> frame[i, j] == " "
        invariant forall j :: 0 <= j < y ==> frame[x, j] == " "
      {
        frame[x, y] := " ";
      }
    }
  }
}
