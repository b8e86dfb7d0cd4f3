/** The player's cannon on the bottom row (src/player.rs). */
module Players {
  import opened Board
  import opened Frames

  /** The column after a move to the left: one less, unless already at the
      left edge. */
  function MovedLeft(x: nat): (r: nat)
    ensures r <= x <= r + 1
    ensures r < x <==> x > 0
  {
    if x > 0 then x - 1 else x
  }

  /** The column after a move to the right: one more, unless already at the
      right edge. */
  function MovedRight(x: nat): (r: nat)
    ensures x <= r <= x + 1
    ensures r > x <==> x < NumCols - 1
  {
    if x < NumCols - 1 then x + 1 else x
  }

  /** Neither move takes the player off the board. */
  lemma MovesStayOnBoard(x: nat)
    requires x < NumCols
    ensures MovedLeft(x) < NumCols && MovedRight(x) < NumCols
  {
  }

  /** Away from the left edge, a move left is undone by a move right. */
  lemma LeftThenRight(x: nat)
    requires 0 < x < NumCols
    ensures MovedRight(MovedLeft(x)) == x
  {
  }

  /** Away from the right edge, a move right is undone by a move left. */
  lemma RightThenLeft(x: nat)
    requires x < NumCols - 1
    ensures MovedLeft(MovedRight(x)) == x
  {
  }

  /** A key press that moves the player. */
  datatype Move = Left | Right

  /** The column after a run of moves, applied in order. */
  function AfterMoves(x: nat, moves: seq<Move>): (r: nat)
    decreases |moves|
  {
    if moves == [] then x
    else AfterMoves(if moves[0] == Left then MovedLeft(x) else MovedRight(x), moves[1..])
  }

  /** Whatever moves are made, the player stays on the board. */
  lemma {:induction false} AnyMovesStayOnBoard(x: nat, moves: seq<Move>)
    requires x < NumCols
    ensures AfterMoves(x, moves) < NumCols
    decreases |moves|
  {
    if moves != [] {
      MovesStayOnBoard(x);
      AnyMovesStayOnBoard(if moves[0] == Left then MovedLeft(x) else MovedRight(x), moves[1..]);
    }
  }

  class Player {
    var x: nat
    var y: nat

    ghost predicate Valid()
      reads this
    {
      x < NumCols && y == NumRows - 1
    }

    /** The player starts at the centre of the bottom row. */
    constructor ()
      ensures x == NumCols / 2 && y == NumRows - 1
      ensures x == 20 && y == 19
      ensures Valid()
    {
      x := NumCols / 2;
      y := NumRows - 1;
    }

    method GoToLeft()
      modifies this
      ensures x == MovedLeft(old(x)) && y == old(y)
      ensures old(Valid()) ==> Valid()
    {
      if x > 0 {
        x := x - 1;
      }
    }

    method GoToRight()
      modifies this
      ensures x == MovedRight(old(x)) && y == old(y)
      ensures old(Valid()) ==> Valid()
    {
      if x < NumCols - 1 {
        x := x + 1;
      }
    }

    /** Writes "H" on the player's cell and nowhere else. */
    method Draw(frame: Frame)
      requires InFrame(frame, x, y)
      modifies frame
      ensures frame[x, y] == "H"
      ensures forall i, j :: 0 <= i < frame.Length0 && 0 <= j < frame.Length1 && (i != x || j != y) ==>
                frame[i, j] == old(frame[i, j])
    {
      frame[x, y] := "H";
    }
  }
}
