/** Concrete game situations: the positions and moves the engine's own unit
    tests use, worked through the board model. */
module Scenarios {
  import opened Pieces
  import opened Squares
  import opened Moves
  import opened BoardState

  /** White on 18 jumps the black piece on 15 and lands on 11. */
  lemma SingleJumpScenario()
    ensures var st := FromPositions([15], [18]);
      var m := SingleJump(18, 11, 15);
      && st.squares[17].IsWhite() && st.squares[14].IsBlack() && st.squares[10].IsNull()
      && CanMove(st, m)
      && var r := MovePiece(st, m);
      && r.squares[17].IsNull() && r.squares[14].IsNull() && r.squares[10].IsWhite()
      && !r.squares[10].IsKing()
      && r.movesSinceLastCapture == 0
  {
    var st := FromPositions([15], [18]);
    var m := SingleJump(18, 11, 15);
    FromPositionsBoard([15], [18], 18);
    FromPositionsBoard([15], [18], 15);
    FromPositionsBoard([15], [18], 11);
    assert m.Captured() == [15];
    MoveEffect(st, m);
  }

  /** The position before the multi-jump: white on 26, black on 23, 15
      and 6, nothing on 1, 19 and 10. */
  lemma MultiJumpStart()
    ensures var st := FromPositions([23, 15, 6], [26]);
      && st.squares[25] == Occupied(White, false) && st.squares[0].IsNull()
      && st.squares[22].IsBlack() && st.squares[14].IsBlack() && st.squares[5].IsBlack()
      && st.squares[18].IsNull() && st.squares[9].IsNull()
  {
    var b, w := [23, 15, 6], [26];
    FromPositionsBoard(b, w, 26);
    FromPositionsBoard(b, w, 1);
    FromPositionsBoard(b, w, 23);
    FromPositionsBoard(b, w, 15);
    FromPositionsBoard(b, w, 6);
    FromPositionsBoard(b, w, 19);
    FromPositionsBoard(b, w, 10);
  }

  /** White on 26 jumps the black pieces on 23, 15 and 6, passing 19 and 10,
      and is crowned on landing at 1. */
  lemma MultiJumpScenario()
    ensures var st := FromPositions([23, 15, 6], [26]);
      var m := MultiJump(26, 1, [23, 15, 6]);
      && CanMove(st, m)
      && var r := MovePiece(st, m);
      && r.squares[25].IsNull() && r.squares[0].IsWhite() && r.squares[0].IsKing()
      && r.squares[22].IsNull() && r.squares[14].IsNull() && r.squares[5].IsNull()
      && r.squares[18].IsNull() && r.squares[9].IsNull()
      && r.movesSinceLastCapture == 0
  {
    var b := [23, 15, 6];
    var st := FromPositions(b, [26]);
    var m := MultiJump(26, 1, b);
    MultiJumpStart();
    assert Removable(st.squares, b) by {
      assert forall i :: 0 <= i < 3 ==> IsOnBoard(b[i]) && st.squares[b[i] - 1].Occupied?;
    }
    assert CanMove(st, m);
    MoveEffect(st, m);
    var r := MovePiece(st, m);
    assert r.squares[0] == Landed(1, Occupied(White, false));
    assert r.squares[18] == st.squares[18] && r.squares[9] == st.squares[9];
  }

  /** The black pawn on 12 steps to 16 on the opening board. */
  lemma SimpleMoveScenario()
    ensures var m := SimpleMove(12, 16);
      && CanMove(Standard(), m)
      && var r := MovePiece(Standard(), m);
      && r.squares[11].IsNull() && r.squares[15].IsBlack()
      && r.movesSinceLastCapture == 1
  {
    var st, m := Standard(), SimpleMove(12, 16);
    StandardBoard();
    assert st.squares[11] == StartingPiece(12) && st.squares[15] == StartingPiece(16);
    assert CanMove(st, m);
    MoveEffect(st, m);
  }

  /** Removing the pawns on 12 and 27 from the opening board. */
  lemma RemoveScenario()
    ensures var one := RemovePiece(Standard(), 12);
      && one.squares[11].IsNull()
      && CountOf(one, Black, false) == 11 && CountOf(one, White, false) == 12
      && one.squares[26].Occupied?
      && var two := RemovePiece(one, 27);
      && two.squares[26].IsNull()
      && CountOf(two, Black, false) == 11 && CountOf(two, White, false) == 11
  {
    StandardBoard();
  }

  /** A black pawn set on 13 stays a pawn; a white pawn set on 1 of an empty
      board is crowned. */
  lemma SetScenario()
    ensures var a := SetOccupyingPiece(Standard(), 13, Occupied(Black, false));
      a.squares[12].IsBlack() && !a.squares[12].IsKing()
    ensures var e := FromPositions([], []);
      && e.squares[0].IsNull()
      && var b := SetOccupyingPiece(e, 1, Occupied(White, false));
      && b.squares[0].IsWhite() && b.squares[0].IsKing()
      && CountOf(b, White, true) == 1 && CountOf(b, White, false) == 0
  {
    StandardBoard();
    FromPositionsBoard([], [], 1);
    var e := FromPositions([], []);
    assert e.squares == Repeat(Empty, NumSquares);
    TallyRepeat(Empty, NumSquares, White, true);
    TallyRepeat(Empty, NumSquares, White, false);
  }

  /** The opening board is not drawn, but is once 51 moves have passed
      without a capture. */
  lemma NoCaptureDrawScenario()
    ensures !IsDrawState(Standard())
    ensures IsDrawState(Standard().(movesSinceLastCapture := 51))
  {
    StandardBoard();
  }
}
