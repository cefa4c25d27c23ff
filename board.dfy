/** The authoritative checkers board: 32 squares in a fixed array, counters
    kept in step by every placement and removal, a no-capture move counter
    and a repetition table. Each constructor and method is proved to act as
    a function of module `BoardState` (or, for the jump probes, of module
    `Squares`). */
module Boards {
  import opened Pieces
  import opened Squares
  import opened Moves
  import BoardState

  class Board {
    /** Position p is stored at index p - 1. */
    const squares: array<PieceValue>
    var pawnCount: map<Color, int>
    var kingCount: map<Color, int>
    var movesSinceLastCapture: int
    var repeatedStateDraw: bool
    var stateCounter: map<seq<PieceValue>, int>

    /** The board as a value. */
    function State(): BoardState.State
      reads this, squares
    {
      BoardState.State(squares[..], pawnCount, kingCount, movesSinceLastCapture,
                       repeatedStateDraw, stateCounter)
    }

    /** 32 squares and a counter entry for each colour. */
    ghost predicate Valid()
      reads this, squares
    {
      BoardState.WellFormed(State())
    }

    /** The counters agree with the squares and the repetition flag with the
        repetition table. */
    ghost predicate Consistent()
      reads this, squares
      requires Valid()
    {
      BoardState.CountsAgree(State()) && BoardState.DrawFlagAgrees(State())
    }

    /** The standard opening position. */
    constructor ()
      ensures Valid() && fresh(squares)
      ensures State() == BoardState.Standard()
      ensures Consistent()
    {
      var a := new PieceValue[NumSquares];
      for i := 0 to NumSquares
        invariant forall j :: 0 <= j < i ==> a[j] == BoardState.StartingPiece(j + 1)
      {
        a[i] := BoardState.StartingPiece(i + 1);
      }
      squares := a;
      pawnCount := BoardState.ColorMap(12, 12);
      kingCount := BoardState.ColorMap(0, 0);
      movesSinceLastCapture := 0;
      repeatedStateDraw := false;
      stateCounter := map[];
      new;
      assert squares[..] == BoardState.Standard().squares;
      BoardState.StandardBoard();
    }

    /** A deep copy of `other`: every square and counter copied, but a fresh
        no-capture counter and an empty repetition history. */
    constructor Copy(other: Board)
      requires other.Valid()
      ensures Valid() && fresh(squares)
      ensures State() == BoardState.CopyOf(other.State())
      ensures BoardState.Equal(State(), other.State())
      ensures other.Consistent() ==> Consistent()
    {
      var a := new PieceValue[NumSquares];
      for i := 0 to NumSquares
        invariant forall j :: 0 <= j < i ==> a[j] == other.squares[j]
      {
        a[i] := other.squares[i];
      }
      squares := a;
      pawnCount := BoardState.ColorMap(other.pawnCount[Black], other.pawnCount[White]);
      kingCount := BoardState.ColorMap(other.kingCount[Black], other.kingCount[White]);
      movesSinceLastCapture := 0;
      repeatedStateDraw := false;
      stateCounter := map[];
      new;
      assert squares[..] == other.squares[..];
      assert pawnCount == other.pawnCount by {
        forall c ensures pawnCount[c] == other.pawnCount[c] {
          ColorCases(c);
        }
      }
      assert kingCount == other.kingCount by {
        forall c ensures kingCount[c] == other.kingCount[c] {
          ColorCases(c);
        }
      }
      BoardState.CopyIsEqual(other.State());
    }

    /** A board with black pieces on `blackPositions`, white pieces on those
        `whitePositions` not already black, and no other pieces. */
    constructor FromPositions(blackPositions: seq<int>, whitePositions: seq<int>)
      ensures Valid() && fresh(squares)
      ensures State() == BoardState.FromPositions(blackPositions, whitePositions)
      ensures Consistent()
    {
      pawnCount := BoardState.ColorMap(0, 0);
      kingCount := BoardState.ColorMap(0, 0);
      movesSinceLastCapture := 0;
      repeatedStateDraw := false;
      stateCounter := map[];
      squares := new PieceValue[NumSquares](_ => Empty);
      new;
      assert squares[..] == BoardState.Repeat(Empty, NumSquares);
      BoardState.ListedFromEmpty(State(), blackPositions, whitePositions);
      for position := 1 to NumSquares + 1
        invariant Valid() && BoardState.ListedUpTo(State(), position, blackPositions, whitePositions)
      {
        ghost var before := State();
        BoardState.ListStepKeeps(before, position, blackPositions, whitePositions);
        if position in blackPositions {
          SetOccupyingPiece(position, Occupied(Black, false));
        } else if position in whitePositions {
          SetOccupyingPiece(position, Occupied(White, false));
        }
        assert State() == BoardState.ListStep(before, position, blackPositions, whitePositions);
      }
      BoardState.ListedIsFromPositions(State(), blackPositions, whitePositions);
      BoardState.FromPositionsBoard(blackPositions, whitePositions, 1);
    }

    // -------------------------------------------------------------------
    // Queries

    /** The square numbered `position`. */
    function GetSquare(position: int): (sq: Square)
      reads this, squares
      requires Valid() && IsOnBoard(position)
      ensures sq.position == position && sq.piece == State().squares[position - 1]
    {
      Square(position, squares[position - 1])
    }

    /** The occupant of `position`. */
    function GetPiece(position: int): (x: PieceValue)
      reads this, squares
      requires Valid() && IsOnBoard(position)
      ensures x == GetSquare(position).piece
    {
      GetSquare(position).piece
    }

    function GetPawnCount(c: Color): (n: int)
      reads this, squares
      requires Valid()
      ensures n == BoardState.CountOf(State(), c, false)
      ensures Consistent() ==> n == BoardState.Tally(squares[..], c, false)
    {
      pawnCount[c]
    }

    function GetKingCount(c: Color): (n: int)
      reads this, squares
      requires Valid()
      ensures n == BoardState.CountOf(State(), c, true)
      ensures Consistent() ==> n == BoardState.Tally(squares[..], c, true)
    {
      kingCount[c]
    }

    /** Pawns plus kings of colour `c`; on a consistent board, the number of
        squares holding `c`. */
    function GetTotalNumberOfPieces(c: Color): (n: int)
      reads this, squares
      requires Valid()
      ensures n == BoardState.Total(State(), c)
      ensures Consistent() ==> n == |BoardState.SquaresFor(squares[..], c)|
    {
      BoardState.SquaresForCount(squares[..], c);
      GetPawnCount(c) + GetKingCount(c)
    }

    /** Drawn: the repetition flag is set, or 50 moves have passed without
        a capture. */
    function IsDrawState(): (r: bool)
      reads this, squares
      ensures r <==> repeatedStateDraw || movesSinceLastCapture >= BoardState.DrawMoveLimit
      ensures r == BoardState.IsDrawState(State())
    {
      repeatedStateDraw || movesSinceLastCapture >= BoardState.DrawMoveLimit
    }

    /** `c` has lost: its counters say it has no pieces, or the move generator
        finds no move for it on this board. */
    function PlayerHasLost(c: Color, generator: (seq<PieceValue>, Color) -> set<Move>): (r: bool)
      reads this, squares
      requires Valid()
      ensures r <==> GetTotalNumberOfPieces(c) == 0 || generator(squares[..], c) == {}
      ensures r == BoardState.PlayerHasLost(State(), c, generator)
    {
      var outOfPieces := GetTotalNumberOfPieces(c) == 0;
      if outOfPieces then true
      else generator(squares[..], c) == {}
    }

    /** The game is over for `c`: `c` has lost or the game is drawn. */
    function IsEndState(c: Color, generator: (seq<PieceValue>, Color) -> set<Move>): (r: bool)
      reads this, squares
      requires Valid()
      ensures r <==> PlayerHasLost(c, generator) || IsDrawState()
      ensures r == BoardState.IsEndState(State(), c, generator)
    {
      PlayerHasLost(c, generator) || IsDrawState()
    }

    /** Value equality: the same occupant on every square and the same total
        per colour; on consistent boards just the same squares. */
    function Equals(other: Board): (r: bool)
      reads this, squares, other, other.squares
      requires Valid() && other.Valid()
      ensures r == BoardState.Equal(State(), other.State())
      ensures r ==> squares[..] == other.squares[..]
    {
      if this == other then true
      else
        squares[..] == other.squares[..]
        && GetTotalNumberOfPieces(Black) == other.GetTotalNumberOfPieces(Black)
        && GetTotalNumberOfPieces(White) == other.GetTotalNumberOfPieces(White)
    }

    /** The occupied squares of colour `c`, in ascending position order. */
    method GetSquaresForPlayer(c: Color) returns (r: seq<Square>)
      requires Valid()
      ensures r == BoardState.SquaresFor(squares[..], c)
      ensures forall sq :: sq in r <==>
        (IsOnBoard(sq.position) && sq == GetSquare(sq.position) && sq.piece.Occupied? && sq.piece.color == c)
      ensures forall i, j :: 0 <= i < j < |r| ==> r[i].position < r[j].position
    {
      ghost var s := squares[..];
      r := [];
      for i := 0 to NumSquares
        invariant r == BoardState.SquaresFor(s[..i], c)
      {
        var x := squares[i];
        if x.Occupied? && x.color == c {
          r := r + [Square(i + 1, x)];
        }
        assert s[..i + 1] == s[..i] + [x];
      }
      assert s[..NumSquares] == s == State().squares;
    }

    /** The squares at +9, -9, +7 and -7 from `position`, in that order,
        keeping only those numbered 1..32; squares across a board edge are
        not filtered out. */
    method GetSquaresThatMightBeOneJumpAway(position: int) returns (r: seq<Square>)
      requires Valid()
      ensures |r| == |OneJumpAway(position)| <= 4
      ensures forall i :: 0 <= i < |r| ==>
        IsOnBoard(OneJumpAway(position)[i]) && r[i] == GetSquare(OneJumpAway(position)[i])
    {
      var probes := JumpOffsets(position);
      r := [];
      for i := 0 to 4
        invariant |r| == |OnBoardOnly(probes[..i])|
        invariant forall k :: 0 <= k < |r| ==>
          IsOnBoard(OnBoardOnly(probes[..i])[k]) && r[k] == GetSquare(OnBoardOnly(probes[..i])[k])
      {
        assert probes[..i + 1][..i] == probes[..i];
        if IsOnBoard(probes[i]) {
          r := r + [GetSquare(probes[i])];
        }
      }
      assert probes[..4] == probes;
    }

    // -------------------------------------------------------------------
    // Counters

    /** Count one more of the piece on `position`. */
    method IncrementPieceCount(position: int)
      requires Valid() && IsOnBoard(position) && squares[position - 1].Occupied?
      modifies this
      ensures Valid() && State() == BoardState.IncrementPieceCount(old(State()), position)
    {
      var piece := squares[position - 1];
      if piece.king {
        kingCount := kingCount[piece.color := kingCount[piece.color] + 1];
      } else {
        pawnCount := pawnCount[piece.color := pawnCount[piece.color] + 1];
      }
    }

    /** Count one fewer of the piece on `position`. */
    method DecrementPieceCount(position: int)
      requires Valid() && IsOnBoard(position) && squares[position - 1].Occupied?
      modifies this
      ensures Valid() && State() == BoardState.DecrementPieceCount(old(State()), position)
    {
      var piece := squares[position - 1];
      if piece.king {
        kingCount := kingCount[piece.color := kingCount[piece.color] - 1];
      } else {
        pawnCount := pawnCount[piece.color := pawnCount[piece.color] - 1];
      }
    }

    /** Recount all four counters from the squares. */
    method UpdateCountsInMaps()
      requires Valid()
      modifies this
      ensures Valid() && State() == BoardState.Recount(old(State()))
      ensures BoardState.CountsAgree(State())
    {
      var whitePawns, whiteKings, blackPawns, blackKings := 0, 0, 0, 0;
      for i := 0 to NumSquares
        invariant whitePawns == BoardState.Tally(squares[..i], White, false)
        invariant whiteKings == BoardState.Tally(squares[..i], White, true)
        invariant blackPawns == BoardState.Tally(squares[..i], Black, false)
        invariant blackKings == BoardState.Tally(squares[..i], Black, true)
      {
        assert squares[..i + 1][..i] == squares[..i];
        var piece := squares[i];
        if piece.IsWhite() {
          if piece.IsKing() {
            whiteKings := whiteKings + 1;
          } else {
            whitePawns := whitePawns + 1;
          }
        } else if piece.IsBlack() {
          if piece.IsKing() {
            blackKings := blackKings + 1;
          } else {
            blackPawns := blackPawns + 1;
          }
        }
      }
      assert squares[..NumSquares] == squares[..];
      pawnCount := BoardState.ColorMap(blackPawns, whitePawns);
      kingCount := BoardState.ColorMap(blackKings, whiteKings);
      BoardState.RecountAgrees(old(State()));
    }

    // -------------------------------------------------------------------
    // Mutation

    /** Empty the occupied square `position`, counting its piece off. */
    method RemovePiece(position: int)
      requires Valid() && IsOnBoard(position) && squares[position - 1].Occupied?
      modifies this, squares
      ensures Valid() && State() == BoardState.RemovePiece(old(State()), position)
      ensures old(Consistent()) ==> Consistent()
    {
      ghost var before := State();
      DecrementPieceCount(position);
      squares[position - 1] := Empty;
      if BoardState.CountsAgree(before) {
        BoardState.RemoveKeepsCountsAgree(before, position);
      }
    }

    /** Place `x` on `position` (the square may crown it) and count it. */
    method SetOccupyingPiece(position: int, x: PieceValue)
      requires Valid() && IsOnBoard(position) && x.Occupied?
      modifies this, squares
      ensures Valid() && State() == BoardState.SetOccupyingPiece(old(State()), position, x)
      ensures old(Consistent()) && old(squares[position - 1]) == Empty ==> Consistent()
    {
      ghost var before := State();
      squares[position - 1] := Landed(position, x);
      IncrementPieceCount(position);
      if BoardState.CountsAgree(before) && before.squares[position - 1] == Empty {
        BoardState.SetKeepsCountsAgree(before, position, x);
      }
    }

    /** Remove the piece on `position` and hand it back. */
    method PickUpPiece(position: int) returns (x: PieceValue)
      requires Valid() && IsOnBoard(position) && squares[position - 1].Occupied?
      modifies this, squares
      ensures x == old(squares[position - 1]) && x.Occupied?
      ensures Valid() && State() == BoardState.RemovePiece(old(State()), position)
      ensures old(Consistent()) ==> Consistent()
    {
      x := GetPiece(position);
      RemovePiece(position);
    }

    /** Remove the pieces on `positions`, one after another. */
    method RemoveEach(positions: seq<int>)
      requires Valid() && BoardState.Removable(squares[..], positions)
      modifies this, squares
      ensures Valid() && State() == BoardState.RemoveAll(old(State()), positions)
    {
      ghost var start := State();
      for k := 0 to |positions|
        invariant Valid()
        invariant BoardState.Removable(start.squares, positions[..k])
        invariant State() == BoardState.RemoveAll(start, positions[..k])
      {
        BoardState.RemoveAllStep(start, positions, k);
        RemovePiece(positions[k]);
      }
      assert positions[..|positions|] == positions;
    }

    /** Record the current snapshot in the repetition table. */
    method UpdateStateCounter()
      requires Valid()
      modifies this
      ensures Valid() && State() == BoardState.UpdateStateCounter(old(State()))
    {
      var key := squares[..];
      if key !in stateCounter {
        stateCounter := stateCounter[key := 1];
      } else {
        var count := stateCounter[key] + 1;
        stateCounter := stateCounter[key := count];
        if count >= BoardState.RepetitionLimit {
          repeatedStateDraw := true;
        }
      }
    }

    /** Apply `m`: pick up the moving piece, remove a jump's captures (and
        reset the no-capture counter) or count one more quiet move, put the
        piece down on the end square, record the snapshot. */
    method MovePiece(m: Move)
      requires Valid() && BoardState.CanMove(State(), m)
      modifies this, squares
      ensures Valid() && State() == BoardState.MovePiece(old(State()), m)
      ensures old(Consistent()) && BoardState.LandingFree(old(State()), m) ==> Consistent()
    {
      ghost var st := State();
      var pieceToMove := PickUpPiece(m.start);
      if m.IsJump() {
        movesSinceLastCapture := 0;
        BoardState.LiftedRemovable(st, m);
        RemoveEach(m.Captured());
      } else {
        movesSinceLastCapture := movesSinceLastCapture + 1;
      }
      assert State() == BoardState.Cleared(st, m);
      SetOccupyingPiece(m.end, pieceToMove);
      UpdateStateCounter();
      if BoardState.CountsAgree(st) && BoardState.DrawFlagAgrees(st) && BoardState.LandingFree(st, m) {
        BoardState.MoveKeepsCountsAgree(st, m);
        BoardState.MoveKeepsDrawFlagAgrees(st, m);
      }
    }
  }

  /** Changing a copy leaves the original as it was. */
  method CopyIsIndependent(original: Board, position: int) returns (copy: Board)
    requires original.Valid() && IsOnBoard(position) && original.squares[position - 1].Occupied?
    ensures copy.Valid() && copy.GetPiece(position) == Empty
    ensures original.State() == old(original.State())
    ensures original.GetPiece(position).Occupied?
  {
    copy := new Board.Copy(original);
    copy.RemovePiece(position);
  }
}
