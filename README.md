# Checkers board and piece model

A Dafny model of the rules-state kernel of a Java checkers engine: the
`Board` class (`src/model/Board.java`) and the `Piece` class
(`src/model/Piece.java`).

A board has 32 playable squares. Position `p` (1..32) is stored at index
`p - 1`. Beside the squares it keeps:

- per-colour pawn and king counters;
- a counter of moves since the last capture;
- a repetition table that counts board snapshots;
- a sticky draw flag, set when a snapshot has been reached four times.

The model is in layers:

- `Pieces` (`pieces.dfy`): the two colours; `PieceValue`, what a square
  holds, where `Empty` stands for the shared null piece; and the mutable
  `Piece` class, whose colour is fixed and whose king flag can only be
  switched on.
- `Squares` (`squares.dfy`): a `Square` value (a position and its
  occupant), the 1..32 board filter, the crowning rule applied when a piece
  lands on a square, and the list of squares that might be one jump away
  (±9, ±7).
- `Moves` (`moves.dfy`): simple moves, single jumps and multi-jumps, with
  the positions a jump captures.
- `BoardState` (`board_state.dfy`): the board as an immutable value. Every
  operation is a function from state to state, and the lemmas cover:
  - the counter invariant (`CountsAgree`: each counter equals the number of
    squares holding that colour and rank);
  - the repetition invariant (`DrawFlagAgrees`: the flag is set exactly when
    some snapshot's count has reached 4);
  - what a move does to every square and to the no-capture counter;
  - the three constructors;
  - copying and equality.
- `Boards` (`board.dfy`): the `Board` class itself. It holds the squares in
  a 32-element array and the counters and tables in fields. Each
  constructor and mutating method is proved to leave `State()` equal to a
  `BoardState` function of the old state:
  - the three constructors: `Standard`, `CopyOf` and `FromPositions`;
  - `IncrementPieceCount`, `DecrementPieceCount`, `RemovePiece`,
    `SetOccupyingPiece`, `UpdateStateCounter` and `MovePiece`: the
    functions of the same name;
  - `UpdateCountsInMaps`: `Recount`;
  - `PickUpPiece`: `RemovePiece`;
  - `RemoveEach`: `RemoveAll`.

  `GetSquare` and `GetPiece` read `State().squares[position - 1]`. The
  other queries are proved equal to their `BoardState` counterparts.
  `GetSquaresForPlayer` is proved equal to `SquaresFor`, and
  `GetSquaresThatMightBeOneJumpAway` to the squares at `Squares.OneJumpAway`.
  The removals, the placement and the move also keep `Consistent()` (both
  invariants), a placement or a move only when its landing square is free.
- `Scenarios` (`scenarios.dfy`): the concrete positions from the engine's
  unit tests, worked through the model: a single jump, a crowning
  multi-jump, a simple move, removals, placements and the 50-move draw.

Three collaborators are abstracted:

- **Move generator.** `playerHasLost` asks an external generator for all
  legal moves of a colour. The generator is a function parameter from a
  board snapshot and a colour to a set of moves.
- **Square placement.** `Board.setOccupyingPiece` calls the square's own
  `setOccupyingPiece`, which is not part of this model. The unit tests
  (`test/model/BoardTest.java:345-348` and `:266`) expect a white piece
  placed on position 1 to read back as a king. Board.java itself has no
  promotion code, and its counter update reads the piece back from the
  square after placement (`src/model/Board.java:231,308-309`). The model
  therefore treats placement as "store the piece, crowned if it lands on
  its far row": white on 1..4, black on 29..32 (`Squares.Landed`). The
  counter update counts the piece as it is stored. This rule is an
  assumption about code outside the model.
- **Repetition table keys.** The Java repetition table is keyed by the
  live, mutable square list. The model keys it by an immutable snapshot of
  the 32 occupants.

Two details of the code that the model keeps:

- `isDrawState` reads only the sticky `repeatedStateDraw` flag and the
  no-capture count (`src/model/Board.java:251-253`). It does not look up
  the current snapshot's count.
- The copy constructor copies the squares and the four counters only. The
  copy starts with a no-capture count of 0, an empty repetition table and
  the flag clear (`src/model/Board.java:10-13,22-34`). So a copy of a drawn
  board is not drawn (`BoardState.CopyIsEqual`).

## Model

| member | source | states |
|---|---|---|
| Pieces.Piece.constructor | src/model/Piece.java:7-10 | the new piece has the given colour and is not a king |
| Pieces.Piece.Copy | src/model/Piece.java:12-15 | the copy has the colour and king flag of the original, so the same value |
| Pieces.Piece.GetColor | src/model/Piece.java:17-20 | the colour is the colour of the piece's value |
| Pieces.Piece.IsBlack | src/model/Piece.java:22-25 | true iff the colour is Black, and exactly when `IsWhite` is false |
| Pieces.Piece.IsWhite | src/model/Piece.java:42-45 | true iff the colour is White, in agreement with the value's colour query |
| Pieces.Piece.IsKing | src/model/Piece.java:27-30 | agrees with the king query on the piece's value |
| Pieces.Piece.IsNull | src/model/Piece.java:32-35 | a piece object is never the null piece |
| Pieces.Piece.IsSameColorAs | src/model/Piece.java:37-40 | true iff the other occupant is a piece of the same colour; the null piece matches no colour |
| Pieces.SameColorSymmetric | src/model/Piece.java:37-40 | between two pieces, same-colour is symmetric and means equal colours |
| Pieces.Piece.KingMe | src/model/Piece.java:47-50 | afterwards the piece is a king and its value is the old value crowned, colour unchanged |
| Pieces.KingMeTwice | src/model/Piece.java:47-50 | crowning twice gives what crowning once gives |
| Pieces.KingedIdempotent | src/model/Piece.java:47-50 | crowning a value is idempotent and keeps its colour |
| Pieces.ColorQueries | src/model/Piece.java:22-35 | the null piece is neither colour nor a king; a real piece is exactly one colour |
| Pieces.PieceValue.IsNull | test/model/BoardTest.java:37 | true exactly for the null piece |
| Pieces.PieceValue.IsBlack | src/model/Board.java:321-332 | true exactly for a black pawn or a black king |
| Pieces.PieceValue.IsWhite | src/model/Board.java:321-332 | true exactly for a white pawn or a white king |
| Pieces.PieceValue.IsKing | src/model/Board.java:321-332 | true exactly for a black or a white king |
| Pieces.PieceValue.Kinged | src/model/Piece.java:47-50 | crowning keeps occupancy and colour and makes a piece a king; the null piece stays null |
| Squares.IsOnBoard | src/model/Board.java:188-190 | on the board exactly when 1 <= p <= 32, so p - 1 is an index of the squares |
| Squares.OnBoardOnly | src/model/Board.java:188-192 | a number is kept iff it is listed and on the board; the result is no longer than the list |
| Squares.OnBoardOnlyKeepsOrder | src/model/Board.java:181-194 | the filter keeps the listed order: any two kept numbers stand in the list in the same order |
| Squares.JumpOffsets | src/model/Board.java:184-185 | four probes, all different |
| Squares.OneJumpAwayInProbingOrder | src/model/Board.java:181-194 | the squares one jump away come back in the probing order +9, -9, +7, -7 |
| Squares.Landed | src/model/Board.java:307-310 | placement keeps occupancy and colour; the stored piece is a king iff it was one or it landed on its far row |
| Squares.OneJumpAway | src/model/Board.java:181-194 | at most four positions, each on the board and one of p+9, p-9, p+7, p-7 |
| Squares.AllOnBoardKept | src/model/Board.java:188-190 | the 1..32 filter drops nothing when every position is on the board |
| Squares.InteriorJumpTargets | src/model/Board.java:181-194 | for 10..23 all four probes survive, in the order +9, -9, +7, -7 |
| Squares.EdgeProbesWrap | src/model/Board.java:172-180 | from 12 the probes 21, 3, 19 and 5 all survive: squares across the board edge are not filtered out |
| Squares.CornerProbes | src/model/Board.java:181-194 | from 1 only 10 and 8 survive |
| Moves.Move.IsJump | src/model/Board.java:262 | a move is a jump exactly when it is a single jump or a multi-jump |
| Moves.Move.Captured | src/model/Board.java:266 | a single jump captures its one jumped position, a multi-jump its list of jumped positions |
| BoardState.CountOf | src/model/Board.java:106-132 | the colour's entry in the king map for kings, in the pawn map for pawns |
| BoardState.Total | src/model/Board.java:212-218 | pawn entry plus king entry; when both of the colour's counters agree with the squares, the number of squares holding the colour |
| BoardState.SquaresFor | src/model/Board.java:160-170 | exactly the squares holding colour c, each with its own position and occupant, in ascending position order |
| BoardState.SquaresForCount | src/model/Board.java:212-218 | the number of a colour's squares equals its pawns plus its kings on the squares |
| BoardState.TotalIsOccupancy | src/model/Board.java:212-218 | with agreeing counters, a colour's total is the number of its squares |
| BoardState.AdjustCount | src/model/Board.java:53-67 | exactly the counter of the piece's colour and rank moves by delta, nothing else changes |
| BoardState.IncrementPieceCount | src/model/Board.java:230-244 | exactly the counter of the piece on the square rises by one; squares and the other fields unchanged |
| BoardState.DecrementPieceCount | src/model/Board.java:53-67 | exactly the counter of the piece on the square drops by one; squares and the other fields unchanged |
| BoardState.RemovePiece | src/model/Board.java:302-305 | the square becomes empty, every other square is unchanged, exactly the removed piece's counter drops by one, other fields unchanged |
| BoardState.SetOccupyingPiece | src/model/Board.java:307-310 | the square holds the landed piece, every other square is unchanged, exactly the landed piece's counter rises by one, other fields unchanged |
| BoardState.RemoveKeepsCountsAgree | src/model/Board.java:302-305 | removing from an occupied square keeps the counter invariant |
| BoardState.SetKeepsCountsAgree | src/model/Board.java:307-310 | placing on an empty square keeps the counter invariant |
| BoardState.DoublePlacementBreaksCounts | src/model/Board.java:307-310 | placing on an occupied square breaks the counter invariant, since the overwritten piece is never counted off |
| BoardState.Recount | src/model/Board.java:312-341 | squares, no-capture count, flag and repetition table unchanged; only the counters are rebuilt (their values: `RecountAgrees`) |
| BoardState.RecountAgrees | src/model/Board.java:312-341 | the recount establishes the counter invariant whatever the counters held before |
| BoardState.RecountFixesAgreeing | src/model/Board.java:312-341 | on a board whose counters agree, the recount changes nothing |
| BoardState.RemoveAll | src/model/Board.java:266-268 | removing each jumped position in turn leaves exactly those squares empty and the rest unchanged |
| BoardState.RemoveAllKeepsCountsAgree | src/model/Board.java:266-268 | removing the jumped pieces keeps the counter invariant |
| BoardState.CanMove | src/model/Board.java:260-274 | an applicable move starts on an occupied square and ends on the board; a jump's captured positions are occupied squares other than the start |
| BoardState.Cleared | src/model/Board.java:260-271 | after pick-up and captures the start and the captured squares are empty, the rest unchanged; the no-capture counter is 0 after a jump and old+1 otherwise |
| BoardState.Placed | src/model/Board.java:260-274 | the end square holds the moved piece as landed, every other square is as after pick-up and captures; the no-capture counter is 0 after a jump and old+1 otherwise; flag and table unchanged |
| BoardState.MovePiece | src/model/Board.java:260-274 | squares and counters as after placement; the new snapshot is in the table with count old+1 (or 1 if new); the flag is set iff it was set or that count reached 4 |
| BoardState.MoveEffect | src/model/Board.java:260-274 | after a move the end square holds the moved piece (colour kept, crowned on its far row), the start and the captures are empty, every other square is unchanged, the counter is reset or incremented, a set draw flag stays set |
| BoardState.MoveKeepsKing | src/model/Board.java:260-274 | a king lands unchanged: the end square holds exactly the piece that left the start |
| BoardState.MoveKeepsCountsAgree | src/model/Board.java:260-274 | a move whose landing square is free keeps the counter invariant |
| BoardState.UpdateStateCounter | src/model/Board.java:343-356 | the snapshot's count becomes old+1 (or 1 if new), other counts are unchanged, the flag is set iff it was set or the count reached 4; squares and counters unchanged |
| BoardState.UpdateKeepsDrawFlagAgrees | src/model/Board.java:343-356 | recording a snapshot keeps "flag set iff some count reached 4" |
| BoardState.MoveKeepsDrawFlagAgrees | src/model/Board.java:260-274 | every move keeps the repetition invariant |
| BoardState.FourthRepetitionDraws | src/model/Board.java:343-356 | a move reaching a snapshot for the fourth time sets the flag and the board is drawn |
| BoardState.IsDrawState | src/model/Board.java:251-254 | drawn when the flag is set or 50 moves have passed without a capture, and only then |
| BoardState.RepetitionDrawIsSticky | src/model/Board.java:251-253 | once the flag is set, the board is drawn after every later move |
| BoardState.DrawPersistsWithoutCapture | src/model/Board.java:251-253 | a drawn board stays drawn through any move that is not a jump |
| BoardState.PlayerHasLost | src/model/Board.java:282-300 | a colour with no pieces has lost; otherwise it has lost iff the generator finds no move |
| BoardState.IsEndState | src/model/Board.java:256-258 | a drawn board is over; otherwise it is over iff the colour has lost |
| BoardState.LostWhenNoSquares | src/model/Board.java:282-300 | with agreeing counters, a colour with no squares has lost; otherwise it has lost iff the generator finds no move |
| BoardState.StartingPiece | src/model/Board.java:196-210 | a pawn, never a king: black on 1..12, nothing on 13..20, white on 21..32 |
| BoardState.Standard | src/model/Board.java:15-20 | 32 squares, square p holding its starting piece; no-capture count 0, flag clear, empty repetition table |
| BoardState.StandardBoard | src/model/Board.java:15-20 | black pawns on 1..12, empty 13..20, white pawns on 21..32; 12 pawns and 0 kings per colour; both invariants hold; not drawn |
| BoardState.ListPiece | src/model/Board.java:43-48 | black iff listed as black; white iff not listed as black and listed as white; nothing otherwise; a king only when occupied and on its far row |
| BoardState.FromPositions | src/model/Board.java:36-51 | square p holds the list piece for p; no-capture count 0, flag clear, empty repetition table |
| BoardState.FromPositionsBoard | src/model/Board.java:36-51 | black exactly on the black positions, white on the white positions not listed as black, empty elsewhere, kings only on far rows; both invariants hold; not drawn |
| BoardState.ListStep | src/model/Board.java:43-49 | a position listed for neither colour leaves the board unchanged; otherwise that square gets the list piece and exactly its counter rises by one, the rest unchanged |
| BoardState.ListStepKeeps | src/model/Board.java:43-49 | each round of the list constructor fills one more position and keeps the counter invariant |
| BoardState.ListedIsFromPositions | src/model/Board.java:36-51 | once all 32 positions are filled, the result is the list board |
| BoardState.CopyOf | src/model/Board.java:22-34 | same squares and counters, no-capture count 0, empty repetition table, flag clear |
| BoardState.CopyIsEqual | src/model/Board.java:22-34 | the copy equals the original both ways, keeps the counter invariant, and is not drawn |
| BoardState.Equal | src/model/Board.java:69-95 | equal boards have the same squares, and every board equals itself |
| BoardState.EqualIsSameSquares | src/model/Board.java:69-95 | on boards with agreeing counters, equality is equality of the squares |
| BoardState.EqualIsEquivalence | src/model/Board.java:69-95 | board equality is reflexive, symmetric and transitive |
| Boards.Board.constructor | src/model/Board.java:15-20 | the new board is the standard board, and both invariants hold |
| Boards.Board.Copy | src/model/Board.java:22-34 | the new board, with its own fresh array, is the copy of the other board's state and equals it; the copy of a consistent board is consistent |
| Boards.Board.FromPositions | src/model/Board.java:36-51 | the new board is the list board, and both invariants hold |
| Boards.Board.GetSquare | src/model/Board.java:147-149 | the square for a position carries that position and the occupant stored at index position-1 |
| Boards.Board.GetPiece | src/model/Board.java:134-136 | the occupant of the square for that position |
| Boards.Board.GetPawnCount | src/model/Board.java:130-132 | the pawn counter; on a consistent board, the number of that colour's pawns on the squares |
| Boards.Board.GetKingCount | src/model/Board.java:106-108 | the king counter; on a consistent board, the number of that colour's kings on the squares |
| Boards.Board.GetTotalNumberOfPieces | src/model/Board.java:212-218 | pawns plus kings; on a consistent board, the number of squares holding the colour |
| Boards.Board.IsDrawState | src/model/Board.java:251-254 | drawn iff the repetition flag is set or at least 50 moves have passed without a capture |
| Boards.Board.PlayerHasLost | src/model/Board.java:282-300 | lost iff the colour's total is 0 or the generator returns no move |
| Boards.Board.IsEndState | src/model/Board.java:256-258 | over iff the colour has lost or the board is drawn |
| Boards.Board.Equals | src/model/Board.java:69-95 | agrees with board equality: same occupants on every square and same total per colour |
| Boards.Board.GetSquaresForPlayer | src/model/Board.java:160-170 | exactly the squares holding colour c, in ascending position order |
| Boards.Board.GetSquaresThatMightBeOneJumpAway | src/model/Board.java:181-194 | the board's squares at the positions of `OneJumpAway`, one for one and in that order (the order of the probes, by `OneJumpAwayInProbingOrder`), at most four |
| Boards.Board.IncrementPieceCount | src/model/Board.java:230-244 | the new state is the state-level increment for the piece on the square |
| Boards.Board.DecrementPieceCount | src/model/Board.java:53-67 | the new state is the state-level decrement for the piece on the square |
| Boards.Board.UpdateCountsInMaps | src/model/Board.java:312-341 | the new state is the recount of the old one, so the counter invariant holds |
| Boards.Board.RemovePiece | src/model/Board.java:302-305 | the new state is the state-level removal; a consistent board stays consistent |
| Boards.Board.SetOccupyingPiece | src/model/Board.java:307-310 | the new state is the state-level placement; a consistent board stays consistent when the square was empty |
| Boards.Board.PickUpPiece | src/model/Board.java:276-280 | returns the old occupant and the new state is the state-level removal; a consistent board stays consistent |
| Boards.Board.RemoveEach | src/model/Board.java:266-268 | the new state is that of removing the positions in turn |
| Boards.Board.UpdateStateCounter | src/model/Board.java:343-356 | the new state is the state-level snapshot recording |
| Boards.Board.MovePiece | src/model/Board.java:260-274 | the new state is the state-level move; a consistent board stays consistent when the landing square is free |
| Boards.CopyIsIndependent | src/model/Board.java:22-34 | removing a piece from a copy empties the copy's square and leaves the original unchanged |
| Scenarios.SingleJumpScenario | test/model/BoardTest.java:196-224 | white 18 jumps black 15 to 11: 18 and 15 empty, 11 white, counter 0 |
| Scenarios.MultiJumpStart | test/model/BoardTest.java:227-250 | the list board for the multi-jump holds white on 26, black on 23, 15 and 6, nothing on 1, 19 and 10 |
| Scenarios.MultiJumpScenario | test/model/BoardTest.java:227-277 | white 26 jumps 23, 15 and 6 to 1: all four starting squares empty, 19 and 10 still empty, a white king on 1, counter 0 |
| Scenarios.SimpleMoveScenario | test/model/BoardTest.java:280-308 | black 12 to 16 on the opening board: 12 empty, 16 black, counter 1 |
| Scenarios.RemoveScenario | test/model/BoardTest.java:311-324 | removing 12 then 27 from the opening board gives 11 and 12, then 11 and 11 pawns |
| Scenarios.SetScenario | test/model/BoardTest.java:327-349 | black set on 13 stays a pawn; white set on 1 of an empty board is a king, counted as one |
| Scenarios.NoCaptureDrawScenario | test/model/BoardTest.java:179-187 | the opening board is not drawn; with 51 moves since a capture it is |

## Left out

- `Board.hashCode`: Java integer hash arithmetic with overflow. It adds nothing beyond equality.
- `getAdjacentSquares`, `getPieces` and `getSquares`: list plumbing over `getSquare`. `getAdjacentSquares` depends on `Square.getAdjacentPositions`, which is not part of this model.
- `getGameState` returns the board's own live square list (`src/model/Board.java:102-104`), not a copy. The model offers `State()`, a value.
- Live squares: `getSquare`, `getSquaresForPlayer` and `getSquaresThatMightBeOneJumpAway` hand out the board's own `Square` objects (`src/model/Board.java:147-149,160-170,181-194`). A caller can change a square through them without the counters being adjusted. The model returns `Square` values, so no caller can change the board except through its methods.
- Square internals (row and column arithmetic), `MoveValidator` and the move generator are not part of this model. `isOnBoard` becomes the 1..32 filter. The generator is a function parameter of `PlayerHasLost` and `IsEndState`.
- The promotion rule (`Squares.Landed`) is an assumption about the square's unseen `setOccupyingPiece`, as described above.
- Intermediate landing squares of a multi-jump: `movePiece` reads only the start, the end and the jumped positions, so `Move` carries only those.
- `Piece(PieceInterface)` copying the null piece: the model's copy constructor takes a `Piece`. A null piece is the `Empty` value, which is never copied into a piece.
- `Board.equals` against `null` or another class: the model compares two boards only. List equality of squares is modelled as equality of the occupant at each position.
- Piece object aliasing: a board stores piece values, not references to `Piece` objects. Crowning a `Piece` object after placing it does not reach the board in the model. `Boards.CopyIsIndependent` assumes that `new Square(square)` (`src/model/Board.java:26`), which is not part of this model, gives the copy its own piece rather than sharing the original's `Piece` object. If it shared it, crowning a piece on a search copy (`src/model/ai/AlphaBetaSearchNode.java:31-32`) would also crown it on the original board.
- The repetition table's mutable keys: the Java map is keyed by the live square list, whose hash changes as the board changes. The model keys it by the value of the squares at the time of recording.
- Java `int` overflow of the counters and the no-capture count: the model uses unbounded integers. At most 32 pieces exist, and 2^31 moves would be needed to overflow.
- `getSquare` on a position outside 1..32 throws an out-of-bounds exception in Java. The model requires an on-board position. `removePiece` on an empty square would call `getColor` on the null piece; the model requires an occupied square.
- `Boards.Board.SetOccupyingPiece` and `BoardState.SetOccupyingPiece` require `x.Occupied?`. Java accepts `setOccupyingPiece(p, NullPiece)` (`src/model/Board.java:307`) and then calls `getColor` on the null piece in `incrementPieceCount` (`src/model/Board.java:231-232`). `NullPiece` is not part of this model, so that call's outcome is unknown.
- `Pieces.Piece.IsSameColorAs`: `isSameColorAs` compares this piece's colour with `otherPiece.getColor()` (`src/model/Piece.java:37-40`). For the null piece, the model assumes that `NullPiece.getColor()` returns no colour, so the answer is false. `NullPiece` is not part of this model.
- `MovePiece` requires the move to be applicable (`BoardState.CanMove`): start occupied, end on the board, captured positions distinct occupied squares other than the start. A move the unseen generator would never produce is outside the model.
- The view, the controller and the search node that call the board are not part of this model.
