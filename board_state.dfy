/** The board's state as a value, and every board operation as a function
    from the state before to the state after. The `Board` class in module
    `Boards` is proved to follow these functions; the lemmas here state what
    the operations promise. */
module BoardState {
  import opened Pieces
  import opened Squares
  import opened Moves

  /** Non-capturing moves after which the game is drawn. */
  const DrawMoveLimit := 50

  /** Occurrences of one snapshot at which the game is drawn. */
  const RepetitionLimit := 4

  /** The whole board: the 32 squares (position p at index p - 1), the
      per-colour pawn and king counters, the no-capture move counter, the
      sticky repetition flag and the repetition table, which maps each board
      snapshot reached after a move to the number of times it was reached. */
  datatype State = State(
    squares: seq<PieceValue>,
    pawnCount: map<Color, int>,
    kingCount: map<Color, int>,
    movesSinceLastCapture: int,
    repeatedStateDraw: bool,
    stateCounter: map<seq<PieceValue>, int>)

  /** Exactly 32 squares, and a counter entry for each colour. */
  predicate WellFormed(st: State) {
    && |st.squares| == NumSquares
    && (forall c: Color :: c in st.pawnCount && c in st.kingCount)
  }

  /** The pawn counter (`king` false) or king counter (`king` true) of `c`. */
  function CountOf(st: State, c: Color, king: bool): (n: int)
    requires WellFormed(st)
    ensures king ==> n == st.kingCount[c]
    ensures !king ==> n == st.pawnCount[c]
  {
    if king then st.kingCount[c] else st.pawnCount[c]
  }

  /** All pieces of colour `c`, as the two counters say. */
  function Total(st: State, c: Color): (n: int)
    requires WellFormed(st)
    ensures n == st.pawnCount[c] + st.kingCount[c]
    ensures (forall king :: CountOf(st, c, king) == Tally(st.squares, c, king)) ==> n == |SquaresFor(st.squares, c)|
  {
    SquaresForCount(st.squares, c);
    CountOf(st, c, false) + CountOf(st, c, true)
  }

  /** A counter map with the entries `black` and `white`. */
  function ColorMap(black: int, white: int): (m: map<Color, int>)
    ensures forall c :: c in m && m[c] == if c == Black then black else white
  {
    var m := map[Black := black, White := white];
    assert forall c :: c in m && m[c] == if c == Black then black else white by {
      forall c ensures c in m && m[c] == if c == Black then black else white {
        ColorCases(c);
      }
    }
    m
  }

  // ---------------------------------------------------------------------
  // Counting the squares

  /** The number of squares of `s` holding exactly `Occupied(c, king)`. */
  function Tally(s: seq<PieceValue>, c: Color, king: bool): (n: nat)
    ensures n <= |s|
  {
    if s == [] then 0
    else Tally(s[..|s| - 1], c, king) + (if s[|s| - 1] == Occupied(c, king) then 1 else 0)
  }

  lemma {:induction false} TallyAppend(a: seq<PieceValue>, b: seq<PieceValue>, c: Color, king: bool)
    ensures Tally(a + b, c, king) == Tally(a, c, king) + Tally(b, c, king)
  {
    if b != [] {
      var ab := a + b;
      assert ab[..|ab| - 1] == a + b[..|b| - 1];
      TallyAppend(a, b[..|b| - 1], c, king);
    } else {
      assert a + b == a;
    }
  }

  /** Overwriting one square changes each tally by what left and what came. */
  lemma {:induction false} TallyUpdate(s: seq<PieceValue>, i: int, v: PieceValue, c: Color, king: bool)
    requires 0 <= i < |s|
    ensures Tally(s[i := v], c, king) ==
      Tally(s, c, king) - (if s[i] == Occupied(c, king) then 1 else 0) + (if v == Occupied(c, king) then 1 else 0)
  {
    var t := s[i := v];
    var n := |s| - 1;
    if i == n {
      assert t[..n] == s[..n];
    } else {
      assert t[..n] == s[..n][i := v];
      TallyUpdate(s[..n], i, v, c, king);
    }
  }

  /** The squares of `s` holding a piece of colour `c`, in ascending
      position order, each with its position (index + 1). */
  function SquaresFor(s: seq<PieceValue>, c: Color): (r: seq<Square>)
    ensures forall sq :: sq in r <==>
      (1 <= sq.position <= |s| && sq.piece == s[sq.position - 1] && sq.piece.Occupied? && sq.piece.color == c)
    ensures forall i, j :: 0 <= i < j < |r| ==> r[i].position < r[j].position
  {
    if s == [] then []
    else
      var x := s[|s| - 1];
      SquaresFor(s[..|s| - 1], c) + (if x.Occupied? && x.color == c then [Square(|s|, x)] else [])
  }

  /** The number of squares holding colour `c` is its pawns plus its kings. */
  lemma {:induction false} SquaresForCount(s: seq<PieceValue>, c: Color)
    ensures |SquaresFor(s, c)| == Tally(s, c, false) + Tally(s, c, true)
  {
    if s != [] {
      SquaresForCount(s[..|s| - 1], c);
    }
  }

  // ---------------------------------------------------------------------
  // The counter invariant

  /** Every counter equals the number of squares holding its colour and rank. */
  predicate CountsAgree(st: State)
    requires WellFormed(st)
  {
    forall c, king :: CountOf(st, c, king) == Tally(st.squares, c, king)
  }

  /** The repetition flag is set exactly when some snapshot has reached the
      repetition limit. */
  predicate DrawFlagAgrees(st: State) {
    st.repeatedStateDraw <==> exists k :: k in st.stateCounter && st.stateCounter[k] >= RepetitionLimit
  }

  /** With agreeing counters, a colour's total is the number of its squares. */
  lemma TotalIsOccupancy(st: State, c: Color)
    requires WellFormed(st) && CountsAgree(st)
    ensures Total(st, c) == |SquaresFor(st.squares, c)|
  {
    SquaresForCount(st.squares, c);
  }

  // ---------------------------------------------------------------------
  // Counter updates

  /** The counters after the piece `x` is added (`delta` 1) or taken away
      (`delta` -1): the counter for its colour and rank moves, no other. */
  function AdjustCount(st: State, x: PieceValue, delta: int): (r: State)
    requires WellFormed(st) && x.Occupied?
    ensures WellFormed(r)
    ensures forall c, king ::
      CountOf(r, c, king) == CountOf(st, c, king) + (if x == Occupied(c, king) then delta else 0)
    ensures r.squares == st.squares && r.movesSinceLastCapture == st.movesSinceLastCapture
    ensures r.repeatedStateDraw == st.repeatedStateDraw && r.stateCounter == st.stateCounter
  {
    if x.king then st.(kingCount := st.kingCount[x.color := st.kingCount[x.color] + delta])
    else st.(pawnCount := st.pawnCount[x.color := st.pawnCount[x.color] + delta])
  }

  /** Count one more of the piece now standing on `position`. */
  function IncrementPieceCount(st: State, position: int): (r: State)
    requires WellFormed(st) && IsOnBoard(position) && st.squares[position - 1].Occupied?
    ensures WellFormed(r)
    ensures forall c, king ::
      CountOf(r, c, king) == CountOf(st, c, king) + (if st.squares[position - 1] == Occupied(c, king) then 1 else 0)
    ensures r.squares == st.squares && r.movesSinceLastCapture == st.movesSinceLastCapture
    ensures r.repeatedStateDraw == st.repeatedStateDraw && r.stateCounter == st.stateCounter
  {
    AdjustCount(st, st.squares[position - 1], 1)
  }

  /** Count one fewer of the piece now standing on `position`. */
  function DecrementPieceCount(st: State, position: int): (r: State)
    requires WellFormed(st) && IsOnBoard(position) && st.squares[position - 1].Occupied?
    ensures WellFormed(r)
    ensures forall c, king ::
      CountOf(r, c, king) == CountOf(st, c, king) - (if st.squares[position - 1] == Occupied(c, king) then 1 else 0)
    ensures r.squares == st.squares && r.movesSinceLastCapture == st.movesSinceLastCapture
    ensures r.repeatedStateDraw == st.repeatedStateDraw && r.stateCounter == st.stateCounter
  {
    AdjustCount(st, st.squares[position - 1], -1)
  }

  // ---------------------------------------------------------------------
  // Placement and removal

  /** Empty the occupied square `position` and count its piece off. */
  function RemovePiece(st: State, position: int): (r: State)
    requires WellFormed(st) && IsOnBoard(position) && st.squares[position - 1].Occupied?
    ensures WellFormed(r)
    ensures r.squares[position - 1] == Empty
    ensures forall i :: 0 <= i < NumSquares && i != position - 1 ==> r.squares[i] == st.squares[i]
    ensures forall c, king ::
      CountOf(r, c, king) == CountOf(st, c, king) - (if st.squares[position - 1] == Occupied(c, king) then 1 else 0)
    ensures r.movesSinceLastCapture == st.movesSinceLastCapture
    ensures r.repeatedStateDraw == st.repeatedStateDraw && r.stateCounter == st.stateCounter
  {
    var counted := DecrementPieceCount(st, position);
    counted.(squares := counted.squares[position - 1 := Empty])
  }

  /** Put `x` on `position` (crowned if the square's rule says so) and count
      the piece the square now holds. Whatever stood there is overwritten
      without being counted off. */
  function SetOccupyingPiece(st: State, position: int, x: PieceValue): (r: State)
    requires WellFormed(st) && IsOnBoard(position) && x.Occupied?
    ensures WellFormed(r)
    ensures r.squares[position - 1] == Landed(position, x)
    ensures forall i :: 0 <= i < NumSquares && i != position - 1 ==> r.squares[i] == st.squares[i]
    ensures forall c, king ::
      CountOf(r, c, king) == CountOf(st, c, king) + (if Landed(position, x) == Occupied(c, king) then 1 else 0)
    ensures r.movesSinceLastCapture == st.movesSinceLastCapture
    ensures r.repeatedStateDraw == st.repeatedStateDraw && r.stateCounter == st.stateCounter
  {
    var placed := st.(squares := st.squares[position - 1 := Landed(position, x)]);
    IncrementPieceCount(placed, position)
  }

  /** Removing a piece keeps the counters in step with the squares. */
  lemma RemoveKeepsCountsAgree(st: State, position: int)
    requires WellFormed(st) && IsOnBoard(position) && st.squares[position - 1].Occupied?
    requires CountsAgree(st)
    ensures CountsAgree(RemovePiece(st, position))
  {
    var r := RemovePiece(st, position);
    assert r.squares == st.squares[position - 1 := Empty];
    forall c, king ensures CountOf(r, c, king) == Tally(r.squares, c, king) {
      TallyUpdate(st.squares, position - 1, Empty, c, king);
    }
  }

  /** Placing a piece on an empty square keeps the counters in step. */
  lemma SetKeepsCountsAgree(st: State, position: int, x: PieceValue)
    requires WellFormed(st) && IsOnBoard(position) && x.Occupied?
    requires CountsAgree(st) && st.squares[position - 1] == Empty
    ensures CountsAgree(SetOccupyingPiece(st, position, x))
  {
    var r := SetOccupyingPiece(st, position, x);
    assert r.squares == st.squares[position - 1 := Landed(position, x)];
    forall c, king ensures CountOf(r, c, king) == Tally(r.squares, c, king) {
      TallyUpdate(st.squares, position - 1, Landed(position, x), c, king);
    }
  }

  /** Placing a piece on an occupied square puts the counters out of step:
      the piece overwritten is never counted off. */
  lemma DoublePlacementBreaksCounts(st: State, position: int, x: PieceValue)
    requires WellFormed(st) && IsOnBoard(position) && x.Occupied?
    requires CountsAgree(st) && st.squares[position - 1].Occupied?
    ensures !CountsAgree(SetOccupyingPiece(st, position, x))
  {
    var r := SetOccupyingPiece(st, position, x);
    var y := st.squares[position - 1];
    assert r.squares == st.squares[position - 1 := Landed(position, x)];
    TallyUpdate(st.squares, position - 1, Landed(position, x), y.color, y.king);
    assert CountOf(r, y.color, y.king) != Tally(r.squares, y.color, y.king);
  }

  // ---------------------------------------------------------------------
  // Recounting

  /** The counters recomputed from the squares; nothing else changes. */
  function Recount(st: State): (r: State)
    requires WellFormed(st)
    ensures WellFormed(r)
    ensures r.squares == st.squares && r.movesSinceLastCapture == st.movesSinceLastCapture
    ensures r.repeatedStateDraw == st.repeatedStateDraw && r.stateCounter == st.stateCounter
  {
    var s := st.squares;
    st.(pawnCount := ColorMap(Tally(s, Black, false), Tally(s, White, false)),
        kingCount := ColorMap(Tally(s, Black, true), Tally(s, White, true)))
  }

  /** A recount puts the counters in step with the squares, whatever the
      counters were before. */
  lemma RecountAgrees(st: State)
    requires WellFormed(st)
    ensures CountsAgree(Recount(st))
  {
    forall c, king ensures CountOf(Recount(st), c, king) == Tally(st.squares, c, king) {
      ColorCases(c);
    }
  }

  /** On counters that already agree, a recount changes nothing. */
  lemma RecountFixesAgreeing(st: State)
    requires WellFormed(st) && CountsAgree(st)
    ensures Recount(st) == st
  {
    var r := Recount(st);
    assert r.pawnCount == st.pawnCount by {
      assert forall c :: c in r.pawnCount ==> r.pawnCount[c] == st.pawnCount[c];
    }
    assert r.kingCount == st.kingCount by {
      assert forall c :: c in r.kingCount ==> r.kingCount[c] == st.kingCount[c];
    }
  }

  // ---------------------------------------------------------------------
  // Moves

  /** `ps` can be removed one after another: on the board, each occupied,
      no position twice. */
  predicate Removable(s: seq<PieceValue>, ps: seq<int>)
    requires |s| == NumSquares
  {
    && (forall i :: 0 <= i < |ps| ==> IsOnBoard(ps[i]) && s[ps[i] - 1].Occupied?)
    && (forall i, j :: 0 <= i < j < |ps| ==> ps[i] != ps[j])
  }

  /** Splitting off the last of a list of removable positions: the front
      is removable and does not hold the last. */
  lemma SplitLast(s: seq<PieceValue>, ps: seq<int>)
    requires |s| == NumSquares && ps != [] && Removable(s, ps)
    ensures Removable(s, ps[..|ps| - 1])
    ensures IsOnBoard(ps[|ps| - 1]) && s[ps[|ps| - 1] - 1].Occupied?
    ensures ps[|ps| - 1] !in ps[..|ps| - 1]
    ensures forall q :: q in ps <==> q in ps[..|ps| - 1] || q == ps[|ps| - 1]
  {
    var front, last := ps[..|ps| - 1], ps[|ps| - 1];
    assert ps == front + [last];
    forall i | 0 <= i < |front| ensures front[i] != last {
      assert front[i] == ps[i];
    }
  }

  /** Remove the pieces on `ps`, in order. */
  function RemoveAll(st: State, ps: seq<int>): (r: State)
    requires WellFormed(st) && Removable(st.squares, ps)
    ensures WellFormed(r)
    ensures forall i :: 0 <= i < NumSquares ==> r.squares[i] == if i + 1 in ps then Empty else st.squares[i]
    ensures r.movesSinceLastCapture == st.movesSinceLastCapture
    ensures r.repeatedStateDraw == st.repeatedStateDraw && r.stateCounter == st.stateCounter
    decreases |ps|
  {
    if ps == [] then st
    else
      SplitLast(st.squares, ps);
      RemovePiece(RemoveAll(st, ps[..|ps| - 1]), ps[|ps| - 1])
  }

  /** One step of removing `ps` in order: the first `k + 1` positions are
      removed by removing the first `k`, then position `k`. */
  lemma RemoveAllStep(st: State, ps: seq<int>, k: int)
    requires WellFormed(st) && Removable(st.squares, ps) && 0 <= k < |ps|
    ensures Removable(st.squares, ps[..k]) && Removable(st.squares, ps[..k + 1])
    ensures IsOnBoard(ps[k]) && RemoveAll(st, ps[..k]).squares[ps[k] - 1].Occupied?
    ensures RemoveAll(st, ps[..k + 1]) == RemovePiece(RemoveAll(st, ps[..k]), ps[k])
  {
    var front := ps[..k + 1];
    PrefixRemovable(st.squares, ps, k + 1);
    SplitLast(st.squares, front);
    assert front[..k] == ps[..k] && front[k] == ps[k];
    var before := RemoveAll(st, ps[..k]);
    assert before.squares[ps[k] - 1] == st.squares[ps[k] - 1];
  }

  /** Any prefix of a removable list is removable. */
  lemma PrefixRemovable(s: seq<PieceValue>, ps: seq<int>, n: int)
    requires |s| == NumSquares && Removable(s, ps) && 0 <= n <= |ps|
    ensures Removable(s, ps[..n])
  {
    var front := ps[..n];
    forall i | 0 <= i < n ensures IsOnBoard(front[i]) && s[front[i] - 1].Occupied? {
      assert front[i] == ps[i];
    }
    forall i, j | 0 <= i < j < n ensures front[i] != front[j] {
      assert front[i] == ps[i] && front[j] == ps[j];
    }
  }

  /** Removing several pieces keeps the counters in step. */
  lemma {:induction false} RemoveAllKeepsCountsAgree(st: State, ps: seq<int>)
    requires WellFormed(st) && Removable(st.squares, ps) && CountsAgree(st)
    ensures CountsAgree(RemoveAll(st, ps))
    decreases |ps|
  {
    if ps != [] {
      var front, last := ps[..|ps| - 1], ps[|ps| - 1];
      SplitLast(st.squares, ps);
      RemoveAllKeepsCountsAgree(st, front);
      RemoveKeepsCountsAgree(RemoveAll(st, front), last);
    }
  }

  /** What a caller must ensure before a move: the start is an occupied
      square, the end is on the board, and a jump's captures can be removed
      one by one after the start has been emptied. */
  function CanMove(st: State, m: Move): (ok: bool)
    requires WellFormed(st)
    ensures ok ==> IsOnBoard(m.start) && IsOnBoard(m.end) && st.squares[m.start - 1].Occupied?
    ensures ok && m.IsJump() ==>
      forall q :: q in m.Captured() ==> IsOnBoard(q) && q != m.start && st.squares[q - 1].Occupied?
  {
    && IsOnBoard(m.start) && st.squares[m.start - 1].Occupied?
    && IsOnBoard(m.end)
    && (m.IsJump() ==> Removable(st.squares, m.Captured()) && m.start !in m.Captured())
  }

  /** The square the piece lands on is free once the start has been emptied
      and the captures removed. */
  predicate LandingFree(st: State, m: Move)
    requires WellFormed(st) && IsOnBoard(m.end)
  {
    m.end == m.start || st.squares[m.end - 1] == Empty || (m.IsJump() && m.end in m.Captured())
  }

  /** Emptying the start square leaves a jump's captures removable. */
  lemma LiftedRemovable(st: State, m: Move)
    requires WellFormed(st) && CanMove(st, m) && m.IsJump()
    ensures Removable(RemovePiece(st, m.start).squares, m.Captured())
  {
    var lifted := RemovePiece(st, m.start);
    forall i | 0 <= i < |m.Captured()|
      ensures lifted.squares[m.Captured()[i] - 1] == st.squares[m.Captured()[i] - 1]
    {
      assert m.Captured()[i] in m.Captured();
    }
  }

  /** The first half of a move: the piece is picked up from the start, a
      jump removes its captures and resets the no-capture counter, a simple
      move adds one to it. */
  function Cleared(st: State, m: Move): (r: State)
    requires WellFormed(st) && CanMove(st, m)
    ensures WellFormed(r)
    ensures forall i :: 0 <= i < NumSquares ==>
      r.squares[i] == if i + 1 == m.start || (m.IsJump() && i + 1 in m.Captured()) then Empty else st.squares[i]
    ensures r.movesSinceLastCapture == if m.IsJump() then 0 else st.movesSinceLastCapture + 1
    ensures r.repeatedStateDraw == st.repeatedStateDraw && r.stateCounter == st.stateCounter
  {
    var lifted := RemovePiece(st, m.start);
    if m.IsJump() then
      LiftedRemovable(st, m);
      RemoveAll(lifted.(movesSinceLastCapture := 0), m.Captured())
    else
      lifted.(movesSinceLastCapture := st.movesSinceLastCapture + 1)
  }

  /** Picking up and capturing keep the counters in step. */
  lemma ClearedKeepsCountsAgree(st: State, m: Move)
    requires WellFormed(st) && CanMove(st, m) && CountsAgree(st)
    ensures CountsAgree(Cleared(st, m))
  {
    var lifted := RemovePiece(st, m.start);
    RemoveKeepsCountsAgree(st, m.start);
    if m.IsJump() {
      LiftedRemovable(st, m);
      RemoveAllKeepsCountsAgree(lifted.(movesSinceLastCapture := 0), m.Captured());
    }
  }

  /** The board after the moved piece has been put down on the end square,
      before the snapshot is recorded. */
  function Placed(st: State, m: Move): (r: State)
    requires WellFormed(st) && CanMove(st, m)
    ensures WellFormed(r)
    ensures r.squares[m.end - 1] == Landed(m.end, st.squares[m.start - 1])
    ensures forall i :: 0 <= i < NumSquares && i != m.end - 1 ==> r.squares[i] == Cleared(st, m).squares[i]
    ensures r.movesSinceLastCapture == if m.IsJump() then 0 else st.movesSinceLastCapture + 1
    ensures r.repeatedStateDraw == st.repeatedStateDraw && r.stateCounter == st.stateCounter
  {
    SetOccupyingPiece(Cleared(st, m), m.end, st.squares[m.start - 1])
  }

  /** A whole move: pick up, capture, put down, record the snapshot. */
  function MovePiece(st: State, m: Move): (r: State)
    requires WellFormed(st) && CanMove(st, m)
    ensures WellFormed(r)
    ensures r.squares == Placed(st, m).squares
    ensures r.pawnCount == Placed(st, m).pawnCount && r.kingCount == Placed(st, m).kingCount
    ensures r.movesSinceLastCapture == if m.IsJump() then 0 else st.movesSinceLastCapture + 1
    ensures r.squares in r.stateCounter
    ensures r.stateCounter[r.squares] == if r.squares in st.stateCounter then st.stateCounter[r.squares] + 1 else 1
    ensures r.repeatedStateDraw <==> st.repeatedStateDraw || r.stateCounter[r.squares] >= RepetitionLimit
  {
    UpdateStateCounter(Placed(st, m))
  }

  /** What a move does to the squares and the no-capture counter: the start
      and every capture are emptied, the end holds the moved piece (its colour
      kept, crowned if it landed on its far row), nothing else changes; a jump
      resets the counter and a simple move adds one. A set repetition flag
      stays set. */
  lemma MoveEffect(st: State, m: Move)
    requires WellFormed(st) && CanMove(st, m)
    ensures var r := MovePiece(st, m);
      && r.squares[m.end - 1] == Landed(m.end, st.squares[m.start - 1])
      && r.squares[m.end - 1].color == st.squares[m.start - 1].color
      && (m.start != m.end ==> r.squares[m.start - 1] == Empty)
      && (m.IsJump() ==> forall q :: q in m.Captured() && q != m.end ==> r.squares[q - 1] == Empty)
      && (forall i ::
           (0 <= i < NumSquares && i + 1 != m.start && i + 1 != m.end && !(m.IsJump() && i + 1 in m.Captured()))
           ==> r.squares[i] == st.squares[i])
      && r.movesSinceLastCapture == (if m.IsJump() then 0 else st.movesSinceLastCapture + 1)
      && (st.repeatedStateDraw ==> r.repeatedStateDraw)
  {
    assert MovePiece(st, m).squares == Placed(st, m).squares;
    if m.IsJump() {
      CapturesEmptied(st, m);
    }
  }

  /** After a jump is put down, every capture other than the end square is
      empty. */
  lemma CapturesEmptied(st: State, m: Move)
    requires WellFormed(st) && CanMove(st, m) && m.IsJump()
    ensures forall q :: q in m.Captured() && q != m.end ==> Placed(st, m).squares[q - 1] == Empty
  {
    var c := Cleared(st, m);
    forall q | q in m.Captured() && q != m.end ensures Placed(st, m).squares[q - 1] == Empty {
      assert IsOnBoard(q) by {
        var i :| 0 <= i < |m.Captured()| && m.Captured()[i] == q;
      }
      assert c.squares[q - 1] == Empty;
    }
  }

  /** A king stays a king through a move, wherever it lands. */
  lemma MoveKeepsKing(st: State, m: Move)
    requires WellFormed(st) && CanMove(st, m) && st.squares[m.start - 1].IsKing()
    ensures MovePiece(st, m).squares[m.end - 1] == st.squares[m.start - 1]
  {
    MoveEffect(st, m);
    LandedKeepsKing(m.end, st.squares[m.start - 1]);
  }

  /** Counters agreeing with the squares is a matter of the squares and the
      counters alone. */
  lemma SameCountsAgree(a: State, b: State)
    requires WellFormed(a) && WellFormed(b) && CountsAgree(a)
    requires a.squares == b.squares && a.pawnCount == b.pawnCount && a.kingCount == b.kingCount
    ensures CountsAgree(b)
  {
  }

  /** A free landing square is empty once the start and the captures have
      been cleared. */
  lemma ClearedLandingEmpty(st: State, m: Move)
    requires WellFormed(st) && CanMove(st, m) && LandingFree(st, m)
    ensures Cleared(st, m).squares[m.end - 1] == Empty
  {
    var i := m.end - 1;
    assert Cleared(st, m).squares[i] ==
      if i + 1 == m.start || (m.IsJump() && i + 1 in m.Captured()) then Empty else st.squares[i];
  }

  /** Putting the piece down on a free landing square keeps the counters in
      step. */
  lemma PlacedKeepsCountsAgree(st: State, m: Move)
    requires WellFormed(st) && CanMove(st, m) && CountsAgree(st) && LandingFree(st, m)
    ensures CountsAgree(Placed(st, m))
  {
    var cleared, x := Cleared(st, m), st.squares[m.start - 1];
    assert CountsAgree(cleared) && cleared.squares[m.end - 1] == Empty by {
      ClearedKeepsCountsAgree(st, m);
      ClearedLandingEmpty(st, m);
    }
    SetKeepsCountsAgree(cleared, m.end, x);
  }

  /** A move whose landing square is free keeps the counters in step. */
  lemma MoveKeepsCountsAgree(st: State, m: Move)
    requires WellFormed(st) && CanMove(st, m) && CountsAgree(st) && LandingFree(st, m)
    ensures CountsAgree(MovePiece(st, m))
  {
    PlacedKeepsCountsAgree(st, m);
    SameCountsAgree(Placed(st, m), MovePiece(st, m));
  }

  // ---------------------------------------------------------------------
  // Repetition and draws

  /** Record the current snapshot in the repetition table; the flag is set
      once the snapshot's count reaches the repetition limit. */
  function UpdateStateCounter(st: State): (r: State)
    ensures r.squares == st.squares && r.pawnCount == st.pawnCount && r.kingCount == st.kingCount
    ensures r.movesSinceLastCapture == st.movesSinceLastCapture
    ensures r.stateCounter.Keys == st.stateCounter.Keys + {st.squares}
    ensures r.stateCounter[st.squares] ==
      if st.squares in st.stateCounter then st.stateCounter[st.squares] + 1 else 1
    ensures forall k :: k in st.stateCounter && k != st.squares ==> r.stateCounter[k] == st.stateCounter[k]
    ensures r.repeatedStateDraw <==> st.repeatedStateDraw || r.stateCounter[st.squares] >= RepetitionLimit
  {
    var key := st.squares;
    if key !in st.stateCounter then
      st.(stateCounter := st.stateCounter[key := 1])
    else
      var count := st.stateCounter[key] + 1;
      st.(stateCounter := st.stateCounter[key := count],
          repeatedStateDraw := if count >= RepetitionLimit then true else st.repeatedStateDraw)
  }

  /** Recording a snapshot keeps the flag equal to "some snapshot reached
      the limit". */
  lemma UpdateKeepsDrawFlagAgrees(st: State)
    requires DrawFlagAgrees(st)
    ensures DrawFlagAgrees(UpdateStateCounter(st))
  {
    var r := UpdateStateCounter(st);
    if st.repeatedStateDraw {
      var k :| k in st.stateCounter && st.stateCounter[k] >= RepetitionLimit;
      assert k in r.stateCounter && r.stateCounter[k] >= RepetitionLimit;
    } else if r.repeatedStateDraw {
      assert st.squares in r.stateCounter;
    } else {
      forall k | k in r.stateCounter ensures r.stateCounter[k] < RepetitionLimit {
        if k != st.squares {
          assert k in st.stateCounter;
        }
      }
    }
  }

  /** A move keeps the flag in agreement with the repetition table. */
  lemma MoveKeepsDrawFlagAgrees(st: State, m: Move)
    requires WellFormed(st) && CanMove(st, m) && DrawFlagAgrees(st)
    ensures DrawFlagAgrees(MovePiece(st, m))
  {
    UpdateKeepsDrawFlagAgrees(Placed(st, m));
  }

  /** Drawn: repetition flag set, or at least 50 moves without a capture. */
  function IsDrawState(st: State): (r: bool)
    ensures st.repeatedStateDraw ==> r
    ensures st.movesSinceLastCapture >= DrawMoveLimit ==> r
    ensures r && !st.repeatedStateDraw ==> st.movesSinceLastCapture >= DrawMoveLimit
  {
    st.repeatedStateDraw || st.movesSinceLastCapture >= DrawMoveLimit
  }

  /** A drawn game stays drawn through any move that captures nothing. */
  lemma DrawPersistsWithoutCapture(st: State, m: Move)
    requires WellFormed(st) && CanMove(st, m) && !m.IsJump()
    requires IsDrawState(st)
    ensures IsDrawState(MovePiece(st, m))
  {
    MoveEffect(st, m);
  }

  /** A move that reaches a snapshot for the fourth time draws the game,
      whatever the no-capture counter says. */
  lemma FourthRepetitionDraws(st: State, m: Move)
    requires WellFormed(st) && CanMove(st, m)
    requires Placed(st, m).squares in st.stateCounter
    requires st.stateCounter[Placed(st, m).squares] == RepetitionLimit - 1
    ensures MovePiece(st, m).repeatedStateDraw && IsDrawState(MovePiece(st, m))
  {
  }

  /** A set repetition flag survives every later move, captures included. */
  lemma RepetitionDrawIsSticky(st: State, m: Move)
    requires WellFormed(st) && CanMove(st, m) && st.repeatedStateDraw
    ensures IsDrawState(MovePiece(st, m))
  {
  }

  /** Lost: out of pieces by the counters, or no legal move. The move
      generator is a parameter: it maps a snapshot and a colour to the set of
      legal moves. */
  function PlayerHasLost(st: State, c: Color, generator: (seq<PieceValue>, Color) -> set<Move>): (r: bool)
    requires WellFormed(st)
    ensures Total(st, c) == 0 ==> r
    ensures Total(st, c) != 0 ==> (r <==> generator(st.squares, c) == {})
  {
    Total(st, c) == 0 || generator(st.squares, c) == {}
  }

  /** The game is over for `c`: `c` has lost or the game is drawn. */
  function IsEndState(st: State, c: Color, generator: (seq<PieceValue>, Color) -> set<Move>): (r: bool)
    requires WellFormed(st)
    ensures IsDrawState(st) ==> r
    ensures !IsDrawState(st) ==> (r <==> PlayerHasLost(st, c, generator))
  {
    PlayerHasLost(st, c, generator) || IsDrawState(st)
  }

  /** With agreeing counters, a colour with no squares has lost whatever
      the generator says, and a colour with squares has lost only when it
      has no move. */
  lemma LostWhenNoSquares(st: State, c: Color, generator: (seq<PieceValue>, Color) -> set<Move>)
    requires WellFormed(st) && CountsAgree(st)
    ensures SquaresFor(st.squares, c) == [] ==> PlayerHasLost(st, c, generator)
    ensures SquaresFor(st.squares, c) != [] ==>
      (PlayerHasLost(st, c, generator) <==> generator(st.squares, c) == {})
  {
    TotalIsOccupancy(st, c);
  }

  // ---------------------------------------------------------------------
  // Construction, copying and equality

  /** The opening occupant of a position: black on 1..12, white on 21..32. */
  function StartingPiece(position: int): (x: PieceValue)
    ensures !x.IsKing()
    ensures IsOnBoard(position) ==>
      && (x.IsBlack() <==> position <= 12)
      && (x.IsNull() <==> 13 <= position <= 20)
      && (x.IsWhite() <==> 21 <= position)
  {
    if position <= 12 then Occupied(Black, false)
    else if 12 < position < 21 then Empty
    else Occupied(White, false)
  }

  /** The standard opening board: 12 black and 12 white pawns, no kings. */
  function Standard(): (r: State)
    ensures |r.squares| == NumSquares
    ensures forall i :: 0 <= i < NumSquares ==> r.squares[i] == StartingPiece(i + 1)
    ensures r.movesSinceLastCapture == 0 && !r.repeatedStateDraw && r.stateCounter == map[]
  {
    State(seq(NumSquares, i => StartingPiece(i + 1)), ColorMap(12, 12), ColorMap(0, 0), 0, false, map[])
  }

  function Repeat(x: PieceValue, n: nat): (r: seq<PieceValue>)
    ensures |r| == n && forall i :: 0 <= i < n ==> r[i] == x
  {
    seq(n, _ => x)
  }

  lemma {:induction false} TallyRepeat(x: PieceValue, n: nat, c: Color, king: bool)
    ensures Tally(Repeat(x, n), c, king) == if x == Occupied(c, king) then n else 0
  {
    if n > 0 {
      assert Repeat(x, n)[..n - 1] == Repeat(x, n - 1);
      TallyRepeat(x, n - 1, c, king);
    }
  }

  /** A board with no pieces and all counters zero has agreeing counters. */
  lemma EmptyBoard(st: State)
    requires st.squares == Repeat(Empty, NumSquares)
    requires st.pawnCount == ColorMap(0, 0) && st.kingCount == ColorMap(0, 0)
    ensures WellFormed(st) && CountsAgree(st)
  {
    forall c, king ensures CountOf(st, c, king) == Tally(st.squares, c, king) {
      ColorCases(c);
      TallyRepeat(Empty, NumSquares, c, king);
    }
  }

  /** The opening board: black pawns on 1..12, empty 13..20, white pawns
      on 21..32, counters 12 and 12 pawns and no kings, in step with the
      squares, and not drawn. */
  lemma StandardBoard()
    ensures WellFormed(Standard()) && CountsAgree(Standard()) && DrawFlagAgrees(Standard())
    ensures forall i :: 0 <= i < 12 ==> Standard().squares[i] == Occupied(Black, false)
    ensures forall i :: 12 <= i < 20 ==> Standard().squares[i] == Empty
    ensures forall i :: 20 <= i < 32 ==> Standard().squares[i] == Occupied(White, false)
    ensures forall c :: CountOf(Standard(), c, false) == 12 && CountOf(Standard(), c, true) == 0
    ensures Total(Standard(), Black) == 12 && Total(Standard(), White) == 12
    ensures !IsDrawState(Standard())
  {
    var s := Standard().squares;
    var b, e, w := Repeat(Occupied(Black, false), 12), Repeat(Empty, 8), Repeat(Occupied(White, false), 12);
    assert s == b + e + w;
    forall c, king ensures CountOf(Standard(), c, king) == Tally(s, c, king) {
      ColorCases(c);
      TallyAppend(b + e, w, c, king);
      TallyAppend(b, e, c, king);
      TallyRepeat(Occupied(Black, false), 12, c, king);
      TallyRepeat(Empty, 8, c, king);
      TallyRepeat(Occupied(White, false), 12, c, king);
    }
  }

  /** The occupant the list constructor gives a position: black if listed
      as black (even if also listed as white), else white if listed as white,
      else empty; each placed piece goes through the square's landing rule. */
  function ListPiece(position: int, blackPositions: seq<int>, whitePositions: seq<int>): (x: PieceValue)
    ensures x.IsBlack() <==> position in blackPositions
    ensures x.IsWhite() <==> position !in blackPositions && position in whitePositions
    ensures x.IsNull() <==> position !in blackPositions && position !in whitePositions
    ensures x.IsKing() <==> x.Occupied? && IsKingRow(position, x.color)
  {
    if position in blackPositions then Landed(position, Occupied(Black, false))
    else if position in whitePositions then Landed(position, Occupied(White, false))
    else Empty
  }

  /** The board built from explicit position lists: counters counted from
      the pieces placed, nothing recorded yet. */
  function FromPositions(blackPositions: seq<int>, whitePositions: seq<int>): (r: State)
    ensures WellFormed(r)
    ensures forall i :: 0 <= i < NumSquares ==> r.squares[i] == ListPiece(i + 1, blackPositions, whitePositions)
    ensures r.movesSinceLastCapture == 0 && !r.repeatedStateDraw && r.stateCounter == map[]
  {
    Recount(State(seq(NumSquares, i => ListPiece(i + 1, blackPositions, whitePositions)),
                  ColorMap(0, 0), ColorMap(0, 0), 0, false, map[]))
  }

  /** The list board holds black exactly on the black positions, white on
      the white positions not listed as black, and nothing elsewhere; a
      piece is a king only on its far row. */
  lemma FromPositionsBoard(blackPositions: seq<int>, whitePositions: seq<int>, p: int)
    requires IsOnBoard(p)
    ensures var x := FromPositions(blackPositions, whitePositions).squares[p - 1];
      && (x.IsBlack() <==> p in blackPositions)
      && (x.IsWhite() <==> p !in blackPositions && p in whitePositions)
      && (x.IsNull() <==> p !in blackPositions && p !in whitePositions)
      && (x.IsKing() <==> x.Occupied? && IsKingRow(p, x.color))
    ensures CountsAgree(FromPositions(blackPositions, whitePositions))
    ensures DrawFlagAgrees(FromPositions(blackPositions, whitePositions))
    ensures !IsDrawState(FromPositions(blackPositions, whitePositions))
  {
    RecountAgrees(State(seq(NumSquares, i => ListPiece(i + 1, blackPositions, whitePositions)),
                        ColorMap(0, 0), ColorMap(0, 0), 0, false, map[]));
  }

  /** The list constructor part-way: positions below `position` hold their
      `ListPiece`, the rest are empty, the counters agree, nothing is
      recorded. */
  predicate ListedUpTo(st: State, position: int, blackPositions: seq<int>, whitePositions: seq<int>) {
    && WellFormed(st) && CountsAgree(st)
    && st.movesSinceLastCapture == 0 && !st.repeatedStateDraw && st.stateCounter == map[]
    && forall j :: 0 <= j < NumSquares ==>
         st.squares[j] == if j + 1 < position then ListPiece(j + 1, blackPositions, whitePositions) else Empty
  }

  /** One round of the list constructor: a black pawn if the position is
      listed as black, else a white pawn if listed as white. */
  function ListStep(st: State, position: int, blackPositions: seq<int>, whitePositions: seq<int>): (r: State)
    requires WellFormed(st) && IsOnBoard(position)
    ensures WellFormed(r)
    ensures ListPiece(position, blackPositions, whitePositions).IsNull() ==> r == st
    ensures ListPiece(position, blackPositions, whitePositions).Occupied? ==>
      r.squares == st.squares[position - 1 := ListPiece(position, blackPositions, whitePositions)]
    ensures forall c, king ::
      CountOf(r, c, king) ==
        CountOf(st, c, king) + (if ListPiece(position, blackPositions, whitePositions) == Occupied(c, king) then 1 else 0)
    ensures r.movesSinceLastCapture == st.movesSinceLastCapture
    ensures r.repeatedStateDraw == st.repeatedStateDraw && r.stateCounter == st.stateCounter
  {
    if position in blackPositions then SetOccupyingPiece(st, position, Occupied(Black, false))
    else if position in whitePositions then SetOccupyingPiece(st, position, Occupied(White, false))
    else st
  }

  /** Each round fills one more position and keeps the counters in step. */
  lemma ListStepKeeps(st: State, position: int, blackPositions: seq<int>, whitePositions: seq<int>)
    requires IsOnBoard(position) && ListedUpTo(st, position, blackPositions, whitePositions)
    ensures ListedUpTo(ListStep(st, position, blackPositions, whitePositions), position + 1, blackPositions, whitePositions)
  {
    if position in blackPositions {
      SetKeepsCountsAgree(st, position, Occupied(Black, false));
    } else if position in whitePositions {
      SetKeepsCountsAgree(st, position, Occupied(White, false));
    }
  }

  /** The empty start of the list constructor. */
  lemma ListedFromEmpty(st: State, blackPositions: seq<int>, whitePositions: seq<int>)
    requires st.squares == Repeat(Empty, NumSquares)
    requires st.pawnCount == ColorMap(0, 0) && st.kingCount == ColorMap(0, 0)
    requires st.movesSinceLastCapture == 0 && !st.repeatedStateDraw && st.stateCounter == map[]
    ensures ListedUpTo(st, 1, blackPositions, whitePositions)
  {
    EmptyBoard(st);
  }

  /** Once every position is filled, the result is the list board. */
  lemma ListedIsFromPositions(st: State, blackPositions: seq<int>, whitePositions: seq<int>)
    requires ListedUpTo(st, NumSquares + 1, blackPositions, whitePositions)
    ensures st == FromPositions(blackPositions, whitePositions)
  {
    assert st.squares == FromPositions(blackPositions, whitePositions).squares;
    RecountFixesAgreeing(st);
  }

  /** The deep copy: same squares and counters, a fresh no-capture counter
      and an empty repetition history. */
  function CopyOf(st: State): (r: State)
    ensures r.squares == st.squares && r.pawnCount == st.pawnCount && r.kingCount == st.kingCount
    ensures r.movesSinceLastCapture == 0 && !r.repeatedStateDraw && r.stateCounter == map[]
  {
    State(st.squares, st.pawnCount, st.kingCount, 0, false, map[])
  }

  /** Board equality: the same occupant on every square and the same total
      per colour. */
  function Equal(a: State, b: State): (r: bool)
    requires WellFormed(a) && WellFormed(b)
    ensures r ==> a.squares == b.squares
    ensures a == b ==> r
  {
    a.squares == b.squares && Total(a, Black) == Total(b, Black) && Total(a, White) == Total(b, White)
  }

  /** The copy equals the original, keeps its invariants, and is not drawn
      even where the original was. */
  lemma CopyIsEqual(st: State)
    requires WellFormed(st)
    ensures WellFormed(CopyOf(st)) && Equal(CopyOf(st), st) && Equal(st, CopyOf(st))
    ensures CountsAgree(st) ==> CountsAgree(CopyOf(st))
    ensures DrawFlagAgrees(CopyOf(st)) && !IsDrawState(CopyOf(st))
  {
  }

  /** On boards whose counters agree, the totals add nothing: equality is
      equality of the squares. */
  lemma EqualIsSameSquares(a: State, b: State)
    requires WellFormed(a) && WellFormed(b) && CountsAgree(a) && CountsAgree(b)
    ensures Equal(a, b) <==> a.squares == b.squares
  {
  }

  /** Equality is reflexive, symmetric and transitive. */
  lemma EqualIsEquivalence(a: State, b: State, c: State)
    requires WellFormed(a) && WellFormed(b) && WellFormed(c)
    ensures Equal(a, a)
    ensures Equal(a, b) ==> Equal(b, a)
    ensures Equal(a, b) && Equal(b, c) ==> Equal(a, c)
  {
  }
}
