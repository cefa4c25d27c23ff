/** The 32 playable squares, numbered 1..32, and the two rules the board
    takes from its squares: which numbers are on the board, and how a piece
    placed on a square may be crowned. */
module Squares {
  import opened Pieces

  const NumSquares := 32

  /** A square as the board hands it out: its number and its occupant. */
  datatype Square = Square(position: int, piece: PieceValue)

  /** The on-board filter: exactly the numbers 1..32. */
  function IsOnBoard(position: int): (r: bool)
    ensures r ==> 0 <= position - 1 < NumSquares
    ensures !r ==> position < 1 || NumSquares < position
  {
    1 <= position <= NumSquares
  }

  /** The far row of each colour: black starts on 1..12 and is crowned on
      29..32, white starts on 21..32 and is crowned on 1..4. */
  predicate IsKingRow(position: int, c: Color) {
    if c == White then 1 <= position <= 4 else 29 <= position <= 32
  }

  /** What a square stores when `x` is placed on it: the piece itself,
      crowned if the square is on the far row for its colour. */
  function Landed(position: int, x: PieceValue): (r: PieceValue)
    ensures r.Occupied? == x.Occupied?
    ensures x.Occupied? ==> r.color == x.color
    ensures x.Occupied? ==> (r.king <==> x.king || IsKingRow(position, x.color))
  {
    if x.Occupied? && IsKingRow(position, x.color) then x.Kinged() else x
  }

  /** A crowned piece stays crowned wherever it is placed. */
  lemma LandedKeepsKing(position: int, x: PieceValue)
    requires x.IsKing()
    ensures Landed(position, x) == x
  {
  }

  /** The numbers of `ps` that are on the board, in their original order. */
  function OnBoardOnly(ps: seq<int>): (r: seq<int>)
    ensures |r| <= |ps|
    ensures forall q :: q in r <==> q in ps && IsOnBoard(q)
  {
    if ps == [] then []
    else
      var last := ps[|ps| - 1];
      OnBoardOnly(ps[..|ps| - 1]) + (if IsOnBoard(last) then [last] else [])
  }

  /** `x` occurs in `ps` before `y` does. */
  ghost predicate Precedes(ps: seq<int>, x: int, y: int) {
    exists a, b :: 0 <= a < b < |ps| && ps[a] == x && ps[b] == y
  }

  /** `r` lists numbers of `ps` in the order they stand in `ps`: any two
      entries of `r` occur in `ps`, the first before the second. */
  ghost predicate InOrderOf(r: seq<int>, ps: seq<int>) {
    forall i, j :: 0 <= i < j < |r| ==> Precedes(ps, r[i], r[j])
  }

  /** The filter keeps order. */
  lemma {:induction false} OnBoardOnlyKeepsOrder(ps: seq<int>)
    ensures InOrderOf(OnBoardOnly(ps), ps)
  {
    if ps != [] {
      var front, last := ps[..|ps| - 1], ps[|ps| - 1];
      var kept, r := OnBoardOnly(front), OnBoardOnly(ps);
      OnBoardOnlyKeepsOrder(front);
      assert r == kept + (if IsOnBoard(last) then [last] else []);
      forall i, j | 0 <= i < j < |r|
        ensures Precedes(ps, r[i], r[j])
      {
        if j < |kept| {
          assert r[i] == kept[i] && r[j] == kept[j];
          assert Precedes(front, kept[i], kept[j]);
          var a, b :| 0 <= a < b < |front| && front[a] == kept[i] && front[b] == kept[j];
          assert ps[a] == front[a] && ps[b] == front[b];
        } else {
          assert r[i] == kept[i] && r[j] == last;
          assert kept[i] in kept;
          var a :| 0 <= a < |front| && front[a] == kept[i];
          assert ps[a] == r[i] && ps[|ps| - 1] == r[j];
        }
      }
    }
  }

  /** The four numbers one jump away from `position`, in probing order;
      they are all different. */
  function JumpOffsets(position: int): (r: seq<int>)
    ensures |r| == 4
    ensures forall i, j :: 0 <= i < j < 4 ==> r[i] != r[j]
  {
    [position + 9, position - 9, position + 7, position - 7]
  }

  /** The numbers a jump from `position` might land on: the probes that
      are on the board, in probing order; board edges are not otherwise
      filtered. */
  function OneJumpAway(position: int): (r: seq<int>)
    ensures |r| <= 4
    ensures forall q :: q in r <==>
      (IsOnBoard(q) && (q == position + 9 || q == position - 9 || q == position + 7 || q == position - 7))
  {
    OnBoardOnly(JumpOffsets(position))
  }

  /** The squares one jump away come back in probing order: +9, -9, +7,
      -7, skipping those off the board. */
  lemma OneJumpAwayInProbingOrder(position: int)
    ensures InOrderOf(OneJumpAway(position), JumpOffsets(position))
  {
    var ps := JumpOffsets(position);
    assert OneJumpAway(position) == OnBoardOnly(ps) && |ps| == 4;
    OnBoardOnlyKeepsOrder(ps);
  }

  /** Filtering a list whose numbers are all on the board keeps it whole. */
  lemma {:induction false} AllOnBoardKept(ps: seq<int>)
    requires forall i :: 0 <= i < |ps| ==> IsOnBoard(ps[i])
    ensures OnBoardOnly(ps) == ps
  {
    if ps != [] {
      AllOnBoardKept(ps[..|ps| - 1]);
    }
  }

  /** From a square numbered 10..23 all four probes are on the board and
      come back in probing order. */
  lemma InteriorJumpTargets(position: int)
    requires 10 <= position <= 23
    ensures OneJumpAway(position) == JumpOffsets(position)
  {
    AllOnBoardKept(JumpOffsets(position));
  }

  /** The probes are not checked against the board's edges: square 12 on
      the right edge gets 21, which lies on the opposite side. */
  lemma EdgeProbesWrap()
    ensures OneJumpAway(12) == [21, 3, 19, 5]
  {
    AllOnBoardKept(JumpOffsets(12));
  }

  /** From the corner square 1 only two probes are on the board. */
  lemma CornerProbes()
    ensures OneJumpAway(1) == [10, 8]
  {
    assert JumpOffsets(1) == [10, -8, 8, -6];
    assert OnBoardOnly([10, -8, 8, -6]) == [10, 8] by {
      assert [10, -8, 8, -6][..3] == [10, -8, 8];
      assert [10, -8, 8][..2] == [10, -8];
      assert [10, -8][..1] == [10];
      assert [10][..0] == [];
    }
  }
}
