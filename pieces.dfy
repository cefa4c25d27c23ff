/** Checker pieces: the two colours, the value held by a square (a piece or
    the empty sentinel), and the mutable `Piece` object whose king flag can
    only be switched on. */
module Pieces {

  datatype Color = Black | White

  /** There are exactly two colours. */
  lemma ColorCases(c: Color)
    ensures c == Black || c == White
  {
  }

  /** What a square holds: `Empty` stands for the shared null piece, and an
      `Occupied` value is a snapshot of a piece's colour and king flag. */
  datatype PieceValue = Empty | Occupied(color: Color, king: bool) {

    /** The null piece. */
    function IsNull(): (b: bool)
      ensures b <==> this == Empty
    {
      Empty?
    }

    /** A black pawn or a black king. */
    function IsBlack(): (b: bool)
      ensures b <==> this == Occupied(Black, false) || this == Occupied(Black, true)
    {
      Occupied? && color == Black
    }

    /** A white pawn or a white king. */
    function IsWhite(): (b: bool)
      ensures b <==> this == Occupied(White, false) || this == Occupied(White, true)
    {
      Occupied? && color == White
    }

    /** A king of either colour; the null piece is no king. */
    function IsKing(): (b: bool)
      ensures b <==> this == Occupied(Black, true) || this == Occupied(White, true)
    {
      match this
      case Empty => false
      case Occupied(Black, king) => king
      case Occupied(White, king) => king
    }

    /** The same piece, promoted; the empty sentinel stays empty. */
    function Kinged(): (r: PieceValue)
      ensures r.Occupied? == Occupied?
      ensures Occupied? ==> r.color == color && r.king
    {
      if Empty? then Empty else Occupied(color, true)
    }
  }

  /** The null piece is neither colour, and a real piece is exactly one. */
  lemma ColorQueries(x: PieceValue)
    ensures x.IsNull() ==> !x.IsBlack() && !x.IsWhite() && !x.IsKing()
    ensures !x.IsNull() ==> x.IsBlack() != x.IsWhite()
  {
  }

  /** Kinging is idempotent and keeps colour. */
  lemma KingedIdempotent(x: PieceValue)
    ensures x.Kinged().Kinged() == x.Kinged()
    ensures x.Occupied? ==> x.Kinged().IsKing() && x.Kinged().color == x.color
  {
  }

  /** A checker whose colour is fixed at creation and whose king flag is set
      in place by `KingMe`. */
  class Piece {
    const color: Color
    var king: bool

    /** A new piece of the given colour, not yet a king. */
    constructor (c: Color)
      ensures color == c && !king
    {
      color := c;
      king := false;
    }

    /** A new piece with the colour and king flag of `other`. */
    constructor Copy(other: Piece)
      ensures color == other.color && king == other.king
      ensures Value() == other.Value()
    {
      color := other.color;
      king := other.king;
    }

    /** The value a square holding this piece shows. */
    function Value(): (v: PieceValue)
      reads this
      ensures v.Occupied? && v.color == color && v.king == king
    {
      Occupied(color, king)
    }

    function GetColor(): (c: Color)
      ensures c == Value().color
    {
      color
    }

    function IsBlack(): (b: bool)
      ensures b <==> color == Black
      ensures b <==> !IsWhite()
    {
      color == Black
    }

    function IsWhite(): (b: bool)
      ensures b <==> color == White
      ensures b <==> Value().IsWhite()
    {
      color == White
    }

    function IsKing(): (b: bool)
      reads this
      ensures b <==> Value().IsKing()
    {
      king
    }

    /** A piece object is never the null piece. */
    function IsNull(): (b: bool)
      ensures !b
      ensures b == Value().IsNull()
    {
      false
    }

    /** Same colour as the piece `other`; the null piece has no colour. */
    function IsSameColorAs(other: PieceValue): (b: bool)
      ensures b <==> other.Occupied? && other.color == color
    {
      other.Occupied? && color == other.color
    }

    /** Promote this piece; the colour cannot change. */
    method KingMe()
      modifies this
      ensures king
      ensures Value() == old(Value()).Kinged()
    {
      king := true;
    }
  }

  /** Between two piece objects, having the same colour is symmetric. */
  lemma SameColorSymmetric(a: Piece, b: Piece)
    ensures a.IsSameColorAs(b.Value()) <==> b.IsSameColorAs(a.Value())
    ensures a.IsSameColorAs(b.Value()) <==> a.color == b.color
  {
  }

  /** Kinging twice leaves the piece as kinging once did. */
  method KingMeTwice(p: Piece)
    modifies p
    ensures p.king
    ensures p.Value() == old(p.Value()).Kinged()
  {
    p.KingMe();
    ghost var once := p.Value();
    p.KingMe();
    assert p.Value() == once;
    KingedIdempotent(old(p.Value()));
  }
}
