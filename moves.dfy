/** The moves the board applies: a plain diagonal step, a single jump and a
    multi-jump. Their geometry is checked by the move generator, not here. */
module Moves {

  datatype Move =
    | SimpleMove(start: int, end: int)
    | SingleJump(start: int, end: int, jumpedPosition: int)
    | MultiJump(start: int, end: int, jumpedPositions: seq<int>)
  {
    /** Both jump variants capture; a simple move does not. */
    function IsJump(): (b: bool)
      ensures b <==> SingleJump? || MultiJump?
    {
      !SimpleMove?
    }

    /** The captured positions, in capture order. */
    function Captured(): (r: seq<int>)
      requires IsJump()
      ensures SingleJump? ==> r == [jumpedPosition]
      ensures MultiJump? ==> r == jumpedPositions
    {
      if SingleJump? then [jumpedPosition] else jumpedPositions
    }
  }
}
