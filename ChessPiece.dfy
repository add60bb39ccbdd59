/** The piece record of ChessPiece.h: colour, kind, recorded square and move counter,
    and the fixed lists of one-step destinations that each canMove probes. */
module Pieces {
  import opened Positions

  /** enum Color : int { Black, White }. */
  datatype Color = Black | White

  /** enum Type { tPawn, tRook, tKnight, tBishop, tKing, tQueen }: the six subclasses. */
  datatype Kind = Pawn | Rook | Knight | Bishop | King | Queen

  /** A piece: col, typ, pos and mvCnt. */
  datatype Piece = Piece(color: Color, kind: Kind, pos: Position, moveCount: int)

  /** The ChessPiece constructor and setType: a piece of the given colour and kind on
      the named square, with a move counter of zero. */
  function NewPiece(square: string, color: Color, kind: Kind): (p: Piece)
    requires IsSquareString(square)
    ensures Str(p.pos) == square && p.color == color && p.kind == kind && p.moveCount == 0
  {
    ParsableIsSquareString(square);
    ParseRoundTrip(square);
    Piece(color, kind, FromString(square), 0)
  }

  /** Rook::canMove probes U, D, L and R, in that order. */
  const RookProbes: seq<Offset> := [BasicMoves[U], BasicMoves[D], BasicMoves[L], BasicMoves[R]]

  /** Bishop::canMove probes UL, DL, DL and DR, in that order. */
  const BishopProbes: seq<Offset> := [BasicMoves[UL], BasicMoves[DL], BasicMoves[DL], BasicMoves[DR]]

  /** The probes Rook::canMove makes are the four orthogonal king steps. */
  lemma RookProbesAreOrthogonal()
    ensures |RookProbes| == 4
    ensures forall i :: 0 <= i < 4 ==> IsUnitStep(RookProbes[i]) && (RookProbes[i].dr == 0 || RookProbes[i].df == 0)
  {
  }

  /** Bishop::canMove probes only diagonal steps, probes DL twice and never probes UR. */
  lemma BishopProbesSkipUpRight()
    ensures |BishopProbes| == 4
    ensures forall i :: 0 <= i < 4 ==> Abs(BishopProbes[i].dr) == 1 && Abs(BishopProbes[i].df) == 1
    ensures BishopProbes[1] == BishopProbes[2]
    ensures BasicMoves[UR] !in BishopProbes
  {
  }
}
