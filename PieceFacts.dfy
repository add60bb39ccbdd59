/** Properties of the verifyMove and canMove rules of ChessPiece.cpp, as stated in Rules. */
module PieceFacts {
  import opened Positions
  import opened Pieces
  import opened Rules

  /** The move King::verifyMove treats as castling: an unmoved king stepping two files
      along its rank. */
  predicate CastleAttempt(me: Piece, d: Position) {
    me.kind == King && me.moveCount == 0 && me.pos.rank == d.rank && Abs(me.pos.file - d.file) == 2
  }

  function Sign(x: int): int {
    if x > 0 then 1 else if x < 0 then -1 else 0
  }

  /** The king step pointing from o towards d. */
  function Heading(o: Position, d: Position): Offset {
    Offset(Sign(d.rank - o.rank), Sign(d.file - o.file))
  }

  /** q lies strictly between o and d on the line from o towards d. */
  predicate StrictlyBetween(o: Position, q: Position, d: Position) {
    q != o && q != d && Toward(o, q, Heading(o, d)) && Toward(q, d, Heading(o, d))
  }

  /** q lies on the line from pos towards d along m, pos included and d excluded. */
  predicate Segment(pos: Position, q: Position, d: Position, m: Offset) {
    q != d && Toward(pos, q, m) && Toward(q, d, m)
  }

  // ---------------------------------------------------------------------------
  // Every piece

  /** Every verifyMove rejects the square the piece already stands on. */
  lemma VerifyRejectsOwnSquare(b: Board, me: Piece, fuel: nat)
    requires WellFormed(b) && Occupied(b, me.pos)
    ensures !VerifyAs(b, me, me.pos, fuel)
  {
    match me.kind
    case Rook => assert !RookAllows(b, me, me.pos);
    case Knight => assert !KnightAllows(b, me, me.pos);
    case Bishop => assert !BishopAllows(b, me, me.pos);
    case Pawn => assert !PawnAllows(b, me, me.pos);
    case King => assert !KingVerify(b, me, me.pos, fuel);
    case Queen =>
      StrRoundTrip(me.pos);
      var rook, bishop := NewPiece(Str(me.pos), me.color, Rook), NewPiece(Str(me.pos), me.color, Bishop);
      assert VerifyAs(b, me, me.pos, fuel) == RookVerify(b, rook, me.pos, fuel) || BishopVerify(b, bishop, me.pos, fuel);
      assert !RookAllows(b, rook, me.pos) && !BishopAllows(b, bishop, me.pos);
  }

  /** Apart from castling, a move verifyMove accepts has passed checkMove for the
      piece's colour: the move does not leave that colour's king attacked. */
  lemma VerifyGatesOnCheckMove(b: Board, me: Piece, d: Position, fuel: nat)
    requires WellFormed(b) && Occupied(b, me.pos) && !CastleAttempt(me, d)
    ensures VerifyAs(b, me, d, fuel) ==> CheckMove(b, me.pos, d, me.color, fuel)
  {
    match me.kind
    case Rook => assert VerifyAs(b, me, d, fuel) == RookVerify(b, me, d, fuel);
    case Knight => assert VerifyAs(b, me, d, fuel) == KnightVerify(b, me, d, fuel);
    case Bishop => assert VerifyAs(b, me, d, fuel) == BishopVerify(b, me, d, fuel);
    case Pawn => assert VerifyAs(b, me, d, fuel) == PawnVerify(b, me, d, fuel);
    case King =>
      assert VerifyAs(b, me, d, fuel) == KingVerify(b, me, d, fuel);
      assert KingVerify(b, me, d, fuel) ==> CheckMove(b, me.pos, d, me.color, fuel);
    case Queen =>
      StrRoundTrip(me.pos);
      var rook, bishop := NewPiece(Str(me.pos), me.color, Rook), NewPiece(Str(me.pos), me.color, Bishop);
      assert rook.pos == me.pos && rook.color == me.color && bishop.pos == me.pos && bishop.color == me.color;
      assert VerifyAs(b, me, d, fuel) == RookVerify(b, rook, d, fuel) || BishopVerify(b, bishop, d, fuel);
  }

  /** Rook, Knight, Bishop, Queen and the non-castling King never take a piece of their
      own colour. */
  lemma OwnColourRejected(b: Board, me: Piece, d: Position, fuel: nat)
    requires WellFormed(b) && Occupied(b, me.pos) && me.kind != Pawn && !CastleAttempt(me, d)
    requires OwnPieceAt(b, d, me.color)
    ensures !VerifyAs(b, me, d, fuel)
  {
    match me.kind
    case Rook => assert !RookAllows(b, me, d);
    case Knight => assert !KnightAllows(b, me, d);
    case Bishop => assert !BishopAllows(b, me, d);
    case King => assert !KingVerify(b, me, d, fuel);
    case Queen =>
      StrRoundTrip(me.pos);
      var rook, bishop := NewPiece(Str(me.pos), me.color, Rook), NewPiece(Str(me.pos), me.color, Bishop);
      assert VerifyAs(b, me, d, fuel) == RookVerify(b, rook, d, fuel) || BishopVerify(b, bishop, d, fuel);
      assert !RookAllows(b, rook, d) && !BishopAllows(b, bishop, d);
  }

  // ---------------------------------------------------------------------------
  // Knight

  /** Knight::verifyMove's geometry is the product test |rankDiff| * |fileDiff| == 2,
      with no path check: only the destination's occupant matters. */
  lemma KnightGeometry(b: Board, me: Piece, d: Position)
    requires WellFormed(b)
    ensures KnightAllows(b, me, d) <==>
      Abs(me.pos.rank - d.rank) * Abs(me.pos.file - d.file) == 2 && !OwnPieceAt(b, d, me.color)
  {
    KnightJumpIsProductTwo(Abs(me.pos.rank - d.rank), Abs(me.pos.file - d.file));
  }

  // ---------------------------------------------------------------------------
  // Paths of the rook and the bishop

  /** The path loop is clear exactly when every square from pos up to, but not
      including, d is empty. */
  lemma {:induction false} ClearFromIff(b: Board, pos: Position, d: Position, m: Offset)
    requires WellFormed(b) && Toward(pos, d, m)
    ensures ClearFrom(b, pos, d, m) <==> forall q: Position :: Segment(pos, q, d, m) ==> GetPiece(b, q).Null?
    decreases Dist(pos, d)
  {
    if pos == d {
      forall q: Position | Segment(pos, q, d, m) ensures false {
        TowardBothWays(pos, q, m);
      }
    } else {
      TowardStep(pos, d, m);
      var next := Go(pos, m);
      ClearFromIff(b, next, d, m);
      forall q: Position ensures Segment(pos, q, d, m) <==> q == pos || Segment(next, q, d, m) {
        StepInto(pos, q, m);
      }
    }
  }

  /** Starting the path loop one step from o along the heading to d checks exactly the
      squares strictly between o and d. */
  lemma PathFromNextSquare(b: Board, o: Position, d: Position)
    requires WellFormed(b) && o != d && Toward(o, d, Heading(o, d))
    ensures CanGo(o, Heading(o, d)) && Toward(Go(o, Heading(o, d)), d, Heading(o, d))
    ensures ClearFrom(b, Go(o, Heading(o, d)), d, Heading(o, d)) <==>
      forall q: Position :: StrictlyBetween(o, q, d) ==> GetPiece(b, q).Null?
  {
    var m := Heading(o, d);
    TowardStep(o, d, m);
    ClearFromIff(b, Go(o, m), d, m);
    forall q: Position ensures Segment(Go(o, m), q, d, m) <==> StrictlyBetween(o, q, d) {
      StepInto(o, q, m);
    }
  }

  /** Rook::verifyMove along its rank or file: every square strictly between must be
      empty and the destination must not hold an own piece. Off its rank and file only
      the destination's occupant is examined. */
  lemma RookPath(b: Board, me: Piece, d: Position)
    requires WellFormed(b) && me.pos != d
    ensures me.pos.rank == d.rank || me.pos.file == d.file ==>
      (RookAllows(b, me, d) <==>
        (forall q: Position :: StrictlyBetween(me.pos, q, d) ==> GetPiece(b, q).Null?) && !OwnPieceAt(b, d, me.color))
    ensures me.pos.rank != d.rank && me.pos.file != d.file ==>
      (RookAllows(b, me, d) <==> !OwnPieceAt(b, d, me.color))
  {
    if me.pos.rank == d.rank || me.pos.file == d.file {
      var fileDiff := me.pos.file - d.file;
      var rankDiff := me.pos.rank - d.rank;
      assert Heading(me.pos, d) == BasicMoves[
        if rankDiff == 0 then (if fileDiff > 0 then L else R) else (if rankDiff > 0 then U else D)];
      PathFromNextSquare(b, me.pos, d);
    }
  }

  /** Bishop::verifyMove: only a diagonal move is accepted, every square strictly
      between must be empty and the destination must not hold an own piece. */
  lemma BishopPath(b: Board, me: Piece, d: Position)
    requires WellFormed(b)
    ensures BishopAllows(b, me, d) <==>
      && me.pos != d
      && Abs(me.pos.rank - d.rank) == Abs(me.pos.file - d.file)
      && (forall q: Position :: StrictlyBetween(me.pos, q, d) ==> GetPiece(b, q).Null?)
      && !OwnPieceAt(b, d, me.color)
  {
    if me.pos != d && Abs(me.pos.rank - d.rank) == Abs(me.pos.file - d.file) {
      assert Heading(me.pos, d) == BasicMoves[BishopDirection(me.pos.rank - d.rank, me.pos.file - d.file)];
      PathFromNextSquare(b, me.pos, d);
    }
  }

  // ---------------------------------------------------------------------------
  // Queen and King

  /** Queen::verifyMove accepts exactly what a rook or a bishop of the queen's colour on
      the queen's square would accept. */
  lemma QueenIsRookOrBishop(b: Board, me: Piece, d: Position, fuel: nat)
    requires WellFormed(b) && Occupied(b, me.pos) && me.kind == Queen
    ensures VerifyAs(b, me, d, fuel) <==> VerifyAs(b, me.(kind := Rook), d, fuel) || VerifyAs(b, me.(kind := Bishop), d, fuel)
  {
    StrRoundTrip(me.pos);
    var rook, bishop := NewPiece(Str(me.pos), me.color, Rook), NewPiece(Str(me.pos), me.color, Bishop);
    assert VerifyAs(b, me, d, fuel) == RookVerify(b, rook, d, fuel) || BishopVerify(b, bishop, d, fuel);
    RookVerifyOnSquareAndColour(b, rook, me.(kind := Rook), d, fuel);
    BishopVerifyOnSquareAndColour(b, bishop, me.(kind := Bishop), d, fuel);
  }

  /** Rook::verifyMove looks only at the piece's square and colour. */
  lemma RookVerifyOnSquareAndColour(b: Board, x: Piece, y: Piece, d: Position, fuel: nat)
    requires WellFormed(b) && Occupied(b, x.pos) && x.pos == y.pos && x.color == y.color && y.kind == Rook
    ensures RookVerify(b, x, d, fuel) == VerifyAs(b, y, d, fuel)
  {
    assert RookAllows(b, x, d) == RookAllows(b, y, d);
  }

  /** Bishop::verifyMove looks only at the piece's square and colour. */
  lemma BishopVerifyOnSquareAndColour(b: Board, x: Piece, y: Piece, d: Position, fuel: nat)
    requires WellFormed(b) && Occupied(b, x.pos) && x.pos == y.pos && x.color == y.color && y.kind == Bishop
    ensures BishopVerify(b, x, d, fuel) == VerifyAs(b, y, d, fuel)
  {
    assert BishopAllows(b, x, d) == BishopAllows(b, y, d);
  }

  /** Apart from castling, the king moves at most one rank and one file. */
  lemma KingStepBound(b: Board, me: Piece, d: Position, fuel: nat)
    requires WellFormed(b) && Occupied(b, me.pos) && me.kind == King && !CastleAttempt(me, d)
    ensures VerifyAs(b, me, d, fuel) ==> Abs(me.pos.rank - d.rank) <= 1 && Abs(me.pos.file - d.file) <= 1
  {
    assert VerifyAs(b, me, d, fuel) == KingVerify(b, me, d, fuel);
  }

  /** Castling is accepted only when the corner the side to move castles towards holds
      an unmoved piece, and then without the checkMove gate. */
  lemma CastleNeedsUnmovedCorner(b: Board, me: Piece, d: Position, fuel: nat)
    requires WellFormed(b) && Occupied(b, me.pos) && CastleAttempt(me, d)
    ensures VerifyAs(b, me, d, fuel) ==>
      var corner := GetPiece(b, CastleCorner(b.active, me.pos.file - d.file > 0));
      corner.Slot? && b.pieces[corner.index].moveCount == 0
  {
    assert VerifyAs(b, me, d, fuel) == KingVerify(b, me, d, fuel);
  }

  /** A square the castling walk lets through: one holding a rook or a king of either
      colour, or an empty one the opponent does not mark. */
  predicate CastlePassable(b: Board, q: Position, opponent: Color, fuel: nat)
    requires WellFormed(b)
  {
    match GetPiece(b, q)
    case Slot(t) => b.pieces[t].kind == Rook || b.pieces[t].kind == King
    case Null => !IsMarkedBy(b, q, opponent, fuel)
  }

  /** The castling walk succeeds exactly when the corner lies ahead along m and every
      square from pos up to, but not including, the corner is passable. */
  lemma {:induction false} CastleWalkIff(b: Board, pos: Position, rook: Position, m: Offset, opponent: Color, fuel: nat)
    requires WellFormed(b) && IsUnitStep(m)
    ensures CastleWalk(b, pos, rook, m, opponent, fuel) <==>
      Toward(pos, rook, m) && forall q: Position :: Segment(pos, q, rook, m) ==> CastlePassable(b, q, opponent, fuel)
    decreases StepsLeft(pos, m)
  {
    if pos == rook {
      forall q: Position | Segment(pos, q, rook, m) ensures false {
        TowardBothWays(pos, q, m);
      }
    } else if CanGo(pos, m) {
      var next := Go(pos, m);
      assert CastleWalk(b, pos, rook, m, opponent, fuel) ==
        (CastlePassable(b, pos, opponent, fuel) && CastleWalk(b, next, rook, m, opponent, fuel));
      CastleWalkIff(b, next, rook, m, opponent, fuel);
      StepInto(pos, rook, m);
      if Toward(pos, rook, m) {
        forall q: Position ensures Segment(pos, q, rook, m) <==> q == pos || Segment(next, q, rook, m) {
          StepInto(pos, q, m);
        }
      }
    } else {
      assert !CastleWalk(b, pos, rook, m, opponent, fuel);
      OffBoardNotToward(pos, rook, m);
    }
  }


  /** King::verifyMove on a castling attempt: the corner the side to move castles
      towards holds an unmoved piece, lies on the king's rank in the direction of the
      move, and every square from the king's own up to the corner holds a rook or a
      king, or is empty and not marked by the opponent. No checkMove follows. */
  lemma CastleConditions(b: Board, me: Piece, d: Position, fuel: nat)
    requires WellFormed(b) && Occupied(b, me.pos) && CastleAttempt(me, d)
    ensures var corner := CastleCorner(b.active, me.pos.file - d.file > 0);
      var m := BasicMoves[if me.pos.file - d.file > 0 then L else R];
      VerifyAs(b, me, d, fuel) <==>
        && GetPiece(b, corner).Slot? && b.pieces[GetPiece(b, corner).index].moveCount == 0
        && Toward(me.pos, corner, m)
        && forall q: Position :: Segment(me.pos, q, corner, m) ==> CastlePassable(b, q, Opposite(me.color), fuel)
  {
    var corner := CastleCorner(b.active, me.pos.file - d.file > 0);
    var m := BasicMoves[if me.pos.file - d.file > 0 then L else R];
    assert VerifyAs(b, me, d, fuel) == KingVerify(b, me, d, fuel);
    CastleWalkIff(b, me.pos, corner, m, Opposite(me.color), fuel);
  }

  /** The walk starts on the king's own square, and a king there passes it without a look:
      castling out of check is accepted. */
  lemma CastleSkipsKingSquare(b: Board, me: Piece, d: Position, fuel: nat)
    requires WellFormed(b) && Occupied(b, me.pos) && CastleAttempt(me, d)
    requires b.pieces[GetPiece(b, me.pos).index].kind == King
    ensures var corner := CastleCorner(b.active, me.pos.file - d.file > 0);
      var m := BasicMoves[if me.pos.file - d.file > 0 then L else R];
      VerifyAs(b, me, d, fuel) <==>
        && GetPiece(b, corner).Slot? && b.pieces[GetPiece(b, corner).index].moveCount == 0
        && Toward(me.pos, corner, m)
        && forall q: Position :: q != me.pos && Segment(me.pos, q, corner, m) ==> CastlePassable(b, q, Opposite(me.color), fuel)
  {
    CastleConditions(b, me, d, fuel);
    assert CastlePassable(b, me.pos, Opposite(me.color), fuel);
  }

  // ---------------------------------------------------------------------------
  // Pawn

  /** A pawn never moves backwards: White towards row "8" (falling storage rank), Black
      towards row "1". */
  lemma PawnNeverBackwards(b: Board, me: Piece, d: Position)
    requires WellFormed(b) && PawnAllows(b, me, d)
    ensures me.color == White ==> d.rank <= me.pos.rank
    ensures me.color == Black ==> d.rank >= me.pos.rank
  {
  }

  /** The first double step needs both squares ahead empty. */
  lemma PawnDoubleStepEmpty(b: Board, me: Piece, d: Position)
    requires WellFormed(b) && PawnAllows(b, me, d)
    requires me.moveCount == 0 && me.pos.file == d.file && Abs(me.pos.rank - d.rank) == 2
    ensures CanGo(me.pos, Heading(me.pos, d)) && GetPiece(b, Go(me.pos, Heading(me.pos, d))).Null?
    ensures GetPiece(b, d).Null?
  {
    var m := BasicMoves[if me.pos.rank - d.rank > 0 then U else D];
    assert m == Heading(me.pos, d);
    assert Go(Go(me.pos, m), m) == d;
  }

  /** A diagonal step onto an empty square needs an opposing pawn, moved once and on
      the colour's en-passant rank, beside the pawn on the destination's side. */
  lemma PawnEnPassantNeedsVictim(b: Board, me: Piece, d: Position)
    requires WellFormed(b) && PawnAllows(b, me, d)
    requires DiagonalStep(me.pos.rank - d.rank, me.pos.file - d.file) && GetPiece(b, d).Null?
    ensures ValidPosition(me.pos.rank, d.file)
    ensures var adjacent := GetPiece(b, FromIndices(me.pos.rank, d.file));
      adjacent.Slot? && b.pieces[adjacent.index].color != me.color && b.pieces[adjacent.index].kind == Pawn &&
      b.pieces[adjacent.index].moveCount == 1 && me.pos.rank == (if me.color == White then 5 else 4)
  {
  }

  /** Every other forward or sideways move (a straight advance of more than one rank, a
      moved pawn's two-rank advance, a sideways move, a knight-like jump) needs only an
      empty destination: no square it passes over is looked at. */
  lemma PawnOtherMoveNeedsEmptyDestination(b: Board, me: Piece, d: Position)
    requires WellFormed(b) && me.pos != d
    requires me.color == White ==> d.rank <= me.pos.rank
    requires me.color == Black ==> d.rank >= me.pos.rank
    requires !(me.pos.file == d.file && Abs(me.pos.rank - d.rank) == 2 && me.moveCount == 0)
    requires !DiagonalStep(me.pos.rank - d.rank, me.pos.file - d.file)
    requires Abs(me.pos.rank - d.rank) > 1 || me.pos.file != d.file
    ensures PawnAllows(b, me, d) <==> GetPiece(b, d).Null?
  {
  }

  // ---------------------------------------------------------------------------
  // canMove

  /** The probe loop of canMove succeeds exactly when some probe from entry i on stays on
      the board and passes verifyMove. */
  lemma {:induction false} AnyProbeExists(b: Board, me: Piece, probes: seq<Offset>, i: nat, fuel: nat)
    requires WellFormed(b) && Occupied(b, me.pos) && i <= |probes|
    ensures AnyProbe(b, me, probes, i, fuel) <==>
      exists j :: i <= j < |probes| && CanGo(me.pos, probes[j]) && VerifyAs(b, me, Go(me.pos, probes[j]), fuel)
    decreases |probes| - i
  {
    if i < |probes| {
      AnyProbeExists(b, me, probes, i + 1, fuel);
    }
  }
}
