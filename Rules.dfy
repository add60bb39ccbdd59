/** The meaning of ChessBoard.cpp and of the piece rules of ChessPiece.cpp, stated on
    snapshots of the board. The class in ChessBoard.dfy runs the same steps in place and
    is proved to compute exactly these functions.

    The source's rules call each other without a decreasing measure: verifyMove gates
    through checkMove, which asks isInCheck, which asks isMarkedBy, which calls
    verifyMove again (and King::verifyMove calls isMarkedBy while castling). Every
    function of that cycle takes a `fuel` bound on the nesting depth of attack
    detection: IsMarkedBy with no fuel left answers "not attacked", and the pieces it
    finds are verified with one unit less. */
module Rules {
  import opened Positions
  import opened Pieces

  /** A piece pointer or a grid cell: NULL, or the arena slot of a piece. Capturing a
      piece retires its slot: it stays in the arena, and no cell refers to it. */
  datatype Ref = Null | Slot(index: nat)

  /** A snapshot of a ChessBoard: board[8][8] stored row by row as 64 cells, the arena
      of pieces, king[White], king[Black] and activeColor. */
  datatype Board = Board(cells: seq<Ref>, pieces: seq<Piece>, whiteKing: nat, blackKing: nat, active: Color)

  /** The board after ChessBoard::move, and the piece move returned as captured. */
  datatype Applied = Applied(board: Board, captured: Ref)

  /** What submitMove reports on the console, as a value. */
  datatype Status =
    | NoPieceAtOrigin | NotYourTurn | IllegalMove | InvalidSingletonMove
    | Checkmate | Stalemate | Check | Normal

  /** ChessBoard::opposite. */
  function Opposite(c: Color): (r: Color)
    ensures r != c
  {
    if c == White then Black else White
  }

  /** The cell of square p in the row-major grid. */
  function Idx(p: Position): (i: nat)
    ensures i < 64
  {
    p.rank * 8 + p.file
  }

  /** king[c]. */
  function KingOf(b: Board, c: Color): nat {
    if c == White then b.whiteKing else b.blackKing
  }

  /** The grid invariant: 64 cells whose contents name arena slots, and a piece stored
      in a cell records that cell's square as its position (so no piece is stored
      twice). */
  ghost predicate CellsWellFormed(b: Board) {
    && |b.cells| == 64
    && forall p: Position :: b.cells[Idx(p)].Slot? ==>
         b.cells[Idx(p)].index < |b.pieces| && b.pieces[b.cells[Idx(p)].index].pos == p
  }

  /** The board invariant: the grid invariant, and both king references name arena
      slots. */
  ghost predicate WellFormed(b: Board) {
    CellsWellFormed(b) && b.whiteKing < |b.pieces| && b.blackKing < |b.pieces|
  }

  /** ChessBoard::getPiece: the piece found at a square records that square. */
  function GetPiece(b: Board, p: Position): (r: Ref)
    requires CellsWellFormed(b)
    ensures r.Slot? ==> r.index < |b.pieces| && b.pieces[r.index].pos == p
  {
    b.cells[Idx(p)]
  }

  predicate Occupied(b: Board, p: Position)
    requires WellFormed(b)
  {
    GetPiece(b, p).Slot?
  }

  /** A piece that may be asked to verify a move: its square is occupied and, unless
      it is a king itself, not by a king, so that none of the moves it submits to
      checkMove is a castling. */
  predicate Mover(b: Board, me: Piece)
    requires WellFormed(b)
  {
    Occupied(b, me.pos) && (me.kind != King ==> b.pieces[GetPiece(b, me.pos).index].kind != King)
  }

  /** The square holds a piece of colour c (the own-colour capture test). */
  predicate OwnPieceAt(b: Board, p: Position, c: Color)
    requires WellFormed(b)
  {
    GetPiece(b, p).Slot? && b.pieces[GetPiece(b, p).index].color == c
  }

  /** Slot s names a piece that stands on the grid at the square it records. */
  predicate OnGrid(b: Board, s: nat)
    requires WellFormed(b)
  {
    s < |b.pieces| && GetPiece(b, b.pieces[s].pos) == Slot(s)
  }

  lemma IdxInjective()
    ensures forall p: Position, q: Position :: Idx(p) == Idx(q) ==> p == q
  {
  }

  /** ChessBoard::movePiece: a piece leaves the cell of the square it records, records q
      and is stored at q; NULL only empties q. */
  function MovePiece(b: Board, piece: Ref, q: Position): (r: Board)
    requires CellsWellFormed(b) && (piece.Slot? ==> piece.index < |b.pieces|)
    ensures CellsWellFormed(r) && |r.pieces| == |b.pieces|
    ensures r.whiteKing == b.whiteKing && r.blackKing == b.blackKing && r.active == b.active
  {
    IdxInjective();
    match piece
    case Null => b.(cells := b.cells[Idx(q) := Null])
    case Slot(s) =>
      b.(cells := b.cells[Idx(b.pieces[s].pos) := Null][Idx(q) := piece],
         pieces := b.pieces[s := b.pieces[s].(pos := q)])
  }

  /** incrementMoveCount (delta 1) and decrementMoveCount (delta -1) on slot s. */
  function AddToCount(b: Board, s: nat, delta: int): (r: Board)
    requires CellsWellFormed(b) && s < |b.pieces|
    ensures CellsWellFormed(r) && |r.pieces| == |b.pieces|
    ensures r.cells == b.cells && r.whiteKing == b.whiteKing && r.blackKing == b.blackKing && r.active == b.active
  {
    b.(pieces := b.pieces[s := b.pieces[s].(moveCount := b.pieces[s].moveCount + delta)])
  }

  /** The corner whose piece castling takes as the rook: the A corner when the king moves
      towards file A, the H corner otherwise; row "1" when White is to move and row "8"
      otherwise. The side to move decides, not the king's colour. */
  function CastleCorner(active: Color, towardsA: bool): Position {
    if towardsA then (if active == White then FromString("A1") else FromString("A8"))
    else (if active == White then FromString("H1") else FromString("H8"))
  }

  /** The square of the piece that ChessBoard::move removes en passant, if it is on the
      board: the destination's file, one rank towards row "1" when White is to move and
      towards row "8" otherwise. */
  function EnPassantRank(b: Board, d: Position): int {
    d.rank + (if b.active == White then 1 else -1)
  }

  /** The castling step of ChessBoard::move: the corner piece is looked up, the king goes
      to d, and the corner piece goes to the square beside the king on the origin side. */
  function Castle(b: Board, s: nat, o: Position, d: Position): (r: Board)
    requires CellsWellFormed(b) && s < |b.pieces| && Abs(o.file - d.file) == 2
    ensures CellsWellFormed(r) && |r.pieces| == |b.pieces|
    ensures r.whiteKing == b.whiteKing && r.blackKing == b.blackKing && r.active == b.active
  {
    var fileDiff := o.file - d.file;
    var rook := GetPiece(b, CastleCorner(b.active, fileDiff > 0));
    var m := BasicMoves[if fileDiff > 0 then R else L];
    var b2 := MovePiece(b, Slot(s), d);
    MovePiece(b2, rook, Go(b2.pieces[s].pos, m))
  }

  /** The en-passant step of ChessBoard::move: the pawn goes to d and the piece on the
      en-passant square, if any, is taken off the grid and returned as captured. */
  function EnPassant(b: Board, s: nat, d: Position): (r: Applied)
    requires CellsWellFormed(b) && s < |b.pieces|
    ensures CellsWellFormed(r.board) && |r.board.pieces| == |b.pieces|
    ensures r.board.whiteKing == b.whiteKing && r.board.blackKing == b.blackKing && r.board.active == b.active
    ensures r.captured.Slot? ==> r.captured.index < |b.pieces|
  {
    var priorRank := EnPassantRank(b, d);
    if !ValidPosition(priorRank, d.file) then
      // The source's Position constructor asserts here; nothing is removed.
      Applied(MovePiece(b, Slot(s), d), Null)
    else
      var captured := GetPiece(b, FromIndices(priorRank, d.file));
      var b2 := MovePiece(b, Slot(s), d);
      if captured.Null? then
        // The source dereferences NULL here; nothing is removed.
        Applied(b2, Null)
      else
        Applied(MovePiece(b2, Null, b2.pieces[captured.index].pos), captured)
  }

  /** ChessBoard::move. The mover's counter goes up by one. A pawn moving to an empty
      square on another file removes the piece on the en-passant square; a king moving
      two files takes the corner piece to the square beside it on the origin side;
      otherwise the destination's occupant is captured. */
  function ApplyMove(b: Board, o: Position, d: Position): (r: Applied)
    requires WellFormed(b) && Occupied(b, o)
    ensures WellFormed(r.board) && |r.board.pieces| == |b.pieces|
    ensures r.captured.Slot? ==> r.captured.index < |b.pieces|
  {
    var s := GetPiece(b, o).index;
    var destinationPiece := GetPiece(b, d);
    var b1 := AddToCount(b, s, 1);
    if b.pieces[s].kind == Pawn && destinationPiece.Null? && o.file != d.file then
      EnPassant(b1, s, d)
    else if b.pieces[s].kind == King && Abs(o.file - d.file) == 2 then
      Applied(Castle(b1, s, o, d), Null)
    else
      Applied(MovePiece(b1, Slot(s), d), destinationPiece)
  }

  /** place(new K(square, color)) of initialiseBoard: the new piece is appended to the
      arena and stored on the square it records. */
  function AddPiece(b: Board, piece: Piece): (r: Board)
    requires CellsWellFormed(b)
    ensures CellsWellFormed(r) && r.pieces == b.pieces + [piece]
    ensures GetPiece(r, piece.pos) == Slot(|b.pieces|)
    ensures r.whiteKing == b.whiteKing && r.blackKing == b.blackKing && r.active == b.active
  {
    var r := MovePiece(b.(pieces := b.pieces + [piece]), Slot(|b.pieces|), piece.pos);
    assert r.pieces == b.pieces + [piece];
    r
  }

  /** The revert step of checkMove: the mover goes back to the origin, its counter is
      decremented, and a captured piece is stored again at the square it records. */
  function Revert(a: Applied, s: nat, o: Position): (r: Board)
    requires WellFormed(a.board) && s < |a.board.pieces|
    requires a.captured.Slot? ==> a.captured.index < |a.board.pieces|
    ensures WellFormed(r)
  {
    var b1 := MovePiece(a.board, Slot(s), o);
    var b2 := AddToCount(b1, s, -1);
    match a.captured
    case Null => b2
    case Slot(t) => MovePiece(b2, a.captured, b2.pieces[t].pos)
  }

  /** A move that ChessBoard::move treats as castling. */
  predicate CastlingShape(b: Board, o: Position, d: Position)
    requires WellFormed(b)
  {
    Occupied(b, o) && b.pieces[GetPiece(b, o).index].kind == King && Abs(o.file - d.file) == 2
  }

  // ---------------------------------------------------------------------------
  // Walking along a line

  /** d lies ahead of pos along the king step m: on the same rank, file or diagonal, in
      the direction of m. */
  predicate Toward(pos: Position, d: Position, m: Offset) {
    && IsUnitStep(m)
    && (if m.dr == 0 then pos.rank == d.rank else if m.dr > 0 then pos.rank <= d.rank else pos.rank >= d.rank)
    && (if m.df == 0 then pos.file == d.file else if m.df > 0 then pos.file <= d.file else pos.file >= d.file)
    && (m.dr != 0 && m.df != 0 ==> Abs(d.rank - pos.rank) == Abs(d.file - pos.file))
  }

  function Dist(p: Position, q: Position): nat {
    Abs(p.rank - q.rank) + Abs(p.file - q.file)
  }

  /** One step towards a square ahead stays on the board and keeps it ahead. */
  lemma TowardStep(pos: Position, d: Position, m: Offset)
    requires Toward(pos, d, m) && pos != d
    ensures CanGo(pos, m) && Toward(Go(pos, m), d, m) && Dist(Go(pos, m), d) < Dist(pos, d)
  {
  }

  /** Stepping once along m from o: the squares ahead of the new square are the squares
      ahead of o other than o itself. */
  lemma StepInto(o: Position, q: Position, m: Offset)
    requires IsUnitStep(m) && CanGo(o, m)
    ensures Toward(Go(o, m), q, m) <==> Toward(o, q, m) && q != o
  {
  }

  /** A square ahead of pos that has pos ahead of it is pos. */
  lemma TowardBothWays(pos: Position, q: Position, m: Offset)
    requires Toward(pos, q, m) && Toward(q, pos, m)
    ensures q == pos
  {
  }

  /** No square other than pos lies ahead of pos along m when the first step leaves
      the board. */
  lemma OffBoardNotToward(pos: Position, q: Position, m: Offset)
    requires IsUnitStep(m) && !CanGo(pos, m) && q != pos
    ensures !Toward(pos, q, m)
  {
    if Toward(pos, q, m) {
      TowardStep(pos, q, m);
    }
  }

  /** The squares still reachable from pos along m before leaving the board. */
  function StepsLeft(p: Position, m: Offset): nat {
    (if m.dr > 0 then 7 - p.rank else if m.dr < 0 then p.rank else 0) +
    (if m.df > 0 then 7 - p.file else if m.df < 0 then p.file else 0)
  }

  /** The path loops of Rook::verifyMove and Bishop::verifyMove: every square from pos up
      to, but not including, d is empty. */
  function ClearFrom(b: Board, pos: Position, d: Position, m: Offset): bool
    requires WellFormed(b) && Toward(pos, d, m)
    decreases Dist(pos, d)
  {
    pos == d || (GetPiece(b, pos).Null? && (TowardStep(pos, d, m); ClearFrom(b, Go(pos, m), d, m)))
  }

  /** The direction table {{DR, DL}, {UR, UL}} of Bishop::verifyMove, indexed by the signs
      of the differences: a positive rank difference picks the U side, a positive file
      difference the L side. */
  function BishopDirection(rankDiff: int, fileDiff: int): nat {
    if rankDiff > 0 then (if fileDiff > 0 then UL else UR)
    else (if fileDiff > 0 then DL else DR)
  }

  /** Adjacent is a pawn that may be taken en passant by a pawn of colour c: an opposing
      pawn that has moved once and stands on rank 5 (for a White taker) or 4. */
  predicate EnPassantVictim(adjacent: Piece, c: Color) {
    adjacent.color != c && adjacent.kind == Pawn && adjacent.moveCount == 1 &&
    adjacent.pos.rank == (if c == White then 5 else 4)
  }

  // ---------------------------------------------------------------------------
  // The rules: verifyMove of each piece, the self-check gate and attack detection

  /** verifyMove of the piece in slot s, dispatched on its kind. */
  function VerifyMove(b: Board, s: nat, d: Position, fuel: nat): bool
    requires WellFormed(b) && OnGrid(b, s)
    decreases fuel, 21, 0
  {
    VerifyAs(b, b.pieces[s], d, fuel)
  }

  /** The virtual call me->verifyMove(board, d). */
  function VerifyAs(b: Board, me: Piece, d: Position, fuel: nat): bool
    requires WellFormed(b) && Occupied(b, me.pos)
    decreases fuel, 20, 0
  {
    match me.kind
    case Rook => RookVerify(b, me, d, fuel)
    case Knight => KnightVerify(b, me, d, fuel)
    case Bishop => BishopVerify(b, me, d, fuel)
    case Queen => QueenVerify(b, me, d, fuel)
    case King => KingVerify(b, me, d, fuel)
    case Pawn => PawnVerify(b, me, d, fuel)
  }

  /** The checks of Rook::verifyMove before its final checkMove: not the origin, the
      squares strictly between empty when the move is along a row or a column (no test
      at all otherwise), and the destination not holding an own piece. */
  predicate RookAllows(b: Board, me: Piece, d: Position)
    requires WellFormed(b)
  {
    if d == me.pos then false
    else
      var rankDiff := me.pos.rank - d.rank;
      var fileDiff := me.pos.file - d.file;
      var pathClear :=
        if rankDiff == 0 then
          var m := BasicMoves[if fileDiff > 0 then L else R];
          ClearFrom(b, Go(me.pos, m), d, m)
        else if fileDiff == 0 then
          var m := BasicMoves[if rankDiff > 0 then U else D];
          ClearFrom(b, Go(me.pos, m), d, m)
        else
          true;
      pathClear && !OwnPieceAt(b, d, me.color)
  }

  /** Rook::verifyMove. */
  function RookVerify(b: Board, me: Piece, d: Position, fuel: nat): bool
    requires WellFormed(b) && Occupied(b, me.pos)
    decreases fuel, 18, 0
  {
    RookAllows(b, me, d) && CheckMove(b, me.pos, d, me.color, fuel)
  }

  /** The checks of Knight::verifyMove before its final checkMove: not the origin, the
      product of the absolute rank and file distances is 2, and the destination does not
      hold an own piece. */
  predicate KnightAllows(b: Board, me: Piece, d: Position)
    requires WellFormed(b)
  {
    if me.pos == d then false
    else
      var rankDiff := Abs(me.pos.rank - d.rank);
      var fileDiff := Abs(me.pos.file - d.file);
      KnightJump(rankDiff, fileDiff) && !OwnPieceAt(b, d, me.color)
  }

  /** Knight::verifyMove. */
  function KnightVerify(b: Board, me: Piece, d: Position, fuel: nat): bool
    requires WellFormed(b) && Occupied(b, me.pos)
    decreases fuel, 18, 0
  {
    KnightAllows(b, me, d) && CheckMove(b, me.pos, d, me.color, fuel)
  }

  /** The checks of Bishop::verifyMove before its final checkMove: not the origin, equal
      absolute rank and file distances, the squares strictly between empty along the
      direction BishopDirection picks, and the destination not holding an own piece. */
  predicate BishopAllows(b: Board, me: Piece, d: Position)
    requires WellFormed(b)
  {
    if me.pos == d then false
    else
      var fileDiff := me.pos.file - d.file;
      var rankDiff := me.pos.rank - d.rank;
      if Abs(fileDiff) != Abs(rankDiff) then false
      else
        var m := BasicMoves[BishopDirection(rankDiff, fileDiff)];
        ClearFrom(b, Go(me.pos, m), d, m) && !OwnPieceAt(b, d, me.color)
  }

  /** Bishop::verifyMove. */
  function BishopVerify(b: Board, me: Piece, d: Position, fuel: nat): bool
    requires WellFormed(b) && Occupied(b, me.pos)
    decreases fuel, 18, 0
  {
    BishopAllows(b, me, d) && CheckMove(b, me.pos, d, me.color, fuel)
  }

  /** Queen::verifyMove: a Rook, then a Bishop, of the queen's colour built on the
      queen's square. */
  function QueenVerify(b: Board, me: Piece, d: Position, fuel: nat): bool
    requires WellFormed(b) && Occupied(b, me.pos)
    decreases fuel, 19, 0
  {
    StrRoundTrip(me.pos);
    RookVerify(b, NewPiece(Str(me.pos), me.color, Rook), d, fuel) ||
    BishopVerify(b, NewPiece(Str(me.pos), me.color, Bishop), d, fuel)
  }

  /** King::verifyMove: castling when the king has not moved and steps two files along
      its rank, otherwise a step of at most one rank and one file. */
  function KingVerify(b: Board, me: Piece, d: Position, fuel: nat): bool
    requires WellFormed(b) && Occupied(b, me.pos)
    decreases fuel, 18, 0
  {
    if me.pos == d then false
    else
      var rankDiff := me.pos.rank - d.rank;
      var fileDiff := me.pos.file - d.file;
      if me.moveCount == 0 && rankDiff == 0 && Abs(fileDiff) == 2 then
        match GetPiece(b, CastleCorner(b.active, fileDiff > 0))
        case Null => false
        case Slot(r) =>
          b.pieces[r].moveCount == 0 &&
          CastleWalk(b, me.pos, b.pieces[r].pos, BasicMoves[if fileDiff > 0 then L else R], Opposite(me.color), fuel)
      else if Abs(fileDiff) > 1 || Abs(rankDiff) > 1 then false
      else !OwnPieceAt(b, d, me.color) && CheckMove(b, me.pos, d, me.color, fuel)
  }

  /** The castling loop of King::verifyMove: from the king's square up to the rook's,
      rooks and kings are passed over, and any other square must be empty and not
      marked by the opponent. Running off the board (the rook is not on the king's
      rank) is an assertion failure in the source and a rejection here. */
  function CastleWalk(b: Board, pos: Position, rook: Position, m: Offset, opponent: Color, fuel: nat): (r: bool)
    requires WellFormed(b) && IsUnitStep(m)
    ensures r ==> Toward(pos, rook, m)
    decreases fuel, 15, StepsLeft(pos, m)
  {
    if pos == rook then true
    else
      var here := GetPiece(b, pos);
      var passable :=
        if here.Slot? then b.pieces[here.index].kind == Rook || b.pieces[here.index].kind == King
        else !IsMarkedBy(b, pos, opponent, fuel);
      passable && CanGo(pos, m) && CastleWalk(b, Go(pos, m), rook, m, opponent, fuel)
  }

  /** The geometric part of Pawn::verifyMove, before its final checkMove: not the
      origin, never backwards for its colour, a double step only unmoved and over two
      empty squares, a diagonal step onto an empty square only beside an en-passant
      victim, a diagonal step otherwise not onto an own piece, and any other move
      except the single push only onto an empty square. */
  predicate PawnAllows(b: Board, me: Piece, d: Position)
    requires WellFormed(b)
  {
    if me.pos == d then false
    else
      var rankDiff := me.pos.rank - d.rank;
      var fileDiff := me.pos.file - d.file;
      if (me.color == White && rankDiff < 0) || (me.color == Black && rankDiff > 0) then false
      else if fileDiff == 0 && Abs(rankDiff) == 2 && me.moveCount == 0 then
        var m := BasicMoves[if rankDiff > 0 then U else D];
        var first := Go(me.pos, m);
        GetPiece(b, first).Null? && GetPiece(b, Go(first, m)).Null?
      else if DiagonalStep(rankDiff, fileDiff) && GetPiece(b, d).Null? then
        var adjacent := GetPiece(b, Go(me.pos, BasicMoves[if fileDiff > 0 then L else R]));
        adjacent.Slot? && EnPassantVictim(b.pieces[adjacent.index], me.color)
      else if DiagonalStep(rankDiff, fileDiff) then
        !OwnPieceAt(b, d, me.color)
      else if Abs(rankDiff) > 1 || fileDiff != 0 then
        GetPiece(b, d).Null?
      else
        true
  }

  /** Pawn::verifyMove: every branch that does not reject ends in checkMove. */
  function PawnVerify(b: Board, me: Piece, d: Position, fuel: nat): bool
    requires WellFormed(b) && Occupied(b, me.pos)
    decreases fuel, 18, 0
  {
    PawnAllows(b, me, d) && CheckMove(b, me.pos, d, me.color, fuel)
  }

  /** ChessBoard::checkMove: apply the move, ask whether colour c is then in check, and
      answer the opposite (the revert is Revert, proved to restore the board). */
  function CheckMove(b: Board, o: Position, d: Position, c: Color, fuel: nat): bool
    requires WellFormed(b) && Occupied(b, o)
    decreases fuel, 10, 0
  {
    !IsInCheck(ApplyMove(b, o, d).board, c, fuel)
  }

  /** ChessBoard::isInCheck: c's king's recorded square is marked by the opponent. */
  function IsInCheck(b: Board, c: Color, fuel: nat): bool
    requires WellFormed(b)
    decreases fuel, 8, 0
  {
    IsMarkedBy(b, b.pieces[KingOf(b, c)].pos, Opposite(c), fuel)
  }

  /** ChessBoard::isMarkedBy: the first piece met along each of the eight rays, then the
      piece on each knight offset, is of colour c and may move to p. */
  function IsMarkedBy(b: Board, p: Position, c: Color, fuel: nat): bool
    requires WellFormed(b)
    decreases fuel, 6, 0
  {
    fuel > 0 && (RaysMarked(b, p, c, 0, fuel) || KnightsMarked(b, p, c, 0, fuel))
  }

  /** The ray loop of isMarkedBy, from direction i on. */
  function RaysMarked(b: Board, p: Position, c: Color, i: nat, fuel: nat): bool
    requires WellFormed(b) && fuel > 0 && i <= 8
    decreases fuel, 4, 8 - i
  {
    BasicMovesAreUnitSteps();
    i < 8 && (RayMarked(b, p, p, BasicMoves[i], c, fuel) || RaysMarked(b, p, c, i + 1, fuel))
  }

  /** One ray of isMarkedBy, continued from pos: the first piece beyond pos decides. */
  function RayMarked(b: Board, target: Position, pos: Position, m: Offset, c: Color, fuel: nat): bool
    requires WellFormed(b) && fuel > 0 && IsUnitStep(m)
    decreases fuel, 3, StepsLeft(pos, m)
  {
    if !CanGo(pos, m) then false
    else
      var next := Go(pos, m);
      match GetPiece(b, next)
      case Null => RayMarked(b, target, next, m, c, fuel)
      case Slot(s) => b.pieces[s].color == c && VerifyMove(b, s, target, fuel - 1)
  }

  /** The knight loop of isMarkedBy, from entry i of knightMoves on. */
  function KnightsMarked(b: Board, p: Position, c: Color, i: nat, fuel: nat): bool
    requires WellFormed(b) && fuel > 0 && i <= 8
    decreases fuel, 4, 8 - i
  {
    if i == 8 then false
    else if CanGo(p, KnightMoves[i]) && OwnPieceAt(b, Go(p, KnightMoves[i]), c) &&
            VerifyMove(b, GetPiece(b, Go(p, KnightMoves[i])).index, p, fuel - 1) then true
    else KnightsMarked(b, p, c, i + 1, fuel)
  }

  // ---------------------------------------------------------------------------
  // canMove, stalemate and checkmate

  /** The probe loop of canMove: some probe from entry i on stays on the board and
      passes verifyMove. */
  function AnyProbe(b: Board, me: Piece, probes: seq<Offset>, i: nat, fuel: nat): bool
    requires WellFormed(b) && Occupied(b, me.pos) && i <= |probes|
    decreases |probes| - i
  {
    i < |probes| &&
    ((CanGo(me.pos, probes[i]) && VerifyAs(b, me, Go(me.pos, probes[i]), fuel)) ||
     AnyProbe(b, me, probes, i + 1, fuel))
  }

  /** The virtual call me->canMove(board). */
  function CanMoveAs(b: Board, me: Piece, fuel: nat): bool
    requires WellFormed(b) && Occupied(b, me.pos)
    decreases if me.kind == Queen then 1 else 0
  {
    match me.kind
    case Rook => AnyProbe(b, me, RookProbes, 0, fuel)
    case Knight => AnyProbe(b, me, KnightMoves, 0, fuel)
    case Bishop => AnyProbe(b, me, BishopProbes, 0, fuel)
    case King => AnyProbe(b, me, BasicMoves, 0, fuel)
    case Queen =>
      StrRoundTrip(me.pos);
      CanMoveAs(b, NewPiece(Str(me.pos), me.color, Rook), fuel) ||
      CanMoveAs(b, NewPiece(Str(me.pos), me.color, Bishop), fuel)
    case Pawn =>
      // The direction is taken from the side to move, not from the pawn's colour.
      var m := BasicMoves[if b.active == White then U else D];
      CanGo(me.pos, m) && CanGo(Go(me.pos, m), m) &&
      (VerifyAs(b, me, Go(me.pos, m), fuel) || VerifyAs(b, me, Go(Go(me.pos, m), m), fuel))
  }

  /** canMove of the piece in slot s. */
  function CanMove(b: Board, s: nat, fuel: nat): bool
    requires WellFormed(b) && OnGrid(b, s)
  {
    CanMoveAs(b, b.pieces[s], fuel)
  }

  /** A piece of colour c on square p can move. */
  predicate HasMover(b: Board, c: Color, p: Position, fuel: nat)
    requires WellFormed(b)
  {
    OwnPieceAt(b, p, c) && CanMove(b, GetPiece(b, p).index, fuel)
  }

  /** The scan of one row of isInStalemate from `file` on: no square there holds a
      piece of colour c that can move. */
  function RowClear(b: Board, c: Color, rank: int, file: int, fuel: nat): bool
    requires WellFormed(b) && 0 <= rank < 8 && 0 <= file <= 8
    decreases 8 - file
  {
    if file == 8 then true
    else !HasMover(b, c, FromIndices(rank, file), fuel) && RowClear(b, c, rank, file + 1, fuel)
  }

  /** The scan of isInStalemate from row `rank` on. */
  function StalemateFrom(b: Board, c: Color, rank: int, fuel: nat): bool
    requires WellFormed(b) && 0 <= rank <= 8
    decreases 8 - rank
  {
    if rank == 8 then true
    else RowClear(b, c, rank, 0, fuel) && StalemateFrom(b, c, rank + 1, fuel)
  }

  /** ChessBoard::isInStalemate. */
  function IsInStalemate(b: Board, c: Color, fuel: nat): bool
    requires WellFormed(b)
  {
    StalemateFrom(b, c, 0, fuel)
  }

  /** ChessBoard::isInCheckmate. */
  function IsInCheckmate(b: Board, c: Color, fuel: nat): bool
    requires WellFormed(b)
  {
    IsInStalemate(b, c, fuel) && IsMarkedBy(b, b.pieces[KingOf(b, c)].pos, Opposite(c), fuel)
  }

  // ---------------------------------------------------------------------------
  // Move submission

  /** submitMove(origin, destination): the new board and what is reported. */
  /** The origin of submitMove holds a piece of the side to move: only then is the
      destination parsed. */
  predicate TurnPiece(b: Board, origin: string)
    requires WellFormed(b) && Parsable(origin)
  {
    OwnPieceAt(b, FromString(origin), b.active)
  }

  /** submitMove(origin, destination): the new board and what is reported. The
      destination is parsed only once the origin holds a piece of the side to move. */
  function Submit(b: Board, origin: string, destination: string, fuel: nat): (r: (Board, Status))
    requires WellFormed(b) && Parsable(origin)
    requires TurnPiece(b, origin) ==> Parsable(destination)
    ensures WellFormed(r.0) && r.1 != InvalidSingletonMove
    ensures r.1 == NoPieceAtOrigin <==> GetPiece(b, FromString(origin)).Null?
    ensures r.1 == NotYourTurn <==> Occupied(b, FromString(origin)) && !TurnPiece(b, origin)
    ensures TurnPiece(b, origin) ==>
      (r.1 == IllegalMove <==> !VerifyMove(b, GetPiece(b, FromString(origin)).index, FromString(destination), fuel))
    ensures r.1 == NoPieceAtOrigin || r.1 == NotYourTurn || r.1 == IllegalMove ==> r.0 == b
    ensures TurnPiece(b, origin) && VerifyMove(b, GetPiece(b, FromString(origin)).index, FromString(destination), fuel) ==>
      var after := ApplyMove(b, FromString(origin), FromString(destination)).board;
      r.0.cells == after.cells && r.0.pieces == after.pieces &&
      r.0.whiteKing == after.whiteKing && r.0.blackKing == after.blackKing
    ensures r.1 == Check || r.1 == Normal ==> r.0.active == Opposite(b.active)
    ensures r.1 == Checkmate || r.1 == Stalemate ==> r.0.active == b.active
  {
    var o := FromString(origin);
    match GetPiece(b, o)
    case Null => (b, NoPieceAtOrigin)
    case Slot(s) =>
      if b.pieces[s].color != b.active then (b, NotYourTurn)
      else Attempt(b, o, FromString(destination), fuel)
  }

  /** The rest of submitMove once the origin holds a piece of the side to move: the
      piece's verifyMove decides, and an accepted move is played and concluded. */
  function Attempt(b: Board, o: Position, d: Position, fuel: nat): (r: (Board, Status))
    requires WellFormed(b) && OwnPieceAt(b, o, b.active)
    ensures WellFormed(r.0) && r.1 != InvalidSingletonMove && r.1 != NoPieceAtOrigin && r.1 != NotYourTurn
    ensures r.1 == IllegalMove <==> !VerifyMove(b, GetPiece(b, o).index, d, fuel)
    ensures r.1 == IllegalMove ==> r.0 == b
    ensures r.1 != IllegalMove ==>
      var after := ApplyMove(b, o, d).board;
      r.0.cells == after.cells && r.0.pieces == after.pieces &&
      r.0.whiteKing == after.whiteKing && r.0.blackKing == after.blackKing
    ensures r.1 == Check || r.1 == Normal ==> r.0.active == Opposite(b.active)
    ensures r.1 == Checkmate || r.1 == Stalemate ==> r.0.active == b.active
  {
    if !VerifyMove(b, GetPiece(b, o).index, d, fuel) then (b, IllegalMove)
    else Conclude(ApplyMove(b, o, d).board, Opposite(b.active), fuel)
  }

  /** The end of submitMove once the move is played: checkmate or stalemate of the
      opponent ends the game with the turn unchanged; otherwise the turn passes to the
      opponent, and a check is reported. */
  function Conclude(after: Board, opponent: Color, fuel: nat): (r: (Board, Status))
    requires WellFormed(after)
    ensures WellFormed(r.0) && r.0.cells == after.cells && r.0.pieces == after.pieces
    ensures r.0.whiteKing == after.whiteKing && r.0.blackKing == after.blackKing
    ensures r.1 == Checkmate || r.1 == Stalemate || r.1 == Check || r.1 == Normal
    ensures r.1 == Checkmate || r.1 == Stalemate ==> r.0 == after
    ensures r.1 == Check || r.1 == Normal ==> r.0.active == opponent
  {
    if IsInCheckmate(after, opponent, fuel) then (after, Checkmate)
    else if IsInStalemate(after, opponent, fuel) then (after, Stalemate)
    else (after.(active := opponent), if IsInCheck(after, opponent, fuel) then Check else Normal)
  }

  /** submitMove(castleCode): "O-O" and "O-O-O" are king moves from the E square of the
      side to move to its G or C square; any other code changes nothing. */
  function SubmitCastle(b: Board, code: string, fuel: nat): (r: (Board, Status))
    requires WellFormed(b) && |code| <= 5
    ensures r.1 == InvalidSingletonMove <==> code != "O-O" && code != "O-O-O"
    ensures r.1 == InvalidSingletonMove ==> r.0 == b
  {
    if code == "O-O" then
      Submit(b, if b.active == White then "E1" else "E8", if b.active == White then "G1" else "G8", fuel)
    else if code == "O-O-O" then
      Submit(b, if b.active == White then "E1" else "E8", if b.active == White then "C1" else "C8", fuel)
    else
      (b, InvalidSingletonMove)
  }

  // ---------------------------------------------------------------------------
  // The initial position

  /** The back-rank kinds from file A to file H. */
  function BackRank(file: int): Kind
    requires 0 <= file < 8
  {
    [Rook, Knight, Bishop, Queen, King, Bishop, Knight, Rook][file]
  }

  /** What initialiseBoard puts on a square, if anything. */
  datatype Occupant = Vacant | Start(color: Color, kind: Kind)

  /** Black on rows "8" and "7", White on rows "2" and "1", pawns on the inner rows and
      the back-rank kinds on the outer rows; nothing elsewhere. */
  function StartOccupant(p: Position): Occupant {
    if p.rank == 0 || p.rank == 7 then Start(if p.rank == 0 then Black else White, BackRank(p.file))
    else if p.rank == 1 || p.rank == 6 then Start(if p.rank == 1 then Black else White, Pawn)
    else Vacant
  }

  /** Square p holds its starting occupant, unmoved, or is empty if it has none. */
  ghost predicate StartingSquare(b: Board, p: Position)
    requires CellsWellFormed(b)
  {
    match StartOccupant(p)
    case Vacant => GetPiece(b, p).Null?
    case Start(c, k) => GetPiece(b, p).Slot? && b.pieces[GetPiece(b, p).index] == Piece(c, k, p, 0)
  }

  /** The standard initial position with White to move and the king references on E1
      and E8. */
  ghost predicate Initial(b: Board) {
    && WellFormed(b)
    && b.active == White
    && GetPiece(b, FromString("E1")) == Slot(b.whiteKing)
    && GetPiece(b, FromString("E8")) == Slot(b.blackKing)
    && forall p: Position :: StartingSquare(b, p)
  }
}
