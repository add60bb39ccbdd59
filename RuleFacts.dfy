/** Properties of the board mechanics and of the piece rules of Rules. */
module RuleFacts {
  import opened Positions
  import opened Pieces
  import opened Rules

  // ---------------------------------------------------------------------------
  // movePiece, move and the revert of checkMove

  /** movePiece changes only the cells of the piece's old square and of q, and only the
      piece it moves. */
  lemma MovePieceFrame(b: Board, s: nat, q: Position)
    requires CellsWellFormed(b) && s < |b.pieces|
    ensures GetPiece(MovePiece(b, Slot(s), q), q) == Slot(s)
    ensures MovePiece(b, Slot(s), q).pieces[s].pos == q
    ensures forall t :: 0 <= t < |b.pieces| && t != s ==> MovePiece(b, Slot(s), q).pieces[t] == b.pieces[t]
    ensures forall p: Position :: p != q && p != b.pieces[s].pos ==>
      GetPiece(MovePiece(b, Slot(s), q), p) == GetPiece(b, p)
    ensures q != b.pieces[s].pos ==> GetPiece(MovePiece(b, Slot(s), q), b.pieces[s].pos) == Null
  {
    IdxInjective();
  }

  /** movePiece(NULL, q) empties q and changes no other cell and no piece. */
  lemma MovePieceNullFrame(b: Board, q: Position)
    requires CellsWellFormed(b)
    ensures GetPiece(MovePiece(b, Null, q), q).Null?
    ensures MovePiece(b, Null, q).pieces == b.pieces
    ensures forall p: Position :: p != q ==> GetPiece(MovePiece(b, Null, q), p) == GetPiece(b, p)
  {
    IdxInjective();
  }

  /** The revert of checkMove gives back the board checkMove started from, for every
      move that is not a castling. */
  lemma RevertRestores(b: Board, o: Position, d: Position)
    requires WellFormed(b) && Occupied(b, o) && !CastlingShape(b, o, d)
    ensures Revert(ApplyMove(b, o, d), GetPiece(b, o).index, o) == b
  {
    var s := GetPiece(b, o).index;
    if b.pieces[s].kind == Pawn && GetPiece(b, d).Null? && o.file != d.file {
      RevertEnPassant(b, s, o, d);
    } else {
      RevertOrdinary(b, s, o, d);
    }
  }

  /** Undoing a move onto d that captured d's occupant. */
  lemma RevertOrdinary(b: Board, s: nat, o: Position, d: Position)
    requires WellFormed(b) && GetPiece(b, o) == Slot(s)
    ensures Revert(Applied(MovePiece(AddToCount(b, s, 1), Slot(s), d), GetPiece(b, d)), s, o) == b
  {
    IdxInjective();
    var r := Revert(Applied(MovePiece(AddToCount(b, s, 1), Slot(s), d), GetPiece(b, d)), s, o);
    assert r.pieces == b.pieces by {
      forall t | 0 <= t < |b.pieces| ensures r.pieces[t] == b.pieces[t] {
      }
    }
    assert r.cells == b.cells by {
      forall i | 0 <= i < 64 ensures r.cells[i] == b.cells[i] {
        assert Idx(FromIndices(i / 8, i % 8)) == i;
      }
    }
  }

  /** Undoing an en-passant move of the pawn in slot s from o to d. */
  lemma RevertEnPassant(b: Board, s: nat, o: Position, d: Position)
    requires WellFormed(b) && GetPiece(b, o) == Slot(s) && GetPiece(b, d).Null? && o.file != d.file
    ensures Revert(EnPassant(AddToCount(b, s, 1), s, d), s, o) == b
  {
    var b1 := AddToCount(b, s, 1);
    var rank := EnPassantRank(b1, d);
    if ValidPosition(rank, d.file) && GetPiece(b1, FromIndices(rank, d.file)).Slot? {
      var e := FromIndices(rank, d.file);
      RevertCapture(b, s, o, d, e, GetPiece(b, e).index);
    } else {
      RevertOrdinary(b, s, o, d);
    }
  }

  /** Undoing a move of slot s from o to d that took slot t off square e, away from
      both. */
  lemma RevertCapture(b: Board, s: nat, o: Position, d: Position, e: Position, t: nat)
    requires WellFormed(b) && GetPiece(b, o) == Slot(s) && GetPiece(b, d).Null?
    requires GetPiece(b, e) == Slot(t) && e != o && e != d
    ensures var b2 := MovePiece(AddToCount(b, s, 1), Slot(s), d);
            Revert(Applied(MovePiece(b2, Null, b2.pieces[t].pos), Slot(t)), s, o) == b
  {
    assert s != t;
    assert Idx(o) != Idx(d) && Idx(o) != Idx(e) && Idx(d) != Idx(e);
    var b2 := MovePiece(AddToCount(b, s, 1), Slot(s), d);
    var r := Revert(Applied(MovePiece(b2, Null, b2.pieces[t].pos), Slot(t)), s, o);
    assert r.pieces == b.pieces by {
      forall u | 0 <= u < |b.pieces| ensures r.pieces[u] == b.pieces[u] {
      }
    }
    assert r.cells == b.cells by {
      forall i | 0 <= i < 64 ensures r.cells[i] == b.cells[i] {
      }
    }
  }

  /** Only recorded positions differ between the two arenas. */
  ghost predicate SameRecords(x: seq<Piece>, y: seq<Piece>) {
    |x| == |y| && forall t :: 0 <= t < |x| ==> y[t] == x[t].(pos := y[t].pos)
  }

  /** movePiece keeps every piece's colour, kind and counter; only recorded positions
      change. */
  lemma MovePieceKeepsRecords(b: Board, piece: Ref, q: Position)
    requires CellsWellFormed(b) && (piece.Slot? ==> piece.index < |b.pieces|)
    ensures SameRecords(b.pieces, MovePiece(b, piece, q).pieces)
  {
  }

  lemma SameRecordsTransitive(x: seq<Piece>, y: seq<Piece>, z: seq<Piece>)
    requires SameRecords(x, y) && SameRecords(y, z)
    ensures SameRecords(x, z)
  {
  }

  /** move raises the mover's counter by exactly one and changes no other piece's
      colour, kind or counter. */
  lemma MoveCountsOnce(b: Board, o: Position, d: Position)
    requires WellFormed(b) && Occupied(b, o)
    ensures var s := GetPiece(b, o).index;
      SameRecords(AddToCount(b, s, 1).pieces, ApplyMove(b, o, d).board.pieces)
    ensures var s := GetPiece(b, o).index; var after := ApplyMove(b, o, d).board;
      && after.pieces[s].moveCount == b.pieces[s].moveCount + 1
      && forall t :: 0 <= t < |b.pieces| && t != s ==> after.pieces[t] == b.pieces[t].(pos := after.pieces[t].pos)
  {
    var s := GetPiece(b, o).index;
    var b1 := AddToCount(b, s, 1);
    MovePieceKeepsRecords(b1, Slot(s), d);
    var b2 := MovePiece(b1, Slot(s), d);
    var after := ApplyMove(b, o, d).board;
    if b.pieces[s].kind == Pawn && GetPiece(b, d).Null? && o.file != d.file {
      assert after == EnPassant(b1, s, d).board;
      var rank := EnPassantRank(b1, d);
      if ValidPosition(rank, d.file) && GetPiece(b1, FromIndices(rank, d.file)).Slot? {
        var q := b2.pieces[GetPiece(b1, FromIndices(rank, d.file)).index].pos;
        assert after == MovePiece(b2, Null, q);
        MovePieceKeepsRecords(b2, Null, q);
        SameRecordsTransitive(b1.pieces, b2.pieces, after.pieces);
      } else {
        assert after == b2;
      }
    } else if b.pieces[s].kind == King && Abs(o.file - d.file) == 2 {
      var fileDiff := o.file - d.file;
      var rook := GetPiece(b1, CastleCorner(b1.active, fileDiff > 0));
      var q := Go(b2.pieces[s].pos, BasicMoves[if fileDiff > 0 then R else L]);
      assert after == Castle(b1, s, o, d) == MovePiece(b2, rook, q);
      MovePieceKeepsRecords(b2, rook, q);
      SameRecordsTransitive(b1.pieces, b2.pieces, after.pieces);
    } else {
      assert after == b2;
    }
  }

  /** The ordinary branch of move: the destination's occupant is returned as captured,
      the mover stands on the destination and records it, the origin is left empty and
      no other cell changes. */
  lemma OrdinaryMove(b: Board, o: Position, d: Position)
    requires WellFormed(b) && Occupied(b, o) && o != d && !CastlingShape(b, o, d)
    requires !(b.pieces[GetPiece(b, o).index].kind == Pawn && GetPiece(b, d).Null? && o.file != d.file)
    ensures var s := GetPiece(b, o).index; var r := ApplyMove(b, o, d);
      && r.captured == GetPiece(b, d)
      && GetPiece(r.board, d) == Slot(s) && r.board.pieces[s].pos == d
      && GetPiece(r.board, o).Null?
      && forall p: Position :: p != o && p != d ==> GetPiece(r.board, p) == GetPiece(b, p)
  {
    var s := GetPiece(b, o).index;
    MovePieceFrame(AddToCount(b, s, 1), s, d);
  }

  /** The en-passant branch of move, when the en-passant square is on the board: the
      piece found there is returned as captured and that square is emptied, the pawn
      stands on the destination and the origin is left empty. */
  lemma EnPassantMove(b: Board, o: Position, d: Position)
    requires WellFormed(b) && Occupied(b, o)
    requires b.pieces[GetPiece(b, o).index].kind == Pawn && GetPiece(b, d).Null? && o.file != d.file
    requires ValidPosition(EnPassantRank(b, d), d.file)
    ensures var s := GetPiece(b, o).index; var r := ApplyMove(b, o, d);
      var e := FromIndices(EnPassantRank(b, d), d.file);
      && r.captured == GetPiece(b, e)
      && GetPiece(r.board, e).Null?
      && GetPiece(r.board, d) == Slot(s) && r.board.pieces[s].pos == d
      && GetPiece(r.board, o).Null?
  {
    IdxInjective();
    var s := GetPiece(b, o).index;
    var b1 := AddToCount(b, s, 1);
    var e := FromIndices(EnPassantRank(b, d), d.file);
    assert e != d && e != o;
    MovePieceFrame(b1, s, d);
  }

  /** The castling branch of move: nothing is captured, the king stands on the
      destination and the piece on the corner the side to move castles towards stands
      on the square beside the king on the origin side (unless that piece is the king
      itself or the king lands on the corner); with an empty corner that square is
      emptied. */
  lemma CastleMove(b: Board, o: Position, d: Position)
    requires WellFormed(b) && CastlingShape(b, o, d)
    ensures var s := GetPiece(b, o).index; var r := ApplyMove(b, o, d);
      var rook := GetPiece(b, CastleCorner(b.active, o.file - d.file > 0));
      var m := BasicMoves[if o.file - d.file > 0 then R else L];
      && r.captured == Null
      && CanGo(d, m)
      && (rook.Slot? && rook.index != s && CastleCorner(b.active, o.file - d.file > 0) != d ==>
            GetPiece(r.board, d) == Slot(s) && GetPiece(r.board, Go(d, m)) == rook && r.board.pieces[rook.index].pos == Go(d, m))
      && (rook.Null? ==> GetPiece(r.board, d) == Slot(s) && GetPiece(r.board, Go(d, m)).Null?)
  {
    var s := GetPiece(b, o).index;
    var b1 := AddToCount(b, s, 1);
    assert ApplyMove(b, o, d) == Applied(Castle(b1, s, o, d), Null);
    CastleSteps(b1, s, o, d);
  }

  /** The castling step on its own. */
  lemma CastleSteps(b: Board, s: nat, o: Position, d: Position)
    requires CellsWellFormed(b) && s < |b.pieces| && Abs(o.file - d.file) == 2
    ensures var rook := GetPiece(b, CastleCorner(b.active, o.file - d.file > 0));
      var m := BasicMoves[if o.file - d.file > 0 then R else L];
      var r := Castle(b, s, o, d);
      && CanGo(d, m)
      && (rook.Slot? && rook.index != s && CastleCorner(b.active, o.file - d.file > 0) != d ==>
            GetPiece(r, d) == Slot(s) && GetPiece(r, Go(d, m)) == rook && r.pieces[rook.index].pos == Go(d, m))
      && (rook.Null? ==> GetPiece(r, d) == Slot(s) && GetPiece(r, Go(d, m)).Null?)
  {
    var m := BasicMoves[if o.file - d.file > 0 then R else L];
    var corner := CastleCorner(b.active, o.file - d.file > 0);
    var rook := GetPiece(b, corner);
    var b2 := MovePiece(b, Slot(s), d);
    assert b2.pieces[s].pos == d;
    if rook.Slot? && rook.index != s && corner != d {
      var q := Go(d, m);
      assert b2.pieces[rook.index].pos == corner;
      assert b2.cells[Idx(d)] == Slot(s);
      assert Idx(d) != Idx(q) && Idx(d) != Idx(corner);
    } else if rook.Null? {
      assert b2.cells[Idx(d)] == Slot(s);
      assert Idx(d) != Idx(Go(d, m));
    }
  }

  // ---------------------------------------------------------------------------
  // isMarkedBy

  /** q is the first occupied square after pos along m: ahead of pos, occupied, and
      every square strictly between them empty. */
  ghost predicate FirstOnRay(b: Board, pos: Position, q: Position, m: Offset)
    requires WellFormed(b)
  {
    && q != pos && Toward(pos, q, m) && Occupied(b, q)
    && forall x: Position :: x != pos && x != q && Toward(pos, x, m) && Toward(x, q, m) ==> GetPiece(b, x).Null?
  }

  /** The piece on q is of colour c and its verifyMove to the target succeeds. */
  predicate AttacksFrom(b: Board, q: Position, c: Color, target: Position, fuel: nat)
    requires WellFormed(b)
  {
    OwnPieceAt(b, q, c) && VerifyMove(b, GetPiece(b, q).index, target, fuel)
  }

  /** Past an empty first square, the first piece on the ray is the same. */
  lemma FirstOnRayPast(b: Board, pos: Position, q: Position, m: Offset)
    requires WellFormed(b) && IsUnitStep(m) && CanGo(pos, m) && GetPiece(b, Go(pos, m)).Null?
    ensures FirstOnRay(b, pos, q, m) <==> FirstOnRay(b, Go(pos, m), q, m)
  {
    var next := Go(pos, m);
    StepInto(pos, q, m);
    if FirstOnRay(b, pos, q, m) {
      forall x: Position | x != next && x != q && Toward(next, x, m) && Toward(x, q, m)
        ensures GetPiece(b, x).Null?
      {
        StepInto(pos, x, m);
      }
    }
    if FirstOnRay(b, next, q, m) {
      forall x: Position | x != pos && x != q && Toward(pos, x, m) && Toward(x, q, m)
        ensures GetPiece(b, x).Null?
      {
        StepInto(pos, x, m);
      }
    }
  }

  /** When the first square along the ray is occupied, it is the first piece met. */
  lemma FirstOnRayAt(b: Board, pos: Position, q: Position, m: Offset)
    requires WellFormed(b) && IsUnitStep(m) && CanGo(pos, m) && Occupied(b, Go(pos, m))
    ensures FirstOnRay(b, pos, q, m) <==> q == Go(pos, m)
  {
    var next := Go(pos, m);
    StepInto(pos, q, m);
    StepInto(pos, next, m);
    if q == next {
      forall x: Position | x != pos && x != q && Toward(pos, x, m) && Toward(x, q, m) ensures false {
        StepInto(pos, x, m);
        TowardBothWays(next, x, m);
      }
    }
  }

  /** One ray of isMarkedBy answers true exactly when the first piece met beyond pos is
      of colour c and may move to the target. */
  lemma {:induction false} RayMarkedAttacker(b: Board, target: Position, pos: Position, m: Offset, c: Color, fuel: nat)
    requires WellFormed(b) && fuel > 0 && IsUnitStep(m)
    ensures RayMarked(b, target, pos, m, c, fuel) <==>
      exists q: Position :: FirstOnRay(b, pos, q, m) && AttacksFrom(b, q, c, target, fuel - 1)
    decreases StepsLeft(pos, m)
  {
    if !CanGo(pos, m) {
      forall q: Position | FirstOnRay(b, pos, q, m) ensures false {
        OffBoardNotToward(pos, q, m);
      }
    } else {
      var next := Go(pos, m);
      match GetPiece(b, next)
      case Null =>
        RayMarkedAttacker(b, target, next, m, c, fuel);
        forall q: Position ensures FirstOnRay(b, pos, q, m) <==> FirstOnRay(b, next, q, m) {
          FirstOnRayPast(b, pos, q, m);
        }
      case Slot(s) =>
        forall q: Position ensures FirstOnRay(b, pos, q, m) <==> q == next {
          FirstOnRayAt(b, pos, q, m);
        }
        assert FirstOnRay(b, pos, next, m);
    }
  }

  /** The ray loop of isMarkedBy, from direction i on, answers true exactly when on some
      ray j >= i the first piece met is of colour c and may move to p. */
  lemma {:induction false} RaysMarkedAttacker(b: Board, p: Position, c: Color, i: nat, fuel: nat)
    requires WellFormed(b) && fuel > 0 && i <= 8
    ensures RaysMarked(b, p, c, i, fuel) <==>
      exists j: nat, q: Position :: i <= j < 8 && FirstOnRay(b, p, q, BasicMoves[j]) && AttacksFrom(b, q, c, p, fuel - 1)
    decreases 8 - i
  {
    BasicMovesAreUnitSteps();
    if i < 8 {
      RayMarkedAttacker(b, p, p, BasicMoves[i], c, fuel);
      RaysMarkedAttacker(b, p, c, i + 1, fuel);
    }
  }

  /** The knight loop of isMarkedBy, from entry i on, answers true exactly when some
      knightMoves entry j >= i leads from p to a piece of colour c that may move to p. */
  lemma {:induction false} KnightsMarkedAttacker(b: Board, p: Position, c: Color, i: nat, fuel: nat)
    requires WellFormed(b) && fuel > 0 && i <= 8
    ensures KnightsMarked(b, p, c, i, fuel) <==>
      exists j: nat :: i <= j < 8 && CanGo(p, KnightMoves[j]) && AttacksFrom(b, Go(p, KnightMoves[j]), c, p, fuel - 1)
    decreases 8 - i
  {
    if i < 8 {
      KnightsMarkedAttacker(b, p, c, i + 1, fuel);
    }
  }

  /** isMarkedBy answers true exactly when, with fuel left, the first piece met on one of
      the eight rays from p, or the piece on one of the knightMoves squares, is of colour
      c and may move to p (verified with one unit of fuel less). Such a piece stands on
      the grid. */
  lemma MarkedHasAttacker(b: Board, p: Position, c: Color, fuel: nat)
    requires WellFormed(b)
    ensures IsMarkedBy(b, p, c, fuel) <==>
      fuel > 0 &&
      ((exists j: nat, q: Position :: j < 8 && FirstOnRay(b, p, q, BasicMoves[j]) && AttacksFrom(b, q, c, p, fuel - 1)) ||
       (exists j: nat :: j < 8 && CanGo(p, KnightMoves[j]) && AttacksFrom(b, Go(p, KnightMoves[j]), c, p, fuel - 1)))
    ensures IsMarkedBy(b, p, c, fuel) ==>
      fuel > 0 && exists s: nat :: OnGrid(b, s) && b.pieces[s].color == c && VerifyMove(b, s, p, fuel - 1)
  {
    if fuel > 0 {
      RaysMarkedAttacker(b, p, c, 0, fuel);
      KnightsMarkedAttacker(b, p, c, 0, fuel);
      if RaysMarked(b, p, c, 0, fuel) {
        var j: nat, q: Position :| j < 8 && FirstOnRay(b, p, q, BasicMoves[j]) && AttacksFrom(b, q, c, p, fuel - 1);
        assert OnGrid(b, GetPiece(b, q).index);
      } else if KnightsMarked(b, p, c, 0, fuel) {
        var j: nat :| j < 8 && CanGo(p, KnightMoves[j]) && AttacksFrom(b, Go(p, KnightMoves[j]), c, p, fuel - 1);
        assert OnGrid(b, GetPiece(b, Go(p, KnightMoves[j])).index);
      }
    }
  }

  // ---------------------------------------------------------------------------
  // isInStalemate and isInCheckmate

  /** The scan of one row from `file` on finds no mover exactly when no square of that
      row from `file` on holds a piece of colour c that can move. */
  lemma {:induction false} RowClearIff(b: Board, c: Color, rank: int, file: int, fuel: nat)
    requires WellFormed(b) && 0 <= rank < 8 && 0 <= file <= 8
    ensures RowClear(b, c, rank, file, fuel) <==>
      forall p: Position :: p.rank == rank && p.file >= file ==> !HasMover(b, c, p, fuel)
    decreases 8 - file
  {
    if file < 8 {
      RowClearIff(b, c, rank, file + 1, fuel);
      assert RowClear(b, c, rank, file, fuel) ==
        (!HasMover(b, c, FromIndices(rank, file), fuel) && RowClear(b, c, rank, file + 1, fuel));
      assert forall p: Position :: p.rank == rank && p.file == file ==> p == FromIndices(rank, file);
    }
  }

  /** The scan from row `rank` on finds no mover exactly when no square from that row on
      holds a piece of colour c that can move. */
  lemma {:induction false} StalemateFromIff(b: Board, c: Color, rank: int, fuel: nat)
    requires WellFormed(b) && 0 <= rank <= 8
    ensures StalemateFrom(b, c, rank, fuel) <==> forall p: Position :: p.rank >= rank ==> !HasMover(b, c, p, fuel)
    decreases 8 - rank
  {
    if rank < 8 {
      RowClearIff(b, c, rank, 0, fuel);
      StalemateFromIff(b, c, rank + 1, fuel);
      assert StalemateFrom(b, c, rank, fuel) == (RowClear(b, c, rank, 0, fuel) && StalemateFrom(b, c, rank + 1, fuel));
    }
  }

  /** isInStalemate(c) holds exactly when no piece of colour c on the grid can move. */
  lemma StalemateMeansNoMover(b: Board, c: Color, fuel: nat)
    requires WellFormed(b)
    ensures IsInStalemate(b, c, fuel) <==> forall p: Position :: !HasMover(b, c, p, fuel)
  {
    StalemateFromIff(b, c, 0, fuel);
  }

  /** isInCheckmate(c) holds exactly when c is in check and no piece of colour c on the
      grid can move; so checkmate implies both check and the stalemate predicate. */
  lemma CheckmateMeansCheckAndNoMover(b: Board, c: Color, fuel: nat)
    requires WellFormed(b)
    ensures IsInCheckmate(b, c, fuel) <==> IsInCheck(b, c, fuel) && forall p: Position :: !HasMover(b, c, p, fuel)
    ensures IsInCheckmate(b, c, fuel) ==> IsInStalemate(b, c, fuel)
  {
    StalemateMeansNoMover(b, c, fuel);
  }

  // ---------------------------------------------------------------------------
  // initialiseBoard

  /** Every square in placed holds its starting occupant; every other square is empty. */
  ghost predicate LaidOut(b: Board, placed: iset<Position>)
    requires CellsWellFormed(b)
  {
    forall p: Position :: if p in placed then StartingSquare(b, p) else GetPiece(b, p).Null?
  }

  /** The squares of rows "8" and "1". */
  ghost function BackRankSquares(): iset<Position> {
    iset p: Position | p.rank == 0 || p.rank == 7
  }

  /** The squares of rows "8" and "1" on the given files. */
  ghost function BackFiles(files: set<int>): iset<Position> {
    iset p: Position | (p.rank == 0 || p.rank == 7) && p.file in files
  }

  /** Adding file f's two back-row squares to the back rows of some files gives the back
      rows of those files and f. */
  lemma BackFilesStep(files: set<int>, f: int)
    requires 0 <= f < 8
    ensures BackFiles(files) + iset{FromIndices(0, f)} + iset{FromIndices(7, f)} == BackFiles(files + {f})
  {
  }

  /** The back rows of all eight files are the two back rows. */
  lemma AllBackFiles(files: set<int>)
    requires forall f :: 0 <= f < 8 ==> f in files
    ensures BackFiles(files) == BackRankSquares()
  {
  }

  /** The squares of rows "7" and "2" on the first `files` files. */
  ghost function PawnSquares(files: int): iset<Position> {
    iset p: Position | (p.rank == 1 || p.rank == 6) && p.file < files
  }

  /** Adding file i's two pawn squares to the pawn squares of the files before i gives
      the pawn squares of the files up to i. */
  lemma PawnFilesStep(i: int)
    requires 0 <= i < 8
    ensures BackRankSquares() + PawnSquares(i) + iset{FromIndices(6, i)} + iset{FromIndices(1, i)}
         == BackRankSquares() + PawnSquares(i + 1)
  {
  }

  /** Placing a new, unmoved piece on a square outside the layout whose starting
      occupant has that piece's colour and kind extends the layout by that square. */
  lemma PlaceStep(b: Board, placed: iset<Position>, piece: Piece)
    requires CellsWellFormed(b) && LaidOut(b, placed) && piece.pos !in placed
    requires StartOccupant(piece.pos) == Start(piece.color, piece.kind) && piece.moveCount == 0
    ensures LaidOut(AddPiece(b, piece), placed + iset{piece.pos})
  {
    IdxInjective();
    var r := AddPiece(b, piece);
    forall p: Position ensures if p in placed + iset{piece.pos} then StartingSquare(r, p) else GetPiece(r, p).Null? {
      if p != piece.pos {
        assert GetPiece(r, p) == GetPiece(b, p);
      }
    }
  }

  /** The two back-row pieces initialiseBoard places on a file: Black on row "8", then
      White on row "1", extend the back-row layout by that file. */
  lemma BackPairStep(b: Board, files: set<int>, letter: char, kind: Kind)
    requires CellsWellFormed(b) && 'A' <= letter <= 'H'
    requires letter as int - 'A' as int !in files && BackRank(letter as int - 'A' as int) == kind
    requires LaidOut(b, BackFiles(files))
    ensures LaidOut(AddPiece(AddPiece(b, NewPiece([letter, '8'], Black, kind)), NewPiece([letter, '1'], White, kind)),
                    BackFiles(files + {letter as int - 'A' as int}))
  {
    var f := letter as int - 'A' as int;
    var black, white := NewPiece([letter, '8'], Black, kind), NewPiece([letter, '1'], White, kind);
    assert black.pos == FromIndices(0, f) && white.pos == FromIndices(7, f);
    PlaceStep(b, BackFiles(files), black);
    PlaceStep(AddPiece(b, black), BackFiles(files) + iset{black.pos}, white);
    BackFilesStep(files, f);
  }

  /** The two pawns initialiseBoard places on file i: White on row "2", then Black on
      row "7", extend the pawn layout by that file. */
  lemma PawnPairStep(b: Board, i: int)
    requires CellsWellFormed(b) && 0 <= i < 8
    requires LaidOut(b, BackRankSquares() + PawnSquares(i))
    ensures LaidOut(AddPiece(AddPiece(b, NewPiece([('A' as int + i) as char, '2'], White, Pawn)),
                             NewPiece([('A' as int + i) as char, '7'], Black, Pawn)),
                    BackRankSquares() + PawnSquares(i + 1))
  {
    var white := NewPiece([('A' as int + i) as char, '2'], White, Pawn);
    var black := NewPiece([('A' as int + i) as char, '7'], Black, Pawn);
    assert white.pos == FromIndices(6, i) && black.pos == FromIndices(1, i);
    PlaceStep(b, BackRankSquares() + PawnSquares(i), white);
    PlaceStep(AddPiece(b, white), BackRankSquares() + PawnSquares(i) + iset{white.pos}, black);
    PawnFilesStep(i);
  }

  /** Once both back rows and all pawn rows are laid out, E1 and E8 hold the kings, and
      the board with those king references and White to move is the initial position. */
  lemma LaidOutInitial(b: Board)
    requires CellsWellFormed(b) && LaidOut(b, BackRankSquares() + PawnSquares(8))
    ensures GetPiece(b, FromString("E1")).Slot? && GetPiece(b, FromString("E8")).Slot?
    ensures Initial(b.(whiteKing := GetPiece(b, FromString("E1")).index,
                       blackKing := GetPiece(b, FromString("E8")).index, active := White))
  {
    assert StartingSquare(b, FromString("E1")) && StartingSquare(b, FromString("E8"));
    var r := b.(whiteKing := GetPiece(b, FromString("E1")).index,
                blackKing := GetPiece(b, FromString("E8")).index, active := White);
    forall p: Position ensures StartingSquare(r, p) {
      assert StartingSquare(b, p);
    }
  }
}
