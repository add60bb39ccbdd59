/** The ChessBoard class of ChessBoard.cpp and the verifyMove / canMove members of the
    piece classes of ChessPiece.cpp, run in place. Every operation is proved to compute
    the function of the same name in Rules; the operations that only inspect the board
    (and checkMove, which changes it and reverts) leave the board as they found it. */
module Chess {
  import opened Positions
  import opened Pieces
  import opened Rules
  import RuleFacts

  class ChessBoard {
    /** activeColor: the side to move. */
    var activeColor: Color
    /** board[8][8], row by row. */
    const grid: array<Ref>
    /** The pieces the board has allocated, addressed by the references in grid. */
    var pieces: seq<Piece>
    /** king[White] and king[Black]. */
    var whiteKing: nat
    var blackKing: nat

    /** The board as a value. */
    ghost function State(): Board
      reads this, grid
    {
      Board(grid[..], pieces, whiteKing, blackKing, activeColor)
    }

    /** The grid invariant holds; the king references may not be set yet. */
    ghost predicate CellsValid()
      reads this, grid
    {
      grid.Length == 64 && CellsWellFormed(State())
    }

    ghost predicate Valid()
      reads this, grid
    {
      grid.Length == 64 && WellFormed(State())
    }

    /** ChessBoard(): every cell is set to NULL, then initialiseBoard runs. */
    constructor ()
      ensures Valid() && Initial(State())
      ensures fresh(grid)
    {
      activeColor := White;
      pieces := [];
      whiteKing, blackKing := 0, 0;
      grid := new Ref[64];
      new;
      ClearGrid();
      InitialiseBoard();
    }

    /** The loops of the constructor that set every cell to NULL. */
    method ClearGrid()
      requires grid.Length == 64
      modifies grid
      ensures CellsValid() && forall p: Position :: GetPiece(p) == Null
    {
      for i := 0 to 8
        invariant forall p: Position :: p.rank < i ==> grid[Idx(p)] == Null
      {
        for j := 0 to 8
          invariant forall p: Position :: p.rank < i || (p.rank == i && p.file < j) ==> grid[Idx(p)] == Null
        {
          IdxInjective();
          grid[Idx(FromIndices(i, j))] := Null;
        }
      }
    }

    /** ChessPiece::setPosition on the piece in slot s. */
    method SetPosition(s: nat, q: Position)
      requires s < |pieces|
      modifies this`pieces
      ensures pieces == old(pieces)[s := old(pieces)[s].(pos := q)]
    {
      pieces := pieces[s := pieces[s].(pos := q)];
    }

    /** ChessPiece::incrementMoveCount on the piece in slot s. */
    method IncrementMoveCount(s: nat)
      requires s < |pieces|
      modifies this`pieces
      ensures pieces == old(pieces)[s := old(pieces)[s].(moveCount := old(pieces)[s].moveCount + 1)]
    {
      pieces := pieces[s := pieces[s].(moveCount := pieces[s].moveCount + 1)];
    }

    /** ChessPiece::decrementMoveCount on the piece in slot s. */
    method DecrementMoveCount(s: nat)
      requires s < |pieces|
      modifies this`pieces
      ensures pieces == old(pieces)[s := old(pieces)[s].(moveCount := old(pieces)[s].moveCount - 1)]
    {
      pieces := pieces[s := pieces[s].(moveCount := pieces[s].moveCount - 1)];
    }

    /** ChessBoard::getPiece. */
    function GetPiece(p: Position): (r: Ref)
      reads this, grid
      requires CellsValid()
      ensures r == Rules.GetPiece(State(), p)
      ensures r.Slot? ==> r.index < |pieces| && pieces[r.index].pos == p
    {
      grid[Idx(p)]
    }

    /** ChessBoard::movePiece. */
    method MovePiece(piece: Ref, q: Position)
      requires CellsValid() && (piece.Slot? ==> piece.index < |pieces|)
      modifies this, grid
      ensures CellsValid() && State() == Rules.MovePiece(old(State()), piece, q)
    {
      if piece.Slot? {
        var origin := pieces[piece.index].pos;
        grid[Idx(origin)] := Null;
        SetPosition(piece.index, q);
      }
      grid[Idx(q)] := piece;
      assert State() == Rules.MovePiece(old(State()), piece, q);
    }

    /** ChessBoard::move: returns the piece it captured. */
    method Move(o: Position, d: Position) returns (captured: Ref)
      requires Valid() && Rules.Occupied(State(), o)
      modifies this, grid
      ensures State() == ApplyMove(old(State()), o, d).board
      ensures captured == ApplyMove(old(State()), o, d).captured
      ensures Valid()
    {
      ghost var b := State();
      var s := GetPiece(o).index;
      var destinationPiece := GetPiece(d);
      IncrementMoveCount(s);
      ghost var b1 := AddToCount(b, s, 1);
      assert State() == b1;
      if pieces[s].kind == Pawn && destinationPiece.Null? && o.file != d.file {
        captured := EnPassant(s, d);
        return;
      }
      if pieces[s].kind == King && Abs(o.file - d.file) == 2 {
        Castle(s, o, d);
        return Null;
      }
      captured := GetPiece(d);
      MovePiece(Slot(s), d);
      assert ApplyMove(b, o, d) == Applied(State(), captured);
    }

    /** The en-passant branch of ChessBoard::move. */
    method EnPassant(s: nat, d: Position) returns (captured: Ref)
      requires CellsValid() && s < |pieces|
      modifies this, grid
      ensures CellsValid() && Applied(State(), captured) == Rules.EnPassant(old(State()), s, d)
    {
      var priorRank := d.rank + (if activeColor == White then 1 else -1);
      if !ValidPosition(priorRank, d.file) {
        MovePiece(Slot(s), d);
        return Null;
      }
      captured := GetPiece(FromIndices(priorRank, d.file));
      MovePiece(Slot(s), d);
      if captured.Slot? {
        MovePiece(Null, pieces[captured.index].pos);
      }
    }

    /** The castling branch of ChessBoard::move. */
    method Castle(s: nat, o: Position, d: Position)
      requires CellsValid() && s < |pieces| && Abs(o.file - d.file) == 2
      modifies this, grid
      ensures CellsValid() && State() == Rules.Castle(old(State()), s, o, d)
    {
      var fileDiff := o.file - d.file;
      var rook := GetPiece(CastleCorner(activeColor, fileDiff > 0));
      var m := BasicMoves[if fileDiff > 0 then R else L];
      MovePiece(Slot(s), d);
      MovePiece(rook, Go(pieces[s].pos, m));
    }

    /** ChessBoard::checkMove: plays the move, asks whether colour c is in check, and
        puts everything back. */
    method CheckMove(o: Position, d: Position, c: Color, fuel: nat) returns (ok: bool)
      requires Valid() && Rules.Occupied(State(), o) && !CastlingShape(State(), o, d)
      modifies this, grid
      ensures Valid() && State() == old(State())
      ensures ok == Rules.CheckMove(old(State()), o, d, c, fuel)
      decreases fuel, 10, 0
    {
      ghost var before := State();
      var originPiece := GetPiece(o);
      var capturedPiece := Move(o, d);
      ghost var applied := Applied(State(), capturedPiece);
      assert applied == ApplyMove(before, o, d);
      var check := IsInCheck(c, fuel);
      Undo(originPiece.index, o, capturedPiece);
      RuleFacts.RevertRestores(before, o, d);
      ok := !check;
    }

    /** The revert of ChessBoard::checkMove: the mover goes back to o with its counter
        decremented, and a captured piece returns to the square it records. */
    method Undo(s: nat, o: Position, captured: Ref)
      requires Valid() && s < |pieces| && (captured.Slot? ==> captured.index < |pieces|)
      modifies this, grid
      ensures Valid() && State() == Revert(Applied(old(State()), captured), s, o)
    {
      MovePiece(Slot(s), o);
      ghost var returned := State();
      DecrementMoveCount(s);
      assert State() == AddToCount(returned, s, -1);
      if captured.Slot? {
        MovePiece(captured, pieces[captured.index].pos);
      }
    }

    /** ChessBoard::isInCheck. */
    method IsInCheck(c: Color, fuel: nat) returns (check: bool)
      requires Valid()
      modifies this, grid
      ensures Valid() && State() == old(State())
      ensures check == Rules.IsInCheck(old(State()), c, fuel)
      decreases fuel, 8, 0
    {
      var king := if c == White then whiteKing else blackKing;
      check := IsMarkedBy(pieces[king].pos, Opposite(c), fuel);
    }

    /** ChessBoard::isMarkedBy: the first piece along each ray, then the piece on each
        knight offset, is of colour c and may move to p. */
    method IsMarkedBy(p: Position, c: Color, fuel: nat) returns (marked: bool)
      requires Valid()
      modifies this, grid
      ensures Valid() && State() == old(State())
      ensures marked == Rules.IsMarkedBy(old(State()), p, c, fuel)
      decreases fuel, 6, 0
    {
      if fuel == 0 {
        return false;
      }
      ghost var b := State();
      BasicMovesAreUnitSteps();
      for i := 0 to 8
        invariant Valid() && State() == b
        invariant Rules.IsMarkedBy(b, p, c, fuel) == (RaysMarked(b, p, c, i, fuel) || KnightsMarked(b, p, c, 0, fuel))
      {
        var ray := ScanRay(p, BasicMoves[i], c, fuel);
        if ray {
          return true;
        }
      }
      marked := ScanKnights(p, c, fuel);
    }

    /** One ray loop of ChessBoard::isMarkedBy: walks from p along m past empty squares;
        the first piece met marks p if it has colour c and may move to p. */
    method ScanRay(p: Position, m: Offset, c: Color, fuel: nat) returns (marked: bool)
      requires Valid() && fuel > 0 && IsUnitStep(m)
      modifies this, grid
      ensures Valid() && State() == old(State())
      ensures marked == RayMarked(old(State()), p, p, m, c, fuel)
      decreases fuel, 5, 0
    {
      ghost var b := State();
      var pos := p;
      while CanGo(pos, m)
        invariant Valid() && State() == b
        invariant RayMarked(b, p, p, m, c, fuel) == RayMarked(b, p, pos, m, c, fuel)
        decreases StepsLeft(pos, m)
      {
        pos := Go(pos, m);
        var piece := GetPiece(pos);
        if piece.Null? {
          continue;
        }
        if pieces[piece.index].color != c {
          return false;
        }
        marked := VerifyPieceMove(this, piece.index, p, fuel - 1);
        return;
      }
      return false;
    }

    /** The knight loop of ChessBoard::isMarkedBy. */
    method ScanKnights(p: Position, c: Color, fuel: nat) returns (marked: bool)
      requires Valid() && fuel > 0
      modifies this, grid
      ensures Valid() && State() == old(State())
      ensures marked == KnightsMarked(old(State()), p, c, 0, fuel)
      decreases fuel, 5, 0
    {
      ghost var b := State();
      for i := 0 to 8
        invariant Valid() && State() == b
        invariant KnightsMarked(b, p, c, 0, fuel) == KnightsMarked(b, p, c, i, fuel)
      {
        if !CanGo(p, KnightMoves[i]) {
          continue;
        }
        var pos := Go(p, KnightMoves[i]);
        var piece := GetPiece(pos);
        if piece.Null? || pieces[piece.index].color != c {
          continue;
        }
        var ok := VerifyPieceMove(this, piece.index, p, fuel - 1);
        if ok {
          return true;
        }
      }
      return false;
    }

    /** One square of the scan of ChessBoard::isInStalemate: whether it holds a piece of
        colour c that can move. */
    method MoverAt(p: Position, c: Color, fuel: nat) returns (can: bool)
      requires Valid()
      modifies this, grid
      ensures Valid() && State() == old(State())
      ensures can == HasMover(old(State()), c, p, fuel)
    {
      var piece := GetPiece(p);
      if piece.Null? || pieces[piece.index].color != c {
        return false;
      }
      can := CanPieceMove(this, piece.index, fuel);
    }

    /** One row of the scan of ChessBoard::isInStalemate: whether some square of the row
        holds a piece of colour c that can move. */
    method RowHasMover(rank: int, c: Color, fuel: nat) returns (found: bool)
      requires Valid() && 0 <= rank < 8
      modifies this, grid
      ensures Valid() && State() == old(State())
      ensures found == !RowClear(old(State()), c, rank, 0, fuel)
    {
      ghost var b := State();
      for file := 0 to 8
        invariant State() == b
        invariant RowClear(b, c, rank, 0, fuel) == RowClear(b, c, rank, file, fuel)
      {
        var can := MoverAt(FromIndices(rank, file), c, fuel);
        if can {
          return true;
        }
      }
      return false;
    }

    /** ChessBoard::isInStalemate: no piece of colour c can move. */
    method IsInStalemate(c: Color, fuel: nat) returns (stalemate: bool)
      requires Valid()
      modifies this, grid
      ensures Valid() && State() == old(State())
      ensures stalemate == Rules.IsInStalemate(old(State()), c, fuel)
    {
      ghost var b := State();
      for rank := 0 to 8
        invariant State() == b
        invariant Rules.IsInStalemate(b, c, fuel) == StalemateFrom(b, c, rank, fuel)
      {
        var found := RowHasMover(rank, c, fuel);
        if found {
          return false;
        }
      }
      return true;
    }

    /** ChessBoard::isInCheckmate. */
    method IsInCheckmate(c: Color, fuel: nat) returns (checkmate: bool)
      requires Valid()
      modifies this, grid
      ensures Valid() && State() == old(State())
      ensures checkmate == Rules.IsInCheckmate(old(State()), c, fuel)
    {
      var stalemate := IsInStalemate(c, fuel);
      if !stalemate {
        return false;
      }
      var king := if c == White then whiteKing else blackKing;
      checkmate := IsMarkedBy(pieces[king].pos, Opposite(c), fuel);
    }

    /** submitMove(origin, destination): returns what the source prints. */
    method SubmitMove(origin: string, destination: string, fuel: nat) returns (status: Status)
      requires Valid() && Parsable(origin)
      requires TurnPiece(State(), origin) ==> Parsable(destination)
      modifies this, grid
      ensures Valid()
      ensures (State(), status) == Submit(old(State()), origin, destination, fuel)
    {
      var o := FromString(origin);
      var activePiece := GetPiece(o);
      if activePiece.Null? {
        return NoPieceAtOrigin;
      }
      if pieces[activePiece.index].color != activeColor {
        return NotYourTurn;
      }
      var d := FromString(destination);
      var canMove := VerifyPieceMove(this, activePiece.index, d, fuel);
      if !canMove {
        return IllegalMove;
      }
      status := Play(o, d, fuel);
    }

    /** The accepted branch of submitMove: the move is played and the game concluded for
        the opponent. */
    method Play(o: Position, d: Position, fuel: nat) returns (status: Status)
      requires Valid() && Rules.Occupied(State(), o)
      modifies this, grid
      ensures Valid()
      ensures (State(), status) == Rules.Conclude(ApplyMove(old(State()), o, d).board, Opposite(old(activeColor)), fuel)
    {
      var opponent := Opposite(activeColor);
      var capturedPiece := Move(o, d);
      status := Conclude(opponent, fuel);
    }

    /** The end of submitMove: the opponent's checkmate, stalemate or check, and the
        change of turn. */
    method Conclude(opponent: Color, fuel: nat) returns (status: Status)
      requires Valid()
      modifies this, grid
      ensures (State(), status) == Rules.Conclude(old(State()), opponent, fuel)
      ensures Valid()
    {
      var checkmate := IsInCheckmate(opponent, fuel);
      if checkmate {
        return Checkmate;
      }
      var stalemate := IsInStalemate(opponent, fuel);
      if stalemate {
        return Stalemate;
      }
      var check := IsInCheck(opponent, fuel);
      SetActiveColor(opponent);
      status := if check then Check else Normal;
    }

    /** activeColor = c. */
    method SetActiveColor(c: Color)
      requires Valid()
      modifies this`activeColor
      ensures Valid() && State() == old(State()).(active := c)
    {
      activeColor := c;
    }

    /** submitMove(castleCode). */
    method SubmitCastle(code: string, fuel: nat) returns (status: Status)
      requires Valid() && |code| <= 5
      modifies this, grid
      ensures Valid()
      ensures (State(), status) == Rules.SubmitCastle(old(State()), code, fuel)
    {
      if code == "O-O" {
        status := SubmitMove(if activeColor == White then "E1" else "E8",
                             if activeColor == White then "G1" else "G8", fuel);
      } else if code == "O-O-O" {
        status := SubmitMove(if activeColor == White then "E1" else "E8",
                             if activeColor == White then "C1" else "C8", fuel);
      } else {
        status := InvalidSingletonMove;
      }
    }

    /** ChessBoard::place: stores a piece at the square it records. */
    method Place(s: nat)
      requires CellsValid() && s < |pieces|
      modifies this, grid
      ensures CellsValid() && State() == Rules.MovePiece(old(State()), Slot(s), old(pieces)[s].pos)
    {
      MovePiece(Slot(s), pieces[s].pos);
    }

    /** place(new K(square, color)) during initialiseBoard: allocates the piece and
        places it on its square. */
    method PlaceNew(square: string, color: Color, kind: Kind)
      requires CellsValid() && IsSquareString(square)
      modifies this, grid
      ensures CellsValid() && State() == AddPiece(old(State()), NewPiece(square, color, kind))
    {
      pieces := pieces + [NewPiece(square, color, kind)];
      Place(|pieces| - 1);
    }

    /** The back rows of initialiseBoard, in its order: rooks, knights, bishops, queens,
        kings. */
    method PlaceBackRows()
      requires CellsValid() && RuleFacts.LaidOut(State(), RuleFacts.BackFiles({}))
      modifies this, grid
      ensures CellsValid() && RuleFacts.LaidOut(State(), RuleFacts.BackRankSquares())
    {
      ghost var files: set<int> := {};
      PlacePair('A', Rook, files);
      files := files + {0};
      PlacePair('H', Rook, files);
      files := files + {7};
      PlacePair('B', Knight, files);
      files := files + {1};
      PlacePair('G', Knight, files);
      files := files + {6};
      PlacePair('C', Bishop, files);
      files := files + {2};
      PlacePair('F', Bishop, files);
      files := files + {5};
      PlacePair('D', Queen, files);
      files := files + {3};
      PlacePair('E', King, files);
      files := files + {4};
      RuleFacts.AllBackFiles(files);
    }

    /** The back-row part of initialiseBoard: the piece on the letter's square of row "8"
        (Black), then the one on row "1" (White). */
    method PlacePair(letter: char, kind: Kind, ghost files: set<int>)
      requires CellsValid() && 'A' <= letter <= 'H'
      requires letter as int - 'A' as int !in files && BackRank(letter as int - 'A' as int) == kind
      requires RuleFacts.LaidOut(State(), RuleFacts.BackFiles(files))
      modifies this, grid
      ensures CellsValid() && RuleFacts.LaidOut(State(), RuleFacts.BackFiles(files + {letter as int - 'A' as int}))
    {
      ghost var b := State();
      PlaceNew([letter, '8'], Black, kind);
      PlaceNew([letter, '1'], White, kind);
      RuleFacts.BackPairStep(b, files, letter, kind);
    }

    /** The pawn part of initialiseBoard: for each file, the White pawn on row "2" and the
        Black pawn on row "7". */
    method PlacePawns()
      requires CellsValid() && RuleFacts.LaidOut(State(), RuleFacts.BackRankSquares())
      modifies this, grid
      ensures CellsValid() && RuleFacts.LaidOut(State(), RuleFacts.BackRankSquares() + RuleFacts.PawnSquares(8))
    {
      assert RuleFacts.BackRankSquares() + RuleFacts.PawnSquares(0) == RuleFacts.BackRankSquares();
      for i := 0 to 8
        invariant CellsValid() && RuleFacts.LaidOut(State(), RuleFacts.BackRankSquares() + RuleFacts.PawnSquares(i))
      {
        ghost var b := State();
        PlaceNew([('A' as int + i) as char, '2'], White, Pawn);
        PlaceNew([('A' as int + i) as char, '7'], Black, Pawn);
        RuleFacts.PawnPairStep(b, i);
      }
    }

    /** ChessBoard::resetBoard. */
    method ResetBoard()
      requires CellsValid()
      modifies this, grid
      ensures Valid() && Initial(State())
    {
      DeletePieces();
      InitialiseBoard();
    }

    /** ChessBoard::deletePieces: every cell becomes NULL. */
    method DeletePieces()
      requires CellsValid()
      modifies this, grid
      ensures CellsValid()
      ensures forall p: Position :: GetPiece(p) == Null
      ensures pieces == old(pieces) && activeColor == old(activeColor)
      ensures whiteKing == old(whiteKing) && blackKing == old(blackKing)
    {
      for rank := 0 to 8
        invariant CellsValid()
        invariant pieces == old(pieces) && activeColor == old(activeColor)
        invariant whiteKing == old(whiteKing) && blackKing == old(blackKing)
        invariant forall p: Position :: p.rank < rank ==> GetPiece(p) == Null
      {
        for file := 0 to 8
          invariant CellsValid()
          invariant pieces == old(pieces) && activeColor == old(activeColor)
          invariant whiteKing == old(whiteKing) && blackKing == old(blackKing)
          invariant forall p: Position :: p.rank < rank || (p.rank == rank && p.file < file) ==> GetPiece(p) == Null
        {
          var piece := GetPiece(FromIndices(rank, file));
          if piece.Null? {
            continue;
          }
          MovePiece(Null, FromIndices(rank, file));
        }
      }
    }

    /** ChessBoard::initialiseBoard, on an empty grid. */
    method InitialiseBoard()
      requires CellsValid()
      requires forall p: Position :: GetPiece(p) == Null
      modifies this, grid
      ensures Valid() && Initial(State())
    {
      assert RuleFacts.LaidOut(State(), RuleFacts.BackFiles({})) by {
        forall p: Position ensures Rules.GetPiece(State(), p).Null? {
          assert GetPiece(p) == Null;
        }
      }
      PlaceBackRows();
      PlacePawns();
      RuleFacts.LaidOutInitial(State());
      var black := GetPiece(FromString("E8")).index;
      var white := GetPiece(FromString("E1")).index;
      blackKing := black;
      whiteKing := white;
      activeColor := White;
    }
  }

  // ---------------------------------------------------------------------------
  // verifyMove of the pieces

  /** The virtual call piece->verifyMove(board, d) on the piece in slot s. */
  method VerifyPieceMove(board: ChessBoard, s: nat, d: Position, fuel: nat) returns (ok: bool)
    requires board.Valid() && OnGrid(board.State(), s)
    modifies board, board.grid
    ensures board.Valid() && board.State() == old(board.State())
    ensures ok == Rules.VerifyMove(old(board.State()), s, d, fuel)
    decreases fuel, 21, 0
  {
    ok := VerifyAs(board, board.pieces[s], d, fuel);
  }

  /** Dispatch on the piece's kind. */
  method VerifyAs(board: ChessBoard, me: Piece, d: Position, fuel: nat) returns (ok: bool)
    requires board.Valid() && Mover(board.State(), me)
    modifies board, board.grid
    ensures board.Valid() && board.State() == old(board.State())
    ensures ok == Rules.VerifyAs(old(board.State()), me, d, fuel)
    decreases fuel, 20, 0
  {
    match me.kind
    case Rook => ok := RookVerify(board, me, d, fuel);
    case Knight => ok := KnightVerify(board, me, d, fuel);
    case Bishop => ok := BishopVerify(board, me, d, fuel);
    case Queen => ok := QueenVerify(board, me, d, fuel);
    case King => ok := KingVerify(board, me, d, fuel);
    case Pawn => ok := PawnVerify(board, me, d, fuel);
  }

  /** The path loop of Rook::verifyMove and Bishop::verifyMove: no piece stands on the
      squares from pos up to d. */
  method PathClear(board: ChessBoard, pos: Position, d: Position, m: Offset) returns (clear: bool)
    requires board.Valid() && Toward(pos, d, m)
    ensures clear == ClearFrom(board.State(), pos, d, m)
  {
    var here := pos;
    while here != d
      invariant Toward(here, d, m)
      invariant ClearFrom(board.State(), pos, d, m) == ClearFrom(board.State(), here, d, m)
      decreases Dist(here, d)
    {
      if board.GetPiece(here).Slot? {
        return false;
      }
      TowardStep(here, d, m);
      here := Go(here, m);
    }
    return true;
  }

  /** The piece on d, if any, has colour c. */
  method OwnPiece(board: ChessBoard, d: Position, c: Color) returns (own: bool)
    requires board.Valid()
    ensures own == OwnPieceAt(board.State(), d, c)
  {
    var piece := board.GetPiece(d);
    own := piece.Slot? && board.pieces[piece.index].color == c;
  }

  /** The checks of Rook::verifyMove before checkMove; changes nothing. */
  method RookAllows(board: ChessBoard, me: Piece, d: Position) returns (allowed: bool)
    requires board.Valid()
    ensures allowed == Rules.RookAllows(board.State(), me, d)
  {
    if d == me.pos {
      return false;
    }
    var rankDiff := me.pos.rank - d.rank;
    var fileDiff := me.pos.file - d.file;
    if rankDiff == 0 {
      var m := BasicMoves[if fileDiff > 0 then L else R];
      var clear := PathClear(board, Go(me.pos, m), d, m);
      if !clear {
        return false;
      }
    } else if fileDiff == 0 {
      var m := BasicMoves[if rankDiff > 0 then U else D];
      var clear := PathClear(board, Go(me.pos, m), d, m);
      if !clear {
        return false;
      }
    }
    var own := OwnPiece(board, d, me.color);
    allowed := !own;
  }

  /** Rook::verifyMove. */
  method RookVerify(board: ChessBoard, me: Piece, d: Position, fuel: nat) returns (ok: bool)
    requires board.Valid() && Mover(board.State(), me)
    requires me.kind == Rook
    modifies board, board.grid
    ensures board.Valid() && board.State() == old(board.State())
    ensures ok == Rules.RookVerify(old(board.State()), me, d, fuel)
    decreases fuel, 18, 0
  {
    var allowed := RookAllows(board, me, d);
    if !allowed {
      return false;
    }
    ok := board.CheckMove(me.pos, d, me.color, fuel);
  }

  /** The checks of Knight::verifyMove before checkMove; changes nothing. */
  method KnightAllows(board: ChessBoard, me: Piece, d: Position) returns (allowed: bool)
    requires board.Valid()
    ensures allowed == Rules.KnightAllows(board.State(), me, d)
  {
    if me.pos == d {
      return false;
    }
    var rankDiff := Abs(me.pos.rank - d.rank);
    var fileDiff := Abs(me.pos.file - d.file);
    if !KnightJump(rankDiff, fileDiff) {
      return false;
    }
    var own := OwnPiece(board, d, me.color);
    allowed := !own;
  }

  /** Knight::verifyMove. */
  method KnightVerify(board: ChessBoard, me: Piece, d: Position, fuel: nat) returns (ok: bool)
    requires board.Valid() && Mover(board.State(), me)
    requires me.kind == Knight
    modifies board, board.grid
    ensures board.Valid() && board.State() == old(board.State())
    ensures ok == Rules.KnightVerify(old(board.State()), me, d, fuel)
    decreases fuel, 18, 0
  {
    var allowed := KnightAllows(board, me, d);
    if !allowed {
      return false;
    }
    ok := board.CheckMove(me.pos, d, me.color, fuel);
  }

  /** The checks of Bishop::verifyMove before checkMove; changes nothing. */
  method BishopAllows(board: ChessBoard, me: Piece, d: Position) returns (allowed: bool)
    requires board.Valid()
    ensures allowed == Rules.BishopAllows(board.State(), me, d)
  {
    if me.pos == d {
      return false;
    }
    var fileDiff := me.pos.file - d.file;
    var rankDiff := me.pos.rank - d.rank;
    if Abs(fileDiff) != Abs(rankDiff) {
      return false;
    }
    var m := BasicMoves[BishopDirection(rankDiff, fileDiff)];
    var clear := PathClear(board, Go(me.pos, m), d, m);
    if !clear {
      return false;
    }
    var own := OwnPiece(board, d, me.color);
    allowed := !own;
  }

  /** Bishop::verifyMove. */
  method BishopVerify(board: ChessBoard, me: Piece, d: Position, fuel: nat) returns (ok: bool)
    requires board.Valid() && Mover(board.State(), me)
    requires me.kind == Bishop
    modifies board, board.grid
    ensures board.Valid() && board.State() == old(board.State())
    ensures ok == Rules.BishopVerify(old(board.State()), me, d, fuel)
    decreases fuel, 18, 0
  {
    var allowed := BishopAllows(board, me, d);
    if !allowed {
      return false;
    }
    ok := board.CheckMove(me.pos, d, me.color, fuel);
  }

  /** Queen::verifyMove. */
  method QueenVerify(board: ChessBoard, me: Piece, d: Position, fuel: nat) returns (ok: bool)
    requires board.Valid() && Mover(board.State(), me)
    requires me.kind == Queen
    modifies board, board.grid
    ensures board.Valid() && board.State() == old(board.State())
    ensures ok == Rules.QueenVerify(old(board.State()), me, d, fuel)
    decreases fuel, 19, 0
  {
    StrRoundTrip(me.pos);
    var asRook := NewPiece(Str(me.pos), me.color, Rook);
    ok := RookVerify(board, asRook, d, fuel);
    if ok {
      return;
    }
    var asBishop := NewPiece(Str(me.pos), me.color, Bishop);
    ok := BishopVerify(board, asBishop, d, fuel);
  }

  /** King::verifyMove, with its castling loop. */
  method KingVerify(board: ChessBoard, me: Piece, d: Position, fuel: nat) returns (ok: bool)
    requires board.Valid() && Mover(board.State(), me)
    requires me.kind == King
    modifies board, board.grid
    ensures board.Valid() && board.State() == old(board.State())
    ensures ok == Rules.KingVerify(old(board.State()), me, d, fuel)
    decreases fuel, 18, 0
  {
    ghost var b := board.State();
    if me.pos == d {
      return false;
    }
    var rankDiff := me.pos.rank - d.rank;
    var fileDiff := me.pos.file - d.file;
    if me.moveCount == 0 && rankDiff == 0 && Abs(fileDiff) == 2 {
      var rook := board.GetPiece(CastleCorner(board.activeColor, fileDiff > 0));
      if rook.Null? {
        return false;
      }
      if board.pieces[rook.index].moveCount != 0 {
        return false;
      }
      var m := BasicMoves[if fileDiff > 0 then L else R];
      var target := board.pieces[rook.index].pos;
      var opponent := Opposite(me.color);
      var pos := me.pos;
      while pos != target
        invariant board.Valid() && board.State() == b
        invariant Rules.KingVerify(b, me, d, fuel) == CastleWalk(b, pos, target, m, opponent, fuel)
        decreases StepsLeft(pos, m)
      {
        var piece := board.GetPiece(pos);
        if piece.Slot? && (board.pieces[piece.index].kind == Rook || board.pieces[piece.index].kind == King) {
          if !CanGo(pos, m) {
            return false;
          }
          pos := Go(pos, m);
          continue;
        }
        if piece.Slot? {
          return false;
        }
        var marked := board.IsMarkedBy(pos, opponent, fuel);
        if marked {
          return false;
        }
        if !CanGo(pos, m) {
          return false;
        }
        pos := Go(pos, m);
      }
      return true;
    }
    if Abs(fileDiff) > 1 || Abs(rankDiff) > 1 {
      return false;
    }
    var own := OwnPiece(board, d, me.color);
    if own {
      return false;
    }
    ok := board.CheckMove(me.pos, d, me.color, fuel);
  }

  /** The geometric checks of Pawn::verifyMove; changes nothing. */
  method PawnAllows(board: ChessBoard, me: Piece, d: Position) returns (allowed: bool)
    requires board.Valid()
    ensures allowed == Rules.PawnAllows(board.State(), me, d)
  {
    if me.pos == d {
      return false;
    }
    var rankDiff := me.pos.rank - d.rank;
    var fileDiff := me.pos.file - d.file;
    if (me.color == White && rankDiff < 0) || (me.color == Black && rankDiff > 0) {
      return false;
    }
    if fileDiff == 0 && Abs(rankDiff) == 2 && me.moveCount == 0 {
      // double move
      var m := BasicMoves[if rankDiff > 0 then U else D];
      var first := Go(me.pos, m);
      var second := Go(first, m);
      allowed := board.GetPiece(first).Null? && board.GetPiece(second).Null?;
    } else if DiagonalStep(rankDiff, fileDiff) && board.GetPiece(d).Null? {
      // en passant
      var adjacent := board.GetPiece(Go(me.pos, BasicMoves[if fileDiff > 0 then L else R]));
      allowed := adjacent.Slot? && EnPassantVictim(board.pieces[adjacent.index], me.color);
    } else if DiagonalStep(rankDiff, fileDiff) {
      // capture
      var own := OwnPiece(board, d, me.color);
      allowed := !own;
    } else if Abs(rankDiff) > 1 || fileDiff != 0 {
      // normal move
      allowed := board.GetPiece(d).Null?;
    } else {
      allowed := true;
    }
  }

  /** Pawn::verifyMove. */
  method PawnVerify(board: ChessBoard, me: Piece, d: Position, fuel: nat) returns (ok: bool)
    requires board.Valid() && Mover(board.State(), me)
    requires me.kind == Pawn
    modifies board, board.grid
    ensures board.Valid() && board.State() == old(board.State())
    ensures ok == Rules.PawnVerify(old(board.State()), me, d, fuel)
    decreases fuel, 18, 0
  {
    var allowed := PawnAllows(board, me, d);
    if !allowed {
      return false;
    }
    ok := board.CheckMove(me.pos, d, me.color, fuel);
  }

  // ---------------------------------------------------------------------------
  // canMove of the pieces

  /** The probe loop shared by Rook, Knight, Bishop and King::canMove. */
  method ProbeAny(board: ChessBoard, me: Piece, probes: seq<Offset>, fuel: nat) returns (can: bool)
    requires board.Valid() && Mover(board.State(), me)
    modifies board, board.grid
    ensures board.Valid() && board.State() == old(board.State())
    ensures can == AnyProbe(old(board.State()), me, probes, 0, fuel)
  {
    ghost var b := board.State();
    for i := 0 to |probes|
      invariant board.Valid() && board.State() == b
      invariant AnyProbe(b, me, probes, 0, fuel) == AnyProbe(b, me, probes, i, fuel)
    {
      if !CanGo(me.pos, probes[i]) {
        continue;
      }
      var ok := VerifyAs(board, me, Go(me.pos, probes[i]), fuel);
      if ok {
        return true;
      }
    }
    return false;
  }

  /** The virtual call me->canMove(board). */
  method CanMoveAs(board: ChessBoard, me: Piece, fuel: nat) returns (can: bool)
    requires board.Valid() && Mover(board.State(), me)
    modifies board, board.grid
    ensures board.Valid() && board.State() == old(board.State())
    ensures can == Rules.CanMoveAs(old(board.State()), me, fuel)
    decreases if me.kind == Queen then 1 else 0
  {
    match me.kind
    case Rook => can := ProbeAny(board, me, RookProbes, fuel);
    case Knight => can := ProbeAny(board, me, KnightMoves, fuel);
    case Bishop => can := ProbeAny(board, me, BishopProbes, fuel);
    case King => can := ProbeAny(board, me, BasicMoves, fuel);
    case Queen =>
      StrRoundTrip(me.pos);
      can := CanMoveAs(board, NewPiece(Str(me.pos), me.color, Rook), fuel);
      if !can {
        can := CanMoveAs(board, NewPiece(Str(me.pos), me.color, Bishop), fuel);
      }
    case Pawn =>
      var m := BasicMoves[if board.activeColor == White then U else D];
      if !CanGo(me.pos, m) || !CanGo(Go(me.pos, m), m) {
        return false;
      }
      can := VerifyAs(board, me, Go(me.pos, m), fuel);
      if !can {
        can := VerifyAs(board, me, Go(Go(me.pos, m), m), fuel);
      }
  }

  /** canMove of the piece in slot s. */
  method CanPieceMove(board: ChessBoard, s: nat, fuel: nat) returns (can: bool)
    requires board.Valid() && OnGrid(board.State(), s)
    modifies board, board.grid
    ensures board.Valid() && board.State() == old(board.State())
    ensures can == Rules.CanMove(old(board.State()), s, fuel)
  {
    can := CanMoveAs(board, board.pieces[s], fuel);
  }
}
