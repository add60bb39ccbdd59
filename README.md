# A verified model of a chess rules engine

This project models the core of a small C++ chess engine:

- the coordinate type `Position` and its direction tables (Position.cpp, Position.h);
- the six piece kinds with their `verifyMove` and `canMove` rules (ChessPiece.cpp);
- the board controller `ChessBoard` (ChessBoard.cpp). It holds the 8×8 grid, the two king references and the side to move. It applies ordinary, en-passant and castling moves. It runs the speculative apply–test–revert of `checkMove`. It scans rays and knight jumps in `isMarkedBy`, enumerates the grid for stalemate and checkmate, and handles move submission and the initial layout.

The project has six modules, one per file:

- **`Positions`** (Position.dfy): squares, the text form `"A1"`..`"H8"`, `canGo`/`go`, and the `basicMoves`/`knightMoves` tables. Storage rank 0 is row "8".
- **`Pieces`** (ChessPiece.dfy): colour, kind, the piece record, and the fixed probe lists of `canMove`.
- **`Rules`** (Rules.dfy): the meaning of every board and piece operation, as functions on an immutable `Board` snapshot.
  - The snapshot holds the 64 cells, an arena of pieces, the king slots and the side to move.
  - `verifyMove → checkMove → isInCheck → isMarkedBy → verifyMove` call each other with no decreasing measure. They carry a `fuel` bound on the nesting depth of attack detection.
- **`Chess`** (ChessBoard.dfy): the class `ChessBoard`.
  - The grid is an `array<Ref>` of 64 cells, updated in place. The pieces are a `seq<Piece>` field whose records the methods rewrite.
  - Every operation is an imperative method. Each method is proved to compute the corresponding `Rules` function and to leave the board unchanged where the source does.
  - The piece rules are module-level methods over the board, with loops that walk paths and probe lists.
- **`RuleFacts`** (RuleFacts.dfy): lemmas about the board operations.
  - The revert of `checkMove` restores the board exactly.
  - What each branch of `move` does.
  - Attack detection finds a real attacker.
  - Stalemate and checkmate in terms of movers.
  - The initial layout.
- **`PieceFacts`** (PieceFacts.dfy): lemmas about the piece rules.
  - Own square and own colour are rejected, and the checkMove gate applies.
  - Path clearance of the rook and bishop, stated as "every square strictly between is empty".
  - The knight's product test, queen = rook or bishop, the king's step bound and castling preconditions.
  - The pawn's direction, double step and en passant, and the canMove probe loops.

Pieces live in an arena. A captured piece keeps its slot, and no cell refers to it afterwards. Console output is returned as a `Status` value.

Where the code departs from the rules of chess, the model follows the code:

- an accepted move that checkmates or stalemates the opponent does not pass the turn (ChessBoard.cpp:133-144 return before line 152);
- attack detection asks each candidate piece's full `verifyMove`, including its own self-check test, so a pinned piece does not count as attacking;
- `knightMoves` holds six distinct jumps;
- castling does not check the corner piece's colour or kind;
- the castling walk never tests the king's own square for attack, so castling out of check is accepted (`PieceFacts.CastleSkipsKingSquare`);
- the castling walk skips every square holding a rook or a king, of either colour, without testing it;
- for O-O-O the walk also demands that B1/B8 is not attacked;
- the rook has no test rejecting a destination off its rank and file;
- a single pawn push onto an occupied square is not rejected;
- every other pawn move that is neither a first double step nor a one-square diagonal needs only an empty destination (`PieceFacts.PawnOtherMoveNeedsEmptyDestination`): a pawn may advance any number of ranks over pieces (E2-E5), move sideways any distance (E2-A2) or jump like a knight (E2-F4), and a pawn that has moved may advance two ranks without a look at the square passed over;
- move() plays every file-changing pawn move onto an empty square as en passant, and removes whatever stands at (d.rank ± 1 by the side to move, d.file), even a piece of the mover's own colour: once A2 is empty, White's E2-A2 is accepted and removes White's rook on A1 (`RuleFacts.EnPassantMove`).

## Model

| member | source | states |
|---|---|---|
| Positions.FromIndices | Position.cpp:14-23 | Position(int, int) after its assert: the square has exactly the given rank and file |
| Positions.FromString | Position.cpp:25-33 | Position(const char*): rank is '8' minus the digit and file is the letter minus 'A' |
| Positions.Str | Position.cpp:20-22 | str() is a two-character square string: 'A'+file followed by '8'−rank |
| Positions.ValidPositionNamesASquare | Position.cpp:10-12 | validPosition holds exactly when the column letter is A–H and the row digit 1–8, i.e. exactly for the coordinates of a square |
| Positions.CanGoLandsOnASquare | Position.cpp:39-43 | canGo(m) holds exactly when the square reached by adding m exists |
| Positions.Go | Position.cpp:45-50 | go(m) requires canGo(m) and yields (rank+m[Rank], file+m[File]) |
| Positions.Equals | Position.cpp:52-54 | operator== holds exactly when the two squares are equal |
| Positions.NotEquals | Position.cpp:56-58 | operator!= is the exact negation of operator== |
| Positions.ParsableIsSquareString | Position.cpp:25-30 | the string constructor's assert accepts a two-character string exactly when it is a letter A–H followed by a digit 1–8 |
| Positions.StrRoundTrip | Position.cpp:20-32 | parsing str() of any square gives that square back |
| Positions.ParseRoundTrip | Position.cpp:20-32 | printing the square parsed from any string in [A-H][1-8] gives the string back |
| Positions.IndicesRoundTrip | Position.cpp:14-37 | Position(Position(r, f).str()) has rank r and file f |
| Positions.StorageRowsAreInverted | Position.cpp:20-22 | rank 0 prints as row "8", rank 7 as row "1", file 0 as column "A" (both directions) |
| Positions.BasicMovesAreUnitSteps | Position.h:9-11 | the eight basicMoves are king steps (components in {−1,0,1}, not (0,0)) and pairwise distinct |
| Positions.BasicMovesOpposite | Position.h:7-11 | basicMoves[(i+4) mod 8] is the negation of basicMoves[i] |
| Positions.GoAndBack | Position.cpp:39-50 | a step along basicMoves[i] can be undone by the opposite direction and returns to the same square |
| Positions.StrOfGo | Position.cpp:45-50 | a step changes the column letter by the file delta and the row digit by minus the rank delta |
| Positions.DirectionsOnTheText | Position.h:7-11 | U raises the printed row digit by one, D lowers it, L and R move the column letter and keep the row |
| Positions.KnightMovesShape | Position.h:13-15 | every knightMoves entry has |Δrank|·|Δfile| = 2 |
| Positions.KnightMovesSixDistinct | Position.h:13-15 | knightMoves holds six distinct jumps: (2,1) and (2,−1) twice, (−2,±1) never |
| Positions.DiagonalStepIsUnitProduct | ChessPiece.cpp:257 | the pawn's test abs(rankDiff·fileDiff) == 1 holds exactly when both differences are ±1 |
| Positions.KnightJumpIsProductTwo | ChessPiece.cpp:106-109 | the knight's test rankDiff·fileDiff == 2 on distances holds exactly for the distance pairs (1,2) and (2,1) |
| Pieces.NewPiece | ChessPiece.cpp:9-10 | a new piece has the given colour and kind, stands on the named square and has a move counter of 0 |
| Pieces.RookProbesAreOrthogonal | ChessPiece.cpp:90-91 | Rook::canMove probes four orthogonal king steps |
| Pieces.BishopProbesSkipUpRight | ChessPiece.cpp:157-158 | Bishop::canMove probes only diagonal steps, DL twice and never UR |
| Rules.Opposite | ChessBoard.cpp:156 | opposite(c) is the other colour |
| Rules.Idx | ChessBoard.cpp:40-42 | a square addresses one of the 64 cells of the grid |
| Rules.IdxInjective | ChessBoard.cpp:40-42 | distinct squares address distinct cells |
| Rules.GetPiece | ChessBoard.cpp:40-42 | the piece found at a square records that square as its position |
| Rules.MovePiece | ChessBoard.cpp:30-38 | movePiece keeps the grid invariant (every stored piece records its own cell), the arena size, the kings and the turn |
| Rules.AddToCount | ChessPiece.cpp:17-18 | incrementMoveCount/decrementMoveCount leave the grid, kings and turn as they were |
| Rules.EnPassant | ChessBoard.cpp:61-69 | the en-passant step keeps the grid invariant, and what it returns as captured is an arena slot |
| Rules.Castle | ChessBoard.cpp:72-87 | the castling step keeps the grid invariant, the arena size, the kings and the turn |
| Rules.ApplyMove | ChessBoard.cpp:55-92 | move keeps the board invariant, and its captured piece is an arena slot |
| Rules.AddPiece | ChessBoard.cpp:201-204 | place(new piece) appends the piece to the arena and stores it at its square |
| Rules.Revert | ChessBoard.cpp:49-51 | the revert steps of checkMove keep the board invariant |
| Rules.CastleWalk | ChessPiece.cpp:202-215 | the castling loop succeeds only when the corner lies ahead of the king along the walk's direction (characterised by PieceFacts.CastleWalkIff) |
| Rules.Conclude | ChessBoard.cpp:132-152 | concluding an accepted move keeps the board invariant and leaves every cell, piece and king reference as move left them; checkmate and stalemate change nothing, while check and a normal move hand the turn to the opponent |
| Rules.Attempt | ChessBoard.cpp:125-152 | once the origin holds a piece of the side to move: IllegalMove exactly when its verifyMove fails, and then nothing changes; otherwise the cells, pieces and kings are those of move, and the turn passes only on Check/Normal |
| Rules.Submit | ChessBoard.cpp:110-154 | NoPieceAtOrigin exactly when the origin is empty; NotYourTurn exactly when it holds a piece of the colour not to move; otherwise IllegalMove exactly when that piece's verifyMove fails. Every rejection leaves the board untouched. An accepted move leaves exactly the cells, pieces and kings of move. Check/Normal passes the turn; Checkmate/Stalemate keeps it |
| Rules.SubmitCastle | ChessBoard.cpp:95-108 | "invalid singleton move" is reported exactly for codes other than "O-O" and "O-O-O", and then nothing changes |
| RuleFacts.MovePieceFrame | ChessBoard.cpp:30-38 | for a piece p, movePiece(p, q) stores p at q with q recorded, empties p's old cell, and changes no other cell or piece |
| RuleFacts.MovePieceNullFrame | ChessBoard.cpp:30-38 | movePiece(NULL, q), as en passant and castling with an empty corner use it, empties q and changes no other cell and no piece |
| RuleFacts.RevertRestores | ChessBoard.cpp:44-53 | for every move that is not a castling, the revert of checkMove gives back exactly the board it started from: every cell, position and counter |
| RuleFacts.RevertOrdinary | ChessBoard.cpp:49-51 | undoing an ordinary move (with or without capture) restores the board |
| RuleFacts.RevertEnPassant | ChessBoard.cpp:61-69 | undoing an en-passant move restores the board, in each of its sub-cases |
| RuleFacts.RevertCapture | ChessBoard.cpp:49-51 | undoing a move that took a piece off a third square restores the board |
| RuleFacts.MovePieceKeepsRecords | ChessBoard.cpp:30-38 | movePiece changes only recorded positions: colours, kinds and counters stay |
| RuleFacts.MoveCountsOnce | ChessBoard.cpp:55-92 | move raises the mover's counter by exactly one, in every branch, and changes no other piece's colour, kind or counter |
| RuleFacts.OrdinaryMove | ChessBoard.cpp:89-91 | ordinary branch: returns the destination's occupant. The mover is at the destination, the origin is empty, and every other cell is unchanged |
| RuleFacts.EnPassantMove | ChessBoard.cpp:61-69 | en-passant branch, taken by every file-changing pawn move onto an empty square: returns the piece at (d.rank ± 1, d.file) by the side to move, whatever its colour, and empties that square. The pawn is at d and the origin is empty |
| RuleFacts.CastleMove | ChessBoard.cpp:72-87 | castling branch: captures nothing. The king lands on d and the corner piece on the square beside it on the origin side; with an empty corner that square is emptied |
| RuleFacts.CastleSteps | ChessBoard.cpp:83-85 | the two movePiece calls of castling place the king on d and the corner piece next to it, or empty that square when the corner is empty |
| RuleFacts.FirstOnRayPast | ChessBoard.cpp:165-167 | stepping over an empty square does not change which piece is met first on the ray |
| RuleFacts.FirstOnRayAt | ChessBoard.cpp:166-170 | an occupied square next along the ray is the first piece met |
| RuleFacts.RayMarkedAttacker | ChessBoard.cpp:164-171 | one ray answers true exactly when the first piece met beyond the start is of the given colour and its verifyMove to the target succeeds |
| RuleFacts.RaysMarkedAttacker | ChessBoard.cpp:163-172 | the ray loop from direction i on answers true exactly when on some ray j ≥ i the first piece met is such an attacker |
| RuleFacts.KnightsMarkedAttacker | ChessBoard.cpp:174-179 | the knight loop from entry i on answers true exactly when some knightMoves square j ≥ i holds such an attacker |
| RuleFacts.MarkedHasAttacker | ChessBoard.cpp:162-182 | isMarkedBy is true exactly when, with fuel left, the first piece on one of the eight rays or the piece on a knightMoves square is of that colour and may move to the square; such a piece stands on the grid |
| RuleFacts.RowClearIff | ChessBoard.cpp:186-191 | one row of the stalemate scan finds no mover iff no square of that row holds a movable piece of the colour |
| RuleFacts.StalemateFromIff | ChessBoard.cpp:185-193 | the stalemate scan from a row on finds no mover iff no square from that row on holds one |
| RuleFacts.StalemateMeansNoMover | ChessBoard.cpp:184-194 | isInStalemate(c) iff no piece of colour c on the grid can move |
| RuleFacts.CheckmateMeansCheckAndNoMover | ChessBoard.cpp:196-199 | isInCheckmate(c) iff c is in check and has no movable piece; checkmate implies stalemate |
| RuleFacts.PlaceStep | ChessBoard.cpp:201-204 | placing an unmoved piece on its starting square extends the laid-out part of the initial position by that square |
| RuleFacts.BackPairStep | ChessBoard.cpp:222-237 | placing the row-8 and row-1 pieces of one file extends the back-row layout by that file |
| RuleFacts.PawnPairStep | ChessBoard.cpp:239-245 | placing the two pawns of file i extends the pawn layout by that file |
| RuleFacts.LaidOutInitial | ChessBoard.cpp:247-250 | once every row is laid out, E1 and E8 hold the kings, and the board with those king references and White to move is the initial position |
| PieceFacts.VerifyRejectsOwnSquare | ChessPiece.cpp:62 | every verifyMove (lines 62, 104, 131, 185, 240; the queen through its rook and bishop) rejects the piece's own square |
| PieceFacts.VerifyGatesOnCheckMove | ChessPiece.cpp:84 | apart from castling, a move verifyMove accepts has passed checkMove for the piece's colour (lines 84, 114, 152, 224, 278) |
| PieceFacts.OwnColourRejected | ChessPiece.cpp:81-82 | rook, knight, bishop, queen and non-castling king reject a destination holding their own colour (also lines 111-112, 149-150, 221-222) |
| PieceFacts.KnightGeometry | ChessPiece.cpp:103-112 | the knight's checks hold exactly when |Δrank|·|Δfile| = 2 and the destination holds no own piece; no path is checked |
| PieceFacts.ClearFromIff | ChessPiece.cpp:70-71 | the path loop succeeds iff every square from its start up to the destination is empty |
| PieceFacts.PathFromNextSquare | ChessPiece.cpp:69-71 | the path loop started one step from the origin checks exactly the squares strictly between origin and destination |
| PieceFacts.RookPath | ChessPiece.cpp:61-85 | along a rank or file the rook's checks hold iff every square strictly between is empty and the destination holds no own piece; off them only the destination is examined |
| PieceFacts.BishopPath | ChessPiece.cpp:130-153 | the bishop's checks hold iff the move is diagonal, every square strictly between is empty and the destination holds no own piece |
| PieceFacts.QueenIsRookOrBishop | ChessPiece.cpp:170-173 | Queen::verifyMove accepts exactly what a rook or a bishop of its colour on its square accepts |
| PieceFacts.RookVerifyOnSquareAndColour | ChessPiece.cpp:171 | the temporary Rook of Queen::verifyMove decides like any rook of that colour on that square |
| PieceFacts.BishopVerifyOnSquareAndColour | ChessPiece.cpp:172 | the temporary Bishop of Queen::verifyMove decides like any bishop of that colour on that square |
| PieceFacts.KingStepBound | ChessPiece.cpp:219 | apart from castling, an accepted king move changes rank and file by at most one |
| PieceFacts.CastleNeedsUnmovedCorner | ChessPiece.cpp:191-200 | castling is accepted only if the corner chosen by the side to move holds an unmoved piece |
| PieceFacts.CastleWalkIff | ChessPiece.cpp:202-215 | the castling loop succeeds exactly when the corner lies ahead along the walk and every square from the start up to the corner holds a rook or a king, or is empty and not marked by the opponent |
| PieceFacts.CastleConditions | ChessPiece.cpp:191-217 | a castling attempt is accepted exactly when the corner chosen by the side to move holds an unmoved piece, lies on the king's rank in the move's direction, and every square from the king's up to the corner is passable as above; no checkMove follows |
| PieceFacts.CastleSkipsKingSquare | ChessPiece.cpp:203-208 | the king's own square is passed without a look, so whether the king stands in check does not change the answer |
| PieceFacts.PawnNeverBackwards | ChessPiece.cpp:246 | a pawn's accepted move never goes backwards: White towards row 8, Black towards row 1 |
| PieceFacts.PawnDoubleStepEmpty | ChessPiece.cpp:249-254 | the first double step needs both the square passed over and the destination empty |
| PieceFacts.PawnEnPassantNeedsVictim | ChessPiece.cpp:257-265 | a diagonal step onto an empty square needs an opposing pawn beside it that has moved once, with the pawn on storage rank 5 (White, row "3") or 4 (Black, row "4") |
| PieceFacts.PawnOtherMoveNeedsEmptyDestination | ChessPiece.cpp:273-276 | a forward or sideways pawn move that is neither a first double step nor a one-square diagonal and not the single push is accepted exactly when the destination is empty; no square passed over is looked at |
| PieceFacts.AnyProbeExists | ChessPiece.cpp:87-97 | a canMove probe loop succeeds iff some probe stays on the board and passes verifyMove |
| Chess.ChessBoard.constructor | ChessBoard.cpp:10-15 | a new board holds the standard initial position with White to move and the kings on E1 and E8 |
| Chess.ChessBoard.ClearGrid | ChessBoard.cpp:11-12 | the constructor's loop leaves all 64 cells empty |
| Chess.ChessBoard.SetPosition | ChessPiece.cpp:19 | setPosition changes exactly the piece's recorded square |
| Chess.ChessBoard.IncrementMoveCount | ChessPiece.cpp:17 | incrementMoveCount raises exactly that piece's counter by one |
| Chess.ChessBoard.DecrementMoveCount | ChessPiece.cpp:18 | decrementMoveCount lowers exactly that piece's counter by one |
| Chess.ChessBoard.GetPiece | ChessBoard.cpp:40-42 | getPiece reads the cell of the square, and a piece found there records that square |
| Chess.ChessBoard.MovePiece | ChessBoard.cpp:30-38 | movePiece updates the grid and the piece in place to Rules.MovePiece (framed by RuleFacts.MovePieceFrame) |
| Chess.ChessBoard.Move | ChessBoard.cpp:55-92 | move mutates the board to ApplyMove's board and returns its captured piece, keeping the invariant |
| Chess.ChessBoard.EnPassant | ChessBoard.cpp:61-69 | the en-passant branch in place equals Rules.EnPassant |
| Chess.ChessBoard.Castle | ChessBoard.cpp:72-87 | the castling branch in place equals Rules.Castle |
| Chess.ChessBoard.CheckMove | ChessBoard.cpp:44-53 | checkMove leaves every cell, position, counter, king and the turn exactly as before, and answers Rules.CheckMove: colour c is not in check after the move |
| Chess.ChessBoard.Undo | ChessBoard.cpp:49-51 | the three revert statements in place equal Rules.Revert |
| Chess.ChessBoard.IsInCheck | ChessBoard.cpp:158-160 | isInCheck changes nothing and answers whether c's king square is marked by the opponent |
| Chess.ChessBoard.IsMarkedBy | ChessBoard.cpp:162-182 | isMarkedBy changes nothing (despite the nested checkMoves) and equals Rules.IsMarkedBy |
| Chess.ChessBoard.ScanRay | ChessBoard.cpp:163-172 | one ray loop changes nothing and answers whether the first piece met is of colour c and may move to the square |
| Chess.ChessBoard.ScanKnights | ChessBoard.cpp:174-179 | the knight loop changes nothing and equals Rules.KnightsMarked |
| Chess.ChessBoard.MoverAt | ChessBoard.cpp:187-190 | the body of the stalemate loop changes nothing and tells whether the square holds a movable piece of colour c |
| Chess.ChessBoard.RowHasMover | ChessBoard.cpp:186-191 | the inner stalemate loop changes nothing and finds a mover iff the row has one |
| Chess.ChessBoard.IsInStalemate | ChessBoard.cpp:184-194 | isInStalemate changes nothing and equals Rules.IsInStalemate (no mover anywhere, by StalemateMeansNoMover) |
| Chess.ChessBoard.IsInCheckmate | ChessBoard.cpp:196-199 | isInCheckmate changes nothing and equals Rules.IsInCheckmate |
| Chess.ChessBoard.SubmitMove | ChessBoard.cpp:110-154 | submitMove's new board and reported status are those of Rules.Submit; the destination is parsed only after the origin checks |
| Chess.ChessBoard.Play | ChessBoard.cpp:129-152 | the accepted branch plays the move and concludes for the opponent |
| Chess.ChessBoard.Conclude | ChessBoard.cpp:132-152 | checkmate, then stalemate, then check of the opponent; the turn passes only in the last case |
| Chess.ChessBoard.SetActiveColor | ChessBoard.cpp:152 | the turn switch changes only the side to move |
| Chess.ChessBoard.SubmitCastle | ChessBoard.cpp:95-108 | the castle-code overload equals Rules.SubmitCastle |
| Chess.ChessBoard.Place | ChessBoard.cpp:201-204 | place stores the piece at the square it records |
| Chess.ChessBoard.PlaceNew | ChessBoard.cpp:222 | place(new K(square, colour)) appends the piece and stores it at its square |
| Chess.ChessBoard.PlaceBackRows | ChessBoard.cpp:222-237 | the sixteen back-row placements lay out rows 8 and 1 |
| Chess.ChessBoard.PlacePair | ChessBoard.cpp:222-223 | one pair of back-row placements lays out one more file of rows 8 and 1 |
| Chess.ChessBoard.PlacePawns | ChessBoard.cpp:239-245 | the pawn loop lays out rows 7 and 2 |
| Chess.ChessBoard.ResetBoard | ChessBoard.cpp:206-209 | resetBoard rebuilds the initial position |
| Chess.ChessBoard.DeletePieces | ChessBoard.cpp:211-219 | deletePieces empties every cell and changes nothing else |
| Chess.ChessBoard.InitialiseBoard | ChessBoard.cpp:221-251 | on an empty grid, initialiseBoard produces the standard initial position, kings on E1/E8, White to move |
| Chess.VerifyPieceMove | ChessBoard.cpp:126 | the virtual verifyMove call changes nothing and equals Rules.VerifyMove |
| Chess.VerifyAs | ChessBoard.cpp:169 | dispatch on the kind changes nothing and equals Rules.VerifyAs |
| Chess.PathClear | ChessPiece.cpp:70-71 | the path loop answers ClearFrom (every square up to the destination empty, by ClearFromIff) |
| Chess.OwnPiece | ChessPiece.cpp:81-82 | the own-colour test on the destination |
| Chess.RookAllows | ChessPiece.cpp:62-82 | the rook's checks before checkMove, equal to Rules.RookAllows (characterised by RookPath) |
| Chess.RookVerify | ChessPiece.cpp:61-85 | Rook::verifyMove changes nothing and equals Rules.RookVerify |
| Chess.KnightAllows | ChessPiece.cpp:104-112 | the knight's checks, equal to Rules.KnightAllows (characterised by KnightGeometry) |
| Chess.KnightVerify | ChessPiece.cpp:103-115 | Knight::verifyMove changes nothing and equals Rules.KnightVerify |
| Chess.BishopAllows | ChessPiece.cpp:131-150 | the bishop's checks, equal to Rules.BishopAllows (characterised by BishopPath) |
| Chess.BishopVerify | ChessPiece.cpp:130-153 | Bishop::verifyMove changes nothing and equals Rules.BishopVerify |
| Chess.QueenVerify | ChessPiece.cpp:170-173 | Queen::verifyMove changes nothing and equals Rules.QueenVerify (rook or bishop, by QueenIsRookOrBishop) |
| Chess.KingVerify | ChessPiece.cpp:184-225 | King::verifyMove, with its castling walk, changes nothing and equals Rules.KingVerify |
| Chess.PawnAllows | ChessPiece.cpp:240-276 | the pawn's checks before checkMove, equal to Rules.PawnAllows |
| Chess.PawnVerify | ChessPiece.cpp:239-279 | Pawn::verifyMove changes nothing and equals Rules.PawnVerify |
| Chess.ProbeAny | ChessPiece.cpp:90-96 | a probe loop of canMove changes nothing and equals AnyProbe (some probe passes, by AnyProbeExists) |
| Chess.CanMoveAs | ChessPiece.cpp:87-288 | each canMove (rook, knight, bishop, queen, king, pawn) changes nothing and equals Rules.CanMoveAs |
| Chess.CanPieceMove | ChessBoard.cpp:190 | the virtual canMove call changes nothing and equals Rules.CanMove |

## Left out

- Console output is not modelled. This covers printBoard, reportInvalidMove, str() and operator<< of pieces, and the messages of submitMove. submitMove returns a `Status` value instead of printing.
- Heap lifetime is not modelled: `new`, `delete` in submitMove and deletePieces, and the leak in str(). A captured piece keeps its arena slot, and no cell refers to it. deletePieces only empties the cells.
- Bishop::verifyMove picks its direction with floating-point arithmetic. The model uses the sign test that arithmetic computes (`Rules.BishopDirection`).
- The source's mutual recursion has no decreasing measure, so the model threads a `fuel` bound on the nesting depth of attack detection. With no fuel left, `IsMarkedBy` answers "not attacked". Behaviour beyond that depth is not modelled.
- Some paths are undefined behaviour in the source, and the model gives each a total meaning:
  - an en-passant capture square off the board, or empty (the source asserts or dereferences NULL): nothing is removed;
  - a castling walk that runs off the board: the move is rejected;
  - the king reference after the king is captured: checkmate keeps the turn (ChessBoard.cpp:133-137), so the mating side may take the king next; line 130 deletes it and lines 159 and 198 read the freed piece. The model keeps the captured king's record and reads its last recorded square.
- The source's asserts become preconditions: a string square that is not parsable, a step that cannot go, and the castle-code length. The origin of submitMove must be parsable. The destination must be parsable only when the origin holds a piece of the side to move, because the source parses it at ChessBoard.cpp:126, after the origin checks.
- ChessBoard.h declares `isMarked` and `pieceMarksPosition`, which are never defined. They are not part of this model. ChessMain.cpp is not part of this model.
- The grid `board[8][8]` is one row-major array of 64 cells.
- The product tests `rankDiff * fileDiff == 2` (Knight) and `abs(rankDiff * fileDiff) == 1` (Pawn) are stated without the product, as `KnightJump` and `DiagonalStep`. `KnightJumpIsProductTwo` and `DiagonalStepIsUnitProduct` prove them equal to the products.
- The model keeps the source's rules as written, including where they depart from the rules of chess:
  - White's en-passant test asks for storage rank 5 (row "3"), where a White pawn that can take en passant stands on row "5" (storage rank 3);
  - Rook::verifyMove does not reject a destination off its rank and file;
  - a single pawn push onto an occupied square is accepted;
  - any other pawn move that is neither a first double step nor a one-square diagonal needs only an empty destination, so pawns jump over pieces, move sideways and move like knights, and a moved pawn may advance two ranks;
  - every file-changing pawn move onto an empty square is played as en passant and removes the piece at (d.rank ± 1, d.file), whatever its colour;
  - Bishop::canMove probes DL twice and never UR;
  - Pawn::canMove takes its direction from the side to move, and answers false for a pawn that has no room for two steps ahead;
  - castling picks the corner by the side to move and never checks the corner piece's colour or kind;
  - `knightMoves` holds six distinct jumps.
- Chess.ChessBoard.CheckMove requires that the move is not castling-shaped (a king moving two files). The source never calls checkMove with such a move, because castling returns before it. For a castling move the revert would not move the rook back.
- RuleFacts.CastleMove does not describe the final squares in two cases: when the corner piece is the king itself, and when the king lands on the corner.
- PieceFacts.OwnColourRejected does not cover the pawn. A pawn's straight move onto an own piece is not rejected by the source.
