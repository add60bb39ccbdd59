/** Squares of the board and the step tables: Position.h and Position.cpp.
    Storage rank 0 is the text row "8" and storage rank 7 is row "1";
    file 0 is column "A". */
module Positions {

  /** A (rank, file) pair before the range check. */
  datatype Coord = Coord(rank: int, file: int)

  /** Position::validPosition. */
  predicate ValidPosition(rank: int, file: int) {
    0 <= rank < 8 && 0 <= file < 8
  }

  /** A Position is always on the board: both constructors assert validPosition. */
  type Position = c: Coord | ValidPosition(c.rank, c.file) witness Coord(0, 0)

  /** A step (the source's Move): a rank delta (m[Rank]) and a file delta (m[File]). */
  datatype Offset = Offset(dr: int, df: int)

  // The direction enumeration of Position.h, used as indices into BasicMoves.
  const D: nat := 0
  const DR: nat := 1
  const R: nat := 2
  const UR: nat := 3
  const U: nat := 4
  const UL: nat := 5
  const L: nat := 6
  const DL: nat := 7

  /** basicMoves: the eight king steps, in the order of the direction enumeration. */
  const BasicMoves: seq<Offset> :=
    [Offset(1, 0), Offset(1, 1), Offset(0, 1), Offset(-1, 1),
     Offset(-1, 0), Offset(-1, -1), Offset(0, -1), Offset(1, -1)]

  /** knightMoves, exactly as tabulated (two entries repeat, two knight jumps are missing). */
  const KnightMoves: seq<Offset> :=
    [Offset(1, 2), Offset(-1, 2), Offset(2, -1), Offset(2, 1),
     Offset(1, -2), Offset(-1, -2), Offset(2, 1), Offset(2, -1)]

  /** A single king step: both components in {-1, 0, 1}, not both zero. */
  predicate IsUnitStep(m: Offset) {
    -1 <= m.dr <= 1 && -1 <= m.df <= 1 && m != Offset(0, 0)
  }

  /** The text form of a square: a column letter A..H then a row digit 1..8. */
  predicate IsSquareString(s: string) {
    |s| == 2 && 'A' <= s[0] <= 'H' && '1' <= s[1] <= '8'
  }

  /** What Position(const char*) asserts: two characters whose indices pass validPosition. */
  predicate Parsable(s: string) {
    |s| == 2 && ValidPosition('8' as int - s[1] as int, s[0] as int - 'A' as int)
  }

  /** Position(int, int): asserts that the indices are on the board. */
  function FromIndices(rank: int, file: int): (p: Position)
    requires ValidPosition(rank, file)
    ensures p.rank == rank && p.file == file
  {
    Coord(rank, file)
  }

  /** Position(const char*): rank is '8' minus the digit, file is the letter minus 'A'. */
  function FromString(s: string): (p: Position)
    requires Parsable(s)
    ensures p.rank == '8' as int - s[1] as int && p.file == s[0] as int - 'A' as int
  {
    FromIndices('8' as int - s[1] as int, s[0] as int - 'A' as int)
  }

  /** Position::str: the letter 'A' + file followed by the digit '8' - rank. */
  function Str(p: Position): (s: string)
    ensures IsSquareString(s)
    ensures s[0] as int == 'A' as int + p.file && s[1] as int == '8' as int - p.rank
  {
    [('A' as int + p.file) as char, ('8' as int - p.rank) as char]
  }

  /** Position::canGo: the step stays on the board. */
  function CanGo(p: Position, m: Offset): bool {
    ValidPosition(p.rank + m.dr, p.file + m.df)
  }

  /** Position::go: asserts canGo, then adds the offset component-wise. */
  function Go(p: Position, m: Offset): (q: Position)
    requires CanGo(p, m)
    ensures q.rank == p.rank + m.dr && q.file == p.file + m.df
  {
    FromIndices(p.rank + m.dr, p.file + m.df)
  }

  /** Position::operator==: compares rank and file. */
  function Equals(p: Position, q: Position): (r: bool)
    ensures r <==> p == q
  {
    p.rank == q.rank && p.file == q.file
  }

  /** Position::operator!=: differs in rank or in file. */
  function NotEquals(p: Position, q: Position): (r: bool)
    ensures r <==> !Equals(p, q)
  {
    p.rank != q.rank || p.file != q.file
  }

  function Abs(x: int): nat {
    if x < 0 then -x else x
  }

  /** The test abs(rankDiff * fileDiff) == 1 of Pawn::verifyMove (one step diagonally),
      stated without the product; DiagonalStepIsUnitProduct shows the two agree. */
  predicate DiagonalStep(rankDiff: int, fileDiff: int) {
    Abs(rankDiff) == 1 && Abs(fileDiff) == 1
  }

  /** The test rankDiff * fileDiff == 2 of Knight::verifyMove on the absolute distances,
      stated without the product; KnightJumpIsProductTwo shows the two agree. */
  predicate KnightJump(rankDist: nat, fileDist: nat) {
    (rankDist == 1 && fileDist == 2) || (rankDist == 2 && fileDist == 1)
  }

  // ---------------------------------------------------------------------------
  // Properties of the conversions

  /** The constructor's assert on a two-character string accepts exactly [A-H][1-8]. */
  lemma ParsableIsSquareString(s: string)
    requires |s| == 2
    ensures Parsable(s) <==> IsSquareString(s)
  {
  }

  /** Printing a square and parsing the text gives the square back. */
  lemma StrRoundTrip(p: Position)
    ensures Parsable(Str(p)) && FromString(Str(p)) == p
  {
  }

  /** Parsing a square string and printing the square gives the string back. */
  lemma {:induction false} ParseRoundTrip(s: string)
    requires IsSquareString(s)
    ensures Parsable(s) && Str(FromString(s)) == s
  {
    var t := Str(FromString(s));
    assert t[0] == s[0] && t[1] == s[1];
  }

  /** Position(Position(r, f).str()) has rank r and file f. */
  lemma IndicesRoundTrip(rank: int, file: int)
    requires ValidPosition(rank, file)
    ensures Parsable(Str(FromIndices(rank, file)))
    ensures FromString(Str(FromIndices(rank, file))).rank == rank
    ensures FromString(Str(FromIndices(rank, file))).file == file
  {
    StrRoundTrip(FromIndices(rank, file));
  }

  /** validPosition accepts exactly the coordinates whose column letter is A-H and
      whose row digit is 1-8, and these are exactly the coordinates of a square. */
  lemma ValidPositionNamesASquare(rank: int, file: int)
    ensures ValidPosition(rank, file) <==>
      'A' as int <= 'A' as int + file <= 'H' as int && '1' as int <= '8' as int - rank <= '8' as int
    ensures ValidPosition(rank, file) <==> exists p: Position :: p.rank == rank && p.file == file
  {
    if ValidPosition(rank, file) {
      var p := FromIndices(rank, file);
      assert p.rank == rank && p.file == file;
    }
  }

  /** canGo holds exactly when the step lands on a square, the one go then returns. */
  lemma CanGoLandsOnASquare(p: Position, m: Offset)
    ensures CanGo(p, m) <==> exists q: Position :: q.rank == p.rank + m.dr && q.file == p.file + m.df
  {
    ValidPositionNamesASquare(p.rank + m.dr, p.file + m.df);
  }

  /** Rank 0 is printed as row "8" and rank 7 as row "1"; the file is the column letter. */
  lemma StorageRowsAreInverted(p: Position)
    ensures p.rank == 0 <==> Str(p)[1] == '8'
    ensures p.rank == 7 <==> Str(p)[1] == '1'
    ensures p.file == 0 <==> Str(p)[0] == 'A'
  {
  }

  // ---------------------------------------------------------------------------
  // Properties of the step tables

  /** Every basicMoves entry is a king step, and the eight entries are distinct. */
  lemma BasicMovesAreUnitSteps()
    ensures |BasicMoves| == 8
    ensures forall i :: 0 <= i < 8 ==> IsUnitStep(BasicMoves[i])
    ensures forall i, j :: 0 <= i < j < 8 ==> BasicMoves[i] != BasicMoves[j]
  {
  }

  /** basicMoves[i] and basicMoves[(i + 4) % 8] are negations of each other. */
  lemma BasicMovesOpposite(i: int)
    requires 0 <= i < 8
    ensures BasicMoves[(i + 4) % 8] == Offset(-BasicMoves[i].dr, -BasicMoves[i].df)
  {
  }

  /** A step along basicMoves[i] is undone by the step along basicMoves[(i + 4) % 8]. */
  lemma GoAndBack(p: Position, i: int)
    requires 0 <= i < 8 && CanGo(p, BasicMoves[i])
    ensures CanGo(Go(p, BasicMoves[i]), BasicMoves[(i + 4) % 8])
    ensures Go(Go(p, BasicMoves[i]), BasicMoves[(i + 4) % 8]) == p
  {
    BasicMovesOpposite(i);
  }

  /** A step moves the column letter by the file delta and the row digit against the
      rank delta. */
  lemma StrOfGo(p: Position, m: Offset)
    requires CanGo(p, m)
    ensures Str(Go(p, m))[0] as int == Str(p)[0] as int + m.df
    ensures Str(Go(p, m))[1] as int == Str(p)[1] as int - m.dr
  {
    var q := Go(p, m);
    assert Str(q)[0] as int == 'A' as int + q.file && Str(q)[1] as int == '8' as int - q.rank;
  }

  /** U lowers the storage rank, so it raises the printed row digit; D does the
      opposite; L and R change only the column letter. */
  lemma DirectionsOnTheText(p: Position)
    ensures CanGo(p, BasicMoves[U]) ==>
      Str(Go(p, BasicMoves[U]))[1] as int == Str(p)[1] as int + 1 && Str(Go(p, BasicMoves[U]))[0] as int == Str(p)[0] as int
    ensures CanGo(p, BasicMoves[D]) ==>
      Str(Go(p, BasicMoves[D]))[1] as int == Str(p)[1] as int - 1 && Str(Go(p, BasicMoves[D]))[0] as int == Str(p)[0] as int
    ensures CanGo(p, BasicMoves[L]) ==>
      Str(Go(p, BasicMoves[L]))[0] as int == Str(p)[0] as int - 1 && Str(Go(p, BasicMoves[L]))[1] as int == Str(p)[1] as int
    ensures CanGo(p, BasicMoves[R]) ==>
      Str(Go(p, BasicMoves[R]))[0] as int == Str(p)[0] as int + 1 && Str(Go(p, BasicMoves[R]))[1] as int == Str(p)[1] as int
  {
    if CanGo(p, BasicMoves[U]) { StrOfGo(p, BasicMoves[U]); }
    if CanGo(p, BasicMoves[D]) { StrOfGo(p, BasicMoves[D]); }
    if CanGo(p, BasicMoves[L]) { StrOfGo(p, BasicMoves[L]); }
    if CanGo(p, BasicMoves[R]) { StrOfGo(p, BasicMoves[R]); }
  }

  /** Every knightMoves entry satisfies |dr| * |df| == 2. */
  lemma KnightMovesShape()
    ensures |KnightMoves| == 8
    ensures forall i :: 0 <= i < 8 ==> Abs(KnightMoves[i].dr) * Abs(KnightMoves[i].df) == 2
  {
  }

  /** The set of offsets in knightMoves. */
  function KnightOffsets(): set<Offset> {
    set i | 0 <= i < |KnightMoves| :: KnightMoves[i]
  }

  /** knightMoves holds only six distinct jumps: (2, 1) and (2, -1) appear twice,
      and the jumps (-2, 1) and (-2, -1) never appear. */
  lemma KnightMovesSixDistinct()
    ensures |KnightOffsets()| == 6
    ensures KnightMoves[3] == KnightMoves[6] == Offset(2, 1)
    ensures KnightMoves[2] == KnightMoves[7] == Offset(2, -1)
    ensures Offset(-2, 1) !in KnightOffsets() && Offset(-2, -1) !in KnightOffsets()
  {
    var six := {Offset(1, 2), Offset(-1, 2), Offset(2, -1), Offset(2, 1), Offset(1, -2), Offset(-1, -2)};
    assert KnightOffsets() == six by {
      assert KnightMoves[0] in KnightOffsets() && KnightMoves[1] in KnightOffsets();
      assert KnightMoves[2] in KnightOffsets() && KnightMoves[3] in KnightOffsets();
      assert KnightMoves[4] in KnightOffsets() && KnightMoves[5] in KnightOffsets();
    }
    assert |six| == 6;
  }

  /** DiagonalStep is the pawn's product test: abs(x * y) == 1 exactly when both
      components are 1 or -1. */
  lemma DiagonalStepIsUnitProduct(x: int, y: int)
    ensures DiagonalStep(x, y) <==> Abs(x * y) == 1
  {
    var a, b := Abs(x), Abs(y);
    assert Abs(x * y) == a * b by {
      if x < 0 && y < 0 { assert x * y == (-x) * (-y); }
      else if x < 0 { assert x * y == -((-x) * y); }
      else if y < 0 { assert x * y == -(x * (-y)); }
    }
    if a >= 2 && b >= 1 {
      ProductAtLeast(a, b);
    } else if b >= 2 && a >= 1 {
      ProductAtLeast(b, a);
      assert b * a == a * b;
    }
  }

  /** A helper for the product tests: a factor of at least 2 times one of at least 1. */
  lemma ProductAtLeast(a: int, b: int)
    requires a >= 2 && b >= 1
    ensures a * b >= 2
  {
    assert a * b == a * (b - 1) + a;
    assert a * (b - 1) >= 0;
  }

  /** KnightJump is the knight's product test: a * b == 2 on distances exactly when
      they are 1 and 2 in some order. */
  lemma KnightJumpIsProductTwo(a: nat, b: nat)
    ensures KnightJump(a, b) <==> a * b == 2
  {
    if a == 0 || b == 0 {
      assert a * b == 0;
    } else if a >= 3 {
      assert a * b >= 3 * b;
    } else if b >= 3 {
      assert a * b >= a * 3;
    } else if a == 2 && b == 2 {
      assert a * b == 4;
    }
  }
}
