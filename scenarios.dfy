/** Facts about the standard initial position and a few concrete positions. */
module Scenarios {
  import opened Pieces
  import opened Grid
  import opened Rules
  import opened Check

  /** Each player starts with exactly one king: White's on (7, 4), Black's on (0, 4). */
  lemma InitialKings()
    ensures forall r, c :: KingOf(InitialGrid(), White, r, c) <==> r == 7 && c == 4
    ensures forall r, c :: KingOf(InitialGrid(), Black, r, c) <==> r == 0 && c == 4
    ensures FirstKing(InitialGrid(), White, 7, 4) && FirstKing(InitialGrid(), Black, 0, 4)
  {
  }

  /** e2-e4: the White king's pawn may advance two squares from the initial position. */
  lemma KingPawnDoubleStep()
    ensures LegalMove(InitialGrid(), 6, 4, 4, 4)
  {
  }

  /** A pawn never advances three rows, on any board. */
  lemma NoTripleStep(g: Grid, sx: int, sy: int, ex: int, ey: int)
    requires IsGrid(g) && OnBoard(sx, sy) && OnBoard(ex, ey)
    requires g[sx][sy].Occupied? && g[sx][sy].piece.kind == Pawn
    requires ex == sx + 3 * Forward(g[sx][sy].piece.player)
    ensures !LegalMove(g, sx, sy, ex, ey)
  {
    if LegalMove(g, sx, sy, ex, ey) {
      PawnMoveShape(g, sx, sy, ex, ey);
    }
  }

  /** b1-a3: the knight leaps over the pawns in front of it. */
  lemma KnightLeapsOverPawns()
    ensures LegalMove(InitialGrid(), 7, 1, 5, 0)
  {
  }

  /** In the initial position the queen is blocked but the bishop may jump over its pawn. */
  lemma BlockedQueenFreeBishop()
    ensures !LegalMove(InitialGrid(), 7, 3, 5, 3)
    ensures LegalMove(InitialGrid(), 7, 2, 5, 4)
  {
    assert InitialGrid()[Toward(7, 5, 1)][Toward(3, 3, 1)].Occupied?;
  }

  /** A Black queen facing the White king down an otherwise empty file gives check. */
  lemma QueenOnOpenFileGivesCheck(g: Grid)
    requires IsGrid(g)
    requires g[0][4] == Occupied(Piece(Black, Queen)) && g[7][4] == Occupied(Piece(White, King))
    requires forall r :: 1 <= r < 7 ==> g[r][4].Empty?
    requires forall r, c :: KingOf(g, White, r, c) ==> r == 7 && c == 4
    ensures InCheck(g, White)
  {
    assert FirstKing(g, White, 7, 4);
    assert PathClear(g, 0, 4, 7, 4) by {
      forall k | 0 < k < 7
        ensures g[Toward(0, 7, k)][Toward(4, 4, k)].Empty?
      {
        assert Toward(0, 7, k) == k;
      }
    }
    assert Attacks(g, White, 0, 4, 7, 4);
  }

  /** Neither king is attacked in the initial position. */
  lemma InitialPositionNoCheck()
    ensures !InCheck(InitialGrid(), White) && !InCheck(InitialGrid(), Black)
  {
    InitialKings();
    forall r, c | OnBoard(r, c)
      ensures !Attacks(InitialGrid(), White, r, c, 7, 4) && !Attacks(InitialGrid(), Black, r, c, 0, 4)
    {
    }
    InCheckWithKing(InitialGrid(), White, 7, 4);
    InCheckWithKing(InitialGrid(), Black, 0, 4);
  }

  /** After e2-e4 Black is not in check. */
  lemma KingPawnOpeningGivesNoCheck()
    ensures !InCheck(MovePiece(InitialGrid(), 6, 4, 4, 4), Black)
  {
    var g := MovePiece(InitialGrid(), 6, 4, 4, 4);
    MovePieceFrame(InitialGrid(), 6, 4, 4, 4);
    InitialKings();
    assert FirstKing(g, Black, 0, 4);
    forall r, c | OnBoard(r, c)
      ensures !Attacks(g, Black, r, c, 0, 4)
    {
    }
    InCheckWithKing(g, Black, 0, 4);
  }
}
