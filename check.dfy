/** Check detection (ChessBoard.IsKingInCheck) as a predicate over a Grid. */
module Check {
  import opened Pieces
  import opened Grid
  import opened Rules

  predicate KingOf(g: Grid, p: Player, r: int, c: int)
  {
    IsGrid(g) && OnBoard(r, c) && g[r][c] == Occupied(Piece(p, King))
  }

  /** (r1, c1) comes before (r2, c2) in a row-major scan. */
  predicate Before(r1: int, c1: int, r2: int, c2: int)
  {
    r1 < r2 || (r1 == r2 && c1 < c2)
  }

  /** (r, c) holds the first king of `p` that a row-major scan meets. */
  ghost predicate FirstKing(g: Grid, p: Player, r: int, c: int)
  {
    KingOf(g, p, r, c)
    && forall i, j :: OnBoard(i, j) && Before(i, j, r, c) ==> !KingOf(g, p, i, j)
  }

  ghost predicate HasKing(g: Grid, p: Player)
  {
    exists r, c :: KingOf(g, p, r, c)
  }

  /** A piece of a player other than `p` on (r, c) may move onto (kr, kc). */
  predicate Attacks(g: Grid, p: Player, r: int, c: int, kr: int, kc: int)
  {
    IsGrid(g) && OnBoard(kr, kc) && OnBoard(r, c) && HeldByOpponent(g[r][c], p) && LegalMove(g, r, c, kr, kc)
  }

  /** The first king of `p` can be reached by some piece not owned by `p`. */
  ghost predicate InCheck(g: Grid, p: Player)
    requires IsGrid(g)
  {
    exists kr, kc :: FirstKing(g, p, kr, kc) && exists r, c :: Attacks(g, p, r, c, kr, kc)
  }

  /** A scan meets at most one first king. */
  lemma FirstKingUnique(g: Grid, p: Player, r1: int, c1: int, r2: int, c2: int)
    requires FirstKing(g, p, r1, c1) && FirstKing(g, p, r2, c2)
    ensures r1 == r2 && c1 == c2
  {
  }

  /** A player without a king is never in check. */
  lemma NoKingNoCheck(g: Grid, p: Player)
    requires IsGrid(g) && !HasKing(g, p)
    ensures !InCheck(g, p)
  {
  }

  /** Whenever `p` has a king, the row-major scan meets a first one. */
  lemma {:induction false} FirstKingExists(g: Grid, p: Player, r: int, c: int)
    requires KingOf(g, p, r, c)
    ensures exists i, j :: FirstKing(g, p, i, j)
    decreases 8 * r + c
  {
    if !FirstKing(g, p, r, c) {
      var i, j :| OnBoard(i, j) && Before(i, j, r, c) && KingOf(g, p, i, j);
      FirstKingExists(g, p, i, j);
    }
  }

  /** With a king, being in check means some opposing piece may move onto the first king. */
  lemma InCheckWithKing(g: Grid, p: Player, kr: int, kc: int)
    requires IsGrid(g) && FirstKing(g, p, kr, kc)
    ensures InCheck(g, p) <==> exists r, c :: Attacks(g, p, r, c, kr, kc)
  {
    if InCheck(g, p) {
      var kr', kc' :| FirstKing(g, p, kr', kc') && exists r, c :: Attacks(g, p, r, c, kr', kc');
      FirstKingUnique(g, p, kr, kc, kr', kc');
    }
  }

  /** An opposing rook that shares a row or a column with the king over empty squares gives check. */
  lemma RookOnOpenLineGivesCheck(g: Grid, p: Player, r: int, c: int, kr: int, kc: int)
    requires IsGrid(g) && FirstKing(g, p, kr, kc) && OnBoard(r, c)
    requires g[r][c] == Occupied(Piece(Opponent(p), Rook))
    requires Straight(r, c, kr, kc) && SquaresBetweenEmpty(g, r, c, kr, kc)
    ensures InCheck(g, p)
  {
    RookRule(g, r, c, kr, kc);
    assert Attacks(g, p, r, c, kr, kc);
  }

  /** A pawn gives check only to a king diagonally in front of it, in its own direction of travel. */
  lemma PawnChecksForwardOnly(g: Grid, p: Player, r: int, c: int, kr: int, kc: int)
    requires IsGrid(g) && FirstKing(g, p, kr, kc) && OnBoard(r, c)
    requires g[r][c] == Occupied(Piece(Opponent(p), Pawn))
    ensures Attacks(g, p, r, c, kr, kc) <==> kr == r + Forward(Opponent(p)) && Abs(kc - c) == 1
  {
  }
}
