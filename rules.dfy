/**
 * Move legality (ChessBoard.IsMoveValid) as a per-piece predicate over a Grid.
 * Coordinates are (row, column); White moves toward row 0.
 */
module Rules {
  import opened Pieces
  import opened Grid

  function Abs(n: int): (r: nat)
    ensures r == n || r == -n
  {
    if n < 0 then -n else n
  }

  function Max(a: int, b: int): int
  {
    if a < b then b else a
  }

  /** The coordinate reached after `k` steps from `a` toward `b` (no step when a == b). */
  function Toward(a: int, b: int, k: int): int
  {
    if a < b then a + k else if b < a then a - k else a
  }

  /** Number of king steps between two squares. */
  function Distance(sx: int, sy: int, ex: int, ey: int): nat
  {
    Max(Abs(ex - sx), Abs(ey - sy))
  }

  /** Same row xor same column. */
  predicate Straight(sx: int, sy: int, ex: int, ey: int)
  {
    (sx == ex) != (sy == ey)
  }

  predicate Diagonal(sx: int, sy: int, ex: int, ey: int)
  {
    Abs(ex - sx) == Abs(ey - sy)
  }

  predicate OnLine(sx: int, sy: int, ex: int, ey: int)
  {
    sx == ex || sy == ey || Diagonal(sx, sy, ex, ey)
  }

  /** Every square strictly between the two endpoints of a line is empty. */
  predicate PathClear(g: Grid, sx: int, sy: int, ex: int, ey: int)
    requires IsGrid(g) && OnBoard(sx, sy) && OnBoard(ex, ey) && OnLine(sx, sy, ex, ey)
  {
    forall k :: 0 < k < Distance(sx, sy, ex, ey) ==> g[Toward(sx, ex, k)][Toward(sy, ey, k)].Empty?
  }

  /** Row offset of a pawn's forward step. */
  function Forward(p: Player): int
  {
    if p == White then -1 else 1
  }

  /** The pawn rule: one step onto an empty square, a diagonal capture, or two steps over an empty square. */
  predicate PawnMove(g: Grid, p: Player, sx: int, sy: int, ex: int, ey: int)
    requires IsGrid(g) && OnBoard(sx, sy) && OnBoard(ex, ey)
  {
    var d := Forward(p);
    (ex == sx + d && ey == sy && g[ex][ey].Empty?)
    || (ex == sx + d && Abs(sy - ey) == 1 && HeldByOpponent(g[ex][ey], p))
    || (ex == sx + 2 * d && ey == sy && g[sx + d][sy].Empty? && g[ex][ey].Empty?)
  }

  predicate KnightLeap(dx: int, dy: int)
  {
    (dx == 2 && dy == 1) || (dx == 1 && dy == 2)
  }

  /** The rule for a piece of kind `kind`, assuming the destination is not the mover's own. */
  predicate PieceMove(g: Grid, pc: Piece, sx: int, sy: int, ex: int, ey: int)
    requires IsGrid(g) && OnBoard(sx, sy) && OnBoard(ex, ey)
  {
    match pc.kind
    case Pawn => PawnMove(g, pc.player, sx, sy, ex, ey)
    case Rook => Straight(sx, sy, ex, ey) && PathClear(g, sx, sy, ex, ey)
    case Knight => KnightLeap(Abs(ex - sx), Abs(ey - sy))
    case Bishop => Diagonal(sx, sy, ex, ey)
    case Queen =>
      (Straight(sx, sy, ex, ey) && PathClear(g, sx, sy, ex, ey))
      || (Diagonal(sx, sy, ex, ey) && 0 < Abs(ex - sx) && PathClear(g, sx, sy, ex, ey))
    case King => Distance(sx, sy, ex, ey) == 1
  }

  /** Whether the piece on (sx, sy) may move to (ex, ey). */
  function LegalMove(g: Grid, sx: int, sy: int, ex: int, ey: int): (r: bool)
    requires IsGrid(g) && OnBoard(sx, sy) && OnBoard(ex, ey)
    ensures g[sx][sy].Empty? ==> !r
    ensures r ==> g[sx][sy].Occupied? && !OwnedBy(g[ex][ey], g[sx][sy].piece.player)
    ensures r ==> (sx, sy) != (ex, ey)
  {
    match g[sx][sy]
    case Empty => false
    case Occupied(pc) => !OwnedBy(g[ex][ey], pc.player) && PieceMove(g, pc, sx, sy, ex, ey)
  }

  /** `v` lies strictly between `a` and `b`. */
  predicate Inside(a: int, b: int, v: int)
  {
    (a < v < b) || (b < v < a)
  }

  /** (x, y) lies strictly between the endpoints of a row, a column or a diagonal. */
  predicate StrictlyBetween(sx: int, sy: int, ex: int, ey: int, x: int, y: int)
  {
    if sx == ex then x == sx && Inside(sy, ey, y)
    else if sy == ey then y == sy && Inside(sx, ex, x)
    else Inside(sx, ex, x) && Inside(sy, ey, y) && Abs(x - sx) == Abs(y - sy)
  }

  /** Every board square strictly between the endpoints is empty. */
  ghost predicate SquaresBetweenEmpty(g: Grid, sx: int, sy: int, ex: int, ey: int)
    requires IsGrid(g)
  {
    forall x, y :: OnBoard(x, y) && StrictlyBetween(sx, sy, ex, ey, x, y) ==> g[x][y].Empty?
  }

  /** The step-by-step path of the scans is exactly the set of squares strictly between the endpoints. */
  lemma PathClearIff(g: Grid, sx: int, sy: int, ex: int, ey: int)
    requires IsGrid(g) && OnBoard(sx, sy) && OnBoard(ex, ey) && OnLine(sx, sy, ex, ey)
    ensures PathClear(g, sx, sy, ex, ey) <==> SquaresBetweenEmpty(g, sx, sy, ex, ey)
  {
    var d := Distance(sx, sy, ex, ey);
    if PathClear(g, sx, sy, ex, ey) {
      forall x, y | OnBoard(x, y) && StrictlyBetween(sx, sy, ex, ey, x, y)
        ensures g[x][y].Empty?
      {
        var k := if sx == ex then Abs(y - sy) else Abs(x - sx);
        assert 0 < k < d && Toward(sx, ex, k) == x && Toward(sy, ey, k) == y;
      }
    }
    if SquaresBetweenEmpty(g, sx, sy, ex, ey) {
      forall k | 0 < k < d
        ensures g[Toward(sx, ex, k)][Toward(sy, ey, k)].Empty?
      {
        assert StrictlyBetween(sx, sy, ex, ey, Toward(sx, ex, k), Toward(sy, ey, k));
      }
    }
  }

  /** Pawns move forward only: one or two rows toward the opponent, staying on the file unless capturing. */
  lemma PawnMoveShape(g: Grid, sx: int, sy: int, ex: int, ey: int)
    requires IsGrid(g) && OnBoard(sx, sy) && OnBoard(ex, ey)
    requires g[sx][sy].Occupied? && g[sx][sy].piece.kind == Pawn
    requires LegalMove(g, sx, sy, ex, ey)
    ensures g[sx][sy].piece.player == White ==> ex == sx - 1 || ex == sx - 2
    ensures g[sx][sy].piece.player == Black ==> ex == sx + 1 || ex == sx + 2
    ensures ey == sy ==> g[ex][ey].Empty?
    ensures ex == sx + 2 * Forward(g[sx][sy].piece.player) ==> ey == sy && g[sx + Forward(g[sx][sy].piece.player)][sy].Empty?
    ensures ey != sy ==> ex == sx + Forward(g[sx][sy].piece.player) && Abs(ey - sy) == 1
                         && HeldByOpponent(g[ex][ey], g[sx][sy].piece.player)
  {
  }

  /** The double step is not tied to the pawn's starting rank. */
  lemma PawnDoubleStepFromAnyRank(g: Grid, p: Player, sx: int, sy: int)
    requires IsGrid(g) && OnBoard(sx, sy) && OnBoard(sx + 2 * Forward(p), sy)
    requires g[sx][sy] == Occupied(Piece(p, Pawn))
    requires g[sx + Forward(p)][sy].Empty? && g[sx + 2 * Forward(p)][sy].Empty?
    ensures LegalMove(g, sx, sy, sx + 2 * Forward(p), sy)
  {
  }

  /** A rook moves along a row xor a column over empty squares, onto an empty or opposing square. */
  lemma RookRule(g: Grid, sx: int, sy: int, ex: int, ey: int)
    requires IsGrid(g) && OnBoard(sx, sy) && OnBoard(ex, ey)
    requires g[sx][sy].Occupied? && g[sx][sy].piece.kind == Rook
    ensures LegalMove(g, sx, sy, ex, ey) <==>
              !OwnedBy(g[ex][ey], g[sx][sy].piece.player) && Straight(sx, sy, ex, ey)
              && SquaresBetweenEmpty(g, sx, sy, ex, ey)
  {
    if Straight(sx, sy, ex, ey) {
      PathClearIff(g, sx, sy, ex, ey);
    }
  }

  /** A queen moves along a row, a column or a diagonal over empty squares. */
  lemma QueenRule(g: Grid, sx: int, sy: int, ex: int, ey: int)
    requires IsGrid(g) && OnBoard(sx, sy) && OnBoard(ex, ey)
    requires g[sx][sy].Occupied? && g[sx][sy].piece.kind == Queen
    ensures LegalMove(g, sx, sy, ex, ey) <==>
              !OwnedBy(g[ex][ey], g[sx][sy].piece.player)
              && (Straight(sx, sy, ex, ey) || (Diagonal(sx, sy, ex, ey) && 0 < Abs(ex - sx)))
              && SquaresBetweenEmpty(g, sx, sy, ex, ey)
  {
    if OnLine(sx, sy, ex, ey) {
      PathClearIff(g, sx, sy, ex, ey);
    }
  }

  /** A bishop moves along a diagonal whatever stands between; only the two end squares matter. */
  lemma BishopRule(g: Grid, sx: int, sy: int, ex: int, ey: int)
    requires IsGrid(g) && OnBoard(sx, sy) && OnBoard(ex, ey)
    requires g[sx][sy].Occupied? && g[sx][sy].piece.kind == Bishop
    ensures LegalMove(g, sx, sy, ex, ey) <==>
              !OwnedBy(g[ex][ey], g[sx][sy].piece.player) && Abs(ex - sx) == Abs(ey - sy)
  {
  }

  /** A knight leaps two squares one way and one the other, whatever stands between. */
  lemma KnightRule(g: Grid, sx: int, sy: int, ex: int, ey: int)
    requires IsGrid(g) && OnBoard(sx, sy) && OnBoard(ex, ey)
    requires g[sx][sy].Occupied? && g[sx][sy].piece.kind == Knight
    ensures LegalMove(g, sx, sy, ex, ey) <==>
              !OwnedBy(g[ex][ey], g[sx][sy].piece.player)
              && ((Abs(ex - sx) == 2 && Abs(ey - sy) == 1) || (Abs(ex - sx) == 1 && Abs(ey - sy) == 2))
  {
  }

  /** A king steps to one of the eight neighbouring squares. */
  lemma KingRule(g: Grid, sx: int, sy: int, ex: int, ey: int)
    requires IsGrid(g) && OnBoard(sx, sy) && OnBoard(ex, ey)
    requires g[sx][sy].Occupied? && g[sx][sy].piece.kind == King
    ensures LegalMove(g, sx, sy, ex, ey) <==>
              !OwnedBy(g[ex][ey], g[sx][sy].piece.player)
              && Abs(ex - sx) <= 1 && Abs(ey - sy) <= 1 && (sx, sy) != (ex, ey)
  {
  }

  /**
   * Legality reads only the two end squares and the squares strictly between them
   * (for a pawn's double step, the square it passes).
   */
  lemma LegalityIsLocal(g: Grid, h: Grid, sx: int, sy: int, ex: int, ey: int)
    requires IsGrid(g) && IsGrid(h) && OnBoard(sx, sy) && OnBoard(ex, ey)
    requires g[sx][sy] == h[sx][sy] && g[ex][ey] == h[ex][ey]
    requires forall x, y :: OnBoard(x, y) && StrictlyBetween(sx, sy, ex, ey, x, y) ==> g[x][y] == h[x][y]
    ensures LegalMove(g, sx, sy, ex, ey) == LegalMove(h, sx, sy, ex, ey)
  {
    if OnLine(sx, sy, ex, ey) {
      PathClearIff(g, sx, sy, ex, ey);
      PathClearIff(h, sx, sy, ex, ey);
    }
  }

  /** Only the two end squares decide a knight's, a bishop's or a king's move. */
  lemma LeapsIgnoreOtherSquares(g: Grid, h: Grid, sx: int, sy: int, ex: int, ey: int)
    requires IsGrid(g) && IsGrid(h) && OnBoard(sx, sy) && OnBoard(ex, ey)
    requires g[sx][sy] == h[sx][sy] && g[ex][ey] == h[ex][ey]
    requires g[sx][sy].Occupied? && g[sx][sy].piece.kind in {Knight, Bishop, King}
    ensures LegalMove(g, sx, sy, ex, ey) == LegalMove(h, sx, sy, ex, ey)
  {
  }

  /** A piece other than a pawn that has just moved may move straight back. */
  lemma MoveIsReversible(g: Grid, sx: int, sy: int, ex: int, ey: int)
    requires IsGrid(g) && OnBoard(sx, sy) && OnBoard(ex, ey)
    requires LegalMove(g, sx, sy, ex, ey) && g[sx][sy].piece.kind != Pawn
    ensures LegalMove(MovePiece(g, sx, sy, ex, ey), ex, ey, sx, sy)
  {
    var h := MovePiece(g, sx, sy, ex, ey);
    MovePieceFrame(g, sx, sy, ex, ey);
    if g[sx][sy].piece.kind in {Rook, Queen} && OnLine(sx, sy, ex, ey) {
      PathClearIff(g, sx, sy, ex, ey);
      PathClearIff(h, ex, ey, sx, sy);
      forall x, y | OnBoard(x, y) && StrictlyBetween(ex, ey, sx, sy, x, y)
        ensures h[x][y].Empty?
      {
        assert StrictlyBetween(sx, sy, ex, ey, x, y);
      }
    }
  }
}
