/** The board as a value: 8 rows of 8 squares, row 0 being Black's back rank. */
module Grid {
  import opened Pieces

  type Grid = seq<seq<Square>>

  predicate InRange(v: int)
  {
    0 <= v < 8
  }

  predicate OnBoard(x: int, y: int)
  {
    InRange(x) && InRange(y)
  }

  predicate IsGrid(g: Grid)
  {
    |g| == 8 && forall r :: 0 <= r < 8 ==> |g[r]| == 8
  }

  /** The grid `g` with square (x, y) replaced by `s`. */
  function Put(g: Grid, x: int, y: int, s: Square): (r: Grid)
    requires IsGrid(g) && OnBoard(x, y)
    ensures IsGrid(r)
    ensures r[x][y] == s
    ensures forall i, j :: OnBoard(i, j) && (i, j) != (x, y) ==> r[i][j] == g[i][j]
  {
    g[x := g[x][y := s]]
  }

  /** The grid after the piece on (sx, sy) moves to (ex, ey), discarding whatever stood there. */
  function MovePiece(g: Grid, sx: int, sy: int, ex: int, ey: int): Grid
    requires IsGrid(g) && OnBoard(sx, sy) && OnBoard(ex, ey)
  {
    Put(Put(g, ex, ey, g[sx][sy]), sx, sy, Empty)
  }

  /** Exactly two squares change when a piece moves from one square to another. */
  lemma MovePieceFrame(g: Grid, sx: int, sy: int, ex: int, ey: int)
    requires IsGrid(g) && OnBoard(sx, sy) && OnBoard(ex, ey)
    requires (sx, sy) != (ex, ey)
    ensures IsGrid(MovePiece(g, sx, sy, ex, ey))
    ensures MovePiece(g, sx, sy, ex, ey)[ex][ey] == g[sx][sy]
    ensures MovePiece(g, sx, sy, ex, ey)[sx][sy] == Empty
    ensures forall i, j :: OnBoard(i, j) && (i, j) != (sx, sy) && (i, j) != (ex, ey) ==>
              MovePiece(g, sx, sy, ex, ey)[i][j] == g[i][j]
  {
  }

  /** Two grids with the same squares are equal. */
  lemma GridExtensionality(g: Grid, h: Grid)
    requires IsGrid(g) && IsGrid(h)
    requires forall i, j :: OnBoard(i, j) ==> g[i][j] == h[i][j]
    ensures g == h
  {
    forall i | 0 <= i < 8
      ensures g[i] == h[i]
    {
      assert forall j :: 0 <= j < 8 ==> g[i][j] == h[i][j];
    }
  }

  /** The piece of the standard back rank that stands on column `c`. */
  function BackRank(c: int): PieceType
  {
    if c == 0 || c == 7 then Rook
    else if c == 1 || c == 6 then Knight
    else if c == 2 || c == 5 then Bishop
    else if c == 3 then Queen
    else King
  }

  /** The square (r, c) of the standard initial position. */
  function InitialSquare(r: int, c: int): Square
  {
    if r == 0 then Occupied(Piece(Black, BackRank(c)))
    else if r == 1 then Occupied(Piece(Black, Pawn))
    else if r == 6 then Occupied(Piece(White, Pawn))
    else if r == 7 then Occupied(Piece(White, BackRank(c)))
    else Empty
  }

  /** Rows that the initial setup writes. */
  predicate SetupRow(r: int)
  {
    r == 0 || r == 1 || r == 6 || r == 7
  }

  function InitialGrid(): (g: Grid)
    ensures IsGrid(g)
    ensures forall r, c :: OnBoard(r, c) ==> g[r][c] == InitialSquare(r, c)
  {
    seq(8, r => seq(8, c => InitialSquare(r, c)))
  }

  /** `g` with the rows of the initial setup written over it. */
  function SetUp(g: Grid): (r: Grid)
    requires IsGrid(g)
    ensures IsGrid(r)
    ensures forall i, j :: OnBoard(i, j) ==> r[i][j] == if SetupRow(i) then InitialSquare(i, j) else g[i][j]
  {
    seq(8, i requires 0 <= i < 8 => seq(8, j requires 0 <= j < 8 => if SetupRow(i) then InitialSquare(i, j) else g[i][j]))
  }

  function EmptyGrid(): (g: Grid)
    ensures IsGrid(g)
    ensures forall r, c :: OnBoard(r, c) ==> g[r][c] == Empty
  {
    seq(8, r => seq(8, c => Empty))
  }
}
