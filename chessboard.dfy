/** The ChessBoard class: an 8x8 array of squares updated in place. */
module Engine {
  import opened Pieces
  import opened Grid
  import opened Rules
  import opened Check

  /** What MakeMove announces: nothing, the source's winner message, or "check". */
  datatype Notice = Silent | Victory(announced: Player) | CheckAnnounced

  class ChessBoard {
    var board: array2<Square>
    /** The abstract contents of `board`. */
    ghost var cells: Grid

    ghost predicate Valid()
      reads this, board
    {
      board.Length0 == 8 && board.Length1 == 8 && IsGrid(cells)
      && forall r, c :: 0 <= r < 8 && 0 <= c < 8 ==> board[r, c] == cells[r][c]
    }

    constructor ()
      ensures Valid() && fresh(board)
      ensures cells == InitialGrid()
    {
      board := new Square[8, 8]((r, c) => Empty);
      cells := EmptyGrid();
      new;
      InitializeBoard();
      GridExtensionality(cells, InitialGrid());
    }

    /** Writes the standard setup onto rows 0, 1, 6 and 7; the other rows are left as they were. */
    method InitializeBoard()
      requires Valid()
      modifies this`cells, board
      ensures Valid()
      ensures forall r, c :: OnBoard(r, c) ==>
                cells[r][c] == if SetupRow(r) then InitialSquare(r, c) else old(cells)[r][c]
    {
      ghost var before := cells;
      for col := 0 to 8
        invariant forall r, c :: 0 <= r < 8 && 0 <= c < 8 ==>
                    board[r, c] == if (r == 1 || r == 6) && c < col then InitialSquare(r, c) else before[r][c]
      {
        board[1, col] := Occupied(Piece(Black, Pawn));
        board[6, col] := Occupied(Piece(White, Pawn));
      }

      assert forall r, c :: 0 <= r < 8 && 0 <= c < 8 ==>
               board[r, c] == if r == 1 || r == 6 then InitialSquare(r, c) else before[r][c];
      PlacePair(Rook, 0, 7);
      PlacePair(Knight, 1, 6);
      PlacePair(Bishop, 2, 5);

      PlaceFile(Queen, 3);
      PlaceFile(King, 4);
      assert forall c :: 0 <= c < 8 ==> board[0, c] == Occupied(Piece(Black, BackRank(c)));
      assert forall c :: 0 <= c < 8 ==> board[7, c] == Occupied(Piece(White, BackRank(c)));
      assert forall r, c :: 1 <= r < 7 && 0 <= c < 8 ==>
               board[r, c] == if r == 1 || r == 6 then InitialSquare(r, c) else before[r][c];
      cells := SetUp(before);
    }

    /** Puts a Black `kind` on row 0 and a White `kind` on row 7, on columns c1 and c2. */
    method PlacePair(kind: PieceType, c1: int, c2: int)
      requires board.Length0 == 8 && board.Length1 == 8 && InRange(c1) && InRange(c2)
      modifies board
      ensures forall r, c :: 0 <= r < 8 && 0 <= c < 8 ==>
                board[r, c] == if r == 0 && (c == c1 || c == c2) then Occupied(Piece(Black, kind))
                               else if r == 7 && (c == c1 || c == c2) then Occupied(Piece(White, kind))
                               else old(board[r, c])
    {
      board[0, c1] := Occupied(Piece(Black, kind));
      board[0, c2] := Occupied(Piece(Black, kind));
      board[7, c1] := Occupied(Piece(White, kind));
      board[7, c2] := Occupied(Piece(White, kind));
    }

    /** Puts a Black `kind` on (0, col) and a White `kind` on (7, col). */
    method PlaceFile(kind: PieceType, col: int)
      requires board.Length0 == 8 && board.Length1 == 8 && InRange(col)
      modifies board
      ensures forall r, c :: 0 <= r < 8 && 0 <= c < 8 ==>
                board[r, c] == if r == 0 && c == col then Occupied(Piece(Black, kind))
                               else if r == 7 && c == col then Occupied(Piece(White, kind))
                               else old(board[r, c])
    {
      board[0, col] := Occupied(Piece(Black, kind));
      board[7, col] := Occupied(Piece(White, kind));
    }

    /** Whether the piece on (startX, startY) may move to (endX, endY); the board is only read. */
    method IsMoveValid(startX: int, startY: int, endX: int, endY: int) returns (valid: bool)
      requires Valid() && OnBoard(startX, startY) && OnBoard(endX, endY)
      ensures valid == LegalMove(cells, startX, startY, endX, endY)
    {
      var square := board[startX, startY];
      if square.Empty? {
        return false;
      }
      var piece := square.piece;
      var target := board[endX, endY];

      if piece.kind == Pawn {
        if OwnedBy(target, piece.player) {
          return false;
        }
        var direction := if piece.player == White then -1 else 1;
        if startX + direction == endX && startY == endY && target.Empty? {
          return true;
        }
        if startX + direction == endX && Abs(startY - endY) == 1 && target.Occupied? && target.piece.player != piece.player {
          return true;
        }
        if startX + 2 * direction == endX && startY == endY && board[startX + direction, startY].Empty? && target.Empty? {
          return true;
        }
      } else if piece.kind == Rook {
        if OwnedBy(target, piece.player) {
          return false;
        }
        valid := RookPath(startX, startY, endX, endY);
        return;
      } else if piece.kind == Knight {
        if OwnedBy(target, piece.player) {
          return false;
        }
        var dx := Abs(endX - startX);
        var dy := Abs(endY - startY);
        return (dx == 2 && dy == 1) || (dx == 1 && dy == 2);
      } else if piece.kind == Bishop {
        if OwnedBy(target, piece.player) {
          return false;
        }
        var dx := Abs(endX - startX);
        var dy := Abs(endY - startY);
        return dx == dy;
      } else if piece.kind == Queen {
        if OwnedBy(target, piece.player) {
          return false;
        }
        valid := QueenPath(startX, startY, endX, endY);
        return;
      } else if piece.kind == King {
        if OwnedBy(target, piece.player) {
          return false;
        }
        var dx := Abs(endX - startX);
        var dy := Abs(endY - startY);
        if (dx == 1 && dy == 0) || (dx == 0 && dy == 1) || (dx == 1 && dy == 1) {
          return true;
        }
      }
      return false;
    }

    /** The rook arm: a straight line, scanned square by square from the start. */
    method RookPath(startX: int, startY: int, endX: int, endY: int) returns (valid: bool)
      requires Valid() && OnBoard(startX, startY) && OnBoard(endX, endY)
      ensures valid == (Straight(startX, startY, endX, endY) && PathClear(cells, startX, startY, endX, endY))
    {
      if startX == endX && startY != endY {
        var step := if startY < endY then 1 else -1;
        var y := startY + step;
        while y != endY
          invariant if step == 1 then startY < y <= endY else endY <= y < startY
          invariant forall k :: 0 < k < Abs(y - startY) ==> cells[startX][Toward(startY, endY, k)].Empty?
          decreases Abs(endY - y)
        {
          if board[startX, y].Occupied? {
            assert Toward(startY, endY, Abs(y - startY)) == y;
            return false;
          }
          y := y + step;
        }
        return true;
      }
      if startY == endY && startX != endX {
        var step := if startX < endX then 1 else -1;
        var x := startX + step;
        while x != endX
          invariant if step == 1 then startX < x <= endX else endX <= x < startX
          invariant forall k :: 0 < k < Abs(x - startX) ==> cells[Toward(startX, endX, k)][startY].Empty?
          decreases Abs(endX - x)
        {
          if board[x, startY].Occupied? {
            assert Toward(startX, endX, Abs(x - startX)) == x;
            return false;
          }
          x := x + step;
        }
        return true;
      }
      return false;
    }

    /** The queen arm: a straight line or a diagonal, with the path scanned. */
    method QueenPath(startX: int, startY: int, endX: int, endY: int) returns (valid: bool)
      requires Valid() && OnBoard(startX, startY) && OnBoard(endX, endY)
      requires (startX, startY) != (endX, endY)
      ensures valid == ((Straight(startX, startY, endX, endY) && PathClear(cells, startX, startY, endX, endY))
                        || (Diagonal(startX, startY, endX, endY) && 0 < Abs(endX - startX)
                            && PathClear(cells, startX, startY, endX, endY)))
    {
      var dx := Abs(endX - startX);
      var dy := Abs(endY - startY);

      if (dx == 0 && dy != 0) || (dx != 0 && dy == 0) {
        var stepX := if dx == 0 then 0 else if endX > startX then 1 else -1;
        var stepY := if dy == 0 then 0 else if endY > startY then 1 else -1;
        valid := ScanLine(startX, startY, endX, endY, stepX, stepY);
        return;
      }

      if dx == dy {
        var stepX := if endX > startX then 1 else -1;
        var stepY := if endY > startY then 1 else -1;
        valid := ScanLine(startX, startY, endX, endY, stepX, stepY);
        return;
      }
      return false;
    }

    /**
     * The queen's path scan: steps (stepX, stepY) from the start until the end is reached,
     * answering false at the first occupied square.
     */
    method ScanLine(startX: int, startY: int, endX: int, endY: int, stepX: int, stepY: int) returns (clear: bool)
      requires Valid() && OnBoard(startX, startY) && OnBoard(endX, endY)
      requires OnLine(startX, startY, endX, endY) && (startX, startY) != (endX, endY)
      requires stepX == (if startX < endX then 1 else if endX < startX then -1 else 0)
      requires stepY == (if startY < endY then 1 else if endY < startY then -1 else 0)
      ensures clear == PathClear(cells, startX, startY, endX, endY)
    {
      var x, y := startX + stepX, startY + stepY;
      ghost var i := 1;
      while x != endX || y != endY
        invariant 1 <= i <= Distance(startX, startY, endX, endY)
        invariant x == Toward(startX, endX, i) && y == Toward(startY, endY, i)
        invariant forall k :: 0 < k < i ==> cells[Toward(startX, endX, k)][Toward(startY, endY, k)].Empty?
        decreases Distance(startX, startY, endX, endY) - i
      {
        if board[x, y].Occupied? {
          return false;
        }
        x, y := x + stepX, y + stepY;
        i := i + 1;
      }
      return true;
    }

    /**
     * Finds the first king of `player` in row-major order and asks whether any piece not
     * owned by `player` may move onto it; false when `player` has no king.
     */
    method IsKingInCheck(player: Player) returns (inCheck: bool)
      requires Valid()
      ensures inCheck == InCheck(cells, player)
    {
      var kingX, kingY := -1, -1;

      var row := 0;
      while row < 8
        invariant 0 <= row <= 8
        invariant kingX == -1 ==> forall i, j :: 0 <= i < row && 0 <= j < 8 ==> !KingOf(cells, player, i, j)
        invariant kingX != -1 ==> FirstKing(cells, player, kingX, kingY)
      {
        var col := 0;
        while col < 8
          invariant 0 <= col <= 8
          invariant kingX == -1
          invariant forall j :: 0 <= j < col ==> !KingOf(cells, player, row, j)
        {
          var piece := board[row, col];
          if piece.Occupied? && piece.piece.kind == King && piece.piece.player == player {
            kingX, kingY := row, col;
            break;
          }
          col := col + 1;
        }
        if kingX != -1 {
          break;
        }
        row := row + 1;
      }

      if kingX == -1 {
        return false;
      }

      row := 0;
      while row < 8
        invariant 0 <= row <= 8
        invariant forall i, j :: 0 <= i < row && 0 <= j < 8 ==> !Attacks(cells, player, i, j, kingX, kingY)
      {
        var col := 0;
        while col < 8
          invariant 0 <= col <= 8
          invariant forall j :: 0 <= j < col ==> !Attacks(cells, player, row, j, kingX, kingY)
        {
          var piece := board[row, col];
          if piece.Occupied? && piece.piece.player != player {
            var valid := IsMoveValid(row, col, kingX, kingY);
            if valid {
              assert Attacks(cells, player, row, col, kingX, kingY);
              assert FirstKing(cells, player, kingX, kingY);
              return true;
            }
          }
          col := col + 1;
        }
        row := row + 1;
      }

      forall kr, kc | FirstKing(cells, player, kr, kc)
        ensures kr == kingX && kc == kingY
      {
        FirstKingUnique(cells, player, kr, kc, kingX, kingY);
      }
      return false;
    }

    /**
     * Applies a legal move. Capturing a king only announces the result and leaves the board
     * as it was; otherwise the piece moves and a check on its opponent is announced.
     */
    method MakeMove(startX: int, startY: int, endX: int, endY: int) returns (moved: bool, notice: Notice)
      requires Valid() && OnBoard(startX, startY) && OnBoard(endX, endY)
      modifies this`cells, board
      ensures Valid()
      ensures moved == LegalMove(old(cells), startX, startY, endX, endY)
      ensures !moved ==> notice == Silent
      ensures !moved || IsKing(old(cells)[endX][endY]) ==> cells == old(cells)
      ensures moved && IsKing(old(cells)[endX][endY]) ==> notice == Victory(old(cells)[endX][endY].piece.player)
      ensures moved && !IsKing(old(cells)[endX][endY]) ==>
                cells == MovePiece(old(cells), startX, startY, endX, endY)
                && notice == (if InCheck(cells, Opponent(old(cells)[startX][startY].piece.player))
                              then CheckAnnounced else Silent)
      ensures !moved || IsKing(old(cells)[endX][endY]) ==>
                forall r, c :: 0 <= r < 8 && 0 <= c < 8 ==> board[r, c] == old(board[r, c])
      ensures moved && !IsKing(old(cells)[endX][endY]) ==>
                board[endX, endY] == old(board[startX, startY]) && board[startX, startY] == Empty
                && forall r, c :: 0 <= r < 8 && 0 <= c < 8 && (r, c) != (startX, startY) && (r, c) != (endX, endY) ==>
                     board[r, c] == old(board[r, c])
    {
      moved := IsMoveValid(startX, startY, endX, endY);
      if !moved {
        return false, Silent;
      }
      var capturedPiece := board[endX, endY];
      if capturedPiece.Occupied? && capturedPiece.piece.kind == King {
        return true, Victory(capturedPiece.piece.player);
      }

      board[endX, endY] := board[startX, startY];
      board[startX, startY] := Empty;
      cells := MovePiece(cells, startX, startY, endX, endY);

      var opponent := if board[endX, endY].piece.player == White then Black else White;
      var check := IsKingInCheck(opponent);
      notice := if check then CheckAnnounced else Silent;
    }

    function GetPieceAtPosition(x: int, y: int): (s: Square)
      reads this, board
      requires Valid() && OnBoard(x, y)
      ensures s == cells[x][y]
    {
      board[x, y]
    }
  }
}
