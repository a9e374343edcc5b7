/** Pieces and squares of the board (the PieceType, Player and ChessPiece types). */
module Pieces {

  datatype PieceType = Pawn | Rook | Knight | Bishop | Queen | King

  datatype Player = White | Black

  /** A piece has no identity beyond its owner and its kind. */
  datatype Piece = Piece(player: Player, kind: PieceType)

  /** A square of the board: the source's `null` is `Empty`. */
  datatype Square = Empty | Occupied(piece: Piece)

  /** The other player. */
  function Opponent(p: Player): (q: Player)
    ensures q != p
  {
    if p == White then Black else White
  }

  /** True when the square holds a piece of player `p`. */
  predicate OwnedBy(s: Square, p: Player)
  {
    s.Occupied? && s.piece.player == p
  }

  /** True when the square holds a piece of the player other than `p`. */
  predicate HeldByOpponent(s: Square, p: Player)
  {
    s.Occupied? && s.piece.player != p
  }

  /** True when the square holds a king (of either player). */
  predicate IsKing(s: Square)
  {
    s.Occupied? && s.piece.kind == King
  }
}
