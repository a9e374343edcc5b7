/** A client of the engine: the first move of a new game. */
module Opening {
  import opened Pieces
  import opened Engine
  import Scenarios

  /** A new game accepts e2-e4 and announces nothing; the pawn stands on e4 afterwards. */
  method KingPawnOpening() returns (moved: bool, notice: Notice, arrived: Square)
    ensures moved && notice == Silent && arrived == Occupied(Piece(White, Pawn))
  {
    var game := new ChessBoard();
    Scenarios.KingPawnDoubleStep();
    Scenarios.KingPawnOpeningGivesNoCheck();
    moved, notice := game.MakeMove(6, 4, 4, 4);
    arrived := game.GetPieceAtPosition(4, 4);
  }
}
