# Chess rules engine

A Dafny model of the rules engine of a small two-player console chess game (`ChessBoard` in
`Chess/Program.cs`), together with the coordinate parser of its console front end.

The board is an 8x8 array of squares. Each square is empty or holds a piece. A piece has only an
owner (White or Black) and a kind (pawn, rook, knight, bishop, queen, king). Row 0 is Black's back
rank and row 7 is White's, so White pawns move toward row 0. The engine answers three questions:

- **Legality.** May the piece on a square move to another square?
- **Check.** Can any opposing piece move onto a player's king?
- **Application.** What does the board look like after a move?

## Structure

- `pieces.dfy` (module `Pieces`): the `PieceType`, `Player` and piece types. A square is
  `Empty` or `Occupied(piece)`; `Empty` stands for the source's `null`.
- `grid.dfy` (module `Grid`): the board as a value (`Grid`, 8 rows of 8 squares). It defines the
  standard initial position and `MovePiece`, the board after a piece moves.
- `rules.dfy` (module `Rules`): `LegalMove`, the legality rule written as one predicate per piece
  kind. Lemmas restate each piece's rule in plain terms.
- `check.dfy` (module `Check`): `InCheck`. The first king of a player in row-major order is
  attacked by some piece the player does not own.
- `chessboard.dfy` (module `Engine`): the class `ChessBoard`. It holds the `array2` the source
  updates in place and a ghost view `cells` that `Valid()` ties to the array. Its methods
  follow the source's loops and are proved against `LegalMove`, `InCheck`, `MovePiece` and the
  initial position.
- `program.dfy` (module `Program`): `ParsePosition`, with its inverse `SquareName` and both
  round trips.
- `scenarios.dfy` (module `Scenarios`): facts about the initial position and a few concrete
  positions.
- `opening.dfy` (module `Opening`): a client of `ChessBoard` that plays e2-e4 on a new board.

## Behaviour reproduced as the code has it

- A bishop's move is checked only for `|dx| == |dy|`. The squares it crosses are never looked at
  (`Chess/Program.cs:225-234`). `Rules.BishopRule`, `Rules.LeapsIgnoreOtherSquares` and
  `Scenarios.BlockedQueenFreeBishop` state this.
- A pawn may step two squares from any rank when both squares ahead are empty
  (`Chess/Program.cs:179`). See `Rules.PawnDoubleStepFromAnyRank`.
- Capturing a king reports the capture but does not change the board (`Chess/Program.cs:298-310`).
- No rule looks at whether the mover's own king is left in check.
- The winner message is chosen by the colour of the captured king. When White's king is taken,
  the source prints that White won. `Notice.Victory(announced)` carries that colour, which is the
  losing side's, not the mover's.

The 16 back-rank writes of `InitializeBoard` are grouped into the helpers `PlacePair` (rooks,
knights, bishops) and `PlaceFile` (queens, kings). They make the same writes with the same values.
The queen's two scan loops (`Chess/Program.cs:251-255` and `265-269`) are the same loop, so both
are modelled by `ScanLine`. All coordinates passed to the engine must lie in [0, 7]; this is a
precondition, as it is for every caller in the source.

## Model

| member | source | states |
|---|---|---|
| `Pieces.Opponent` | Chess/Program.cs:315 | the opponent of a player is the other player |
| `Grid.MovePieceFrame` | Chess/Program.cs:312-313 | moving between two distinct squares puts the start piece on the destination, empties the start and leaves the other 62 squares unchanged |
| `Rules.LegalMove` | Chess/Program.cs:161-172 | an empty start square is never legal; a legal move starts on an occupied square, does not land on a piece of the mover's colour, and so never ends where it started |
| `Rules.PathClearIff` | Chess/Program.cs:189-209 | the squares the step loops visit are exactly the squares strictly between the endpoints of the row, column or diagonal, so "path clear" means all of those are empty |
| `Rules.PawnMoveShape` | Chess/Program.cs:174-180 | a legal White pawn move lands one or two rows lower (Black: higher); a move along the file needs an empty destination, a two-row move also an empty middle square, and a diagonal move needs an opposing piece on the destination |
| `Rules.PawnDoubleStepFromAnyRank` | Chess/Program.cs:179 | a pawn on any rank with two empty squares ahead may step two squares |
| `Rules.RookRule` | Chess/Program.cs:184-210 | a rook's move is legal iff the destination is not the mover's own piece, the move shares a row xor a column, and every square strictly between is empty |
| `Rules.QueenRule` | Chess/Program.cs:237-272 | a queen's move is legal iff the destination is not the mover's own piece, the move is straight or a diagonal with at least one step, and every square strictly between is empty |
| `Rules.BishopRule` | Chess/Program.cs:225-234 | a bishop's move is legal iff the destination is not the mover's own piece and `|dx| == |dy|`, whatever stands between |
| `Rules.KnightRule` | Chess/Program.cs:213-222 | a knight's move is legal iff the destination is not the mover's own piece and (`|dx|`, `|dy|`) is (2, 1) or (1, 2) |
| `Rules.KingRule` | Chess/Program.cs:275-287 | a king's move is legal iff the destination is not the mover's own piece and both offsets are at most 1, not both 0 |
| `Rules.LegalityIsLocal` | Chess/Program.cs:161-290 | two boards that agree on the end squares and on the squares strictly between them give the same verdict (a pawn's double step passes a square strictly between) |
| `Rules.LeapsIgnoreOtherSquares` | Chess/Program.cs:213-234 | for a knight, bishop or king only the start and destination squares decide legality |
| `Rules.MoveIsReversible` | Chess/Program.cs:184-287 | on the board `MovePiece` builds after a legal move of any piece but a pawn, the same piece may move straight back (`MakeMove` builds that board for every legal move onto a square that does not hold a king) |
| `Check.FirstKingUnique` | Chess/Program.cs:82-95 | the row-major scan finds at most one first king |
| `Check.FirstKingExists` | Chess/Program.cs:82-95 | if a player has any king, the scan finds a first one |
| `Check.NoKingNoCheck` | Chess/Program.cs:97-100 | a player without a king is not in check |
| `Check.InCheckWithKing` | Chess/Program.cs:102-117 | when the first king is at (kr, kc), being in check is the same as some opposing piece on the board having a legal move onto (kr, kc) |
| `Check.RookOnOpenLineGivesCheck` | Chess/Program.cs:102-117 | an opposing rook on the king's row or column, with empty squares between, gives check |
| `Check.PawnChecksForwardOnly` | Chess/Program.cs:174-177 | an opposing pawn attacks the king iff the king is one row ahead in the pawn's own direction and one column to the side |
| `Engine.ChessBoard.constructor` | Chess/Program.cs:35-39 | a new board holds the standard initial position |
| `Engine.ChessBoard.InitializeBoard` | Chess/Program.cs:41-75 | rows 0, 1, 6 and 7 receive the initial setup, the other rows keep their contents |
| `Engine.ChessBoard.PlacePair` | Chess/Program.cs:50-66 | Black's piece on row 0 and White's on row 7 at two columns; every other square unchanged |
| `Engine.ChessBoard.PlaceFile` | Chess/Program.cs:68-74 | Black's piece on row 0 and White's on row 7 at one column; every other square unchanged |
| `Engine.ChessBoard.GetPieceAtPosition` | Chess/Program.cs:120-123 | returns the abstract square at the given coordinates |
| `Engine.ChessBoard.IsMoveValid` | Chess/Program.cs:161-290 | answers exactly `LegalMove` on the current board, only reading the array |
| `Engine.ChessBoard.RookPath` | Chess/Program.cs:189-209 | the two rook scan loops answer "straight line and path clear" |
| `Engine.ChessBoard.QueenPath` | Chess/Program.cs:242-271 | the queen arm answers "straight line or diagonal with at least one step, and path clear" |
| `Engine.ChessBoard.ScanLine` | Chess/Program.cs:251-255 | the queen's step loop returns true iff every square strictly between the endpoints is empty |
| `Engine.ChessBoard.IsKingInCheck` | Chess/Program.cs:77-118 | answers exactly `InCheck` for the player on the current board, only reading the array |
| `Engine.ChessBoard.MakeMove` | Chess/Program.cs:292-325 | returns true iff the move was legal beforehand; a refused move or a king capture leaves every square unchanged; otherwise exactly the start square is emptied and the destination takes the start piece; the notice names the captured king's colour, or reports check on the mover's opponent after the move |
| `Opening.KingPawnOpening` | Chess/Program.cs:292-325 | on a new board e2-e4 is accepted, announces nothing, and leaves a White pawn on e4 |
| `Scenarios.InitialKings` | Chess/Program.cs:72-74 | initially each player has exactly one king, White's on (7, 4) and Black's on (0, 4) |
| `Scenarios.KingPawnDoubleStep` | Chess/Program.cs:179 | e2-e4 is legal from the initial position |
| `Scenarios.NoTripleStep` | Chess/Program.cs:174-180 | on any board, a pawn's move three rows forward is never legal |
| `Scenarios.KnightLeapsOverPawns` | Chess/Program.cs:213-222 | b1-a3 is legal from the initial position, over the pawns |
| `Scenarios.BlockedQueenFreeBishop` | Chess/Program.cs:225-271 | initially the queen cannot pass its own pawn, but the bishop may jump over it |
| `Scenarios.QueenOnOpenFileGivesCheck` | Chess/Program.cs:77-118 | a Black queen on (0, 4) facing the only White king on (7, 4) down an empty file gives check |
| `Scenarios.InitialPositionNoCheck` | Chess/Program.cs:77-118 | neither player is in check initially |
| `Scenarios.KingPawnOpeningGivesNoCheck` | Chess/Program.cs:315-319 | after e2-e4 Black is not in check |
| `Program.ParsePosition` | Chess/Program.cs:384-402 | succeeds iff the input has two characters, a file 'a'..'h' then a rank '1'..'8'; success gives coordinates on the board, failure gives (-1, -1) |
| `Program.ParseSquareName` | Chess/Program.cs:398-399 | the name of every square parses back to that square (row = '8' - rank, column = file - 'a') |
| `Program.SquareNameOfParse` | Chess/Program.cs:384-402 | every accepted input is the name of the square it parses to |

## Left out

- `DisplayBoard` and `GetPieceSymbol` (`Chess/Program.cs:125-159`): they only write to the console.
- `Main` (`Chess/Program.cs:330-382`): an endless loop that reads console input and prints prompts.
  It is I/O. Its turn-ownership check on line 367 is not modelled.
- The console messages of `MakeMove` are modelled as the `Notice` value, not as text.
- C# strings are sequences of UTF-16 code units; `ParsePosition` is modelled over Dafny `char`,
  which agrees on the ASCII range the parser accepts.
- Out-of-range coordinates make the source throw; here they are excluded by preconditions.
- `ChessPiece` (`Chess/Program.cs:19-29`) is a reference class with public setters, and
  `GetPieceAtPosition` hands out that reference. The model uses an immutable value, so a caller
  changing a piece through that reference is not modelled. No code in the source does so.
