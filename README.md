# Chess board and move rules, modelled in Dafny

This project models the core of a small Go chess engine. It covers three files:

- `position.go`: square geometry (distances, adjacency, orientation, direction).
- `board.go`: the 8×8 board, algebraic coordinate parsing, the path checks, and the two ways the board changes, `Swap` and `AssignSpace`. It also covers the standard starting position built by `FilledBoard` and the entry point `MovePiece`.
- `piece.go`: piece creation, the move history, and the move rules of all six piece types in `Piece.move`.

Board cells hold pointers to pieces in Go. Here a cell holds the index of its piece in a piece table (`Grids.State`). So every reference to a piece sees the same move history, as it does with Go's shared pointers. `Boards.Board` is a class whose fields `spaces` and `pieces` are updated in place by `Swap`, `AssignSpace` and the move methods. Each such method is specified by a function on the value-level state:

- `Grids.SwapState` specifies `Board.Swap`.
- `Grids.AssignState` specifies `Board.AssignSpace`.
- `Rules.MoveOutcome` specifies `Rules.Move`.

Lemmas about those functions state what the rules allow and what a move changes.

Coordinates are byte strings (`seq<Byte>`). Go subtracts bytes with wrap-around, and `Geometry.ByteSub` writes that out. Piece types, orientations, directions and history tags keep the engine's string labels.

The model follows what the code does, including behaviour a chess player would not expect:

- Every legal move is one swap of two cells, or two swaps for castling.
- A captured piece is not removed. It is swapped onto the mover's origin square.
- No rule looks at who owns the destination piece, so a piece can "capture" its own side's piece.
- En passant leaves the passed pawn on the board.
- The queen records nothing in its history, because its tag is the empty string.
- The pawn double step checks only the square it passes, not the destination.
- A rook, queen or king "moving" onto its own square is legal.
- A king on column 2 castling west, or on column 5 castling east, finds the rook already on its destination. The king then ends beside the edge, the rook on the king's square, and the king records "castle" twice. For example, king c1 to a1 with the rook on a1 leaves the king on b1 and the rook on c1.
- `InCheck` always answers false.

## Model

| member | source | states |
|---|---|---|
| Geometry.ByteSub | position.go:11-17 | byte subtraction: the plain difference when it is non-negative, otherwise the difference plus 256 |
| Geometry.GetDistances | position.go:10-20 | the result is the absolute row and column distance; the guards keep the byte subtraction from wrapping |
| Geometry.GetDistancesSymmetric | position.go:10-20 | distances do not depend on the order of the two squares |
| Geometry.NextTo | position.go:23-29 | true iff both distances are at most 1; a square is next to itself |
| Geometry.OrientatedTo | position.go:32-44 | one of four labels: "rank" iff same row, "file" iff same column on another row, "diagonal" iff equal non-zero distances, "none" otherwise |
| Geometry.OrientatedToSymmetric | position.go:32-44 | the orientation does not depend on the order of the squares |
| Geometry.RankDirection | position.go:47-56 | "W" iff the second column is lower, "E" iff higher, "" iff equal |
| Geometry.RankDirectionSwap | position.go:47-56 | exchanging the squares exchanges "W" and "E" and keeps "" |
| Geometry.FileDirection | position.go:59-68 | "N" iff the second row index is lower, "S" iff higher, "" iff equal |
| Geometry.FileDirectionSwap | position.go:59-68 | exchanging the squares exchanges "N" and "S" and keeps "" |
| Pieces.NewPiece | piece.go:20-29 | no piece iff the label is not one of R, B, N, K, Q, P; otherwise a piece of that type and player with an empty history |
| Pieces.LastMove | piece.go:159-164 | "empty" for an empty history, otherwise the last recorded tag |
| Pieces.Record | board.go:242-245 | appending a tag keeps player and type, extends the history by one, keeps the old history as a prefix, and makes the tag the last move |
| Grids.EmptyGrid | board.go:151-154 | an 8×8 grid in which every cell is empty |
| Grids.SetCell | board.go:200 | the given cell takes the new value and every other cell is unchanged |
| Grids.OccupantsUpdateRow | board.go:246 | replacing one row changes the multiset of occupants by exactly the old and new row contents |
| Grids.SetCellOccupants | board.go:200 | writing one cell changes the multiset of occupants by exactly the old and new value |
| Grids.SwapGrid | board.go:246 | the two cells are exchanged, every other cell is unchanged, and the multiset of occupants is the same |
| Grids.SwapState | board.go:241-247 | a swap keeps the state valid, exchanges the two cells, and leaves other cells unchanged; only the piece on the first cell gets the tag appended, and only when the tag is non-empty |
| Grids.AssignState | board.go:195-202 | an unknown label clears the cell; a known label puts a new piece, appended to the table, on the cell; other cells are unchanged and the state stays valid |
| Grids.DiagonalStep | board.go:52-95 | the k-th square from the first square towards the second on their diagonal, k steps from the first and n-k from the second |
| Grids.ClearFileSymmetric | board.go:20-35 | whether the column between two squares is clear does not depend on their order |
| Grids.ClearRankSymmetric | board.go:36-51 | whether the row between two squares is clear does not depend on their order |
| Grids.ClearDiagonalSymmetric | board.go:52-95 | whether the diagonal between two squares is clear does not depend on their order |
| Grids.ClearIgnoresEndpoints | board.go:20-51 | the row and column path checks do not depend on what stands on the two end squares |
| Boards.ToXY | board.go:126-140 | succeeds iff the text is a letter a-h followed by a digit 1-8, giving row 7-(digit-'1') and column letter-'a'; otherwise fails with that text |
| Boards.Algebraic | board.go:126-140 | every position has a well-formed two-character name |
| Boards.ToXYRoundTrip | board.go:126-140 | parsing a position's name gives back that position |
| Boards.AlgebraicRoundTrip | board.go:126-140 | naming a parsed position gives back the parsed text |
| Boards.ToXYInjective | board.go:126-140 | two texts that parse to the same position are equal |
| Boards.Square | board.go:157-189 | a square name written with two characters is the two bytes of those characters |
| Boards.Board.constructor | board.go:150-155 | a board of size 8 with two players and an empty 8×8 grid |
| Boards.Board.GetMaxPos | board.go:15-17 | size minus one, which bounds every row and column index |
| Boards.Board.GetPiece | board.go:205-207 | the occupant of the cell, which refers into the piece table |
| Boards.Board.GetPieceByString | board.go:210-213 | the occupant of the named square; a malformed name reads row 0, column 0, because the parse error is dropped |
| Boards.Board.CheckEmptySpacesFile | board.go:20-35 | true iff every square of the column strictly between the two rows is empty |
| Boards.Board.CheckEmptySpacesRank | board.go:36-51 | true iff every square of the row strictly between the two columns is empty |
| Boards.Board.CheckEmptySpacesDiagonal | board.go:52-95 | for squares on one diagonal, true iff every square strictly between them is empty |
| Boards.Board.ScanDiagonal | board.go:52-95 | the walk from the first square towards the second, one step at a time, answers whether all squares in between are empty |
| Boards.Board.Swap | board.go:241-247 | the new grid and piece table are exactly SwapState of the old ones; the board stays valid |
| Boards.Board.AssignSpace | board.go:195-202 | a malformed name returns that error and changes nothing; a valid name returns no error and the new state is AssignState of the old one |
| Boards.FilledBoard | board.go:143-192 | a fresh valid board with players W (north) and B (south) in the standard position: back rows R N B Q K B N R, pawns on the second rows, the middle four rows empty, no piece moved |
| Boards.PlaceBackRow | board.go:157-164 | placing R N B Q K B N R along one rank fills that row with eight new pieces and changes no other row |
| Boards.PlacePawnRow | board.go:165-172 | placing eight pawns along one rank fills that row with eight new pieces and changes no other row |
| Boards.Place | board.go:195-202 | one placement of a known piece type on a well-formed square writes a new table index into that cell only and appends the new piece |
| Boards.SetupCell | board.go:157-189 | which piece each square of the starting grid holds |
| Boards.SetupPiece | board.go:157-189 | which piece each index of the starting table is: White's back row and pawns, then Black's |
| Boards.SetupOnePlace | board.go:157-189 | no piece stands on two squares of the starting grid |
| Boards.SetupIsStandard | board.go:143-192 | the starting grid and piece table form the standard position |
| Rules.InCheck | piece.go:167-169 | never reports check |
| Rules.SwapConserves | board.go:241-247 | one swap keeps the state valid, the occupants and the pieces, and only lengthens histories |
| Rules.ConservesThrough | piece.go:86-87 | two conserving steps in a row conserve the state |
| Rules.CastleSquares | piece.go:67-76 | the rook's square is the edge column on the side of the move, and its target is the square next to the king's destination, towards the king |
| Rules.EnPassantSquare | piece.go:125-131 | the square beside the pawn on its own row, one column towards the destination |
| Rules.RookMove | piece.go:34-46 | a legal rook move keeps the state valid, the occupants and the pieces; histories only grow |
| Rules.BishopMove | piece.go:47-53 | a legal bishop move keeps the state valid, the occupants and the pieces; histories only grow |
| Rules.KnightMove | piece.go:54-59 | a legal knight move keeps the state valid, the occupants and the pieces; histories only grow |
| Rules.KingMove | piece.go:60-91 | a legal king move, castling included, keeps the state valid, the occupants and the pieces; histories only grow |
| Rules.Castle | piece.go:64-89 | a castling outcome, two swaps, keeps the state valid, the occupants and the pieces; histories only grow |
| Rules.QueenMove | piece.go:92-109 | a legal queen move keeps the state valid, the occupants and the pieces; histories only grow |
| Rules.PawnMove | piece.go:110-149 | a legal pawn move keeps the state valid, the occupants and the pieces; histories only grow |
| Rules.MoveOutcome | piece.go:31-152 | any legal move keeps the state valid and the multiset of occupants, so no piece is created or lost; owners and types never change and histories only grow |
| Rules.Move | piece.go:31-152 | returns true iff the move is legal; then the board becomes the legal outcome, otherwise it is unchanged |
| Rules.MoveKing | piece.go:60-91 | returns true iff the king move is legal; then the board becomes its outcome, otherwise it is unchanged |
| Rules.MovePawn | piece.go:110-149 | returns true iff the pawn move is legal; then the board becomes its outcome, otherwise it is unchanged |
| Rules.MovePiece | board.go:216-238 | a malformed first name is reported first, then a malformed second one, and both leave the board unchanged; with two valid names the error is none, and the board changes only by a legal move of a piece standing on the first square |
| MoveFacts.MoveSwapsEndpoints | piece.go:31-152 | every legal move except castling exchanges the two cells, so the destination's occupant lands on the origin square, and leaves every other cell unchanged |
| MoveFacts.KnightJumps | piece.go:54-59 | a knight move is legal iff the distances are (1,2) or (2,1), whatever is in between or on the destination; it records "move" |
| MoveFacts.RookSlides | piece.go:34-46 | a rook move is legal iff it stays on its row with a clear row path, or on its column with a clear column path; it records "rank" or "file" |
| MoveFacts.BishopSlides | piece.go:47-53 | a bishop move is legal iff the squares differ, lie on one diagonal and the diagonal between them is clear; it records "move" |
| MoveFacts.QueenSlides | piece.go:92-109 | a queen move is legal iff it is a clear rook line or a clear bishop line, and it leaves every history unchanged |
| MoveFacts.KingSteps | piece.go:61-63 | a king move to any neighbouring square is legal and records "move" |
| MoveFacts.CastlingNeeds | piece.go:64-89 | any other legal king move is castling: an unmoved king, two columns along its row, an unmoved rook on that side's edge square, and a clear row between king and rook |
| MoveFacts.CastlingResult | piece.go:64-89 | after castling, the king is on its destination, the rook on the square beside it, both origin squares are empty and both pieces record "castle"; this needs the rook not to stand on the king's destination |
| MoveFacts.CastlingAllowed | piece.go:64-89 | conversely, an unmoved king two columns along its row from the destination, with an unmoved rook on that side's edge square and a clear row between them, may castle |
| MoveFacts.CastlingOntoRook | piece.go:64-89 | when the rook already stands on the king's destination (king on column 2 castling west, or column 5 castling east), the king ends beside the edge, the rook on the king's origin square, the destination is empty, the king records "castle" twice and the rook records nothing |
| MoveFacts.OpeningCastleKingSide | piece.go:64-89 | in the standard position with f1 and g1 cleared, e1-g1 is legal and leaves the king on g1 and the rook on f1, both with last move "castle" |
| MoveFacts.PawnMovesForward | piece.go:111 | a legal pawn move always goes in its owner's direction |
| MoveFacts.PawnStep | piece.go:114-118 | one square straight ahead is legal iff that square is empty, and records "move" |
| MoveFacts.PawnTakes | piece.go:119-123 | one square diagonally ahead onto any occupied square is legal and records "take"; the captured piece ends on the pawn's origin square |
| MoveFacts.EnPassantKeepsPassedPawn | piece.go:124-138 | a diagonal step onto an empty square is legal iff the square beside holds a pawn whose last move was "double"; that pawn stays where it is |
| MoveFacts.DoubleStep | piece.go:140-147 | an unmoved pawn two squares ahead is legal iff the square it passes is empty, whatever is on the destination; it records "double" |
| MoveFacts.PawnCases | piece.go:110-149 | conversely, every legal pawn move goes in its owner's direction and is one square straight onto an empty square, one square diagonally onto an occupied square or past a pawn whose last move was "double", or an unmoved pawn's two squares straight over an empty square |
| MoveFacts.MovedPawnSteps | piece.go:140-149 | a pawn that has moved before cannot move to any square that is not next to it |
| MoveFacts.OpeningDoubleStep | piece.go:140-147 | in the standard position e2-e4 is legal: the pawn stands on e4, e2 is empty and its last move is "double" |
| MoveFacts.OpeningKnightAndBishop | piece.go:47-59 | in the standard position the knight g1-f3 is legal and the bishop c1-e3 is not, because d2 is occupied |
| MoveFacts.RookStandsStill | piece.go:34-40 | a rook moved onto its own square is legal, leaves the grid unchanged and records "rank" |

## Left out

- The `String` renderers of the board and the piece, and the command-line program in `cmd/main.go`: they only print or read text.
- The graveyard and removal of pieces: the core never removes a piece. A capture swaps the captured piece onto the origin square, and the model keeps it there.
- Turn order: no rule checks whose turn it is or who owns the moving piece, and neither does the model.
- Check detection: `InCheck` always answers false, and so does the model.
- Player: only its name and direction are modelled. Nothing else of it is read by the core.
- Boards.Board.CheckEmptySpacesDiagonal: the four loops for the four diagonal directions are written once, as `ScanDiagonal`, with the row and column step as parameters. The squares visited and their order are the same.
- Boards.Board.CheckEmptySpacesFile, Boards.Board.CheckEmptySpacesRank and Boards.Board.CheckEmptySpacesDiagonal require a well-formed 8×8 grid, which every board has.
- Boards.FilledBoard: its 32 `AssignSpace` calls are grouped eight per row in `PlaceBackRow` and `PlacePawnRow`. The calls, their order and their squares are the same.
- Piece identity: a Go pointer is modelled as an index into the piece table. Go's nil pointer is an empty cell.
- Rules.MovePiece: the Go method ignores whether the move succeeded, so the returned error says nothing about legality. The model keeps this, and its contract says so.
