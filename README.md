# Chess rule engine of `script.js`, modelled in Dafny

The page keeps an 8×8 grid of one-character cells, the side to move, a
selected square, the list of moves made and a game-over flag. A click selects
a piece of the side to move, or tries to move the selected piece. The move
passes the legality filter when its character's shape test holds and a
scratch copy of the move does not leave the mover's king attacked. An
accepted move is written into the grid in place, the turn passes, and the
position is classified as checkmate, check, stalemate or "to move".

The model keeps the page's own encoding and tests:

- `k`/`K` stand on the knight squares and are dispatched to the king test.
  `+`/`*` stand on the king squares and have no move test.
- The colour test compares a character with its ASCII upper or lower case, so
  non-letters belong to both sides.
- The path test always reads the live grid, also when it is reached from the
  attack test on a scratch grid. Attack detection therefore takes two grids:
  `state` for pieces and the king, and `live` for paths.
- The king locator keeps the first match of the last row that holds the king
  character. With no such character, nothing gives check.
- The scratch grid of the legality filter is a plain copy from source to
  destination.
- Queen-side castling looks at columns 3 and 2 only. The castling source
  column is not compared with 4.
- The end-of-move classification is made after the turn has passed, so it
  examines the side that has just moved. The checkmate scan keeps only cells
  of the side to move that are also of that other side's case, that is,
  non-letters, and none of them can move. `Rules.NoValidMoveOffTurn` and
  `Rules.ClassifyAlwaysEnds` prove that every accepted move therefore ends
  the game, as checkmate when the side that moved is attacked and as
  stalemate otherwise. `Scenarios` shows this for the opening pawn move from
  (6, 4) to (4, 4): the page declares stalemate although black has a valid
  answer. `Rules.ClassifyToMove` runs the same tests for the side to move.
  It serves only as a reference to contrast with, and the controller does
  not use it.

Standard chess classifies the side to move, and after the opening pawn move
play goes on. The code classifies the other side, as described above, and the
model follows the code. `Rules.ClassifyToMove` is the standard classification.

Modules:

- `Position` holds the characters, players, the grid value `Board`, moves and
  the starting grid.
- `Rules` holds the tests as pure functions, with lemmas that characterise
  them.
- `Scans` holds the page's loops as methods, each proved to answer what the
  matching `Rules` function states.
- `Apply` gives the grid after the move applier as a function of the grid
  before it.
- `Controller` holds the page state as a class over an `array2<char>` grid.
  Its methods change that state.
- `Symmetry` proves that check detection treats both colours alike.
- `Scenarios` works through concrete positions: the classification after the
  opening move, and two castling moves that the castling test accepts.

## Model

| member | source | states |
|---|---|---|
| Scans.IsPathClear | script.js:192-203 | The unit-step walk, for any aligned source and destination, terminates and answers `Rules.PathClear`: every cell strictly between them is empty. |
| Rules.PathClearIffSegmentEmpty | script.js:192-203 | The cells the walk visits are exactly the cells on the open segment between source and destination. On aligned inputs the path test holds iff every such cell is `' '`. |
| Rules.PathClearIgnoresEndpoints | script.js:192-203 | Rewriting the source or destination cell never changes the path test's answer: neither endpoint is read. |
| Rules.IsPlayerPiece | script.js:282-286 | An upper-case letter is the mover's iff white moves, and a lower-case letter iff black moves. A non-letter is always the mover's. |
| Rules.KnightMove | script.js:136-140 | A knight move is never aligned and is always at Chebyshev distance 2. |
| Scans.IsValidRookMove | script.js:131-134 | The rook test, with its call of the path walk, answers `Rules.RookMove`. |
| Scans.IsValidBishopMove | script.js:142-145 | The bishop test, with its call of the path walk, answers `Rules.BishopMove`. |
| Scans.IsValidQueenMove | script.js:147-149 | The rook test, or else the bishop test, answers `Rules.QueenMove`. |
| Rules.RookMove | script.js:131-134 | Holds iff source and destination share a row or column and the open segment between them is empty. |
| Rules.BishopMove | script.js:142-145 | Holds iff the absolute row and column deltas are equal and the open segment is empty. |
| Rules.QueenMove | script.js:147-149 | Holds iff the move is aligned (row, column or diagonal) and the open segment is empty. |
| Rules.KingMove | script.js:151-157 | Every move of Chebyshev distance at most 1 passes. Any move that passes has distance at most 1 or stays on its row with a column delta of 2, the castling shape. |
| Rules.PawnMovesForward | script.js:98-117 | White pawn moves go up one or two rows and black ones go down one or two. The column changes by at most one. A pawn never lands on a cell of the mover's case. |
| Rules.EnPassant | script.js:119-129 | False on an empty history. When true, the source row is 3 for white or 4 for black, and the last move was of a character that lower-cases to `p`, went two rows and landed on the source row in the destination column. |
| Apply.EnPassantTakesLastMover | script.js:250-261 | When the filter accepts a diagonal pawn step onto an empty cell, the last move was a pawn's that landed on (source row, destination column). The applier empties that cell and puts the capturing pawn on the destination. |
| Rules.EnPassantIgnoresColour | script.js:119-129 | Those conditions plus a last piece that lower-cases to `p` are sufficient whichever side made the last move, including the mover's own pawn. |
| Scenarios.QueenSideIgnoresColumnOne | script.js:179-183 | With the rook on (7, 0), a knight on (7, 1), columns 2 and 3 empty and the king on (7, 4), white's queen-side castling passes the filter. The applier then puts the rook on (7, 3), over the knight, which stays on (7, 1). |
| Scenarios.CastlingFromOtherColumn | script.js:159-164 | With the king on (7, 4), a second `K` on (7, 5) and the rook on (7, 0), the move of that `K` from (7, 5) to (7, 3) passes the filter as castling. The applier writes the rook and then the `K` onto (7, 3), so no rook is left. |
| Scans.IsValidCastling | script.js:159-190 | The castling test with its column loop answers `Rules.Castling`. |
| Scans.FindKing | script.js:209-217 | The nested search with its inner `break` answers `Rules.LocateKing`. |
| Rules.LocateKingSpec | script.js:209-216 | The locator finds nothing iff the character is absent. Otherwise it answers a cell holding the character, with no match in any later row and none earlier in the same row. |
| Rules.LocateKingAt | script.js:209-216 | Conversely, a cell holding the character with no match in later rows or earlier in its row is what the locator answers. |
| Rules.CanPieceAttack | script.js:230-246 | Only the kinds `p n b r q k` attack. A pawn attacks the two diagonal cells one row ahead in the direction of its own case. A `k` attacks at Chebyshev distance at most 1. `b`, `r` and `q` need an aligned target and an empty open segment on the live grid. |
| Scans.IsKingInCheck | script.js:205-228 | The king search followed by the 8×8 attacker scan with early return answers `Rules.KingInCheck`. |
| Scans.AttackerInRow | script.js:219-226 | One row of the attacker scan finds a cell that is not empty, not of the defender's case and attacks the king square iff such a cell exists in that row. |
| Rules.AttackersAreEnemyLetters | script.js:218-227 | Whenever a side is in check, some cell holds a letter that lower-cases to one of `p n b r q k`, is of the other side's case and is not of the checked side's own case. |
| Symmetry.KingInCheckMirror | script.js:205-246 | Mirroring both grids (rows reversed, letter cases swapped) exchanges white and black. One side is in check exactly when the other side is in check on the mirrored grids, provided the king character sits in one row. |
| Symmetry.PathClearMirror | script.js:192-203 | The path test on the mirrored grid along the mirrored line gives the same answer. |
| Symmetry.CanPieceAttackMirror | script.js:230-246 | The attack test on mirrored grids between mirrored cells gives the same answer. |
| Symmetry.LocateKingMirror | script.js:209-216 | When the king character sits in one row, the locator on the mirrored grid finds the swapped character at the mirrored cell. |
| Scans.IsValidMove | script.js:69-96 | The legality filter, with its calls to the castling and check loops, answers `Rules.ValidMove`. |
| Rules.ValidMoveMovesOwnLetter | script.js:69-96 | A valid move starts from a letter `p r n b q k` that is of the mover's case and not of the other case. It goes to a different cell that is empty or not of the mover's case. |
| Rules.InertNeverMoves | script.js:77-87 | A cell whose lower-cased character has no branch (`' '`, `+`, `*` and any other) is never the source of a valid move. |
| Controller.Game.MakeMove | script.js:248-280 | Appends exactly one history entry holding the moved character and the four coordinates. The board cells become `Apply.Applied` of the old cells. The side to move, the selection and the flag do not change. |
| Apply.AppliedCell | script.js:248-280 | After the applier, cell by cell: the source is `' '`. The destination holds the moved character, or the mover's queen for a pawn reaching row 0 or 7. An en passant capture empties (source row, destination column). Castling moves the rook from column 7 to 5 or from 0 to 3. Every other cell is unchanged. |
| Apply.ValidMoveFitsApplied | script.js:159-190 | Every move the filter accepts meets AppliedCell's side conditions: source and destination differ, and a castling king stays on its row and does not start on a rook cell. |
| Scans.IsCheckmate | script.js:305-318 | The four nested loops with early return answer `Rules.NoValidMove`: no cell of the side to move that is also of `player`'s case has any valid destination. |
| Scans.HasMoveFrom | script.js:310-314 | The destination loops for one source find a valid move iff one exists. |
| Scans.HasMoveInRow | script.js:311-313 | The innermost loop finds a valid destination in one row iff one exists. |
| Rules.NoValidMoveOffTurn | script.js:305-318 | For any player who is not the side to move, the checkmate scan answers "no valid move". |
| Scans.IsStalemate | script.js:320-323 | Answers `Rules.Stalemated`: not in check, and the checkmate scan finds nothing. |
| Scans.CheckGameStateScan | script.js:288-303 | The end-of-move branches return `Rules.Classify`. |
| Rules.ClassifyAlwaysEnds | script.js:288-303 | The classification is never Check or ToMove. It is Checkmate when the side that has just moved is attacked and Stalemate otherwise. |
| Controller.Game.CheckGameState | script.js:288-303 | Returns `Rules.Classify` of the current state. The game-over flag becomes set on checkmate or stalemate and is otherwise kept. |
| Controller.Game.PassTurn | script.js:52-56 | The turn passes to the other side and the game is over afterwards. |
| Controller.Game.PlayMove | script.js:49-59 | Accepts the move iff `Rules.ValidMove` holds on the state before the click. An accepted move applies the grid change, appends the history entry and passes the turn, and the game then is over. A rejected move changes nothing. |
| Controller.Game.HandleSquareClick | script.js:46-67 | Once the game is over, a click changes nothing. With nothing selected, a non-empty cell of the mover's case becomes selected and nothing else changes. With a square selected, the selection is dropped and the move from it is played as in PlayMove, or rejected with nothing else changing. |
| Controller.Game.StartGame | script.js:19-27 | A fresh grid equal to the starting grid, white to move, nothing selected, an empty history, game not over. |
| Controller.Game.constructor | script.js:13-17 | The same initial state as StartGame. |
| Rules.ClassifyToMoveEnds | script.js:288-318 | The reference classification of the side to move gives Checkmate or Stalemate iff no move on the board passes the legality filter. It gives Checkmate only when that side is in check and Stalemate only when it is not. |
| Rules.NoValidMoveToMove | script.js:305-318 | For the side to move, the checkmate scan's answer is exactly "no move on the board is valid". |
| Rules.ValidMoveIsCandidate | script.js:307-309 | For the side to move, the checkmate scan skips no source of a valid move. |
| Scenarios.OpeningMoveAccepted | script.js:69-117 | On the starting grid, the white pawn's double step from (6, 4) to (4, 4) passes the legality filter. |
| Scenarios.WhiteSafeAfterOpening | script.js:205-228 | After that move, white is not in check. |
| Scenarios.OpeningMoveEndsGame | script.js:288-303 | After that move, the page's classification is Stalemate, so the game ends. |
| Scenarios.BlackSafeAfterOpening | script.js:205-228 | After that move, black, the side to move, is not in check. |
| Scenarios.BlackCanAnswer | script.js:69-117 | Black's double step from (1, 4) to (3, 4) then passes the legality filter. |
| Scenarios.OpeningMoveContinues | script.js:288-318 | The reference classification of the side to move answers ToMove after the opening move. |

## Left out

- Rendering and the click handlers' DOM wiring (script.js:29-44) are presentation only. So are the redraw calls inside the click handler.
- The status line and its German messages (script.js:293-301, 325-328) are replaced by the `Status` value that the classification returns.
- `toggleMode` (script.js:330-332) is an unimplemented UI stub.
- The grid copies made with `JSON.parse(JSON.stringify(...))` are modelled as value copies of the grid. The serialiser itself is not part of this model.
- The unused `direction` in the move applier (script.js:258) is dead code.
- Case mapping is ASCII only. The page's characters are all ASCII.
- Scans.IsKingInCheck: with no king character on the grid, the method answers false at once. The page instead goes on to scan with undefined coordinates, where every attack test is false, so the answer is the same.
- Scans.IsPathClear: requires an aligned source and destination. The page calls it only from the rook and bishop tests, which pass only aligned moves. On unaligned input the page's walk would not stop at the destination.
- Symmetry.KingInCheckMirror: requires the king character to occupy a single row. The locator keeps the last matching row, and that row becomes the first under the mirror, so with several rows the two sides may locate different cells.
- Whole-game claims are not modelled because the page does not achieve them: checkmate of a boxed-in king, castling from the starting grid, and telling checkmate from stalemate correctly. What the page does instead is stated by Rules.ClassifyAlwaysEnds and the Scenarios lemmas.
