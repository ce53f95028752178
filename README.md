# chess-nextjs: piece move post-processing, king candidates and replay cursors in Dafny

This project models three parts of the chess web app's game logic.

- **Piece move post-processing** (`Pieces`, piece.js). A piece stores its colour, square, board and `taken` flag. `getMoves` takes a piece kind's raw candidates, `[options, takeOptions]`. It drops off-board squares, turns the rest into sets of square ids, and lets the board add castling ids to the quiet set. `allMoveOptions` is the union of both id sets, with no castling ids.
- **King candidate generation** (`Kings`, king.js). A new king is named `"king"`, has type `"w_king"` or `"b_king"`, and has `firstMove` set. `validMoves` walks the eight king offsets. It skips squares held by the king's colour, lists squares held by the opponent as captures, and lists the rest as quiet moves. It does no bounds check.
- **Replay cursors** (`Replay`, ReplayWrapper.tsx, and `StateReplay`, StateReplayWrapper.tsx).
  - The URL-driven viewer keeps the shown half-move in the `move` query parameter. It reads the index back with `parseMoveParam`. Its arrow keys (`updateMove`) and jump links (`directMoveUpdate`) rewrite the parameter. Each control is modelled as a function from the old parameter to the new one.
  - The in-memory viewer keeps one cursor. The cursor starts at the total and moves only by jumps into `[0, total]`.

The board collaborator is modelled in `Chessboard` as an occupancy map from squares to colours, so a square holds at most one colour. `isInsideBoard` means rank and file are both in 0..7. `posToId` is a parameter `toId`; where it matters, it is required to be injective on in-board squares. The castling ids that `addCastleOptions` adds are a parameter `castleIds`, which is only ever added to the quiet set. The JavaScript built-ins the replay code relies on are modelled in `JsRuntime`: `parseInt(s, 10)`, the decimal text of an integer, `null`, and thrown errors.

The replay code is modelled as written, and its quirks are proved as lemmas:

- `parseMoveParam` compares the parameter's last character with `"black"`. A one-character string never equals that, so the index it reads is always even. The text `"Nwhite"` or `"Nblack"` reads back as 2N (`MoveTextReadBack`).
- `getFullMoveAndColor` and `getNumHalfMoves` are not inverses (`HalfMoveHelpersNotInverse`).
- Because of the two points above, the forward arrow never moves the shown half-move except from 0, where it jumps to 2 (`ForwardArrowNeverAdvances`, `UpdateMoveFromStart`). The back arrow moves back a whole move (`BackArrowStepsAWholeMove`). Any jump shows black's half of the chosen move (`DirectMoveUpdateLands`).
- `totalHalfMoves` counts one half-move more than the rows record (`TotalHalfMovesOverCounts`). With no rows it reads a field of `undefined` and throws.
- The URL cursor's lower bound is 2; the in-memory cursor's is 0 (`BoundsDifferAtZeroAndOne`).

## Model

| member | source | states |
|---|---|---|
| Chessboard.Opponent | app/lib/chessClasses/king.js:22-23 | the opponent colour is never the piece's own colour |
| Pieces.Piece.constructor | app/lib/chessClasses/piece.js:6-11 | a new piece stores the given colour, square and board, and is not taken |
| Pieces.Piece.GetColor | app/lib/chessClasses/piece.js:13-15 | returns the stored colour, which the constructor's contract fixes and SetSquare and SetBoard keep |
| Pieces.Piece.GetSquare | app/lib/chessClasses/piece.js:21-23 | returns the stored square; SetSquare's contract is stated through it |
| Pieces.Piece.GetSquareId | app/lib/chessClasses/piece.js:25-28 | the id of the stored square under posToId |
| Pieces.Piece.GetBoard | app/lib/chessClasses/piece.js:45-47 | the board's occupancy; SetBoard's contract is stated through it |
| Pieces.Piece.IsTaken | app/lib/chessClasses/piece.js:49-51 | the taken flag, false for a new piece by the constructor's contract and kept by SetSquare and SetBoard |
| Pieces.Piece.SetSquare | app/lib/chessClasses/piece.js:37-39 | afterwards getSquare returns the new square; colour, board and taken are unchanged |
| Pieces.Piece.SetBoard | app/lib/chessClasses/piece.js:41-47 | afterwards getBoard returns the new board's grid; colour, square and taken are unchanged |
| Pieces.InBoardIdsSnoc | app/lib/chessClasses/piece.js:60-64 | visiting one more candidate adds its id exactly when the square is on the board |
| Pieces.InBoardIdsBound | app/lib/chessClasses/piece.js:58-69 | an id set is never larger than the candidate list it came from |
| Pieces.InBoardIdsCount | app/lib/chessClasses/piece.js:58-69 | with posToId injective on the board, the id set has as many ids as there are distinct in-board squares in the list |
| Pieces.GetMoves | app/lib/chessClasses/piece.js:55-73 | options are the ids of the in-board quiet candidates plus the castling ids; takeOptions are the ids of the in-board capture candidates, whatever castling adds |
| Pieces.OffBoardNeverListed | app/lib/chessClasses/piece.js:60-69 | an off-board square whose id no in-board square shares is never listed |
| Pieces.InBoard | app/lib/chessClasses/piece.js:77-78 | the filter keeps exactly the in-board squares and is never longer than its input |
| Pieces.MapIdsMembers | app/lib/chessClasses/piece.js:80 | an id is in the mapped list exactly when some listed square has that id |
| Pieces.AllMoveOptions | app/lib/chessClasses/piece.js:75-82 | the result is the union of the in-board ids of both lists, with no castling ids, and has at most as many ids as both lists have entries |
| Pieces.AllMoveOptionsIsUnion | app/lib/chessClasses/piece.js:80-81 | the set of the mapped, concatenated filtered lists is the union of the two in-board id sets |
| Kings.Quiet | app/lib/chessClasses/king.js:32-37 | a target is a quiet candidate exactly when neither colour holds it |
| Kings.Captures | app/lib/chessClasses/king.js:32-35 | a target is a capture candidate exactly when the king's colour does not hold it and the opponent does |
| Kings.QuietCapturesCount | app/lib/chessClasses/king.js:27-41 | over distinct targets, quiet, capture and own-held squares partition the targets |
| Kings.TargetsAreNeighbours | app/lib/chessClasses/king.js:4 | the eight offsets reach eight distinct squares, exactly the king's neighbours |
| Kings.KingCandidates | app/lib/chessClasses/king.js:27-41 | quiet candidates are the neighbours held by nobody and captures are the neighbours held by the opponent; none is held by the king's colour; the two lists are disjoint; their lengths sum to 8 minus the neighbours held by the king's colour |
| Kings.CandidatesAdjacent | app/lib/chessClasses/king.js:28-30 | every candidate differs from the king's square by at most one in rank and in file, and is not the king's square |
| Kings.CandidatesMayLeaveBoard | app/lib/chessClasses/king.js:27-41 | a king in the corner of an empty board lists an off-board square as a quiet candidate |
| Kings.KingIds | app/lib/chessClasses/king.js:27-41 | the in-board ids of the quiet and capture lists are the ids of the in-board neighbours held by nobody and by the opponent |
| Kings.King.constructor | app/lib/chessClasses/king.js:6-11 | a new king is named "king", has type "w_king" or "b_king" by colour, has firstMove set, and its piece part is a new untaken piece with the given colour, square and board |
| Kings.King.GetType | app/lib/chessClasses/king.js:15-17 | the type the constructor's contract fixes: "w_king" or "b_king" by colour |
| Kings.King.GetPieceName | app/lib/chessClasses/piece.js:33-35 | the name the constructor's contract fixes: "king" |
| Kings.King.ValidMoves | app/lib/chessClasses/king.js:19-44 | the loop over the offsets returns the quiet and capture lists in offset order |
| Kings.King.GetMoves | app/lib/chessClasses/piece.js:55-73 | a king's options are the ids of its in-board neighbours held by nobody plus the castling ids; its takeOptions are the ids of its in-board neighbours held by the opponent |
| Kings.King.AllMoveOptions | app/lib/chessClasses/piece.js:75-82 | a king's allMoveOptions are the ids of its in-board neighbours not held by its own colour |
| JsRuntime.DecimalValue | app/ui/gameHistory/ReplayWrapper/ReplayWrapper.tsx:49 | the digits of a rendered move number have that number as their value |
| JsRuntime.ParseIntOfDecimal | app/ui/gameHistory/ReplayWrapper/ReplayWrapper.tsx:20 | parseInt reads a rendered non-negative integer back when a non-digit or nothing follows it |
| JsRuntime.ParseInt | app/ui/gameHistory/ReplayWrapper/ReplayWrapper.tsx:20 | parseInt with radix 10; ParseIntOfDecimal states that it reads rendered integers back, TrimStartRemovesPrefix and LeadingDigitsIsLongestPrefix what it skips and takes |
| JsRuntime.TrimStartRemovesPrefix | app/ui/gameHistory/ReplayWrapper/ReplayWrapper.tsx:20 | parseInt's leading skip removes a prefix made only of white space, and what is left does not start with white space |
| JsRuntime.LeadingDigitsIsLongestPrefix | app/ui/gameHistory/ReplayWrapper/ReplayWrapper.tsx:20 | the digits parseInt takes are a prefix of the text, and the character after them, if any, is not a digit |
| JsRuntime.Decimal | app/ui/gameHistory/ReplayWrapper/ReplayWrapper.tsx:49 | the rendered text of a non-negative integer is a non-empty run of digits; DecimalValue states that it has that value |
| Replay.ParseMoveParam | app/ui/gameHistory/ReplayWrapper/ReplayWrapper.tsx:18-23 | a null or empty parameter throws; any integer read is even, because the "black" test never holds |
| Replay.CurrentHalfMove | app/ui/gameHistory/ReplayWrapper/ReplayWrapper.tsx:36 | the shown half-move is never odd; it is computed exactly when the parameter is non-empty |
| Replay.GetFullMoveAndColor | app/ui/gameHistory/ReplayWrapper/ReplayWrapper.tsx:25-29 | the index equals twice the move number, plus one when the colour is black |
| Replay.HalfMoveHelpersNotInverse | app/ui/gameHistory/ReplayWrapper/ReplayWrapper.tsx:25-34 | getNumHalfMoves after getFullMoveAndColor gives n - 1; black's move m maps back to (m, white), and white's move m to (m - 1, black) |
| Replay.GetNumHalfMoves | app/ui/gameHistory/ReplayWrapper/ReplayWrapper.tsx:31-34 | white's move m is half-move 2m - 1 and black's is 2m; HalfMoveHelpersNotInverse relates it to getFullMoveAndColor |
| Replay.TotalHalfMoves | app/ui/gameHistory/ReplayWrapper/ReplayWrapper.tsx:37-39 | the total throws exactly when there are no rows |
| Replay.PlayedHalfMovesOfWellFormed | app/ui/gameHistory/ReplayWrapper/ReplayWrapper.tsx:37-39 | well-formed rows record 2 half-moves per row, less one if the last row has no black move |
| Replay.TotalHalfMovesOverCounts | app/ui/gameHistory/ReplayWrapper/ReplayWrapper.tsx:37-39 | for well-formed rows the total is one more than the half-moves recorded |
| Replay.MoveInbounds | app/ui/gameHistory/ReplayWrapper/ReplayWrapper.tsx:41-43 | the URL cursor's bounds test; BoundsDifferAtZeroAndOne compares it with the in-memory cursor's |
| Replay.MoveTextReadBack | app/ui/gameHistory/ReplayWrapper/ReplayWrapper.tsx:18-23 | the text "N" + colour that the controls write reads back as half-move 2N, whichever colour |
| Replay.ZeroTextReadBack | app/ui/gameHistory/ReplayWrapper/ReplayWrapper.tsx:18-23 | the text "0" reads back as half-move 0 |
| Replay.DirectMoveUpdate | app/ui/gameHistory/ReplayWrapper/ReplayWrapper.tsx:45-52 | a jump link's rewrite of the parameter; DirectMoveUpdateLands states where it lands |
| Replay.DirectMoveUpdateLands | app/ui/gameHistory/ReplayWrapper/ReplayWrapper.tsx:45-52 | a jump whose half-move is out of bounds leaves the parameter unchanged; an in-bounds jump shows black's half-move of that move number |
| Replay.UpdateMove | app/ui/gameHistory/ReplayWrapper/ReplayWrapper.tsx:54-70 | an arrow press's rewrite of the parameter; UpdateMoveFromStart, ArrowFromEven, ForwardArrowNeverAdvances and BackArrowStepsAWholeMove state its effect |
| Replay.UpdateMoveFromStart | app/ui/gameHistory/ReplayWrapper/ReplayWrapper.tsx:56-59 | from half-move 0 the forward arrow shows half-move 2, with no bounds check, and the back arrow leaves the parameter unchanged |
| Replay.ArrowFromEven | app/ui/gameHistory/ReplayWrapper/ReplayWrapper.tsx:60-68 | from an even nonzero index the arrows write black's half of the target move when it is in bounds, "0" when the back arrow leaves move 1, and otherwise leave the parameter unchanged |
| Replay.ForwardArrowNeverAdvances | app/ui/gameHistory/ReplayWrapper/ReplayWrapper.tsx:54-70 | away from 0 the forward arrow never changes the shown half-move |
| Replay.BackArrowStepsAWholeMove | app/ui/gameHistory/ReplayWrapper/ReplayWrapper.tsx:54-70 | away from 0 the back arrow lowers the shown half-move by 2 from half-move 2, or when h - 1 is at most the total; otherwise it leaves it unchanged |
| StateReplay.Next | app/ui/gameHistory/ReplayWrapper/StateReplayWrapper.tsx:30-34 | the cursor after one jump request; NextLandsOrIgnores states it lands on in-range targets and ignores the rest |
| StateReplay.NextLandsOrIgnores | app/ui/gameHistory/ReplayWrapper/StateReplayWrapper.tsx:30-34 | an in-range jump lands exactly on its target; any other is ignored, with no clamping; repeating a jump changes nothing |
| StateReplay.RunStaysInRange | app/ui/gameHistory/ReplayWrapper/StateReplayWrapper.tsx:27-34 | from an in-range cursor, any sequence of jumps keeps the cursor in [0, total] |
| StateReplay.RunEndsOnLastInRange | app/ui/gameHistory/ReplayWrapper/StateReplayWrapper.tsx:30-34 | after a sequence of jumps the cursor is its start or an in-range request, and it is the last request when that one is in range |
| StateReplay.BoundsDifferAtZeroAndOne | app/ui/gameHistory/ReplayWrapper/ReplayWrapper.tsx:41-43 | the URL cursor's bounds lie inside [0, total] and differ from it exactly at half-moves 0 and 1 |
| StateReplay.ReplayCursor.constructor | app/ui/gameHistory/ReplayWrapper/StateReplayWrapper.tsx:25-27 | the cursor starts at the total, which is fixed from then on, and is in range when the total is non-negative |
| StateReplay.ReplayCursor.ReplayMoveUpdate | app/ui/gameHistory/ReplayWrapper/StateReplayWrapper.tsx:30-34 | the cursor becomes the request when it is in [0, total] and is unchanged otherwise; the range invariant is kept |

## Left out

- The board class (chessBoard.js), the square-id helpers (chessUtils.ts), `inherit`, the other piece kinds, FEN parsing, legality and check detection, castling rules and en passant are not part of this model. The board is seen only through its occupancy. `posToId` and the ids that `addCastleOptions` adds are parameters.
- `getFen` and `getFenChar` return `fenChar`, which neither piece.js nor king.js assigns. They are not modelled.
- Colours are the two values white and black. The source compares colour strings, and a string other than those two is not modelled.
- A piece's board is stored as a value. In the source it is a reference to the shared board object, and `getBoard` returns its live grid; here a later change to the board is seen only after `SetBoard`. The JavaScript `Set`s that `getMoves` and `allMoveOptions` build keep insertion order; the modelled `set`s do not.
- A king's Piece part is a separate object (`King.base`). In the source, `Piece.call` initialises the same object.
- `getMoves` and `allMoveOptions` call the piece kind's `validMoves()` through the prototype chain. Here that call's result is passed to `Pieces.GetMoves` and `Pieces.AllMoveOptions` as a parameter.
- React rendering, hooks, the keyboard listener and `router.replace` navigation are not modelled. Of the URL search parameters, only the `move` entry is modelled, as its value after URL decoding. `updateMove` and `directMoveUpdate` are functions from the old value to the new one.
- The null-parameter path of `parseMoveParam` reads `totalMoves` before its declaration. It is modelled as a thrown ReferenceError and returns no value.
- JavaScript numbers are modelled as integers or NaN. Floating-point rounding of integers beyond 2^53 and the sign of zero are not modelled.
- The in-memory cursor's total comes from a helper in app/lib/utils, which is not part of this model; it is a constructor parameter. The pagination helpers in the same file are not modelled either.
- Data access, authentication, seeding, sign-up and login forms, the dashboard cards, the game page's UI composition, and the drag-and-drop store are outside the chess logic and are not modelled.
