/** The part of the board collaborator that the pieces consult: colours,
    squares, the 8x8 bounds test and square occupancy. The board class
    itself (chessBoard.js) is not part of this model; a position is seen
    only through which colour, if any, stands on each square. */
module Chessboard {

  /** The two sides, spelled "white" and "black" in the source. */
  datatype Color = White | Black

  function Opponent(c: Color): (o: Color)
    ensures o != c
  {
    if c == White then Black else White
  }

  /** The colour's name as the source spells it. */
  function ColorName(c: Color): string {
    if c == White then "white" else "black"
  }

  /** A [rank, file] pair. Candidate squares may lie off the board. */
  datatype Square = Square(rank: int, file: int)

  /** Square identifiers (posToId in chessUtils.ts, not part of this model). */
  type SquareId = string

  /** Occupancy of a position: a map gives at most one colour per square. */
  datatype Board = Board(occupancy: map<Square, Color>)

  /** ChessBoard.isInsideBoard: rank and file both within 0..7. */
  predicate IsInsideBoard(sq: Square) {
    0 <= sq.rank <= 7 && 0 <= sq.file <= 7
  }

  /** ChessBoard.isOccupiedByColor. */
  predicate IsOccupiedByColor(b: Board, sq: Square, c: Color) {
    sq in b.occupancy && b.occupancy[sq] == c
  }

  /** What is assumed of posToId: distinct in-board squares get distinct ids. */
  ghost predicate InjectiveOnBoard(toId: Square -> SquareId) {
    forall p, q :: IsInsideBoard(p) && IsInsideBoard(q) && toId(p) == toId(q) ==> p == q
  }
}
