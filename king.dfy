/** king.js: the king's fields and its pseudo-legal candidates, the eight
    neighbouring squares sorted into quiet moves and captures. */
module Kings {
  import opened Chessboard
  import Pieces

  /** The king's offsets, in the order the source walks them. */
  const DIRS: seq<(int, int)> :=
    [(1, 0), (1, 1), (0, 1), (-1, 1), (-1, 0), (-1, -1), (0, -1), (1, -1)]

  function Shift(sq: Square, step: (int, int)): Square {
    Square(sq.rank + step.0, sq.file + step.1)
  }

  /** The squares validMoves looks at, in DIRS order (some may be off-board). */
  function Targets(sq: Square): seq<Square> {
    seq(|DIRS|, i requires 0 <= i < |DIRS| => Shift(sq, DIRS[i]))
  }

  /** The squares that differ from `sq` by at most one in rank and in file,
      and are not `sq` itself. */
  function Neighbours(sq: Square): set<Square> {
    set r, f | sq.rank - 1 <= r <= sq.rank + 1 && sq.file - 1 <= f <= sq.file + 1
                 && Square(r, f) != sq :: Square(r, f)
  }

  /** Neither colour stands there. */
  predicate IsQuiet(b: Board, c: Color, q: Square) {
    !IsOccupiedByColor(b, q, c) && !IsOccupiedByColor(b, q, Opponent(c))
  }

  /** Not the king's colour, but the opponent's. */
  predicate IsCapture(b: Board, c: Color, q: Square) {
    !IsOccupiedByColor(b, q, c) && IsOccupiedByColor(b, q, Opponent(c))
  }

  /** The quiet targets among `ts`, in order. */
  function Quiet(b: Board, c: Color, ts: seq<Square>): (r: seq<Square>)
    ensures forall q :: q in r <==> q in ts && IsQuiet(b, c, q)
  {
    if ts == [] then []
    else Quiet(b, c, ts[..|ts| - 1]) + (if IsQuiet(b, c, ts[|ts| - 1]) then [ts[|ts| - 1]] else [])
  }

  /** The capture targets among `ts`, in order. */
  function Captures(b: Board, c: Color, ts: seq<Square>): (r: seq<Square>)
    ensures forall q :: q in r <==> q in ts && IsCapture(b, c, q)
  {
    if ts == [] then []
    else Captures(b, c, ts[..|ts| - 1]) + (if IsCapture(b, c, ts[|ts| - 1]) then [ts[|ts| - 1]] else [])
  }

  lemma QuietSnoc(b: Board, c: Color, ts: seq<Square>, x: Square)
    ensures Quiet(b, c, ts + [x]) == Quiet(b, c, ts) + (if IsQuiet(b, c, x) then [x] else [])
  {
    assert (ts + [x])[..|ts|] == ts;
  }

  lemma CapturesSnoc(b: Board, c: Color, ts: seq<Square>, x: Square)
    ensures Captures(b, c, ts + [x]) == Captures(b, c, ts) + (if IsCapture(b, c, x) then [x] else [])
  {
    assert (ts + [x])[..|ts|] == ts;
  }

  /** The squares of `ts` held by colour `c`. */
  function HeldBy(b: Board, c: Color, ts: seq<Square>): set<Square> {
    set q | q in ts && IsOccupiedByColor(b, q, c)
  }

  predicate Distinct(ts: seq<Square>) {
    forall i, j :: 0 <= i < j < |ts| ==> ts[i] != ts[j]
  }

  /** Each target of a distinct list lands in exactly one of: held by the
      king's colour, quiet, capture. */
  lemma {:induction false} QuietCapturesCount(b: Board, c: Color, ts: seq<Square>)
    requires Distinct(ts)
    ensures |Quiet(b, c, ts)| + |Captures(b, c, ts)| + |HeldBy(b, c, ts)| == |ts|
  {
    if ts != [] {
      var init := ts[..|ts| - 1];
      var x := ts[|ts| - 1];
      assert ts == init + [x];
      QuietCapturesCount(b, c, init);
      assert x !in init;
      assert |Quiet(b, c, ts)| == |Quiet(b, c, init)| + (if IsQuiet(b, c, x) then 1 else 0);
      assert |Captures(b, c, ts)| == |Captures(b, c, init)| + (if IsCapture(b, c, x) then 1 else 0);
      HeldBySnoc(b, c, init, x);
    }
  }

  lemma HeldBySnoc(b: Board, c: Color, init: seq<Square>, x: Square)
    requires x !in init
    ensures |HeldBy(b, c, init + [x])| == |HeldBy(b, c, init)| + (if IsOccupiedByColor(b, x, c) then 1 else 0)
  {
    if IsOccupiedByColor(b, x, c) {
      assert HeldBy(b, c, init + [x]) == HeldBy(b, c, init) + {x};
    } else {
      assert HeldBy(b, c, init + [x]) == HeldBy(b, c, init);
    }
  }

  /** DIRS reaches every neighbour exactly once. */
  lemma TargetsAreNeighbours(sq: Square)
    ensures |Targets(sq)| == 8 && Distinct(Targets(sq))
    ensures forall q :: q in Targets(sq) <==> q in Neighbours(sq)
  {
    var ts := Targets(sq);
    forall q | q in Neighbours(sq)
      ensures q in ts
    {
      var dr, df := q.rank - sq.rank, q.file - sq.file;
      var i := if dr == 1 && df == 0 then 0
               else if dr == 1 && df == 1 then 1
               else if dr == 0 && df == 1 then 2
               else if dr == -1 && df == 1 then 3
               else if dr == -1 && df == 0 then 4
               else if dr == -1 && df == -1 then 5
               else if dr == 0 && df == -1 then 6
               else 7;
      assert ts[i] == q;
    }
  }

  /** The king's candidates as sets: quiet candidates are exactly the
      neighbours held by nobody, captures exactly the neighbours held by the
      opponent; none is held by the king's colour; the two are disjoint;
      together they number 8 minus the neighbours held by the king's colour. */
  lemma KingCandidates(b: Board, c: Color, sq: Square)
    ensures forall q :: q in Quiet(b, c, Targets(sq))
              <==> q in Neighbours(sq) && !IsOccupiedByColor(b, q, c) && !IsOccupiedByColor(b, q, Opponent(c))
    ensures forall q :: q in Captures(b, c, Targets(sq))
              <==> q in Neighbours(sq) && IsOccupiedByColor(b, q, Opponent(c))
    ensures forall q :: q in Quiet(b, c, Targets(sq)) ==> q !in Captures(b, c, Targets(sq))
    ensures |Quiet(b, c, Targets(sq))| + |Captures(b, c, Targets(sq))|
         == 8 - |set q | q in Neighbours(sq) && IsOccupiedByColor(b, q, c)|
  {
    TargetsAreNeighbours(sq);
    QuietCapturesCount(b, c, Targets(sq));
    assert HeldBy(b, c, Targets(sq)) == set q | q in Neighbours(sq) && IsOccupiedByColor(b, q, c);
  }

  /** Every candidate differs from the king's square by at most one in rank
      and in file, and by something in one of them. */
  lemma CandidatesAdjacent(b: Board, c: Color, sq: Square, q: Square)
    requires q in Quiet(b, c, Targets(sq)) || q in Captures(b, c, Targets(sq))
    ensures -1 <= q.rank - sq.rank <= 1 && -1 <= q.file - sq.file <= 1
    ensures q != sq
  {
    TargetsAreNeighbours(sq);
  }

  /** validMoves does no bounds filtering: a king in the corner of an
      empty board lists off-board squares as quiet candidates. */
  lemma CandidatesMayLeaveBoard()
    ensures var ts := Quiet(Board(map[]), White, Targets(Square(0, 0)));
            Square(-1, 0) in ts && !IsInsideBoard(Square(-1, 0))
  {
    assert Targets(Square(0, 0))[4] == Square(-1, 0);
  }

  /** The ids of the king's in-board neighbours satisfying `IsQuiet`. */
  function QuietIds(b: Board, c: Color, sq: Square, toId: Square -> SquareId): set<SquareId> {
    set q | q in Neighbours(sq) && IsInsideBoard(q) && IsQuiet(b, c, q) :: toId(q)
  }

  /** The ids of the king's in-board neighbours held by the opponent. */
  function CaptureIds(b: Board, c: Color, sq: Square, toId: Square -> SquareId): set<SquareId> {
    set q | q in Neighbours(sq) && IsInsideBoard(q) && IsOccupiedByColor(b, q, Opponent(c)) :: toId(q)
  }

  /** The id sets of the filtered candidates, described by the board alone. */
  lemma KingIds(b: Board, c: Color, sq: Square, toId: Square -> SquareId)
    ensures Pieces.InBoardIds(Quiet(b, c, Targets(sq)), toId) == QuietIds(b, c, sq, toId)
    ensures Pieces.InBoardIds(Captures(b, c, Targets(sq)), toId) == CaptureIds(b, c, sq, toId)
  {
    KingCandidates(b, c, sq);
  }

  class King {
    /** The Piece part of the king (the source initialises it on the same object). */
    const base: Pieces.Piece
    var pieceName: string
    var pieceType: string
    var firstMove: bool

    constructor (color: Color, square: Square, board: Board)
      ensures fresh(base)
      ensures base.color == color && base.square == square && base.board == board && !base.taken
      ensures pieceName == "king"
      ensures pieceType == (if color == White then "w_king" else "b_king")
      ensures firstMove
    {
      var name := "king";
      pieceName := name;
      pieceType := ColorName(color)[..1] + "_" + name;
      base := new Pieces.Piece(color, square, board);
      firstMove := true;
    }

    function GetType(): string
      reads this
    {
      pieceType
    }

    function GetPieceName(): string
      reads this
    {
      pieceName
    }

    /** validMoves: walk DIRS, dropping targets held by the king's colour and
        sorting the rest into captures and quiet moves. */
    method ValidMoves() returns (options: seq<Square>, takeOptions: seq<Square>)
      ensures options == Quiet(base.board, base.color, Targets(base.square))
      ensures takeOptions == Captures(base.board, base.color, Targets(base.square))
    {
      var sq := base.GetSquare();
      var color := base.GetColor();
      var board := base.board;
      var isWhite := color == White;
      var opponentColor := if isWhite then Black else White;
      assert opponentColor == Opponent(color);
      options := [];
      takeOptions := [];
      ghost var ts := Targets(sq);
      var i := 0;
      while i < |DIRS|
        invariant 0 <= i <= |DIRS|
        invariant options == Quiet(board, color, ts[..i])
        invariant takeOptions == Captures(board, color, ts[..i])
      {
        var step := DIRS[i];
        var potentialMove := Square(sq.rank + step.0, sq.file + step.1);
        assert ts[i] == potentialMove;
        assert ts[..i + 1] == ts[..i] + [ts[i]];
        QuietSnoc(board, color, ts[..i], potentialMove);
        CapturesSnoc(board, color, ts[..i], potentialMove);
        if !IsOccupiedByColor(board, potentialMove, color) {
          if IsOccupiedByColor(board, potentialMove, opponentColor) {
            assert IsCapture(board, color, potentialMove) && !IsQuiet(board, color, potentialMove);
            takeOptions := takeOptions + [potentialMove];
          } else {
            assert IsQuiet(board, color, potentialMove) && !IsCapture(board, color, potentialMove);
            options := options + [potentialMove];
          }
        } else {
          assert !IsQuiet(board, color, potentialMove) && !IsCapture(board, color, potentialMove);
        }
        i := i + 1;
      }
      assert ts[..i] == ts;
    }

    /** getMoves as a king sees it: the ids of its in-board quiet neighbours
        plus the castling ids the board adds, and the ids of its in-board
        neighbours held by the opponent. */
    method GetMoves(toId: Square -> SquareId, castleIds: set<SquareId>)
      returns (options: set<SquareId>, takeOptions: set<SquareId>)
      ensures options == QuietIds(base.board, base.color, base.square, toId) + castleIds
      ensures takeOptions == CaptureIds(base.board, base.color, base.square, toId)
    {
      var quiet, takes := ValidMoves();
      options, takeOptions := Pieces.GetMoves(Pieces.Candidates(quiet, takes), toId, castleIds);
      KingIds(base.board, base.color, base.square, toId);
    }

    /** allMoveOptions as a king sees it: the ids of every in-board
        neighbour not held by its own colour. */
    method AllMoveOptions(toId: Square -> SquareId) returns (r: set<SquareId>)
      ensures r == QuietIds(base.board, base.color, base.square, toId)
                 + CaptureIds(base.board, base.color, base.square, toId)
    {
      var quiet, takes := ValidMoves();
      r := Pieces.AllMoveOptions(Pieces.Candidates(quiet, takes), toId);
      KingIds(base.board, base.color, base.square, toId);
    }
  }
}
