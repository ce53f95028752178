/** piece.js: the state every piece carries (colour, square, board, taken)
    and the post-processing shared by all piece kinds, which turns a kind's
    raw candidate squares into sets of square ids. */
module Pieces {
  import opened Chessboard

  /** What a piece kind's validMoves() returns: [options, takeOptions],
      the quiet candidates and the capture candidates, possibly off-board. */
  datatype Candidates = Candidates(quiet: seq<Square>, takes: seq<Square>)

  class Piece {
    var color: Color
    var square: Square
    var board: Board
    var taken: bool

    constructor (color: Color, square: Square, board: Board)
      ensures this.color == color && this.square == square && this.board == board
      ensures !taken
    {
      this.color := color;
      this.square := square;
      this.board := board;
      taken := false;
    }

    function GetColor(): Color
      reads this
    {
      color
    }

    function GetSquare(): Square
      reads this
    {
      square
    }

    function GetSquareId(toId: Square -> SquareId): SquareId
      reads this
    {
      toId(square)
    }

    /** getBoard returns the board's grid, seen here as its occupancy. */
    function GetBoard(): map<Square, Color>
      reads this
    {
      board.occupancy
    }

    function IsTaken(): bool
      reads this
    {
      taken
    }

    method SetSquare(pos: Square)
      modifies this`square
      ensures GetSquare() == pos
      ensures color == old(color) && board == old(board) && taken == old(taken)
    {
      square := pos;
    }

    method SetBoard(b: Board)
      modifies this`board
      ensures GetBoard() == b.occupancy && board == b
      ensures color == old(color) && square == old(square) && taken == old(taken)
    {
      board := b;
    }
  }

  /** The ids of the in-board squares listed in `s`. */
  function InBoardIds(s: seq<Square>, toId: Square -> SquareId): set<SquareId> {
    set q | q in s && IsInsideBoard(q) :: toId(q)
  }

  /** The in-board squares listed in `s`, as a set. */
  function InBoardSquares(s: seq<Square>): set<Square> {
    set q | q in s && IsInsideBoard(q)
  }

  /** Appending one candidate adds its id exactly when it is on the board. */
  lemma InBoardIdsSnoc(s: seq<Square>, x: Square, toId: Square -> SquareId)
    ensures InBoardIds(s + [x], toId)
         == InBoardIds(s, toId) + (if IsInsideBoard(x) then {toId(x)} else {})
  {
    forall id | id in InBoardIds(s + [x], toId)
      ensures id in InBoardIds(s, toId) + (if IsInsideBoard(x) then {toId(x)} else {})
    {
      var q :| q in s + [x] && IsInsideBoard(q) && toId(q) == id;
      if q != x {
        assert q in s;
      }
    }
  }

  /** A set of ids is never larger than the list it was built from. */
  lemma {:induction false} InBoardIdsBound(s: seq<Square>, toId: Square -> SquareId)
    ensures |InBoardIds(s, toId)| <= |s|
    ensures |InBoardSquares(s)| <= |s|
  {
    if s != [] {
      var init := s[..|s| - 1];
      var x := s[|s| - 1];
      assert s == init + [x];
      InBoardIdsBound(init, toId);
      InBoardIdsSnoc(init, x, toId);
      assert InBoardSquares(s) == InBoardSquares(init) + (if IsInsideBoard(x) then {x} else {});
    }
  }

  /** With posToId injective on the board, the ids are as many as the
      distinct in-board squares they come from. */
  lemma {:induction false} InBoardIdsCount(s: seq<Square>, toId: Square -> SquareId)
    requires InjectiveOnBoard(toId)
    ensures |InBoardIds(s, toId)| == |InBoardSquares(s)|
  {
    if s != [] {
      var init := s[..|s| - 1];
      var x := s[|s| - 1];
      assert s == init + [x];
      InBoardIdsCount(init, toId);
      InBoardIdsSnoc(init, x, toId);
      assert InBoardSquares(s) == InBoardSquares(init) + (if IsInsideBoard(x) then {x} else {});
      if IsInsideBoard(x) && toId(x) in InBoardIds(init, toId) {
        var q :| q in init && IsInsideBoard(q) && toId(q) == toId(x);
        assert q == x;
      }
    }
  }

  /** getMoves: keep the in-board candidates, turn them into id sets, then let
      the board's addCastleOptions add the castling ids `castleIds` to the
      quiet set; addCastleOptions (chessBoard.js, not part of this model)
      is only assumed to add ids. */
  method GetMoves(valid: Candidates, toId: Square -> SquareId, castleIds: set<SquareId>)
    returns (options: set<SquareId>, takeOptions: set<SquareId>)
    ensures options == InBoardIds(valid.quiet, toId) + castleIds
    ensures takeOptions == InBoardIds(valid.takes, toId)
  {
    options := {};
    takeOptions := {};
    var i := 0;
    while i < |valid.quiet|
      invariant 0 <= i <= |valid.quiet|
      invariant options == InBoardIds(valid.quiet[..i], toId)
    {
      var pos := valid.quiet[i];
      InBoardIdsSnoc(valid.quiet[..i], pos, toId);
      assert valid.quiet[..i + 1] == valid.quiet[..i] + [pos];
      if IsInsideBoard(pos) {
        options := options + {toId(pos)};
      }
      i := i + 1;
    }
    assert valid.quiet[..i] == valid.quiet;
    var j := 0;
    while j < |valid.takes|
      invariant 0 <= j <= |valid.takes|
      invariant takeOptions == InBoardIds(valid.takes[..j], toId)
    {
      var pos := valid.takes[j];
      InBoardIdsSnoc(valid.takes[..j], pos, toId);
      assert valid.takes[..j + 1] == valid.takes[..j] + [pos];
      if IsInsideBoard(pos) {
        takeOptions := takeOptions + {toId(pos)};
      }
      j := j + 1;
    }
    assert valid.takes[..j] == valid.takes;
    options := options + castleIds;
  }

  /** An off-board candidate whose id no in-board square shares never
      reaches options (before castling), takeOptions or allMoveOptions. */
  lemma OffBoardNeverListed(s: seq<Square>, toId: Square -> SquareId, q: Square)
    requires !IsInsideBoard(q)
    requires forall p :: IsInsideBoard(p) ==> toId(p) != toId(q)
    ensures toId(q) !in InBoardIds(s, toId)
  {
  }

  /** JS `filter(pos => Board.isInsideBoard(pos))`. */
  function InBoard(s: seq<Square>): (r: seq<Square>)
    ensures forall q :: q in r <==> q in s && IsInsideBoard(q)
    ensures |r| <= |s|
  {
    if s == [] then []
    else (if IsInsideBoard(s[0]) then [s[0]] else []) + InBoard(s[1..])
  }

  /** JS `map(pos => posToId(pos))`. */
  function MapIds(s: seq<Square>, toId: Square -> SquareId): seq<SquareId> {
    seq(|s|, i requires 0 <= i < |s| => toId(s[i]))
  }

  lemma MapIdsMembers(s: seq<Square>, toId: Square -> SquareId, id: SquareId)
    ensures id in MapIds(s, toId) <==> exists q :: q in s && toId(q) == id
  {
    if id in MapIds(s, toId) {
      var j :| 0 <= j < |s| && MapIds(s, toId)[j] == id;
      assert s[j] in s;
    }
    if exists q :: q in s && toId(q) == id {
      var q :| q in s && toId(q) == id;
      var j :| 0 <= j < |s| && s[j] == q;
      assert MapIds(s, toId)[j] == id;
    }
  }

  /** allMoveOptions: the ids of all in-board quiet and capture candidates,
      with nothing from castling. */
  function AllMoveOptions(valid: Candidates, toId: Square -> SquareId): (r: set<SquareId>)
    ensures r == InBoardIds(valid.quiet, toId) + InBoardIds(valid.takes, toId)
    ensures |r| <= |valid.quiet| + |valid.takes|
  {
    var moves := InBoard(valid.quiet);
    var takes := InBoard(valid.takes);
    var moveArr := MapIds(moves + takes, toId);
    AllMoveOptionsIsUnion(valid, toId, moves, takes);
    set id | id in moveArr
  }

  lemma AllMoveOptionsIsUnion(valid: Candidates, toId: Square -> SquareId, moves: seq<Square>, takes: seq<Square>)
    requires moves == InBoard(valid.quiet) && takes == InBoard(valid.takes)
    ensures (set id | id in MapIds(moves + takes, toId))
         == InBoardIds(valid.quiet, toId) + InBoardIds(valid.takes, toId)
    ensures |InBoardIds(valid.quiet, toId) + InBoardIds(valid.takes, toId)| <= |valid.quiet| + |valid.takes|
  {
    var u := InBoardIds(valid.quiet, toId) + InBoardIds(valid.takes, toId);
    forall id
      ensures id in MapIds(moves + takes, toId) <==> id in u
    {
      MapIdsMembers(moves + takes, toId, id);
    }
    InBoardIdsBound(valid.quiet, toId);
    InBoardIdsBound(valid.takes, toId);
  }
}
