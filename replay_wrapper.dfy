/** ReplayWrapper.tsx: the replay cursor kept in the page's `move` query
    parameter. The half-move index is read back from the parameter, and the
    arrow and jump controls rewrite it. Each control is modelled as a
    function from the old parameter value to the new one. */
module Replay {
  import opened Chessboard
  import opened JsRuntime

  /** One row of the move history: the full-move number and the two moves'
      notations; "" marks a half that has not been played. */
  datatype MoveRow = MoveRow(moveNumber: int, white: string, black: string)

  /** parseMoveParam. A null or empty parameter reads `totalMoves` before
      its declaration and throws. Otherwise the number is parseInt of all
      but the last character, doubled; the last character is compared with
      "black", which a one-character string never equals. */
  function ParseMoveParam(moveParam: Option<string>): (r: Completion<Number>)
    ensures r.Throw? <==> moveParam == None || moveParam == Some("")
    ensures r.Normal? && r.value.Int? ==> r.value.value % 2 == 0
  {
    if moveParam == None || moveParam.value == "" then Throw(ReferenceError)
    else
      var s := moveParam.value;
      var numPart := ParseInt(s[..|s| - 1]);
      var alphaPart := s[|s| - 1..];
      assert |alphaPart| == 1 && alphaPart != "black";
      Normal(match numPart
             case NaN => NaN
             case Int(v) => Int(v * 2 + (if alphaPart == "black" then 1 else 0)))
  }

  /** `parseMoveParam(...) || 0`: the half-move the page shows. NaN becomes 0.
      The index is never odd. */
  function CurrentHalfMove(moveParam: Option<string>): (r: Completion<int>)
    ensures r.Throw? <==> moveParam == None || moveParam == Some("")
    ensures r.Normal? ==> r.value % 2 == 0
  {
    match ParseMoveParam(moveParam)
    case Throw(e) => Throw(e)
    case Normal(NaN) => Normal(0)
    case Normal(Int(v)) => Normal(v)
  }

  /** getFullMoveAndColor: the result (m, c) splits the index as 2m plus
      one if c is black. */
  function GetFullMoveAndColor(numHalfMoves: int): (r: (int, Color))
    ensures 2 * r.0 + (if r.1 == Black then 1 else 0) == numHalfMoves
  {
    (numHalfMoves / 2, if numHalfMoves % 2 == 0 then White else Black)
  }

  /** getNumHalfMoves: white's move m is half-move 2m - 1, black's is 2m. */
  function GetNumHalfMoves(fullMoves: int, color: Color): int {
    fullMoves * 2 - (if color == White then 1 else 0)
  }

  /** The two index helpers are not inverses of each other. Going from a
      half-move to (move, colour) and back loses one half-move. Going from
      (move, colour) to a half-move and back turns black's move m into
      white's move m, and white's move m into black's move m - 1. */
  lemma HalfMoveHelpersNotInverse(n: int, m: int)
    ensures GetNumHalfMoves(GetFullMoveAndColor(n).0, GetFullMoveAndColor(n).1) == n - 1
    ensures GetFullMoveAndColor(GetNumHalfMoves(m, Black)) == (m, White)
    ensures GetFullMoveAndColor(GetNumHalfMoves(m, White)) == (m - 1, Black)
  {
  }

  /** totalHalfMoves. With no rows, `lastMove` is undefined and reading its
      "black" field throws. */
  function TotalHalfMoves(rows: seq<MoveRow>): (r: Completion<int>)
    ensures r.Throw? <==> rows == []
  {
    if rows == [] then Throw(TypeError)
    else Normal(|rows| * 2 + (if rows[|rows| - 1].black == "" then 0 else 1))
  }

  /** Every row holds white's move, and every row but the last holds black's. */
  predicate WellFormed(rows: seq<MoveRow>) {
    forall i :: 0 <= i < |rows| ==> rows[i].white != "" && (i < |rows| - 1 ==> rows[i].black != "")
  }

  /** The number of half-moves the rows record. */
  function PlayedHalfMoves(rows: seq<MoveRow>): nat {
    if rows == [] then 0
    else
      var last := rows[|rows| - 1];
      PlayedHalfMoves(rows[..|rows| - 1])
        + (if last.white == "" then 0 else 1) + (if last.black == "" then 0 else 1)
  }

  lemma {:induction false} PlayedHalfMovesOfWellFormed(rows: seq<MoveRow>)
    requires rows != [] && WellFormed(rows)
    ensures PlayedHalfMoves(rows) == 2 * |rows| - (if rows[|rows| - 1].black == "" then 1 else 0)
  {
    var init := rows[..|rows| - 1];
    if init != [] {
      assert WellFormed(init);
      assert init[|init| - 1] == rows[|rows| - 2];
      PlayedHalfMovesOfWellFormed(init);
    }
  }

  /** The total counts one half-move more than the rows record. */
  lemma TotalHalfMovesOverCounts(rows: seq<MoveRow>)
    requires rows != [] && WellFormed(rows)
    ensures TotalHalfMoves(rows) == Normal(PlayedHalfMoves(rows) + 1)
  {
    PlayedHalfMovesOfWellFormed(rows);
  }

  /** moveInbounds: the lower bound is 2, not 0. */
  predicate MoveInbounds(total: int, halfMoves: int) {
    halfMoves >= 2 && halfMoves <= total
  }

  /** The text the controls write: the move number followed by the colour. */
  function MoveText(fullMoves: nat, color: Color): string {
    Decimal(fullMoves) + ColorName(color)
  }

  /** The page reads back any text the controls write as twice its move
      number. The colour is lost. */
  lemma MoveTextReadBack(fullMoves: nat, color: Color)
    ensures CurrentHalfMove(Some(MoveText(fullMoves, color))) == Normal(2 * fullMoves)
  {
    var d := Decimal(fullMoves);
    var name := ColorName(color);
    var rest := name[..|name| - 1];
    var s := d + name;
    assert |name| == 5 && !IsDigit(rest[0]);
    assert s[..|s| - 1] == d + rest;
    assert |s[|s| - 1..]| == 1;
    ParseIntOfDecimal(fullMoves, rest);
    assert ParseMoveParam(Some(s)) == Normal(Int(2 * fullMoves));
  }

  /** "0" reads back as half-move 0: parseInt("") is NaN. */
  lemma ZeroTextReadBack()
    ensures CurrentHalfMove(Some("0")) == Normal(0)
  {
    assert "0"[..0] == "";
  }

  /** directMoveUpdate: jump to (newMove, color) when its half-move is in
      bounds; otherwise leave the parameter as it is. */
  function DirectMoveUpdate(moveParam: Option<string>, total: int, newMove: int, color: Color): Option<string> {
    if MoveInbounds(total, GetNumHalfMoves(newMove, color)) then Some(MoveText(newMove, color))
    else moveParam
  }

  /** A jump changes the parameter only when its target is in bounds.
      The page then shows black's half-move of that move number, whichever
      colour was chosen. */
  lemma DirectMoveUpdateLands(moveParam: Option<string>, total: int, newMove: int, color: Color)
    ensures !MoveInbounds(total, GetNumHalfMoves(newMove, color)) ==>
              DirectMoveUpdate(moveParam, total, newMove, color) == moveParam
    ensures MoveInbounds(total, GetNumHalfMoves(newMove, color)) ==>
              CurrentHalfMove(DirectMoveUpdate(moveParam, total, newMove, color))
              == Normal(GetNumHalfMoves(newMove, Black))
  {
    if MoveInbounds(total, GetNumHalfMoves(newMove, color)) {
      var text := MoveText(newMove, color);
      assert DirectMoveUpdate(moveParam, total, newMove, color) == Some(text);
      MoveTextReadBack(newMove, color);
      assert CurrentHalfMove(Some(text)) == Normal(2 * newMove);
    }
  }

  /** updateMove: an arrow press from the shown half-move `currentHalfMove`. */
  function UpdateMove(moveParam: Option<string>, total: int, currentHalfMove: int, change: int): Option<string>
    requires change == 1 || change == -1
  {
    if currentHalfMove == 0 then
      if change == 1 then Some("1white") else moveParam
    else
      var halfMoves := currentHalfMove + change;
      var (fullMoves, suffix) := GetFullMoveAndColor(halfMoves);
      if MoveInbounds(total, halfMoves) then Some(MoveText(fullMoves, suffix))
      else if fullMoves == 0 then Some("0")
      else moveParam
  }

  /** From half-move 0, the forward arrow shows half-move 2 (skipping 1, and
      with no bounds check), and the back arrow changes nothing. */
  lemma UpdateMoveFromStart(moveParam: Option<string>, total: int)
    ensures CurrentHalfMove(UpdateMove(moveParam, total, 0, 1)) == Normal(2)
    ensures UpdateMove(moveParam, total, 0, -1) == moveParam
  {
    assert "1white" == MoveText(1, White);
    MoveTextReadBack(1, White);
  }

  /** The arrows from an even, nonzero half-move 2m: the text written, or
      the parameter left as it was. */
  lemma ArrowFromEven(moveParam: Option<string>, total: int, m: int)
    requires m != 0
    ensures UpdateMove(moveParam, total, 2 * m, 1)
            == if MoveInbounds(total, 2 * m + 1) then Some(MoveText(m, Black)) else moveParam
    ensures UpdateMove(moveParam, total, 2 * m, -1)
            == if MoveInbounds(total, 2 * m - 1) then Some(MoveText(m - 1, Black))
               else if m == 1 then Some("0")
               else moveParam
  {
    assert GetFullMoveAndColor(2 * m + 1) == (m, Black);
    BackArrowFromEven(moveParam, total, m);
  }

  /** The back arrow alone, from an even, nonzero half-move 2m. */
  lemma BackArrowFromEven(moveParam: Option<string>, total: int, m: int)
    requires m != 0
    ensures UpdateMove(moveParam, total, 2 * m, -1)
            == if MoveInbounds(total, 2 * m - 1) then Some(MoveText(m - 1, Black))
               else if m == 1 then Some("0")
               else moveParam
  {
    assert GetFullMoveAndColor(2 * m - 1) == (m - 1, Black);
  }

  /** Away from 0 the forward arrow never moves the shown half-move. The
      shown index h is even, so h + 1 is black's half of the same move, and
      that text reads back as h. */
  lemma ForwardArrowNeverAdvances(moveParam: Option<string>, total: int, h: int)
    requires CurrentHalfMove(moveParam) == Normal(h) && h != 0
    ensures CurrentHalfMove(UpdateMove(moveParam, total, h, 1)) == Normal(h)
  {
    var m := h / 2;
    assert h == 2 * m;
    ArrowFromEven(moveParam, total, m);
    if MoveInbounds(total, h + 1) {
      MoveTextReadBack(m, Black);
    }
  }

  /** The back arrow from an even half-move 2m whose predecessor is in
      bounds shows half-move 2m - 2. */
  lemma BackArrowInBounds(moveParam: Option<string>, total: int, m: int)
    requires m != 0 && MoveInbounds(total, 2 * m - 1)
    ensures CurrentHalfMove(UpdateMove(moveParam, total, 2 * m, -1)) == Normal(2 * m - 2)
  {
    BackArrowFromEven(moveParam, total, m);
    MoveTextReadBack(m - 1, Black);
  }

  /** The back arrow from an even half-move 2m whose predecessor is out of
      bounds writes "0" from move 1 and otherwise leaves the parameter. */
  lemma BackArrowOutOfBounds(moveParam: Option<string>, total: int, m: int)
    requires m != 0 && !MoveInbounds(total, 2 * m - 1)
    ensures UpdateMove(moveParam, total, 2 * m, -1) == if m == 1 then Some("0") else moveParam
  {
    BackArrowFromEven(moveParam, total, m);
  }

  /** Away from 0 the back arrow moves back a whole move (two half-moves)
      from half-move 2, or when h - 1 is within the upper bound; otherwise
      it changes nothing. */
  lemma BackArrowStepsAWholeMove(moveParam: Option<string>, total: int, h: int)
    requires CurrentHalfMove(moveParam) == Normal(h) && h != 0
    ensures CurrentHalfMove(UpdateMove(moveParam, total, h, -1))
            == Normal(if h == 2 || 3 <= h <= total + 1 then h - 2 else h)
  {
    var m := h / 2;
    assert h == 2 * m;
    if MoveInbounds(total, h - 1) {
      BackArrowInBounds(moveParam, total, m);
      assert h == 2 || 3 <= h <= total + 1;
    } else if m == 1 {
      BackArrowOutOfBounds(moveParam, total, m);
      ZeroTextReadBack();
    } else {
      BackArrowOutOfBounds(moveParam, total, m);
      assert !(h == 2 || 3 <= h <= total + 1);
    }
  }
}
