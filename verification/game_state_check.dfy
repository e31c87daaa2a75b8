/** Board::checkGameState (01_TicTacToe/Utility/Board.cpp): scans rows, then
    columns, then the main and the anti-diagonal, and reports the first line
    filled with one mark to the game context as a win by the current player;
    with no such line, a full board is reported as a draw. It is a module of
    its own because it joins the board to the context and the player. */
module GameStateCheck {

  import opened Options
  import opened Symbols
  import opened Boards
  import opened Players
  import opened GameContexts

  /** The reports sent to GameContext::next, each its `isWin` argument, are
      returned as `reports`; `hit` is the line that won, if any. */
  method CheckGameState(b: Board, ctx: GameContext, current: Player)
    returns (ctx': GameContext, reports: seq<bool>, hit: Option<LineId>)
    requires WellFormed(b)
    ensures hit.Some? <==> AnyLineWon(b)
    ensures hit.Some? ==> ValidLineId(b, hit.value) && LineWon(Line(b, hit.value))
    ensures hit.Some? ==>
      forall id :: ValidLineId(b, id) && Rank(b, id) < Rank(b, hit.value) ==> !LineWon(Line(b, id))
    ensures reports == (if hit.Some? then [true] else if Full(b) then [false] else [])
    ensures ctx' == (if reports == [] then ctx else Next(ctx, current, reports[0]))
  {
    var i := 0;
    while i < b.rows
      invariant 0 <= i <= b.rows
      invariant forall r :: 0 <= r < i ==> !LineWon(Line(b, RowLine(r)))
    {
      var row := GetRow(b, i);
      assert row == Line(b, RowLine(i));
      var won := IsWinningLine(row);
      if row[0] != Empty && won {
        return Next(ctx, current, true), [true], Some(RowLine(i));
      }
      i := i + 1;
    }

    var j := 0;
    while j < b.columns
      invariant 0 <= j <= b.columns
      invariant forall c :: 0 <= c < j ==> !LineWon(Line(b, ColumnLine(c)))
    {
      var column := GetColumn(b, j);
      assert column == Line(b, ColumnLine(j));
      var won := IsWinningLine(column);
      if column[0] != Empty && won {
        return Next(ctx, current, true), [true], Some(ColumnLine(j));
      }
      j := j + 1;
    }

    var diagonal1 := GetDiagonal1(b);
    assert diagonal1 == Line(b, MainDiagonal);
    var won1 := IsWinningLine(diagonal1);
    if diagonal1[0] != Empty && won1 {
      return Next(ctx, current, true), [true], Some(MainDiagonal);
    }

    var diagonal2 := GetDiagonal2(b);
    assert diagonal2 == Line(b, AntiDiagonal);
    var won2 := IsWinningLine(diagonal2);
    if diagonal2[0] != Empty && won2 {
      return Next(ctx, current, true), [true], Some(AntiDiagonal);
    }

    forall id | ValidLineId(b, id)
      ensures !LineWon(Line(b, id))
    {
      match id
      case RowLine(r) =>
      case ColumnLine(c) =>
      case MainDiagonal =>
      case AntiDiagonal =>
    }

    var full := IsFull(b);
    if full {
      return Next(ctx, current, false), [false], None;
    }
    return ctx, [], None;
  }
}
