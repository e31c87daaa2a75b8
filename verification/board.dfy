/** The tic-tac-toe grid (01_TicTacToe/Utility/Board.cpp): a rows x columns
    grid of symbols with move validation, move application, line extraction
    (rows, columns and the two diagonals), the winning-line test and the
    fullness test. checkGameState lives in module GameStateCheck because it
    reports to the game context. */
module Boards {

  import opened Symbols
  import opened Positions

  datatype Board = Board(rows: int, columns: int, grid: seq<seq<Symbol>>)

  /** The shape of every board the constructor builds. Both dimensions must be
      at least 1: checkGameState reads the first entry of every line without a
      guard. */
  predicate WellFormed(b: Board) {
    && b.rows >= 1
    && b.columns >= 1
    && |b.grid| == b.rows
    && forall i :: 0 <= i < |b.grid| ==> |b.grid[i]| == b.columns
  }

  predicate InBounds(b: Board, p: Position) {
    0 <= p.row < b.rows && 0 <= p.col < b.columns
  }

  function Cell(b: Board, p: Position): Symbol
    requires WellFormed(b) && InBounds(b, p)
  {
    b.grid[p.row][p.col]
  }

  /** Board::Board: `rows` rows of `columns` cells, every one EMPTY. */
  function NewBoard(rows: int, columns: int): (b: Board)
    requires rows >= 1 && columns >= 1
    ensures WellFormed(b) && b.rows == rows && b.columns == columns
    ensures forall p :: InBounds(b, p) ==> Cell(b, p) == Empty
  {
    Board(rows, columns, seq(rows, _ => seq(columns, _ => Empty)))
  }

  /** Board::isValidMove: inside the grid and on an EMPTY cell. */
  function IsValidMove(b: Board, p: Position): (r: bool)
    requires WellFormed(b)
    ensures r <==> InBounds(b, p) && Cell(b, p) == Empty
  {
    p.row >= 0 && p.row < b.rows && p.col >= 0 && p.col < b.columns
    && b.grid[p.row][p.col] == Empty
  }

  /** Board::makeMove: writes `s` into cell `p` with no occupancy check. The
      source indexes the grid unchecked, so `p` must be inside it. */
  function MakeMove(b: Board, p: Position, s: Symbol): (b': Board)
    requires WellFormed(b) && InBounds(b, p)
    ensures WellFormed(b') && b'.rows == b.rows && b'.columns == b.columns
    ensures forall i, j | 0 <= i < b.rows && 0 <= j < b.columns ::
      b'.grid[i][j] == (if i == p.row && j == p.col then s else b.grid[i][j])
  {
    b.(grid := b.grid[p.row := b.grid[p.row][p.col := s]])
  }

  /** A placed mark makes its cell unplayable and leaves the playability of
      every other position as it was. */
  lemma MoveOccupiesCell(b: Board, p: Position, s: Symbol, q: Position)
    requires WellFormed(b) && IsValidMove(b, p) && s != Empty
    ensures !IsValidMove(MakeMove(b, p, s), p)
    ensures q != p ==> (IsValidMove(MakeMove(b, p, s), q) <==> IsValidMove(b, q))
  {
  }

  // ---------------------------------------------------------------------
  // Lines

  /** Names the lines checkGameState inspects. */
  datatype LineId = RowLine(r: int) | ColumnLine(c: int) | MainDiagonal | AntiDiagonal

  predicate ValidLineId(b: Board, id: LineId) {
    match id
    case RowLine(r) => 0 <= r < b.rows
    case ColumnLine(c) => 0 <= c < b.columns
    case MainDiagonal => true
    case AntiDiagonal => true
  }

  /** Both diagonals run over min(rows, columns) cells, also on non-square
      boards, where they are partial lines. */
  function DiagonalLength(b: Board): int {
    if b.rows <= b.columns then b.rows else b.columns
  }

  /** The reference definition of every line. */
  function Line(b: Board, id: LineId): seq<Symbol>
    requires WellFormed(b) && ValidLineId(b, id)
  {
    match id
    case RowLine(r) => b.grid[r]
    case ColumnLine(c) => seq(b.rows, k requires 0 <= k < b.rows => b.grid[k][c])
    case MainDiagonal =>
      seq(DiagonalLength(b), k requires 0 <= k < DiagonalLength(b) => b.grid[k][k])
    case AntiDiagonal =>
      seq(DiagonalLength(b), k requires 0 <= k < DiagonalLength(b) => b.grid[k][b.columns - 1 - k])
  }

  /** The position of a line in checkGameState's scan: rows, then columns,
      then the main diagonal, then the anti-diagonal. */
  function Rank(b: Board, id: LineId): int {
    match id
    case RowLine(r) => r
    case ColumnLine(c) => b.rows + c
    case MainDiagonal => b.rows + b.columns
    case AntiDiagonal => b.rows + b.columns + 1
  }

  /** What isWinningLine accepts: a non-empty line whose entries all equal
      its first. */
  predicate AllSame(line: seq<Symbol>) {
    |line| > 0 && forall k :: 0 <= k < |line| ==> line[k] == line[0]
  }

  /** What checkGameState counts as a win: a line filled with one mark. */
  predicate LineWon(line: seq<Symbol>) {
    |line| > 0 && line[0] != Empty && AllSame(line)
  }

  ghost predicate AnyLineWon(b: Board)
    requires WellFormed(b)
  {
    exists id :: ValidLineId(b, id) && LineWon(Line(b, id))
  }

  /** Every line on the board that is won is filled with `s`. */
  ghost predicate OnlyWinner(b: Board, s: Symbol)
    requires WellFormed(b)
  {
    forall id :: ValidLineId(b, id) && LineWon(Line(b, id)) ==> Line(b, id)[0] == s
  }

  predicate Full(b: Board)
    requires WellFormed(b)
  {
    forall i, j :: 0 <= i < b.rows && 0 <= j < b.columns ==> b.grid[i][j] != Empty
  }

  /** Board::getRow */
  method GetRow(b: Board, r: int) returns (row: seq<Symbol>)
    requires WellFormed(b) && 0 <= r < b.rows
    ensures |row| == b.columns
    ensures forall k :: 0 <= k < b.columns ==> row[k] == b.grid[r][k]
  {
    row := b.grid[r];
  }

  /** Board::getColumn: one entry per row, top to bottom. */
  method GetColumn(b: Board, c: int) returns (column: seq<Symbol>)
    requires WellFormed(b) && 0 <= c < b.columns
    ensures |column| == b.rows
    ensures forall k :: 0 <= k < b.rows ==> column[k] == b.grid[k][c]
  {
    column := [];
    var i := 0;
    while i < b.rows
      invariant 0 <= i <= b.rows
      invariant |column| == i
      invariant forall k :: 0 <= k < i ==> column[k] == b.grid[k][c]
    {
      column := column + [b.grid[i][c]];
      i := i + 1;
    }
  }

  /** Board::getDiagonal1: cells (i, i) for i below min(rows, columns). */
  method GetDiagonal1(b: Board) returns (diagonal: seq<Symbol>)
    requires WellFormed(b)
    ensures |diagonal| == DiagonalLength(b)
    ensures forall k :: 0 <= k < |diagonal| ==> diagonal[k] == b.grid[k][k]
  {
    diagonal := [];
    var size := DiagonalLength(b);
    var i := 0;
    while i < size
      invariant 0 <= i <= size
      invariant |diagonal| == i
      invariant forall k :: 0 <= k < i ==> diagonal[k] == b.grid[k][k]
    {
      diagonal := diagonal + [b.grid[i][i]];
      i := i + 1;
    }
  }

  /** Board::getDiagonal2: cells (i, columns - 1 - i) for i below
      min(rows, columns). */
  method GetDiagonal2(b: Board) returns (diagonal: seq<Symbol>)
    requires WellFormed(b)
    ensures |diagonal| == DiagonalLength(b)
    ensures forall k :: 0 <= k < |diagonal| ==> diagonal[k] == b.grid[k][b.columns - 1 - k]
  {
    diagonal := [];
    var size := DiagonalLength(b);
    var i := 0;
    while i < size
      invariant 0 <= i <= size
      invariant |diagonal| == i
      invariant forall k :: 0 <= k < i ==> diagonal[k] == b.grid[k][b.columns - 1 - k]
    {
      diagonal := diagonal + [b.grid[i][b.columns - 1 - i]];
      i := i + 1;
    }
  }

  /** Board::isWinningLine: false on an empty line, otherwise whether every
      entry equals the first. */
  method IsWinningLine(line: seq<Symbol>) returns (r: bool)
    ensures r <==> AllSame(line)
  {
    if |line| == 0 {
      return false;
    }
    var first := line[0];
    var k := 0;
    while k < |line|
      invariant 0 <= k <= |line|
      invariant forall m :: 0 <= m < k ==> line[m] == first
    {
      if line[k] != first {
        return false;
      }
      k := k + 1;
    }
    return true;
  }

  /** Board::isFull: a row-by-row scan for an EMPTY cell. */
  method IsFull(b: Board) returns (r: bool)
    requires WellFormed(b)
    ensures r <==> Full(b)
  {
    var i := 0;
    while i < b.rows
      invariant 0 <= i <= b.rows
      invariant forall i', j :: 0 <= i' < i && 0 <= j < b.columns ==> b.grid[i'][j] != Empty
    {
      var j := 0;
      while j < b.columns
        invariant 0 <= j <= b.columns
        invariant forall j' :: 0 <= j' < j ==> b.grid[i][j'] != Empty
      {
        if b.grid[i][j] == Empty {
          return false;
        }
        j := j + 1;
      }
      i := i + 1;
    }
    return true;
  }

  // ---------------------------------------------------------------------
  // Lines before and after a move

  /** A move changes a line at most where it crosses the moved cell, and
      there the entry becomes the placed symbol. */
  lemma LineAfterMove(b: Board, p: Position, s: Symbol, id: LineId)
    requires WellFormed(b) && InBounds(b, p) && ValidLineId(b, id)
    ensures |Line(MakeMove(b, p, s), id)| == |Line(b, id)|
    ensures forall k :: 0 <= k < |Line(b, id)| ==>
      Line(MakeMove(b, p, s), id)[k] == Line(b, id)[k] || Line(MakeMove(b, p, s), id)[k] == s
  {
  }

  /** A line won after a move is either won by the placed symbol or was
      already won before the move. */
  lemma WonAfterMove(b: Board, p: Position, s: Symbol, id: LineId)
    requires WellFormed(b) && InBounds(b, p) && ValidLineId(b, id)
    requires LineWon(Line(MakeMove(b, p, s), id))
    ensures Line(MakeMove(b, p, s), id)[0] == s || LineWon(Line(b, id))
  {
    var before, after := Line(b, id), Line(MakeMove(b, p, s), id);
    LineAfterMove(b, p, s, id);
    if after[0] != s {
      forall k | 0 <= k < |before|
        ensures before[k] == after[k]
      {
        assert after[k] == after[0];
      }
      assert before == after;
    }
  }

  /** The heart of the winner credit: on a board where no line is won, any
      line a move completes is filled with the symbol just placed. So the
      player who moved is the player who owns the winning line. */
  lemma MoveWinsOnlyForMover(b: Board, p: Position, s: Symbol)
    requires WellFormed(b) && InBounds(b, p) && !AnyLineWon(b)
    ensures OnlyWinner(MakeMove(b, p, s), s)
  {
    var b' := MakeMove(b, p, s);
    forall id | ValidLineId(b', id) && LineWon(Line(b', id))
      ensures Line(b', id)[0] == s
    {
      WonAfterMove(b, p, s, id);
    }
  }

  /** A fresh board has no won line and is not full. */
  lemma NewBoardUndecided(rows: int, columns: int)
    requires rows >= 1 && columns >= 1
    ensures !AnyLineWon(NewBoard(rows, columns))
    ensures !Full(NewBoard(rows, columns))
  {
    var b := NewBoard(rows, columns);
    forall id | ValidLineId(b, id)
      ensures !LineWon(Line(b, id))
    {
      assert Line(b, id)[0] == Empty;
    }
    assert b.grid[0][0] == Empty;
  }

  // ---------------------------------------------------------------------
  // Counting cells

  function CountIn(line: seq<Symbol>, t: Symbol): nat {
    if |line| == 0 then 0 else (if line[0] == t then 1 else 0) + CountIn(line[1..], t)
  }

  function CountGrid(g: seq<seq<Symbol>>, t: Symbol): nat {
    if |g| == 0 then 0 else CountIn(g[0], t) + CountGrid(g[1..], t)
  }

  /** The number of cells holding `t`. */
  function Count(b: Board, t: Symbol): nat {
    CountGrid(b.grid, t)
  }

  lemma {:induction false} CountInUpdate(line: seq<Symbol>, j: int, s: Symbol, t: Symbol)
    requires 0 <= j < |line|
    ensures CountIn(line[j := s], t)
      == CountIn(line, t) - (if line[j] == t then 1 else 0) + (if s == t then 1 else 0)
  {
    if j > 0 {
      assert line[j := s][1..] == line[1..][j - 1 := s];
      CountInUpdate(line[1..], j - 1, s, t);
    } else {
      assert line[j := s][1..] == line[1..];
    }
  }

  lemma {:induction false} CountGridUpdate(g: seq<seq<Symbol>>, i: int, row: seq<Symbol>, t: Symbol)
    requires 0 <= i < |g|
    ensures CountGrid(g[i := row], t) == CountGrid(g, t) - CountIn(g[i], t) + CountIn(row, t)
  {
    if i > 0 {
      assert g[i := row][1..] == g[1..][i - 1 := row];
      CountGridUpdate(g[1..], i - 1, row, t);
    } else {
      assert g[i := row][1..] == g[1..];
    }
  }

  /** Board::makeMove in terms of counts: the overwritten symbol loses one
      cell and the placed symbol gains one. */
  lemma MakeMoveCount(b: Board, p: Position, s: Symbol, t: Symbol)
    requires WellFormed(b) && InBounds(b, p)
    ensures Count(MakeMove(b, p, s), t)
      == Count(b, t) - (if Cell(b, p) == t then 1 else 0) + (if s == t then 1 else 0)
  {
    var row := b.grid[p.row];
    CountInUpdate(row, p.col, s, t);
    CountGridUpdate(b.grid, p.row, row[p.col := s], t);
  }

  /** A valid move with a mark fills exactly one EMPTY cell. */
  lemma ValidMoveFillsOneCell(b: Board, p: Position, s: Symbol)
    requires WellFormed(b) && IsValidMove(b, p) && s != Empty
    ensures Count(MakeMove(b, p, s), Empty) == Count(b, Empty) - 1
    ensures Count(MakeMove(b, p, s), s) == Count(b, s) + 1
    ensures forall t | t != s && t != Empty :: Count(MakeMove(b, p, s), t) == Count(b, t)
  {
    MakeMoveCount(b, p, s, Empty);
    MakeMoveCount(b, p, s, s);
    forall t | t != s && t != Empty
      ensures Count(MakeMove(b, p, s), t) == Count(b, t)
    {
      MakeMoveCount(b, p, s, t);
    }
  }

  lemma {:induction false} CountInTotal(line: seq<Symbol>)
    ensures CountIn(line, X) + CountIn(line, O) + CountIn(line, Empty) == |line|
  {
    if |line| > 0 {
      CountInTotal(line[1..]);
    }
  }

  lemma {:induction false} CountGridTotal(g: seq<seq<Symbol>>, width: int)
    requires forall i :: 0 <= i < |g| ==> |g[i]| == width
    ensures CountGrid(g, X) + CountGrid(g, O) + CountGrid(g, Empty) == |g| * width
  {
    if |g| > 0 {
      CountInTotal(g[0]);
      CountGridTotal(g[1..], width);
      assert |g| * width == width + (|g| - 1) * width;
    }
  }

  /** Every cell holds exactly one of the three symbols. */
  lemma CountsCoverBoard(b: Board)
    requires WellFormed(b)
    ensures Count(b, X) + Count(b, O) + Count(b, Empty) == b.rows * b.columns
  {
    CountGridTotal(b.grid, b.columns);
  }

  lemma {:induction false} CountInZero(line: seq<Symbol>, t: Symbol)
    ensures CountIn(line, t) == 0 <==> forall k :: 0 <= k < |line| ==> line[k] != t
  {
    if |line| > 0 {
      CountInZero(line[1..], t);
      assert forall k :: 1 <= k < |line| ==> line[k] == line[1..][k - 1];
    }
  }

  lemma {:induction false} CountGridZero(g: seq<seq<Symbol>>, t: Symbol)
    ensures CountGrid(g, t) == 0 <==>
      forall i, j :: 0 <= i < |g| && 0 <= j < |g[i]| ==> g[i][j] != t
  {
    if |g| > 0 {
      CountInZero(g[0], t);
      CountGridZero(g[1..], t);
      assert forall i :: 1 <= i < |g| ==> g[i] == g[1..][i - 1];
    }
  }

  /** Board::isFull holds exactly when no cell is EMPTY by count. */
  lemma FullIffNoEmptyCell(b: Board)
    requires WellFormed(b)
    ensures Full(b) <==> Count(b, Empty) == 0
  {
    CountGridZero(b.grid, Empty);
  }

  /** A fresh board has rows x columns EMPTY cells and no marks. */
  lemma NewBoardCounts(rows: int, columns: int)
    requires rows >= 1 && columns >= 1
    ensures Count(NewBoard(rows, columns), Empty) == rows * columns
    ensures Count(NewBoard(rows, columns), X) == 0
    ensures Count(NewBoard(rows, columns), O) == 0
  {
    var b := NewBoard(rows, columns);
    CountGridZero(b.grid, X);
    CountGridZero(b.grid, O);
    CountsCoverBoard(b);
  }
}
