/** Concrete boards on which the line scan of Board::checkGameState
    (01_TicTacToe/Utility/Board.cpp) and Board::isValidMove are worked out. */
module Scenarios {

  import opened Symbols
  import opened Positions
  import opened Boards

  /** X O X / X O O / O X X: full, and no line is filled with one mark. */
  lemma ClassicDrawHasNoWinner()
    ensures WellFormed(Board(3, 3, [[X, O, X], [X, O, O], [O, X, X]]))
    ensures !AnyLineWon(Board(3, 3, [[X, O, X], [X, O, O], [O, X, X]]))
    ensures Full(Board(3, 3, [[X, O, X], [X, O, O], [O, X, X]]))
  {
    var b := Board(3, 3, [[X, O, X], [X, O, O], [O, X, X]]);
    forall id | ValidLineId(b, id)
      ensures !LineWon(Line(b, id))
    {
      match id
      case RowLine(r) =>
        assert Line(b, id)[1] != Line(b, id)[0];
      case ColumnLine(c) =>
        assert Line(b, id)[1] != Line(b, id)[0] || Line(b, id)[2] != Line(b, id)[0];
      case MainDiagonal =>
        assert Line(b, id)[1] != Line(b, id)[0];
      case AntiDiagonal =>
        assert Line(b, id)[1] != Line(b, id)[0];
    }
  }

  /** X X X / O O . / . . .: the top row is won by X, it is the first line
      the scan reaches, and no line is won by O. */
  lemma TopRowWinsForX()
    ensures WellFormed(Board(3, 3, [[X, X, X], [O, O, Empty], [Empty, Empty, Empty]]))
    ensures LineWon(Line(Board(3, 3, [[X, X, X], [O, O, Empty], [Empty, Empty, Empty]]), RowLine(0)))
    ensures Rank(Board(3, 3, [[X, X, X], [O, O, Empty], [Empty, Empty, Empty]]), RowLine(0)) == 0
    ensures OnlyWinner(Board(3, 3, [[X, X, X], [O, O, Empty], [Empty, Empty, Empty]]), X)
  {
    var b := Board(3, 3, [[X, X, X], [O, O, Empty], [Empty, Empty, Empty]]);
    forall id | ValidLineId(b, id)
      ensures LineWon(Line(b, id)) ==> Line(b, id)[0] == X
    {
      match id
      case RowLine(r) =>
        assert r == 0 || Line(b, id)[2] == Empty;
      case ColumnLine(c) =>
        assert Line(b, id)[2] == Empty;
      case MainDiagonal =>
        assert Line(b, id)[2] == Empty;
      case AntiDiagonal =>
        assert Line(b, id)[2] == Empty;
    }
  }

  /** Row 3 of a 3 x 3 board is outside it, and a marked cell is taken. */
  lemma InvalidMovesOnThreeByThree()
    ensures !IsValidMove(NewBoard(3, 3), Position(3, 0))
    ensures !IsValidMove(MakeMove(NewBoard(3, 3), Position(1, 1), X), Position(1, 1))
    ensures IsValidMove(MakeMove(NewBoard(3, 3), Position(1, 1), X), Position(0, 0))
  {
  }

  /** On a 2 x 3 board the diagonals have min(2, 3) = 2 cells, so X at (0, 0)
      and (1, 1) already wins, although no full-length diagonal exists. */
  lemma PartialDiagonalWinsOnNonSquareBoard()
    ensures WellFormed(Board(2, 3, [[X, O, Empty], [Empty, X, Empty]]))
    ensures DiagonalLength(Board(2, 3, [[X, O, Empty], [Empty, X, Empty]])) == 2
    ensures AnyLineWon(Board(2, 3, [[X, O, Empty], [Empty, X, Empty]]))
  {
    var b := Board(2, 3, [[X, O, Empty], [Empty, X, Empty]]);
    assert Line(b, MainDiagonal) == [X, X];
    assert ValidLineId(b, MainDiagonal) && LineWon(Line(b, MainDiagonal));
  }
}
