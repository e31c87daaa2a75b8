# Tic-tac-toe engine — Dafny model

This project models the engine of the tic-tac-toe game in `01_TicTacToe`, together
with two small lookup helpers of `02_ChessGame`. Each is a pure datatype plus
functions, lemmas and loop-carrying methods:

- **Board** (`board.dfy`, module `Boards`): a `rows x columns` grid of `Symbol`
  (`seq<seq<Symbol>>` with a well-formedness predicate). It covers move validation
  (`IsValidMove`) and move application (`MakeMove`). It also covers the line getters
  `GetRow`, `GetColumn`, `GetDiagonal1` and `GetDiagonal2`, the `isWinningLine` scan
  and the `isFull` scan. The methods follow the source's loops and are proved equal
  to reference definitions (`Line`, `AllSame`, `Full`). Cell counts (`Count`) give
  the turn loop its decreasing measure.
- **checkGameState** (`game_state_check.dfy`, module `GameStateCheck`): scans rows,
  then columns, then the main and the anti-diagonal. On the first line filled with
  one mark it reports a win by the current player to the context. With no such line,
  it reports a draw if the board is full, and otherwise reports nothing. The method
  returns the reports it sent and the line that won.
- **GameContext** (`game_context.dfy`, module `GameContexts`): the outcome
  `InProgress | XWon | OWon | Draw` plus the separate `gameOver` flag. It has
  `next`, `setState` and `isGameOver`.
- **Player** (`player.dfy`, module `Players`): a symbol bound to a strategy. A
  strategy is a function from the board to a position. `SoundStrategy` states the
  promise of the human strategy's retry loop: on any board with an EMPTY cell left,
  the move it returns passes `isValidMove`.
- **TicTacToeGame** (`tic_tac_toe_game.dfy`, module `TicTacToeGames`): the
  constructor, `switchPlayer`, and the `play` loop. Each turn asks the current
  player's strategy for a move, applies it with the player's symbol, runs
  checkGameState and switches player, until the context reports game over. The
  `currentPlayer` pointer becomes a `Seat` (`SeatX | SeatO`).
- **Position** (`position.dfy`) and **Symbol** (`symbol.dfy`): value equality, copy
  and assignment, and the string and character renderings. The two-argument
  `Position` constructor is the datatype constructor, which stores both
  coordinates as given.
- **Color** and **PieceType** (`color.dfy`, `piece_type.dfy`): `opposite`,
  `toString`, `getSymbol` and `getValue`.
- `scenarios.dfy` works the line scan out on concrete boards: the classic draw, a
  top-row win, two rejected moves, and a partial diagonal on a non-square board.

The main property is the winner credit. checkGameState credits a win to the
*current player*, not to the symbol on the winning line. These agree because no
line was won before the move, so any newly won line is filled with the symbol just
placed (`Boards.MoveWinsOnlyForMover`). `TicTacToeGames.Play` proves that a fresh
game with sound strategies has these properties:

- it ends within `rows * columns` turns;
- the context is told exactly once;
- every move is the answer of the strategy of the player to move, and was valid
  when played;
- the marks alternate, X first, so `#X - #O` is 0 or 1;
- the game was undecided after every earlier move;
- the final outcome agrees with the final board, and a win goes to the last mover.

Three facts about the code shape the model:

- `next` has no guard against leaving a terminal state: its result does not
  depend on the context it is applied to (`GameContexts.NextIgnoresPriorContext`).
  The loop simply stops calling it once the game is over (`Play`'s
  `|reports| == 1`).
- `play` applies a strategy's move without validating it, so `Play` requires
  sound strategies.
- Diagonals are taken over `min(rows, columns)` cells on every board, square or
  not (`Scenarios.PartialDiagonalWinsOnNonSquareBoard`).

## Model

| member | source | states |
|---|---|---|
| `Symbols.SymbolToString` | 01_TicTacToe/CommonEnum/Symbol.cpp:6-17 | X, O and EMPTY are named "X", "O" and "EMPTY", each name belonging to exactly one symbol |
| `Symbols.SymbolToChar` | 01_TicTacToe/CommonEnum/Symbol.cpp:19-30 | X, O and EMPTY render as 'X', 'O' and '.', each character belonging to exactly one symbol |
| `Symbols.SymbolToCharInjective` | 01_TicTacToe/CommonEnum/Symbol.cpp:19-30 | distinct symbols render to distinct characters |
| `Symbols.SymbolToStringInjective` | 01_TicTacToe/CommonEnum/Symbol.cpp:6-17 | distinct symbols have distinct names |
| `Symbols.StringAgreesWithChar` | 01_TicTacToe/CommonEnum/Symbol.cpp:6-30 | the name of a symbol is the one-character string of its rendering exactly for X and O |
| `Positions.Equals` | 01_TicTacToe/Utility/Position.cpp:17-19 | coordinate-wise comparison coincides with value equality |
| `Positions.NotEquals` | 01_TicTacToe/Utility/Position.cpp:21-23 | `!=` is the negation of `==` |
| `Positions.Copy` | 01_TicTacToe/Utility/Position.cpp:7 | a copy compares equal to its original |
| `Positions.Assign` | 01_TicTacToe/Utility/Position.cpp:9-15 | after assignment the target equals the source; assigning a position to itself leaves it unchanged (the address test has no counterpart for a value) |
| `Positions.EqualsIsEquivalence` | 01_TicTacToe/Utility/Position.cpp:17-19 | `==` is reflexive, symmetric and transitive |
| `Colors.ToString` | 02_ChessGame/CommonEnum/Color.cpp:4-10 | White and Black are named "White" and "Black", each name belonging to one colour |
| `Colors.Opposite` | 02_ChessGame/CommonEnum/Color.cpp:12-14 | the opposite colour differs from the given one |
| `Colors.OppositeIsInvolution` | 02_ChessGame/CommonEnum/Color.cpp:12-14 | the opposite of the opposite is the colour itself |
| `Colors.ToStringInjective` | 02_ChessGame/CommonEnum/Color.cpp:4-10 | the two colour names are distinct |
| `PieceTypes.ToString` | 02_ChessGame/CommonEnum/PieceType.cpp:4-14 | each piece kind has its own name: "King", "Queen", "Rook", "Bishop", "Knight", "Pawn" |
| `PieceTypes.GetSymbol` | 02_ChessGame/CommonEnum/PieceType.cpp:16-26 | pawn, rook, knight, bishop, queen and king have letters P, R, N, B, Q and K, each letter belonging to one kind |
| `PieceTypes.GetValue` | 02_ChessGame/CommonEnum/PieceType.cpp:28-38 | values lie in 0..9; 9 is the queen's alone and 0 the king's alone; pawn 1, knight and bishop 3, rook 5 |
| `PieceTypes.GetSymbolInjective` | 02_ChessGame/CommonEnum/PieceType.cpp:16-26 | distinct kinds have distinct letters |
| `PieceTypes.ToStringInjective` | 02_ChessGame/CommonEnum/PieceType.cpp:4-14 | distinct kinds have distinct names |
| `PieceTypes.QueenHasMaximalValue` | 02_ChessGame/CommonEnum/PieceType.cpp:28-38 | no piece is worth more than the queen |
| `PieceTypes.GetValueNotInjective` | 02_ChessGame/CommonEnum/PieceType.cpp:32-33 | knight and bishop are different kinds of equal value |
| `PieceTypes.SymbolIsInitialExceptKnight` | 02_ChessGame/CommonEnum/PieceType.cpp:4-26 | the letter is the initial of the name exactly for every kind but the knight |
| `Boards.NewBoard` | 01_TicTacToe/Utility/Board.cpp:10-12 | a new board has the requested dimensions and every cell in it is EMPTY |
| `Boards.NewBoardCounts` | 01_TicTacToe/Utility/Board.cpp:10-12 | a new board has rows x columns EMPTY cells and no marks |
| `Boards.NewBoardUndecided` | 01_TicTacToe/Utility/Board.cpp:10-12 | on a new board no line is won and the board is not full |
| `Boards.IsValidMove` | 01_TicTacToe/Utility/Board.cpp:14-18 | a move is valid exactly when it lies inside the grid on an EMPTY cell |
| `Boards.MakeMove` | 01_TicTacToe/Utility/Board.cpp:20-22 | the move sets cell p to the symbol and leaves every other cell and both dimensions unchanged |
| `Boards.MoveOccupiesCell` | 01_TicTacToe/Utility/Board.cpp:14-22 | after a mark is placed, its cell is no longer a valid move and every other position keeps its validity |
| `Boards.MakeMoveCount` | 01_TicTacToe/Utility/Board.cpp:20-22 | the overwritten symbol loses one cell and the placed symbol gains one |
| `Boards.ValidMoveFillsOneCell` | 01_TicTacToe/Utility/Board.cpp:14-22 | a valid move with a mark lowers the EMPTY count by one, raises that mark's count by one and leaves the other mark's count alone |
| `Boards.FullIffNoEmptyCell` | 01_TicTacToe/Utility/Board.cpp:101-110 | the board is full exactly when its EMPTY count is zero |
| `Boards.GetRow` | 01_TicTacToe/Utility/Board.cpp:71-73 | the row has `columns` entries, entry k being cell (r, k) |
| `Boards.GetColumn` | 01_TicTacToe/Utility/Board.cpp:75-81 | the column has `rows` entries, entry k being cell (k, c) |
| `Boards.GetDiagonal1` | 01_TicTacToe/Utility/Board.cpp:83-90 | the main diagonal has min(rows, columns) entries, entry k being cell (k, k) |
| `Boards.GetDiagonal2` | 01_TicTacToe/Utility/Board.cpp:92-99 | the anti-diagonal has min(rows, columns) entries, entry k being cell (k, columns - 1 - k) |
| `Boards.IsWinningLine` | 01_TicTacToe/Utility/Board.cpp:63-69 | true exactly for a non-empty line whose entries all equal the first |
| `Boards.IsFull` | 01_TicTacToe/Utility/Board.cpp:101-110 | true exactly when no cell of the grid is EMPTY |
| `Boards.MoveWinsOnlyForMover` | 01_TicTacToe/Utility/Board.cpp:26-55 | on a board with no won line, every line won after a move is filled with the symbol just placed |
| `GameStateCheck.CheckGameState` | 01_TicTacToe/Utility/Board.cpp:24-61 | reports one win exactly when some row, column or diagonal is filled with one mark, and returns the first such line in row, column, diagonal order; otherwise reports one draw exactly when the board is full, else nothing; the context is changed only by these reports |
| `GameContexts.NewContext` | 01_TicTacToe/GameStateHandler/Context/GameContext.cpp:13-15 | a fresh context is InProgress and not over |
| `GameContexts.IsGameOver` | 01_TicTacToe/GameStateHandler/Context/GameContext.hpp:24 | reports the game-over flag: on a consistent context it holds exactly when the outcome is not InProgress, and on a context left stale by `setState` exactly when it is |
| `GameContexts.Next` | 01_TicTacToe/GameStateHandler/Context/GameContext.cpp:17-30 | afterwards the game is over; a win goes to X exactly when the player's symbol is X and to O for any other symbol; a non-win gives Draw |
| `GameContexts.SetState` | 01_TicTacToe/GameStateHandler/Context/GameContext.cpp:32-34 | replaces the state and keeps the game-over flag as it was |
| `GameContexts.ConstructorAndNextAreConsistent` | 01_TicTacToe/GameStateHandler/Context/GameContext.cpp:13-30 | the constructor and `next` leave the flag equal to "state is not InProgress" |
| `GameContexts.SetStateBreaksConsistency` | 01_TicTacToe/GameStateHandler/Context/GameContext.cpp:32-34 | `setState` can leave a terminal state flagged as not over, so `isGameOver` reports a won game as still running |
| `GameContexts.NextIgnoresPriorContext` | 01_TicTacToe/GameStateHandler/Context/GameContext.cpp:17-30 | `next` gives the same context whatever context it is applied to, terminal ones included |
| `GameContexts.NextOverwritesTerminalState` | 01_TicTacToe/GameStateHandler/Context/GameContext.cpp:17-30 | `next` replaces a terminal outcome by another one |
| `TicTacToeGames.NewGame` | 01_TicTacToe/Controller/GameController/TicTacToeGame.cpp:14-22 | X is bound to the first strategy and O to the second; X is to move; the board is empty and the context fresh |
| `TicTacToeGames.SwitchPlayer` | 01_TicTacToe/Controller/GameController/TicTacToeGame.cpp:42-44 | the current player always changes, and nothing else does |
| `TicTacToeGames.SwitchPlayerTwice` | 01_TicTacToe/Controller/GameController/TicTacToeGame.cpp:42-44 | switching twice restores the current player |
| `TicTacToeGames.SeatAlternates` | 01_TicTacToe/Controller/GameController/TicTacToeGame.cpp:42-44 | `switchPlayer` after move k hands the turn to the seat of move k + 1; the current player is the mover of move k, and plays X exactly when k is even |
| `TicTacToeGames.PlayedAtStart` | 01_TicTacToe/Controller/GameController/TicTacToeGame.cpp:14-22 | the freshly constructed game is undecided, has no marks on it, and every one of its rows x columns cells is EMPTY |
| `TicTacToeGames.TracedStep` | 01_TicTacToe/Controller/GameController/TicTacToeGame.cpp:30-31 | a valid move on an undecided board extends the record of play: every move valid on the board it was made on, marks alternating X first |
| `TicTacToeGames.MarkedStep` | 01_TicTacToe/Controller/GameController/TicTacToeGame.cpp:30-31 | a valid move keeps every earlier mark in its cell, adds the mover's, and leaves one EMPTY cell fewer, so #X is ceil(n/2) and #O is floor(n/2) after n moves |
| `TicTacToeGames.TraceEmptyCount` | 01_TicTacToe/Controller/GameController/TicTacToeGame.cpp:30-31 | the board before move k has k EMPTY cells fewer than the fresh board |
| `TicTacToeGames.TraceBoardsDistinct` | 01_TicTacToe/Controller/GameController/TicTacToeGame.cpp:25-37 | the boards a game passes through are pairwise distinct, so no board is shown to a strategy twice |
| `TicTacToeGames.TurnKeepsProgress` | 01_TicTacToe/Controller/GameController/TicTacToeGame.cpp:29-36 | the current player's strategy's answer, made with the player's mark and reported by checkGameState, followed by switchPlayer, extends the record of play by one move and uses up one EMPTY cell |
| `TicTacToeGames.Turn` | 01_TicTacToe/Controller/GameController/TicTacToeGame.cpp:29-36 | one pass of the loop plays the current player's strategy's answer on the board, keeps the record of play, switches player, tells the context only when the game is decided, and uses up one EMPTY cell |
| `TicTacToeGames.TurnOutcome` | 01_TicTacToe/Controller/GameController/TicTacToeGame.cpp:30-34 | after a move on an undecided board, the outcome checkGameState records agrees with the board and credits a win to the mover |
| `TicTacToeGames.Play` | 01_TicTacToe/Controller/GameController/TicTacToeGame.cpp:24-37 | with sound strategies the loop ends within rows x columns turns in a terminal outcome; the context is told once; move k is the answer of the strategy of the player to move on the board before it; moves alternate X first; no board is shown to a strategy twice; it stops exactly when the game is decided; a win goes to the last mover, whose mark fills every won line |
| `Scenarios.ClassicDrawHasNoWinner` | 01_TicTacToe/Utility/Board.cpp:57-60 | X O X / X O O / O X X is full with no won line, so it is a draw |
| `Scenarios.TopRowWinsForX` | 01_TicTacToe/Utility/Board.cpp:26-33 | a top row of X is a won line, the first one scanned, and no line is won by O |
| `Scenarios.InvalidMovesOnThreeByThree` | 01_TicTacToe/Utility/Board.cpp:14-18 | (3, 0) is outside a 3 x 3 board and a marked cell is not a valid move |
| `Scenarios.PartialDiagonalWinsOnNonSquareBoard` | 01_TicTacToe/Utility/Board.cpp:83-90 | on a 2 x 3 board, two X on the two-cell main diagonal already win |

## Left out

- Console output: `Board::printBoard`, `announceResult`, the `handle` methods of the
  four state classes, and the board print at the top of each turn of `play`. None of
  them changes engine state.
- `HumanPlayerStrategy::makeMove` reads standard input. Strategies are functions
  from the board to a position, and `Players.SoundStrategy` states what its retry
  loop guarantees. No board is shown twice in one game
  (`TicTacToeGames.TraceBoardsDistinct`), so whatever answers a strategy with memory
  or input gives in one game are those of some function, and the guarantees of
  `Play` cover that game. The human strategy's console dialogue is not modelled.
- `main.cpp` (process wiring), shared-pointer ownership, and virtual dispatch over
  the state and strategy classes.
- `TicTacToeGames.Play`: assumes a strategy does not modify the board it is shown.
  The strategy receives the game's own board through a const shared pointer to a
  non-const `Board` (`PlayerStrategy.hpp:16`, `TicTacToeGame.cpp:30`), so a strategy
  could call `makeMove` on it before answering. Strategies here are pure functions
  of the board. The board each move is applied to, the mark counts and the
  `rows * columns` bound all rest on this. The only strategy in the source reads
  the board only through the const `isValidMove` (`HumanPlayerStrategy.cpp:20`).
- `TicTacToeGames.Play` requires a freshly constructed game. Calling `play` a
  second time on a finished game is not modelled.
- The do-while of `play` is a while loop that tests the context first. A fresh
  context is not over, so the first turn always runs, as in the source.
- The `default` branches returning "UNKNOWN", '?', "Unknown" or 0 cannot be reached
  with a complete enumeration of the symbol, colour and piece kinds.
- Integer width: positions and dimensions are unbounded integers. The source does
  no arithmetic on positions, and `columns - 1 - i` stays in range for every valid
  board.
- Boards with a zero or negative dimension: the constructor would accept zero, but
  checkGameState then reads index 0 of an empty row, column or diagonal. The model
  requires both dimensions to be at least 1.
- `02_ChessGame/Utility/Position.hpp`, `include/config.hpp`,
  `03_SnakeGame/Command.hpp` and `Controller/BoardGames.hpp` hold declarations only
  and are not part of this model.
