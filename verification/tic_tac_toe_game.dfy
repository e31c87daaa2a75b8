/** The game controller (01_TicTacToe/Controller/GameController/TicTacToeGame.cpp):
    owns the board, the two players and the context, and runs the turn loop.
    The source's `currentPlayer` pointer, which always points at one of the
    two player objects, is modelled by the Seat it points at. */
module TicTacToeGames {

  import opened Symbols
  import opened Positions
  import opened Boards
  import opened Players
  import opened GameContexts
  import opened GameStateCheck

  datatype Seat = SeatX | SeatO

  datatype Game = Game(board: Board, playerX: Player, playerO: Player, current: Seat, context: GameContext)

  /** The state TicTacToeGame::TicTacToeGame leaves behind. */
  predicate IsNewGame(g: Game) {
    && g.board.rows >= 1 && g.board.columns >= 1
    && g.board == NewBoard(g.board.rows, g.board.columns)
    && g.playerX.symbol == X
    && g.playerO.symbol == O
    && g.current == SeatX
    && g.context == NewContext()
  }

  /** TicTacToeGame::TicTacToeGame: an empty board, X bound to the first
      strategy and O to the second, X to move, a fresh context. */
  function NewGame(xStrategy: Strategy, oStrategy: Strategy, rows: int, columns: int): (g: Game)
    requires rows >= 1 && columns >= 1
    ensures IsNewGame(g)
    ensures g.board.rows == rows && g.board.columns == columns
    ensures g.playerX.strategy == xStrategy && g.playerO.strategy == oStrategy
  {
    Game(NewBoard(rows, columns), Player(X, xStrategy), Player(O, oStrategy), SeatX, NewContext())
  }

  function CurrentPlayer(g: Game): Player {
    if g.current == SeatX then g.playerX else g.playerO
  }

  /** TicTacToeGame::switchPlayer: the pointer moves to the other player;
      nothing else changes. */
  function SwitchPlayer(g: Game): (g': Game)
    ensures g'.current != g.current
    ensures g'.board == g.board && g'.context == g.context
    ensures g'.playerX == g.playerX && g'.playerO == g.playerO
  {
    g.(current := if g.current == SeatX then SeatO else SeatX)
  }

  lemma SwitchPlayerTwice(g: Game)
    ensures SwitchPlayer(SwitchPlayer(g)).current == g.current
    ensures CurrentPlayer(SwitchPlayer(SwitchPlayer(g))) == CurrentPlayer(g)
  {
  }

  /** The symbol of the k-th move, counting from 0: X moves first. */
  function MoverSymbol(k: nat): Symbol {
    if k % 2 == 0 then X else O
  }

  /** The seat that is to move after k moves. */
  function SeatAfter(k: nat): Seat {
    if k % 2 == 0 then SeatX else SeatO
  }

  /** The player who makes the k-th move: the one in the seat that is to
      move after k moves. */
  function MoverAt(g: Game, k: nat): Player {
    CurrentPlayer(g.(current := SeatAfter(k)))
  }

  /** switchPlayer after the k-th move hands the turn to the seat of move
      k + 1, and the player in the seat of move k plays the k-th mark. */
  lemma SeatAlternates(g: Game, k: nat)
    ensures g.current == SeatAfter(k) ==> SwitchPlayer(g).current == SeatAfter(k + 1)
    ensures g.current == SeatAfter(k) ==> CurrentPlayer(g) == MoverAt(g, k)
    ensures g.playerX.symbol == X && g.playerO.symbol == O ==> MoverAt(g, k).symbol == MoverSymbol(k)
  {
  }

  /** No line is won and an EMPTY cell is left. */
  ghost predicate Undecided(b: Board)
    requires WellFormed(b)
  {
    !AnyLineWon(b) && !Full(b)
  }

  /** The outcome a context records agrees with the board it was computed on:
      a win is credited to the symbol that fills every won line. */
  ghost predicate OutcomeAgrees(b: Board, o: Outcome)
    requires WellFormed(b)
  {
    match o
    case InProgress => Undecided(b)
    case XWon => AnyLineWon(b) && OnlyWinner(b, X)
    case OWon => AnyLineWon(b) && OnlyWinner(b, O)
    case Draw => !AnyLineWon(b) && Full(b)
  }

  /** Boards of the same dimensions as the game's. */
  predicate SameShape(b: Board, g: Game) {
    WellFormed(b) && b.rows == g.board.rows && b.columns == g.board.columns
  }

  /** Move k of a record of play from `g` was the answer of the strategy of
      the player to move on the board before it, was valid on that board, and
      turned it into the next one with the mark of its turn. */
  ghost predicate MoveRecorded(g: Game, trace: seq<Board>, history: seq<Position>, k: int) {
    && 0 <= k < |history| && |trace| == |history| + 1
    && WellFormed(trace[k])
    && history[k] == MoverAt(g, k).strategy(trace[k])
    && IsValidMove(trace[k], history[k])
    && trace[k + 1] == MakeMove(trace[k], history[k], MoverSymbol(k))
  }

  /** A record of play from the fresh board of `g`: `trace[k]` is the board
      before move k and `trace[|history|]` the board after the last move.
      Every move was the answer of the strategy of the player to move on the
      board before it, was valid on that board and wrote the mark of its
      turn, X first, and the game was undecided after every move but the
      last. */
  ghost predicate Traced(g: Game, trace: seq<Board>, history: seq<Position>) {
    && |trace| == |history| + 1
    && trace[0] == g.board
    && (forall k :: 0 <= k < |trace| ==>
          WellFormed(trace[k]) && trace[k].rows == g.board.rows && trace[k].columns == g.board.columns)
    && (forall k :: 0 <= k < |history| ==> MoveRecorded(g, trace, history, k))
    && (forall j :: 1 <= j < |history| ==> Undecided(trace[j]))
  }

  /** What `board` shows after the moves in `history`: every move's mark is
      still in its cell, and the counts of the marks follow from the
      alternation, one EMPTY cell fewer per move. */
  ghost predicate Marked(g: Game, board: Board, history: seq<Position>) {
    && SameShape(board, g)
    && (forall k :: 0 <= k < |history| ==>
          InBounds(g.board, history[k]) && Cell(board, history[k]) == MoverSymbol(k))
    && Count(board, X) == (|history| + 1) / 2
    && Count(board, O) == |history| / 2
    && Count(board, Empty) == g.board.rows * g.board.columns - |history|
  }

  lemma PlayedAtStart(g: Game)
    requires IsNewGame(g)
    ensures Traced(g, [g.board], [])
    ensures Marked(g, g.board, [])
    ensures Undecided(g.board)
  {
    NewBoardCounts(g.board.rows, g.board.columns);
    NewBoardUndecided(g.board.rows, g.board.columns);
  }

  /** One more turn extends the trace: the mover's strategy puts the mover's
      mark on an EMPTY cell of an undecided board. */
  lemma TracedStep(g: Game, trace: seq<Board>, history: seq<Position>, move: Position)
    requires Traced(g, trace, history)
    requires move == MoverAt(g, |history|).strategy(trace[|history|])
    requires Undecided(trace[|history|]) && IsValidMove(trace[|history|], move)
    ensures Traced(g, trace + [MakeMove(trace[|history|], move, MoverSymbol(|history|))], history + [move])
  {
    var n := |history|;
    var trace' := trace + [MakeMove(trace[n], move, MoverSymbol(n))];
    var history' := history + [move];
    forall k | 0 <= k < |trace'|
      ensures WellFormed(trace'[k]) && trace'[k].rows == g.board.rows && trace'[k].columns == g.board.columns
    {
      if k < n + 1 {
        assert trace'[k] == trace[k];
      }
    }
    forall k | 0 <= k < |history'|
      ensures MoveRecorded(g, trace', history', k)
    {
      assert trace'[k] == trace[k];
      if k < n {
        assert MoveRecorded(g, trace, history, k);
        assert history'[k] == history[k] && trace'[k + 1] == trace[k + 1];
      }
    }
    forall j | 1 <= j < |history'|
      ensures Undecided(trace'[j])
    {
      assert trace'[j] == trace[j];
    }
  }

  /** One more turn keeps every earlier mark and moves the counts by one. */
  lemma MarkedStep(g: Game, board: Board, history: seq<Position>, move: Position)
    requires Marked(g, board, history) && IsValidMove(board, move)
    ensures Marked(g, MakeMove(board, move, MoverSymbol(|history|)), history + [move])
  {
    var s := MoverSymbol(|history|);
    var board' := MakeMove(board, move, s);
    var history' := history + [move];
    forall k | 0 <= k < |history'|
      ensures InBounds(g.board, history'[k])
      ensures Cell(board', history'[k]) == MoverSymbol(k)
    {
      if k < |history| {
        assert history'[k] == history[k];
        assert Cell(board, history[k]) != Empty;
        assert history[k] != move;
      }
    }
    ValidMoveFillsOneCell(board, move, s);
    CountsCoverBoard(board);
  }

  /** Along a record of play, move k leaves k fewer EMPTY cells than the
      fresh board had. */
  lemma {:induction false} TraceEmptyCount(g: Game, trace: seq<Board>, history: seq<Position>, k: nat)
    requires Traced(g, trace, history) && k < |trace|
    ensures Count(trace[k], Empty) == Count(g.board, Empty) - k
    decreases k
  {
    if k > 0 {
      TraceEmptyCount(g, trace, history, k - 1);
      assert MoveRecorded(g, trace, history, k - 1);
      ValidMoveFillsOneCell(trace[k - 1], history[k - 1], MoverSymbol(k - 1));
    }
  }

  /** No board is shown to a strategy twice in one game, so a strategy that
      answers the same board differently at different times still plays
      each single game like some function of the board. */
  lemma TraceBoardsDistinct(g: Game, trace: seq<Board>, history: seq<Position>)
    requires Traced(g, trace, history)
    ensures forall i, j :: 0 <= i < j < |trace| ==> trace[i] != trace[j]
  {
    forall i, j | 0 <= i < j < |trace|
      ensures trace[i] != trace[j]
    {
      TraceEmptyCount(g, trace, history, i);
      TraceEmptyCount(g, trace, history, j);
    }
  }

  /** One turn on an undecided board: whatever checkGameState then reports
      agrees with the new board, and a win goes to the mover. */
  lemma TurnOutcome(b: Board, p: Position, s: Symbol, ctx: GameContext, player: Player,
                    reports: seq<bool>, ctx': GameContext)
    requires WellFormed(b) && Undecided(b) && IsValidMove(b, p)
    requires s == X || s == O
    requires player.symbol == s && ctx == NewContext()
    requires reports == (if AnyLineWon(MakeMove(b, p, s)) then [true]
                         else if Full(MakeMove(b, p, s)) then [false] else [])
    requires ctx' == (if reports == [] then ctx else Next(ctx, player, reports[0]))
    ensures OutcomeAgrees(MakeMove(b, p, s), ctx'.state)
    ensures Consistent(ctx')
    ensures IsGameOver(ctx') <==> |reports| == 1
    ensures !IsGameOver(ctx') ==> reports == [] && ctx' == ctx
    ensures ctx'.state == XWon ==> s == X
    ensures ctx'.state == OWon ==> s == O
  {
    MoveWinsOnlyForMover(b, p, s);
  }

  /** What holds of the loop in TicTacToeGame::play between turns: the record
      of play so far, whose turn it is, and what the context has been told. */
  ghost predicate Progress(g: Game, trace: seq<Board>, history: seq<Position>, game: Game, reports: seq<bool>) {
    && Traced(g, trace, history) && game.board == trace[|history|]
    && Marked(g, game.board, history)
    && game.playerX == g.playerX && game.playerO == g.playerO
    && game.current == SeatAfter(|history|)
    && Consistent(game.context) && OutcomeAgrees(game.board, game.context.state)
    && (!IsGameOver(game.context) ==> game.context == NewContext() && reports == [])
    && (IsGameOver(game.context) ==> |history| >= 1 && |reports| == 1)
    && (game.context.state == XWon ==> MoverSymbol(|history| - 1) == X)
    && (game.context.state == OWon ==> MoverSymbol(|history| - 1) == O)
  }

  /** The loop body of TicTacToeGame::play keeps Progress: the current
      player's strategy answers on the board, the move is made with the
      player's symbol, checkGameState's report goes to the context, and
      switchPlayer passes the turn. */
  lemma TurnKeepsProgress(g: Game, trace: seq<Board>, history: seq<Position>, game: Game, reports: seq<bool>,
                          move: Position, sent: seq<bool>, ctx: GameContext)
    requires SoundStrategy(g.playerX.strategy) && SoundStrategy(g.playerO.strategy)
    requires g.playerX.symbol == X && g.playerO.symbol == O
    requires Progress(g, trace, history, game, reports) && !IsGameOver(game.context)
    requires move == CurrentPlayer(game).strategy(game.board)
    requires IsValidMove(game.board, move)
    requires var after := MakeMove(game.board, move, CurrentPlayer(game).symbol);
      && sent == (if AnyLineWon(after) then [true] else if Full(after) then [false] else [])
      && ctx == (if sent == [] then game.context else Next(game.context, CurrentPlayer(game), sent[0]))
    ensures var after := MakeMove(game.board, move, CurrentPlayer(game).symbol);
      && Progress(g, trace + [after], history + [move], SwitchPlayer(game.(board := after, context := ctx)), reports + sent)
      && Count(after, Empty) == Count(game.board, Empty) - 1
  {
    var player := CurrentPlayer(game);
    SeatAlternates(game, |history|);
    TracedStep(g, trace, history, move);
    MarkedStep(g, game.board, history, move);
    TurnOutcome(game.board, move, player.symbol, game.context, player, sent, ctx);
  }

  /** One pass of the loop body of TicTacToeGame::play: the current player's
      strategy picks a move, the move is made with the player's symbol,
      checkGameState reports to the context, and switchPlayer passes the
      turn. */
  method Turn(g: Game, trace: seq<Board>, history: seq<Position>, game: Game, reports: seq<bool>)
    returns (trace': seq<Board>, history': seq<Position>, game': Game, reports': seq<bool>)
    requires SoundStrategy(g.playerX.strategy) && SoundStrategy(g.playerO.strategy)
    requires g.playerX.symbol == X && g.playerO.symbol == O
    requires Progress(g, trace, history, game, reports)
    requires !IsGameOver(game.context)
    ensures Progress(g, trace', history', game', reports')
    ensures history' == history + [CurrentPlayer(game).strategy(game.board)]
    ensures trace'[..|trace|] == trace
    ensures reports'[..|reports|] == reports
    ensures game'.current != game.current
    ensures Count(game'.board, Empty) == Count(game.board, Empty) - 1
  {
    var player := CurrentPlayer(game);
    var move := player.strategy(game.board);
    assert IsValidMove(game.board, move);
    var board := MakeMove(game.board, move, player.symbol);
    history' := history + [move];
    trace' := trace + [board];

    var ctx, sent, hit := CheckGameState(board, game.context, player);
    TurnKeepsProgress(g, trace, history, game, reports, move, sent, ctx);
    reports' := reports + sent;
    game' := SwitchPlayer(game.(board := board, context := ctx));
  }

  /** TicTacToeGame::play on a freshly constructed game whose strategies are
      sound. Each turn asks the current player's strategy for a move, applies
      it with the player's symbol, lets checkGameState report to the context,
      and switches player; the loop stops once the context says the game is
      over. Besides the final game, returns the moves in the order played, the
      board before each move and after the last, and the reports sent to the
      context. */
  method Play(g: Game) returns (final: Game, history: seq<Position>, trace: seq<Board>, reports: seq<bool>)
    requires IsNewGame(g)
    requires SoundStrategy(g.playerX.strategy) && SoundStrategy(g.playerO.strategy)
    ensures final.playerX == g.playerX && final.playerO == g.playerO
    ensures SameShape(final.board, g)
    // the game ends within rows x columns turns, in a terminal outcome
    ensures 1 <= |history| <= g.board.rows * g.board.columns
    ensures IsGameOver(final.context) && final.context.state != InProgress
    // the context is told exactly once
    ensures |reports| == 1
    // the boards of the game: each move was the answer of the strategy of
    // the player to move on the board before it, was valid there, and placed
    // the mark of its turn, X first
    ensures |trace| == |history| + 1 && trace[0] == g.board && final.board == trace[|history|]
    ensures forall k :: 0 <= k < |trace| ==>
      WellFormed(trace[k]) && trace[k].rows == g.board.rows && trace[k].columns == g.board.columns
    ensures forall k :: 0 <= k < |history| ==> MoveRecorded(g, trace, history, k)
    // no board is shown twice
    ensures forall i, j :: 0 <= i < j < |trace| ==> trace[i] != trace[j]
    // every mark is still on the final board, and #X - #O is 0 or 1
    ensures forall k :: 0 <= k < |history| ==>
      InBounds(final.board, history[k]) && Cell(final.board, history[k]) == MoverSymbol(k)
    ensures Count(final.board, X) == (|history| + 1) / 2 && Count(final.board, O) == |history| / 2
    ensures 0 <= Count(final.board, X) - Count(final.board, O) <= 1
    // the loop stops exactly when the game is decided
    ensures forall j :: 1 <= j < |history| ==> Undecided(trace[j])
    ensures OutcomeAgrees(final.board, final.context.state)
    // a win is credited to the player who made the last move
    ensures final.context.state == XWon ==> MoverSymbol(|history| - 1) == X
    ensures final.context.state == OWon ==> MoverSymbol(|history| - 1) == O
    // the player was switched after the last move too
    ensures final.current == SeatAfter(|history|)
  {
    var game := g;
    history := [];
    trace := [g.board];
    reports := [];
    PlayedAtStart(g);

    // The source's do-while tests the context after the first turn; a fresh
    // context is not over, so testing it first changes nothing.
    while !IsGameOver(game.context)
      invariant Progress(g, trace, history, game, reports)
      decreases Count(game.board, Empty)
    {
      trace, history, game, reports := Turn(g, trace, history, game, reports);
    }
    TraceBoardsDistinct(g, trace, history);
    final := game;
  }
}
