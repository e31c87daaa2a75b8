/** The outcome state machine (01_TicTacToe/GameStateHandler/Context/GameContext.cpp).
    The source's state objects (InProgressState, XWonState, OWonState,
    DrawState) become the constructors of Outcome; only their identity matters
    to the engine. */
module GameContexts {

  import opened Symbols
  import opened Players

  datatype Outcome = InProgress | XWon | OWon | Draw

  datatype GameContext = GameContext(state: Outcome, gameOver: bool)

  /** The flag the source keeps beside the state agrees with the state. */
  predicate Consistent(ctx: GameContext) {
    ctx.gameOver <==> ctx.state != InProgress
  }

  /** GameContext::GameContext */
  function NewContext(): (ctx: GameContext)
    ensures ctx.state == InProgress && !ctx.gameOver
  {
    GameContext(InProgress, false)
  }

  /** GameContext::isGameOver: reads the flag, which on a context kept
      consistent says whether the outcome is decided, and on one left stale
      by setState says the opposite. */
  function IsGameOver(ctx: GameContext): (r: bool)
    ensures Consistent(ctx) ==> (r <==> ctx.state != InProgress)
    ensures !Consistent(ctx) ==> (r <==> ctx.state == InProgress)
  {
    ctx.gameOver
  }

  /** GameContext::next: a win goes to X exactly when the reporting player's
      symbol is X, and to O for any other symbol, EMPTY included; a non-win
      report is a draw. The prior state is not consulted, so a terminal state
      is overwritten too. */
  function Next(ctx: GameContext, player: Player, isWin: bool): (ctx': GameContext)
    ensures IsGameOver(ctx')
    ensures isWin ==> (ctx'.state == XWon <==> player.symbol == X)
    ensures isWin ==> (ctx'.state == OWon <==> player.symbol != X)
    ensures !isWin <==> ctx'.state == Draw
  {
    if isWin then
      GameContext(if player.symbol == X then XWon else OWon, true)
    else
      GameContext(Draw, true)
  }

  /** GameContext::setState: replaces the state and leaves the flag alone. */
  function SetState(ctx: GameContext, state: Outcome): (ctx': GameContext)
    ensures ctx'.state == state && ctx'.gameOver == ctx.gameOver
  {
    ctx.(state := state)
  }

  /** The constructor and next establish Consistent. */
  lemma ConstructorAndNextAreConsistent(ctx: GameContext, player: Player, isWin: bool)
    ensures Consistent(NewContext())
    ensures Consistent(Next(ctx, player, isWin))
  {
  }

  /** setState does not keep Consistent: moving a fresh context to XWon
      leaves the game flagged as not over, so isGameOver reports a won game
      as still running. */
  lemma SetStateBreaksConsistency()
    ensures Consistent(NewContext()) && !Consistent(SetState(NewContext(), XWon))
    ensures !IsGameOver(SetState(NewContext(), XWon))
  {
  }

  /** next has no guard: its result does not depend on the context it is
      applied to, terminal or not. */
  lemma NextIgnoresPriorContext(c1: GameContext, c2: GameContext, player: Player, isWin: bool)
    ensures Next(c1, player, isWin) == Next(c2, player, isWin)
  {
  }

  /** So it does replace one terminal outcome by another. */
  lemma NextOverwritesTerminalState(player: Player)
    requires player.symbol == X
    ensures Next(Next(NewContext(), player, true), player, false).state == Draw
    ensures Next(Next(NewContext(), player, false), player, true).state == XWon
  {
  }
}
