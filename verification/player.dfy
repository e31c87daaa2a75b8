/** A player binds a symbol to a move strategy (01_TicTacToe/Utility/Player.hpp).
    The strategy is the move source: a function from the board it is shown to
    the position it plays. */
module Players {

  import opened Symbols
  import opened Positions
  import opened Boards

  type Strategy = Board -> Position

  datatype Player = Player(symbol: Symbol, strategy: Strategy)

  /** The promise of a well-behaved strategy, such as the human strategy's
      retry loop: on any well-formed board with an EMPTY cell left, it returns
      a position that Board::isValidMove accepts. */
  ghost predicate SoundStrategy(s: Strategy) {
    forall b :: WellFormed(b) && !Full(b) ==> IsValidMove(b, s(b))
  }
}
