/** The cell mark of the tic-tac-toe engine (01_TicTacToe/CommonEnum/Symbol.cpp)
    and its two renderings. The source's `default` branches ("UNKNOWN", '?')
    cannot be reached by a three-constructor datatype. */
module Symbols {

  datatype Symbol = X | O | Empty

  /** symbolToString: the name of a symbol. */
  function SymbolToString(s: Symbol): (r: string)
    ensures s == X <==> r == "X"
    ensures s == O <==> r == "O"
    ensures s == Empty <==> r == "EMPTY"
  {
    match s
    case X => "X"
    case O => "O"
    case Empty => "EMPTY"
  }

  /** symbolToChar: the one-character rendering of a symbol. */
  function SymbolToChar(s: Symbol): (c: char)
    ensures s == X <==> c == 'X'
    ensures s == O <==> c == 'O'
    ensures s == Empty <==> c == '.'
  {
    match s
    case X => 'X'
    case O => 'O'
    case Empty => '.'
  }

  /** Distinct symbols render to distinct characters. */
  lemma SymbolToCharInjective(s: Symbol, t: Symbol)
    ensures SymbolToChar(s) == SymbolToChar(t) ==> s == t
  {
  }

  /** Distinct symbols have distinct names. */
  lemma SymbolToStringInjective(s: Symbol, t: Symbol)
    ensures SymbolToString(s) == SymbolToString(t) ==> s == t
  {
  }

  /** The name of a mark is its character; the name of EMPTY is not. */
  lemma StringAgreesWithChar(s: Symbol)
    ensures s != Empty <==> SymbolToString(s) == [SymbolToChar(s)]
  {
  }
}
