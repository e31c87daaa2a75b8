/** The chess piece kinds and their lookup tables
    (02_ChessGame/CommonEnum/PieceType.cpp). The "Unknown", '?' and 0 defaults
    cannot be reached by a six-constructor datatype. */
module PieceTypes {

  datatype PieceType = Pawn | Rook | Knight | Bishop | Queen | King

  /** PieceTypeUtils::toString */
  function ToString(t: PieceType): (r: string)
    ensures t == Pawn <==> r == "Pawn"
    ensures t == Rook <==> r == "Rook"
    ensures t == Knight <==> r == "Knight"
    ensures t == Bishop <==> r == "Bishop"
    ensures t == Queen <==> r == "Queen"
    ensures t == King <==> r == "King"
  {
    match t
    case Pawn => "Pawn"
    case Rook => "Rook"
    case Knight => "Knight"
    case Bishop => "Bishop"
    case Queen => "Queen"
    case King => "King"
  }

  /** PieceTypeUtils::getSymbol: the board letter of a piece. */
  function GetSymbol(t: PieceType): (c: char)
    ensures t == Pawn <==> c == 'P'
    ensures t == Rook <==> c == 'R'
    ensures t == Knight <==> c == 'N'
    ensures t == Bishop <==> c == 'B'
    ensures t == Queen <==> c == 'Q'
    ensures t == King <==> c == 'K'
  {
    match t
    case Pawn => 'P'
    case Rook => 'R'
    case Knight => 'N'
    case Bishop => 'B'
    case Queen => 'Q'
    case King => 'K'
  }

  /** PieceTypeUtils::getValue: the material value; the king's is 0. */
  function GetValue(t: PieceType): (v: int)
    ensures 0 <= v <= 9
    ensures v == 9 <==> t == Queen
    ensures v == 0 <==> t == King
    ensures t == Pawn ==> v == 1
    ensures t == Knight || t == Bishop ==> v == 3
    ensures t == Rook ==> v == 5
  {
    match t
    case Pawn => 1
    case Rook => 5
    case Knight => 3
    case Bishop => 3
    case Queen => 9
    case King => 0
  }

  lemma GetSymbolInjective(s: PieceType, t: PieceType)
    ensures GetSymbol(s) == GetSymbol(t) ==> s == t
  {
  }

  lemma ToStringInjective(s: PieceType, t: PieceType)
    ensures ToString(s) == ToString(t) ==> s == t
  {
  }

  /** The queen is worth at least as much as any piece. */
  lemma QueenHasMaximalValue(t: PieceType)
    ensures GetValue(t) <= GetValue(Queen)
  {
  }

  /** Values do not identify pieces: knight and bishop are both worth 3. */
  lemma GetValueNotInjective()
    ensures Knight != Bishop && GetValue(Knight) == GetValue(Bishop)
  {
  }

  /** The board letter is the initial of the name, except for the knight. */
  lemma SymbolIsInitialExceptKnight(t: PieceType)
    ensures GetSymbol(t) == ToString(t)[0] <==> t != Knight
  {
  }
}
