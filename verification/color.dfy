/** The chess side colour and its helpers (02_ChessGame/CommonEnum/Color.cpp).
    The "Unknown" default of toString cannot be reached by a two-constructor
    datatype. */
module Colors {

  datatype Color = White | Black

  /** ColorUtils::toString */
  function ToString(c: Color): (r: string)
    ensures c == White <==> r == "White"
    ensures c == Black <==> r == "Black"
  {
    match c
    case White => "White"
    case Black => "Black"
  }

  /** ColorUtils::opposite: the other side. */
  function Opposite(c: Color): (r: Color)
    ensures r != c
  {
    if c == White then Black else White
  }

  lemma OppositeIsInvolution(c: Color)
    ensures Opposite(Opposite(c)) == c
  {
  }

  lemma ToStringInjective(c: Color, d: Color)
    ensures ToString(c) == ToString(d) ==> c == d
  {
  }
}
