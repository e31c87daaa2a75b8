/** A board coordinate (01_TicTacToe/Utility/Position.cpp). The two-argument
    constructor is the datatype constructor, which stores both coordinates
    verbatim. Coordinates are unbounded: the source never does arithmetic on
    them, so 32-bit width plays no part. */
module Positions {

  datatype Position = Position(row: int, col: int)

  /** operator==: coordinate-wise comparison, which is value equality. */
  function Equals(a: Position, b: Position): (r: bool)
    ensures r <==> a == b
  {
    a.row == b.row && a.col == b.col
  }

  /** operator!=: the negation of operator==. */
  function NotEquals(a: Position, b: Position): (r: bool)
    ensures r <==> !Equals(a, b)
    ensures r <==> a != b
  {
    !Equals(a, b)
  }

  /** The copy constructor. */
  function Copy(other: Position): (r: Position)
    ensures Equals(r, other)
  {
    Position(other.row, other.col)
  }

  /** operator=: the target takes the source's coordinates. The source's
      self-assignment test compares addresses, which have no counterpart for
      a value; copying the coordinates of a position onto itself changes
      nothing anyway. */
  function Assign(target: Position, source: Position): (r: Position)
    ensures Equals(r, source)
    ensures target == source ==> r == target
  {
    Position(source.row, source.col)
  }

  lemma EqualsIsEquivalence(a: Position, b: Position, c: Position)
    ensures Equals(a, a)
    ensures Equals(a, b) ==> Equals(b, a)
    ensures Equals(a, b) && Equals(b, c) ==> Equals(a, c)
  {
  }
}
