/** The eight compass directions used to resize a selected figure (Direction.java). */
module Compass {

  datatype Direction =
    | North | South | East | West
    | NorthEast | NorthWest | SouthEast | SouthWest
  {
    /** The direction has a north component: N, NW or NE. */
    predicate IsNorth() { this == North || this == NorthWest || this == NorthEast }

    /** The direction has a south component: S, SW or SE. */
    predicate IsSouth() { this == South || this == SouthWest || this == SouthEast }

    /** The direction has a west component: W, NW or SW. */
    predicate IsWest() { this == West || this == NorthWest || this == SouthWest }

    /** The direction has an east component: E, NE or SE. */
    predicate IsEast() { this == East || this == NorthEast || this == SouthEast }
  }

  /** No direction points both north and south, nor both west and east. */
  lemma OppositesExclusive(d: Direction)
    ensures !(d.IsNorth() && d.IsSouth())
    ensures !(d.IsWest() && d.IsEast())
  {
  }

  /** Every direction has at least one component. */
  lemma EveryDirectionHasAComponent(d: Direction)
    ensures d.IsNorth() || d.IsSouth() || d.IsWest() || d.IsEast()
  {
  }

  /** The four cardinal directions have exactly their own component. */
  lemma CardinalComponents()
    ensures North.IsNorth() && !North.IsSouth() && !North.IsWest() && !North.IsEast()
    ensures !South.IsNorth() && South.IsSouth() && !South.IsWest() && !South.IsEast()
    ensures !East.IsNorth() && !East.IsSouth() && !East.IsWest() && East.IsEast()
    ensures !West.IsNorth() && !West.IsSouth() && West.IsWest() && !West.IsEast()
  {
  }

  /** Each diagonal has exactly its two components. */
  lemma DiagonalComponents()
    ensures NorthWest.IsNorth() && NorthWest.IsWest() && !NorthWest.IsSouth() && !NorthWest.IsEast()
    ensures NorthEast.IsNorth() && NorthEast.IsEast() && !NorthEast.IsSouth() && !NorthEast.IsWest()
    ensures SouthWest.IsSouth() && SouthWest.IsWest() && !SouthWest.IsNorth() && !SouthWest.IsEast()
    ensures SouthEast.IsSouth() && SouthEast.IsEast() && !SouthEast.IsNorth() && !SouthEast.IsWest()
  {
  }

  /** The four predicates tell every two directions apart. */
  lemma ComponentsDetermineDirection(d: Direction, e: Direction)
    requires d.IsNorth() == e.IsNorth() && d.IsSouth() == e.IsSouth()
    requires d.IsWest() == e.IsWest() && d.IsEast() == e.IsEast()
    ensures d == e
  {
  }
}
