/**
 * Grid positions (engine/src/models/coordinate.rs).
 *
 * The revisions of the engine disagree on the component type (`i8` here, `f32` in the
 * movement code); the model uses unbounded integers and states the `i8` arithmetic
 * explicitly where the source performs it (`IsAdjacent`).
 */
module Coordinates {

  const I8Min: int := -128
  const I8Max: int := 127

  predicate InI8(n: int) { I8Min <= n <= I8Max }

  function Abs(n: int): nat { if n < 0 then -n else n }

  /** `Coordinate::new(x, y)` is this constructor. */
  datatype Coordinate = Coordinate(x: int, y: int) {

    /** Both components fit `i8` and so do both differences, so `is_adjacent` cannot overflow. */
    predicate AdjacencyDefined(other: Coordinate) {
      InI8(x) && InI8(y) && InI8(other.x) && InI8(other.y) && InI8(x - other.x) && InI8(y - other.y)
    }

    /** Neighbouring cells, the cell itself included: both `i8` differences lie strictly between -2 and 2. */
    predicate IsAdjacent(other: Coordinate)
      requires AdjacencyDefined(other)
    {
      var dx := x - other.x;
      var dy := y - other.y;
      dx < 2 && dx > -2 && dy < 2 && dy > -2
    }

    /** Inclusive bounding-box test of the movement bounds check. */
    predicate IsWithin(left: Coordinate, right: Coordinate) {
      left.x <= x <= right.x && left.y <= y <= right.y
    }

    /** The cell `(x + dx, y + dy)`. */
    function Translate(dx: int, dy: int): Coordinate {
      Coordinate(x + dx, y + dy)
    }
  }

  /** Adjacency is Chebyshev distance at most 1. */
  lemma AdjacentIsChebyshev(a: Coordinate, b: Coordinate)
    requires a.AdjacencyDefined(b)
    ensures a.IsAdjacent(b) <==> Abs(a.x - b.x) <= 1 && Abs(a.y - b.y) <= 1
  {
  }

  lemma AdjacentReflexive(a: Coordinate)
    requires InI8(a.x) && InI8(a.y)
    ensures a.AdjacencyDefined(a) && a.IsAdjacent(a)
  {
  }

  lemma AdjacentSymmetric(a: Coordinate, b: Coordinate)
    requires a.AdjacencyDefined(b) && b.AdjacencyDefined(a)
    ensures a.IsAdjacent(b) <==> b.IsAdjacent(a)
  {
  }

  /** The unit-test table of coordinate.rs. */
  lemma AdjacentExamples()
    ensures Coordinate(0, 0).IsAdjacent(Coordinate(1, 0))
    ensures Coordinate(0, 0).IsAdjacent(Coordinate(1, 1))
    ensures Coordinate(-1, 0).IsAdjacent(Coordinate(0, 0))
    ensures !Coordinate(-1, 0).IsAdjacent(Coordinate(0, 5))
  {
  }
}
