/** The four compass steps (engine/src/models/direction.rs), as integer unit vectors. */
module Directions {

  datatype Direction = Direction(dx: int, dy: int)

  const LEFT: Direction := Direction(-1, 0)
  const RIGHT: Direction := Direction(1, 0)
  const UP: Direction := Direction(0, -1)
  const DOWN: Direction := Direction(0, 1)

  /** Exactly one component is non-zero, and it is 1 or -1. */
  predicate IsUnit(d: Direction) {
    (d.dx == 0 && (d.dy == 1 || d.dy == -1)) || (d.dy == 0 && (d.dx == 1 || d.dx == -1))
  }

  function Negate(d: Direction): Direction {
    Direction(-d.dx, -d.dy)
  }

  /** The four constants are unit steps, opposite in pairs and pairwise distinct. */
  lemma UnitConstants()
    ensures IsUnit(LEFT) && IsUnit(RIGHT) && IsUnit(UP) && IsUnit(DOWN)
    ensures LEFT == Negate(RIGHT) && UP == Negate(DOWN)
    ensures LEFT != RIGHT && LEFT != UP && LEFT != DOWN
    ensures RIGHT != UP && RIGHT != DOWN && UP != DOWN
  {
  }
}
