/**
 * The movement processor (engine/src/actions/movement.rs): look the actor up, step it one cell in
 * the action's direction, reject a destination outside the map and then one that is occupied.
 *
 * `Step` is the processor as a function of the registry; `Process` is the processor acting on a
 * `World` and is proved to do exactly what `Step` says.
 */
module Movement {
  import opened Wrappers
  import opened Coordinates
  import opened Directions
  import opened Entities
  import opened Actions
  import opened Worlds
  import Common

  function Left(entityId: int): ActionData { ActionData(entityId, None, Move, Some(LEFT)) }
  function Right(entityId: int): ActionData { ActionData(entityId, None, Move, Some(RIGHT)) }
  function Up(entityId: int): ActionData { ActionData(entityId, None, Move, Some(UP)) }
  function Down(entityId: int): ActionData { ActionData(entityId, None, Move, Some(DOWN)) }

  /** Translate `coord` by the direction vector. */
  function Operate(coord: Coordinate, direction: Direction): Coordinate {
    coord.Translate(direction.dx, direction.dy)
  }

  function IsInsideWorld(leftEdge: Coordinate, rightEdge: Coordinate, coord: Coordinate): ActionResult<()> {
    if !coord.IsWithin(leftEdge, rightEdge) then Err(OutOfMapCoordinate(coord.x, coord.y)) else Ok(())
  }

  function IsPositionAvailable(entities: map<int, Entity>, coord: Coordinate): ActionResult<()> {
    match EntityAt(entities, coord)
    case Some(_) => Err(PositionOccupied(coord.x, coord.y))
    case None => Ok(())
  }

  /** Some stored entity stands on `c`. */
  ghost predicate Occupied(entities: map<int, Entity>, c: Coordinate) {
    exists id :: id in entities && entities[id].coord == c
  }

  /**
   * `movement::process` on the registry. A rejected move leaves the registry as it was; a move
   * never adds or drops an entity and never changes anything but a coordinate.
   */
  function Step(entities: map<int, Entity>, leftEdge: Coordinate, rightEdge: Coordinate, action: ActionData): (o: Outcome)
    ensures o.result.Err? ==> o.entities == entities
    ensures KeyedById(entities) ==> KeyedById(o.entities) && o.entities.Keys == entities.Keys
    ensures KeyedById(entities) ==> forall k :: k in entities ==>
      && o.entities[k].entityType == entities[k].entityType
      && o.entities[k].hitPoints == entities[k].hitPoints
  {
    match Common.GetEntity(entities, action.entityId)
    case Err(e) => Outcome(Err(e), entities)
    case Ok(entity) =>
      match action.direction
      case None => Outcome(Ok(()), entities)
      case Some(dir) =>
        var newCoord := Operate(entity.coord, dir);
        match IsInsideWorld(leftEdge, rightEdge, newCoord)
        case Err(e) => Outcome(Err(e), entities)
        case Ok(_) =>
          match IsPositionAvailable(entities, newCoord)
          case Err(e) => Outcome(Err(e), entities)
          case Ok(_) =>
            var newEntity := entity.WithCoordinate(newCoord);
            Outcome(Ok(()), entities[newEntity.id := newEntity])
  }

  /** `movement::process` on a live world: the registry and the result are those of `Step`. */
  method Process(world: World, action: ActionData) returns (r: ActionResult<()>)
    modifies world
    ensures r == Step(old(world.entities), world.leftEdge, world.rightEdge, action).result
    ensures world.entities == Step(old(world.entities), world.leftEdge, world.rightEdge, action).entities
    ensures world.actions == old(world.actions) && world.currentId == old(world.currentId)
  {
    var found := Common.GetEntity(world.entities, action.entityId);
    if found.Err? {
      return Err(found.error);
    }
    var entity := found.value;
    if action.direction.Some? {
      var newCoord := Operate(entity.coord, action.direction.value);
      var inside := IsInsideWorld(world.leftEdge, world.rightEdge, newCoord);
      if inside.Err? {
        return Err(inside.error);
      }
      var available := IsPositionAvailable(world.entities, newCoord);
      if available.Err? {
        return Err(available.error);
      }
      var newEntity := entity.WithCoordinate(newCoord);
      world.UpdateEntity(newEntity);
    }
    return Ok(());
  }

  /** The four factories build a move of the given entity by one unit step, opposite in pairs. */
  lemma FactoryDirections(entityId: int)
    ensures forall a :: a in [Left(entityId), Right(entityId), Up(entityId), Down(entityId)] ==>
      a.entityId == entityId && a.actionType == Move && a.targetEntityId == None &&
      a.direction.Some? && IsUnit(a.direction.value)
    ensures Left(entityId).direction == Some(LEFT) && Right(entityId).direction == Some(RIGHT)
    ensures Up(entityId).direction == Some(UP) && Down(entityId).direction == Some(DOWN)
    ensures Left(entityId).direction.value == Negate(Right(entityId).direction.value)
    ensures Up(entityId).direction.value == Negate(Down(entityId).direction.value)
  {
    UnitConstants();
  }

  /** Stepping by a direction and then by its negation returns to the starting cell. */
  lemma OperateUndo(c: Coordinate, d: Direction)
    ensures Operate(Operate(c, d), Negate(d)) == c
    ensures Operate(c, d).x == c.x + d.dx && Operate(c, d).y == c.y + d.dy
  {
  }

  /** An unknown actor is reported before anything else and changes nothing. */
  lemma UnknownActorRejected(entities: map<int, Entity>, leftEdge: Coordinate, rightEdge: Coordinate, action: ActionData)
    requires action.entityId !in entities
    ensures Step(entities, leftEdge, rightEdge, action) == Outcome(Err(InvalidEntityId(action.entityId)), entities)
  {
  }

  /** A move without a direction succeeds and changes nothing. */
  lemma NoDirectionIsNoOp(entities: map<int, Entity>, leftEdge: Coordinate, rightEdge: Coordinate, action: ActionData)
    requires action.entityId in entities && action.direction.None?
    ensures Step(entities, leftEdge, rightEdge, action) == Outcome(Ok(()), entities)
  {
  }

  /**
   * A destination outside the inclusive bounds is reported as such whether or not it is occupied
   * (the bounds check runs first), and nothing changes.
   */
  lemma OutOfMapRejected(entities: map<int, Entity>, leftEdge: Coordinate, rightEdge: Coordinate, action: ActionData)
    requires action.entityId in entities && action.direction.Some?
    requires !Operate(entities[action.entityId].coord, action.direction.value).IsWithin(leftEdge, rightEdge)
    ensures var dest := Operate(entities[action.entityId].coord, action.direction.value);
      Step(entities, leftEdge, rightEdge, action) == Outcome(Err(OutOfMapCoordinate(dest.x, dest.y)), entities)
  {
  }

  /** An occupied destination inside the map is reported and nobody moves. */
  lemma OccupiedRejected(entities: map<int, Entity>, leftEdge: Coordinate, rightEdge: Coordinate, action: ActionData)
    requires action.entityId in entities && action.direction.Some?
    requires Operate(entities[action.entityId].coord, action.direction.value).IsWithin(leftEdge, rightEdge)
    requires Occupied(entities, Operate(entities[action.entityId].coord, action.direction.value))
    ensures var dest := Operate(entities[action.entityId].coord, action.direction.value);
      Step(entities, leftEdge, rightEdge, action) == Outcome(Err(PositionOccupied(dest.x, dest.y)), entities)
  {
  }

  /**
   * Move legality: a directed move of a stored actor succeeds exactly when the destination is
   * inside the map and unoccupied; it then moves the actor there and changes no other entity.
   */
  lemma MoveLegality(entities: map<int, Entity>, leftEdge: Coordinate, rightEdge: Coordinate, action: ActionData)
    requires KeyedById(entities)
    requires action.entityId in entities && action.direction.Some?
    ensures var id := action.entityId;
      var dest := Operate(entities[id].coord, action.direction.value);
      var o := Step(entities, leftEdge, rightEdge, action);
      && (o.result.Ok? <==> dest.IsWithin(leftEdge, rightEdge) && !Occupied(entities, dest))
      && (o.result.Ok? ==> o.entities[id].coord == dest && o.entities[id].id == id)
      && (o.result.Ok? ==> forall k :: k in entities && k != id ==> o.entities[k] == entities[k])
      && (o.result.Err? ==> o.entities[id].coord == entities[id].coord)
  {
  }

  /** A move keeps the rule that no two entities share a cell. */
  lemma StepKeepsCellsUnshared(entities: map<int, Entity>, leftEdge: Coordinate, rightEdge: Coordinate, action: ActionData)
    requires KeyedById(entities) && NoSharedCells(entities)
    ensures NoSharedCells(Step(entities, leftEdge, rightEdge, action).entities)
  {
    var o := Step(entities, leftEdge, rightEdge, action);
    if o.result.Ok? && action.direction.Some? {
      MoveLegality(entities, leftEdge, rightEdge, action);
      var id := action.entityId;
      var dest := Operate(entities[id].coord, action.direction.value);
      forall i, j | i in o.entities && j in o.entities && i != j
        ensures o.entities[i].coord != o.entities[j].coord
      {
        if i == id {
          assert o.entities[j] == entities[j];
        } else if j == id {
          assert o.entities[i] == entities[i];
        } else {
          assert o.entities[i] == entities[i] && o.entities[j] == entities[j];
        }
      }
    }
  }

  /**
   * A successful move along `d` followed by a move along the opposite direction restores the
   * registry, provided the actor started inside the map and no cell was shared.
   */
  lemma MoveThereAndBack(entities: map<int, Entity>, leftEdge: Coordinate, rightEdge: Coordinate, id: int, d: Direction)
    requires KeyedById(entities) && NoSharedCells(entities)
    requires id in entities && entities[id].coord.IsWithin(leftEdge, rightEdge)
    requires Step(entities, leftEdge, rightEdge, ActionData(id, None, Move, Some(d))).result.Ok?
    ensures var there := Step(entities, leftEdge, rightEdge, ActionData(id, None, Move, Some(d))).entities;
      Step(there, leftEdge, rightEdge, ActionData(id, None, Move, Some(Negate(d)))) == Outcome(Ok(()), entities)
  {
    var go := ActionData(id, None, Move, Some(d));
    var back := ActionData(id, None, Move, Some(Negate(d)));
    var start := entities[id].coord;
    var dest := Operate(start, d);
    MoveLegality(entities, leftEdge, rightEdge, go);
    var there := Step(entities, leftEdge, rightEdge, go).entities;
    assert there == entities[id := entities[id].WithCoordinate(dest)];
    assert dest != start;
    OperateUndo(start, d);
    assert !Occupied(there, start) by {
      forall k | k in there ensures there[k].coord != start {
        if k != id {
          assert there[k] == entities[k];
        }
      }
    }
    MoveLegality(there, leftEdge, rightEdge, back);
    var returned := Step(there, leftEdge, rightEdge, back).entities;
    assert returned == there[id := there[id].WithCoordinate(start)];
    assert returned == entities;
  }

  /** The `move_to_occupied_position` test: moving down onto an entity fails and nobody moves. */
  lemma BlockedMoveExample()
    ensures var entities := map[1 := Entity.New(1, Coordinate(1, 1)), 2 := Entity.New(2, Coordinate(1, 2))];
      Step(entities, DefaultLeftEdge, DefaultRightEdge, Down(1)) == Outcome(Err(PositionOccupied(1, 2)), entities)
  {
    var entities := map[1 := Entity.New(1, Coordinate(1, 1)), 2 := Entity.New(2, Coordinate(1, 2))];
    assert Occupied(entities, Coordinate(1, 2)) by { assert entities[2].coord == Coordinate(1, 2); }
  }

  /**
   * The `world_ends_error` test: in a world with far edge (8,8), entities are registered one after
   * another, two on (0,0) and two on (8,8); up and left from (0,0) and right and down from (8,8)
   * each fail with the cell off the map, and nobody moves.
   */
  lemma WorldEndExample()
    ensures var first := map[1 := Entity.New(1, Coordinate(0, 0))];
      Step(first, DefaultLeftEdge, Coordinate(8, 8), Up(1)) == Outcome(Err(OutOfMapCoordinate(0, -1)), first)
    ensures var second := map[1 := Entity.New(1, Coordinate(0, 0)), 2 := Entity.New(2, Coordinate(0, 0))];
      Step(second, DefaultLeftEdge, Coordinate(8, 8), Left(2)) == Outcome(Err(OutOfMapCoordinate(-1, 0)), second)
    ensures var third := map[1 := Entity.New(1, Coordinate(0, 0)), 2 := Entity.New(2, Coordinate(0, 0)),
                             3 := Entity.New(3, Coordinate(8, 8))];
      Step(third, DefaultLeftEdge, Coordinate(8, 8), Right(3)) == Outcome(Err(OutOfMapCoordinate(9, 8)), third)
    ensures var fourth := map[1 := Entity.New(1, Coordinate(0, 0)), 2 := Entity.New(2, Coordinate(0, 0)),
                              3 := Entity.New(3, Coordinate(8, 8)), 4 := Entity.New(4, Coordinate(8, 8))];
      Step(fourth, DefaultLeftEdge, Coordinate(8, 8), Down(4)) == Outcome(Err(OutOfMapCoordinate(8, 9)), fourth)
  {
  }
}
