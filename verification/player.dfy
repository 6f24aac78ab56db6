/**
 * The player controller (engine/src/controllers/player.rs): turn a direction key into an attack on
 * the first enemy or player along that direction, or else into a one-cell move, and queue it.
 */
module Player {
  import opened Wrappers
  import opened Coordinates
  import opened Directions
  import opened Entities
  import opened Actions
  import opened Worlds
  import Movement
  import Attack

  /** How many cells the target search looks ahead. */
  const Range: nat := 9

  datatype PlayerInput = PlayerInput(direction: Direction)

  /** The cell `n` steps from `origin` along `direction`. */
  function RayCell(origin: Coordinate, direction: Direction, n: int): Coordinate {
    origin.Translate(direction.dx * n, direction.dy * n)
  }

  /** What the ray sees `n` steps out. */
  function Seen(entities: map<int, Entity>, origin: Coordinate, direction: Direction, n: int): Option<Entity> {
    EntityAt(entities, RayCell(origin, direction, n))
  }

  /** The ray goes on past an empty cell or a hole. */
  predicate Passable(occupant: Option<Entity>) {
    occupant.None? || occupant.value.entityType.Hole?
  }

  /** Enemies and players can be attacked. */
  predicate Targetable(e: Entity) {
    e.entityType.Enemy? || e.entityType.Player?
  }

  /** The search from step `n` on: the first non-passable cell decides, an obstacle ends it empty. */
  function ScanFrom(entities: map<int, Entity>, origin: Coordinate, direction: Direction, n: nat): Option<Entity>
    decreases Range + 1 - n
  {
    if n > Range then None
    else
      match Seen(entities, origin, direction, n)
      case None => ScanFrom(entities, origin, direction, n + 1)
      case Some(e) =>
        match e.entityType
        case Obstacle(_) => None
        case Enemy(_) => Some(e)
        case Player(_) => Some(e)
        case Hole(_) => ScanFrom(entities, origin, direction, n + 1)
  }

  /** The target of the entity `entityId` looking along `direction`; none when it is not in the world. */
  function Target(entities: map<int, Entity>, entityId: int, direction: Direction): Option<Entity> {
    if entityId in entities then ScanFrom(entities, entities[entityId].coord, direction, 1) else None
  }

  /** `e` is seen `k` steps out, can be attacked, and every cell from step `n` up to it lets the ray pass. */
  ghost predicate FirstHit(entities: map<int, Entity>, origin: Coordinate, direction: Direction, n: nat, k: int, e: Entity) {
    && n <= k <= Range
    && Seen(entities, origin, direction, k) == Some(e)
    && Targetable(e)
    && forall j :: n <= j < k ==> Passable(Seen(entities, origin, direction, j))
  }

  datatype PlayerController = PlayerController(entityId: int) {

    /** The move in the input's direction: left, right and up by name, anything else down. */
    function GetMovementAction(input: PlayerInput): (a: ActionData)
      ensures a.entityId == entityId && a.actionType == Move && a.targetEntityId == None
      ensures input.direction in {LEFT, RIGHT, UP, DOWN} ==> a.direction == Some(input.direction)
      ensures input.direction !in {LEFT, RIGHT, UP} ==> a == Movement.Down(entityId)
    {
      if input.direction == LEFT then Movement.Left(entityId)
      else if input.direction == RIGHT then Movement.Right(entityId)
      else if input.direction == UP then Movement.Up(entityId)
      else Movement.Down(entityId)
    }

    /** `get_target`: cells 1 to `Range` along the input direction, nearest first. */
    method GetTarget(world: World, input: PlayerInput) returns (r: Option<Entity>)
      ensures r == Target(world.entities, entityId, input.direction)
    {
      var range := Range;
      var player := world.GetEntity(entityId);
      if player.Some? {
        for n := 1 to range + 1
          invariant ScanFrom(world.entities, player.value.coord, input.direction, n)
                 == Target(world.entities, entityId, input.direction)
        {
          var position := player.value.coord.Translate(input.direction.dx * n, input.direction.dy * n);
          var occupant := EntityAt(world.entities, position);
          if occupant.Some? {
            match occupant.value.entityType {
              case Obstacle(_) => return None;
              case Enemy(_) => return occupant;
              case Player(_) => return occupant;
              case Hole(_) =>
            }
          }
        }
      }
      return None;
    }

    /** `resolve_action`: attack the target when there is one, otherwise move. */
    method ResolveAction(world: World, input: PlayerInput) returns (a: ActionData)
      ensures a.entityId == entityId
      ensures a.actionType == Attack <==> Target(world.entities, entityId, input.direction).Some?
      ensures a.actionType == Attack ==> a == Attack.Direct(entityId, Target(world.entities, entityId, input.direction).value.id)
      ensures a.actionType == Move ==> a == GetMovementAction(input)
    {
      var target := GetTarget(world, input);
      if target.Some? {
        a := Attack.Direct(entityId, target.value.id);
      } else {
        a := GetMovementAction(input);
      }
    }

    /** `run`: queue the resolved action, and change nothing else. */
    method Run(world: World, input: PlayerInput)
      modifies world
      ensures world.actions == old(world.actions) + [Resolved(old(world.entities), this, input)]
      ensures world.entities == old(world.entities) && world.currentId == old(world.currentId)
    {
      var action := ResolveAction(world, input);
      world.RegisterAction(action);
    }
  }

  /** The action a controller resolves an input to. */
  function Resolved(entities: map<int, Entity>, controller: PlayerController, input: PlayerInput): ActionData {
    match Target(entities, controller.entityId, input.direction)
    case Some(t) => Attack.Direct(controller.entityId, t.id)
    case None => controller.GetMovementAction(input)
  }

  /**
   * The search from step `n` returns `e` exactly when `e` is the first thing the ray cannot pass
   * and it can be attacked.
   */
  lemma {:induction false} ScanFindsFirstHit(entities: map<int, Entity>, origin: Coordinate, direction: Direction, n: nat, e: Entity)
    requires 1 <= n
    ensures ScanFrom(entities, origin, direction, n) == Some(e) <==> exists k :: FirstHit(entities, origin, direction, n, k, e)
    decreases Range + 1 - n
  {
    if n <= Range {
      ScanFindsFirstHit(entities, origin, direction, n + 1, e);
      var seen := Seen(entities, origin, direction, n);
      if ScanFrom(entities, origin, direction, n) == Some(e) {
        if seen.Some? && Targetable(seen.value) {
          assert FirstHit(entities, origin, direction, n, n, e);
        } else {
          var k :| FirstHit(entities, origin, direction, n + 1, k, e);
          assert FirstHit(entities, origin, direction, n, k, e);
        }
      }
      if k :| FirstHit(entities, origin, direction, n, k, e) {
        if k > n {
          assert Passable(seen);
          assert FirstHit(entities, origin, direction, n + 1, k, e);
        }
      }
    }
  }

  /** A found target is an enemy or a player standing 1 to `Range` cells away along the direction. */
  lemma TargetIsOnTheRay(entities: map<int, Entity>, entityId: int, direction: Direction)
    requires Target(entities, entityId, direction).Some?
    ensures var t := Target(entities, entityId, direction).value;
      && entityId in entities && Targetable(t) && Stored(entities, t)
      && exists k :: 1 <= k <= Range && t.coord == RayCell(entities[entityId].coord, direction, k)
  {
    var t := Target(entities, entityId, direction).value;
    ScanFindsFirstHit(entities, entities[entityId].coord, direction, 1, t);
    var k :| FirstHit(entities, entities[entityId].coord, direction, 1, k, t);
  }

  /** An obstacle that is the first thing the ray meets from step `n` on hides everything behind it. */
  lemma {:induction false} ObstacleBlocks(entities: map<int, Entity>, origin: Coordinate, direction: Direction, n: nat, k: int)
    requires 1 <= n <= k <= Range
    requires Seen(entities, origin, direction, k).Some?
    requires Seen(entities, origin, direction, k).value.entityType.Obstacle?
    requires forall j :: n <= j < k ==> Passable(Seen(entities, origin, direction, j))
    ensures ScanFrom(entities, origin, direction, n) == None
    decreases k - n
  {
    if n < k {
      assert Passable(Seen(entities, origin, direction, n));
      ObstacleBlocks(entities, origin, direction, n + 1, k);
    }
  }

  /** A controller whose entity is gone finds no target and always resolves to a move. */
  lemma AbsentEntityMoves(entities: map<int, Entity>, controller: PlayerController, input: PlayerInput)
    requires controller.entityId !in entities
    ensures Target(entities, controller.entityId, input.direction) == None
    ensures Resolved(entities, controller, input) == controller.GetMovementAction(input)
  {
  }

  /**
   * Player 1 at (0,0) looking right past water at (1,0): a bandit at (2,0) is attacked, while a
   * mountain at (1,0) instead turns the key into a plain move.
   */
  lemma RayExamples()
    ensures var seen := map[1 := PlayerAt(Coordinate(0, 0)).(id := 1),
                            2 := WaterAt(Coordinate(1, 0)).(id := 2),
                            3 := BanditAt(Coordinate(2, 0)).(id := 3)];
      Resolved(seen, PlayerController(1), PlayerInput(RIGHT)) == Attack.Direct(1, 3)
    ensures var blocked := map[1 := PlayerAt(Coordinate(0, 0)).(id := 1),
                               2 := MountainAt(Coordinate(1, 0)).(id := 2),
                               3 := BanditAt(Coordinate(2, 0)).(id := 3)];
      Resolved(blocked, PlayerController(1), PlayerInput(RIGHT)) == Movement.Right(1)
  {
    var seen := map[1 := PlayerAt(Coordinate(0, 0)).(id := 1),
                    2 := WaterAt(Coordinate(1, 0)).(id := 2),
                    3 := BanditAt(Coordinate(2, 0)).(id := 3)];
    EntityAtUnique(seen, Coordinate(1, 0), seen[2]);
    EntityAtUnique(seen, Coordinate(2, 0), seen[3]);
    assert Seen(seen, Coordinate(0, 0), RIGHT, 1) == Some(seen[2]);
    assert Seen(seen, Coordinate(0, 0), RIGHT, 2) == Some(seen[3]);
    var blocked := map[1 := PlayerAt(Coordinate(0, 0)).(id := 1),
                       2 := MountainAt(Coordinate(1, 0)).(id := 2),
                       3 := BanditAt(Coordinate(2, 0)).(id := 3)];
    EntityAtUnique(blocked, Coordinate(1, 0), blocked[2]);
    assert Seen(blocked, Coordinate(0, 0), RIGHT, 1) == Some(blocked[2]);
  }
}
