/**
 * The turn runner (engine/src/game/runner.rs): when actions are queued, process a snapshot of the
 * queue in order and then empty the queue.
 */
module Runner {
  import opened Wrappers
  import opened Coordinates
  import opened Entities
  import opened Worlds
  import opened Processor
  import Movement

  /**
   * One turn. The registry ends as the queued actions, applied in order, leave it; the queue ends
   * empty; the id counter is untouched; id keying and unshared cells survive the turn.
   */
  method Run(world: World)
    modifies world
    ensures world.entities == ApplyAll(old(world.entities), world.leftEdge, world.rightEdge, old(world.actions))
    ensures world.actions == [] && world.currentId == old(world.currentId)
    ensures old(world.Valid()) ==> world.Valid()
    ensures old(KeyedById(world.entities) && NoSharedCells(world.entities)) ==> NoSharedCells(world.entities)
  {
    ghost var start := world.entities;
    ghost var queue := world.actions;
    if !world.HasActions() {
      return;
    }
    RunActions(world);
    world.ClearActions();
    if KeyedById(start) && NoSharedCells(start) {
      ApplyAllKeepsCellsUnshared(start, world.leftEdge, world.rightEdge, queue);
    }
  }

  /** Process the queue as it stands; processing itself never touches the queue. */
  method RunActions(world: World)
    modifies world
    ensures world.entities == ApplyAll(old(world.entities), world.leftEdge, world.rightEdge, old(world.actions))
    ensures world.actions == old(world.actions) && world.currentId == old(world.currentId)
  {
    // `get_actions` clones the queue; a Dafny sequence is already a value, so this is the snapshot.
    var actions := world.GetActions();
    ProcessActions(world, actions);
  }

  /** Down then right from (0,0) on the registry alone: the entity ends at (1,1). */
  lemma DownThenRightSteps(start: map<int, Entity>)
    requires start == map[1 := Entity.New(1, Coordinate(0, 0))]
    ensures ApplyAll(start, DefaultLeftEdge, DefaultRightEdge, [Movement.Down(1), Movement.Right(1)])
         == map[1 := Entity.New(1, Coordinate(1, 1))]
  {
    var mid := map[1 := Entity.New(1, Coordinate(0, 1))];
    var end := map[1 := Entity.New(1, Coordinate(1, 1))];
    assert Apply(start, DefaultLeftEdge, DefaultRightEdge, Movement.Down(1)).entities == mid;
    assert Apply(mid, DefaultLeftEdge, DefaultRightEdge, Movement.Right(1)).entities == end;
    assert [Movement.Down(1), Movement.Right(1)][1..] == [Movement.Right(1)];
  }

  /** The `run_actions` test: down then right from (0,0) leaves the entity at (1,1) and the queue empty. */
  method DownThenRight() returns (pending: bool, moved: Option<Entity>)
    ensures !pending
    ensures moved.Some? && moved.value.coord == Coordinate(1, 1)
  {
    var world := new World();
    var entity := world.Register(Entity.New(0, Coordinate(0, 0)));
    world.RegisterAction(Movement.Down(entity.id));
    world.RegisterAction(Movement.Right(entity.id));
    DownThenRightSteps(world.entities);
    Run(world);
    pending := world.HasActions();
    moved := world.GetEntity(entity.id);
  }
}
