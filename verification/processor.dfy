/**
 * Dispatch and batch application of queued actions (engine/src/actions/processor.rs).
 *
 * Each action's result is discarded: every action in the list is applied, in list order, whatever
 * the earlier ones returned.
 */
module Processor {
  import opened Coordinates
  import opened Entities
  import opened Actions
  import opened Worlds
  import Movement
  import Attack

  /** One action against the registry, routed by its kind. */
  function Apply(entities: map<int, Entity>, leftEdge: Coordinate, rightEdge: Coordinate, action: ActionData): (o: Outcome)
    ensures o.result.Err? ==> o.entities == entities
    ensures KeyedById(entities) ==> KeyedById(o.entities) && o.entities.Keys <= entities.Keys
  {
    match action.actionType
    case Move => Movement.Step(entities, leftEdge, rightEdge, action)
    case Attack => Attack.Step(entities, action)
  }

  /**
   * The registry after applying `actions` from first to last, ignoring each result. No sequence of
   * actions creates an entity or breaks the id keying.
   */
  function ApplyAll(entities: map<int, Entity>, leftEdge: Coordinate, rightEdge: Coordinate, actions: seq<ActionData>): (r: map<int, Entity>)
    ensures KeyedById(entities) ==> KeyedById(r) && r.Keys <= entities.Keys
    decreases |actions|
  {
    if actions == [] then entities
    else ApplyAll(Apply(entities, leftEdge, rightEdge, actions[0]).entities, leftEdge, rightEdge, actions[1..])
  }

  /** Applying `first + rest` is applying `first` and then `rest`. */
  lemma {:induction false} ApplyAllAppend(entities: map<int, Entity>, leftEdge: Coordinate, rightEdge: Coordinate, first: seq<ActionData>, rest: seq<ActionData>)
    ensures ApplyAll(entities, leftEdge, rightEdge, first + rest)
         == ApplyAll(ApplyAll(entities, leftEdge, rightEdge, first), leftEdge, rightEdge, rest)
    decreases |first|
  {
    if first == [] {
      assert first + rest == rest;
    } else {
      var next := Apply(entities, leftEdge, rightEdge, first[0]).entities;
      assert (first + rest)[0] == first[0];
      assert (first + rest)[1..] == first[1..] + rest;
      ApplyAllAppend(next, leftEdge, rightEdge, first[1..], rest);
    }
  }

  /** An empty list leaves the registry alone; a one-element list is that action's effect. */
  lemma ApplyAllShortLists(entities: map<int, Entity>, leftEdge: Coordinate, rightEdge: Coordinate, action: ActionData)
    ensures ApplyAll(entities, leftEdge, rightEdge, []) == entities
    ensures ApplyAll(entities, leftEdge, rightEdge, [action]) == Apply(entities, leftEdge, rightEdge, action).entities
  {
  }

  /** Processing a batch keeps the rule that no two entities share a cell. */
  lemma {:induction false} ApplyAllKeepsCellsUnshared(entities: map<int, Entity>, leftEdge: Coordinate, rightEdge: Coordinate, actions: seq<ActionData>)
    requires KeyedById(entities) && NoSharedCells(entities)
    ensures NoSharedCells(ApplyAll(entities, leftEdge, rightEdge, actions))
    decreases |actions|
  {
    if actions != [] {
      var action := actions[0];
      match action.actionType {
        case Move => Movement.StepKeepsCellsUnshared(entities, leftEdge, rightEdge, action);
        case Attack => Attack.StepKeepsCellsUnshared(entities, action);
      }
      var next := Apply(entities, leftEdge, rightEdge, action).entities;
      ApplyAllKeepsCellsUnshared(next, leftEdge, rightEdge, actions[1..]);
    }
  }

  /** `process_action`: run the processor matching the action's kind on the live world. */
  method ProcessAction(world: World, action: ActionData) returns (r: ActionResult<()>)
    modifies world
    ensures r == Apply(old(world.entities), world.leftEdge, world.rightEdge, action).result
    ensures world.entities == Apply(old(world.entities), world.leftEdge, world.rightEdge, action).entities
    ensures world.actions == old(world.actions) && world.currentId == old(world.currentId)
  {
    match action.actionType
    case Move => r := Movement.Process(world, action);
    case Attack => r := Attack.Process(world, action);
  }

  /** `process_actions`: every action of the list, once each, in order. */
  method ProcessActions(world: World, actions: seq<ActionData>)
    modifies world
    ensures world.entities == ApplyAll(old(world.entities), world.leftEdge, world.rightEdge, actions)
    ensures world.actions == old(world.actions) && world.currentId == old(world.currentId)
  {
    for i := 0 to |actions|
      invariant world.entities == ApplyAll(old(world.entities), world.leftEdge, world.rightEdge, actions[..i])
      invariant world.actions == old(world.actions) && world.currentId == old(world.currentId)
    {
      var _ := ProcessAction(world, actions[i]);
      ApplyAllAppend(old(world.entities), world.leftEdge, world.rightEdge, actions[..i], [actions[i]]);
      assert actions[..i + 1] == actions[..i] + [actions[i]];
    }
    assert actions[..|actions|] == actions;
  }
}
