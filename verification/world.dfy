/**
 * The authoritative game state (engine/src/models/world.rs): an id counter, the entity registry
 * keyed by id, the queue of pending actions, the map bounds and the printable grid size.
 */
module Worlds {
  import opened Wrappers
  import opened Coordinates
  import opened Directions
  import opened Entities
  import opened Actions

  /** Largest `i32`; the id counter cannot pass it without overflowing. */
  const I32Max: int := 0x7fff_ffff

  /** Map bounds of a new world, chosen by this model; the print size below is the printer test's. */
  const DefaultLeftEdge: Coordinate := Coordinate(0, 0)
  const DefaultRightEdge: Coordinate := Coordinate(8, 4)
  const DefaultSizeX: nat := 8
  const DefaultSizeY: nat := 4

  /** Every entity is stored under its own id. */
  ghost predicate KeyedById(entities: map<int, Entity>) {
    forall id :: id in entities ==> entities[id].id == id
  }

  /** No two stored entities stand on the same cell. */
  ghost predicate NoSharedCells(entities: map<int, Entity>) {
    forall i, j :: i in entities && j in entities && i != j ==> entities[i].coord != entities[j].coord
  }

  predicate IsLowest(s: set<int>, m: int) {
    m in s && forall k :: k in s ==> m <= k
  }

  lemma {:induction false} LowestExists(s: set<int>, x: int)
    requires x in s
    ensures exists m :: IsLowest(s, m)
    decreases |s|
  {
    var rest := s - {x};
    assert forall k :: k in s ==> k == x || k in rest;
    if y :| y in rest {
      LowestExists(rest, y);
      var m :| IsLowest(rest, m);
      var low := if x < m then x else m;
      assert IsLowest(s, low);
    } else {
      assert IsLowest(s, x);
    }
  }

  function Lowest(s: set<int>): (m: int)
    requires exists x :: x in s
    ensures IsLowest(s, m)
  {
    var x :| x in s;
    LowestExists(s, x);
    var m :| IsLowest(s, m);
    m
  }

  /** `e` is the entity stored under some key. */
  ghost predicate Stored(entities: map<int, Entity>, e: Entity) {
    exists id :: id in entities && entities[id] == e
  }

  /**
   * `World::on_coord`: the entity standing on `c`, if any. The source scans a hash map, whose
   * order is unspecified; the model breaks ties between entities sharing a cell by lowest key.
   */
  function EntityAt(entities: map<int, Entity>, c: Coordinate): (r: Option<Entity>)
    ensures r.None? <==> forall id :: id in entities ==> entities[id].coord != c
    ensures r.Some? ==> r.value.coord == c && Stored(entities, r.value)
    ensures r.Some? ==>
      exists id :: id in entities && entities[id] == r.value &&
        forall k :: k in entities && entities[k].coord == c ==> id <= k
  {
    var ids := set id | id in entities && entities[id].coord == c;
    if exists id :: id in entities && entities[id].coord == c then
      var found :| found in entities && entities[found].coord == c;
      assert found in ids;
      var id := Lowest(ids);
      assert forall k :: k in entities && entities[k].coord == c ==> k in ids;
      assert id in entities && forall k :: k in entities && entities[k].coord == c ==> id <= k;
      Some(entities[id])
    else
      None
  }

  /** Where no cell is shared, the query finds exactly the entity on the cell. */
  lemma EntityAtUnique(entities: map<int, Entity>, c: Coordinate, e: Entity)
    requires NoSharedCells(entities)
    ensures EntityAt(entities, c) == Some(e) <==> Stored(entities, e) && e.coord == c
  {
    if Stored(entities, e) && e.coord == c {
      var id :| id in entities && entities[id] == e;
      var r := EntityAt(entities, c);
      assert r.Some?;
      var j :| j in entities && entities[j] == r.value;
      assert j == id;
    }
  }

  /** What one processed action did: its result and the registry afterwards. */
  datatype Outcome = Outcome(result: ActionResult<()>, entities: map<int, Entity>)

  class World {
    var currentId: int
    var entities: map<int, Entity>
    var actions: seq<ActionData>
    const leftEdge: Coordinate
    const rightEdge: Coordinate
    const sizeX: nat
    const sizeY: nat

    /** Ids are handed out by `Register` only: each entity sits under its own id, at most the counter. */
    ghost predicate Valid()
      reads this
    {
      && 0 <= currentId <= I32Max
      && KeyedById(entities)
      && forall id :: id in entities ==> 1 <= id <= currentId
    }

    /** `World::new`: no entities, no actions, default bounds and grid size. */
    constructor ()
      ensures Valid()
      ensures currentId == 0 && entities == map[] && actions == []
      ensures leftEdge == DefaultLeftEdge && rightEdge == DefaultRightEdge
      ensures sizeX == DefaultSizeX && sizeY == DefaultSizeY
    {
      currentId := 0;
      entities := map[];
      actions := [];
      leftEdge := DefaultLeftEdge;
      rightEdge := DefaultRightEdge;
      sizeX := DefaultSizeX;
      sizeY := DefaultSizeY;
    }

    /** `World::create(edge)`: like `new`, with `edge` as the inclusive lower-right bound. */
    constructor Create(edge: Coordinate)
      ensures Valid()
      ensures currentId == 0 && entities == map[] && actions == []
      ensures leftEdge == DefaultLeftEdge && rightEdge == edge
      ensures sizeX == DefaultSizeX && sizeY == DefaultSizeY
    {
      currentId := 0;
      entities := map[];
      actions := [];
      leftEdge := DefaultLeftEdge;
      rightEdge := edge;
      sizeX := DefaultSizeX;
      sizeY := DefaultSizeY;
    }

    /** A copy of the entity stored under `id`; absent ids give `None`. */
    function GetEntity(id: int): (r: Option<Entity>)
      reads this
      ensures r.Some? <==> id in entities
      ensures r.Some? ==> r.value == entities[id]
    {
      if id in entities then Some(entities[id]) else None
    }

    /** Upsert under the entity's own id. */
    method UpdateEntity(e: Entity)
      modifies this
      ensures entities == old(entities)[e.id := e]
      ensures actions == old(actions) && currentId == old(currentId)
      ensures old(Valid()) && e.id in old(entities) ==> Valid()
    {
      entities := entities[e.id := e];
    }

    /** Assign the next id to a copy of `e`, store it and return it. */
    method Register(e: Entity) returns (r: Entity)
      requires currentId < I32Max
      modifies this
      ensures currentId == old(currentId) + 1
      ensures r == e.WithId(currentId)
      ensures entities == old(entities)[r.id := r]
      ensures actions == old(actions)
      ensures old(Valid()) ==> Valid() && forall id :: id in old(entities) ==> id < r.id
    {
      currentId := currentId + 1;
      var newEntity := e.WithId(currentId);
      entities := entities[currentId := newEntity];
      r := newEntity;
    }

    /** Append to the end of the queue. */
    method RegisterAction(a: ActionData)
      modifies this
      ensures actions == old(actions) + [a]
      ensures entities == old(entities) && currentId == old(currentId)
    {
      actions := actions + [a];
    }

    function HasActions(): (b: bool)
      reads this
      ensures b <==> |actions| > 0
    {
      |actions| > 0
    }

    /** Delete the entry under the entity's id; deleting an absent id changes nothing. */
    method RemoveEntity(e: Entity)
      modifies this
      ensures entities == old(entities) - {e.id}
      ensures actions == old(actions) && currentId == old(currentId)
      ensures old(Valid()) ==> Valid()
    {
      entities := entities - {e.id};
    }

    method ClearActions()
      modifies this
      ensures actions == []
      ensures entities == old(entities) && currentId == old(currentId)
    {
      actions := [];
    }

    /** A copy of the queue: the same actions in the same order, detached from later changes. */
    function GetActions(): (r: seq<ActionData>)
      reads this
      ensures |r| == |actions| && forall i :: 0 <= i < |r| ==> r[i] == actions[i]
    {
      actions
    }
  }

  /** The `register_entity` test: a fresh world hands out ids 1 and 2 and stores what it returns. */
  method RegisterTwice() returns (first: Entity, second: Entity, storedFirst: Option<Entity>, storedSecond: Option<Entity>)
    ensures first.id == 1 && second.id == 2
    ensures storedFirst == Some(first) && storedSecond == Some(second)
  {
    var world := new World();
    first := world.Register(Entity.New(0, Coordinate(0, 0)));
    second := world.Register(Entity.New(0, Coordinate(0, 0)));
    storedFirst := world.GetEntity(first.id);
    storedSecond := world.GetEntity(second.id);
  }

  /** The `register_action` test: a new world has no actions, one registered action makes it have some. */
  method QueueOne() returns (before: bool, after: bool)
    ensures !before && after
  {
    var world := new World();
    before := world.HasActions();
    world.RegisterAction(ActionData(123, None, Move, Some(DOWN)));
    after := world.HasActions();
  }
}
