# wwtrader turn engine, modelled in Dafny

wwtrader is a small turn-based grid game. Its engine keeps a `World`: a registry of entities
(players, enemies, obstacles, holes) keyed by a numeric id, each standing on a cell of a bounded
grid, together with a queue of pending actions. Each turn, player controllers look along the
direction the player pressed and queue an attack on the first enemy or player along the ray,
passing over holes, unless an obstacle comes first; otherwise they queue a move.
The runner then applies every queued action in order and empties the queue. A text printer draws
the grid, one drawing per cell; a drawing is one character except for player slots outside 0 to 9,
whose numerals are longer.

This project models that core:

| module | file | models |
|---|---|---|
| `Coordinates` | coordinate.dfy | grid cells, adjacency, the inclusive bounds test, translation |
| `Directions` | direction.dfy | the four unit directions |
| `Entities` | entity.dfy | entities, their kinds, copy-with-update helpers, damage, the actor factories |
| `Actions` | action.dfy | action records and action errors |
| `Worlds` | world.dfy | the `World` class (id counter, entity map, action queue, grid edges and print size), the cell lookup `EntityAt` |
| `Common` | common.dfy | shared lookups that fail with an action error |
| `Movement` | movement.dfy | move actions: factories, validation, the move itself |
| `Attack` | attack.dfy | direct attacks: damage, removal at zero hit points |
| `Processor` | processor.dfy | dispatch of one action and in-order application of a list |
| `Runner` | runner.dfy | one turn: apply the queue, then clear it |
| `Player` | player.dfy | the player controller: target scan along a ray, attack-or-move choice |
| `Serializer` | basic.dfy | the text grid printer |

Every action is specified twice. A pure function on the entity map (`Movement.Step`,
`Attack.Step`, `Processor.Apply`, `Processor.ApplyAll`) states what the action does. A method that
takes the `World` (`Movement.Process`, `Attack.Process`, `Processor.ProcessAction`,
`Processor.ProcessActions`, `Runner.Run`) does it in place, and its postcondition ties the new state
to that function. The read-only computations follow the same pattern without changing anything:
the scanning loop `Player.PlayerController.GetTarget` returns what the function `Player.Target`
gives, and the printing loops of `Serializer.Print` return the rows that `Serializer.Rows` gives. The lemmas state the properties about the functions: which errors
occur exactly when, that a failed action changes nothing, that ids stay the keys of the registry,
that no two entities come to share a cell, that a move can be undone, that an attack only touches
its target, that the target scan returns the first hit on the ray, that the printed text has one
line per row and, for single-character drawings, one character per cell, and that decimal numbers read back to their value.

Where the source files disagree with one another, the model makes these choices:

- `process_actions` ignores each action's result and goes on with the next action. It does not
  stop at the first error, and neither does the model.
- The dispatch in `engine/src/actions/processor.rs` lists only `Move`, while the action type in
  `engine/src/actions/action.rs` declares both `Move` and `Attack`. The model's own choice is to
  send `Attack` to the attack processor of `engine/src/actions/attack.rs`, so that the match covers
  every kind.
- `engine/src/models/entity.rs` shows an entity without hit points and an `Enemy` kind without a
  glyph. `attack.rs`, `player.rs` and the actor factories use hit points, `Obstacle`, `Hole` and a
  glyph on `Enemy`. The model has all of these.
- `engine/src/actions/error.rs` lacks `EmptyTargetEntityId`, which `common.rs` returns. The model
  has it.

## Model

| member | source | states |
|---|---|---|
| Coordinates.AdjacentIsChebyshev | engine/src/models/coordinate.rs:15-19 | where the i8 differences do not overflow, two cells are adjacent exactly when they differ by at most one in each axis |
| Coordinates.AdjacentReflexive | engine/src/models/coordinate.rs:15-19 | every cell is adjacent to itself |
| Coordinates.AdjacentSymmetric | engine/src/models/coordinate.rs:15-19 | adjacency is symmetric |
| Coordinates.AdjacentExamples | engine/src/models/coordinate.rs:33-40 | the four adjacency cases of the unit test, three adjacent and one not |
| Directions.UnitConstants | engine/src/models/direction.rs:7-10 | the four constants are distinct unit steps, with left opposite right and up opposite down |
| Entities.Constructors | engine/src/models/entity.rs:21-34 | the default entity is player 1 at the origin with id 0; `new` keeps id and cell and makes an enemy with no hit points |
| Entities.CopyUpdates | engine/src/models/entity.rs:36-42 | `with_coordinate` and `with_id` change only their field, are identities on the current value, and commute |
| Entities.TakeDamageEffect | engine/src/actions/attack.rs:20-22 | damage lowers present hit points by the amount, leaves an entity without hit points without them, and changes nothing else |
| Entities.ActorKinds | engine/src/models/actors/player.rs:5-11 | the four actor factories give player 1, enemy `B`, obstacle `#` and hole `~` on the given cell, otherwise default |
| Worlds.EntityAt | engine/src/actions/movement.rs:74-79 | the cell lookup finds nothing exactly when no entity stands on the cell, and otherwise a stored entity on that cell with the lowest key among them |
| Worlds.EntityAtUnique | engine/src/serializers/basic.rs:21-27 | when no two entities share a cell, the lookup returns exactly the stored entity standing on the cell |
| Worlds.World.constructor | engine/src/models/world.rs:18-24 | a new world has counter 0, no entities, no actions, the edges (0,0) and (8,4) and an 8 by 4 print size |
| Worlds.World.Create | engine/src/actions/movement.rs:148-150 | a world created with a given far edge has that right edge and is otherwise new |
| Worlds.World.GetEntity | engine/src/models/world.rs:26-28 | returns a copy of the entity under the id exactly when the id is registered |
| Worlds.World.UpdateEntity | engine/src/models/world.rs:30-32 | stores the entity under its own id, replacing any entity there, and touches nothing else |
| Worlds.World.Register | engine/src/models/world.rs:34-39 | bumps the counter, stores and returns the entity re-keyed with the new counter, which is above every earlier id |
| Worlds.World.RegisterAction | engine/src/models/world.rs:41-43 | appends the action at the end of the queue |
| Worlds.World.HasActions | engine/src/models/world.rs:45-47 | true exactly when the queue is not empty |
| Worlds.World.GetActions | engine/src/game/runner.rs:22-25 | a copy of the queue: the same actions in the same order |
| Worlds.World.RemoveEntity | engine/src/actions/attack.rs:23-24 | removes the entity's id from the registry and nothing else |
| Worlds.World.ClearActions | engine/src/game/runner.rs:14 | empties the queue and keeps the registry |
| Worlds.RegisterTwice | engine/src/models/world.rs:54-65 | two registrations in a new world get ids 1 and 2 and are stored under them |
| Worlds.QueueOne | engine/src/models/world.rs:67-76 | a new world has no actions, and has some after one is registered |
| Common.GetEntity | engine/src/actions/common.rs:7-13 | succeeds with the stored entity exactly when the id is registered, otherwise fails with `InvalidEntityId` of that id |
| Common.GetTargetId | engine/src/actions/common.rs:15-21 | succeeds with the target id exactly when the action has one, otherwise fails with `EmptyTargetEntityId` |
| Movement.Step | engine/src/actions/movement.rs:50-64 | a failed move leaves the registry unchanged; any move keeps the same ids, keyed by id, with kinds and hit points unchanged |
| Movement.Process | engine/src/actions/movement.rs:50-64 | the in-place move returns the result and leaves the registry that `Step` gives, queue and counter untouched |
| Movement.FactoryDirections | engine/src/actions/movement.rs:10-40 | the four factories make move actions for the given entity, with no target, in the named direction; left undoes right and up undoes down |
| Movement.OperateUndo | engine/src/actions/movement.rs:81-86 | translating by a direction adds its components, and translating back by the opposite direction restores the cell |
| Movement.UnknownActorRejected | engine/src/actions/movement.rs:50-51 | moving an unregistered entity fails with `InvalidEntityId` of that id and changes nothing |
| Movement.NoDirectionIsNoOp | engine/src/actions/movement.rs:53-63 | a move with no direction succeeds and changes nothing |
| Movement.OutOfMapRejected | engine/src/actions/movement.rs:66-72 | a move whose destination is outside the edges fails with `OutOfMapCoordinate` of the destination and changes nothing |
| Movement.OccupiedRejected | engine/src/actions/movement.rs:74-79 | a move inside the map onto an occupied cell fails with `PositionOccupied` of the destination and changes nothing |
| Movement.MoveLegality | engine/src/actions/movement.rs:53-61 | a directed move succeeds exactly when the destination is inside the edges and free, and then only the mover's cell changes, to the destination |
| Movement.StepKeepsCellsUnshared | engine/src/actions/movement.rs:56-60 | if no two entities shared a cell before a move, none do after it |
| Movement.MoveThereAndBack | engine/src/actions/movement.rs:103-125 | a successful move followed by the opposite move succeeds and restores the registry |
| Movement.BlockedMoveExample | engine/src/actions/movement.rs:127-145 | the occupied-cell test: moving entity 1 down onto entity 2 fails at (1,2) and neither moves |
| Movement.WorldEndExample | engine/src/actions/movement.rs:147-176 | the world-end test, all four cases: up and left from (0,0), right and down from (8,8) each fail with the off-map cell and leave the registry unchanged |
| Attack.Step | engine/src/actions/attack.rs:15-32 | fails exactly when the attacker is unregistered or the action has no target id, changing nothing then; keeps ids as keys, drops at most entities, moves nothing |
| Attack.Process | engine/src/actions/attack.rs:15-32 | the in-place attack returns the result and leaves the registry that `Step` gives, queue and counter untouched |
| Attack.DirectAlwaysTargets | engine/src/actions/attack.rs:6-13 | `direct` makes an attack by the given actor on the given target id, with no direction; it fails only when the attacker is unregistered |
| Attack.UnknownAttackerRejected | engine/src/actions/attack.rs:16 | an attack by an unregistered entity fails with `InvalidEntityId` of that id and changes nothing |
| Attack.MissingTargetIdRejected | engine/src/actions/attack.rs:18-19 | an attack without a target id fails with `EmptyTargetEntityId` and changes nothing |
| Attack.AbsentTargetIsNoOp | engine/src/actions/attack.rs:18-21 | an attack on an unregistered target succeeds and changes nothing |
| Attack.InvulnerableTargetUnchanged | engine/src/actions/attack.rs:22-28 | an attack on a target without hit points succeeds and changes nothing |
| Attack.DamageOutcome | engine/src/actions/attack.rs:20-28 | a target with hit points loses one; it is removed when the rest is at most zero and stored with the lower value otherwise |
| Attack.OnlyTargetChanges | engine/src/actions/attack.rs:18-29 | once attacker and target id are present the attack succeeds, and every entity other than the target is unchanged and still present |
| Attack.RepeatAfterKill | engine/src/actions/attack.rs:82-99 | attacking again after the target is gone succeeds and changes nothing |
| Attack.StepKeepsCellsUnshared | engine/src/actions/attack.rs:18-29 | an attack never makes two entities share a cell |
| Attack.DoubleAttackExample | engine/src/actions/attack.rs:65-99 | the attack tests: a one-hit-point target is removed by the first attack, and the second attack also succeeds |
| Processor.Apply | engine/src/actions/processor.rs:12-16 | dispatch by action type; a failed action changes nothing, and ids stay keys with no new ones |
| Processor.ApplyAll | engine/src/actions/processor.rs:6-10 | applying a list keeps ids as keys and adds no entity |
| Processor.ApplyAllAppend | engine/src/actions/processor.rs:6-10 | applying two lists in a row is applying their concatenation |
| Processor.ApplyAllShortLists | engine/src/actions/processor.rs:6-10 | the empty list changes nothing; a one-action list is that action, whatever its result |
| Processor.ApplyAllKeepsCellsUnshared | engine/src/actions/processor.rs:6-10 | any list of actions keeps cells unshared |
| Processor.ProcessAction | engine/src/actions/processor.rs:12-16 | the in-place dispatch leaves the registry that `Apply` gives |
| Processor.ProcessActions | engine/src/actions/processor.rs:6-10 | the in-place loop leaves the registry that `ApplyAll` gives, for the whole list in order |
| Runner.Run | engine/src/game/runner.rs:9-15 | a turn applies the queued actions in order, empties the queue, keeps the counter and world invariant, and keeps cells unshared |
| Runner.RunActions | engine/src/game/runner.rs:17-25 | applies a snapshot of the queue and leaves the queue itself alone |
| Runner.DownThenRightSteps | engine/src/game/runner.rs:31-53 | down then right from the origin puts entity 1 on (1,1) |
| Runner.DownThenRight | engine/src/game/runner.rs:31-53 | the runner test: after the turn there are no actions and the entity stands on (1,1) |
| Player.PlayerController.GetMovementAction | engine/src/controllers/player.rs:43-53 | a move of the controlled entity in the pressed direction for the four known directions, and down for any other |
| Player.PlayerController.GetTarget | engine/src/controllers/player.rs:55-77 | the scanning loop returns `Target`: nothing for an unregistered player, else the first hit along the ray |
| Player.PlayerController.ResolveAction | engine/src/controllers/player.rs:35-41 | an attack on the target exactly when there is one, otherwise the movement action |
| Player.PlayerController.Run | engine/src/controllers/player.rs:30-33 | queues the resolved action at the end and changes nothing else |
| Player.ScanFindsFirstHit | engine/src/controllers/player.rs:58-73 | the scan returns an entity exactly when it is a player or enemy on some cell of the ray in range, every nearer cell being empty or a hole |
| Player.TargetIsOnTheRay | engine/src/controllers/player.rs:55-77 | a target stands 1 to 9 steps from the player along the direction and is a player or an enemy |
| Player.ObstacleBlocks | engine/src/controllers/player.rs:66-67 | an obstacle on the ray with only passable cells before it hides everything beyond it |
| Player.AbsentEntityMoves | engine/src/controllers/player.rs:57 | a controller whose entity is not registered finds no target and resolves to its movement action |
| Player.RayExamples | engine/src/controllers/player.rs:55-77 | a bandit two cells away behind water is attacked; behind a mountain it is not, and the key gives a plain move |
| Serializer.AsI8 | engine/src/serializers/basic.rs:21 | the cast keeps the value modulo 256 in the i8 range, and is the identity up to 127 |
| Serializer.IntToString | engine/src/serializers/basic.rs:23 | the canonical decimal numeral: a minus sign exactly for negative numbers, then digits without a leading zero, and `0` for zero |
| Serializer.NatToStringRoundTrip | engine/src/serializers/basic.rs:23 | the digits written for a natural number read back as that number |
| Serializer.IntToStringRoundTrip | engine/src/serializers/basic.rs:23 | the numeral written for any integer reads back as that integer |
| Serializer.Print | engine/src/serializers/basic.rs:7-18 | the nested loops produce the rows of the grid joined by newlines |
| Serializer.CellDrawing | engine/src/serializers/basic.rs:20-28 | a cell shows a blank when empty, the slot number for a player, `e` for an enemy, the glyph otherwise |
| Serializer.OneCharCell | engine/src/serializers/basic.rs:20-28 | with single-digit slots and no newline glyphs, every cell is one character other than a newline |
| Serializer.ConcatOfSingles | engine/src/serializers/basic.rs:14 | joining one-character cells gives a string whose x-th character is cell x |
| Serializer.SplitJoin | engine/src/serializers/basic.rs:17 | splitting the joined lines at the separator gives the lines back, when no line contains it |
| Serializer.PrintedLines | engine/src/serializers/basic.rs:7-18 | the text splits into exactly size_y lines, each of size_x characters, character x of line y being cell (x, y) |
| Serializer.EmptyWorldPrint | engine/src/serializers/basic.rs:36-45 | the rows of an empty registry are four lines of eight blanks |
| Serializer.PlayerWorldPrint | engine/src/serializers/basic.rs:47-58 | with player 1 on (1,1) the rows are blank except for `1` at column 1 of row 1 |
| Serializer.PrintEmptyWorld | engine/src/serializers/basic.rs:36-45 | printing a new world gives four lines of eight blanks |
| Serializer.PrintWorldWithPlayer | engine/src/serializers/basic.rs:47-58 | printing a new world after registering a player on (1,1) shows `1` there |

## Left out

- Coordinates, directions and hit points: the source mixes `i8` and `f32` coordinates across
  revisions. The model uses unbounded integers for cells and steps and exact reals for hit points.
  It does not model float rounding or the tolerance comparisons of `is_at_x`/`is_at_y`.
- Coordinates.AdjacentIsChebyshev: stated only where the `i8` subtractions in `is_adjacent` do not
  overflow; the overflow case, which panics in a debug build, is excluded by a precondition.
- Worlds.EntityAt: `on_coord` searches a hash map whose iteration order is unspecified. The model
  picks the entity with the lowest key when several share a cell. Movement and attack keep cells
  unshared, so then the choice does not matter (`Worlds.EntityAtUnique`).
- Worlds.World.Register: requires the counter to be below the `i32` maximum, where the source
  would overflow. Ids, slots and other `i32` fields are otherwise unbounded integers.
- Worlds.World.constructor: `World::new` in `engine/src/models/world.rs:18-24` sets no edges. The
  edges (0,0) and (8,4) of a new world are the model's choice. They admit column 8 and row 4, which
  the 8 by 4 printout never draws, so an entity can move onto a cell that is not printed.
- Worlds.World.Create: no revision shows both `create` and the print size; the model keeps the
  8 by 4 print size of a new world.
- Worlds.World.GetActions: the clone taken by `get_actions` is a value copy of the queue; Dafny
  sequences are values, so there is no aliasing to model.
- The level loader `engine::serializers::basic::load`, called by the front end, and `register_player`, the player-controller and player-input lists and the
  `Controller` trait are not part of this model: their source is not among the modelled files.
- The printer draws obstacles and holes by their glyph. `engine/src/serializers/basic.rs:22-25`
  only matches players and enemies, so that drawing is the model's choice.
- Entities.Constructors: `Entity::new` in `engine/src/models/entity.rs:33` makes an `Enemy` without
  a glyph, while the actor factories give enemies a glyph; the glyph `e` that the model gives to
  `Entity.New` is the model's choice (the printer draws every enemy as `e` anyway).
- `Display` implementations of errors, the engine-level error type and the graphical front end
  (window, key handling, drawing) are left out: they are presentation and I/O.
- Serializer.PrintedLines: stated for worlds whose player slots are single digits and whose
  glyphs are not newlines; other worlds still print per `Serializer.Print`, but a cell may then
  span several characters.
