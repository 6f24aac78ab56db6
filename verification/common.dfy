/** Read-only lookups shared by the action processors (engine/src/actions/common.rs). */
module Common {
  import opened Wrappers
  import opened Entities
  import opened Actions

  /** The entity registered under `entityId`, or `InvalidEntityId(entityId)` when there is none. */
  function GetEntity(entities: map<int, Entity>, entityId: int): (r: ActionResult<Entity>)
    ensures r.Ok? <==> entityId in entities
    ensures r.Ok? ==> r.value == entities[entityId]
    ensures r.Err? ==> r.error == InvalidEntityId(entityId)
  {
    if entityId in entities then Ok(entities[entityId]) else Err(InvalidEntityId(entityId))
  }

  /** The action's target id, or `EmptyTargetEntityId` when it carries none. */
  function GetTargetId(action: ActionData): (r: ActionResult<int>)
    ensures r.Ok? <==> action.targetEntityId.Some?
    ensures r.Ok? ==> r.value == action.targetEntityId.value
    ensures r.Err? ==> r.error == EmptyTargetEntityId
  {
    match action.targetEntityId
    case Some(id) => Ok(id)
    case None => Err(EmptyTargetEntityId)
  }
}
