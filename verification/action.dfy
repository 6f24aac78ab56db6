/**
 * Queued intents and the errors processing them can report (engine/src/actions/action.rs,
 * engine/src/actions/error.rs, engine/src/actions/result.rs).
 */
module Actions {
  import opened Wrappers
  import opened Directions

  datatype ActionType = Move | Attack

  datatype ActionData = ActionData(
    entityId: int,
    targetEntityId: Option<int>,
    actionType: ActionType,
    direction: Option<Direction>)
  {
    static function Default(): ActionData {
      ActionData(0, None, Move, None)
    }
  }

  datatype ActionError =
    | InvalidEntityId(id: int)
    | OutOfMapCoordinate(x: int, y: int)
    | PositionOccupied(x: int, y: int)
    | EmptyTargetEntityId

  type ActionResult<T> = Result<T, ActionError>
}
