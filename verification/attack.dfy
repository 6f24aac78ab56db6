/**
 * The attack processor (engine/src/actions/attack.rs): check the attacker, read the target id,
 * deal one point of damage to the target if it still exists, and remove it once its hit points
 * reach zero.
 */
module Attack {
  import opened Wrappers
  import opened Coordinates
  import opened Entities
  import opened Actions
  import opened Worlds
  import Common

  /** The fixed damage of one attack. */
  const Damage: real := 1.0

  function Direct(entityId: int, targetEntityId: int): ActionData {
    ActionData(entityId, Some(targetEntityId), Attack, None)
  }

  /**
   * `attack::process` on the registry. Errors come only from the two lookups and leave the
   * registry as it was; an attack adds no entity and moves none.
   */
  function Step(entities: map<int, Entity>, action: ActionData): (o: Outcome)
    ensures o.result.Err? <==> action.entityId !in entities || action.targetEntityId.None?
    ensures o.result.Err? ==> o.entities == entities
    ensures KeyedById(entities) ==> KeyedById(o.entities) && o.entities.Keys <= entities.Keys
    ensures KeyedById(entities) ==> forall k :: k in o.entities ==>
      o.entities[k].coord == entities[k].coord && o.entities[k].entityType == entities[k].entityType
  {
    match Common.GetEntity(entities, action.entityId)
    case Err(e) => Outcome(Err(e), entities)
    case Ok(_) =>
      match Common.GetTargetId(action)
      case Err(e) => Outcome(Err(e), entities)
      case Ok(targetId) =>
        if targetId !in entities then Outcome(Ok(()), entities)
        else
          var newTarget := entities[targetId].TakeDamage(Damage);
          match newTarget.hitPoints
          case None => Outcome(Ok(()), entities)
          case Some(hp) =>
            if hp <= 0.0 then Outcome(Ok(()), entities - {newTarget.id})
            else Outcome(Ok(()), entities[newTarget.id := newTarget])
  }

  /** `attack::process` on a live world: the registry and the result are those of `Step`. */
  method Process(world: World, action: ActionData) returns (r: ActionResult<()>)
    modifies world
    ensures r == Step(old(world.entities), action).result
    ensures world.entities == Step(old(world.entities), action).entities
    ensures world.actions == old(world.actions) && world.currentId == old(world.currentId)
  {
    var attacker := Common.GetEntity(world.entities, action.entityId);
    if attacker.Err? {
      return Err(attacker.error);
    }
    var targetId := Common.GetTargetId(action);
    if targetId.Err? {
      return Err(targetId.error);
    }
    var target := world.GetEntity(targetId.value);
    if target.Some? {
      var newTarget := target.value.TakeDamage(Damage);
      if newTarget.hitPoints.Some? {
        if newTarget.hitPoints.value <= 0.0 {
          world.RemoveEntity(newTarget);
        } else {
          world.UpdateEntity(newTarget);
        }
      }
    }
    return Ok(());
  }

  /** An action built by `Direct` always names a target: it fails only when the attacker is unknown. */
  lemma DirectAlwaysTargets(entities: map<int, Entity>, entityId: int, targetEntityId: int)
    ensures Direct(entityId, targetEntityId) == ActionData(entityId, Some(targetEntityId), Attack, None)
    ensures Step(entities, Direct(entityId, targetEntityId)).result.Err? <==> entityId !in entities
    ensures entityId !in entities ==>
      Step(entities, Direct(entityId, targetEntityId)).result == Err(InvalidEntityId(entityId))
  {
  }

  /** The attacker is checked before the target: an unknown attacker is reported even without a target. */
  lemma UnknownAttackerRejected(entities: map<int, Entity>, action: ActionData)
    requires action.entityId !in entities
    ensures Step(entities, action) == Outcome(Err(InvalidEntityId(action.entityId)), entities)
  {
  }

  lemma MissingTargetIdRejected(entities: map<int, Entity>, action: ActionData)
    requires action.entityId in entities && action.targetEntityId.None?
    ensures Step(entities, action) == Outcome(Err(EmptyTargetEntityId), entities)
  {
  }

  /** A target that is not (or no longer) in the world makes the attack a harmless success. */
  lemma AbsentTargetIsNoOp(entities: map<int, Entity>, action: ActionData)
    requires action.entityId in entities && action.targetEntityId.Some?
    requires action.targetEntityId.value !in entities
    ensures Step(entities, action) == Outcome(Ok(()), entities)
  {
  }

  /** A target without hit points is neither damaged nor removed. */
  lemma InvulnerableTargetUnchanged(entities: map<int, Entity>, action: ActionData)
    requires action.entityId in entities && action.targetEntityId.Some?
    requires action.targetEntityId.value in entities
    requires entities[action.targetEntityId.value].hitPoints.None?
    ensures Step(entities, action) == Outcome(Ok(()), entities)
  {
  }

  /**
   * A target with hit points loses one: at zero or below it is removed, otherwise it is stored with
   * the reduced hit points. The attack succeeds and no other entity changes.
   */
  lemma DamageOutcome(entities: map<int, Entity>, action: ActionData)
    requires KeyedById(entities)
    requires action.entityId in entities && action.targetEntityId.Some?
    requires action.targetEntityId.value in entities
    requires entities[action.targetEntityId.value].hitPoints.Some?
    ensures var t := action.targetEntityId.value;
      var hp := entities[t].hitPoints.value - 1.0;
      var o := Step(entities, action);
      && o.result == Ok(())
      && (hp <= 0.0 ==> o.entities == entities - {t})
      && (hp > 0.0 ==> o.entities == entities[t := entities[t].(hitPoints := Some(hp))])
  {
  }

  /** Once both lookups succeed the attack succeeds, and only the target's entry can change. */
  lemma OnlyTargetChanges(entities: map<int, Entity>, action: ActionData)
    requires KeyedById(entities)
    requires action.entityId in entities && action.targetEntityId.Some?
    ensures var o := Step(entities, action);
      && o.result == Ok(())
      && forall k :: k in entities && k != action.targetEntityId.value ==> k in o.entities && o.entities[k] == entities[k]
  {
  }

  /** Attacking again after the target was removed is a safe no-op, as long as the attacker survives. */
  lemma RepeatAfterKill(entities: map<int, Entity>, action: ActionData)
    requires KeyedById(entities)
    requires action.entityId in entities && action.targetEntityId.Some?
    requires action.targetEntityId.value != action.entityId
    ensures var first := Step(entities, action).entities;
      action.targetEntityId.value !in first ==> Step(first, action) == Outcome(Ok(()), first)
  {
    OnlyTargetChanges(entities, action);
  }

  /** An attack keeps the rule that no two entities share a cell. */
  lemma StepKeepsCellsUnshared(entities: map<int, Entity>, action: ActionData)
    requires KeyedById(entities) && NoSharedCells(entities)
    ensures NoSharedCells(Step(entities, action).entities)
  {
  }

  /**
   * The `attack_entity` and `properly_handle_multiple_attacks` tests: entity 2 with one hit point
   * is removed by the first attack and the second attack is still a success.
   */
  lemma DoubleAttackExample()
    ensures var start := map[1 := Entity.New(1, Coordinate(1, 1)),
                             2 := Entity.New(2, Coordinate(1, 2)).(hitPoints := Some(1.0))];
      var first := Step(start, Direct(1, 2));
      && first.result == Ok(()) && 2 !in first.entities
      && Step(first.entities, Direct(1, 2)) == Outcome(Ok(()), first.entities)
  {
  }
}
