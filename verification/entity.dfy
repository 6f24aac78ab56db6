/**
 * Entities (engine/src/models/entity.rs) and the actor factories of engine/src/models/actors.
 *
 * The kind tag is the union of the revisions: `Player(slot)`, and `Enemy`, `Obstacle` and `Hole`
 * each carrying their display glyph. Hit points are optional; `None` means the entity cannot be
 * damaged.
 */
module Entities {
  import opened Wrappers
  import opened Coordinates

  datatype EntityType = Player(slot: int) | Enemy(glyph: char) | Obstacle(glyph: char) | Hole(glyph: char)

  /** The glyph an enemy made by `Entity.New` carries (the one the printer shows for every enemy). */
  const EnemyGlyph: char := 'e'

  datatype Entity = Entity(id: int, coord: Coordinate, entityType: EntityType, hitPoints: Option<real>) {

    /** `Entity::default()`: id 0 at the origin, player slot 1. */
    static function Default(): Entity {
      Entity(0, Coordinate(0, 0), Player(1), None)
    }

    /** `Entity::new(id, coord)`: an enemy without hit points. */
    static function New(id: int, coord: Coordinate): Entity {
      Entity(id, coord, Enemy(EnemyGlyph), None)
    }

    function WithCoordinate(c: Coordinate): Entity {
      this.(coord := c)
    }

    function WithId(newId: int): Entity {
      this.(id := newId)
    }

    /** Lose `amount` hit points; an entity without hit points is unaffected. */
    function TakeDamage(amount: real): Entity {
      match hitPoints
      case None => this
      case Some(hp) => this.(hitPoints := Some(hp - amount))
    }
  }

  /** The actor factories: a default entity of the given kind placed at `coord`. */
  function PlayerAt(coord: Coordinate): Entity { Entity.Default().(entityType := Player(1), coord := coord) }
  function BanditAt(coord: Coordinate): Entity { Entity.Default().(entityType := Enemy('B'), coord := coord) }
  function MountainAt(coord: Coordinate): Entity { Entity.Default().(entityType := Obstacle('#'), coord := coord) }
  function WaterAt(coord: Coordinate): Entity { Entity.Default().(entityType := Hole('~'), coord := coord) }

  /** The default entity is player 1 with id 0 at the origin; `New` makes an enemy with the given id and place. */
  lemma Constructors(id: int, c: Coordinate)
    ensures Entity.Default() == Entity(0, Coordinate(0, 0), Player(1), None)
    ensures Entity.New(id, c).id == id && Entity.New(id, c).coord == c
    ensures Entity.New(id, c).entityType.Enemy? && Entity.New(id, c).hitPoints == None
  {
  }

  /** Each copy-update replaces one field, keeps the others, and is the identity on the current value. */
  lemma CopyUpdates(e: Entity, c: Coordinate, i: int)
    ensures e.WithCoordinate(c).coord == c && e.WithCoordinate(c).id == e.id
    ensures e.WithCoordinate(c).entityType == e.entityType && e.WithCoordinate(c).hitPoints == e.hitPoints
    ensures e.WithId(i).id == i && e.WithId(i).coord == e.coord
    ensures e.WithId(i).entityType == e.entityType && e.WithId(i).hitPoints == e.hitPoints
    ensures e.WithCoordinate(e.coord) == e && e.WithId(e.id) == e
    ensures e.WithCoordinate(c).WithId(i) == e.WithId(i).WithCoordinate(c)
  {
  }

  /** Damage subtracts from present hit points only, and touches nothing else. */
  lemma TakeDamageEffect(e: Entity, amount: real)
    ensures e.TakeDamage(amount).hitPoints.None? <==> e.hitPoints.None?
    ensures e.hitPoints.Some? ==> e.TakeDamage(amount).hitPoints == Some(e.hitPoints.value - amount)
    ensures e.TakeDamage(amount).id == e.id && e.TakeDamage(amount).coord == e.coord
    ensures e.TakeDamage(amount).entityType == e.entityType
  {
  }

  lemma ActorKinds(c: Coordinate)
    ensures PlayerAt(c) == Entity(0, c, Player(1), None)
    ensures BanditAt(c) == Entity(0, c, Enemy('B'), None)
    ensures MountainAt(c) == Entity(0, c, Obstacle('#'), None)
    ensures WaterAt(c) == Entity(0, c, Hole('~'), None)
  {
  }
}
