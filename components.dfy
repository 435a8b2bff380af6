/** The entity record of the battle simulation and its component types.

    An entity is a numeric id plus an open set of optional components; which
    components are present decides the entity's role (unit, bullet, ...).
    Every component is an `Option`, so "has health" is `e.health.Some?`.
    The string-literal unions of the original (`'player' | 'enemy'`, the three
    target priorities, the four round results) become enumerations, so a value
    outside them cannot be written down. */
module Components {

  datatype Option<T> = None | Some(value: T)

  /** A point or a direction in world space. */
  datatype Vec = Vec(x: real, y: real)

  function Add(a: Vec, b: Vec): Vec { Vec(a.x + b.x, a.y + b.y) }
  function Sub(a: Vec, b: Vec): Vec { Vec(a.x - b.x, a.y - b.y) }
  function Scale(a: Vec, k: real): Vec { Vec(a.x * k, a.y * k) }

  /** The floating-point geometry of the rendering engine, supplied from
      outside: `dist` is the Euclidean distance of two points (`pos.dist`),
      `unit` the normalised direction of a vector (`vec2.unit()`). */
  datatype Geometry = Geometry(dist: (Vec, Vec) -> real, unit: Vec -> Vec)

  datatype Velocity = Velocity(vx: real, vy: real)

  datatype Health = Health(current: real, max: real)

  datatype Combat = Combat(damage: real, range: real, reloadTime: real, accuracy: real, lastShotTime: real)

  /** A weak reference: a plain id, or null, never an owning link. */
  datatype Target = Target(entityId: Option<nat>)

  datatype Priority = Closest | LowestHealth | HighestThreat

  datatype UnitType = UnitType(typeId: string, targetPriority: Priority)

  datatype TeamId = Player | Enemy

  datatype Team = Team(id: TeamId)

  /** The engine object that draws the entity. Its `pos` is the authoritative
      position during a round. Bullets also carry the `direction` and `speed`
      stored on them at creation; on a unit's object `speed` is absent, which
      is written 0 (falsy). */
  datatype GameObj = GameObj(pos: Vec, tags: seq<string>, direction: Option<Vec>, speed: real)

  datatype Sprite = Sprite(gameObj: Option<GameObj>)

  /** A bullet knows its shooter only through the shooter's id. */
  datatype Bullet = Bullet(ownerId: nat, damage: real, speed: real)

  datatype Dead = Dead(markedForDeath: bool)

  datatype Movement = Movement(speed: real, targetX: Option<real>, targetY: Option<real>, engagementRange: real)

  datatype InitialState = InitialState(x: real, y: real, health: real)

  datatype Entity = Entity(
    id: nat,
    position: Option<Vec>,
    velocity: Option<Velocity>,
    health: Option<Health>,
    combat: Option<Combat>,
    target: Option<Target>,
    unitType: Option<UnitType>,
    team: Option<Team>,
    sprite: Option<Sprite>,
    bullet: Option<Bullet>,
    dead: Option<Dead>,
    movement: Option<Movement>,
    initialState: Option<InitialState>)

  /** `sprite?.gameObj` is truthy. */
  predicate HasGameObj(e: Entity) {
    e.sprite.Some? && e.sprite.value.gameObj.Some?
  }

  function GameObjOf(e: Entity): GameObj
    requires HasGameObj(e)
  {
    e.sprite.value.gameObj.value
  }

  function PosOf(e: Entity): Vec
    requires HasGameObj(e)
  {
    GameObjOf(e).pos
  }

  /** The entity with its engine object moved to `p`; nothing else changes. */
  function WithPos(e: Entity, p: Vec): (r: Entity)
    requires HasGameObj(e)
    ensures HasGameObj(r) && PosOf(r) == p
    ensures GameObjOf(r) == GameObjOf(e).(pos := p)
    ensures r.(sprite := e.sprite) == e
  {
    e.(sprite := Some(Sprite(Some(GameObjOf(e).(pos := p)))))
  }

  /** The engine's `move(v)`: `v` is a velocity in units per second, applied
      over the frame time `dt` the engine keeps itself. */
  function Move(p: Vec, v: Vec, dt: real): Vec { Add(p, Scale(v, dt)) }

  function Max(a: real, b: real): real { if a >= b then a else b }

  /** The textual name of a team, as used in the `team-<name>` tag. */
  function TeamName(t: TeamId): string {
    match t
    case Player => "player"
    case Enemy => "enemy"
  }
}
