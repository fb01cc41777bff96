/** Entities, constants and integer widths of the battle map (map.h). */
module MapTypes {

  const TILE_SIZE: int := 64
  const SHOOT_DELAY: int := 170
  const CANNON_RANGE: int := 700
  const WALL_HP: int := 80
  const WAVE_DELAY_INCREMENT: int := 100
  /** Tile id every layer cell starts with; on layer 0 it means water. */
  const WATER: int := 72
  /** Sprite code a freshly placed wall or gate gets before the walls are re-oriented. */
  const FRESH_ADJACENCY: int := 6
  /** The closest-match queries start from `INT_MAX` stored in an `f32`, which rounds to 2^31. */
  const NO_DISTANCE: real := 2147483648.0
  /** A carrier that arrives beyond this point on both axes has gone home and is erased. */
  const HOME_EDGE: real := 2900.0

  const U16_LIMIT: int := 0x1_0000
  const U32_LIMIT: int := 0x1_0000_0000

  datatype Option<T> = None | Some(value: T)

  datatype Result<T, E> = Ok(value: T) | Err(error: E)

  /** Value of `v` once stored in an `i16`. */
  function I16(v: int): (r: int)
    ensures -0x8000 <= r < 0x8000
    ensures (r - v) % U16_LIMIT == 0
    ensures -0x8000 <= v < 0x8000 ==> r == v
  {
    (v + 0x8000) % U16_LIMIT - 0x8000
  }

  /** Value of `v` once stored in a `u32`. */
  function U32(v: int): (r: int)
    ensures 0 <= r < U32_LIMIT
    ensures (r - v) % U32_LIMIT == 0
    ensures 0 <= v < U32_LIMIT ==> r == v
    ensures U32_LIMIT <= v < 2 * U32_LIMIT ==> r == v - U32_LIMIT
    ensures -U32_LIMIT <= v < 0 ==> r == v + U32_LIMIT
  {
    v % U32_LIMIT
  }

  /** C's `/` for a positive divisor: the quotient is truncated toward zero. */
  function CQuot(a: int, b: int): (q: int)
    requires b > 0
    ensures a >= 0 ==> q >= 0
    ensures a < 0 ==> q <= 0
  {
    if a >= 0 then a / b else -((-a) / b)
  }

  /**
   * C's `%` for a positive divisor: the remainder takes the sign of the
   * dividend, and quotient times divisor plus remainder gives back the
   * dividend, as the C standard requires of `/` and `%`.
   */
  function CRem(a: int, b: int): (r: int)
    requires b > 0
    ensures -b < r < b
    ensures a >= 0 ==> r >= 0
    ensures a < 0 ==> r <= 0
    ensures a == CQuot(a, b) * b + r
  {
    if a >= 0 then a % b else -((-a) % b)
  }

  predicate InI16(v: int) { -0x8000 <= v < 0x8000 }

  predicate InU32(v: int) { 0 <= v < U32_LIMIT }

  datatype Vec = Vec(x: real, y: real)

  /** Distance between two points (`getDistanceE`, which is not part of this model). */
  type Metric = (real, real, real, real) -> real

  /** Aiming angle from one point to another (`get_angle`, a floating-point helper). */
  type AimFn = (real, real, real, real) -> real

  datatype UnitType = Ship | Dinghy | Footsoldier | Elite | Worker | CannonUnit

  datatype UnitState = Idle | Walking | Attacking

  datatype Owner = Red | Green | Neutral

  /**
   * One cell of the wall grid. `adjacency` selects the sprite and is derived
   * from the neighbours' `active` flags by orient_walls.
   */
  datatype Wall = Wall(active: bool, gate: bool, hp: int, adjacency: int)

  const NO_WALL: Wall := Wall(false, false, 0, 0)

  /**
   * A unit. `swing` counts the half-steps by which the source's `rotation`
   * grows while attacking (`rotation == swing * 0.5`); `wtarget` is the index
   * of the targeted wall cell (the source keeps a pointer into the grid).
   * Velocity, steering force and the carriers' heading are not modelled.
   */
  datatype Unit = Unit(pos: Vec, dest: Vec, swing: nat, hp: int, maxHp: int,
                       wtarget: Option<nat>, owner: Owner, kind: UnitType, state: UnitState)

  /** A unit that is all zeroes, as `Unit u = { 0 }` leaves it. */
  const ZERO_UNIT: Unit := Unit(Vec(0.0, 0.0), Vec(0.0, 0.0), 0, 0, 0, None, Red, Ship, Idle)

  datatype Cannon = Cannon(x: int, y: int, timer: int, rotation: real, hp: int)

  datatype Cannonball = Cannonball(x: int, y: int, rotation: real)

  /** An explosion effect; its animation state is not modelled. */
  datatype Explosion = Explosion(x: int, y: int)

  function TilePos(c: int): real { (c * TILE_SIZE) as real }
}
