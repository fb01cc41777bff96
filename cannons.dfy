/** Cannon aiming and firing in the game loop (map.h:817-835). */
module Cannons {
  import opened MapTypes
  import opened Queries

  /** The pixel corner of the cell a cannon sits on, where it looks for targets from. */
  function CannonOrigin(c: Cannon): Vec { Vec(TilePos(c.x), TilePos(c.y)) }

  /**
   * Whether a cannon whose timer has just become `timer` fires: the timer
   * is a multiple of SHOOT_DELAY under C's `%`, and the closest green unit
   * exists and is nearer than CANNON_RANGE.
   */
  predicate Fires(c: Cannon, timer: int, us: seq<Unit>, dist: Metric)
  {
    var t := ClosestEnemyOf(us, CannonOrigin(c), Green, dist);
    CRem(timer, SHOOT_DELAY) == 0 && t.found.Some? && t.shortest < CANNON_RANGE as real
  }

  /**
   * One cannon in one tick: the target is looked up, the `i16` timer
   * advances, and on a shot the cannon turns to the target and a ball
   * appears at its corner shifted by half the difference of the sprite
   * sizes (`dx`, `dy`), stored as `i16`.
   */
  function CannonStep(c: Cannon, us: seq<Unit>, dist: Metric, aim: AimFn, dx: int, dy: int): (r: (Cannon, seq<Cannonball>))
    ensures r.0.x == c.x && r.0.y == c.y && r.0.hp == c.hp && r.0.timer == I16(c.timer + 1)
    ensures |r.1| <= 1
    ensures |r.1| == 0 ==> r.0.rotation == c.rotation
    ensures |r.1| == 1 ==> r.1[0].rotation == r.0.rotation
  {
    var target := ClosestEnemyOf(us, CannonOrigin(c), Green, dist);
    var timer := I16(c.timer + 1);
    if Fires(c, timer, us, dist) then
      var o := CannonOrigin(c);
      var u := us[target.found.value];
      var rotation := aim(o.x, o.y, u.pos.x, u.pos.y);
      (c.(timer := timer, rotation := rotation),
       [Cannonball(I16(c.x * TILE_SIZE + dx), I16(c.y * TILE_SIZE + dy), rotation)])
    else (c.(timer := timer), [])
  }

  /**
   * A cannon shoots exactly when its new timer is a multiple of SHOOT_DELAY
   * and some green unit is nearer than CANNON_RANGE; the ball flies toward
   * the closest green unit, the first of the closest in list order.
   */
  lemma FiresIff(c: Cannon, us: seq<Unit>, dist: Metric, aim: AimFn, dx: int, dy: int)
    ensures var r := CannonStep(c, us, dist, aim, dx, dy);
      && (|r.1| == 1 <==>
            CRem(I16(c.timer + 1), SHOOT_DELAY) == 0 &&
            exists j :: 0 <= j < |us| && us[j].owner == Green && UnitDist(dist, us[j], CannonOrigin(c)) < CANNON_RANGE as real)
      && (|r.1| == 1 ==>
            var t := ClosestEnemyOf(us, CannonOrigin(c), Green, dist);
            && t.found.Some? && IsClosestEnemy(us, CannonOrigin(c), Green, dist, t)
            && r.1[0] == Cannonball(I16(c.x * TILE_SIZE + dx), I16(c.y * TILE_SIZE + dy),
                                    aim(TilePos(c.x), TilePos(c.y), us[t.found.value].pos.x, us[t.found.value].pos.y)))
  {
    EnemyWithin(us, CannonOrigin(c), Green, dist, CANNON_RANGE as real);
    ClosestEnemyIsNearest(us, CannonOrigin(c), Green, dist);
  }

  /** The cannons after one tick, each stepped on its own. */
  function Aimed(cs: seq<Cannon>, us: seq<Unit>, dist: Metric, aim: AimFn, dx: int, dy: int): (r: seq<Cannon>)
    ensures |r| == |cs|
    ensures forall j :: 0 <= j < |cs| ==> r[j] == CannonStep(cs[j], us, dist, aim, dx, dy).0
  {
    seq(|cs|, j requires 0 <= j < |cs| => CannonStep(cs[j], us, dist, aim, dx, dy).0)
  }

  /** The balls the cannons fire in one tick, in cannon order. */
  function Volley(cs: seq<Cannon>, us: seq<Unit>, dist: Metric, aim: AimFn, dx: int, dy: int): seq<Cannonball>
  {
    if |cs| == 0 then []
    else Volley(cs[..|cs| - 1], us, dist, aim, dx, dy) + CannonStep(cs[|cs| - 1], us, dist, aim, dx, dy).1
  }

  /** At most one ball per cannon, and none at all while no green unit is in range of any cannon. */
  lemma {:induction false} VolleyBounds(cs: seq<Cannon>, us: seq<Unit>, dist: Metric, aim: AimFn, dx: int, dy: int)
    ensures |Volley(cs, us, dist, aim, dx, dy)| <= |cs|
    ensures (forall i, j :: 0 <= i < |cs| && 0 <= j < |us| && us[j].owner == Green ==>
               UnitDist(dist, us[j], CannonOrigin(cs[i])) >= CANNON_RANGE as real) ==>
            Volley(cs, us, dist, aim, dx, dy) == []
  {
    if |cs| > 0 {
      var last := cs[|cs| - 1];
      VolleyBounds(cs[..|cs| - 1], us, dist, aim, dx, dy);
      FiresIff(last, us, dist, aim, dx, dy);
    }
  }

  /** The cannon after `k` ticks against the same units. */
  function Steps(c: Cannon, us: seq<Unit>, dist: Metric, aim: AimFn, dx: int, dy: int, k: nat): Cannon
  {
    if k == 0 then c else CannonStep(Steps(c, us, dist, aim, dx, dy, k - 1), us, dist, aim, dx, dy).0
  }

  /** Stepping a cannon keeps it in place, and from timer 0 the timer reads `k` after `k` ticks below the `i16` limit. */
  lemma {:induction false} StepsTimer(c: Cannon, us: seq<Unit>, dist: Metric, aim: AimFn, dx: int, dy: int, k: nat)
    requires c.timer == 0 && k < 0x8000
    ensures var r := Steps(c, us, dist, aim, dx, dy, k); r.x == c.x && r.y == c.y && r.timer == k
  {
    if k > 0 {
      StepsTimer(c, us, dist, aim, dx, dy, k - 1);
    }
  }

  /**
   * A cannon placed with timer 0 that has a green unit in range fires on
   * its `k`-th tick exactly when `k` is a multiple of 170, as long as the
   * timer stays below the `i16` limit.
   */
  lemma TimerCadence(c: Cannon, us: seq<Unit>, dist: Metric, aim: AimFn, dx: int, dy: int, k: nat)
    requires c.timer == 0 && 0 < k < 0x8000
    requires exists j :: 0 <= j < |us| && us[j].owner == Green && UnitDist(dist, us[j], CannonOrigin(c)) < CANNON_RANGE as real
    ensures Steps(c, us, dist, aim, dx, dy, k).timer == k
    ensures |CannonStep(Steps(c, us, dist, aim, dx, dy, k - 1), us, dist, aim, dx, dy).1| == 1 <==> k % SHOOT_DELAY == 0
  {
    var p := Steps(c, us, dist, aim, dx, dy, k - 1);
    StepsTimer(c, us, dist, aim, dx, dy, k - 1);
    StepsTimer(c, us, dist, aim, dx, dy, k);
    assert CannonOrigin(p) == CannonOrigin(c);
    FiresIff(p, us, dist, aim, dx, dy);
  }

  /**
   * Across the `i16` wrap the interval is not 170: the last shot before it
   * is at timer 32640, and the next is 256 ticks later, at timer -32640.
   */
  lemma ShotGapAcrossWrap(k: int)
    requires 0 < k < 256
    ensures CRem(32640, SHOOT_DELAY) == 0 && I16(32640 + 256) == -32640 && CRem(-32640, SHOOT_DELAY) == 0
    ensures CRem(I16(32640 + k), SHOOT_DELAY) != 0
  {
    if k < 128 {
      assert I16(32640 + k) == 32640 + k;
      assert (32640 + k) % SHOOT_DELAY == k;
    } else {
      assert I16(32640 + k) == k - 32896;
      assert (32896 - k) % SHOOT_DELAY == 256 - k;
    }
  }
}
