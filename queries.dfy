/**
 * The nearest-match scans get_closest_wall (map.h:587-606) and
 * get_closest_enemy (map.h:608-628) as functions, with what they find.
 */
module Queries {
  import opened MapTypes
  import opened Adjacency

  /** State of the wall scan: the cell found, the shortest distance so far, and `*xRef`, `*yRef`. */
  datatype Nearest = Nearest(found: Option<nat>, shortest: real, x: int, y: int)

  /** Distance from the pixel corner of cell (x, y) to `p`, argument order as in the source. */
  function CellDist(dist: Metric, p: Vec, x: int, y: int): real
  {
    dist(TilePos(x), TilePos(y), p.x, p.y)
  }

  predicate IsWall(ws: seq<Wall>, w: int, x: int, y: int) { Active(ws, Cell(x, y, w)) }

  /** Cell (x', y') comes before (x, y) in the scan, x outer and y inner. */
  predicate Before(x': int, y': int, x: int, y: int) { x' < x || (x' == x && y' < y) }

  predicate InGrid(w: int, h: int, x: int, y: int) { 0 <= x < w && 0 <= y < h }

  /** The scan of get_closest_wall from cell (x, y) on, with `shortest > dist` keeping the first minimum. */
  function WallScan(ws: seq<Wall>, w: nat, h: nat, p: Vec, dist: Metric, x: nat, y: nat, acc: Nearest): (r: Nearest)
    requires |ws| == w * h && x <= w && y <= h
    requires acc.found.Some? ==> acc.found.value < |ws|
    ensures r.found.Some? ==> r.found.value < |ws|
    decreases w - x, h - y
  {
    if x == w then acc
    else if y == h then WallScan(ws, w, h, p, dist, x + 1, 0, acc)
    else
      CellBounds(x, y, w, h);
      var d := CellDist(dist, p, x, y);
      var k := Cell(x, y, w);
      WallScan(ws, w, h, p, dist, x, y + 1,
               if ws[k].active && acc.shortest > d then Nearest(Some(k), d, x, y) else acc)
  }

  /** get_closest_wall: the scan starts with no wall, `INT_MAX`, and the caller's `*xRef`, `*yRef`. */
  function ClosestWallOf(ws: seq<Wall>, w: nat, h: nat, p: Vec, dist: Metric, xRef: int, yRef: int): (r: Nearest)
    requires |ws| == w * h
    ensures r.found.Some? ==> r.found.value < |ws|
  {
    WallScan(ws, w, h, p, dist, 0, 0, Nearest(None, NO_DISTANCE, xRef, yRef))
  }

  /** What the scan knows once every cell before (x, y) has been looked at. */
  ghost predicate WallSummary(ws: seq<Wall>, w: nat, h: nat, p: Vec, dist: Metric, x: int, y: int,
                              xRef: int, yRef: int, acc: Nearest)
  {
    match acc.found
    case None =>
      && acc.shortest == NO_DISTANCE && acc.x == xRef && acc.y == yRef
      && forall x', y' :: InGrid(w, h, x', y') && Before(x', y', x, y) && IsWall(ws, w, x', y') ==>
           CellDist(dist, p, x', y') >= NO_DISTANCE
    case Some(k) =>
      && InGrid(w, h, acc.x, acc.y) && Before(acc.x, acc.y, x, y) && k == Cell(acc.x, acc.y, w)
      && IsWall(ws, w, acc.x, acc.y)
      && acc.shortest == CellDist(dist, p, acc.x, acc.y) && acc.shortest < NO_DISTANCE
      && forall x', y' :: InGrid(w, h, x', y') && Before(x', y', x, y) && IsWall(ws, w, x', y') ==>
           CellDist(dist, p, x', y') >= acc.shortest &&
           (Before(x', y', acc.x, acc.y) ==> CellDist(dist, p, x', y') > acc.shortest)
  }

  /**
   * What get_closest_wall promises: with no active wall nearer than `INT_MAX`
   * it finds nothing, reports `INT_MAX` and leaves `*xRef`, `*yRef` alone;
   * otherwise it finds an active cell no farther than any other active cell,
   * and the first such in x-outer, y-inner order.
   */
  ghost predicate IsClosestWall(ws: seq<Wall>, w: nat, h: nat, p: Vec, dist: Metric, xRef: int, yRef: int, r: Nearest)
  {
    match r.found
    case None =>
      && r.shortest == NO_DISTANCE && r.x == xRef && r.y == yRef
      && forall x', y' :: InGrid(w, h, x', y') && IsWall(ws, w, x', y') ==> CellDist(dist, p, x', y') >= NO_DISTANCE
    case Some(k) =>
      && InGrid(w, h, r.x, r.y) && k == Cell(r.x, r.y, w) && IsWall(ws, w, r.x, r.y)
      && r.shortest == CellDist(dist, p, r.x, r.y) && r.shortest < NO_DISTANCE
      && forall x', y' :: InGrid(w, h, x', y') && IsWall(ws, w, x', y') ==>
           CellDist(dist, p, x', y') >= r.shortest &&
           (Before(x', y', r.x, r.y) ==> CellDist(dist, p, x', y') > r.shortest)
  }

  lemma {:induction false} WallScanSummary(ws: seq<Wall>, w: nat, h: nat, p: Vec, dist: Metric, x: nat, y: nat,
                                           xRef: int, yRef: int, acc: Nearest)
    requires |ws| == w * h && x <= w && y <= h
    requires acc.found.Some? ==> acc.found.value < |ws|
    requires WallSummary(ws, w, h, p, dist, x, y, xRef, yRef, acc)
    ensures WallSummary(ws, w, h, p, dist, w, 0, xRef, yRef, WallScan(ws, w, h, p, dist, x, y, acc))
    decreases w - x, h - y
  {
    if x == w {
    } else if y == h {
      WallScanSummary(ws, w, h, p, dist, x + 1, 0, xRef, yRef, acc);
    } else {
      CellBounds(x, y, w, h);
      var d := CellDist(dist, p, x, y);
      var k := Cell(x, y, w);
      var acc' := if ws[k].active && acc.shortest > d then Nearest(Some(k), d, x, y) else acc;
      assert IsWall(ws, w, x, y) == ws[k].active;
      assert WallSummary(ws, w, h, p, dist, x, y + 1, xRef, yRef, acc');
      WallScanSummary(ws, w, h, p, dist, x, y + 1, xRef, yRef, acc');
    }
  }

  /** get_closest_wall finds the closest active wall, scan order breaking ties. */
  lemma ClosestWallIsNearest(ws: seq<Wall>, w: nat, h: nat, p: Vec, dist: Metric, xRef: int, yRef: int)
    requires |ws| == w * h
    ensures IsClosestWall(ws, w, h, p, dist, xRef, yRef, ClosestWallOf(ws, w, h, p, dist, xRef, yRef))
  {
    var init := Nearest(None, NO_DISTANCE, xRef, yRef);
    assert WallSummary(ws, w, h, p, dist, 0, 0, xRef, yRef, init);
    WallScanSummary(ws, w, h, p, dist, 0, 0, xRef, yRef, init);
  }

  /** The closest-wall scan reads only the `active` flags. */
  lemma {:induction false} WallScanReadsFlags(a: seq<Wall>, b: seq<Wall>, w: nat, h: nat, p: Vec, dist: Metric,
                                              x: nat, y: nat, acc: Nearest)
    requires |a| == w * h && SameFlags(a, b) && x <= w && y <= h
    requires acc.found.Some? ==> acc.found.value < |a|
    ensures WallScan(a, w, h, p, dist, x, y, acc) == WallScan(b, w, h, p, dist, x, y, acc)
    decreases w - x, h - y
  {
    if x == w {
    } else if y == h {
      WallScanReadsFlags(a, b, w, h, p, dist, x + 1, 0, acc);
    } else {
      CellBounds(x, y, w, h);
      var d := CellDist(dist, p, x, y);
      var k := Cell(x, y, w);
      var acc' := if a[k].active && acc.shortest > d then Nearest(Some(k), d, x, y) else acc;
      WallScanReadsFlags(a, b, w, h, p, dist, x, y + 1, acc');
    }
  }

  /** State of the enemy scan: the unit found and the shortest distance so far. */
  datatype Closest = Closest(found: Option<nat>, shortest: real)

  /** Distance from unit `u` to `origin`, argument order as in the source. */
  function UnitDist(dist: Metric, u: Unit, origin: Vec): real
  {
    dist(u.pos.x, u.pos.y, origin.x, origin.y)
  }

  /** The scan of get_closest_enemy from unit i on. */
  function EnemyScan(us: seq<Unit>, origin: Vec, faction: Owner, dist: Metric, i: nat, acc: Closest): (r: Closest)
    requires i <= |us|
    requires acc.found.Some? ==> acc.found.value < |us|
    ensures r.found.Some? ==> r.found.value < |us|
    decreases |us| - i
  {
    if i == |us| then acc
    else
      var d := UnitDist(dist, us[i], origin);
      EnemyScan(us, origin, faction, dist, i + 1,
                if us[i].owner == faction && acc.shortest > d then Closest(Some(i), d) else acc)
  }

  /** get_closest_enemy: the nearest unit owned by `faction`. */
  function ClosestEnemyOf(us: seq<Unit>, origin: Vec, faction: Owner, dist: Metric): (r: Closest)
    ensures r.found.Some? ==> r.found.value < |us|
  {
    EnemyScan(us, origin, faction, dist, 0, Closest(None, NO_DISTANCE))
  }

  ghost predicate EnemySummary(us: seq<Unit>, origin: Vec, faction: Owner, dist: Metric, i: int, acc: Closest)
  {
    match acc.found
    case None =>
      && acc.shortest == NO_DISTANCE
      && forall j :: 0 <= j < i && j < |us| && us[j].owner == faction ==> UnitDist(dist, us[j], origin) >= NO_DISTANCE
    case Some(m) =>
      && m < i && m < |us| && us[m].owner == faction
      && acc.shortest == UnitDist(dist, us[m], origin) && acc.shortest < NO_DISTANCE
      && forall j :: 0 <= j < i && j < |us| && us[j].owner == faction ==>
           UnitDist(dist, us[j], origin) >= acc.shortest && (j < m ==> UnitDist(dist, us[j], origin) > acc.shortest)
  }

  /**
   * What get_closest_enemy promises: nothing and `INT_MAX` when no unit of
   * `faction` is nearer than `INT_MAX`; otherwise a unit of `faction` no
   * farther than any other, and the first such in the list.
   */
  ghost predicate IsClosestEnemy(us: seq<Unit>, origin: Vec, faction: Owner, dist: Metric, r: Closest)
  {
    EnemySummary(us, origin, faction, dist, |us|, r)
  }

  lemma {:induction false} EnemyScanSummary(us: seq<Unit>, origin: Vec, faction: Owner, dist: Metric, i: nat, acc: Closest)
    requires i <= |us|
    requires acc.found.Some? ==> acc.found.value < |us|
    requires EnemySummary(us, origin, faction, dist, i, acc)
    ensures IsClosestEnemy(us, origin, faction, dist, EnemyScan(us, origin, faction, dist, i, acc))
    decreases |us| - i
  {
    if i < |us| {
      var d := UnitDist(dist, us[i], origin);
      var acc' := if us[i].owner == faction && acc.shortest > d then Closest(Some(i), d) else acc;
      assert EnemySummary(us, origin, faction, dist, i + 1, acc');
      EnemyScanSummary(us, origin, faction, dist, i + 1, acc');
    }
  }

  /** get_closest_enemy finds the closest unit of the faction, list order breaking ties. */
  lemma ClosestEnemyIsNearest(us: seq<Unit>, origin: Vec, faction: Owner, dist: Metric)
    ensures IsClosestEnemy(us, origin, faction, dist, ClosestEnemyOf(us, origin, faction, dist))
  {
    EnemyScanSummary(us, origin, faction, dist, 0, Closest(None, NO_DISTANCE));
  }

  /** A target within `range` (below `INT_MAX`) is found exactly when some unit of the faction is within `range`. */
  lemma EnemyWithin(us: seq<Unit>, origin: Vec, faction: Owner, dist: Metric, range: real)
    requires range <= NO_DISTANCE
    ensures var r := ClosestEnemyOf(us, origin, faction, dist);
      (r.found.Some? && r.shortest < range) <==>
      (exists j :: 0 <= j < |us| && us[j].owner == faction && UnitDist(dist, us[j], origin) < range)
  {
    var r := ClosestEnemyOf(us, origin, faction, dist);
    ClosestEnemyIsNearest(us, origin, faction, dist);
    if r.found.Some? && r.shortest < range {
      var m := r.found.value;
      assert us[m].owner == faction && UnitDist(dist, us[m], origin) < range;
    }
  }
}
