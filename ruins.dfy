/**
 * Wall destruction as draw_map does it (map.h:437-461): a sweep over the
 * grid, rows outer and columns inner, that takes down every active wall
 * with no hp left.
 */
module Ruins {
  import opened MapTypes
  import opened Adjacency
  import opened Queries

  predicate At(c: Cannon, x: int, y: int) { c.x == x && c.y == y }

  /** Every cannon sits on an active wall of the grid. */
  predicate CannonsOnWalls(cs: seq<Cannon>, ws: seq<Wall>, w: int, h: int)
  {
    forall c :: c in cs ==> InGrid(w, h, c.x, c.y) && Active(ws, Cell(c.x, c.y, w))
  }

  /** No two cannons share a cell. */
  predicate CannonsApart(cs: seq<Cannon>)
  {
    forall i, j :: 0 <= i < |cs| && 0 <= j < |cs| && i != j ==> !At(cs[j], cs[i].x, cs[i].y)
  }

  /** The first cannon at (x, y), as the removal loop finds it. */
  function FirstCannonAt(cs: seq<Cannon>, x: int, y: int): (r: Option<nat>)
    ensures r.Some? ==> r.value < |cs| && At(cs[r.value], x, y) && forall j :: 0 <= j < r.value ==> !At(cs[j], x, y)
    ensures r.None? ==> forall j :: 0 <= j < |cs| ==> !At(cs[j], x, y)
  {
    if |cs| == 0 then None
    else if At(cs[0], x, y) then Some(0)
    else match FirstCannonAt(cs[1..], x, y)
      case None => None
      case Some(j) => Some(j + 1)
  }

  /** The cannon list once the first cannon at (x, y), if any, is erased. */
  function WithoutCannonAt(cs: seq<Cannon>, x: int, y: int): seq<Cannon>
  {
    match FirstCannonAt(cs, x, y)
    case None => cs
    case Some(i) => cs[..i] + cs[i + 1..]
  }

  /**
   * With cannons on distinct cells, erasing the one at (x, y) leaves every
   * other cannon and none at (x, y), still on distinct cells.
   */
  lemma WithoutCannonAtKeepsOthers(cs: seq<Cannon>, x: int, y: int)
    requires CannonsApart(cs)
    ensures var r := WithoutCannonAt(cs, x, y);
      && CannonsApart(r)
      && (forall c :: c in r <==> c in cs && !At(c, x, y))
      && |r| == |cs| - (if exists i :: 0 <= i < |cs| && At(cs[i], x, y) then 1 else 0)
  {
    var r := WithoutCannonAt(cs, x, y);
    match FirstCannonAt(cs, x, y)
    case None =>
    case Some(i) =>
      assert forall j :: 0 <= j < |r| ==> r[j] == (if j < i then cs[j] else cs[j + 1]);
      forall c | c in cs && !At(c, x, y) ensures c in r {
        var j :| 0 <= j < |cs| && cs[j] == c;
        assert j != i;
        if j < i { assert r[j] == c; } else { assert r[j - 1] == c; }
      }
  }

  /** The grid, explosions and cannons, which the destruction step changes together. */
  datatype Damage = Damage(walls: seq<Wall>, explosions: seq<Explosion>, cannons: seq<Cannon>)

  /** The explosion for cell (x, y): its 74x75 frame centred on the tile, stored as `i16`. */
  function ExplosionAt(x: int, y: int): Explosion
  {
    Explosion(I16(x * TILE_SIZE + TILE_SIZE / 2 - 74 / 2), I16(y * TILE_SIZE + TILE_SIZE / 2 - 75 / 2))
  }

  predicate RuinedAt(ws: seq<Wall>, k: int) { 0 <= k < |ws| && ws[k].active && ws[k].hp <= 0 }

  /**
   * One cell of the sweep (map.h:442-461): an active wall with no hp left
   * goes inactive, an explosion is queued, the walls are re-oriented and
   * the first cannon at that cell is erased.
   */
  function Ruin(s: Damage, w: int, x: int, y: int): (r: Damage)
    requires 0 <= Cell(x, y, w) < |s.walls|
    ensures |r.walls| == |s.walls|
  {
    var k := Cell(x, y, w);
    if RuinedAt(s.walls, k) then
      Damage(Oriented(s.walls[k := s.walls[k].(active := false)], w),
             s.explosions + [ExplosionAt(x, y)],
             WithoutCannonAt(s.cannons, x, y))
    else s
  }

  /**
   * The sweep from cell (x, y) on, rows outer and columns inner, so that the
   * cells are visited in the order of their flat index.
   */
  function Sweep(s: Damage, w: nat, h: nat, x: nat, y: nat): (r: Damage)
    requires |s.walls| == w * h && x <= w && y <= h
    ensures |r.walls| == |s.walls|
    decreases h - y, w - x
  {
    if y == h then s
    else if x == w then Sweep(s, w, h, 0, y + 1)
    else
      CellBounds(x, y, w, h);
      Sweep(Ruin(s, w, x, y), w, h, x + 1, y)
  }

  lemma CellInjective(a: int, b: int, x: int, y: int, w: int, h: int)
    requires InGrid(w, h, a, b) && InGrid(w, h, x, y) && Cell(a, b, w) == Cell(x, y, w)
    ensures a == x && b == y
  {
    CellColRow(a, b, w);
    CellColRow(x, y, w);
  }

  lemma NextRow(w: nat, y: nat)
    ensures Cell(w, y, w) == Cell(0, y + 1, w)
  {
  }

  /** One ruin step takes down only the cell it looks at, and changes no hp and no gate flag. */
  lemma RuinFlags(s: Damage, w: nat, h: nat, x: nat, y: nat)
    requires |s.walls| == w * h && InGrid(w, h, x, y) && 0 <= Cell(x, y, w) < |s.walls|
    ensures var r := Ruin(s, w, x, y); var k := Cell(x, y, w);
      forall j :: 0 <= j < |s.walls| ==>
        r.walls[j].hp == s.walls[j].hp && r.walls[j].gate == s.walls[j].gate &&
        r.walls[j].active == (s.walls[j].active && !(j == k && s.walls[j].hp <= 0))
  {
    CellBounds(x, y, w, h);
  }

  /**
   * One ruin step erases the cannon on the cell it takes down and no other,
   * and keeps every cannon on an active wall and the cannons on distinct cells.
   */
  lemma RuinCannons(s: Damage, w: nat, h: nat, x: nat, y: nat)
    requires |s.walls| == w * h && InGrid(w, h, x, y) && 0 <= Cell(x, y, w) < |s.walls|
    requires CannonsOnWalls(s.cannons, s.walls, w, h) && CannonsApart(s.cannons)
    ensures var r := Ruin(s, w, x, y); var k := Cell(x, y, w);
      && CannonsOnWalls(r.cannons, r.walls, w, h) && CannonsApart(r.cannons)
      && (forall c :: c in r.cannons <==> c in s.cannons && !(At(c, x, y) && RuinedAt(s.walls, k)))
  {
    CellBounds(x, y, w, h);
    var k := Cell(x, y, w);
    var r := Ruin(s, w, x, y);
    if RuinedAt(s.walls, k) {
      WithoutCannonAtKeepsOthers(s.cannons, x, y);
      RuinFlags(s, w, h, x, y);
      forall c | c in r.cannons ensures InGrid(w, h, c.x, c.y) && Active(r.walls, Cell(c.x, c.y, w)) {
        assert c in s.cannons && !At(c, x, y);
        if Cell(c.x, c.y, w) == k {
          CellInjective(c.x, c.y, x, y, w, h);
        }
      }
    }
  }

  /**
   * The explosions for the ruined cells from (x, y) on, one per cell in
   * row-major order (rows outer, columns inner), each at its own cell.
   */
  function RuinedExplosions(ws: seq<Wall>, w: nat, h: nat, x: nat, y: nat): seq<Explosion>
    decreases h - y, w - x
  {
    if y >= h then []
    else if x >= w then RuinedExplosions(ws, w, h, 0, y + 1)
    else (if RuinedAt(ws, Cell(x, y, w)) then [ExplosionAt(x, y)] else []) + RuinedExplosions(ws, w, h, x + 1, y)
  }

  /** RuinedExplosions from (x, y) reads only the cells from flat index x + y*w on. */
  lemma {:induction false} RuinedExplosionsFrame(a: seq<Wall>, b: seq<Wall>, w: nat, h: nat, x: nat, y: nat)
    requires x <= w && forall j :: Cell(x, y, w) <= j ==> RuinedAt(a, j) == RuinedAt(b, j)
    ensures RuinedExplosions(a, w, h, x, y) == RuinedExplosions(b, w, h, x, y)
    decreases h - y, w - x
  {
    if y >= h {
    } else if x >= w {
      assert Cell(x, y, w) == Cell(0, y + 1, w);
      RuinedExplosionsFrame(a, b, w, h, 0, y + 1);
    } else {
      RuinedExplosionsFrame(a, b, w, h, x + 1, y);
    }
  }

  /** The sweep from (x, y) takes down exactly the ruined cells from there on, and changes no hp and no gate flag. */
  lemma {:induction false} SweepFlags(s: Damage, w: nat, h: nat, x: nat, y: nat)
    requires |s.walls| == w * h && x <= w && y <= h
    ensures var r := Sweep(s, w, h, x, y); var k0 := Cell(x, y, w);
      forall j :: 0 <= j < |s.walls| ==>
        r.walls[j].hp == s.walls[j].hp && r.walls[j].gate == s.walls[j].gate &&
        r.walls[j].active == (s.walls[j].active && !(k0 <= j && s.walls[j].hp <= 0))
    decreases h - y, w - x
  {
    if y == h {
      MulMonotone(h, h, w);
    } else if x == w {
      NextRow(w, y);
      SweepFlags(s, w, h, 0, y + 1);
    } else {
      CellBounds(x, y, w, h);
      RuinFlags(s, w, h, x, y);
      SweepFlags(Ruin(s, w, x, y), w, h, x + 1, y);
    }
  }

  /**
   * The sweep from (x, y) keeps the explosions already queued and appends
   * one for each ruined cell from there on, in the order it visits them.
   */
  lemma {:induction false} SweepExplosions(s: Damage, w: nat, h: nat, x: nat, y: nat)
    requires |s.walls| == w * h && x <= w && y <= h
    ensures Sweep(s, w, h, x, y).explosions == s.explosions + RuinedExplosions(s.walls, w, h, x, y)
    decreases h - y, w - x
  {
    if y == h {
    } else if x == w {
      SweepExplosions(s, w, h, 0, y + 1);
    } else {
      CellBounds(x, y, w, h);
      var s' := Ruin(s, w, x, y);
      SweepExplosions(s', w, h, x + 1, y);
      RuinFlags(s, w, h, x, y);
      ExplosionsStep(s.walls, s'.walls, s.explosions, s'.explosions, w, h, x, y, Sweep(s', w, h, x + 1, y).explosions);
    }
  }

  /** One cell of SweepExplosions, on the walls and explosions before (`a`, `ea`) and after (`b`, `eb`) the step. */
  lemma ExplosionsStep(a: seq<Wall>, b: seq<Wall>, ea: seq<Explosion>, eb: seq<Explosion>,
                       w: nat, h: nat, x: nat, y: nat, e: seq<Explosion>)
    requires x < w && y < h && |b| == |a|
    requires forall j :: 0 <= j < |a| && j != Cell(x, y, w) ==> b[j].active == a[j].active && b[j].hp == a[j].hp
    requires eb == ea + (if RuinedAt(a, Cell(x, y, w)) then [ExplosionAt(x, y)] else [])
    requires e == eb + RuinedExplosions(b, w, h, x + 1, y)
    ensures e == ea + RuinedExplosions(a, w, h, x, y)
  {
    assert Cell(x + 1, y, w) == Cell(x, y, w) + 1;
    RuinedExplosionsFrame(b, a, w, h, x + 1, y);
    var tail := RuinedExplosions(a, w, h, x + 1, y);
    if RuinedAt(a, Cell(x, y, w)) {
      assert eb + tail == ea + ([ExplosionAt(x, y)] + tail);
    }
  }

  /** The sweep keeps every cannon on an active wall and the cannons on distinct cells. */
  lemma {:induction false} SweepCannonsOk(s: Damage, w: nat, h: nat, x: nat, y: nat)
    requires |s.walls| == w * h && x <= w && y <= h
    requires CannonsOnWalls(s.cannons, s.walls, w, h) && CannonsApart(s.cannons)
    ensures var r := Sweep(s, w, h, x, y); CannonsOnWalls(r.cannons, r.walls, w, h) && CannonsApart(r.cannons)
    decreases h - y, w - x
  {
    if y == h {
    } else if x == w {
      SweepCannonsOk(s, w, h, 0, y + 1);
    } else {
      CellBounds(x, y, w, h);
      RuinCannons(s, w, h, x, y);
      SweepCannonsOk(Ruin(s, w, x, y), w, h, x + 1, y);
    }
  }

  /** Whether the sweep from flat index `k0` on takes down the cell cannon `c` stands on. */
  predicate Crushed(ws: seq<Wall>, w: int, k0: int, c: Cannon)
  {
    k0 <= Cell(c.x, c.y, w) && RuinedAt(ws, Cell(c.x, c.y, w))
  }

  lemma CrushedStep(s: Damage, w: nat, h: nat, x: nat, y: nat, c: Cannon)
    requires |s.walls| == w * h && InGrid(w, h, x, y) && 0 <= Cell(x, y, w) < |s.walls|
    requires CannonsOnWalls(s.cannons, s.walls, w, h) && c in s.cannons
    ensures var k0 := Cell(x, y, w); var s' := Ruin(s, w, x, y);
      Crushed(s.walls, w, k0, c) == ((At(c, x, y) && RuinedAt(s.walls, k0)) || Crushed(s'.walls, w, k0 + 1, c))
  {
    var k0 := Cell(x, y, w);
    RuinFlags(s, w, h, x, y);
    if Cell(c.x, c.y, w) == k0 {
      CellInjective(c.x, c.y, x, y, w, h);
    }
  }

  /** The cannons the sweep from (x, y) leaves are exactly those not standing on a cell it takes down. */
  lemma {:induction false} SweepCannons(s: Damage, w: nat, h: nat, x: nat, y: nat)
    requires |s.walls| == w * h && x <= w && y <= h
    requires CannonsOnWalls(s.cannons, s.walls, w, h) && CannonsApart(s.cannons)
    ensures var r := Sweep(s, w, h, x, y);
      forall c :: c in r.cannons <==> c in s.cannons && !Crushed(s.walls, w, Cell(x, y, w), c)
    decreases h - y, w - x
  {
    if y == h {
      NothingCrushedPastEnd(s, w, h, x);
    } else if x == w {
      NextRow(w, y);
      SweepCannons(s, w, h, 0, y + 1);
    } else {
      CellBounds(x, y, w, h);
      RuinCannons(s, w, h, x, y);
      SweepCannons(Ruin(s, w, x, y), w, h, x + 1, y);
      SweepCannonsStep(s, w, h, x, y);
    }
  }

  /** No cannon stands past the last row, so a sweep that has run out of rows takes none down. */
  lemma NothingCrushedPastEnd(s: Damage, w: nat, h: nat, x: nat)
    requires |s.walls| == w * h && CannonsOnWalls(s.cannons, s.walls, w, h)
    ensures forall c :: c in s.cannons ==> !Crushed(s.walls, w, Cell(x, h, w), c)
  {
    forall c | c in s.cannons ensures !Crushed(s.walls, w, Cell(x, h, w), c) {
      CellBounds(c.x, c.y, w, h);
      MulMonotone(h, h, w);
    }
  }

  /** One cell of SweepCannons: what the sweep from the next cell leaves, seen from this one. */
  lemma SweepCannonsStep(s: Damage, w: nat, h: nat, x: nat, y: nat)
    requires |s.walls| == w * h && InGrid(w, h, x, y) && 0 <= Cell(x, y, w) < |s.walls|
    requires CannonsOnWalls(s.cannons, s.walls, w, h) && CannonsApart(s.cannons)
    requires var s' := Ruin(s, w, x, y); var r := Sweep(s', w, h, x + 1, y);
      forall c :: c in r.cannons <==> c in s'.cannons && !Crushed(s'.walls, w, Cell(x + 1, y, w), c)
    ensures var r := Sweep(s, w, h, x, y);
      forall c :: c in r.cannons <==> c in s.cannons && !Crushed(s.walls, w, Cell(x, y, w), c)
  {
    var k0 := Cell(x, y, w);
    var s' := Ruin(s, w, x, y);
    RuinCannons(s, w, h, x, y);
    assert Cell(x + 1, y, w) == k0 + 1;
    var r := Sweep(s', w, h, x + 1, y);
    assert r == Sweep(s, w, h, x, y);
    forall c ensures c in r.cannons <==> c in s.cannons && !Crushed(s.walls, w, k0, c) {
      if c in s.cannons {
        CrushedStep(s, w, h, x, y, c);
      } else {
        assert c !in s'.cannons;
      }
    }
  }

  /** A grid that orient_walls leaves as it is. */
  predicate IsOriented(ws: seq<Wall>, w: int) { Oriented(ws, w) == ws }

  /** A sweep either changes no wall at all, or leaves the grid oriented. */
  lemma {:induction false} SweepLeavesOriented(s: Damage, w: nat, h: nat, x: nat, y: nat)
    requires |s.walls| == w * h && x <= w && y <= h
    ensures var r := Sweep(s, w, h, x, y); r.walls == s.walls || IsOriented(r.walls, w)
    decreases h - y, w - x
  {
    if y == h {
    } else if x == w {
      SweepLeavesOriented(s, w, h, 0, y + 1);
    } else {
      CellBounds(x, y, w, h);
      var k := Cell(x, y, w);
      var s' := Ruin(s, w, x, y);
      SweepLeavesOriented(s', w, h, x + 1, y);
      if RuinedAt(s.walls, k) {
        OrientIdempotent(s.walls[k := s.walls[k].(active := false)], w);
      }
    }
  }

  /** The whole sweep of draw_map. */
  lemma SweepAll(s: Damage, w: nat, h: nat)
    requires |s.walls| == w * h
    requires CannonsOnWalls(s.cannons, s.walls, w, h) && CannonsApart(s.cannons)
    ensures var r := Sweep(s, w, h, 0, 0);
      && (forall j :: 0 <= j < |s.walls| ==>
            r.walls[j].hp == s.walls[j].hp && r.walls[j].gate == s.walls[j].gate &&
            r.walls[j].active == (s.walls[j].active && s.walls[j].hp > 0))
      && r.explosions == s.explosions + RuinedExplosions(s.walls, w, h, 0, 0)
      && CannonsOnWalls(r.cannons, r.walls, w, h) && CannonsApart(r.cannons)
      && (forall c :: c in r.cannons <==> c in s.cannons && !RuinedAt(s.walls, Cell(c.x, c.y, w)))
      && (r.walls == s.walls || IsOriented(r.walls, w))
  {
    SweepFlags(s, w, h, 0, 0);
    SweepExplosions(s, w, h, 0, 0);
    SweepCannonsOk(s, w, h, 0, 0);
    SweepCannons(s, w, h, 0, 0);
    SweepLeavesOriented(s, w, h, 0, 0);
    var r := Sweep(s, w, h, 0, 0);
    forall c | c in s.cannons ensures 0 <= Cell(c.x, c.y, w) {
      CellBounds(c.x, c.y, w, h);
    }
  }
}
