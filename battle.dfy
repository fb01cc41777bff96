/**
 * The battle map and the game state as the program keeps them (map.h:151-162,
 * 178-185): the tile layers and the wall grid are arrays the program writes
 * in place, the cannon, unit, ball and explosion lists are sequences its
 * operations replace. Each method is proved against the functions of the
 * other modules.
 */
module Battle {
  import opened MapTypes
  import opened Adjacency
  import opened Queries
  import opened Ruins
  import opened UnitAI
  import opened Waves
  import opened Cannons
  import opened MapFormat

  // ------------------------------------------------------------ orient loop

  /** Whether orient_walls, x outer and y inner, has passed cell k before reaching (x, y). */
  ghost predicate Done(k: int, x: int, y: int, w: int)
  {
    w > 0 && (k % w < x || (k % w == x && k / w < y))
  }

  /** The grid part way through orient_walls: passed cells oriented, the rest as they were. */
  ghost function Partly(ws: seq<Wall>, w: int, x: int, y: int): (r: seq<Wall>)
    ensures |r| == |ws| && SameFlags(r, ws)
  {
    seq(|ws|, k requires 0 <= k < |ws| => if Done(k, x, y, w) then OrientedCell(ws, w, k) else ws[k])
  }

  lemma PartlyStep(ws: seq<Wall>, w: nat, h: nat, x: nat, y: nat)
    requires |ws| == w * h && x < w && y < h
    ensures var k := Cell(x, y, w);
      && 0 <= k < |ws| && Partly(ws, w, x, y)[k] == ws[k]
      && Partly(ws, w, x, y + 1) == Partly(ws, w, x, y)[k := OrientedCell(ws, w, k)]
  {
    var k := Cell(x, y, w);
    CellBounds(x, y, w, h);
    CellColRow(x, y, w);
    var a := Partly(ws, w, x, y + 1);
    var b := Partly(ws, w, x, y)[k := OrientedCell(ws, w, k)];
    forall j | 0 <= j < |ws| ensures a[j] == b[j] {
      IndexColRow(j, w, h);
    }
  }

  lemma PartlyColumn(ws: seq<Wall>, w: nat, h: nat, x: nat)
    requires |ws| == w * h && x < w
    ensures Partly(ws, w, x, h) == Partly(ws, w, x + 1, 0)
  {
    forall j | 0 <= j < |ws| ensures Partly(ws, w, x, h)[j] == Partly(ws, w, x + 1, 0)[j] {
      IndexColRow(j, w, h);
    }
  }

  lemma PartlyEnds(ws: seq<Wall>, w: nat, h: nat)
    requires |ws| == w * h
    ensures Partly(ws, w, 0, 0) == ws
    ensures Partly(ws, w, w, 0) == Oriented(ws, w)
  {
    forall j | 0 <= j < |ws| ensures Partly(ws, w, w, 0)[j] == Oriented(ws, w)[j] {
      IndexColRow(j, w, h);
    }
  }

  /** A cell's new code depends only on the grid's flags and the cell itself. */
  lemma OrientedCellReadsFlags(a: seq<Wall>, b: seq<Wall>, w: int, k: int)
    requires SameFlags(a, b) && 0 <= k < |a| && a[k] == b[k]
    ensures OrientedCell(a, w, k) == OrientedCell(b, w, k)
  {
    assert Active(a, k + 1) == Active(b, k + 1);
    assert Active(a, k - 1) == Active(b, k - 1);
    assert Active(a, k + w) == Active(b, k + w);
    assert Active(a, k - w) == Active(b, k - w);
  }

  /** A grid of empty cells is oriented as it is. */
  lemma EmptyGridOriented(ws: seq<Wall>, w: int)
    requires forall k :: 0 <= k < |ws| ==> ws[k] == NO_WALL
    ensures Oriented(ws, w) == ws
  {
  }

  /** Fills a tile layer with water (map.h:302-305). */
  method Flood(a: array<int>)
    modifies a
    ensures forall k :: 0 <= k < a.Length ==> a[k] == WATER
  {
    var j := 0;
    while j < a.Length
      invariant 0 <= j <= a.Length
      invariant forall k :: 0 <= k < j ==> a[k] == WATER
    {
      a[j] := WATER;
      j := j + 1;
    }
  }

  /** The chain of tests orient_walls makes for one cell (map.h:321-373): the last one that holds wins. */
  method CodeOf(right: bool, left: bool, down: bool, up: bool, gate: bool, prev: int) returns (a: int)
    ensures a == Code(right, left, down, up, gate, prev)
  {
    a := prev;
    if right { a := 10; }
    if left { a := 9; }
    if down { a := 7; }
    if up { a := 8; }
    if right && left { a := 1; }
    if down && up { a := 0; }
    if down && right { a := 11; }
    if down && left { a := 12; }
    if up && right { a := 13; }
    if up && left { a := 14; }
    if down && up && left { a := 4; }
    if down && up && right { a := 5; }
    if down && right && left { a := 2; }
    if up && right && left { a := 3; }
    if down && right && left && up { a := 17; }
    if gate {
      if left && right { a := 16; }
      if down && up { a := 15; }
    }
  }

  /** A cell a gate may go on: active walls to its left and right, or above and below. */
  predicate Flanked(ws: seq<Wall>, w: int, k: int)
  {
    (Active(ws, k + 1) && Active(ws, k - 1)) || (Active(ws, k + w) && Active(ws, k - w))
  }

  /** A wall of the build menu: 80 hp, the placeholder code 6, a gate or not. */
  function Building(gate: bool): Wall { Wall(true, gate, WALL_HP, FRESH_ADJACENCY) }

  /**
   * Placing a building and re-orienting leaves a grid that orient_walls
   * would not change again; the cell takes the building's flags and hp, and
   * every other cell keeps its own.
   */
  lemma PlacementOriented(ws: seq<Wall>, w: int, k: int, b: Wall)
    requires 0 <= k < |ws|
    ensures var r := Oriented(ws[k := b], w);
      && IsOriented(r, w)
      && r[k].active == b.active && r[k].gate == b.gate && r[k].hp == b.hp
      && forall j :: 0 <= j < |ws| && j != k ==> r[j].active == ws[j].active && r[j].gate == ws[j].gate && r[j].hp == ws[j].hp
  {
    OrientIdempotent(ws[k := b], w);
  }

  /**
   * A gate placed between walls on its left and right shows the horizontal
   * gate sprite 16, unless walls above and below make it the vertical one, 15.
   */
  lemma PlacedGateCode(ws: seq<Wall>, w: int, k: int)
    requires 0 <= k < |ws| && w != 0 && Active(ws, k + 1) && Active(ws, k - 1)
    ensures Oriented(ws[k := Building(true)], w)[k].adjacency ==
            if Active(ws, k + w) && Active(ws, k - w) then 15 else 16
  {
    var ws' := ws[k := Building(true)];
    assert Active(ws', k + 1) && Active(ws', k - 1);
    assert Active(ws', k + w) == Active(ws, k + w) && Active(ws', k - w) == Active(ws, k - w);
  }

  /** The first i + 1 cannons stepped: the first i, then cannon i. */
  lemma AimedStep(cs: seq<Cannon>, us: seq<Unit>, dist: Metric, aim: AimFn, dx: int, dy: int, i: nat)
    requires i < |cs|
    ensures Aimed(cs[..i + 1], us, dist, aim, dx, dy) ==
            Aimed(cs[..i], us, dist, aim, dx, dy) + [CannonStep(cs[i], us, dist, aim, dx, dy).0]
  {
    var a := Aimed(cs[..i + 1], us, dist, aim, dx, dy);
    var b := Aimed(cs[..i], us, dist, aim, dx, dy) + [CannonStep(cs[i], us, dist, aim, dx, dy).0];
    forall j | 0 <= j <= i ensures a[j] == b[j] {
      if j < i {
        assert cs[..i][j] == cs[..i + 1][j];
      }
    }
  }

  /**
   * A rewriting step for the loop of FireCannons, and nothing more: the
   * balls of the first i + 1 cannons are those of the first i, then cannon
   * i's. The properties of the volley are VolleyBounds and FiresIff.
   */
  lemma VolleyStep(cs: seq<Cannon>, us: seq<Unit>, dist: Metric, aim: AimFn, dx: int, dy: int, i: nat)
    requires i < |cs|
    ensures Volley(cs[..i + 1], us, dist, aim, dx, dy) ==
            Volley(cs[..i], us, dist, aim, dx, dy) + CannonStep(cs[i], us, dist, aim, dx, dy).1
  {
    assert cs[..i + 1][..i] == cs[..i];
  }

  /** Stepping cannons moves none of them. */
  lemma AimedKeepsPlaces(cs: seq<Cannon>, us: seq<Unit>, dist: Metric, aim: AimFn, dx: int, dy: int, ws: seq<Wall>, w: int, h: int)
    requires CannonsOnWalls(cs, ws, w, h) && CannonsApart(cs)
    ensures var r := Aimed(cs, us, dist, aim, dx, dy); CannonsOnWalls(r, ws, w, h) && CannonsApart(r)
  {
    var r := Aimed(cs, us, dist, aim, dx, dy);
    forall c | c in r ensures InGrid(w, h, c.x, c.y) && Active(ws, Cell(c.x, c.y, w)) {
      var j :| 0 <= j < |r| && r[j] == c;
      assert cs[j] in cs;
    }
  }

  /** Cannons on active walls stay there while walls only become active. */
  lemma CannonsOnMoreWalls(cs: seq<Cannon>, a: seq<Wall>, b: seq<Wall>, w: int, h: int)
    requires CannonsOnWalls(cs, a, w, h) && |a| == |b|
    requires forall j :: 0 <= j < |a| && a[j].active ==> b[j].active
    ensures CannonsOnWalls(cs, b, w, h)
  {
  }

  /** The cannon removal loop of draw_map (map.h:453-459). */
  method EraseCannonAt(cs: seq<Cannon>, x: int, y: int) returns (r: seq<Cannon>)
    ensures r == WithoutCannonAt(cs, x, y)
  {
    r := cs;
    var i := 0;
    while i < |cs|
      invariant 0 <= i <= |cs|
      invariant forall j :: 0 <= j < i ==> !At(cs[j], x, y)
    {
      if cs[i].x == x && cs[i].y == y {
        r := cs[..i] + cs[i + 1..];
        return;
      }
      i := i + 1;
    }
  }

  /** The `%d ` values of one layer (map.h:1021-1022). */
  method LayerTokens(a: array<int>) returns (r: seq<Token>)
    ensures r == Ints(a[..])
  {
    r := [];
    var i := 0;
    while i < a.Length
      invariant 0 <= i <= a.Length
      invariant r == Ints(a[..i])
    {
      assert a[..i + 1] == a[..i] + [a[i]];
      r := r + [Num(a[i])];
      i := i + 1;
    }
    assert a[..a.Length] == a[..];
  }

  /** One line per unit (map.h:1036-1040). */
  method UnitTokens(n: nat) returns (r: seq<Token>)
    ensures r == UnitLines(n)
  {
    r := [];
    var i := 0;
    while i < n
      invariant 0 <= i <= n
      invariant r == UnitLines(i)
    {
      r := r + [UnitLine, Eol];
      i := i + 1;
    }
  }

  /** One layer of load_map (map.h:530-534), each value stored into the `i16` grid. */
  method ReadInto(t: seq<Token>, p: nat, a: array<int>) returns (q: Option<nat>)
    requires p <= |t|
    modifies a
    ensures q.None? <==> ReadLayer(t, p, a.Length, []).None?
    ensures q.Some? ==> q.value == ReadLayer(t, p, a.Length, []).value.next && a[..] == ReadLayer(t, p, a.Length, []).value.value
    ensures q.Some? ==> AllI16(a[..])
  {
    var pos: nat := p;
    var i := 0;
    while i < a.Length
      invariant 0 <= i <= a.Length && pos <= |t|
      invariant ReadLayer(t, pos, a.Length - i, a[..i]) == ReadLayer(t, p, a.Length, [])
      invariant AllI16(a[..i])
    {
      var v := ReadInt(t, pos);
      if v.None? {
        return None;
      }
      a[i] := I16(v.value.value);
      assert a[..i + 1] == a[..i] + [I16(v.value.value)];
      pos := v.value.next;
      i := i + 1;
    }
    assert a[..a.Length] == a[..];
    return Some(pos);
  }

  /** Cannons on active walls stay there while no wall's `active` flag changes. */
  lemma CannonsOnSameFlags(cs: seq<Cannon>, a: seq<Wall>, b: seq<Wall>, w: int, h: int)
    requires CannonsOnWalls(cs, a, w, h) && SameFlags(a, b)
    ensures CannonsOnWalls(cs, b, w, h)
  {
  }

  class Map {
    const width: nat
    const height: nat
    const grid0: array<int>
    const grid1: array<int>
    const grid2: array<int>
    const walls: array<Wall>
    var cannons: seq<Cannon>
    var units: seq<Unit>
    var cannonballs: seq<Cannonball>
    var explosions: seq<Explosion>

    /** Sizes the program's `u16` fields and loops handle, and one cell of each layer and of the grid per tile. */
    ghost predicate Shaped()
      reads this
    {
      && SizeOk(width, height)
      && walls.Length == width * height
      && grid0.Length == walls.Length && grid1.Length == walls.Length && grid2.Length == walls.Length
    }

    /**
     * What every operation keeps: tiles are `i16`, a unit's wall target is a
     * cell of the grid, and every cannon stands on its own active wall.
     */
    ghost predicate Valid()
      reads this, walls, grid0, grid1, grid2
    {
      && Shaped()
      && AllI16(grid0[..]) && AllI16(grid1[..]) && AllI16(grid2[..])
      && TargetsOk(units, walls.Length)
      && CannonsOnWalls(cannons, walls[..], width, height) && CannonsApart(cannons)
    }

    /** create_map (map.h:298-313): every tile is water, every cell empty, every list empty. */
    constructor (w: nat, h: nat)
      requires SizeOk(w, h)
      ensures Valid() && width == w && height == h
      ensures fresh(grid0) && fresh(grid1) && fresh(grid2) && fresh(walls)
      ensures grid0 != grid1 && grid1 != grid2 && grid0 != grid2
      ensures forall k :: 0 <= k < w * h ==> grid0[k] == WATER && grid1[k] == WATER && grid2[k] == WATER
      ensures forall k :: 0 <= k < w * h ==> walls[k] == NO_WALL
      ensures cannons == [] && units == [] && cannonballs == [] && explosions == []
    {
      width, height := w, h;
      var n := w * h;
      MulMonotone(0, h, w);
      grid0 := new int[n];
      grid1 := new int[n];
      grid2 := new int[n];
      walls := new Wall[n];
      cannons, units, cannonballs, explosions := [], [], [], [];
      new;
      Flood(grid0);
      Flood(grid1);
      Flood(grid2);
      var i := 0;
      while i < walls.Length
        invariant 0 <= i <= walls.Length
        invariant forall k :: 0 <= k < i ==> walls[k] == NO_WALL
        modifies walls
      {
        walls[i] := NO_WALL;
        i := i + 1;
      }
    }

    /** Whether cell `j` is an active wall; a cell outside the grid never is. */
    predicate ActiveAt(j: int)
      reads this, walls
    {
      0 <= j < walls.Length && walls[j].active
    }

    /** One cell of orient_walls (map.h:319-373), read from the grid as it stands. */
    method OrientCell(x: nat, y: nat)
      requires Shaped() && x < width && y < height
      modifies walls
      ensures 0 <= Cell(x, y, width) < walls.Length &&
        walls[..] == old(walls[..])[Cell(x, y, width) := OrientedCell(old(walls[..]), width, Cell(x, y, width))]
    {
      CellBounds(x, y, width, height);
      var k := x + y * width;
      var right := ActiveAt(k + 1);
      var left := ActiveAt(k - 1);
      var down := ActiveAt(k + width);
      var up := ActiveAt(k - width);
      var a := CodeOf(right, left, down, up, walls[k].gate, walls[k].adjacency);
      walls[k] := walls[k].(adjacency := a);
    }

    /** orient_walls (map.h:316-376): every cell gets the code its neighbours give it, x outer and y inner. */
    method OrientWalls()
      requires Shaped()
      modifies walls
      ensures walls[..] == Oriented(old(walls[..]), width)
    {
      ghost var w0 := walls[..];
      PartlyEnds(w0, width, height);
      var x := 0;
      while x < width
        invariant 0 <= x <= width
        invariant walls[..] == Partly(w0, width, x, 0)
      {
        var y := 0;
        while y < height
          invariant 0 <= y <= height
          invariant walls[..] == Partly(w0, width, x, y)
        {
          PartlyStep(w0, width, height, x, y);
          CellBounds(x, y, width, height);
          OrientedCellReadsFlags(walls[..], w0, width, Cell(x, y, width));
          OrientCell(x, y);
          y := y + 1;
        }
        PartlyColumn(w0, width, height, x);
        x := x + 1;
      }
    }
    /** get_closest_wall (map.h:587-606): the first nearest active wall in x-outer, y-inner order. */
    method ClosestWall(p: Vec, dist: Metric, xRef: int, yRef: int) returns (found: Option<nat>, shortest: real, xOut: int, yOut: int)
      requires Shaped()
      ensures Nearest(found, shortest, xOut, yOut) == ClosestWallOf(walls[..], width, height, p, dist, xRef, yRef)
      ensures IsClosestWall(walls[..], width, height, p, dist, xRef, yRef, Nearest(found, shortest, xOut, yOut))
    {
      ghost var ws := walls[..];
      ClosestWallIsNearest(ws, width, height, p, dist, xRef, yRef);
      found, shortest, xOut, yOut := None, NO_DISTANCE, xRef, yRef;
      var x := 0;
      while x < width
        invariant 0 <= x <= width
        invariant found.Some? ==> found.value < |ws|
        invariant WallScan(ws, width, height, p, dist, x, 0, Nearest(found, shortest, xOut, yOut)) ==
                  ClosestWallOf(ws, width, height, p, dist, xRef, yRef)
      {
        var y := 0;
        while y < height
          invariant 0 <= y <= height
          invariant found.Some? ==> found.value < |ws|
          invariant WallScan(ws, width, height, p, dist, x, y, Nearest(found, shortest, xOut, yOut)) ==
                    ClosestWallOf(ws, width, height, p, dist, xRef, yRef)
        {
          CellBounds(x, y, width, height);
          var d := dist(TilePos(x), TilePos(y), p.x, p.y);
          var k := x + y * width;
          if walls[k].active && shortest > d {
            shortest := d;
            found := Some(k);
            xOut, yOut := x, y;
          }
          y := y + 1;
        }
        x := x + 1;
      }
    }

    /** get_closest_enemy (map.h:608-628): the first nearest unit of the faction. */
    method ClosestEnemy(origin: Vec, faction: Owner, dist: Metric) returns (found: Option<nat>, shortest: real)
      ensures Closest(found, shortest) == ClosestEnemyOf(units, origin, faction, dist)
      ensures IsClosestEnemy(units, origin, faction, dist, Closest(found, shortest))
    {
      ClosestEnemyIsNearest(units, origin, faction, dist);
      found, shortest := None, NO_DISTANCE;
      var i := 0;
      while i < |units|
        invariant 0 <= i <= |units|
        invariant found.Some? ==> found.value < |units|
        invariant EnemyScan(units, origin, faction, dist, i, Closest(found, shortest)) == ClosestEnemyOf(units, origin, faction, dist)
      {
        var d := dist(units[i].pos.x, units[i].pos.y, origin.x, origin.y);
        if units[i].owner == faction && shortest > d {
          shortest := d;
          found := Some(i);
        }
        i := i + 1;
      }
    }

    /** Placing a wall (map.h:913-924): on an empty cell or over a gate, then orient_walls. */
    method PlaceWall(x: int, y: int)
      requires Valid() && InGrid(width, height, x, y)
      modifies walls
      ensures Valid()
      ensures 0 <= Cell(x, y, width) < walls.Length
      ensures var k := Cell(x, y, width);
        walls[..] == (if !old(walls[k]).active || old(walls[k]).gate
                      then Oriented(old(walls[..])[k := Building(false)], width)
                      else old(walls[..]))
    {
      CellBounds(x, y, width, height);
      var k := x + y * width;
      if !walls[k].active || walls[k].gate {
        ghost var w0 := walls[..];
        walls[k] := Building(false);
        OrientWalls();
        PlacementOriented(w0, width, k, Building(false));
        CannonsOnMoreWalls(cannons, w0, walls[..], width, height);
      }
    }

    /** Placing a gate (map.h:925-942): between two walls, on a cell that is not a gate yet, then orient_walls. */
    method PlaceGate(x: int, y: int)
      requires Valid() && InGrid(width, height, x, y)
      modifies walls
      ensures Valid()
      ensures 0 <= Cell(x, y, width) < walls.Length
      ensures var k := Cell(x, y, width);
        walls[..] == (if Flanked(old(walls[..]), width, k) && !old(walls[k]).gate
                      then Oriented(old(walls[..])[k := Building(true)], width)
                      else old(walls[..]))
    {
      CellBounds(x, y, width, height);
      var k := x + y * width;
      var flanked := (ActiveAt(k + 1) && ActiveAt(k - 1)) || (ActiveAt(k + width) && ActiveAt(k - width));
      assert flanked == Flanked(walls[..], width, k);
      if flanked && !walls[k].gate {
        ghost var w0 := walls[..];
        walls[k] := Building(true);
        OrientWalls();
        PlacementOriented(w0, width, k, Building(true));
        CannonsOnMoreWalls(cannons, w0, walls[..], width, height);
      }
    }

    /** Placing a cannon (map.h:943-958): on an active wall that has none yet, with 80 hp. */
    method PlaceCannon(x: int, y: int)
      requires Valid() && InGrid(width, height, x, y)
      modifies this
      ensures Valid()
      ensures 0 <= Cell(x, y, width) < walls.Length
      ensures var k := Cell(x, y, width);
        cannons == (if walls[k].active && !exists i :: 0 <= i < |old(cannons)| && At(old(cannons)[i], x, y)
                    then old(cannons) + [Cannon(x, y, 0, 0.0, WALL_HP)]
                    else old(cannons))
      ensures units == old(units) && cannonballs == old(cannonballs) && explosions == old(explosions)
    {
      CellBounds(x, y, width, height);
      var present := false;
      var i := 0;
      while i < |cannons|
        invariant 0 <= i <= |cannons|
        invariant !present
        invariant forall j :: 0 <= j < i ==> !At(cannons[j], x, y)
      {
        if cannons[i].x == x && cannons[i].y == y {
          present := true;
          break;
        }
        i := i + 1;
      }
      if walls[x + y * width].active && !present {
        cannons := cannons + [Cannon(x, y, 0, 0.0, WALL_HP)];
      }
    }

    /** One cell of the destruction sweep (map.h:439-461). */
    method RuinCell(x: nat, y: nat)
      requires Valid() && x < width && y < height
      modifies this, walls
      ensures Valid()
      ensures 0 <= Cell(x, y, width) < walls.Length
      ensures Damage(walls[..], explosions, cannons) == Ruin(old(Damage(walls[..], explosions, cannons)), width, x, y)
      ensures units == old(units) && cannonballs == old(cannonballs)
    {
      CellBounds(x, y, width, height);
      ghost var s := Damage(walls[..], explosions, cannons);
      RuinCannons(s, width, height, x, y);
      var k := x + y * width;
      if walls[k].active {
        if walls[k].hp <= 0 {
          walls[k] := walls[k].(active := false);
          explosions := explosions + [ExplosionAt(x, y)];
          OrientWalls();
          cannons := EraseCannonAt(cannons, x, y);
        }
      }
    }

    /** The destruction sweep of draw_map (map.h:437-461), rows outer and columns inner. */
    method RemoveRuinedWalls()
      requires Valid()
      modifies this, walls
      ensures Valid()
      ensures Damage(walls[..], explosions, cannons) == Sweep(old(Damage(walls[..], explosions, cannons)), width, height, 0, 0)
      ensures units == old(units) && cannonballs == old(cannonballs)
    {
      ghost var s0 := Damage(walls[..], explosions, cannons);
      var y := 0;
      while y < height
        invariant 0 <= y <= height && Valid()
        invariant Sweep(Damage(walls[..], explosions, cannons), width, height, 0, y) == Sweep(s0, width, height, 0, 0)
        invariant units == old(units) && cannonballs == old(cannonballs)
      {
        var x := 0;
        while x < width
          invariant 0 <= x <= width && Valid()
          invariant Sweep(Damage(walls[..], explosions, cannons), width, height, x, y) == Sweep(s0, width, height, 0, 0)
          invariant units == old(units) && cannonballs == old(cannonballs)
        {
          RuinCell(x, y);
          x := x + 1;
        }
        y := y + 1;
      }
    }

    /** One cannon of the cannon loop (map.h:818-834). */
    method StepCannon(c: Cannon, dist: Metric, aim: AimFn, dx: int, dy: int) returns (c': Cannon, balls: seq<Cannonball>)
      ensures (c', balls) == CannonStep(c, units, dist, aim, dx, dy)
    {
      var found, d := ClosestEnemy(CannonOrigin(c), Green, dist);
      c' := c.(timer := I16(c.timer + 1));
      balls := [];
      if CRem(c'.timer, SHOOT_DELAY) == 0 && found.Some? && d < CANNON_RANGE as real {
        var target := units[found.value];
        c' := c'.(rotation := aim(TilePos(c.x), TilePos(c.y), target.pos.x, target.pos.y));
        balls := [Cannonball(I16(c.x * TILE_SIZE + dx), I16(c.y * TILE_SIZE + dy), c'.rotation)];
      }
    }

    /** The cannon loop of the game (map.h:817-835): every cannon ticks, and fires at the closest green unit in range. */
    method FireCannons(dist: Metric, aim: AimFn, dx: int, dy: int)
      requires Valid()
      modifies this
      ensures Valid()
      ensures cannons == Aimed(old(cannons), units, dist, aim, dx, dy)
      ensures cannonballs == old(cannonballs) + Volley(old(cannons), units, dist, aim, dx, dy)
      ensures units == old(units) && explosions == old(explosions)
    {
      var cs := cannons;
      var stepped: seq<Cannon> := [];
      var shots: seq<Cannonball> := [];
      var i := 0;
      while i < |cs|
        invariant 0 <= i <= |cs|
        invariant stepped == Aimed(cs[..i], units, dist, aim, dx, dy)
        invariant shots == Volley(cs[..i], units, dist, aim, dx, dy)
        invariant unchanged(this)
      {
        var c, balls := StepCannon(cs[i], dist, aim, dx, dy);
        AimedStep(cs, units, dist, aim, dx, dy, i);
        VolleyStep(cs, units, dist, aim, dx, dy, i);
        stepped := stepped + [c];
        shots := shots + balls;
        i := i + 1;
      }
      assert cs[..|cs|] == cs;
      cannons := stepped;
      cannonballs := cannonballs + shots;
      AimedKeepsPlaces(cs, units, dist, aim, dx, dy, walls[..], width, height);
    }

    /** The unit loop's bookkeeping (map.h:688-720): the dead are erased, idle invaders pick a wall, attackers strike. */
    method UpdateUnits(dist: Metric)
      requires Valid()
      modifies this, walls
      ensures Valid()
      ensures (units, walls[..]) == Pass(old(units), old(walls[..]), width, height, dist, 0)
      ensures cannons == old(cannons) && cannonballs == old(cannonballs) && explosions == old(explosions)
    {
      var i := 0;
      while i < |units|
        invariant Shaped() && TargetsOk(units, walls.Length) && SameFlags(walls[..], old(walls[..]))
        invariant Pass(units, walls[..], width, height, dist, i) == Pass(old(units), old(walls[..]), width, height, dist, 0)
        invariant cannons == old(cannons) && cannonballs == old(cannonballs) && explosions == old(explosions)
        decreases |units| - i
      {
        if units[i].hp <= 0 {
          units := units[..i] + units[i + 1..];
          i := i + 1;
          continue;
        }
        var u := units[i];
        if u.owner == Green && u.state == Idle {
          var found, d, wx, wy := ClosestWall(u.pos, dist, 0, 0);
          if wx != 0 && wy != 0 {
            u := u.(wtarget := found, dest := Vec(TilePos(wx), TilePos(wy)), state := Walking);
          }
          assert u == IdlePick(units[i], walls[..], width, height, dist);
        }
        if u.owner == Green && u.state == Attacking {
          u := Strike(u);
        }
        units := units[i := u];
        i := i + 1;
      }
      assert walls.Length == |old(walls[..])|;
      CannonsOnSameFlags(cannons, old(walls[..]), walls[..], width, height);
    }

    /** One attack tick of a unit on its wall (map.h:711-720). */
    method Strike(u: Unit) returns (v: Unit)
      requires u.wtarget.Some? && u.wtarget.value < walls.Length
      modifies walls
      ensures (v, walls[..]) == Attack(u, old(walls[..]))
    {
      var n := u.swing + 1;
      var t := u.wtarget.value;
      if HitTick(n) {
        walls[t] := walls[t].(hp := walls[t].hp - 1);
        if walls[t].hp <= 0 || !walls[t].active {
          v := u.(state := Idle, swing := 0);
        } else {
          v := u.(swing := n);
        }
      } else {
        v := u.(swing := n);
      }
    }

    /** The editor's save (map.h:1017-1048) as the tokens it writes. */
    method Save() returns (t: seq<Token>)
      requires Shaped()
      ensures t == Encode(width, height, grid0[..], grid1[..], grid2[..], |units|, walls[..])
    {
      var g0 := LayerTokens(grid0);
      var g1 := LayerTokens(grid1);
      var g2 := LayerTokens(grid2);
      var us := UnitTokens(|units|);
      var header := [Word("#map"), Eol, Word("#layer1"), Eol, Num(width), Eol, Num(height), Eol] + g0
        + [Eol, Word("#layer2"), Eol] + g1
        + [Eol, Word("#layer3"), Eol] + g2
        + [Eol, Word("#units"), Eol, Num(|units|), Eol] + us
        + [Word("#buildings"), Eol];
      t := BuildingTokens(header);
    }

    /** The building lines of the save (map.h:1042-1048): one per active wall, column by column. */
    method BuildingTokens(header: seq<Token>) returns (t: seq<Token>)
      requires Shaped()
      ensures t == BuildingLines(walls[..], width, height, 0, 0, header)
    {
      t := header;
      ghost var ws := walls[..];
      var x := 0;
      while x < width
        invariant 0 <= x <= width
        invariant BuildingLines(ws, width, height, x, 0, t) == BuildingLines(ws, width, height, 0, 0, header)
      {
        var y := 0;
        while y < height
          invariant 0 <= y <= height
          invariant BuildingLines(ws, width, height, x, y, t) == BuildingLines(ws, width, height, 0, 0, header)
        {
          CellBounds(x, y, width, height);
          var k := x + y * width;
          if walls[k].active {
            t := t + [Num(x), Num(y), Num(walls[k].hp), Eol];
          }
          y := y + 1;
        }
        x := x + 1;
      }
    }

    /**
     * load_map (map.h:514-575) on the tokens of a file: a fresh map with the
     * three layers read, and no walls, cannons or units; or the error.
     */
    static method Load(t: seq<Token>) returns (r: Result<Map, LoadError>)
      ensures r.Err? <==> Decode(t).Err?
      ensures r.Err? ==> r.error == Decode(t).error
      ensures r.Ok? ==> var m := r.value; var l := Decode(t).value;
        && fresh(m) && m.Valid() && m.width == l.width && m.height == l.height
        && m.grid0[..] == l.layer1 && m.grid1[..] == l.layer2 && m.grid2[..] == l.layer3
        && (forall k :: 0 <= k < m.walls.Length ==> m.walls[k] == NO_WALL)
        && m.cannons == [] && m.units == [] && m.cannonballs == [] && m.explosions == []
    {
      var layers := LoadLayers(t);
      if layers.Err? {
        return Err(layers.error);
      }
      var m, p5 := layers.value.0, layers.value.1;
      var size := ReadInt(t, SkipTwo(t, p5));
      if size.None? {
        return Err(MissingNumber);
      }
      if size.value.value > 0 {
        return Err(UnitRecords);
      }
      var count := ReadInt(t, SkipLine(t, size.value.next));
      if count.Some? && count.value.value > 0 {
        return Err(BuildingRecords);
      }
      EmptyGridOriented(m.walls[..], m.width);
      m.OrientWalls();
      return Ok(m);
    }

    /**
     * load_map up to the end of the third layer (map.h:514-550): a fresh
     * map of the size read, with the layers read into it, and the position
     * after them; or the error.
     */
    static method LoadLayers(t: seq<Token>) returns (r: Result<(Map, nat), LoadError>)
      ensures r.Err? <==> DecodeLayers(t).Err?
      ensures r.Err? ==> r.error == DecodeLayers(t).error
      ensures r.Ok? ==> var m := r.value.0; var l := DecodeLayers(t).value;
        && fresh(m) && fresh(m.walls) && fresh(m.grid0) && fresh(m.grid1) && fresh(m.grid2)
        && m.Valid() && r.value.1 == l.next && m.width == l.value.width && m.height == l.value.height
        && m.grid0[..] == l.value.layer1 && m.grid1[..] == l.value.layer2 && m.grid2[..] == l.value.layer3
        && (forall k :: 0 <= k < m.walls.Length ==> m.walls[k] == NO_WALL)
        && m.cannons == [] && m.units == [] && m.cannonballs == [] && m.explosions == []
    {
      var rw := ReadInt(t, SkipTwo(t, 0));
      if rw.None? {
        return Err(MissingNumber);
      }
      var rh := ReadInt(t, rw.value.next);
      if rh.None? {
        return Err(MissingNumber);
      }
      var w, h := rw.value.value, rh.value.value;
      if !SizeOk(w, h) {
        return Err(BadSize);
      }
      var m := new Map(w, h);
      var q1 := ReadInto(t, rh.value.next, m.grid0);
      if q1.None? {
        return Err(MissingNumber);
      }
      var q2 := ReadInto(t, SkipTwo(t, q1.value), m.grid1);
      if q2.None? {
        return Err(MissingNumber);
      }
      var q3 := ReadInto(t, SkipTwo(t, q2.value), m.grid2);
      if q3.None? {
        return Err(MissingNumber);
      }
      return Ok((m, q3.value));
    }
  }

  /** The game: a map and the `u32` wave clock. */
  class Game {
    const board: Map
    var currentWave: int
    var nextWaveTime: int
    var timer: int

    ghost predicate Valid()
      reads this, board, board.walls, board.grid0, board.grid1, board.grid2
    {
      board.Valid() && ClockOk(Time())
    }

    function Time(): Clock
      reads this
    {
      Clock(timer, nextWaveTime, currentWave)
    }

    /** A game on map `m`, wave 0, with the first wave `next` ticks away. */
    constructor (m: Map, next: int)
      requires m.Valid() && InU32(next)
      ensures Valid() && board == m && Time() == Clock(0, next, 0)
    {
      board := m;
      currentWave, nextWaveTime, timer := 0, next, 0;
    }

    /**
     * The clock and the wave spawn of the game loop (map.h:632, 635-663):
     * the clock ticks, and a wave that starts appends its boats.
     */
    method WaveTick()
      requires Valid()
      modifies this, board
      ensures Valid()
      ensures Time() == Tick(old(Time())).0
      ensures board.units == old(board.units) + (if Tick(old(Time())).1 then WaveUnits(currentWave, board.width, board.height) else [])
      ensures board.cannons == old(board.cannons) && board.cannonballs == old(board.cannonballs) && board.explosions == old(board.explosions)
    {
      timer := U32(timer + 1);
      if timer == nextWaveTime {
        timer := 0;
        currentWave := U32(currentWave + 1);
        nextWaveTime := U32(nextWaveTime - WAVE_DELAY_INCREMENT);
        var boat := Boat(currentWave, board.width, board.height);
        board.units := board.units + [boat];
        if currentWave > 10 {
          board.units := board.units + [boat];
        }
        assert TargetOk(boat, board.walls.Length);
      }
    }

    /**
     * What happens to unit i once it has come to its destination
     * (map.h:743-785). A green carrier beyond (2900, 2900) is erased and the
     * unit loop stops; any other green carrier drops its invaders at the end
     * of the list and heads for (3000, 3000); every other unit only takes
     * the new state Arrived gives it.
     */
    method Arrive(i: nat, drop: nat -> Vec) returns (stop: bool)
      requires Valid() && i < |board.units|
      modifies board
      ensures Valid()
      ensures var u := old(board.units[i]);
        if u.owner == Green && IsCarrier(u) && AtHome(u) then
          stop && board.units == old(board.units[..i] + board.units[i + 1..])
        else if u.owner == Green && IsCarrier(u) then
          !stop && board.units == old(board.units)[i := Arrived(u).(dest := Vec(3000.0, 3000.0), state := Walking)]
                                  + Invaders(u.kind, currentWave, drop)
        else
          !stop && board.units == old(board.units)[i := Arrived(u)]
      ensures board.cannons == old(board.cannons) && board.cannonballs == old(board.cannonballs) && board.explosions == old(board.explosions)
    {
      var u := Arrived(board.units[i]);
      stop := false;
      if u.owner == Green && IsCarrier(u) {
        if AtHome(u) {
          board.units := board.units[..i] + board.units[i + 1..];
          return true;
        }
        var dropped := Invaders(u.kind, currentWave, drop);
        InvaderCounts(u.kind, currentWave, drop);
        board.units := board.units[i := u.(dest := Vec(3000.0, 3000.0), state := Walking)] + dropped;
      } else {
        board.units := board.units[i := u];
      }
    }
  }
}
