/** Row-major cell indexing and the wall sprite codes computed by orient_walls (map.h:315-376). */
module Adjacency {
  import opened MapTypes

  /** Cell (x, y) of a grid `w` cells wide lives at index x + y*w. */
  function Cell(x: int, y: int, w: int): int { x + y * w }

  lemma CellBounds(x: int, y: int, w: int, h: int)
    requires 0 <= x < w && 0 <= y < h
    ensures 0 <= Cell(x, y, w) < w * h
  {
    assert y * w <= (h - 1) * w;
  }

  lemma MulMonotone(a: int, b: int, w: int)
    requires a <= b && 0 <= w
    ensures a * w <= b * w
  {
    assert b * w - a * w == (b - a) * w;
  }

  /** The column and row of an index are recovered by `%` and `/`. */
  lemma CellColRow(x: int, y: int, w: int)
    requires 0 <= x < w && 0 <= y
    ensures Cell(x, y, w) % w == x && Cell(x, y, w) / w == y
  {
    var k := Cell(x, y, w);
    var q, r := k / w, k % w;
    assert k == q * w + r && 0 <= r < w;
    if q > y {
      MulMonotone(y + 1, q, w);
      assert false;
    }
    if q < y {
      MulMonotone(q + 1, y, w);
      assert false;
    }
  }

  lemma IndexColRow(k: int, w: int, h: int)
    requires 0 <= k < w * h && w > 0
    ensures 0 <= k % w < w && 0 <= k / w < h
    ensures k == Cell(k % w, k / w, w)
  {
  }

  /** Whether the cell at flat index `k` holds an active wall; an index outside the buffer reads as no wall. */
  predicate Active(ws: seq<Wall>, k: int) { 0 <= k < |ws| && ws[k].active }

  /**
   * The sprite code orient_walls gives a cell whose right, left, lower and
   * upper neighbours have the given flags: a chain of tests where the last
   * one that holds wins, then, on a gate, the two straight-through gate codes.
   */
  function Code(right: bool, left: bool, down: bool, up: bool, gate: bool, prev: int): (r: int)
    ensures !(right || left || down || up) ==> r == prev
    ensures (right || left || down || up) ==> 0 <= r <= 17 && r != FRESH_ADJACENCY
  {
    var c0 := if right then 10 else prev;
    var c1 := if left then 9 else c0;
    var c2 := if down then 7 else c1;
    var c3 := if up then 8 else c2;
    var c4 := if right && left then 1 else c3;
    var c5 := if down && up then 0 else c4;
    var c6 := if down && right then 11 else c5;
    var c7 := if down && left then 12 else c6;
    var c8 := if up && right then 13 else c7;
    var c9 := if up && left then 14 else c8;
    var c10 := if down && up && left then 4 else c9;
    var c11 := if down && up && right then 5 else c10;
    var c12 := if down && right && left then 2 else c11;
    var c13 := if up && right && left then 3 else c12;
    var c14 := if down && right && left && up then 17 else c13;
    var c15 := if gate && left && right then 16 else c14;
    if gate && down && up then 15 else c15
  }

  /** Which orthogonal neighbours are active. */
  datatype Neighbours = Neighbours(right: bool, left: bool, down: bool, up: bool)

  predicate AnyNeighbour(n: Neighbours) { n.right || n.left || n.down || n.up }

  /** The neighbourhood a non-gate sprite code stands for (the sprite sheet's legend). */
  function SpriteNeighbours(code: int): Option<Neighbours>
  {
    match code
    case 10 => Some(Neighbours(true, false, false, false))
    case 9 => Some(Neighbours(false, true, false, false))
    case 7 => Some(Neighbours(false, false, true, false))
    case 8 => Some(Neighbours(false, false, false, true))
    case 1 => Some(Neighbours(true, true, false, false))
    case 0 => Some(Neighbours(false, false, true, true))
    case 11 => Some(Neighbours(true, false, true, false))
    case 12 => Some(Neighbours(false, true, true, false))
    case 13 => Some(Neighbours(true, false, false, true))
    case 14 => Some(Neighbours(false, true, false, true))
    case 4 => Some(Neighbours(false, true, true, true))
    case 5 => Some(Neighbours(true, false, true, true))
    case 2 => Some(Neighbours(true, true, true, false))
    case 3 => Some(Neighbours(true, true, false, true))
    case 17 => Some(Neighbours(true, true, true, true))
    case _ => None
  }

  /**
   * On a non-gate cell with at least one active neighbour the code names the
   * neighbourhood exactly: the fifteen neighbourhoods get fifteen distinct codes.
   */
  lemma CodeNamesNeighbourhood(n: Neighbours, prev: int)
    requires AnyNeighbour(n)
    ensures SpriteNeighbours(Code(n.right, n.left, n.down, n.up, false, prev)) == Some(n)
  {
  }

  /**
   * On a gate, a straight run (left and right, or up and down) overrides the
   * wall code with 16 or 15, up and down winning when both hold; any other
   * neighbourhood gets the wall code.
   */
  lemma GateCode(n: Neighbours, prev: int)
    ensures var r := Code(n.right, n.left, n.down, n.up, true, prev);
      if n.down && n.up then r == 15
      else if n.left && n.right then r == 16
      else r == Code(n.right, n.left, n.down, n.up, false, prev)
  {
  }

  /** The code does not depend on the previous one once any neighbour is active. */
  lemma CodeForgetsPrevious(right: bool, left: bool, down: bool, up: bool, gate: bool, p: int, q: int)
    requires right || left || down || up
    ensures Code(right, left, down, up, gate, p) == Code(right, left, down, up, gate, q)
  {
  }

  /** Orienting one cell: flat neighbours k+1, k-1, k+w and k-w, as orient_walls computes them. */
  function OrientedCell(ws: seq<Wall>, w: int, k: int): (r: Wall)
    requires 0 <= k < |ws|
    ensures r.active == ws[k].active && r.gate == ws[k].gate && r.hp == ws[k].hp
  {
    ws[k].(adjacency := Code(Active(ws, k + 1), Active(ws, k - 1), Active(ws, k + w), Active(ws, k - w),
                             ws[k].gate, ws[k].adjacency))
  }

  /** The grid after orient_walls. */
  function Oriented(ws: seq<Wall>, w: int): (r: seq<Wall>)
    ensures |r| == |ws|
    ensures forall k :: 0 <= k < |ws| ==> r[k] == OrientedCell(ws, w, k)
  {
    seq(|ws|, k requires 0 <= k < |ws| => OrientedCell(ws, w, k))
  }

  /** Two grids with the same `active` flags. */
  predicate SameFlags(a: seq<Wall>, b: seq<Wall>)
  {
    |a| == |b| && forall k :: 0 <= k < |a| ==> a[k].active == b[k].active
  }

  /**
   * orient_walls changes only `adjacency`, and each new code depends only on
   * the neighbours' `active` flags and the cell's own `gate` flag and old code.
   */
  lemma OrientedReadsFlags(a: seq<Wall>, b: seq<Wall>, w: int, k: int)
    requires SameFlags(a, b) && 0 <= k < |a|
    requires a[k].gate == b[k].gate && a[k].adjacency == b[k].adjacency
    ensures Oriented(a, w)[k].adjacency == Oriented(b, w)[k].adjacency
  {
    assert Active(a, k + 1) == Active(b, k + 1);
    assert Active(a, k - 1) == Active(b, k - 1);
    assert Active(a, k + w) == Active(b, k + w);
    assert Active(a, k - w) == Active(b, k - w);
  }

  /** Running orient_walls twice in a row gives the grid that running it once gives. */
  lemma OrientIdempotent(ws: seq<Wall>, w: int)
    ensures Oriented(Oriented(ws, w), w) == Oriented(ws, w)
  {
    var o := Oriented(ws, w);
    assert SameFlags(o, ws);
    forall k | 0 <= k < |ws| ensures Oriented(o, w)[k] == o[k] {
      assert Active(o, k + 1) == Active(ws, k + 1);
      assert Active(o, k - 1) == Active(ws, k - 1);
      assert Active(o, k + w) == Active(ws, k + w);
      assert Active(o, k - w) == Active(ws, k - w);
    }
  }

  /**
   * For a cell away from the border the four flat neighbours are the cells to
   * its right, left, below and above, and the code names that neighbourhood.
   */
  lemma InteriorCell(ws: seq<Wall>, w: int, h: int, x: int, y: int)
    requires |ws| == w * h && 0 < x < w - 1 && 0 < y < h - 1
    ensures var k := Cell(x, y, w);
      var n := Neighbours(Active(ws, Cell(x + 1, y, w)), Active(ws, Cell(x - 1, y, w)),
                          Active(ws, Cell(x, y + 1, w)), Active(ws, Cell(x, y - 1, w)));
      && 0 <= k < |ws|
      && (!AnyNeighbour(n) ==> Oriented(ws, w)[k].adjacency == ws[k].adjacency)
      && (AnyNeighbour(n) && !ws[k].gate ==> SpriteNeighbours(Oriented(ws, w)[k].adjacency) == Some(n))
  {
    CellBounds(x, y, w, h);
    var k := Cell(x, y, w);
    assert Cell(x + 1, y, w) == k + 1 && Cell(x - 1, y, w) == k - 1;
    assert Cell(x, y + 1, w) == k + w && Cell(x, y - 1, w) == k - w;
    var n := Neighbours(Active(ws, k + 1), Active(ws, k - 1), Active(ws, k + w), Active(ws, k - w));
    if AnyNeighbour(n) && !ws[k].gate {
      CodeNamesNeighbourhood(n, ws[k].adjacency);
    }
  }

  /**
   * The source does not bound-check the neighbours: the last cell of a row
   * reads the first cell of the next row as its right neighbour.
   */
  lemma RowEndReadsNextRow(ws: seq<Wall>, w: int, h: int, y: int)
    requires |ws| == w * h && w > 1 && 0 <= y < h - 1
    requires forall k :: 0 <= k < |ws| ==> ws[k].active == (k == Cell(0, y + 1, w))
    ensures var k := Cell(w - 1, y, w); 0 <= k < |ws| && Oriented(ws, w)[k].adjacency == 10
  {
    CellBounds(w - 1, y, w, h);
    CellBounds(0, y + 1, w, h);
    var k := Cell(w - 1, y, w);
    assert k + 1 == Cell(0, y + 1, w);
    assert !Active(ws, k - 1) && !Active(ws, k + w) && !Active(ws, k - w);
  }
}
