/**
 * The unit pass of the game loop (map.h:690-720): dead units are erased,
 * idle green units pick the nearest wall, attacking green units hit their
 * wall; and what happens to a unit when it arrives (map.h:747-783).
 */
module UnitAI {
  import opened MapTypes
  import opened Adjacency
  import opened Queries

  /**
   * The target of a unit is a cell of the grid, and a green unit that is
   * attacking, or a green footsoldier that is walking, has one.
   */
  predicate TargetOk(u: Unit, n: int)
  {
    && (u.wtarget.Some? ==> u.wtarget.value < n)
    && (u.owner == Green && (u.state == Attacking || (u.state == Walking && u.kind == Footsoldier)) ==>
          u.wtarget.Some?)
  }

  predicate TargetsOk(us: seq<Unit>, n: int)
  {
    forall j :: 0 <= j < |us| ==> TargetOk(us[j], n)
  }

  /** A unit with the fields the unit pass changes (state, half-steps, destination, target) cleared. */
  function Key(u: Unit): Unit
  {
    u.(dest := Vec(0.0, 0.0), swing := 0, wtarget := None, state := Idle)
  }

  /** Two unit lists that hold the same units in the same order, up to the fields the unit pass changes. */
  predicate SameUnits(a: seq<Unit>, b: seq<Unit>)
  {
    |a| == |b| && forall j :: 0 <= j < |a| ==> Key(a[j]) == Key(b[j])
  }

  // ---------------------------------------------------------------- target pick

  /**
   * The idle target pick (map.h:696-709): get_closest_wall with `wallx` and
   * `wally` starting at 0; the unit walks to the wall only when both
   * coordinates it got back are non-zero.
   */
  function IdlePick(u: Unit, ws: seq<Wall>, w: nat, h: nat, dist: Metric): (r: Unit)
    requires |ws| == w * h
    ensures Key(r) == Key(u)
    ensures TargetOk(u, |ws|) ==> TargetOk(r, |ws|)
  {
    ClosestWallIsNearest(ws, w, h, u.pos, dist, 0, 0);
    var n := ClosestWallOf(ws, w, h, u.pos, dist, 0, 0);
    if n.x != 0 && n.y != 0 then
      u.(wtarget := n.found, dest := Vec(TilePos(n.x), TilePos(n.y)), state := Walking)
    else u
  }

  /** Cell (x, y) is the active wall get_closest_wall reports: the nearest, and the first of the nearest in scan order. */
  ghost predicate FirstClosest(ws: seq<Wall>, w: nat, h: nat, p: Vec, dist: Metric, x: int, y: int)
  {
    && InGrid(w, h, x, y) && IsWall(ws, w, x, y) && CellDist(dist, p, x, y) < NO_DISTANCE
    && forall x', y' :: InGrid(w, h, x', y') && IsWall(ws, w, x', y') ==>
         CellDist(dist, p, x', y') >= CellDist(dist, p, x, y) &&
         (Before(x', y', x, y) ==> CellDist(dist, p, x', y') > CellDist(dist, p, x, y))
  }

  lemma FirstClosestOfScan(ws: seq<Wall>, w: nat, h: nat, p: Vec, dist: Metric, x: int, y: int)
    requires |ws| == w * h && FirstClosest(ws, w, h, p, dist, x, y)
    ensures var n := ClosestWallOf(ws, w, h, p, dist, 0, 0); n.found.Some? && n.x == x && n.y == y
  {
    var n := ClosestWallOf(ws, w, h, p, dist, 0, 0);
    ClosestWallIsNearest(ws, w, h, p, dist, 0, 0);
    assert IsWall(ws, w, x, y);
  }

  /**
   * An idle unit starts walking exactly when the active wall nearest to it
   * lies outside column 0 and row 0; it then targets that wall and heads
   * for its corner. A nearest wall in column 0 or row 0 keeps the unit idle
   * even when other walls exist.
   */
  lemma IdlePickTargetsClosest(u: Unit, ws: seq<Wall>, w: nat, h: nat, dist: Metric)
    requires |ws| == w * h && u.state == Idle
    ensures var r := IdlePick(u, ws, w, h, dist);
      && (r.state == Walking <==>
            exists x, y :: FirstClosest(ws, w, h, u.pos, dist, x, y) && x != 0 && y != 0)
      && (forall x, y :: FirstClosest(ws, w, h, u.pos, dist, x, y) && x != 0 && y != 0 ==>
            r == u.(wtarget := Some(Cell(x, y, w)), dest := Vec(TilePos(x), TilePos(y)), state := Walking))
      && (r.state != Walking ==> r == u)
  {
    var r := IdlePick(u, ws, w, h, dist);
    var n := ClosestWallOf(ws, w, h, u.pos, dist, 0, 0);
    ClosestWallIsNearest(ws, w, h, u.pos, dist, 0, 0);
    if r.state == Walking {
      assert FirstClosest(ws, w, h, u.pos, dist, n.x, n.y);
    }
    forall x, y | FirstClosest(ws, w, h, u.pos, dist, x, y) && x != 0 && y != 0
      ensures r == u.(wtarget := Some(Cell(x, y, w)), dest := Vec(TilePos(x), TilePos(y)), state := Walking)
    {
      FirstClosestOfScan(ws, w, h, u.pos, dist, x, y);
    }
  }

  // ---------------------------------------------------------------- attack

  /** Whether the attack tick that brings the half-step count to `n` hits: `(i32)rotation % 10 == 0`. */
  predicate HitTick(n: nat) { (n / 2) % 10 == 0 }

  /**
   * One attack tick (map.h:711-720): `rotation` grows by half a step; on a
   * hit the target loses 1 hp, and when it has none left or is no longer an
   * active wall the unit goes idle with `rotation` back at 0.
   */
  function Attack(u: Unit, ws: seq<Wall>): (r: (Unit, seq<Wall>))
    requires u.wtarget.Some? && u.wtarget.value < |ws|
    ensures SameFlags(r.1, ws) && Key(r.0) == Key(u) && r.0.wtarget == u.wtarget
    ensures r.0.state == u.state || r.0.state == Idle
    ensures forall k :: 0 <= k < |ws| && k != u.wtarget.value ==> r.1[k] == ws[k]
    ensures var t := u.wtarget.value; r.1[t].hp == ws[t].hp - (if HitTick(u.swing + 1) then 1 else 0)
    ensures var t := u.wtarget.value;
      var down := HitTick(u.swing + 1) && (ws[t].hp - 1 <= 0 || !ws[t].active);
      && (r.0.state == Idle <==> u.state == Idle || down)
      && r.0.swing == (if down then 0 else u.swing + 1)
  {
    var n := u.swing + 1;
    var t := u.wtarget.value;
    if HitTick(n) then
      var ws' := ws[t := ws[t].(hp := ws[t].hp - 1)];
      if ws'[t].hp <= 0 || !ws'[t].active then (u.(state := Idle, swing := 0), ws')
      else (u.(swing := n), ws')
    else (u.(swing := n), ws)
  }

  /** `m` attack ticks in a row, ending early once the unit has gone idle. */
  function AttackTicks(u: Unit, ws: seq<Wall>, m: nat): (r: (Unit, seq<Wall>))
    requires u.wtarget.Some? && u.wtarget.value < |ws|
    decreases m
  {
    if m == 0 || u.state != Attacking then (u, ws)
    else
      var (u', ws') := Attack(u, ws);
      AttackTicks(u', ws', m - 1)
  }

  /** The number of hit ticks among half-step counts 1 .. n. */
  function Hits(n: nat): nat
  {
    if n == 0 then 0 else Hits(n - 1) + (if HitTick(n) then 1 else 0)
  }

  lemma {:induction false} HitsMonotone(a: nat, b: nat)
    requires a <= b
    ensures Hits(a) <= Hits(b)
    decreases b
  {
    if a < b {
      HitsMonotone(a, b - 1);
    }
  }

  /** The hit ticks are 1, 20, 21, 40, 41, ...: among 1 .. n there are 1 + n/20 + (n-1)/20 of them. */
  lemma {:induction false} HitsClosedForm(n: nat)
    requires n > 0
    ensures Hits(n) == 1 + n / 20 + (n - 1) / 20
  {
    if n > 1 {
      HitsClosedForm(n - 1);
      HitStep(n);
    }
  }

  /** Tick `n` hits exactly when n/20 + (n-1)/20 goes up by one from n - 1. */
  lemma HitStep(n: nat)
    requires n > 1
    ensures n / 20 + (n - 1) / 20 == (n - 1) / 20 + (n - 2) / 20 + (if HitTick(n) then 1 else 0)
  {
    var m := n - 1;
    var q, r := m / 20, m % 20;
    assert m == 20 * q + r;
    if r == 19 {
      assert n / 20 == q + 1 && (m - 1) / 20 == q && n / 2 == 10 * (q + 1);
    } else if r == 0 {
      assert n / 20 == q && (m - 1) / 20 == q - 1 && n / 2 == 10 * q;
    } else {
      assert n / 20 == q && (m - 1) / 20 == q;
      assert 10 * q < n / 2 < 10 * q + 10;
    }
  }

  /**
   * While its wall holds, an attacking unit keeps attacking: after `m`
   * ticks from half-step count `s` the wall has lost one hp per hit tick
   * among s+1 .. s+m and nothing else has changed.
   */
  lemma {:induction false} AttackRun(u: Unit, ws: seq<Wall>, m: nat)
    requires u.state == Attacking && u.wtarget.Some? && u.wtarget.value < |ws|
    requires ws[u.wtarget.value].active
    requires ws[u.wtarget.value].hp > Hits(u.swing + m) - Hits(u.swing)
    ensures var t := u.wtarget.value;
      AttackTicks(u, ws, m) ==
        (u.(swing := u.swing + m), ws[t := ws[t].(hp := ws[t].hp - (Hits(u.swing + m) - Hits(u.swing)))])
    decreases m
  {
    var t := u.wtarget.value;
    if m == 0 {
      assert ws[t := ws[t]] == ws;
    } else {
      var s := u.swing;
      var d1, d2 := Hits(s + 1) - Hits(s), Hits(s + m) - Hits(s + 1);
      HitsMonotone(s + 1, s + m);
      AttackOnce(u, ws);
      var u', ws' := u.(swing := s + 1), ws[t := ws[t].(hp := ws[t].hp - d1)];
      assert AttackTicks(u, ws, m) == AttackTicks(u', ws', m - 1);
      AttackRun(u', ws', m - 1);
      HpTwice(ws, t, d1, d2);
    }
  }

  /** Two hp losses on the same wall are one loss of their sum. */
  lemma HpTwice(ws: seq<Wall>, t: nat, d1: int, d2: int)
    requires t < |ws|
    ensures var ws' := ws[t := ws[t].(hp := ws[t].hp - d1)];
      ws'[t := ws'[t].(hp := ws'[t].hp - d2)] == ws[t := ws[t].(hp := ws[t].hp - (d1 + d2))]
  {
  }

  /** One attack tick on a wall with hp to spare: the count advances and the wall loses the tick's hit. */
  lemma AttackOnce(u: Unit, ws: seq<Wall>)
    requires u.state == Attacking && u.wtarget.Some? && u.wtarget.value < |ws|
    requires ws[u.wtarget.value].active
    requires ws[u.wtarget.value].hp > Hits(u.swing + 1) - Hits(u.swing)
    ensures var t := u.wtarget.value;
      Attack(u, ws) == (u.(swing := u.swing + 1), ws[t := ws[t].(hp := ws[t].hp - (Hits(u.swing + 1) - Hits(u.swing)))])
  {
    var t := u.wtarget.value;
    if !HitTick(u.swing + 1) {
      assert ws[t := ws[t].(hp := ws[t].hp - 0)] == ws;
    }
  }

  /**
   * From a standing start the very first tick hits, and then two of every
   * twenty: a wall with more hp than that survives `m` ticks having lost
   * 1 + m/20 + (m-1)/20 hp.
   */
  lemma AttackFromRest(u: Unit, ws: seq<Wall>, m: nat)
    requires u.state == Attacking && u.swing == 0 && u.wtarget.Some? && u.wtarget.value < |ws|
    requires ws[u.wtarget.value].active && m > 0
    requires ws[u.wtarget.value].hp > 1 + m / 20 + (m - 1) / 20
    ensures var t := u.wtarget.value;
      AttackTicks(u, ws, m) == (u.(swing := m), ws[t := ws[t].(hp := ws[t].hp - (1 + m / 20 + (m - 1) / 20))])
  {
    var d := 1 + m / 20 + (m - 1) / 20;
    HitsClosedForm(m);
    assert Hits(u.swing + m) - Hits(u.swing) == d;
    AttackRun(u, ws, m);
  }

  // ---------------------------------------------------------------- the pass

  /** What the pass does to a living unit (map.h:696-720). */
  function UnitStep(u: Unit, ws: seq<Wall>, w: nat, h: nat, dist: Metric): (r: (Unit, seq<Wall>))
    requires |ws| == w * h && TargetOk(u, |ws|)
    ensures SameFlags(r.1, ws) && TargetOk(r.0, |ws|) && Key(r.0) == Key(u)
    ensures u.owner != Green ==> r == (u, ws)
  {
    var u1 := if u.owner == Green && u.state == Idle then IdlePick(u, ws, w, h, dist) else u;
    if u1.owner == Green && u1.state == Attacking then Attack(u1, ws) else (u1, ws)
  }

  /**
   * The unit pass from index `i` on (map.h:690-720). A dead unit is erased
   * and the index still advances, so the unit that moves into its slot is
   * passed over in this tick.
   */
  function Pass(us: seq<Unit>, ws: seq<Wall>, w: nat, h: nat, dist: Metric, i: nat): (r: (seq<Unit>, seq<Wall>))
    requires |ws| == w * h && TargetsOk(us, |ws|)
    ensures SameFlags(r.1, ws) && TargetsOk(r.0, |ws|)
    decreases |us| - i
  {
    if i >= |us| then (us, ws)
    else if us[i].hp <= 0 then
      var rest := us[..i] + us[i + 1..];
      assert forall j :: 0 <= j < |rest| ==> rest[j] == (if j < i then us[j] else us[j + 1]);
      Pass(rest, ws, w, h, dist, i + 1)
    else
      var (u, ws') := UnitStep(us[i], ws, w, h, dist);
      Pass(us[i := u], ws', w, h, dist, i + 1)
  }

  /**
   * The units a pass keeps, as an independent definition: a dead unit goes,
   * and the unit right after it stays whatever its hp.
   */
  function Survivors(us: seq<Unit>): (r: seq<Unit>)
    ensures |r| <= |us|
  {
    if |us| == 0 then []
    else if us[0].hp <= 0 then (if |us| == 1 then [] else [us[1]] + Survivors(us[2..]))
    else [us[0]] + Survivors(us[1..])
  }

  /** The pass at a dead unit: it is erased and the index moves past the unit that takes its place. */
  lemma PassDead(us: seq<Unit>, ws: seq<Wall>, w: nat, h: nat, dist: Metric, i: nat)
    requires |ws| == w * h && TargetsOk(us, |ws|) && i < |us| && us[i].hp <= 0
    ensures TargetsOk(us[..i] + us[i + 1..], |ws|)
    ensures Pass(us, ws, w, h, dist, i) == Pass(us[..i] + us[i + 1..], ws, w, h, dist, i + 1)
  {
    var rest := us[..i] + us[i + 1..];
    assert forall j :: 0 <= j < |rest| ==> rest[j] == (if j < i then us[j] else us[j + 1]);
  }

  /** The pass at a living unit: it takes its step and the index moves on. */
  lemma PassLiving(us: seq<Unit>, ws: seq<Wall>, w: nat, h: nat, dist: Metric, i: nat)
    requires |ws| == w * h && TargetsOk(us, |ws|) && i < |us| && us[i].hp > 0
    ensures var r := UnitStep(us[i], ws, w, h, dist);
      |r.1| == w * h && TargetsOk(us[i := r.0], |r.1|) &&
      Pass(us, ws, w, h, dist, i) == Pass(us[i := r.0], r.1, w, h, dist, i + 1)
  {
  }

  /** Replacing the head of `rest` in `pre + rest` gives a longer prefix. */
  lemma ShiftPrefix(pre: seq<Unit>, rest: seq<Unit>, u: Unit)
    requires |rest| > 0
    ensures (pre + rest)[|pre| := u] == (pre + [u]) + rest[1..]
  {
  }

  /** Erasing the head of `rest` in `pre + rest`, when a second unit follows, gives a longer prefix. */
  lemma EraseHead(pre: seq<Unit>, rest: seq<Unit>)
    requires |rest| > 0
    ensures var us := pre + rest; us[..|pre|] + us[|pre| + 1..] == pre + rest[1..]
    ensures |rest| > 1 ==> pre + rest[1..] == (pre + [rest[1]]) + rest[2..]
  {
  }

  /** The survivors' step at a dead head unit. */
  lemma SurvivorsDead(pre: seq<Unit>, rest: seq<Unit>, r: seq<Unit>)
    requires |rest| > 1 && rest[0].hp <= 0
    requires |r| == |pre| + 1 + |Survivors(rest[2..])| && r[..|pre| + 1] == pre + [rest[1]]
    requires SameUnits(r[|pre| + 1..], Survivors(rest[2..]))
    ensures |r| == |pre| + |Survivors(rest)| && r[..|pre|] == pre && SameUnits(r[|pre|..], Survivors(rest))
  {
    assert Survivors(rest) == [rest[1]] + Survivors(rest[2..]);
    assert r[..|pre|] == r[..|pre| + 1][..|pre|];
    assert r[|pre|..] == [rest[1]] + r[|pre| + 1..];
  }

  /** The survivors' step at a living head unit that the pass has stepped to `u`. */
  lemma SurvivorsLiving(pre: seq<Unit>, rest: seq<Unit>, u: Unit, r: seq<Unit>)
    requires |rest| > 0 && rest[0].hp > 0 && Key(u) == Key(rest[0])
    requires |r| == |pre| + 1 + |Survivors(rest[1..])| && r[..|pre| + 1] == pre + [u]
    requires SameUnits(r[|pre| + 1..], Survivors(rest[1..]))
    ensures |r| == |pre| + |Survivors(rest)| && r[..|pre|] == pre && SameUnits(r[|pre|..], Survivors(rest))
  {
    assert Survivors(rest) == [rest[0]] + Survivors(rest[1..]);
    assert r[..|pre|] == r[..|pre| + 1][..|pre|];
    assert r[|pre|..] == [u] + r[|pre| + 1..];
  }

  /**
   * The pass keeps exactly the survivors, in order, changing only their AI
   * fields.
   */
  lemma {:induction false} PassKeepsSurvivors(pre: seq<Unit>, rest: seq<Unit>, ws: seq<Wall>, w: nat, h: nat, dist: Metric)
    requires |ws| == w * h && TargetsOk(pre + rest, |ws|)
    ensures var r := Pass(pre + rest, ws, w, h, dist, |pre|);
      && |r.0| == |pre| + |Survivors(rest)| && r.0[..|pre|] == pre
      && SameUnits(r.0[|pre|..], Survivors(rest))
    decreases |rest|
  {
    if |rest| == 0 {
      assert pre + rest == pre;
    } else if rest[0].hp <= 0 {
      PassDead(pre + rest, ws, w, h, dist, |pre|);
      EraseHead(pre, rest);
      if |rest| > 1 {
        PassKeepsSurvivors(pre + [rest[1]], rest[2..], ws, w, h, dist);
        SurvivorsDead(pre, rest, Pass(pre + [rest[1]] + rest[2..], ws, w, h, dist, |pre| + 1).0);
      }
    } else {
      PassLiving(pre + rest, ws, w, h, dist, |pre|);
      var s := UnitStep(rest[0], ws, w, h, dist);
      ShiftPrefix(pre, rest, s.0);
      PassKeepsSurvivors(pre + [s.0], rest[1..], s.1, w, h, dist);
      SurvivorsLiving(pre, rest, s.0, Pass(pre + [s.0] + rest[1..], s.1, w, h, dist, |pre| + 1).0);
    }
  }

  /** A living head unit survives, ahead of the survivors of the rest. */
  lemma PrependLiving(pre: seq<Unit>, rest: seq<Unit>)
    requires |rest| > 0 && rest[0].hp > 0
    ensures pre + [rest[0]] + Survivors(rest[1..]) == pre + Survivors(rest)
  {
    var t := Survivors(rest[1..]);
    assert Survivors(rest) == [rest[0]] + t;
    assert pre + [rest[0]] + t == pre + ([rest[0]] + t);
  }

  /** A dead head unit goes, and the unit after it survives ahead of the survivors of the rest. */
  lemma PrependDead(pre: seq<Unit>, rest: seq<Unit>)
    requires |rest| > 1 && rest[0].hp <= 0
    ensures pre + [rest[1]] + Survivors(rest[2..]) == pre + Survivors(rest)
  {
    var t := Survivors(rest[2..]);
    assert Survivors(rest) == [rest[1]] + t;
    assert pre + [rest[1]] + t == pre + ([rest[1]] + t);
  }

  /** When no unit is green the pass only prunes: walls and the other units stay as they are. */
  lemma {:induction false} PassOfOthers(pre: seq<Unit>, rest: seq<Unit>, ws: seq<Wall>, w: nat, h: nat, dist: Metric)
    requires |ws| == w * h && TargetsOk(pre + rest, |ws|)
    requires forall j :: 0 <= j < |rest| ==> rest[j].owner != Green
    ensures Pass(pre + rest, ws, w, h, dist, |pre|) == (pre + Survivors(rest), ws)
    decreases |rest|
  {
    if |rest| == 0 {
      assert pre + rest == pre;
    } else if rest[0].hp <= 0 {
      PassDead(pre + rest, ws, w, h, dist, |pre|);
      EraseHead(pre, rest);
      if |rest| > 1 {
        PassOfOthers(pre + [rest[1]], rest[2..], ws, w, h, dist);
        PrependDead(pre, rest);
      }
    } else {
      PassLiving(pre + rest, ws, w, h, dist, |pre|);
      assert UnitStep(rest[0], ws, w, h, dist) == (rest[0], ws);
      ShiftPrefix(pre, rest, rest[0]);
      PassOfOthers(pre + [rest[0]], rest[1..], ws, w, h, dist);
      PrependLiving(pre, rest);
    }
  }

  /** The pass over a whole list, in terms of the survivors. */
  lemma PassSurvivors(us: seq<Unit>, ws: seq<Wall>, w: nat, h: nat, dist: Metric)
    requires |ws| == w * h && TargetsOk(us, |ws|)
    ensures SameUnits(Pass(us, ws, w, h, dist, 0).0, Survivors(us))
    ensures (forall j :: 0 <= j < |us| ==> us[j].owner != Green) ==> Pass(us, ws, w, h, dist, 0) == (Survivors(us), ws)
  {
    assert [] + us == us;
    PassKeepsSurvivors([], us, ws, w, h, dist);
    if forall j :: 0 <= j < |us| ==> us[j].owner != Green {
      PassOfOthers([], us, ws, w, h, dist);
    }
  }

  /** The living units of a list, in order. */
  function Living(us: seq<Unit>): seq<Unit>
  {
    if |us| == 0 then [] else (if us[0].hp > 0 then [us[0]] else []) + Living(us[1..])
  }

  /** Pruning never drops a living unit and keeps their order. */
  lemma {:induction false} SurvivorsKeepLiving(us: seq<Unit>)
    ensures Living(Survivors(us)) == Living(us)
  {
    if |us| == 0 {
    } else if us[0].hp <= 0 {
      if |us| == 1 {
      } else {
        SurvivorsKeepLiving(us[2..]);
        assert us[1..][1..] == us[2..];
        assert ([us[1]] + Survivors(us[2..]))[1..] == Survivors(us[2..]);
      }
    } else {
      SurvivorsKeepLiving(us[1..]);
      assert ([us[0]] + Survivors(us[1..]))[1..] == Survivors(us[1..]);
    }
  }

  /** When no two dead units are next to each other, no dead unit survives. */
  lemma {:induction false} SurvivorsAllLiving(us: seq<Unit>)
    requires forall j :: 0 <= j < |us| - 1 ==> us[j].hp > 0 || us[j + 1].hp > 0
    ensures forall j :: 0 <= j < |Survivors(us)| ==> Survivors(us)[j].hp > 0
  {
    if |us| == 0 {
    } else if us[0].hp <= 0 {
      if |us| > 1 {
        assert us[1].hp > 0;
        var t := us[2..];
        assert forall j :: 0 <= j < |t| ==> t[j] == us[j + 2];
        SurvivorsAllLiving(t);
      }
    } else {
      var t := us[1..];
      assert forall j :: 0 <= j < |t| ==> t[j] == us[j + 1];
      SurvivorsAllLiving(t);
    }
  }

  /** Two dead units in a row: the second one is passed over and survives the pass. */
  lemma SecondDeadSurvives(us: seq<Unit>)
    requires |us| >= 2 && us[0].hp <= 0 && us[1].hp <= 0
    ensures |Survivors(us)| > 0 && Survivors(us)[0] == us[1] && Survivors(us)[0].hp <= 0
  {
  }

  // ---------------------------------------------------------------- arrival

  predicate IsCarrier(u: Unit) { u.kind == Ship || u.kind == Dinghy }

  /** A carrier beyond (2900, 2900) on both axes has come home. */
  predicate AtHome(u: Unit) { u.pos.x > HOME_EDGE && u.pos.y > HOME_EDGE }

  /**
   * A unit that arrives loses its destination; a green footsoldier that was
   * walking starts attacking, and a walking unit of another owner goes idle
   * (map.h:743-753, 779-782).
   */
  function Arrived(u: Unit): (r: Unit)
    ensures Key(r) == Key(u).(dest := Vec(0.0, 0.0)) && r.dest == Vec(-1.0, -1.0) && r.wtarget == u.wtarget
    ensures r.state == Attacking <==>
              (u.state == Attacking || (u.owner == Green && u.state == Walking && u.kind == Footsoldier))
    ensures r.state == Idle <==> (u.state == Idle || (u.owner != Green && u.state == Walking))
  {
    var v := u.(dest := Vec(-1.0, -1.0));
    if u.owner == Green then
      if u.state == Walking && u.kind == Footsoldier then v.(state := Attacking) else v
    else if u.state == Walking then v.(state := Idle) else v
  }

  /** How many footsoldiers a carrier drops: ten from a ship, `(i32)(currentWave * 2.5)` from a dinghy. */
  function InvaderCount(kind: UnitType, wave: nat): nat
  {
    if kind == Ship then 10 else (5 * wave) / 2
  }

  /** A dropped invader: all zero but its type, state, owner, hp and position. */
  function Invader(kind: UnitType, hp: int, pos: Vec): Unit
  {
    ZERO_UNIT.(pos := pos, hp := hp, owner := Green, kind := kind, state := Idle)
  }

  /** The first `n` footsoldiers, the j-th dropped at `drop(j)`. */
  function Footsoldiers(n: nat, drop: nat -> Vec): (r: seq<Unit>)
    ensures |r| == n
    ensures forall j :: 0 <= j < n ==> r[j] == Invader(Footsoldier, 4, drop(j))
  {
    if n == 0 then [] else Footsoldiers(n - 1, drop) + [Invader(Footsoldier, 4, drop(n - 1))]
  }

  /** Everyone a carrier drops: its footsoldiers, then, from a ship, one elite. */
  function Invaders(kind: UnitType, wave: nat, drop: nat -> Vec): seq<Unit>
  {
    Footsoldiers(InvaderCount(kind, wave), drop) + (if kind == Ship then [Invader(Elite, 10, drop(10))] else [])
  }

  /**
   * A ship drops ten footsoldiers with 4 hp and one elite with 10 hp; a
   * dinghy drops floor(2.5 * wave) footsoldiers. All of them are green, idle
   * and without a target.
   */
  lemma InvaderCounts(kind: UnitType, wave: nat, drop: nat -> Vec)
    requires kind == Ship || kind == Dinghy
    ensures var r := Invaders(kind, wave, drop);
      && |r| == (if kind == Ship then 11 else (5 * wave) / 2)
      && (forall j :: 0 <= j < |r| ==> r[j].owner == Green && r[j].state == Idle && r[j].wtarget == None)
      && (forall j :: 0 <= j < |r| ==> (r[j].kind == Footsoldier && r[j].hp == 4) || (kind == Ship && j == 10))
      && (kind == Ship ==> r[10].kind == Elite && r[10].hp == 10)
      && TargetsOk(r, 0)
  {
    var n := InvaderCount(kind, wave);
    var f := Footsoldiers(n, drop);
    var tail := if kind == Ship then [Invader(Elite, 10, drop(10))] else [];
    var r := f + tail;
    forall j | 0 <= j < |r|
      ensures r[j].owner == Green && r[j].state == Idle && r[j].wtarget == None
      ensures (r[j].kind == Footsoldier && r[j].hp == 4) || (kind == Ship && j == 10)
    {
      if j < n {
        assert r[j] == f[j];
      } else {
        assert r[j] == tail[j - n];
      }
    }
    if kind == Ship {
      assert r[10] == tail[0];
    }
  }

  /** An elite never attacks: arriving leaves a walking elite walking. */
  lemma EliteKeepsWalking(u: Unit)
    requires u.owner == Green && u.kind == Elite && u.state == Walking
    ensures Arrived(u).state == Walking
  {
  }
}
