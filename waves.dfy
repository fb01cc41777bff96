/** The wave clock of the game loop and the carriers a wave sends (map.h:632-663). */
module Waves {
  import opened MapTypes

  /** The game's `timer`, `nextWaveTime` and `currentWave`, all `u32`. */
  datatype Clock = Clock(timer: int, nextWaveTime: int, currentWave: int)

  predicate ClockOk(c: Clock) { InU32(c.timer) && InU32(c.nextWaveTime) && InU32(c.currentWave) }

  /**
   * One tick of the clock (map.h:632-638): the timer rises by one, and when
   * it reaches `nextWaveTime` it starts over, the wave number rises and the
   * next wave comes 100 ticks sooner. The flag says whether a wave starts.
   */
  function Tick(c: Clock): (r: (Clock, bool))
    ensures ClockOk(c) ==> ClockOk(r.0)
  {
    var t := U32(c.timer + 1);
    if t == c.nextWaveTime then
      (Clock(0, U32(c.nextWaveTime - WAVE_DELAY_INCREMENT), U32(c.currentWave + 1)), true)
    else (Clock(t, c.nextWaveTime, c.currentWave), false)
  }

  /** The clock after `k` ticks, and how many waves started on the way. */
  function Run(c: Clock, k: nat): (Clock, nat)
  {
    if k == 0 then (c, 0)
    else
      var (c1, n) := Run(c, k - 1);
      var (c2, b) := Tick(c1);
      (c2, n + if b then 1 else 0)
  }

  /**
   * Right after a wave the timer counts up undisturbed: no wave starts
   * before `nextWaveTime` ticks, and none for 2^32 - 1 ticks once
   * `nextWaveTime` has come down to 0.
   */
  lemma {:induction false} QuietTicks(next: int, wave: int, k: nat)
    requires InU32(next) && InU32(wave) && k < U32_LIMIT && (k < next || next == 0)
    ensures Run(Clock(0, next, wave), k) == (Clock(k, next, wave), 0)
  {
    if k > 0 {
      QuietTicks(next, wave, k - 1);
    }
  }

  /** A wave starts exactly `nextWaveTime` ticks after the previous one, and then the gap shrinks by 100. */
  lemma WaveAfterExactly(next: int, wave: int)
    requires 0 < next < U32_LIMIT && InU32(wave)
    ensures Run(Clock(0, next, wave), next) ==
            (Clock(0, U32(next - WAVE_DELAY_INCREMENT), U32(wave + 1)), 1)
  {
    QuietTicks(next, wave, next - 1);
  }

  /**
   * Once `nextWaveTime` is 0 the next wave waits for the timer to wrap, and
   * `nextWaveTime` itself wraps to 2^32 - 100.
   */
  lemma StallAtZero(wave: int, k: nat)
    requires InU32(wave) && k + 1 == U32_LIMIT
    ensures Run(Clock(0, 0, wave), k + 1) == (Clock(0, U32_LIMIT - WAVE_DELAY_INCREMENT, U32(wave + 1)), 1)
  {
    QuietTicks(0, wave, k);
    assert Run(Clock(0, 0, wave), k + 1) == (Tick(Clock(k, 0, wave)).0, 1);
  }

  /** The boat a wave sends: a ship once the wave number is above 5, a dinghy before. */
  function Boat(wave: int, w: nat, h: nat): Unit
  {
    ZERO_UNIT.(hp := 100, maxHp := 100, dest := Vec(1000.0, 730.0), state := Walking, owner := Green,
               pos := Vec(TilePos(w), TilePos(h)), kind := if wave > 5 then Ship else Dinghy)
  }

  /** The units a wave appends: the boat, twice once the wave number is above 10. */
  function WaveUnits(wave: int, w: nat, h: nat): (r: seq<Unit>)
    ensures |r| == (if wave > 10 then 2 else 1)
    ensures forall j :: 0 <= j < |r| ==>
      && r[j].owner == Green && r[j].state == Walking && r[j].hp == 100 && r[j].maxHp == 100
      && r[j].kind == (if wave > 5 then Ship else Dinghy) && r[j].wtarget == None
      && r[j].pos == Vec(TilePos(w), TilePos(h)) && r[j].dest == Vec(1000.0, 730.0)
  {
    var boat := Boat(wave, w, h);
    if wave > 10 then [boat, boat] else [boat]
  }
}
