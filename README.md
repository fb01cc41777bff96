# Battle map bookkeeping

A Dafny model of the game-state core of `map.h`, a castle-defence game. The
player builds walls, gates and cannons on a tile grid. Green invaders arrive
by boat in waves, walk to the nearest wall and hit it until it falls. The
model covers:

- the wall grid and its sprite codes (`orient_walls`);
- the two nearest-match queries (`get_closest_wall`, `get_closest_enemy`);
- placing walls, gates and cannons;
- the destruction sweep that takes down walls with no hp left;
- the per-tick steps of the game loop: the wave clock, the cannons, the
  unit pass (dead units erased, idle invaders pick a wall, attackers strike)
  and what a unit does when it arrives;
- the map text file at the level of tokens: what the editor's save writes
  and what `load_map` reads back.

The program's state is two classes in module `Battle`:

- `Map` holds the tile layers and the wall grid as arrays the methods write
  in place, and the cannon, unit, cannonball and explosion lists as
  sequences the methods replace.
- `Game` holds a map and the `u32` wave clock.

Each method is proved against a function in one of the value modules
(`Adjacency`, `Queries`, `Ruins`, `UnitAI`, `Waves`, `Cannons`,
`MapFormat`). The properties the program relies on are lemmas about those
functions:

- argmin with first-found tie breaking;
- idempotence of `orient_walls`;
- which cannons a destruction sweep leaves;
- the exact tick a wave starts on, and how the `u32` clock wraps;
- the hit cadence of an attacker;
- which units the pruning keeps;
- the save/load round trip, and where it breaks.

Integer widths are explicit where the source depends on them: `I16` for
cannon timers and tile values, `U32` for the game clock, and `CRem` for C's
`%` on a negative timer. Distance (`getDistanceE`) and aiming (`get_angle`)
are function parameters. Random spawn offsets are a function `drop`.

Where the description of the game and `map.h` disagree, the model follows
`map.h`:

- An attacking unit's `rotation` grows by 0.5 per tick, and the wall loses
  1 hp when `(i32)rotation % 10 == 0`. So hits land at half-step counts 1,
  20, 21, 40, 41, …, not once every 10 counter units; see
  `UnitAI.HitsClosedForm`.
- The file format does not round-trip. Save writes no building count, and
  the loader reads one. A map with no cells desynchronises the loader.
- The owners are red, green and neutral. There is one kind of cannon and
  one kind of projectile, and there are no gold piles.

## Model

| member | source | states |
|---|---|---|
| MapTypes.I16 | map.h:94-100 | an `i16` store: the result is in range, congruent to the value mod 2^16, and the value itself when it fits |
| MapTypes.U32 | map.h:181-185 | a `u32` store: in range, congruent mod 2^32, one wrap up or down stated exactly |
| MapTypes.CRem | map.h:826 | C's `%` by a positive divisor: magnitude below the divisor, sign of the dividend, and C's truncated quotient times the divisor plus the remainder gives back the dividend |
| Adjacency.Code | map.h:320-373 | with no active neighbour the old code stays; otherwise a code in 0..17 other than the placeholder 6 |
| Adjacency.CodeNamesNeighbourhood | map.h:320-367 | on a non-gate cell the code names its neighbourhood exactly: 15 neighbourhoods, 15 distinct sprite codes |
| Adjacency.GateCode | map.h:368-373 | on a gate, up+down gives 15, else left+right gives 16, else the wall code |
| Adjacency.CodeForgetsPrevious | map.h:320-367 | once any neighbour is active the previous code plays no part |
| Adjacency.OrientedCell | map.h:319-373 | orienting a cell keeps its active flag, gate flag and hp |
| Adjacency.Oriented | map.h:316-376 | the grid after orient_walls is the grid with every cell oriented from the old neighbours at flat indices k±1 and k±w (an index outside the buffer reads as no wall) |
| Adjacency.OrientedReadsFlags | map.h:316-376 | a new code depends only on the neighbours' active flags and the cell's own gate flag and code |
| Adjacency.OrientIdempotent | map.h:316-376 | running orient_walls twice gives the same grid as once |
| Adjacency.InteriorCell | map.h:319-373 | for an interior cell the flat neighbours are right, left, below and above; no neighbour keeps the code; otherwise a non-gate code names the neighbourhood |
| Adjacency.RowEndReadsNextRow | map.h:320 | with no bounds check, the last cell of a row sees the first cell of the next row as its right neighbour |
| Queries.ClosestWallIsNearest | map.h:587-606 | get_closest_wall finds nothing (INT_MAX, refs untouched) iff no active wall is nearer than INT_MAX; else an active wall no farther than any other, the first such in x-outer, y-inner order |
| Queries.WallScanReadsFlags | map.h:591-602 | the wall scan reads only the active flags |
| Queries.ClosestEnemyIsNearest | map.h:608-628 | get_closest_enemy returns the first nearest unit of the faction, or nothing and INT_MAX |
| Queries.EnemyWithin | map.h:608-628 | a target within a range is found exactly when some unit of the faction is within it |
| Ruins.FirstCannonAt | map.h:453-459 | the removal loop finds the first cannon on the cell, or reports there is none |
| Ruins.WithoutCannonAtKeepsOthers | map.h:453-459 | with cannons on distinct cells, the erase removes exactly the cannon on the cell, if any, and keeps all others |
| Ruins.RuinFlags | map.h:442-451 | one destruction step deactivates only its own cell, and only if that cell has no hp left; no hp or gate flag changes |
| Ruins.RuinCannons | map.h:442-461 | one step erases the cannon on a cell it takes down and no other, and keeps every cannon on an active wall |
| Ruins.SweepFlags | map.h:438-461 | the sweep takes down exactly the active walls with hp <= 0 from its start on |
| Ruins.SweepExplosions | map.h:438-461 | the sweep keeps the queued explosions and appends one centred on each wall it takes down, rows outer and columns inner |
| Ruins.SweepCannonsOk | map.h:438-461 | the sweep keeps every cannon on an active wall and on a cell of its own |
| Ruins.SweepCannons | map.h:438-461 | the cannons left are exactly those not standing on a cell the sweep takes down |
| Ruins.SweepLeavesOriented | map.h:438-461 | the sweep either changes nothing or leaves a grid orient_walls would not change; an isolated cell keeps a code that depends on history, so this is as far as codes are fixed in general, but with Ruins.SweepFlags and Adjacency.CodeForgetsPrevious every cell with an active neighbour has the code its neighbourhood determines |
| Ruins.SweepAll | map.h:438-461 | the whole sweep of draw_map: flags, the explosions appended in visiting order, and the cannons as above, and the grid stays oriented |
| UnitAI.IdlePick | map.h:696-709 | the target pick changes only the AI fields and keeps a unit's target valid |
| UnitAI.IdlePickTargetsClosest | map.h:696-709 | an idle invader starts walking iff its nearest wall is outside row 0 and column 0; it then targets that wall and heads for its corner, and otherwise is unchanged |
| UnitAI.Attack | map.h:711-720 | an attack tick touches only the target cell and keeps its active flag; the target loses 1 hp on a hit tick and none otherwise; the unit goes idle with its count back at 0 exactly when a hit leaves the wall with no hp or the wall is inactive, and otherwise advances its count |
| UnitAI.HitsClosedForm | map.h:711-713 | among half-step counts 1..n there are 1 + n/20 + (n-1)/20 hit ticks |
| UnitAI.AttackRun | map.h:711-720 | while the wall has hp to spare, m ticks advance the count by m and take one hp per hit tick |
| UnitAI.AttackFromRest | map.h:711-720 | from a standing start a wall with enough hp loses exactly 1 + m/20 + (m-1)/20 hp in m ticks |
| UnitAI.UnitStep | map.h:696-720 | a living unit's step keeps the active flags, its identity and its target valid; it changes nothing for non-green units |
| UnitAI.Pass | map.h:688-720 | the unit pass keeps the active flags of the grid and every unit's target valid |
| UnitAI.PassKeepsSurvivors | map.h:688-720 | the pass keeps exactly the survivors, in order, changing only their AI fields |
| UnitAI.PassOfOthers | map.h:688-694 | with no green unit, the pass only prunes and leaves the grid alone |
| UnitAI.PassSurvivors | map.h:688-720 | the pass over the whole unit list in terms of the survivors |
| UnitAI.SurvivorsKeepLiving | map.h:691-694 | pruning never drops a living unit and keeps the living in order |
| UnitAI.SurvivorsAllLiving | map.h:691-694 | with no two dead units adjacent, no dead unit survives |
| UnitAI.SecondDeadSurvives | map.h:691-694 | of two dead units in a row, the second is passed over and survives the tick |
| UnitAI.Arrived | map.h:743-783 | on arrival the destination is cleared; a walking green footsoldier starts attacking; a walking unit of another owner goes idle; nothing else changes state |
| UnitAI.Footsoldiers | map.h:762-768 | n footsoldiers with 4 hp, the j-th at drop(j) |
| UnitAI.InvaderCounts | map.h:756-775 | a ship drops 10 footsoldiers (4 hp) and one elite (10 hp); a dinghy drops floor(2.5·wave) footsoldiers; all green, idle, untargeted |
| UnitAI.EliteKeepsWalking | map.h:747-750 | an elite never switches to attacking on arrival |
| Waves.Tick | map.h:632-639 | the clock tick keeps all three counters in `u32` range |
| Waves.QuietTicks | map.h:632-639 | after a wave, no wave starts for the next `nextWaveTime - 1` ticks |
| Waves.WaveAfterExactly | map.h:632-639 | a wave starts exactly `nextWaveTime` ticks after the previous one; then the gap shrinks by 100 and the wave number rises |
| Waves.StallAtZero | map.h:632-639 | once the gap has reached 0 the next wave waits 2^32 ticks, and the gap wraps to 2^32 - 100 |
| Waves.WaveUnits | map.h:641-662 | a wave appends one green walking boat with 100 hp, two above wave 10; a ship above wave 5, else a dinghy |
| Cannons.CannonStep | map.h:817-834 | a cannon keeps its place and hp, its `i16` timer advances, and it fires at most one ball, turning only when it fires |
| Cannons.FiresIff | map.h:817-834 | a cannon fires iff C's timer % 170 == 0 and some green unit is within range; the ball goes to the first nearest green unit |
| Cannons.Aimed | map.h:817-835 | every cannon is stepped on its own, in order |
| Cannons.VolleyBounds | map.h:817-835 | at most one ball per cannon, none while no green unit is in range of any cannon |
| Cannons.StepsTimer | map.h:818-822 | stepping a cannon k times keeps it in place, and from timer 0 below the `i16` limit its timer reads k |
| Cannons.TimerCadence | map.h:818-834 | a cannon placed with timer 0 that has a green unit in range fires on its k-th tick exactly when k is a multiple of 170, below the `i16` limit |
| Cannons.ShotGapAcrossWrap | map.h:822-826 | across the `i16` wrap the gap between shots is 256 ticks, not 170 |
| MapFormat.Ints | map.h:1021-1022 | a layer line is one number token per value, in order |
| MapFormat.BuildingLines | map.h:1042-1048 | the building lines only extend what was written before them |
| MapFormat.ReadLayer | map.h:530-534 | a layer read that succeeds yields exactly n values |
| MapFormat.ReadGrids | map.h:530-550 | reading three layers yields three layers of n values each |
| MapFormat.DecodeLayers | map.h:514-550 | a successful read has a size the `u16` loops handle and layers of width·height values |
| MapFormat.EncodeSaved | map.h:1017-1048 | the file save writes has each section where load_map looks for it |
| MapFormat.ReadLayerInts | map.h:530-534 | a layer line of `i16` values reads back unchanged |
| MapFormat.SavedGrids | map.h:522-550 | the three layers of a saved map with at least one cell read back unchanged |
| MapFormat.UnitsSection | map.h:551-563 | the unit count is read back; with no units the building count finds no number |
| MapFormat.SavedDecodes | map.h:514-571 | load_map on a saved map gives back its layout, or fails on unit records |
| MapFormat.LayoutRoundTrip | map.h:1017-1048 | saving then loading a map with at least one cell returns width, height and the three layers when it has no units, fails on unit records otherwise, and loses every wall |
| MapFormat.EmptyMapDoesNotLoad | map.h:514-555 | a saved map with no cells does not load: the reads fall one line behind and no unit count is found |
| Battle.Flood | map.h:302-306 | every cell of a layer becomes water (72) |
| Battle.CodeOf | map.h:320-373 | the chain of `if`s computes the sprite code |
| Battle.PlacementOriented | map.h:913-942 | placing a building and re-orienting leaves an oriented grid; the cell takes the building's flags and hp and every other cell keeps its own |
| Battle.PlacedGateCode | map.h:925-942 | a gate placed between left and right walls shows sprite 16, or 15 with walls above and below |
| Battle.EraseCannonAt | map.h:453-459 | the removal loop erases the first cannon on the cell |
| Battle.LayerTokens | map.h:1021-1022 | the save writes the layer's values in order |
| Battle.UnitTokens | map.h:1036-1040 | the save writes one unit line per unit |
| Battle.ReadInto | map.h:530-534 | one layer loop of load_map stores what ReadLayer reads, as `i16` values |
| Battle.Map.constructor | map.h:298-313 | create_map: all three layers water, every wall zero, every list empty |
| Battle.Map.OrientCell | map.h:319-373 | one cell of orient_walls, read from the grid as it stands |
| Battle.Map.OrientWalls | map.h:316-376 | the in-place loop, x outer and y inner, ends with the grid every cell of which is oriented from the old grid |
| Battle.Map.ClosestWall | map.h:587-606 | the loop computes get_closest_wall's result, with its argmin property |
| Battle.Map.ClosestEnemy | map.h:608-628 | the loop computes get_closest_enemy's result, with its argmin property |
| Battle.Map.PlaceWall | map.h:913-924 | a wall replaces an empty cell or a gate and the grid is re-oriented; otherwise nothing changes |
| Battle.Map.PlaceGate | map.h:925-942 | a gate goes on a non-gate cell flanked left+right or up+down and the grid is re-oriented; otherwise nothing changes |
| Battle.Map.PlaceCannon | map.h:943-958 | a cannon with 80 hp is appended only on an active wall holding no cannon |
| Battle.Map.RuinCell | map.h:442-461 | one cell of the destruction sweep, as Ruins.Ruin |
| Battle.Map.RemoveRuinedWalls | map.h:438-461 | the sweep of draw_map, rows outer and columns inner, as Ruins.Sweep |
| Battle.Map.StepCannon | map.h:818-834 | one cannon of the cannon loop, as Cannons.CannonStep |
| Battle.Map.FireCannons | map.h:817-835 | every cannon stepped, and their balls appended in cannon order |
| Battle.Map.UpdateUnits | map.h:688-720 | the unit loop leaves units and walls as UnitAI.Pass says |
| Battle.Map.Strike | map.h:711-720 | one attack tick on the grid, as UnitAI.Attack |
| Battle.Map.Save | map.h:1017-1048 | the tokens written are Encode of the map |
| Battle.Map.BuildingTokens | map.h:1042-1048 | one "x y hp" line per active wall, x outer and y inner |
| Battle.Map.Load | map.h:514-575 | load_map fails exactly when Decode fails, with its error; otherwise a fresh valid map with the decoded size and layers and nothing else |
| Battle.Map.LoadLayers | map.h:514-550 | the size and layer reads of load_map, as DecodeLayers |
| Battle.Game.WaveTick | map.h:632-663 | the wave clock ticks as Waves.Tick, and a wave that starts appends Waves.WaveUnits |
| Battle.Game.Arrive | map.h:743-785 | a green carrier at home is erased and the loop stops; any other green carrier drops its invaders and heads for (3000, 3000); every other unit takes its Arrived state |

## Left out

- Rendering, asset loading (`load_scene`), the menu and editor UI, the camera and the mouse hit-testing: graphics and input polling.
- Steering, velocity integration, the heading of boats and the arrival test itself: floating-point vector maths from a helper file that is not part of this model. `Game.Arrive` takes the index of a unit that has arrived.
- Cannonball flight, collisions and damage to units, and the explosion animation with its pruning (map.h:786-816, 838-844): floating point and an animation module that is not part of this model.
- `random_int` and `get_angle`: parameters (`drop`, `aim`). The ball's sprite offsets are parameters too (`dx`, `dy`).
- Real file I/O: files become token lists. The fields of a unit line are left opaque, because `%d` with `f32` arguments is undefined behaviour.
- The 40-unit push and clear after loading (map.h:578-582), and the 255-character limit of `fgets`.
- `f32` rounding: positions and distances are reals. `INT_MAX` stored in an `f32` is modelled as 2^31.
- UnitAI.InvaderCount: `(i32)(currentWave * 2.5)` is taken as the integer `(5 * wave) / 2`. This equals the truncated double product for every `u32` wave number, but the model does not show that the `i32` cast overflows for wave numbers above 858993459.
- Game.Arrive: after the first `push_back` the source keeps using the carrier pointer, which `push_back` may have invalidated: it reads `unit->pos` for every spawn position (map.h:767, 772) and `unit->type` to decide on the elite (map.h:770), and it writes the carrier's new destination and state through it (map.h:777-778). The model reads the carrier's type and writes its destination and state as intended; the position reads are covered by the `drop` parameter.
- Cannons.CannonStep: the ball position is stored as `i16`, but the cannon's own `i16` coordinates are taken as the placement gave them.
- Map.PlaceWall, Map.PlaceGate, Map.PlaceCannon: the cell comes from the mouse by a truncating division; the model takes a cell inside the grid, since the source reads outside the buffer otherwise.
- The choice of building by the selected menu entry: each building is its own method.
- A whole frame as one operation: each step of `game` and `draw_map` is a method of its own.
- Map.Load: `fscanf` leaves its target unset when no integer follows; the model reports `MissingNumber`. A size outside `0 <= w < 65536`, `0 <= h < 65536`, `w * h < 65536` is rejected as `BadSize`: that covers a negative width or height (stored into the `u16` fields with wrap-around), a width or height of 65536 or more even when the other is 0 and the product is 0, and a product the `u16` loop counter cannot reach, which makes the source loop forever.
- Map.Load: unit records and a building count are reported as errors (`UnitRecords`, `BuildingRecords`), because reading them is undefined behaviour.
- Adjacency.Active, Adjacency.Oriented, Adjacency.OrientIdempotent, Battle.Flanked, Map.OrientWalls, Map.PlaceGate: `orient_walls` and the gate test read some neighbours at indices outside the wall buffer: every up read on row 0, the left read of cell (0, 0), every down read on the last row, and the right read of the last cell (`u32` arithmetic wraps in `orient_walls`; the gate test's `i32` index goes negative). That is undefined behaviour. The model reads every such neighbour as no wall, so its whole-grid claims hold under that convention; Adjacency.InteriorCell states what holds for interior cells without it. The other border reads stay inside the buffer and the model follows them: the left read of a first-column cell (0, y) with y >= 1 sees the last cell of the row above, and the right read of a last-column cell sees the first cell of the next row (Adjacency.RowEndReadsNextRow).
