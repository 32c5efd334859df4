# Falling-sand update engine, in Dafny

This project models the core of a small falling-sand simulator. A world is a
width × height grid whose cells are empty or hold one particle: sand, water,
stone, fire, smoke, wood or plant. Once per tick the update engine clears every
particle's processed flag. It then visits the rows from the bottom up, and within
each row it visits the columns left to right or right to left. Each unprocessed
particle is marked as processed and dispatched to its type's rule:
- sand falls, and sinks through water;
- water falls, and flows sideways by one or two cells;
- fire burns down, lights wood, is put out by water and rises;
- smoke fades out and drifts up;
- plants grow next to water.

Modules:

- `Options`: the option type.
- `Particles` (`src/particles/base.ts`): the type enumeration, the particle record and `CreateParticle`.
- `Worlds` (`src/world.ts`): the grid store as an immutable `World` value. Its functions are `NewWorld`, `InBounds`, `Get`, `Set`, `IsEmpty`, `IsType`, `Spawn`, `Swap`, `ResetUpdated` and `Clear`. It also has facts about them, including that a swap permutes the grid's multiset of cells.
- `Physics` (`src/physics.ts`): the rules and the pass. Sand, water and drifting smoke share one mover, `MoveFirst`. It tries a list of relative probes, in the order the rule lists them, and exchanges the particle with the first cell that admits it. `Step` is one dispatch. `SweepRow`, `SweepRows` and `Update` are one tick, and `Run` is a sequence of ticks.
- `RuleFacts`: what each rule does.
  - For sand, water and smoke: the exact order in which the rule tries its cells, stated against an independent if-chain or an index-based reference, and the one-move bound.
  - For sand and water: conservation of particles.
  - For fire: what the neighbour scan changes, and which water it evaporates (the first in scan order whose draw says so).
  - For plants: the exact cells a plant grows into.
  - For every rule, a frame: only soft cells near the particle change, where soft means empty, wood or water.
- `FireFacts`: one live-fire dispatch cell by cell, against a reference that names each cell's outcome: which wood is lit, which water turns to smoke, and exactly when the fire rises.
- `TickFacts`: facts about the pass:
  - stone never moves, appears or disappears, over any number of ticks;
  - a world of stone, wood and empty particles is at rest, up to flags;
  - a dispatch in row y only touches rows y-1 to y+1;
  - moved sand, water, smoke and fire are marked as processed, so they are not dispatched twice;
  - a freshly lit neighbour is left unprocessed, so a dispatch of its cell later in the tick is not skipped;
  - each unprocessed particle is handed to its type's rule;
  - a row visits every column exactly once, from the edge the tick's direction names, and the direction can change a tick's outcome;
  - two concrete one-column shaft scenarios.

Every call to `Math.random()` is an explicit input. A tick takes a `Choices` value. It holds the column direction, left to right or right to left, in which every row of the tick is swept and, for each coordinate, a `Draws` record. Each coordinate is dispatched at most once per tick, so these draws are as independent as fresh random calls. A `Draws` record holds:
- the left/right bias;
- the flow distance, 1 or 2;
- fire-to-smoke;
- the lifetime rolls;
- per neighbour slot: "ignites", a fire lifetime roll and "evaporates";
- fire rising;
- plant growth, upward and diagonal.

A `p > t` test becomes a boolean. A lifetime roll `floor(random * n)` becomes an integer in `[0, n)`. The probability thresholds themselves are not represented: every outcome is allowed.

Consequences the lemmas establish:
- `RuleFacts.WaterJumpsOverNeighbour`: with the cells below blocked, a right bias and flow distance 2, water passes over an occupied neighbour into an empty cell two columns away. The sideways probe does not look at the cell in between.
- `TickFacts.FreshFireIsDispatched`: a neighbour the fire has just lit holds an unprocessed fire, and dispatching that cell changes it. So it is dispatched when the sweep reaches it later in this tick; this is proved for the single dispatch, not at the level of the sweep. Smoke made by evaporation is also created unprocessed (`RuleFacts.DouseSpec`).
- `TickFacts.ShaftWaterFallsFirst`: in a one-cell-wide shaft with sand above water above an empty cell, one tick gives empty, sand, water from the top. The rows are swept bottom-up, so the water falls first and the sand follows into the cell it left. The two never exchange.

## Model

| member | source | states |
|---|---|---|
| Particles.CreateParticle | src/particles/base.ts:18-31 | a created particle has the requested type and is unprocessed; it has a lifetime exactly when it is fire (20 to 49) or smoke (40 to 79) |
| Particles.FireLifetimesExact | src/particles/base.ts:24-25 | every fire lifetime from 20 to 49 is produced by some roll, so the range is exact |
| Particles.SmokeLifetimesExact | src/particles/base.ts:26-27 | every smoke lifetime from 40 to 79 is produced by some roll |
| Worlds.NewWorld | src/world.ts:8-19 | a new world has the given size, a well-formed grid and every cell empty |
| Worlds.Get | src/world.ts:25-28 | a read outside the grid gives no particle |
| Worlds.Set | src/world.ts:30-33 | an in-bounds write is read back, every other cell is unchanged, and an out-of-bounds write changes nothing |
| Worlds.IsEmpty | src/world.ts:35-38 | a cell is empty exactly when it is inside the grid and holds no particle |
| Worlds.IsType | src/world.ts:40-43 | a type test holds exactly when the cell holds a particle of that type, which implies it is in bounds |
| Worlds.Spawn | src/world.ts:45-52 | out of bounds is a no-op; the Empty type clears the cell; any other type overwrites the cell with a fresh particle; no other cell changes |
| Worlds.Swap | src/world.ts:54-59 | with both cells in bounds their contents are exchanged and nothing else changes; with either outside the grid the world is unchanged |
| Worlds.SwapSelf | src/world.ts:54-59 | swapping a cell with itself changes nothing |
| Worlds.SwapSymmetric | src/world.ts:54-59 | swapping is symmetric in its two cells |
| Worlds.SwapTwice | src/world.ts:54-59 | swapping the same cells twice restores the world |
| Worlds.SwapPreservesContents | src/world.ts:54-59 | a swap permutes the grid: the multiset of cell contents is unchanged |
| Worlds.SetSame | src/world.ts:30-33 | writing back what a cell holds changes nothing |
| Worlds.SetSet | src/world.ts:30-33 | of two writes to one cell only the second survives |
| Worlds.ResetUpdated | src/world.ts:61-68 | every occupied cell stays occupied by the same particle with its processed flag cleared; empty cells stay empty |
| Worlds.ResetUpdatedIdempotent | src/world.ts:61-68 | clearing the flags twice is the same as once |
| Worlds.Clear | src/world.ts:70-76 | after clearing, every cell is empty and the size is unchanged |
| Worlds.ClearIsFresh | src/world.ts:70-76 | a cleared world equals a new world of the same size |
| Physics.CanFallThrough | src/physics.ts:184-188 | sand can enter a cell exactly when it is in bounds and empty or water |
| Physics.CanWaterOccupy | src/physics.ts:190-192 | water may enter a cell exactly when it is in bounds and holds nothing; such a cell would also admit sand and holds no water |
| Physics.SwapOrFall | src/physics.ts:194-202 | when the target is in bounds and empty or water it is a swap; when it is outside the grid or holds any other particle the world is unchanged |
| Physics.FirstOpen | src/physics.ts:44-94 | the index found is that of the first probe whose cell admits the mover, or the number of probes when none does |
| Physics.MoveFirst | src/physics.ts:44-94 | keeps the world well-formed and its size; its behaviour is stated by RuleFacts.MoveFirstEntersFirstOpen |
| Physics.UpdateSand | src/physics.ts:44-60 | keeps the world well-formed and its size; its behaviour is stated by the RuleFacts.Sand lemmas |
| Physics.UpdateWater | src/physics.ts:62-94 | keeps the world well-formed and its size; its behaviour is stated by the RuleFacts.Water lemmas |
| Physics.Scorch | src/physics.ts:111-131 | keeps the world well-formed and its size; its behaviour is stated by FireFacts.ScorchExact and RuleFacts.ScorchDousesFirst |
| Physics.Blaze | src/physics.ts:111-136 | keeps the world well-formed and its size; its behaviour is stated, through UpdateFire, by FireFacts.FireExact |
| Physics.UpdateFire | src/physics.ts:96-137 | keeps the world well-formed and its size; its behaviour is stated by RuleFacts.FireBurnsOut and FireFacts.FireExact |
| Physics.UpdateSmoke | src/physics.ts:139-161 | keeps the world well-formed and its size; its behaviour is stated by the RuleFacts.Smoke lemmas |
| Physics.UpdatePlant | src/physics.ts:163-182 | keeps the world well-formed and its size; its behaviour is stated by RuleFacts.PlantGrowsExactly |
| Physics.Step | src/physics.ts:17-39 | keeps the world well-formed and its size; its behaviour is stated by the TickFacts.Step lemmas |
| Physics.SweepRow | src/physics.ts:17-40 | keeps the world well-formed and its size; its behaviour is stated by the TickFacts.SweepRow lemmas |
| Physics.SweepRows | src/physics.ts:12-41 | keeps the world well-formed and its size; its behaviour is stated by TickFacts.SweepRowsKeepsStone |
| Physics.Update | src/physics.ts:5-42 | keeps the world well-formed and its size; its behaviour is stated by TickFacts.UpdateKeepsStone and TickFacts.UpdateInert |
| Physics.Run | src/physics.ts:5-42 | keeps the world well-formed and its size over any number of ticks; its behaviour is stated by TickFacts.RunKeepsStone and TickFacts.RunInert |
| RuleFacts.MoveFirstEntersFirstOpen | src/physics.ts:44-94 | the probe-by-probe mover equals its index-based reference: exchange with the first probe that admits the mover, else no change |
| RuleFacts.MoveFirstConserves | src/physics.ts:44-94 | the mover never creates or loses a particle: the multiset of cells is kept |
| RuleFacts.SandTriesInOrder | src/physics.ts:44-60 | sand tries straight down, then the biased diagonal, then the other diagonal, and takes the first empty or water cell |
| RuleFacts.SandFallsOneCell | src/physics.ts:44-60 | sand moves at most once, one row down; straight down whenever possible; it stays only when all three cells below are blocked |
| RuleFacts.SandDisplacesWater | src/physics.ts:194-202 | sand above water exchanges with it, so the water takes the sand's cell |
| RuleFacts.SandConserves | src/physics.ts:44-60 | a sand dispatch keeps the multiset of cells |
| RuleFacts.SandChangesOnlySoftCells | src/physics.ts:44-60 | a sand dispatch leaves its own cell holding stone exactly when it held stone before, and every other cell it changes lies within two columns and one row, was soft (empty, wood or water) and does not hold stone afterwards |
| RuleFacts.FlowProbesOffsets | src/physics.ts:80-93 | the sideways probes follow the flow loop: for d from 1 to the flow distance, the d-th probe lies d columns away in the probed direction, in the water's own row |
| RuleFacts.WaterFallsInOrder | src/physics.ts:62-78 | water first tries straight down, then the biased diagonal, then the other diagonal, entering only an empty cell, and only then flows sideways |
| RuleFacts.WaterFlowsInOrder | src/physics.ts:80-93 | sideways flow tries distance 1 then (if drawn) 2 in the bias direction, then the same on the other side, into the first empty cell |
| RuleFacts.WaterTriesInOrder | src/physics.ts:62-94 | water tries the three cells below, then sideways flow, moving into the first empty cell |
| RuleFacts.WaterMovesIntoEmpty | src/physics.ts:62-94 | water moves at most once and only into an empty cell, down first and sideways only when all three cells below are blocked; it stays only when every candidate is occupied |
| RuleFacts.WaterJumpsOverNeighbour | src/physics.ts:62-87 | with all three cells below blocked, a right bias, flow distance 2, an occupied right neighbour and an empty cell two columns to the right, water exchanges with that cell |
| RuleFacts.WaterConserves | src/physics.ts:62-94 | a water dispatch keeps the multiset of cells |
| RuleFacts.WaterChangesOnlySoftCells | src/physics.ts:62-94 | a water dispatch leaves its own cell holding stone exactly when it held stone before, and every other cell it changes lies within two columns and one row, was soft (empty, wood or water) and does not hold stone afterwards |
| RuleFacts.SmokeVanishes | src/physics.ts:139-147 | smoke whose lifetime runs out empties its cell and changes nothing else |
| RuleFacts.SmokeTriesInOrder | src/physics.ts:149-160 | live smoke, aged by one, tries up, the biased diagonal, the other diagonal, then sideways, into the first empty cell |
| RuleFacts.SmokeRises | src/physics.ts:139-161 | live smoke moves at most once, into an empty cell above, diagonally above or beside it, and stays only when all are occupied |
| RuleFacts.SmokeChangesOnlySoftCells | src/physics.ts:139-161 | a smoke dispatch leaves its own cell holding stone exactly when it held stone before, and every other cell it changes lies within two columns and one row, was soft (empty, wood or water) and does not hold stone afterwards |
| RuleFacts.SlotIsNeighbour | src/physics.ts:112-115 | every scanned slot is one of the eight cells around the fire |
| RuleFacts.LightWoodSpec | src/physics.ts:117-122 | lighting a slot changes at most that cell; it changes exactly when the cell holds wood and the draw says it ignites, and then holds a fresh fire; no water moves |
| RuleFacts.DouseSpec | src/physics.ts:123-130 | dousing turns exactly the water neighbour into an unprocessed smoke, empties the fire's cell and changes nothing else |
| RuleFacts.DouseIsScorched | src/physics.ts:117-130 | lighting a slot and then dousing it ends the scan as the scan contract describes |
| RuleFacts.LightThenScorched | src/physics.ts:117-122 | a lighting before a well-behaved scan keeps the scan contract |
| RuleFacts.ScorchSpec | src/physics.ts:111-131 | the scan changes only neighbours that were wood (now an unprocessed fire with lifetime 20 to 49) or water (now smoke); at most one water evaporates, and one does exactly when the scan reports the fire put out; then the fire's cell is empty, and otherwise it is unchanged |
| RuleFacts.FirstQuench | src/physics.ts:117-131 | the slot found is the first, in scan order from the given one, that holds water and whose draw says it evaporates, or 8 when there is none |
| RuleFacts.ScorchDousesFirst | src/physics.ts:117-131 | the scan is put out exactly when FirstQuench names a slot, and then that slot's water has turned to smoke |
| RuleFacts.FireBurnsOut | src/physics.ts:96-108 | an expiring fire becomes a fresh smoke with lifetime 40 to 79 exactly when the draw says so, and otherwise empty; nothing else changes |
| RuleFacts.ScorchedIsSpread | src/physics.ts:111-131 | a scan that starts from the aged fire satisfies the fire's spread contract |
| RuleFacts.RiseIsSpread | src/physics.ts:133-136 | a fire that was not put out and rises into the empty cell above satisfies the spread contract |
| RuleFacts.FireSpreads | src/physics.ts:96-137 | a live fire changes only neighbours that were wood (now fresh fire) or water (now smoke) and, when it rises, the empty cell above it, which then holds the aged fire while its own cell is empty; at most one water evaporates, and then its own cell is empty and it did not rise; otherwise its own cell holds the aged fire or it rose |
| RuleFacts.FireDousedByFirstWater | src/physics.ts:96-137 | a live fire evaporates exactly the water in the slot FirstQuench names from the first slot, and no water when it names none |
| RuleFacts.FireChangesOnlySoftCells | src/physics.ts:96-137 | a fire dispatch, live or expiring, leaves its own cell holding stone exactly when it held stone before, and every other cell it changes lies within two columns and one row, was soft (empty, wood or water) and does not hold stone afterwards |
| FireFacts.SlotOfSlot | src/physics.ts:112-115 | the eight scanned slots are distinct cells |
| FireFacts.ScorchExact | src/physics.ts:111-131 | the scan from any slot leaves each cell as the reference says: slots before the first quenching one are lit exactly when they hold wood and their draw says so, the quenching slot holds a fresh smoke and the fire's cell is emptied, and later slots and all other cells are unchanged |
| FireFacts.FireExact | src/physics.ts:96-137 | a live fire's dispatch leaves each cell as the reference says: the scan's result, with the fire's own cell aged, emptied when put out, and moved into the empty cell above exactly when it rises |
| FireFacts.FireRisesExactly | src/physics.ts:133-136 | a live fire rises exactly when no neighbour's water evaporates, the rise draw says so and the cell above was empty |
| RuleFacts.FireKeepsOwnCell | src/physics.ts:96-137 | after a live fire's dispatch its own cell holds the aged fire or is empty |
| RuleFacts.PlantOnlyGrows | src/physics.ts:163-182 | a plant never removes anything: only empty cells in the row above, within one column, receive a fresh plant, and nothing changes without a water neighbour and a growth draw |
| RuleFacts.PlantGrowsExactly | src/physics.ts:163-182 | with a water neighbour and a growth draw, the cell above receives a fresh plant exactly when it was empty, and the upper cell on the bias side exactly when the diagonal draw says so and it was empty; every other cell, and every cell when there is no water neighbour or no growth draw, is unchanged |
| RuleFacts.PlantGrowsTwice | src/physics.ts:171-181 | upward and diagonal growth can both happen in one dispatch |
| RuleFacts.PlantChangesOnlySoftCells | src/physics.ts:163-182 | a plant dispatch leaves its own cell holding stone exactly when it held stone before, and every other cell it changes lies within two columns and one row, was soft (empty, wood or water) and does not hold stone afterwards |
| TickFacts.StepSkipsSettled | src/physics.ts:17-19 | an empty or already processed cell is skipped |
| TickFacts.StepChangesOnlySoftCells | src/physics.ts:17-39 | any dispatch changes only soft cells near it, and stone neither moves nor appears |
| TickFacts.StepKeepsStone | src/physics.ts:17-39 | a dispatch keeps the set of stone cells |
| TickFacts.StepIsLocal | src/physics.ts:17-39 | a dispatch at row y changes nothing outside rows y-1 to y+1 |
| TickFacts.SweepRowIsLocal | src/physics.ts:12-17 | sweeping row y changes nothing outside rows y-1 to y+1 |
| TickFacts.SweepRowKeepsStone | src/physics.ts:12-40 | sweeping a row keeps the set of stone cells |
| TickFacts.SweepRowsKeepsStone | src/physics.ts:12-41 | sweeping the rows keeps the set of stone cells |
| TickFacts.UpdateKeepsStone | src/physics.ts:5-42 | a tick keeps the set of stone cells, whatever the draws |
| TickFacts.RunKeepsStone | src/physics.ts:5-42 | any number of ticks keeps the set of stone cells |
| TickFacts.StepInert | src/physics.ts:17-39 | in a world of stone, wood and empty particles, a dispatch at most marks a cell as processed |
| TickFacts.UpdateInert | src/physics.ts:5-42 | a world of stone, wood and empty particles is unchanged by a tick, up to processed flags |
| TickFacts.RunInert | src/physics.ts:5-42 | such a world is unchanged, up to flags, by any number of ticks |
| TickFacts.StaleFlagsIgnored | src/physics.ts:5-6 | flags left over from earlier ticks make no difference to a tick |
| TickFacts.WaterMoveIsMarked | src/physics.ts:19-28 | every cell a water dispatch fills holds a processed particle, so the water is not dispatched twice |
| TickFacts.SandMoveIsMarked | src/physics.ts:19-26 | every cell other than its own that a sand dispatch fills holds the sand, marked as processed |
| TickFacts.SmokeMoveIsMarked | src/physics.ts:19-35 | every cell a smoke dispatch fills holds a processed particle, so the smoke is not dispatched twice |
| TickFacts.StepDispatchesMovers | src/physics.ts:19-35 | an unprocessed sand, water or smoke particle is marked as processed and handed to its own rule |
| TickFacts.StepDispatchesPlant | src/physics.ts:19-38 | an unprocessed plant is marked as processed and handed to the plant rule |
| TickFacts.StepDispatchesFire | src/physics.ts:19-32 | an unprocessed fire is marked as processed and handed to the fire rule |
| TickFacts.FireMoveIsMarked | src/physics.ts:19-32 | every cell that holds a new fire after a fire dispatch holds the processed fire itself or a fresh fire lit in a wood neighbour |
| TickFacts.FreshFireIsDispatched | src/physics.ts:117-121 | a freshly lit neighbour is unprocessed, and dispatching it changes its cell |
| TickFacts.ColumnVisitsEachOnce | src/physics.ts:13-17 | a row's visits cover every column exactly once, start at column 0 left to right or at the last column right to left, and step one column at a time in that direction |
| TickFacts.SweepDirectionMatters | src/physics.ts:10-17 | with right bias and flow distance 2, a row of water, empty, water ends as water, water, empty after a left-to-right tick and as empty, water, water after a right-to-left tick |
| TickFacts.ShaftFallsOneRow | src/physics.ts:5-60 | in an empty one-column shaft three cells high, sand at the top is in row 1 after one tick, with the other two cells empty |
| TickFacts.ShaftWaterFallsFirst | src/physics.ts:5-94 | sand above water above an empty cell gives empty, sand, water after one tick |

## Left out

- Rendering, keyboard input and the driver loop (`src/renderer.ts`, `src/input.ts`, `src/index.ts`, `src/demo.ts`): these are terminal I/O and timing, not part of this model.
- The display tables `PARTICLE_COLORS`, `PARTICLE_CHARS` and `PARTICLE_NAMES` (`src/particles/base.ts:33-64`): presentation only.
- The probabilities 0.5, 0.95, 0.7 and 0.98: each random test is a free boolean input, so the model covers every outcome but says nothing about frequencies.
- The number and order of `Math.random()` calls: the source draws lazily, only on the branches that need a value. The model gives each dispatched cell a full record of independent draws and ignores the ones a branch does not use.
- Width and height are natural numbers. The source's constructor with negative or fractional sizes, and the floating-point coordinates JavaScript would accept, are not modelled.
- Lifetimes are unbounded integers. A JavaScript number cannot overflow at these magnitudes.
- Mutating the shared particle object (`particle.updated = true`, `particle.lifetime--`) is modelled as writing the changed particle back into its cell. The particle is dispatched from its own cell and lives in exactly one cell, so the two agree.
- Worlds.Spawn: takes a lifetime roll for every type; only fire and smoke use it. A particle of type `Empty`, which `createParticle` could build, can be held in a cell; it is treated as inert.
- Physics.MoveFirst: its own contract states only that the world keeps its shape and size; what it does is proved by RuleFacts.MoveFirstEntersFirstOpen and RuleFacts.MoveFirstConserves.
- Physics.UpdateSand: its own contract states only shape and size; what it does is proved by RuleFacts.SandTriesInOrder, RuleFacts.SandFallsOneCell and RuleFacts.SandConserves.
- Physics.UpdateWater: its own contract states only shape and size; what it does is proved by RuleFacts.WaterTriesInOrder, RuleFacts.WaterMovesIntoEmpty and RuleFacts.WaterConserves.
- Physics.Scorch: its own contract states only shape and size; what it does is proved by FireFacts.ScorchExact and RuleFacts.ScorchDousesFirst.
- Physics.Blaze: its own contract states only shape and size; what it does is proved, through UpdateFire, by FireFacts.FireExact and FireFacts.FireRisesExactly.
- Physics.UpdateFire: its own contract states only shape and size; what it does is proved by RuleFacts.FireBurnsOut, FireFacts.FireExact and FireFacts.FireRisesExactly.
- Physics.UpdateSmoke: its own contract states only shape and size; what it does is proved by RuleFacts.SmokeVanishes, RuleFacts.SmokeTriesInOrder and RuleFacts.SmokeRises.
- Physics.UpdatePlant: its own contract states only shape and size; what it does is proved by RuleFacts.PlantGrowsExactly.
- Physics.Step: its own contract states only shape and size; what it does is proved by TickFacts.StepSkipsSettled, TickFacts.StepDispatchesMovers, TickFacts.StepDispatchesFire, TickFacts.StepDispatchesPlant, TickFacts.StepInert, TickFacts.StepChangesOnlySoftCells and TickFacts.StepIsLocal.
- Physics.SweepRow: its own contract states only shape and size; its column order is stated by TickFacts.ColumnVisitsEachOnce and TickFacts.SweepDirectionMatters, and its effects are bounded by TickFacts.SweepRowIsLocal and TickFacts.SweepRowKeepsStone. No lemma states a whole row's result for an arbitrary row.
- Physics.SweepRows: its own contract states only shape and size; what it does is proved by TickFacts.SweepRowsKeepsStone.
- Physics.Update: its own contract states only shape and size; its invariants are TickFacts.UpdateKeepsStone, TickFacts.UpdateInert and TickFacts.StaleFlagsIgnored, the effect of its column direction is shown by TickFacts.SweepDirectionMatters, and its bottom-up row order by the two shaft examples. No lemma states a whole tick's result for an arbitrary world.
- Physics.Run: its own contract states only shape and size; what it does is proved by TickFacts.RunKeepsStone and TickFacts.RunInert.
- RuleFacts.SandChangesOnlySoftCells: a frame only: it allows any soft cell within two columns and one row to change. That sand moves at most one row down, into the first open cell of the three below, is RuleFacts.SandFallsOneCell.
- RuleFacts.WaterChangesOnlySoftCells: a frame only: it allows wood and water cells too. That water moves only into an empty cell is RuleFacts.WaterMovesIntoEmpty.
- RuleFacts.SmokeChangesOnlySoftCells: a frame only: it allows wood and water cells too. That smoke moves only into an empty cell above or beside it is RuleFacts.SmokeRises.
- RuleFacts.PlantChangesOnlySoftCells: a frame only: it allows any soft cell near the plant. Which cells a plant fills is RuleFacts.PlantGrowsExactly.
- RuleFacts.FireChangesOnlySoftCells: a frame only. Which cells the fire lights, evaporates or rises into is FireFacts.FireExact.
- RuleFacts.ScorchSpec: a bound only: it does not say that a wood slot whose draw ignites is lit, nor that slots after the quench are left alone. The exact result is FireFacts.ScorchExact.
- RuleFacts.FireSpreads: a bound only: a fire that just ages in place meets it whatever the draws. The exact result is FireFacts.FireExact, and when the fire rises is FireFacts.FireRisesExactly.
- RuleFacts.PlantOnlyGrows: a bound only: it says where a plant may grow, not that it does. The exact result is RuleFacts.PlantGrowsExactly.
- RuleFacts.SmokeRises: names both diagonals symmetrically. The exact order they are tried in is stated by `RuleFacts.SmokeTriesInOrder`.
- TickFacts.UpdateInert, TickFacts.RunInert: compare worlds up to processed flags, because the pass marks every inert particle as processed.
