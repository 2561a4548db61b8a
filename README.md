# Conway's Game of Life on a 100 x 100 torus

This project models the simulation core of `gameoflife/src/main.rs`. The
program keeps two flat, row-major boolean vectors, `grid` and `next`, each
with 100 x 100 cells. On every frame it does three things:

- It computes the next generation of `grid` into `next`. The rule is the
  birth/survival rule, and the neighbour counts wrap around both edges, so
  the grid is a torus.
- It swaps the two vectors.
- It paints each cell as a 6 x 6 block of one of two colours into a
  600 x 600 `u32` pixel buffer.

Before the first frame it seeds `grid` with nine patterns through the
`spawn_*` functions.

The Dafny modules follow the program's parts:

- `Grid`: the constants (lines 6-14), the `u32` colour type, the linear
  `index` and its inverse, and the all-dead grid.
- `Neighbours`: `count_neighbors`. It is a method with the source's two
  loops over the offsets -1, 0, 1. It is proved equal to a specification
  function that counts the eight wrapped neighbours in the order the loops
  visit them. That function is tied to an independent description: the set
  of cells at torus distance one.
- `Generation`: the rule `NextState` (the source's `match`). It also holds
  the generation `NextGeneration` as a function of the whole grid, and the
  step loop of `main` extracted as the method `ComputeNext`.
- `Render`: `point_scaled` and the render loop of `main` as methods. The
  frame `Frame(g)` is a function of the grid, and the grid can be read back
  from it.
- `Patterns`: the nine seeders. Eight write a fixed offset list; all of
  them are specified by one function, `Stamp`, which writes `true` at each
  offset in order. `spawn_pulsar` generates its offsets with nested loops.
  It is modelled with those loops and proved to stamp the offset list they
  generate.
- `Life`: the program state as a class `Game`, which holds `grid`, `next`
  and `buffer`:
  - the constructor allocates the buffers and seeds `grid` in `main`'s
    order;
  - `Step` computes the next generation and swaps the two arrays by
    reference;
  - `Redraw` draws the frame;
  - `Tick` is one iteration of the main loop;
  - `Run` is a fixed number of iterations.
- `Oscillators`: two patterns whose evolution is known, each placed alone
  on a dead grid. The block is a still life and never changes. The blinker
  that `main` seeds at row 30, column 20 alternates between a horizontal
  and a vertical bar, with period 2. The proofs count neighbours from the
  list of live cells: a cell far from every live cell has none.

`count_neighbors` takes the grid as an immutable slice (`&[bool]`), so
`CountNeighbors` takes a `seq<bool>`, and `ComputeNext` passes it
`grid[..]`.

The colours are the two constants `0x39FF14` and `0x0C0015`, taken as two
distinct `u32` values.

## Model

| member | source | states |
|---|---|---|
| Grid.Index | gameoflife/src/main.rs:79-81 | every in-range cell's linear index is a slot of `grid`/`next` |
| Grid.IndexInRange | gameoflife/src/main.rs:79-81 | `index(x, y)` is in `[0, WIDTH*HEIGHT)`; column and row are recovered from it |
| Grid.IndexOnto | gameoflife/src/main.rs:79-81 | every slot is the index of an in-range cell |
| Grid.IndexInjective | gameoflife/src/main.rs:79-81 | distinct cells have distinct indices (with IndexOnto: a bijection onto the slots) |
| Grid.Dead | gameoflife/src/main.rs:18-19 | `vec![false; WIDTH*HEIGHT]`: every slot is false |
| Neighbours.Wrap | gameoflife/src/main.rs:89-90 | `(v + d + n) % n` is in range and is the neighbour coordinate, wrapping -1 to n-1 and n to 0 |
| Neighbours.WrapInjective | gameoflife/src/main.rs:89-90 | different offsets give different wrapped coordinates |
| Neighbours.VisitedDistinct | gameoflife/src/main.rs:86-88 | the loops visit eight distinct cells and never the cell itself (the skip at line 88) |
| Neighbours.VisitedIsNeighbourCell | gameoflife/src/main.rs:86-90 | every visited cell is a torus neighbour |
| Neighbours.NeighbourCellIsVisited | gameoflife/src/main.rs:86-90 | every torus neighbour is visited |
| Neighbours.NeighbourCellsSize | gameoflife/src/main.rs:86-90 | every cell has exactly eight torus neighbours |
| Neighbours.LiveFirstSize | gameoflife/src/main.rs:84-95 | the running count after k visits is the number of live cells among them |
| Neighbours.NeighbourCountIsLiveNeighbours | gameoflife/src/main.rs:84-95 | the count equals the number of live torus neighbours |
| Neighbours.NeighbourCountIgnoresSelf | gameoflife/src/main.rs:88 | the cell's own state does not change its count |
| Neighbours.EdgesWrap | gameoflife/src/main.rs:89-90 | at column 0 the left neighbours are in column WIDTH-1 and at the last column the right ones are in column 0; the same holds for rows |
| Neighbours.VisitOrder | gameoflife/src/main.rs:86-90 | the loops at offset (dx, dy) visit the next slot, at the source's wrapped coordinates |
| Neighbours.VisitStep | gameoflife/src/main.rs:86-92 | one inner iteration adds the bit of the cell at `(nx, ny)` to the count |
| Neighbours.CountNeighbors | gameoflife/src/main.rs:84-95 | returns the number of live cells among the eight wrapped neighbours, so at most 8, and only reads the grid |
| Generation.NextState | gameoflife/src/main.rs:51-55 | the cell is alive next iff it has exactly 3 live neighbours, or it is alive and has exactly 2; so a live next state means 2 or 3 neighbours |
| Generation.NextStateRule | gameoflife/src/main.rs:51-55 | a live cell survives iff n is 2 or 3; a dead cell is born iff n is 3 |
| Generation.GenerationAt | gameoflife/src/main.rs:48-55 | slot `index(x, y)` of the next generation is the rule applied to that cell and its count |
| Generation.GenerationRule | gameoflife/src/main.rs:46-55 | the next state of every cell is the birth/survival rule over its live torus neighbours |
| Generation.ComputeNext | gameoflife/src/main.rs:46-57 | `next` becomes the next generation of `grid`; `grid` is only read |
| Generation.StillLifeForever | gameoflife/src/main.rs:42-58 | a grid that is its own next generation stays unchanged for any number of frames |
| Generation.DeadStaysDead | gameoflife/src/main.rs:46-58 | the all-dead grid's next generation is all-dead (every count is 0) |
| Generation.DeadStaysDeadForever | gameoflife/src/main.rs:42-58 | the all-dead grid stays all-dead after any number of generations |
| Render.Color | gameoflife/src/main.rs:64 | a cell's colour is ALIVE_COLOR iff it is alive and DEAD_COLOR iff it is dead |
| Render.PixelIndex | gameoflife/src/main.rs:103 | every in-window pixel's index is a slot of the buffer |
| Render.CellOfPixel | gameoflife/src/main.rs:98-106 | every pixel lies in the block of exactly one cell, `(px/SCALE, py/SCALE)` |
| Render.FrameAt | gameoflife/src/main.rs:61-67 | pixel (px, py) of the frame is the colour of cell `(px/SCALE, py/SCALE)` |
| Render.PointScaled | gameoflife/src/main.rs:98-106 | sets exactly the SCALE x SCALE block of cell (x, y) to the colour; every other pixel is unchanged |
| Render.Draw | gameoflife/src/main.rs:61-67 | afterwards every pixel is ALIVE_COLOR if its cell is alive and DEAD_COLOR otherwise, whatever the buffer held before |
| Render.FrameRoundTrip | gameoflife/src/main.rs:61-67 | the grid is read back from the frame it draws |
| Render.FrameInjective | gameoflife/src/main.rs:61-67 | two grids draw the same frame iff they are equal |
| Patterns.StampAt | gameoflife/src/main.rs:110-171 | seeding sets exactly the pattern's cells, never clears one, and leaves every other cell as it was |
| Patterns.StampCells | gameoflife/src/main.rs:110-171 | StampAt for all cells at once |
| Patterns.StampSnoc | gameoflife/src/main.rs:112 | one more offset adds one more write, in order |
| Patterns.Spawn | gameoflife/src/main.rs:112 | the seeders' loop over the offset list writes exactly the stamp of the list |
| Patterns.GliderExtent | gameoflife/src/main.rs:111 | the glider fits at (oy, ox) iff its 3 x 3 box does |
| Patterns.BlinkerExtent | gameoflife/src/main.rs:116 | the blinker fits iff rows oy..oy+1 and columns ox..ox+2 do |
| Patterns.BeaconExtent | gameoflife/src/main.rs:121 | the beacon fits iff its 4 x 4 box does |
| Patterns.ToadExtent | gameoflife/src/main.rs:126 | the toad fits iff its 3-row, 4-column box does |
| Patterns.PentadecathlonExtent | gameoflife/src/main.rs:153-154 | the pentadecathlon fits iff its 12-row, 6-column box does |
| Patterns.LwssExtent | gameoflife/src/main.rs:159 | the lightweight spaceship fits iff its 5 x 5 box does |
| Patterns.MwssExtent | gameoflife/src/main.rs:164 | the middleweight spaceship fits iff its 7-row, 6-column box does |
| Patterns.HwssExtent | gameoflife/src/main.rs:169 | the heavyweight spaceship fits iff its 8-row, 7-column box does |
| Patterns.PulsarRoundsBounded | gameoflife/src/main.rs:131-149 | no generated pulsar cell lies more than 16 rows or columns from the origin |
| Patterns.PulsarExtent | gameoflife/src/main.rs:130-149 | the pulsar fits at (oy, ox) iff `ox + 16` and `oy + 16` are in the grid |
| Patterns.StampArms | gameoflife/src/main.rs:135-140 | the inner loop's writes stamp the generated arm offsets |
| Patterns.StampTail | gameoflife/src/main.rs:141-148 | the eight closing writes of a round stamp its closing offsets |
| Patterns.StampRounds | gameoflife/src/main.rs:132-149 | the rounds' writes stamp the generated offset list, in order |
| Patterns.PulsarWrites | gameoflife/src/main.rs:130-150 | all of `spawn_pulsar`'s writes are stamping the pulsar, and set exactly its cells |
| Patterns.Put | gameoflife/src/main.rs:136-148 | one `grid[index(ox + dx, oy + dy)] = true` write |
| Patterns.PulsarRound | gameoflife/src/main.rs:133-148 | one round of the outer loop: the arm writes for j in 4, 5, 6, then the eight closing writes |
| Patterns.PulsarLoop | gameoflife/src/main.rs:132-149 | the outer loop performs the rounds for its offsets in order |
| Patterns.SpawnGlider | gameoflife/src/main.rs:110-113 | sets exactly the glider's cells at (oy, ox); nothing else changes |
| Patterns.SpawnBlinker | gameoflife/src/main.rs:115-118 | sets exactly the blinker's cells at (oy, ox); nothing else changes |
| Patterns.SpawnBeacon | gameoflife/src/main.rs:120-123 | sets exactly the beacon's cells at (oy, ox); nothing else changes |
| Patterns.SpawnToad | gameoflife/src/main.rs:125-128 | sets exactly the toad's cells at (oy, ox); nothing else changes |
| Patterns.SpawnPulsar | gameoflife/src/main.rs:130-150 | sets exactly the generated pulsar cells at (oy, ox); nothing else changes |
| Patterns.SpawnPentadecathlon | gameoflife/src/main.rs:152-156 | sets exactly the pentadecathlon's cells at (oy, ox); nothing else changes |
| Patterns.SpawnLwss | gameoflife/src/main.rs:158-161 | sets exactly the lightweight spaceship's cells at (oy, ox); nothing else changes |
| Patterns.SpawnMwss | gameoflife/src/main.rs:163-166 | sets exactly the middleweight spaceship's cells at (oy, ox); nothing else changes |
| Patterns.SpawnHwss | gameoflife/src/main.rs:168-171 | sets exactly the heavyweight spaceship's cells at (oy, ox); nothing else changes |
| Life.SeedsFit | gameoflife/src/main.rs:31-39 | each of the nine placements in `main` lies inside the grid, so no seeder write wraps into another row or leaves the grid |
| Life.Seed | gameoflife/src/main.rs:31-39 | the nine spawn calls, in `main`'s order, stamp the nine patterns |
| Life.Game.constructor | gameoflife/src/main.rs:18-39 | two all-dead grids and a zeroed pixel buffer, then `grid` seeded with the nine patterns |
| Life.Game.Step | gameoflife/src/main.rs:46-58 | `grid` holds the next generation and `next` the old one; the arrays are swapped by reference, not copied |
| Life.Game.Redraw | gameoflife/src/main.rs:61-67 | the buffer holds the frame of the current grid |
| Life.Game.Tick | gameoflife/src/main.rs:45-67 | one frame: `grid` holds the next generation and `next` the previous one, swapped by reference, then the buffer shows the new grid |
| Life.Game.Run | gameoflife/src/main.rs:42-75 | after k frames the grid is the k-th generation of the initial one; for k > 0 `next` holds generation k-1 and the buffer shows the grid; for k = 0 `next` and the buffer are unchanged; the two grid arrays are swapped by reference on every frame, so they are back in place after an even number of frames |
| Oscillators.FromCellsAt | gameoflife/src/main.rs:79-81 | a cell of the grid built from a list of live cells is alive iff it is in the list |
| Oscillators.NearFirstIsSize | gameoflife/src/main.rs:84-95 | counting the list's neighbours of a cell one by one gives the size of the set of those neighbours |
| Oscillators.CountNear | gameoflife/src/main.rs:84-95 | on a grid built from a list of live cells, `count_neighbors` is the number of listed cells around the cell |
| Oscillators.Isolated | gameoflife/src/main.rs:84-95 | a cell with no listed cell within one step on the torus has no live neighbours and is dead |
| Oscillators.NextFromCells | gameoflife/src/main.rs:46-55 | each cell's next state is the rule over its own state and the number of listed cells around it |
| Oscillators.BlockWindow | gameoflife/src/main.rs:51-55 | around the block, exactly the block's cells are alive in the next generation |
| Oscillators.BlockStill | gameoflife/src/main.rs:46-57 | a block alone on the grid is its own next generation |
| Oscillators.BlockForever | gameoflife/src/main.rs:42-58 | a block alone on the grid stays unchanged for any number of frames |
| Oscillators.BlinkerSeeded | gameoflife/src/main.rs:32 | `spawn_blinker(&mut grid, 30, 20)` on a dead grid gives the horizontal bar at row 31, columns 20-22 |
| Oscillators.HorizontalWindow | gameoflife/src/main.rs:51-55 | around the horizontal bar, exactly the vertical bar's cells are alive in the next generation |
| Oscillators.VerticalWindow | gameoflife/src/main.rs:51-55 | around the vertical bar, exactly the horizontal bar's cells are alive in the next generation |
| Oscillators.BlinkerFlip | gameoflife/src/main.rs:46-57 | the horizontal bar's next generation is the vertical bar |
| Oscillators.BlinkerFlop | gameoflife/src/main.rs:46-57 | the vertical bar's next generation is the horizontal bar |
| Oscillators.BlinkerPeriod2 | gameoflife/src/main.rs:42-58 | the blinker differs after one frame and is back after two: period 2 |

## Left out

- The window: `Window::new`, `is_open`, the Escape key and
  `update_with_buffer`, with their `unwrap` panics (lines 22-27, 42, 68).
  These are calls into the `minifb` library. `Run` therefore takes the
  number of frames as a parameter instead of polling the window.
- Frame pacing with `Instant::now`, `elapsed` and `thread::sleep`
  (lines 43, 71-74). It is wall-clock timing and does not affect the
  state.
- The RGB meaning of the two colour constants. The model only uses that
  they are two distinct `u32` values.
- `usize` arithmetic is modelled with unbounded integers. Every index the
  program forms is below 360000, so no overflow can happen. The `isize`
  casts in `count_neighbors` never see a negative value, because WIDTH or
  HEIGHT is added before the cast.
- Patterns.Spawn and every Patterns.Spawn* method require the pattern to
  lie inside the grid. Without that precondition, a column past the right
  edge lands in a later row through `index`, or panics when that slot is
  past the end of the vector, and a row past the bottom panics. The model
  does not describe those behaviours;
  `Life.SeedsFit` proves that every placement in `main` avoids them.
- Patterns.Put, Patterns.PulsarRound and Patterns.PulsarLoop split
  `spawn_pulsar`'s single function into its single write, its outer-loop
  body and its outer loop. The writes and their order are the source's.
- The pulsar is modelled exactly as `spawn_pulsar` writes it, from the
  offsets 2, 7, 9 and 14 and the arm rows 4, 5 and 6. No claim is made
  that it is the textbook period-3 pulsar.
