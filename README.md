# Conway's Game of Life: a Dafny model

This project models the core of a small C++ Game of Life program.

- **The engine** (`ConwayLife`) is a double-buffered cellular automaton on a bounded grid that does not wrap around. `step` writes every cell of the next generation into a scratch buffer, using the B3/S23 rule with out-of-bounds neighbours counted as dead. It then swaps the two buffers. `clear` and `randomize` overwrite the current buffer.
- **The interactive driver** (`SDL_GOL_main.cpp`) does the following:
  - validates the configuration at startup;
  - stamps named JSON patterns onto the grid at the cell under the pointer;
  - toggles a cell on a left click;
  - runs a small state machine over `running`, `paused`, `generation` and `lastStepTime`. That machine handles manual stepping, resets, and a 32-bit tick-throttled auto-advance.
- **The command-line splitter** (`ArgsToJson`) turns `key=value` arguments into a JSON object.
- **The pattern viewer** (`Program_02`) chooses a pattern by name, finds its bounding box, and centres it in a fixed window.

Files:

| file | module | what it holds |
|---|---|---|
| `wrappers.dfy` | `Wrappers` | `Option`, `Result` |
| `cpp_ints.dfy` | `CppInts` | C++ `/` (truncates toward zero), `Uint32` casts and wrapping tick differences |
| `grids.dfy` | `Grids` | `Grid = seq<seq<int>>`, shape predicates, `Cells(a)`, the value of an `array2` |
| `life_rules.dfy` | `LifeRules` | neighbour count, the rule, `NextGen`, and general lemmas about it |
| `life_shapes.dfy` | `LifeShapes` | the block still life and the period-two blinker |
| `engine.dfy` | `ConwayLifeEngine` | class `ConwayLife`, two `array2<int>` buffers |
| `stamping.dfy` | `Stamping` | decoded pattern catalog, `ApplyPatternAt`, the cell toggle |
| `driver.dfy` | `Driver` | config validation, the event/tick state machine, class `Simulation` |
| `args.dfy` | `ArgsJson` | `ArgsToJson` and its specification |
| `pattern_view.dfy` | `PatternView` | pattern choice, bounding box, centring |

Conventions:

- **Cells.** A cell holds an `int`, and any nonzero value is alive, as the engine tests it. The `Cell` type comes from `grid.hpp`; `grid.hpp` is not part of this model.
- **Arrays.** The engine's buffers are `array2<int>` fields. `step` writes `nextGrid` and then exchanges the two buffers' contents, as `std::vector::swap` does for the `grid` member. Each field therefore keeps naming the same array. `getGrid` returns the current array itself, so stamping and toggling through it edit the engine's state in place, as the C++ reference does, and the array stays the current generation across later steps.
- **Specifications.** Every imperative member is proved against a pure specification:
  - the engine and the editing methods against functions on `Grid` values (`NextGen`, `Neighbors`, `Stamp`, `Toggled`);
  - the driver's methods against transitions of a `Session` value (`OnInput`, `OnTick`, `OnFrame`, `OnFrames`);
  - `ArgsToJson` against the fold `Collect` over the argument strings;
  - `BoundingBox` and `Prepare` against the predicate `IsScanOf`.
- **External inputs.**
  - SDL events, the pointer position and `SDL_GetTicks` reach the driver as `Input` values and tick numbers.
  - The random generator is an injected `RandomSource`, which gives the draw in [0, 1) for each cell.
  - `strtod` is an injected `string -> bool`, which says whether the whole text parses as a number.
  - Pattern files arrive already decoded. `Option` marks a missing key or a member that is not an array.
- **Integer division.** C++ `/` on `int` truncates toward zero, so it is modelled by `TruncDiv`. Dafny's own `/` is Euclidean. `SDL_GetTicks` differences wrap modulo 2^32, which `ElapsedTicks` writes out.

## Model

| member | source | states |
|---|---|---|
| CppInts.TruncDiv | Assignments/GameOfLifeSDL/src/SDL_GOL_main.cpp:80-81 | the quotient of C++ `int` division by a positive divisor: rounded toward zero for either sign of the dividend |
| CppInts.ToUint32 | Assignments/GameOfLifeSDL/src/SDL_GOL_main.cpp:172 | `static_cast<Uint32>`: identity on [0, 2^32), otherwise the congruent value modulo 2^32 |
| CppInts.ElapsedTicks | Assignments/GameOfLifeSDL/src/SDL_GOL_main.cpp:172 | `now - lastStepTime` in `Uint32`: the plain difference, or the difference plus 2^32 once the tick counter has wrapped |
| Grids.Zeros | Assignments/GameOfLifeSDL/src/ConwayLife.cpp:6-7 | a `rows` by `cols` grid in which every cell is dead |
| LifeRules.Alive01 | Assignments/GameOfLifeSDL/src/ConwayLife.cpp:19-21 | a neighbour contributes 1 exactly when it is in bounds and nonzero, and 0 otherwise |
| LifeRules.MooreSum | Assignments/GameOfLifeSDL/src/ConwayLife.cpp:14-25 | the reference count: the in-bounds live cells among the eight positions around (r, c), at most 8 |
| LifeRules.NeighborsIsMooreSum | Assignments/GameOfLifeSDL/src/ConwayLife.cpp:11-27 | the dr-major, dc-minor scan that skips (0, 0) counts exactly the eight-neighbour reference sum |
| LifeRules.NextCell | Assignments/GameOfLifeSDL/src/ConwayLife.cpp:36-43 | the new cell is 0 or 1, and it is 1 iff it was alive with 2 or 3 neighbours or dead with exactly 3 |
| LifeRules.NextGen | Assignments/GameOfLifeSDL/src/ConwayLife.cpp:29-48 | the next generation has the same shape, and each cell is the rule applied to the old grid's cell and neighbour count |
| LifeRules.NextGenShape | Assignments/GameOfLifeSDL/src/ConwayLife.cpp:29-48 | a `rows` by `cols` grid steps to a `rows` by `cols` grid of 0s and 1s |
| LifeRules.NextGenRule | Assignments/GameOfLifeSDL/src/ConwayLife.cpp:33-43 | B3/S23 stated against the reference count: a cell is live next iff (live and 2 or 3 neighbours) or (dead and 3) |
| LifeRules.NextGenIsLocal | Assignments/GameOfLifeSDL/src/ConwayLife.cpp:29-48 | a cell's next value depends only on the old 3 by 3 block around it, not on cells written earlier in the same step |
| LifeRules.AllDeadStaysDead | Assignments/GameOfLifeSDL/src/ConwayLife.cpp:36-43 | an all-dead grid steps to an all-dead grid |
| LifeRules.IsolatedCellDies | Assignments/GameOfLifeSDL/src/ConwayLife.cpp:36-43 | a live cell with no live neighbour is dead in the next generation |
| LifeShapes.BlockIsStillLife | Assignments/GameOfLifeSDL/src/ConwayLife.cpp:29-48 | a grid holding exactly a 2 by 2 block is unchanged by a step |
| LifeShapes.HorizontalBlinkerTurns | Assignments/GameOfLifeSDL/src/ConwayLife.cpp:29-48 | a lone horizontal three-cell bar away from the edge becomes the vertical bar through its centre |
| LifeShapes.VerticalBlinkerTurns | Assignments/GameOfLifeSDL/src/ConwayLife.cpp:29-48 | the vertical bar becomes the horizontal bar again |
| LifeShapes.BlinkerHasPeriodTwo | Assignments/GameOfLifeSDL/src/ConwayLife.cpp:29-48 | the blinker returns after exactly two steps and differs after one |
| ConwayLifeEngine.Randomized | Assignments/GameOfLifeSDL/src/ConwayLife.cpp:63-67 | a `rows` by `cols` grid of 0s and 1s in which a cell is alive iff its draw is below `aliveChance` |
| ConwayLifeEngine.RandomizedNoChanceIsDead | Assignments/GameOfLifeSDL/src/ConwayLife.cpp:57-68 | with draws in [0, 1), a chance of 0 or less makes every cell dead |
| ConwayLifeEngine.RandomizedCertainIsAlive | Assignments/GameOfLifeSDL/src/ConwayLife.cpp:57-68 | with draws in [0, 1), a chance of 1 or more makes every cell alive |
| ConwayLifeEngine.ConwayLife.constructor | Assignments/GameOfLifeSDL/src/ConwayLife.cpp:4-9 | two fresh, distinct `rows` by `cols` buffers, both all zeros |
| ConwayLifeEngine.ConwayLife.GetGrid | Assignments/GameOfLifeSDL/includes/ConwayLife.hpp:10-11 | returns the current buffer, never the scratch buffer, with the engine's dimensions |
| ConwayLifeEngine.ConwayLife.CountNeighbors | Assignments/GameOfLifeSDL/src/ConwayLife.cpp:11-27 | returns the live-neighbour count of the current grid, a value in [0, 8]; it changes nothing and reads no out-of-bounds cell |
| ConwayLifeEngine.ConwayLife.Step | Assignments/GameOfLifeSDL/src/ConwayLife.cpp:29-48 | the current grid becomes `NextGen` of the old one, and the scratch buffer holds the previous generation; both buffers keep their identity and dimensions |
| ConwayLifeEngine.ConwayLife.SwapContents | Assignments/GameOfLifeSDL/src/ConwayLife.cpp:47 | `grid.swap(nextGrid)`: the current buffer gets the scratch buffer's old contents and vice versa |
| ConwayLifeEngine.ConwayLife.Clear | Assignments/GameOfLifeSDL/src/ConwayLife.cpp:50-55 | every cell of the current grid is 0 and the scratch buffer is untouched |
| ConwayLifeEngine.ConwayLife.Randomize | Assignments/GameOfLifeSDL/src/ConwayLife.cpp:57-68 | each cell becomes 1 iff its draw is below `aliveChance`; the scratch buffer is untouched |
| Stamping.LookupCells | Assignments/GameOfLifeSDL/src/SDL_GOL_main.cpp:30-39 | the cell list exists iff `shapes` exists, holds the name, and the shape has a `cells` array; otherwise it reports which check failed |
| Stamping.StampShape | Assignments/GameOfLifeSDL/src/SDL_GOL_main.cpp:41-54 | stamping keeps the grid's `rows` by `cols` shape |
| Stamping.StampIsAdditive | Assignments/GameOfLifeSDL/src/SDL_GOL_main.cpp:44-54 | a cell some entry lands on becomes 1, every other cell keeps its value, and no live cell dies |
| Stamping.StampIdempotent | Assignments/GameOfLifeSDL/src/SDL_GOL_main.cpp:52 | stamping the same cells twice at the same anchor equals stamping once |
| Stamping.ApplyPatternIdempotent | Assignments/GameOfLifeSDL/src/SDL_GOL_main.cpp:25-55 | applying the same named pattern twice at the same anchor equals applying it once, including the no-op cases |
| Stamping.StampsCommute | Assignments/GameOfLifeSDL/src/SDL_GOL_main.cpp:52 | two stamps give the same grid in either order |
| Stamping.StampOnEmptyGrid | Assignments/GameOfLifeSDL/src/SDL_GOL_main.cpp:44-54 | on an empty grid the live cells afterwards are exactly the in-bounds cells an entry lands on; out-of-bounds entries are dropped |
| Stamping.BlockStampExample | Assignments/GameOfLifeSDL/src/SDL_GOL_main.cpp:44-54 | the block stamped at (5, 5) on an empty 20 by 20 grid gives exactly rows 5-6 and columns 5-6 |
| Stamping.ApplyPatternAt | Assignments/GameOfLifeSDL/src/SDL_GOL_main.cpp:25-55 | reports `Stamped` iff the pattern and its `cells` array exist; the grid afterwards is `ApplyPattern` of the old grid, with x as the column and y as the row, and a missing x or y read as 0 |
| Stamping.Toggled | Assignments/GameOfLifeSDL/src/SDL_GOL_main.cpp:159-161 | the shape is kept; an in-bounds cell flips between dead and alive and becomes 0 or 1; every other cell keeps its value |
| Stamping.ToggleTwiceRestores | Assignments/GameOfLifeSDL/src/SDL_GOL_main.cpp:161 | toggling a 0/1 cell twice restores the grid |
| Stamping.ToggleAt | Assignments/GameOfLifeSDL/src/SDL_GOL_main.cpp:156-162 | an in-bounds click flips exactly that cell between 0 and 1 and keeps every other cell; an out-of-bounds click changes nothing |
| Driver.GridSize | Assignments/GameOfLifeSDL/src/SDL_GOL_main.cpp:76-85 | refused with `NonPositiveCellSize` iff `cellSize <= 0`; accepted iff a whole cell fits both ways; rows and cols are then the numbers of whole cells that fit the height and the width |
| Driver.OnKey | Assignments/GameOfLifeSDL/src/SDL_GOL_main.cpp:107-150 | per variable: no key touches `lastStepTime`; `running` ends iff `q` or Escape; `paused` flips iff space; the counter is 0 after `r`/`c`, one more after `n` while paused, otherwise unchanged; `q`, Escape, space and other keys leave the cells alone |
| Driver.StampAtPointer | Assignments/GameOfLifeSDL/src/SDL_GOL_main.cpp:125-131 | stamping at the pointer keeps the grid's shape and never kills a live cell |
| Driver.SpaceTogglesPause | Assignments/GameOfLifeSDL/src/SDL_GOL_main.cpp:111-112 | space flips `paused` and changes nothing else |
| Driver.ManualStepOnlyWhenPaused | Assignments/GameOfLifeSDL/src/SDL_GOL_main.cpp:113-117 | `n` advances one generation and increments the counter when paused, and is a no-op otherwise |
| Driver.ResetKeysZeroGeneration | Assignments/GameOfLifeSDL/src/SDL_GOL_main.cpp:118-123 | `r` and `c` set the counter to 0 and leave `paused`, `running` and the tick alone; `c` empties the grid |
| Driver.AutoAdvanceGate | Assignments/GameOfLifeSDL/src/SDL_GOL_main.cpp:171-176 | the auto-advance fires iff not paused and the wrapped tick difference reaches the delay; it then steps once, adds exactly 1 and sets `lastStepTime := now`; otherwise nothing changes |
| Driver.StoppedStaysStopped | Assignments/GameOfLifeSDL/src/SDL_GOL_main.cpp:101-169 | once `running` is false, no further event sets it again |
| Driver.GenerationNeverDecreasesWithoutReset | Assignments/GameOfLifeSDL/src/SDL_GOL_main.cpp:101-169 | without an `r` or `c` press the generation counter never decreases |
| Driver.PausedWithoutEditsIsFrozen | Assignments/GameOfLifeSDL/src/SDL_GOL_main.cpp:101-169 | while paused, events other than `n`, space, reset, stamping keys and left clicks leave the grid, the counter and `paused` unchanged |
| Driver.InputKeepsShape | Assignments/GameOfLifeSDL/src/SDL_GOL_main.cpp:101-169 | every event keeps the grid `rows` by `cols` |
| Driver.FrameKeepsShape | Assignments/GameOfLifeSDL/src/SDL_GOL_main.cpp:99-176 | a whole loop pass (all pending events, then the tick) keeps the grid `rows` by `cols` |
| Driver.Simulation.constructor | Assignments/GameOfLifeSDL/src/SDL_GOL_main.cpp:87-97 | a fresh engine of the setup's size, cleared; `running`, paused, generation 0, `lastStepTime` the startup tick |
| Driver.Start | Assignments/GameOfLifeSDL/src/SDL_GOL_main.cpp:76-97 | refused, with the same error, iff `GridSize` refuses the window and cell size; otherwise a fresh simulation whose size is the positive `GridSize` result, in the initial state |
| Driver.Simulation.HandleInput | Assignments/GameOfLifeSDL/src/SDL_GOL_main.cpp:101-169 | the new state is `OnInput` of the old state and the event, and the engine keeps its two buffers |
| Driver.Simulation.StampAtMouse | Assignments/GameOfLifeSDL/src/SDL_GOL_main.cpp:124-147 | the pattern is stamped at the cell under the pointer, that is the pointer position divided by `cellSize` with truncation |
| Driver.Simulation.AdvanceIfDue | Assignments/GameOfLifeSDL/src/SDL_GOL_main.cpp:171-176 | the new state is `OnTick` of the old state at tick `now` |
| Driver.Simulation.RunFrame | Assignments/GameOfLifeSDL/src/SDL_GOL_main.cpp:99-176 | one pass drains the events in order and then checks the tick: the new state is `OnFrame` of the old one |
| Driver.Simulation.Run | Assignments/GameOfLifeSDL/src/SDL_GOL_main.cpp:99-180 | the loop runs passes until `running` is false or the frames run out: the new state is `OnFrames` of the old one |
| ArgsJson.IsNumber | Assignments/GameOfLifeSDL/src/ArgsToJson.cpp:6-13 | the empty text is never a number, whatever the parser says; a nonempty text is a number iff the parser consumes all of it |
| ArgsJson.FirstIndexOf | Assignments/GameOfLifeSDL/src/ArgsToJson.cpp:22-23 | `find`: none iff the character is absent; otherwise an index holding it with no earlier occurrence |
| ArgsJson.SplitArg | Assignments/GameOfLifeSDL/src/ArgsToJson.cpp:22-26 | no split iff the argument has no `=`; otherwise key + "=" + value is the argument and the key holds no `=` |
| ArgsJson.SplitArgJoin | Assignments/GameOfLifeSDL/src/ArgsToJson.cpp:22-26 | splitting key + "=" + value with a key free of `=` gives back that key and value, so any later `=` stays in the value |
| ArgsJson.Classify | Assignments/GameOfLifeSDL/src/ArgsToJson.cpp:28-36 | a number containing `.` is a double, any other number an int, and anything else a string; the text is kept |
| ArgsJson.CollectKeys | Assignments/GameOfLifeSDL/src/ArgsToJson.cpp:17-39 | a key is in the object iff some argument contains `=` and has that key |
| ArgsJson.LastOccurrenceWins | Assignments/GameOfLifeSDL/src/ArgsToJson.cpp:28-36 | for a repeated key the value stored is the classification of its last occurrence |
| ArgsJson.ArgWithoutEqualsIgnored | Assignments/GameOfLifeSDL/src/ArgsToJson.cpp:22-23 | an argument without `=` leaves the object unchanged |
| ArgsJson.ArgsToJson | Assignments/GameOfLifeSDL/src/ArgsToJson.cpp:15-40 | the result is the fold of the arguments after `argv[0]`, so the program name is never examined; empty for an empty vector |
| PatternView.ChoosePattern | Assignments/Program_02/main.cpp:23-35 | the name is `argv[1]` when there is one, else `"glider"`; an unknown name gives exit status 1; a missing `coords` gives no cells |
| PatternView.BoundingBox | Assignments/Program_02/main.cpp:86-97 | each bound is the extreme of its ±9999 sentinel and the cells' coordinates: it bounds every cell and is attained by a cell unless it is still the sentinel |
| PatternView.CentreOffset | Assignments/Program_02/main.cpp:102-103 | the offset is half the free space rounded toward zero: toward the near side when the pattern fits, toward the far side when it overflows |
| PatternView.Place | Assignments/Program_02/main.cpp:99-103 | the box's first cell is drawn at the offset, its last cell ends at offset + pattern size, and the pattern is centred to within a pixel on each axis |
| PatternView.CellRect | Assignments/Program_02/main.cpp:125-128 | a square one cell in size whose distance from the offset is a whole number of cells: the cell's coordinate less the box minimum |
| PatternView.CentredMargins | Assignments/Program_02/main.cpp:102-103 | the two margins differ by at most 1; the odd pixel goes to the far side when the pattern fits and to the near side when it overflows (truncation toward zero) |
| PatternView.SquaresInsidePlacement | Assignments/Program_02/main.cpp:99-126 | a nonempty pattern is at least one cell wide and high, and every square's corner lies in [offset, offset + size - cellSize] on both axes |
| PatternView.Prepare | Assignments/Program_02/main.cpp:23-126 | exit status 1 iff the name is unknown; otherwise one square per cell, placed from the scanned bounding box and the centring offsets |

## Left out

- Rendering and windowing are not modelled: `SdlScreen`, `Screen`, `render`, `pause`, and SDL setup and teardown in both programs. They are foreign library calls with no logic.
- The `CellularAutomaton` interface is left out: it only declares virtual signatures. `ConwayLife` is modelled directly.
- Reading and parsing pattern files is left out: `LoadPatterns`, `json::parse`, and the "cannot open patterns.json" exit. Patterns arrive already decoded.
- Exceptions raised inside the JSON library are left out. The model's decoded types exclude these inputs:
  - a cell entry that is not an object;
  - an `x` or `y` that is not an integer;
  - a `coords` element that is not a pair of integers;
  - a pattern entry that is not an object.
- The configuration merge is left out: the `defaults` object, `params.update(cli)` and `params.value(...)`. `Driver.GridSize` takes the merged integers.
- Driver.GridSize: does not model the `catch` that prints the message and returns status 1. The error value stands for that exit.
- ArgsJson.ArgsToJson: stores a number's text, tagged int or double, instead of the converted value. `strtod`, `stod` and `stoi` are library floating-point parsing.
- ArgsJson.ArgsToJson: does not model the exceptions the conversions throw: `std::invalid_argument` and `std::out_of_range` from `stoi` and from `stod`. For example, `strtod` accepts `inf`, `nan` and `infinity`, which contain no `.`, so `stoi` throws on them. `stod` throws out of range on `1e999`. In the program such an exception ends `main` with status 1. The model stores a tagged text instead (`JsonInt("inf")`).
- ArgsJson.IsNumber takes the parser's whole-string verdict as a parameter instead of modelling `strtod`.
- ConwayLifeEngine.ConwayLife.Randomize: takes its draws from an injected source rather than `std::random_device` and `mt19937`. It models `double` as `real`, so it states nothing about the distribution.
- ConwayLifeEngine.ConwayLife.constructor: takes `nat` dimensions. Negative C++ dimensions, where `std::vector` throws, are not modelled.
- 32-bit `int` overflow is not modelled: `generation++`, `gx + dx`, pattern widths and pixel positions use unbounded integers. Only the `Uint32` tick arithmetic wraps.
- Driver.OnInput: toggles against the grid's own dimensions, while the C++ code checks the configured `rows` and `cols`. The two are equal for every valid `Simulation`. `Simulation.HandleInput` uses the configured ones.
- Program_02's event loop is not modelled: it only reacts to quit and Escape. Its random colour is also left out.
