/** The interactive driver: configuration checks at startup, then an event loop that
    edits, steps and throttles the engine. Window, rendering, clock and event queue are
    outside the model: their readings arrive as inputs. */
module Driver {
  import opened Wrappers
  import opened CppInts
  import opened Grids
  import opened LifeRules
  import opened Stamping
  import opened ConwayLifeEngine

  /** The chance `randomize` uses when called without an argument. */
  const DefaultAliveChance: real := 0.2

  /** Why startup is refused; either one ends the process with status 1. */
  datatype ConfigError = NonPositiveCellSize | WindowTooSmall

  /** The grid dimensions (rows, cols) a window of the given size holds with square
      cells of `cellSize` pixels: rows is the number of whole cells that fit the height,
      cols the number that fit the width. Refused when the cell size is not positive or
      when not even one whole cell fits either way. */
  function GridSize(windowWidth: int, windowHeight: int, cellSize: int): (res: Result<(int, int), ConfigError>)
    ensures res == Failure(NonPositiveCellSize) <==> cellSize <= 0
    ensures res.Success? <==> 0 < cellSize <= windowHeight && cellSize <= windowWidth
    ensures res.Success? ==>
      var (rows, cols) := res.value;
      0 < rows && 0 < cols &&
      rows * cellSize <= windowHeight < (rows + 1) * cellSize &&
      cols * cellSize <= windowWidth < (cols + 1) * cellSize
  {
    if cellSize <= 0 then Failure(NonPositiveCellSize)
    else
      var rows := TruncDiv(windowHeight, cellSize);
      var cols := TruncDiv(windowWidth, cellSize);
      if rows <= 0 || cols <= 0 then Failure(WindowTooSmall) else Success((rows, cols))
  }

  /** The keys the loop reacts to; every other key is `OtherKey`. */
  datatype Key = KeyQ | KeyEscape | KeySpace | KeyN | KeyR | KeyC | KeyG | KeyB | KeyO | OtherKey

  datatype Button = LeftButton | OtherButton

  /** One polled event; a button press carries the pointer position in pixels. */
  datatype Event =
    | Quit
    | KeyDown(key: Key)
    | MouseButtonDown(button: Button, x: int, y: int)
    | OtherEvent

  /** An event together with the readings its handler may take: the pointer position
      (for the stamping keys) and the random source (for the randomize key). */
  datatype Input = Input(event: Event, mouseX: int, mouseY: int, draw: RandomSource)

  /** What stays fixed for a run: the validated dimensions, the step interval and the pattern catalog. */
  datatype Setup = Setup(rows: nat, cols: nat, cellSize: int, frameDelayMs: int, patterns: Catalog)

  /** The observable state of a run: the current generation's cells and the loop's variables. */
  datatype Session = Session(cells: Grid, running: bool, paused: bool, generation: int, lastStepTime: Uint32)

  /** The state right after startup: an empty grid, running, paused, generation 0. */
  ghost function Initial(setup: Setup, ticks: Uint32): Session {
    Session(Zeros(setup.rows, setup.cols), true, true, 0, ticks)
  }

  /** How one key press changes the state. */
  ghost function OnKey(s: Session, key: Key, inp: Input, setup: Setup): (t: Session)
    requires setup.cellSize > 0
    ensures t.lastStepTime == s.lastStepTime
    ensures t.running <==> s.running && key != KeyQ && key != KeyEscape
    ensures t.paused <==> (s.paused != (key == KeySpace))
    ensures t.generation ==
      if key == KeyR || key == KeyC then 0
      else if key == KeyN && s.paused then s.generation + 1
      else s.generation
    ensures key == KeyQ || key == KeyEscape || key == KeySpace || key == OtherKey ==> t.cells == s.cells
  {
    match key
    case KeyQ => s.(running := false)
    case KeyEscape => s.(running := false)
    case KeySpace => s.(paused := !s.paused)
    case KeyN => if s.paused then s.(cells := NextGen(s.cells), generation := s.generation + 1) else s
    case KeyR => s.(cells := Randomized(setup.rows, setup.cols, DefaultAliveChance, inp.draw), generation := 0)
    case KeyC => s.(cells := Zeros(setup.rows, setup.cols), generation := 0)
    case KeyG => s.(cells := StampAtPointer(s.cells, inp, setup, "glider"))
    case KeyB => s.(cells := StampAtPointer(s.cells, inp, setup, "blinker"))
    case KeyO => s.(cells := StampAtPointer(s.cells, inp, setup, "block"))
    case OtherKey => s
  }

  /** The grid after stamping pattern `name` at the cell under the pointer. */
  ghost function StampAtPointer(g: Grid, inp: Input, setup: Setup, name: string): (h: Grid)
    requires setup.cellSize > 0
    ensures |h| == |g| && forall r :: 0 <= r < |g| ==> |h[r]| == |g[r]|
    ensures forall r, c :: LiveAt(g, r, c) ==> LiveAt(h, r, c)
  {
    ApplyPattern(g, setup.patterns, name, TruncDiv(inp.mouseX, setup.cellSize), TruncDiv(inp.mouseY, setup.cellSize))
  }

  /** How one polled event changes the state. */
  ghost function OnInput(s: Session, inp: Input, setup: Setup): Session
    requires setup.cellSize > 0
  {
    match inp.event
    case Quit => s.(running := false)
    case KeyDown(key) => OnKey(s, key, inp, setup)
    case MouseButtonDown(button, x, y) =>
      if button == LeftButton
      then s.(cells := Toggled(s.cells, TruncDiv(x, setup.cellSize), TruncDiv(y, setup.cellSize)))
      else s
    case OtherEvent => s
  }

  /** The throttled auto-advance at the end of a loop iteration, at tick `now`. */
  ghost function OnTick(s: Session, now: Uint32, frameDelayMs: int): Session {
    if !s.paused && ElapsedTicks(now, s.lastStepTime) >= ToUint32(frameDelayMs)
    then s.(cells := NextGen(s.cells), generation := s.generation + 1, lastStepTime := now)
    else s
  }

  /** The state after handling `inputs` in order. */
  ghost function OnInputs(s: Session, inputs: seq<Input>, setup: Setup): Session
    requires setup.cellSize > 0
  {
    if inputs == [] then s
    else OnInput(OnInputs(s, inputs[..|inputs| - 1], setup), inputs[|inputs| - 1], setup)
  }

  /** One pass of the main loop: drain every pending event, then the auto-advance check. */
  ghost function OnFrame(s: Session, inputs: seq<Input>, now: Uint32, setup: Setup): Session
    requires setup.cellSize > 0
  {
    OnTick(OnInputs(s, inputs, setup), now, setup.frameDelayMs)
  }

  /** Passes of the main loop until the loop condition fails: each frame is the
      events polled in one pass and the tick read after them. */
  ghost function OnFrames(s: Session, frames: seq<(seq<Input>, Uint32)>, setup: Setup): Session
    requires setup.cellSize > 0
    decreases |frames|
  {
    if frames == [] || !s.running then s
    else OnFrames(OnFrame(s, frames[0].0, frames[0].1, setup), frames[1..], setup)
  }

  /** Space flips `paused` and nothing else. */
  lemma SpaceTogglesPause(s: Session, inp: Input, setup: Setup)
    requires setup.cellSize > 0 && inp.event == KeyDown(KeySpace)
    ensures OnInput(s, inp, setup) == s.(paused := !s.paused)
  {
  }

  /** `n` advances exactly one generation while paused and is a no-op while running. */
  lemma ManualStepOnlyWhenPaused(s: Session, inp: Input, setup: Setup)
    requires setup.cellSize > 0 && inp.event == KeyDown(KeyN)
    ensures var t := OnInput(s, inp, setup);
      if s.paused then t == s.(cells := NextGen(s.cells), generation := s.generation + 1) else t == s
  {
  }

  /** `r` and `c` reset the generation counter and leave `paused` and `running` as they were;
      `c` also empties the grid. */
  lemma ResetKeysZeroGeneration(s: Session, inp: Input, setup: Setup)
    requires setup.cellSize > 0 && (inp.event == KeyDown(KeyR) || inp.event == KeyDown(KeyC))
    ensures var t := OnInput(s, inp, setup);
      t.generation == 0 && t.paused == s.paused && t.running == s.running && t.lastStepTime == s.lastStepTime
    ensures inp.event == KeyDown(KeyC) ==> OnInput(s, inp, setup).cells == Zeros(setup.rows, setup.cols)
  {
  }

  /** The auto-advance fires iff the run is not paused and at least the step interval has
      elapsed since the last step (in wrapping 32-bit ticks); it then advances exactly one
      generation and restarts the interval at `now`. */
  lemma AutoAdvanceGate(s: Session, now: Uint32, frameDelayMs: int)
    ensures var fires := !s.paused && ElapsedTicks(now, s.lastStepTime) >= ToUint32(frameDelayMs);
      var t := OnTick(s, now, frameDelayMs);
      (fires ==> t.generation == s.generation + 1 && t.lastStepTime == now && t.cells == NextGen(s.cells)) &&
      (!fires ==> t == s) &&
      t.paused == s.paused && t.running == s.running
  {
  }

  /** No key, click or tick ever sets `running` again once it is false. */
  lemma {:induction false} StoppedStaysStopped(s: Session, inputs: seq<Input>, setup: Setup)
    requires setup.cellSize > 0 && !s.running
    ensures !OnInputs(s, inputs, setup).running
  {
    if inputs != [] {
      StoppedStaysStopped(s, inputs[..|inputs| - 1], setup);
    }
  }

  /** Without an `r` or `c` key press the generation counter never goes down. */
  lemma {:induction false} GenerationNeverDecreasesWithoutReset(s: Session, inputs: seq<Input>, setup: Setup)
    requires setup.cellSize > 0
    requires forall i :: 0 <= i < |inputs| ==> inputs[i].event != KeyDown(KeyR) && inputs[i].event != KeyDown(KeyC)
    ensures OnInputs(s, inputs, setup).generation >= s.generation
  {
    if inputs != [] {
      GenerationNeverDecreasesWithoutReset(s, inputs[..|inputs| - 1], setup);
    }
  }

  /** While paused, the cells change only through `n`, the reset keys, stamping and
      clicks: a run of inputs with none of those leaves the grid and the counter alone. */
  lemma {:induction false} PausedWithoutEditsIsFrozen(s: Session, inputs: seq<Input>, setup: Setup)
    requires setup.cellSize > 0 && s.paused
    requires forall i :: 0 <= i < |inputs| ==>
      inputs[i].event.Quit? || inputs[i].event.OtherEvent? || inputs[i].event == KeyDown(OtherKey) ||
      inputs[i].event == KeyDown(KeyQ) || inputs[i].event == KeyDown(KeyEscape) ||
      (inputs[i].event.MouseButtonDown? && inputs[i].event.button == OtherButton)
    ensures var t := OnInputs(s, inputs, setup);
      t.cells == s.cells && t.generation == s.generation && t.paused
  {
    if inputs != [] {
      PausedWithoutEditsIsFrozen(s, inputs[..|inputs| - 1], setup);
    }
  }

  /** The grid keeps its `rows` by `cols` shape through every event and tick. */
  lemma {:induction false} FrameKeepsShape(s: Session, inputs: seq<Input>, now: Uint32, setup: Setup)
    requires setup.cellSize > 0 && WellFormed(s.cells, setup.rows, setup.cols)
    ensures WellFormed(OnInputs(s, inputs, setup).cells, setup.rows, setup.cols)
    ensures WellFormed(OnFrame(s, inputs, now, setup).cells, setup.rows, setup.cols)
  {
    if inputs != [] {
      FrameKeepsShape(s, inputs[..|inputs| - 1], now, setup);
      var before := OnInputs(s, inputs[..|inputs| - 1], setup);
      var inp := inputs[|inputs| - 1];
      InputKeepsShape(before, inp, setup);
    }
    NextGenShape(OnInputs(s, inputs, setup).cells, setup.rows, setup.cols);
  }

  /** One event keeps the grid's shape. */
  lemma InputKeepsShape(s: Session, inp: Input, setup: Setup)
    requires setup.cellSize > 0 && WellFormed(s.cells, setup.rows, setup.cols)
    ensures WellFormed(OnInput(s, inp, setup).cells, setup.rows, setup.cols)
  {
    NextGenShape(s.cells, setup.rows, setup.cols);
    var gx, gy := TruncDiv(inp.mouseX, setup.cellSize), TruncDiv(inp.mouseY, setup.cellSize);
    match LookupCells(setup.patterns, "glider") {
      case Success(cells) => StampShape(s.cells, setup.rows, setup.cols, cells, gx, gy);
      case Failure(_) =>
    }
    match LookupCells(setup.patterns, "blinker") {
      case Success(cells) => StampShape(s.cells, setup.rows, setup.cols, cells, gx, gy);
      case Failure(_) =>
    }
    match LookupCells(setup.patterns, "block") {
      case Success(cells) => StampShape(s.cells, setup.rows, setup.cols, cells, gx, gy);
      case Failure(_) =>
    }
  }

  /** The running program: the engine plus the loop variables of the main function. */
  class Simulation {
    const setup: Setup
    const gol: ConwayLife
    var running: bool
    var paused: bool
    var generation: int
    var lastStepTime: Uint32

    ghost predicate Valid()
      reads this, gol
    {
      gol.Valid() && gol.rows == setup.rows && gol.cols == setup.cols && setup.cellSize > 0
    }

    /** The observable state of the run. */
    ghost function State(): Session
      reads this, gol, gol.grid
    {
      Session(Cells(gol.grid), running, paused, generation, lastStepTime)
    }

    /** The two engine buffers, whichever of them is current. */
    ghost function Buffers(): set<array2<int>>
      reads this, gol
    {
      {gol.grid, gol.nextGrid}
    }

    /** Startup after the configuration is accepted: a cleared `rows` by `cols` engine,
        running, paused, generation 0, the step interval starting at tick `ticks`. */
    constructor (setup: Setup, ticks: Uint32)
      requires setup.cellSize > 0
      ensures Valid() && this.setup == setup && fresh(gol) && fresh(gol.grid) && fresh(gol.nextGrid)
      ensures State() == Initial(setup, ticks)
    {
      var engine := new ConwayLife(setup.rows, setup.cols);
      engine.Clear();
      this.setup := setup;
      gol := engine;
      running := true;
      paused := true;
      lastStepTime := ticks;
      generation := 0;
    }

    /** Handles one polled event, as `OnInput` describes. */
    method HandleInput(inp: Input)
      requires Valid()
      modifies this, gol, gol.grid, gol.nextGrid
      ensures Valid() && Buffers() == old(Buffers())
      ensures State() == OnInput(old(State()), inp, setup)
    {
      match inp.event {
        case Quit =>
          running := false;
        case KeyDown(key) =>
          if key == KeyQ || key == KeyEscape {
            running := false;
          } else if key == KeySpace {
            paused := !paused;
          } else if key == KeyN {
            if paused {
              gol.Step();
              generation := generation + 1;
            }
          } else if key == KeyR {
            gol.Randomize(DefaultAliveChance, inp.draw);
            generation := 0;
          } else if key == KeyC {
            gol.Clear();
            generation := 0;
          } else if key == KeyG {
            StampAtMouse(inp, "glider");
          } else if key == KeyB {
            StampAtMouse(inp, "blinker");
          } else if key == KeyO {
            StampAtMouse(inp, "block");
          }
        case MouseButtonDown(button, x, y) =>
          if button == LeftButton {
            var gx := TruncDiv(x, setup.cellSize);
            var gy := TruncDiv(y, setup.cellSize);
            var grid := gol.GetGrid();
            ToggleAt(grid, setup.rows, setup.cols, gx, gy);
          }
        case OtherEvent =>
      }
    }

    /** Stamps pattern `name` at the grid cell under the pointer. */
    method StampAtMouse(inp: Input, name: string)
      requires Valid()
      modifies gol.grid
      ensures Valid()
      ensures Cells(gol.grid) == StampAtPointer(old(Cells(gol.grid)), inp, setup, name)
    {
      var gx := TruncDiv(inp.mouseX, setup.cellSize);
      var gy := TruncDiv(inp.mouseY, setup.cellSize);
      var grid := gol.GetGrid();
      var _ := ApplyPatternAt(grid, setup.patterns, name, gx, gy);
    }

    /** The throttled auto-advance at tick `now`, as `OnTick` describes. */
    method AdvanceIfDue(now: Uint32)
      requires Valid()
      modifies this, gol, gol.grid, gol.nextGrid
      ensures Valid() && Buffers() == old(Buffers())
      ensures State() == OnTick(old(State()), now, setup.frameDelayMs)
    {
      if !paused && ElapsedTicks(now, lastStepTime) >= ToUint32(setup.frameDelayMs) {
        gol.Step();
        generation := generation + 1;
        lastStepTime := now;
      }
    }

    /** One pass of the main loop: every pending event in order, then the auto-advance. */
    method RunFrame(inputs: seq<Input>, now: Uint32)
      requires Valid()
      modifies this, gol, gol.grid, gol.nextGrid
      ensures Valid() && Buffers() == old(Buffers())
      ensures State() == OnFrame(old(State()), inputs, now, setup)
    {
      ghost var s0 := State();
      for i := 0 to |inputs|
        invariant Valid() && Buffers() == old(Buffers())
        invariant State() == OnInputs(s0, inputs[..i], setup)
      {
        HandleInput(inputs[i]);
        assert inputs[..i + 1][..i] == inputs[..i];
      }
      assert inputs[..|inputs|] == inputs;
      AdvanceIfDue(now);
    }

    /** The main loop over the frames the environment supplies, until a quit request. */
    method Run(frames: seq<(seq<Input>, Uint32)>)
      requires Valid()
      modifies this, gol, gol.grid, gol.nextGrid
      ensures Valid() && Buffers() == old(Buffers())
      ensures State() == OnFrames(old(State()), frames, setup)
    {
      var i := 0;
      while running && i < |frames|
        invariant 0 <= i <= |frames|
        invariant Valid() && Buffers() == old(Buffers())
        invariant OnFrames(State(), frames[i..], setup) == OnFrames(old(State()), frames, setup)
      {
        assert frames[i..][1..] == frames[i + 1..];
        RunFrame(frames[i].0, frames[i].1);
        i := i + 1;
      }
    }
  }

  /** Startup: the configuration check, then a simulation of the validated size;
      a refused configuration builds nothing and reports why. */
  method Start(windowWidth: int, windowHeight: int, cellSize: int, frameDelayMs: int, patterns: Catalog, ticks: Uint32)
    returns (r: Result<Simulation, ConfigError>)
    ensures r.Failure? <==> GridSize(windowWidth, windowHeight, cellSize).Failure?
    ensures r.Failure? ==> r.error == GridSize(windowWidth, windowHeight, cellSize).error
    ensures r.Success? ==>
      var (rows, cols) := GridSize(windowWidth, windowHeight, cellSize).value;
      rows > 0 && cols > 0 &&
      r.value.setup == Setup(rows, cols, cellSize, frameDelayMs, patterns) &&
      r.value.Valid() && fresh(r.value) && fresh(r.value.gol) &&
      r.value.State() == Initial(r.value.setup, ticks)
  {
    var size := GridSize(windowWidth, windowHeight, cellSize);
    if size.Failure? {
      return Failure(size.error);
    }
    var (rows, cols) := size.value;
    var sim := new Simulation(Setup(rows, cols, cellSize, frameDelayMs, patterns), ticks);
    return Success(sim);
  }
}
