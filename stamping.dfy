/** Stamping named patterns onto the current generation, and the mouse toggle:
    the two ways the driver edits the grid it gets from the engine. */
module Stamping {
  import opened Wrappers
  import opened Grids

  /** One decoded entry of a shape's `cells` array; a missing `x` or `y` key is `None`. */
  datatype CellEntry = CellEntry(x: Option<int>, y: Option<int>)

  /** A decoded shape: `cells` is `None` when the key is missing or is not an array. */
  datatype Shape = Shape(cells: Option<seq<CellEntry>>)

  /** The decoded pattern document: `shapes` is `None` when the key is missing. */
  datatype Catalog = Catalog(shapes: Option<map<string, Shape>>)

  /** The two conditions that make stamping a no-op, each reported on the error stream. */
  datatype StampStatus = Stamped | PatternNotFound | NoCellsArray

  /** The column offset of an entry; a missing `x` reads as 0. */
  function OffsetX(e: CellEntry): int { e.x.GetOr(0) }

  /** The row offset of an entry; a missing `y` reads as 0. */
  function OffsetY(e: CellEntry): int { e.y.GetOr(0) }

  /** The cell list of pattern `name`, or why there is none. */
  function LookupCells(patterns: Catalog, name: string): (res: Result<seq<CellEntry>, StampStatus>)
    ensures res == Failure(PatternNotFound) <==>
      patterns.shapes.None? || name !in patterns.shapes.value
    ensures res == Failure(NoCellsArray) <==>
      patterns.shapes.Some? && name in patterns.shapes.value && patterns.shapes.value[name].cells.None?
    ensures res.Failure? ==> res.error != Stamped
    ensures res.Success? <==>
      patterns.shapes.Some? && name in patterns.shapes.value && patterns.shapes.value[name].cells.Some?
    ensures res.Success? ==> res.value == patterns.shapes.value[name].cells.value
  {
    if patterns.shapes.None? || name !in patterns.shapes.value then Failure(PatternNotFound)
    else if patterns.shapes.value[name].cells.None? then Failure(NoCellsArray)
    else Success(patterns.shapes.value[name].cells.value)
  }

  /** Some entry of `cells`, placed at anchor column `gx` and row `gy`, lands on row `r`, column `c`. */
  ghost predicate Covers(cells: seq<CellEntry>, gx: int, gy: int, r: int, c: int) {
    exists i :: 0 <= i < |cells| && gx + OffsetX(cells[i]) == c && gy + OffsetY(cells[i]) == r
  }

  /** `g` with every cell that some entry lands on set to 1 and every other cell as it was. */
  ghost function Stamp(g: Grid, cells: seq<CellEntry>, gx: int, gy: int): Grid {
    seq(|g|, r requires 0 <= r < |g| =>
      seq(|g[r]|, c requires 0 <= c < |g[r]| => if Covers(cells, gx, gy, r, c) then 1 else g[r][c]))
  }

  /** The effect of stamping pattern `name`: unchanged when the pattern or its cell array is missing. */
  ghost function ApplyPattern(g: Grid, patterns: Catalog, name: string, gx: int, gy: int): Grid {
    match LookupCells(patterns, name)
    case Success(cells) => Stamp(g, cells, gx, gy)
    case Failure(_) => g
  }

  /** Stamping keeps the shape of the grid. */
  lemma StampShape(g: Grid, rows: int, cols: int, cells: seq<CellEntry>, gx: int, gy: int)
    requires WellFormed(g, rows, cols)
    ensures WellFormed(Stamp(g, cells, gx, gy), rows, cols)
  {
  }

  /** Stamping only ever writes 1: a cell is 1 afterwards if some entry lands on it,
      and every cell no entry lands on keeps its value, so stamping never kills a cell. */
  lemma StampIsAdditive(g: Grid, cells: seq<CellEntry>, gx: int, gy: int, r: int, c: int)
    requires 0 <= r < |g| && 0 <= c < |g[r]|
    ensures var h := Stamp(g, cells, gx, gy);
      |h| == |g| && |h[r]| == |g[r]| &&
      (Covers(cells, gx, gy, r, c) ==> h[r][c] == 1) &&
      (!Covers(cells, gx, gy, r, c) ==> h[r][c] == g[r][c]) &&
      (g[r][c] != 0 ==> h[r][c] != 0)
  {
  }

  /** Stamping the same cells twice at the same anchor is the same as stamping them once. */
  lemma StampIdempotent(g: Grid, cells: seq<CellEntry>, gx: int, gy: int)
    ensures Stamp(Stamp(g, cells, gx, gy), cells, gx, gy) == Stamp(g, cells, gx, gy)
  {
    var once := Stamp(g, cells, gx, gy);
    var twice := Stamp(once, cells, gx, gy);
    forall r | 0 <= r < |g|
      ensures twice[r] == once[r]
    {
    }
  }

  /** Stamping the same pattern twice at the same anchor changes nothing the first stamp did not. */
  lemma ApplyPatternIdempotent(g: Grid, patterns: Catalog, name: string, gx: int, gy: int)
    ensures ApplyPattern(ApplyPattern(g, patterns, name, gx, gy), patterns, name, gx, gy)
         == ApplyPattern(g, patterns, name, gx, gy)
  {
    if LookupCells(patterns, name).Success? {
      StampIdempotent(g, LookupCells(patterns, name).value, gx, gy);
    }
  }

  /** Two stamps commute: the result does not depend on the order they are applied in. */
  lemma StampsCommute(g: Grid, p: seq<CellEntry>, px: int, py: int, q: seq<CellEntry>, qx: int, qy: int)
    ensures Stamp(Stamp(g, p, px, py), q, qx, qy) == Stamp(Stamp(g, q, qx, qy), p, px, py)
  {
    var pq := Stamp(Stamp(g, p, px, py), q, qx, qy);
    var qp := Stamp(Stamp(g, q, qx, qy), p, px, py);
    forall r | 0 <= r < |g|
      ensures pq[r] == qp[r]
    {
    }
  }

  /** Entries landing outside the grid are skipped: on an all-dead grid the live cells
      after stamping are exactly the in-bounds cells some entry lands on. */
  lemma StampOnEmptyGrid(g: Grid, rows: int, cols: int, cells: seq<CellEntry>, gx: int, gy: int)
    requires WellFormed(g, rows, cols) && AllDead(g)
    ensures forall r, c :: LiveAt(Stamp(g, cells, gx, gy), r, c) <==>
      0 <= r < rows && 0 <= c < cols && Covers(cells, gx, gy, r, c)
  {
  }

  /** The block shape as a cell list: offsets (0,0), (1,0), (0,1) and (1,1). */
  function BlockCells(): seq<CellEntry> {
    [CellEntry(Some(0), Some(0)), CellEntry(Some(1), Some(0)), CellEntry(Some(0), Some(1)), CellEntry(Some(1), Some(1))]
  }

  /** Stamping the block at column 5, row 5 of an empty 20 by 20 grid makes exactly
      the cells at rows 5..6, columns 5..6 alive. */
  lemma BlockStampExample()
    ensures forall r, c :: LiveAt(Stamp(Zeros(20, 20), BlockCells(), 5, 5), r, c) <==>
      5 <= r <= 6 && 5 <= c <= 6
  {
    var cells := BlockCells();
    StampOnEmptyGrid(Zeros(20, 20), 20, 20, cells, 5, 5);
    forall r, c
      ensures Covers(cells, 5, 5, r, c) <==> 5 <= r <= 6 && 5 <= c <= 6
    {
      if 5 <= r <= 6 && 5 <= c <= 6 {
        var i := (r - 5) * 2 + (c - 5);
        assert 5 + OffsetX(cells[i]) == c && 5 + OffsetY(cells[i]) == r;
      }
    }
  }

  /** Sets to 1 every in-bounds cell that an entry of pattern `name` lands on when the
      pattern is anchored at column `gx`, row `gy`; entries landing outside are skipped.
      A missing pattern or cell array leaves the grid untouched. */
  method ApplyPatternAt(grid: array2<int>, patterns: Catalog, name: string, gx: int, gy: int)
    returns (status: StampStatus)
    modifies grid
    ensures status == Stamped <==> LookupCells(patterns, name).Success?
    ensures status != Stamped ==> status == LookupCells(patterns, name).error
    ensures Cells(grid) == ApplyPattern(old(Cells(grid)), patterns, name, gx, gy)
  {
    var found := LookupCells(patterns, name);
    if found.Failure? {
      return found.error;
    }
    var cells := found.value;
    ghost var g := Cells(grid);
    var rows := grid.Length0;
    var cols := if rows > 0 then grid.Length1 else 0;
    for i := 0 to |cells|
      invariant forall r, c :: 0 <= r < rows && 0 <= c < grid.Length1 ==>
        grid[r, c] == if Covers(cells[..i], gx, gy, r, c) then 1 else g[r][c]
    {
      var dx := OffsetX(cells[i]);
      var dy := OffsetY(cells[i]);
      var x := gx + dx;
      var y := gy + dy;
      if x >= 0 && x < cols && y >= 0 && y < rows {
        grid[y, x] := 1;
      }
      forall r, c | 0 <= r < rows && 0 <= c < grid.Length1
        ensures Covers(cells[..i + 1], gx, gy, r, c) <==> Covers(cells[..i], gx, gy, r, c) || (x == c && y == r)
      {
        CoversExtend(cells, i, gx, gy, r, c);
      }
    }
    assert cells[..|cells|] == cells;
    CellsAre(grid, Stamp(g, cells, gx, gy));
    status := Stamped;
  }

  /** One more entry covers what the shorter prefix covered plus that entry's own cell. */
  lemma CoversExtend(cells: seq<CellEntry>, i: int, gx: int, gy: int, r: int, c: int)
    requires 0 <= i < |cells|
    ensures Covers(cells[..i + 1], gx, gy, r, c) <==>
      Covers(cells[..i], gx, gy, r, c) || (gx + OffsetX(cells[i]) == c && gy + OffsetY(cells[i]) == r)
  {
    var longer, shorter := cells[..i + 1], cells[..i];
    if Covers(longer, gx, gy, r, c) {
      var k :| 0 <= k < |longer| && gx + OffsetX(longer[k]) == c && gy + OffsetY(longer[k]) == r;
      if k < i {
        assert shorter[k] == longer[k];
      }
    }
    if Covers(shorter, gx, gy, r, c) {
      var k :| 0 <= k < |shorter| && gx + OffsetX(shorter[k]) == c && gy + OffsetY(shorter[k]) == r;
      assert longer[k] == shorter[k];
    }
    if gx + OffsetX(cells[i]) == c && gy + OffsetY(cells[i]) == r {
      assert longer[i] == cells[i];
    }
  }

  /** `g` with cell (`gy`, `gx`) flipped between dead and alive when it lies inside the grid. */
  ghost function Toggled(g: Grid, gx: int, gy: int): (h: Grid)
    ensures |h| == |g| && forall r :: 0 <= r < |g| ==> |h[r]| == |g[r]|
    ensures 0 <= gy < |g| && 0 <= gx < |g[gy]| ==>
      (LiveAt(h, gy, gx) <==> !LiveAt(g, gy, gx)) && (h[gy][gx] == 0 || h[gy][gx] == 1)
    ensures forall r, c :: 0 <= r < |g| && 0 <= c < |g[r]| && (r, c) != (gy, gx) ==> h[r][c] == g[r][c]
  {
    if 0 <= gy < |g| && 0 <= gx < |g[gy]| then g[gy := g[gy][gx := if g[gy][gx] != 0 then 0 else 1]]
    else g
  }

  /** Toggling a 0/1 cell twice restores the grid. */
  lemma ToggleTwiceRestores(g: Grid, gx: int, gy: int)
    requires Binary(g)
    ensures Toggled(Toggled(g, gx, gy), gx, gy) == g
  {
    if 0 <= gy < |g| && 0 <= gx < |g[gy]| {
      assert Toggled(Toggled(g, gx, gy), gx, gy)[gy] == g[gy];
    }
  }

  /** The left-click branch: a click on in-bounds cell (`gx`, `gy`) flips exactly that
      cell between 0 and 1; a click outside the grid changes nothing. */
  method ToggleAt(grid: array2<int>, rows: int, cols: int, gx: int, gy: int)
    requires rows == grid.Length0 && cols == grid.Length1
    modifies grid
    ensures Cells(grid) == Toggled(old(Cells(grid)), gx, gy)
    ensures 0 <= gy < rows && 0 <= gx < cols ==> grid[gy, gx] == (if old(grid[gy, gx]) != 0 then 0 else 1)
    ensures forall r, c :: 0 <= r < rows && 0 <= c < cols && (r, c) != (gy, gx) ==> grid[r, c] == old(grid[r, c])
  {
    ghost var g := Cells(grid);
    if gx >= 0 && gx < cols && gy >= 0 && gy < rows {
      grid[gy, gx] := if grid[gy, gx] != 0 then 0 else 1;
    }
    CellsAre(grid, Toggled(g, gx, gy));
  }
}
