/** The double-buffered Game of Life engine: a class owning the current
    generation `grid` and the scratch buffer `nextGrid`, both `rows` by `cols`. */
module ConwayLifeEngine {
  import opened Grids
  import opened LifeRules

  /** A uniform random source: the draw in [0, 1) the distribution yields for cell (row, col). */
  type RandomSource = (int, int) -> real

  /** The grid `randomize` produces: a cell is alive iff its draw is below `aliveChance`. */
  function Randomized(rows: nat, cols: nat, aliveChance: real, draw: RandomSource): (g: Grid)
    ensures WellFormed(g, rows, cols) && Binary(g)
    ensures forall r, c :: 0 <= r < rows && 0 <= c < cols ==> (LiveAt(g, r, c) <==> draw(r, c) < aliveChance)
  {
    seq(rows, r => seq(cols, c => if draw(r, c) < aliveChance then 1 else 0))
  }

  /** `draw` only yields values in [0, 1). */
  ghost predicate UnitDraws(draw: RandomSource) {
    forall r, c :: 0.0 <= draw(r, c) < 1.0
  }

  /** With chance 0 (or less) every cell is dead, whatever the draws. */
  lemma RandomizedNoChanceIsDead(rows: nat, cols: nat, aliveChance: real, draw: RandomSource)
    requires UnitDraws(draw) && aliveChance <= 0.0
    ensures Randomized(rows, cols, aliveChance, draw) == Zeros(rows, cols)
  {
    var g := Randomized(rows, cols, aliveChance, draw);
    forall r | 0 <= r < rows
      ensures g[r] == Zeros(rows, cols)[r]
    {
      assert forall c :: 0 <= c < cols ==> g[r][c] == 0 by {
        forall c | 0 <= c < cols ensures g[r][c] == 0 {
          assert 0.0 <= draw(r, c);
        }
      }
    }
  }

  /** With chance 1 (or more) every cell is alive, whatever the draws. */
  lemma RandomizedCertainIsAlive(rows: nat, cols: nat, aliveChance: real, draw: RandomSource)
    requires UnitDraws(draw) && aliveChance >= 1.0
    ensures var g := Randomized(rows, cols, aliveChance, draw);
      WellFormed(g, rows, cols) && forall r, c :: 0 <= r < rows && 0 <= c < cols ==> g[r][c] == 1
  {
    var g := Randomized(rows, cols, aliveChance, draw);
    forall r, c | 0 <= r < rows && 0 <= c < cols
      ensures g[r][c] == 1
    {
      assert draw(r, c) < 1.0;
    }
  }

  class ConwayLife {
    /** The dimensions, fixed at construction: the class has no setter for them. */
    const rows: nat
    const cols: nat
    /** The current generation, the only buffer handed out. */
    var grid: array2<int>
    /** Scratch space the next generation is written into. */
    var nextGrid: array2<int>

    /** Exactly two distinct buffers, both `rows` by `cols`. */
    ghost predicate Valid()
      reads this
    {
      grid != nextGrid &&
      grid.Length0 == rows && grid.Length1 == cols &&
      nextGrid.Length0 == rows && nextGrid.Length1 == cols
    }

    /** Both buffers are fresh `rows` by `cols` matrices of zeros. */
    constructor (rows: nat, cols: nat)
      ensures Valid() && this.rows == rows && this.cols == cols
      ensures fresh(grid) && fresh(nextGrid)
      ensures Cells(grid) == Zeros(rows, cols) && Cells(nextGrid) == Zeros(rows, cols)
    {
      this.rows := rows;
      this.cols := cols;
      grid := new int[rows, cols]((r, c) => 0);
      nextGrid := new int[rows, cols]((r, c) => 0);
      new;
      CellsAre(grid, Zeros(rows, cols));
      CellsAre(nextGrid, Zeros(rows, cols));
    }

    /** The buffer callers read and modify: always the current generation, never the scratch buffer. */
    function GetGrid(): (g: array2<int>)
      reads this
      requires Valid()
      ensures g == grid && g != nextGrid
      ensures g.Length0 == rows && g.Length1 == cols
    {
      grid
    }

    /** The number of live cells among the eight neighbours of (`r`, `c`) in the current
        generation; positions outside the grid are skipped, never read. Reads only. */
    method CountNeighbors(r: int, c: int) returns (count: int)
      requires Valid()
      ensures count == Neighbors(Cells(grid), r, c)
      ensures 0 <= count <= 8
    {
      ghost var g := Cells(grid);
      count := 0;
      for dr := -1 to 2
        invariant count == ScanProbes(g, r, c, dr + 1)
      {
        for dc := -1 to 2
          invariant count == ScanProbes(g, r, c, dr + 1) + RowProbes(g, r, c, dr, dc + 1)
        {
          if dr == 0 && dc == 0 {
            continue;
          }
          var nr := r + dr;
          var nc := c + dc;
          if nr >= 0 && nr < rows && nc >= 0 && nc < cols {
            if grid[nr, nc] != 0 {
              count := count + 1;
            }
          }
        }
      }
    }

    /** Advances one generation. Every new cell is computed from the pre-step
        generation alone; the results go to the scratch buffer, then the two buffers
        exchange contents, so the old generation is what the scratch buffer holds
        afterwards and the current buffer stays the same array. */
    method Step()
      requires Valid()
      modifies grid, nextGrid
      ensures Valid()
      ensures Cells(grid) == NextGen(old(Cells(grid)))
      ensures Cells(nextGrid) == old(Cells(grid))
    {
      ghost var g := Cells(grid);
      NextGenShape(g, rows, cols);
      for r := 0 to rows
        modifies nextGrid
        invariant forall i, j :: 0 <= i < r && 0 <= j < cols ==> nextGrid[i, j] == NextAt(g, i, j)
      {
        for c := 0 to cols
          modifies nextGrid
          invariant forall i, j :: 0 <= i < r && 0 <= j < cols ==> nextGrid[i, j] == NextAt(g, i, j)
          invariant forall j :: 0 <= j < c ==> nextGrid[r, j] == NextAt(g, r, j)
        {
          var n := CountNeighbors(r, c);
          var alive := grid[r, c] != 0;
          assert alive == (g[r][c] != 0);
          var nextAlive := false;
          if alive {
            nextAlive := n == 2 || n == 3;
          } else {
            nextAlive := n == 3;
          }
          nextGrid[r, c] := if nextAlive then 1 else 0;
        }
      }
      CellsAre(nextGrid, NextGen(g));
      assert Cells(grid) == g;
      SwapContents();
    }

    /** Exchanges the contents of the two buffers; each keeps its identity and shape. */
    method SwapContents()
      requires Valid()
      modifies grid, nextGrid
      ensures Valid()
      ensures Cells(grid) == old(Cells(nextGrid)) && Cells(nextGrid) == old(Cells(grid))
    {
      for r := 0 to rows
        invariant forall i, j :: 0 <= i < r && 0 <= j < cols ==>
          grid[i, j] == old(nextGrid[i, j]) && nextGrid[i, j] == old(grid[i, j])
        invariant forall i, j :: r <= i < rows && 0 <= j < cols ==>
          grid[i, j] == old(grid[i, j]) && nextGrid[i, j] == old(nextGrid[i, j])
      {
        for c := 0 to cols
          invariant forall i, j :: 0 <= i < r && 0 <= j < cols ==>
            grid[i, j] == old(nextGrid[i, j]) && nextGrid[i, j] == old(grid[i, j])
          invariant forall j :: 0 <= j < c ==>
            grid[r, j] == old(nextGrid[r, j]) && nextGrid[r, j] == old(grid[r, j])
          invariant forall i, j :: r <= i < rows && 0 <= j < cols && (i > r || j >= c) ==>
            grid[i, j] == old(grid[i, j]) && nextGrid[i, j] == old(nextGrid[i, j])
        {
          grid[r, c], nextGrid[r, c] := nextGrid[r, c], grid[r, c];
        }
      }
      CellsAre(grid, old(Cells(nextGrid)));
      CellsAre(nextGrid, old(Cells(grid)));
    }

    /** Sets every cell of the current generation to 0; the scratch buffer is untouched. */
    method Clear()
      requires Valid()
      modifies grid
      ensures Valid()
      ensures Cells(grid) == Zeros(rows, cols)
      ensures unchanged(nextGrid)
    {
      for r := 0 to rows
        invariant forall i, j :: 0 <= i < r && 0 <= j < cols ==> grid[i, j] == 0
      {
        for c := 0 to cols
          invariant forall i, j :: 0 <= i < r && 0 <= j < cols ==> grid[i, j] == 0
          invariant forall j :: 0 <= j < c ==> grid[r, j] == 0
        {
          grid[r, c] := 0;
        }
      }
      CellsAre(grid, Zeros(rows, cols));
    }

    /** Sets each cell of the current generation alive iff its draw from the injected
        uniform source is below `aliveChance`; the scratch buffer is untouched. */
    method Randomize(aliveChance: real, draw: RandomSource)
      requires Valid()
      modifies grid
      ensures Valid()
      ensures Cells(grid) == Randomized(rows, cols, aliveChance, draw)
      ensures unchanged(nextGrid)
    {
      ghost var want := Randomized(rows, cols, aliveChance, draw);
      for r := 0 to rows
        invariant forall i, j :: 0 <= i < r && 0 <= j < cols ==> grid[i, j] == want[i][j]
      {
        for c := 0 to cols
          invariant forall i, j :: 0 <= i < r && 0 <= j < cols ==> grid[i, j] == want[i][j]
          invariant forall j :: 0 <= j < c ==> grid[r, j] == want[r][j]
        {
          grid[r, c] := if draw(r, c) < aliveChance then 1 else 0;
        }
      }
      CellsAre(grid, want);
    }
  }
}
