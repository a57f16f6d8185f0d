/** The cell matrix shared by the engine, the pattern stamper and the driver:
    a row-major matrix of integer cells in which every nonzero cell is alive. */
module Grids {

  /** A value snapshot of the matrix, indexed `g[row][col]`. */
  type Grid = seq<seq<int>>

  /** `g` has exactly `rows` rows of exactly `cols` cells each. */
  ghost predicate WellFormed(g: Grid, rows: int, cols: int) {
    |g| == rows && forall r :: 0 <= r < |g| ==> |g[r]| == cols
  }

  /** Every cell of `g` is 0 or 1, the only values the engine writes. */
  ghost predicate Binary(g: Grid) {
    forall r, c :: 0 <= r < |g| && 0 <= c < |g[r]| ==> g[r][c] == 0 || g[r][c] == 1
  }

  /** Every cell of `g` is dead. */
  ghost predicate AllDead(g: Grid) {
    forall r, c :: 0 <= r < |g| && 0 <= c < |g[r]| ==> g[r][c] == 0
  }

  /** A `rows` by `cols` matrix of zeros: a new grid, or one just cleared. */
  function Zeros(rows: nat, cols: nat): (g: Grid)
    ensures WellFormed(g, rows, cols) && AllDead(g)
  {
    seq(rows, r => seq(cols, c => 0))
  }

  /** Cell (`r`, `c`) is inside `g` and alive. Positions outside the matrix are dead. */
  predicate LiveAt(g: Grid, r: int, c: int) {
    0 <= r < |g| && 0 <= c < |g[r]| && g[r][c] != 0
  }

  /** The contents of a heap matrix, as a value. */
  ghost function Cells(a: array2<int>): (g: Grid)
    reads a
    ensures WellFormed(g, a.Length0, a.Length1)
  {
    seq(a.Length0, r requires 0 <= r < a.Length0 reads a =>
      seq(a.Length1, c requires 0 <= c < a.Length1 reads a => a[r, c]))
  }

  /** A heap matrix whose cells agree with a well-formed value of its shape has that value as contents. */
  lemma CellsAre(a: array2<int>, g: Grid)
    requires WellFormed(g, a.Length0, a.Length1)
    requires forall r, c :: 0 <= r < a.Length0 && 0 <= c < a.Length1 ==> a[r, c] == g[r][c]
    ensures Cells(a) == g
  {
    var s := Cells(a);
    forall r | 0 <= r < |g|
      ensures s[r] == g[r]
    {
    }
  }
}
