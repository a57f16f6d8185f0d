/** Conway's B3/S23 rule on a bounded, non-wrapping grid, as values.
    The engine in engine.dfy is proved to compute exactly `NextGen`. */
module LifeRules {
  import opened Grids

  /** 1 when (`r`, `c`) is an alive cell inside `g`, 0 otherwise. */
  function Alive01(g: Grid, r: int, c: int): (n: nat)
    ensures n <= 1 && (n == 1 <==> LiveAt(g, r, c))
  {
    if LiveAt(g, r, c) then 1 else 0
  }

  /** The reference count: the alive cells among the eight Moore neighbours of
      (`r`, `c`), written out one by one; neighbours outside the grid count as dead. */
  function MooreSum(g: Grid, r: int, c: int): (n: nat)
    ensures n <= 8
  {
    Alive01(g, r - 1, c - 1) + Alive01(g, r - 1, c) + Alive01(g, r - 1, c + 1) +
    Alive01(g, r, c - 1)                            + Alive01(g, r, c + 1) +
    Alive01(g, r + 1, c - 1) + Alive01(g, r + 1, c) + Alive01(g, r + 1, c + 1)
  }

  /** The contribution of offset (`dr`, `dc`) in the neighbour scan: the centre itself never counts. */
  function Probe(g: Grid, r: int, c: int, dr: int, dc: int): nat {
    if dr == 0 && dc == 0 then 0 else Alive01(g, r + dr, c + dc)
  }

  /** What the scan of row offset `dr` has counted once its first `k` column offsets
      (`dc` = -1, 0, 1 in turn) are done; in the middle row the centre is skipped. */
  function RowProbes(g: Grid, r: int, c: int, dr: int, k: nat): (n: nat)
    requires k <= 3
    ensures n <= (if dr == 0 && k >= 2 then k - 1 else k)
  {
    if k == 0 then 0 else RowProbes(g, r, c, dr, k - 1) + Probe(g, r, c, dr, k - 2)
  }

  /** What the scan has counted once its first `m` row offsets (`dr` = -1, 0, 1 in turn) are done. */
  function ScanProbes(g: Grid, r: int, c: int, m: nat): (n: nat)
    requires m <= 3
    ensures n <= (if m >= 2 then 3 * m - 1 else 3 * m)
  {
    if m == 0 then 0 else ScanProbes(g, r, c, m - 1) + RowProbes(g, r, c, m - 2, 3)
  }

  /** The number of alive neighbours of (`r`, `c`), counted row offset by row offset
      in the order the engine scans them; at most 8. */
  function Neighbors(g: Grid, r: int, c: int): (n: nat)
    ensures n <= 8
  {
    ScanProbes(g, r, c, 3)
  }

  /** The scan counts exactly the eight Moore neighbours. */
  lemma {:induction false} NeighborsIsMooreSum(g: Grid, r: int, c: int)
    ensures Neighbors(g, r, c) == MooreSum(g, r, c)
  {
    assert RowProbes(g, r, c, -1, 3) ==
      Alive01(g, r - 1, c - 1) + Alive01(g, r - 1, c) + Alive01(g, r - 1, c + 1) by {
      assert RowProbes(g, r, c, -1, 2) == Alive01(g, r - 1, c - 1) + Alive01(g, r - 1, c) by {
        assert RowProbes(g, r, c, -1, 1) == Alive01(g, r - 1, c - 1);
      }
    }
    assert RowProbes(g, r, c, 0, 3) == Alive01(g, r, c - 1) + Alive01(g, r, c + 1) by {
      assert RowProbes(g, r, c, 0, 2) == Alive01(g, r, c - 1) by {
        assert RowProbes(g, r, c, 0, 1) == Alive01(g, r, c - 1);
      }
    }
    assert RowProbes(g, r, c, 1, 3) ==
      Alive01(g, r + 1, c - 1) + Alive01(g, r + 1, c) + Alive01(g, r + 1, c + 1) by {
      assert RowProbes(g, r, c, 1, 2) == Alive01(g, r + 1, c - 1) + Alive01(g, r + 1, c) by {
        assert RowProbes(g, r, c, 1, 1) == Alive01(g, r + 1, c - 1);
      }
    }
    assert ScanProbes(g, r, c, 1) == RowProbes(g, r, c, -1, 3);
    assert ScanProbes(g, r, c, 2) == ScanProbes(g, r, c, 1) + RowProbes(g, r, c, 0, 3);
    assert ScanProbes(g, r, c, 3) == ScanProbes(g, r, c, 2) + RowProbes(g, r, c, 1, 3);
  }

  /** The B3/S23 rule for one cell: a live cell survives with 2 or 3 live
      neighbours, a dead cell is born with exactly 3, everything else is dead. */
  function NextCell(alive: bool, n: int): (v: int)
    ensures v == 0 || v == 1
    ensures v == 1 <==> (alive && (n == 2 || n == 3)) || (!alive && n == 3)
  {
    if alive then (if n == 2 || n == 3 then 1 else 0)
    else (if n == 3 then 1 else 0)
  }

  /** The next state of cell (`r`, `c`) of `g`. */
  function NextAt(g: Grid, r: int, c: int): int
    requires 0 <= r < |g| && 0 <= c < |g[r]|
  {
    NextCell(g[r][c] != 0, Neighbors(g, r, c))
  }

  /** The next generation of `g`: every cell computed from `g` alone. */
  function NextGen(g: Grid): (h: Grid)
    ensures |h| == |g| && forall r :: 0 <= r < |g| ==> |h[r]| == |g[r]|
    ensures forall r, c :: 0 <= r < |g| && 0 <= c < |g[r]| ==> h[r][c] == NextAt(g, r, c)
  {
    seq(|g|, r requires 0 <= r < |g| => seq(|g[r]|, c requires 0 <= c < |g[r]| => NextAt(g, r, c)))
  }

  /** Advancing keeps the shape of the grid and writes only 0s and 1s. */
  lemma NextGenShape(g: Grid, rows: int, cols: int)
    requires WellFormed(g, rows, cols)
    ensures WellFormed(NextGen(g), rows, cols) && Binary(NextGen(g))
  {
  }

  /** The rule, cell by cell, over the eight Moore neighbours: a cell is alive in the next
      generation iff it was alive with 2 or 3 live neighbours or was dead with exactly 3;
      every other cell is 0. */
  lemma NextGenRule(g: Grid, r: int, c: int)
    requires 0 <= r < |g| && 0 <= c < |g[r]|
    ensures var n := MooreSum(g, r, c);
      NextGen(g)[r][c] == (if (g[r][c] != 0 && (n == 2 || n == 3)) || (g[r][c] == 0 && n == 3) then 1 else 0)
  {
    NeighborsIsMooreSum(g, r, c);
  }

  /** Two grids of the same shape that agree on the 3 by 3 block around (`r`, `c`)
      give the same next state at (`r`, `c`): a new cell depends on its old neighbourhood only. */
  lemma NextGenIsLocal(g: Grid, h: Grid, r: int, c: int)
    requires |g| == |h| && forall i :: 0 <= i < |g| ==> |g[i]| == |h[i]|
    requires 0 <= r < |g| && 0 <= c < |g[r]|
    requires forall i, j :: r - 1 <= i <= r + 1 && c - 1 <= j <= c + 1 ==> LiveAt(g, i, j) == LiveAt(h, i, j)
    ensures NextGen(g)[r][c] == NextGen(h)[r][c]
  {
    NeighborsIsMooreSum(g, r, c);
    NeighborsIsMooreSum(h, r, c);
    assert LiveAt(g, r, c) == LiveAt(h, r, c);
    assert LiveAt(g, r - 1, c - 1) == LiveAt(h, r - 1, c - 1);
    assert LiveAt(g, r - 1, c) == LiveAt(h, r - 1, c);
    assert LiveAt(g, r - 1, c + 1) == LiveAt(h, r - 1, c + 1);
    assert LiveAt(g, r, c - 1) == LiveAt(h, r, c - 1);
    assert LiveAt(g, r, c + 1) == LiveAt(h, r, c + 1);
    assert LiveAt(g, r + 1, c - 1) == LiveAt(h, r + 1, c - 1);
    assert LiveAt(g, r + 1, c) == LiveAt(h, r + 1, c);
    assert LiveAt(g, r + 1, c + 1) == LiveAt(h, r + 1, c + 1);
  }

  /** No spontaneous generation: an all-dead grid stays all-dead. */
  lemma AllDeadStaysDead(g: Grid)
    requires AllDead(g)
    ensures AllDead(NextGen(g))
  {
    forall r, c | 0 <= r < |g| && 0 <= c < |g[r]|
      ensures NextGen(g)[r][c] == 0
    {
      NeighborsIsMooreSum(g, r, c);
    }
  }

  /** A live cell with no live neighbour dies of isolation. */
  lemma IsolatedCellDies(g: Grid, r: int, c: int)
    requires 0 <= r < |g| && 0 <= c < |g[r]| && g[r][c] != 0
    requires forall i, j :: r - 1 <= i <= r + 1 && c - 1 <= j <= c + 1 && (i, j) != (r, c) ==> !LiveAt(g, i, j)
    ensures NextGen(g)[r][c] == 0
  {
    NeighborsIsMooreSum(g, r, c);
    assert !LiveAt(g, r - 1, c - 1) && !LiveAt(g, r - 1, c) && !LiveAt(g, r - 1, c + 1);
    assert !LiveAt(g, r, c - 1) && !LiveAt(g, r, c + 1);
    assert !LiveAt(g, r + 1, c - 1) && !LiveAt(g, r + 1, c) && !LiveAt(g, r + 1, c + 1);
  }
}
