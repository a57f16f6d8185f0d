/** The still life and the oscillator used to exercise the rule: the 2 by 2
    block, and the three-cell blinker that alternates between a horizontal and a vertical bar. */
module LifeShapes {
  import opened Grids
  import opened LifeRules

  /** The live cells of `g` are exactly those for which `live` holds. */
  ghost predicate Shows(g: Grid, live: (int, int) -> bool) {
    forall r, c :: 0 <= r < |g| && 0 <= c < |g[r]| ==> g[r][c] == if live(r, c) then 1 else 0
  }

  /** The 2 by 2 block whose top-left cell is (`a`, `b`). */
  function Block(a: int, b: int): (int, int) -> bool {
    (r: int, c: int) => a <= r <= a + 1 && b <= c <= b + 1
  }

  /** The horizontal blinker phase: three cells of row `a` centred on column `b`. */
  function HorizontalBar(a: int, b: int): (int, int) -> bool {
    (r: int, c: int) => r == a && b - 1 <= c <= b + 1
  }

  /** The vertical blinker phase: three cells of column `b` centred on row `a`. */
  function VerticalBar(a: int, b: int): (int, int) -> bool {
    (r: int, c: int) => c == b && a - 1 <= r <= a + 1
  }

  /** When every live position of a shape lies inside the grid, the alive positions
      of the grid, inside or outside it, are exactly the shape. */
  lemma LiveAtShows(g: Grid, rows: int, cols: int, live: (int, int) -> bool)
    requires WellFormed(g, rows, cols) && Shows(g, live)
    requires forall r, c :: live(r, c) ==> 0 <= r < rows && 0 <= c < cols
    ensures forall r, c :: LiveAt(g, r, c) == live(r, c)
  {
  }

  /** Two well-formed grids of one shape that agree cell by cell are equal. */
  lemma SameCells(g: Grid, h: Grid, rows: int, cols: int)
    requires WellFormed(g, rows, cols) && WellFormed(h, rows, cols)
    requires forall r, c :: 0 <= r < rows && 0 <= c < cols ==> g[r][c] == h[r][c]
    ensures g == h
  {
    forall r | 0 <= r < rows
      ensures g[r] == h[r]
    {
    }
  }

  /** A block with no other live cell is a still life: stepping leaves the grid unchanged. */
  lemma {:induction false} BlockIsStillLife(g: Grid, rows: int, cols: int, a: int, b: int)
    requires WellFormed(g, rows, cols)
    requires 0 <= a && a + 1 < rows && 0 <= b && b + 1 < cols
    requires Shows(g, Block(a, b))
    ensures NextGen(g) == g
  {
    LiveAtShows(g, rows, cols, Block(a, b));
    NextGenShape(g, rows, cols);
    forall r, c | 0 <= r < rows && 0 <= c < cols
      ensures NextGen(g)[r][c] == g[r][c]
    {
      NextGenRule(g, r, c);
    }
    SameCells(NextGen(g), g, rows, cols);
  }

  /** Neighbour counts around a horizontal bar: 2 for its middle cell, 1 for its ends,
      3 for the cells just above and below the middle, and never 3 anywhere else. */
  lemma HorizontalBarNeighbors(g: Grid, a: int, b: int, r: int, c: int)
    requires forall x, y :: LiveAt(g, x, y) == (x == a && b - 1 <= y <= b + 1)
    ensures var n := MooreSum(g, r, c);
      (r == a && c == b ==> n == 2) &&
      (r == a && (c == b - 1 || c == b + 1) ==> n == 1) &&
      ((r == a - 1 || r == a + 1) && c == b ==> n == 3) &&
      (!((r == a - 1 || r == a + 1) && c == b) ==> n != 3)
  {
    if r == a - 1 || r == a + 1 {
      if c == b - 2 || c == b + 2 {
      } else if c == b - 1 || c == b + 1 {
      } else if c == b {
      }
    } else if r == a {
    }
  }

  /** Neighbour counts around a vertical bar, the transpose of `HorizontalBarNeighbors`. */
  lemma VerticalBarNeighbors(g: Grid, a: int, b: int, r: int, c: int)
    requires forall x, y :: LiveAt(g, x, y) == (y == b && a - 1 <= x <= a + 1)
    ensures var n := MooreSum(g, r, c);
      (r == a && c == b ==> n == 2) &&
      ((r == a - 1 || r == a + 1) && c == b ==> n == 1) &&
      (r == a && (c == b - 1 || c == b + 1) ==> n == 3) &&
      (!(r == a && (c == b - 1 || c == b + 1)) ==> n != 3)
  {
    if c == b - 1 || c == b + 1 {
      if r == a - 2 || r == a + 2 {
      } else if r == a - 1 || r == a + 1 {
      } else if r == a {
      }
    } else if c == b {
    }
  }

  /** One cell of the step after a horizontal bar. */
  lemma HorizontalBarNext(g: Grid, a: int, b: int, r: int, c: int)
    requires forall x, y :: LiveAt(g, x, y) == (x == a && b - 1 <= y <= b + 1)
    requires 0 <= r < |g| && 0 <= c < |g[r]|
    ensures NextGen(g)[r][c] == if c == b && a - 1 <= r <= a + 1 then 1 else 0
  {
    NextGenRule(g, r, c);
    HorizontalBarNeighbors(g, a, b, r, c);
    assert LiveAt(g, r, c) == (g[r][c] != 0);
  }

  /** One cell of the step after a vertical bar. */
  lemma VerticalBarNext(g: Grid, a: int, b: int, r: int, c: int)
    requires forall x, y :: LiveAt(g, x, y) == (y == b && a - 1 <= x <= a + 1)
    requires 0 <= r < |g| && 0 <= c < |g[r]|
    ensures NextGen(g)[r][c] == if r == a && b - 1 <= c <= b + 1 then 1 else 0
  {
    NextGenRule(g, r, c);
    VerticalBarNeighbors(g, a, b, r, c);
    assert LiveAt(g, r, c) == (g[r][c] != 0);
  }

  /** A horizontal blinker turns into the vertical bar through the same centre. */
  lemma {:induction false} HorizontalBlinkerTurns(g: Grid, rows: int, cols: int, a: int, b: int)
    requires WellFormed(g, rows, cols)
    requires 1 <= a && a + 1 < rows && 1 <= b && b + 1 < cols
    requires Shows(g, HorizontalBar(a, b))
    ensures Shows(NextGen(g), VerticalBar(a, b)) && WellFormed(NextGen(g), rows, cols)
  {
    LiveAtShows(g, rows, cols, HorizontalBar(a, b));
    NextGenShape(g, rows, cols);
    forall r, c | 0 <= r < rows && 0 <= c < cols
      ensures NextGen(g)[r][c] == if VerticalBar(a, b)(r, c) then 1 else 0
    {
      HorizontalBarNext(g, a, b, r, c);
    }
  }

  /** A vertical blinker turns into the horizontal bar through the same centre. */
  lemma {:induction false} VerticalBlinkerTurns(g: Grid, rows: int, cols: int, a: int, b: int)
    requires WellFormed(g, rows, cols)
    requires 1 <= a && a + 1 < rows && 1 <= b && b + 1 < cols
    requires Shows(g, VerticalBar(a, b))
    ensures Shows(NextGen(g), HorizontalBar(a, b)) && WellFormed(NextGen(g), rows, cols)
  {
    LiveAtShows(g, rows, cols, VerticalBar(a, b));
    NextGenShape(g, rows, cols);
    forall r, c | 0 <= r < rows && 0 <= c < cols
      ensures NextGen(g)[r][c] == if HorizontalBar(a, b)(r, c) then 1 else 0
    {
      VerticalBarNext(g, a, b, r, c);
    }
  }

  /** The blinker has period 2: two steps give back the original grid, and one step does not. */
  lemma {:induction false} BlinkerHasPeriodTwo(g: Grid, rows: int, cols: int, a: int, b: int)
    requires WellFormed(g, rows, cols)
    requires 1 <= a && a + 1 < rows && 1 <= b && b + 1 < cols
    requires Shows(g, HorizontalBar(a, b))
    ensures NextGen(NextGen(g)) == g
    ensures NextGen(g) != g
  {
    HorizontalBlinkerTurns(g, rows, cols, a, b);
    VerticalBlinkerTurns(NextGen(g), rows, cols, a, b);
    var h := NextGen(NextGen(g));
    forall r, c | 0 <= r < rows && 0 <= c < cols
      ensures h[r][c] == g[r][c]
    {
    }
    SameCells(h, g, rows, cols);
    assert NextGen(g)[a - 1][b] == 1 && g[a - 1][b] == 0;
  }
}
