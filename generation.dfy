/** One generation of the automaton: the birth/survival rule applied to every
    cell at once, read from `grid` and written to `next`. */
module Generation {
  import opened Grid
  import opened Neighbours

  /** The rule of the source's `match (alive, n)`: a live cell with two or
      three live neighbours survives, a dead cell with exactly three is born,
      every other cell is dead in the next generation. */
  function NextState(alive: bool, n: nat): (r: bool)
    ensures r <==> n == 3 || (alive && n == 2)
    ensures r ==> 2 <= n <= 3
  {
    match (alive, n)
    case (true, 2) => true
    case (true, 3) => true
    case (false, 3) => true
    case _ => false
  }

  /** The rule as survival and birth conditions. */
  lemma NextStateRule(alive: bool, n: nat)
    ensures alive ==> (NextState(alive, n) <==> n == 2 || n == 3)
    ensures !alive ==> (NextState(alive, n) <==> n == 3)
  {
  }

  /** The generation that follows g: every cell's next state from its own
      state and its wrapped neighbour count in g. */
  function NextGeneration(g: seq<bool>): (r: seq<bool>)
    requires |g| == Cells
    ensures |r| == Cells
  {
    seq(Cells, i requires 0 <= i < Cells => NextCell(g, i))
  }

  /** The next state of the cell in slot i of g. */
  function NextCell(g: seq<bool>, i: int): bool
    requires |g| == Cells && 0 <= i < Cells
  {
    IndexOnto(i);
    NextState(g[i], NeighbourCount(g, ColumnOf(i), RowOf(i)))
  }

  /** The next state of cell (x, y) sits in its own slot. */
  lemma GenerationAt(g: seq<bool>, x: int, y: int)
    requires |g| == Cells && InGrid(x, y)
    ensures 0 <= Index(x, y) < Cells
    ensures NextGeneration(g)[Index(x, y)] == NextState(g[Index(x, y)], NeighbourCount(g, x, y))
  {
    IndexInRange(x, y);
  }

  /** Per cell, the next generation follows the rule over the live torus
      neighbours of the current one. */
  lemma GenerationRule(g: seq<bool>, x: int, y: int)
    requires |g| == Cells && InGrid(x, y)
    ensures var n := |LiveNeighbourCells(g, x, y)|;
            NextGeneration(g)[Index(x, y)] <==>
              (g[Index(x, y)] && (n == 2 || n == 3)) || (!g[Index(x, y)] && n == 3)
  {
    GenerationAt(g, x, y);
    NeighbourCountIsLiveNeighbours(g, x, y);
  }

  /** The step loop of the source: scans the cells row by row, counts each
      cell's neighbours in `grid` and writes its next state into `next`.
      `grid` is only read. */
  method ComputeNext(grid: array<bool>, next: array<bool>)
    requires grid.Length == Cells && next.Length == Cells && grid != next
    modifies next
    ensures next[..] == NextGeneration(grid[..])
  {
    ghost var g := grid[..];
    for y := 0 to Height
      invariant grid[..] == g
      invariant forall i :: 0 <= i < y * Width ==> next[i] == NextCell(g, i)
    {
      for x := 0 to Width
        invariant grid[..] == g
        invariant forall i :: 0 <= i < y * Width + x ==> next[i] == NextCell(g, i)
      {
        var idx := Index(x, y);
        var alive := grid[idx];
        var n := CountNeighbors(grid[..], x, y);
        IndexInRange(x, y);
        next[idx] := NextState(alive, n);
      }
    }
  }

  /** k generations from g. */
  function Evolve(g: seq<bool>, k: nat): (r: seq<bool>)
    requires |g| == Cells
    ensures |r| == Cells
  {
    if k == 0 then g else NextGeneration(Evolve(g, k - 1))
  }

  lemma {:induction false} DeadCount(x: int, y: int, k: nat)
    requires InGrid(x, y) && k <= 8
    ensures CountFirst(Dead(), x, y, k) == 0
  {
    if k > 0 {
      DeadCount(x, y, k - 1);
    }
  }

  /** A grid its own next generation (a still life) stays as it is. */
  lemma {:induction false} StillLifeForever(g: seq<bool>, k: nat)
    requires |g| == Cells && NextGeneration(g) == g
    ensures Evolve(g, k) == g
  {
    if k > 0 {
      StillLifeForever(g, k - 1);
      calc {
        Evolve(g, k);
        NextGeneration(Evolve(g, k - 1));
        NextGeneration(g);
      }
    }
  }

  /** An all-dead grid has no live neighbours anywhere, so it stays all-dead. */
  lemma DeadStaysDead()
    ensures NextGeneration(Dead()) == Dead()
  {
    forall i | 0 <= i < Cells
      ensures !NextGeneration(Dead())[i]
    {
      IndexOnto(i);
      DeadCount(ColumnOf(i), RowOf(i), 8);
    }
  }

  /** ... after any number of generations. */
  lemma DeadStaysDeadForever(k: nat)
    ensures Evolve(Dead(), k) == Dead()
  {
    DeadStaysDead();
    StillLifeForever(Dead(), k);
  }
}
