/** Counting the live cells around a cell, with the grid's opposite edges
    treated as adjacent (a torus). */
module Neighbours {
  import opened Grid

  /** A cell position: column x, row y. */
  datatype Cell = Cell(x: int, y: int)

  predicate InGridCell(c: Cell) {
    InGrid(c.x, c.y)
  }

  /** The wrapped coordinate `(v + d + n) % n` of a neighbour at offset d.
      Adding n before the modulo keeps the operand non-negative, so the
      source's unsigned cast never sees a negative value. */
  function Wrap(v: int, d: int, n: int): (r: int)
    requires 0 <= v < n && -1 <= d <= 1
    ensures 0 <= r < n
    ensures r == if v + d < 0 then n - 1 else if v + d == n then 0 else v + d
  {
    (v + d + n) % n
  }

  /** The neighbour of (x, y) at offset (dx, dy), wrapped in both directions. */
  function Neighbour(x: int, y: int, dx: int, dy: int): (c: Cell)
    requires InGrid(x, y) && -1 <= dx <= 1 && -1 <= dy <= 1
    ensures InGridCell(c)
  {
    Cell(Wrap(x, dx, Width), Wrap(y, dy, Height))
  }

  /** The offsets of the k-th visited neighbour, k in [0, 8): the loops
      visit dy = -1, 0, 1 and within each dx = -1, 0, 1, skipping (0, 0). */
  function OffsetX(k: int): int { var t := if k < 4 then k else k + 1; t % 3 - 1 }
  function OffsetY(k: int): int { var t := if k < 4 then k else k + 1; t / 3 - 1 }

  /** The number of neighbours the loops have visited when they reach offset
      (dx, dy): the rows dy' < dy, then the columns dx' < dx, less (0, 0).
      For (dx, dy) != (0, 0) it is also the slot at which that offset is
      visited. */
  function Visits(dy: int, dx: int): int {
    var t := 3 * (dy + 1) + (dx + 1);
    if t <= 4 then t else t - 1
  }

  /** The k-th neighbour visited by `count_neighbors`. */
  function Visited(x: int, y: int, k: int): (c: Cell)
    requires InGrid(x, y) && 0 <= k < 8
    ensures InGridCell(c)
  {
    Neighbour(x, y, OffsetX(k), OffsetY(k))
  }

  function Bit(g: seq<bool>, c: Cell): nat
    requires |g| == Cells && InGridCell(c)
  {
    if g[Index(c.x, c.y)] then 1 else 0
  }

  /** Live cells among the first k visited neighbours. */
  function CountFirst(g: seq<bool>, x: int, y: int, k: nat): (n: nat)
    requires |g| == Cells && InGrid(x, y) && k <= 8
    ensures n <= k
  {
    if k == 0 then 0 else CountFirst(g, x, y, k - 1) + Bit(g, Visited(x, y, k - 1))
  }

  /** The number `count_neighbors` returns: the live cells among the eight
      wrapped neighbours. */
  function NeighbourCount(g: seq<bool>, x: int, y: int): nat
    requires |g| == Cells && InGrid(x, y)
  {
    CountFirst(g, x, y, 8)
  }

  // ----- An independent description of the neighbourhood -----

  /** a and b are at most one step apart on a cycle of length n. */
  predicate TorusAdjacent(a: int, b: int, n: int) {
    var d := a - b;
    -1 <= d <= 1 || d == n - 1 || d == 1 - n
  }

  /** The cells around (x, y) on the torus, excluding (x, y) itself. */
  function NeighbourCells(x: int, y: int): set<Cell> {
    set nx, ny | 0 <= nx < Width && 0 <= ny < Height && (nx != x || ny != y)
                 && TorusAdjacent(nx, x, Width) && TorusAdjacent(ny, y, Height) :: Cell(nx, ny)
  }

  /** The live cells around (x, y) on the torus. */
  function LiveNeighbourCells(g: seq<bool>, x: int, y: int): set<Cell>
    requires |g| == Cells
  {
    set c | c in NeighbourCells(x, y) && InGridCell(c) && g[Index(c.x, c.y)]
  }

  /** The live cells among the first k visited neighbours, as a set. */
  function LiveFirst(g: seq<bool>, x: int, y: int, k: nat): set<Cell>
    requires |g| == Cells && InGrid(x, y) && k <= 8
  {
    set s | 0 <= s < k && Bit(g, Visited(x, y, s)) == 1 :: Visited(x, y, s)
  }

  // ----- Lemmas -----

  /** Offset (dx, dy) != (0, 0) is visited at slot Visits(dy, dx). */
  lemma SlotOffsets(dx: int, dy: int)
    requires -1 <= dx <= 1 && -1 <= dy <= 1 && (dx != 0 || dy != 0)
    ensures 0 <= Visits(dy, dx) < 8
    ensures OffsetX(Visits(dy, dx)) == dx && OffsetY(Visits(dy, dx)) == dy
  {
  }

  /** The eight slots carry the eight offsets other than (0, 0), each once. */
  lemma OffsetsOfSlot(k: int)
    requires 0 <= k < 8
    ensures -1 <= OffsetX(k) <= 1 && -1 <= OffsetY(k) <= 1 && (OffsetX(k) != 0 || OffsetY(k) != 0)
    ensures Visits(OffsetY(k), OffsetX(k)) == k
  {
  }

  /** Different offsets wrap to different coordinates, since the grid is at least 3 wide. */
  lemma WrapInjective(v: int, d1: int, d2: int, n: int)
    requires n >= 3 && 0 <= v < n && -1 <= d1 <= 1 && -1 <= d2 <= 1
    ensures Wrap(v, d1, n) == Wrap(v, d2, n) <==> d1 == d2
  {
  }

  /** The source never visits a cell twice, and never visits the cell itself. */
  lemma VisitedDistinct(x: int, y: int, k1: int, k2: int)
    requires InGrid(x, y) && 0 <= k1 < 8 && 0 <= k2 < 8
    ensures Visited(x, y, k1) == Visited(x, y, k2) <==> k1 == k2
    ensures Visited(x, y, k1) != Cell(x, y)
  {
    OffsetsOfSlot(k1);
    OffsetsOfSlot(k2);
    WrapInjective(x, OffsetX(k1), OffsetX(k2), Width);
    WrapInjective(y, OffsetY(k1), OffsetY(k2), Height);
    WrapInjective(x, OffsetX(k1), 0, Width);
    WrapInjective(y, OffsetY(k1), 0, Height);
  }

  /** Each visited neighbour is a torus neighbour. */
  lemma VisitedIsNeighbourCell(x: int, y: int, k: int)
    requires InGrid(x, y) && 0 <= k < 8
    ensures Visited(x, y, k) in NeighbourCells(x, y)
  {
    var c := Visited(x, y, k);
    VisitedDistinct(x, y, k, k);
    assert 0 <= c.x < Width && 0 <= c.y < Height && (c.x != x || c.y != y);
    assert TorusAdjacent(c.x, x, Width) && TorusAdjacent(c.y, y, Height);
    assert c == Cell(c.x, c.y);
  }

  /** The offset d in {-1, 0, 1} that reaches a from b on a cycle of length n. */
  function AdjacentOffset(a: int, b: int, n: int): (d: int)
    requires n >= 3 && 0 <= a < n && 0 <= b < n && TorusAdjacent(a, b, n)
    ensures -1 <= d <= 1 && Wrap(b, d, n) == a
  {
    if a - b == n - 1 then -1 else if a - b == 1 - n then 1 else a - b
  }

  /** Each torus neighbour is visited, at the slot of its offset. */
  lemma NeighbourCellIsVisited(x: int, y: int, c: Cell)
    requires InGrid(x, y) && c in NeighbourCells(x, y)
    ensures var k := Visits(AdjacentOffset(c.y, y, Height), AdjacentOffset(c.x, x, Width));
            0 <= k < 8 && Visited(x, y, k) == c
  {
    var dx := AdjacentOffset(c.x, x, Width);
    var dy := AdjacentOffset(c.y, y, Height);
    SlotOffsets(dx, dy);
  }

  /** Over the visited neighbours, the running count is the size of the set of live ones. */
  lemma {:induction false} LiveFirstSize(g: seq<bool>, x: int, y: int, k: nat)
    requires |g| == Cells && InGrid(x, y) && k <= 8
    ensures |LiveFirst(g, x, y, k)| == CountFirst(g, x, y, k)
  {
    if k > 0 {
      LiveFirstSize(g, x, y, k - 1);
      var c := Visited(x, y, k - 1);
      forall s | 0 <= s < k - 1
        ensures Visited(x, y, s) != c
      {
        VisitedDistinct(x, y, s, k - 1);
      }
      var added: set<Cell> := if Bit(g, c) == 1 then {c} else {};
      forall e
        ensures e in LiveFirst(g, x, y, k) <==> e in LiveFirst(g, x, y, k - 1) || e in added
      {
      }
      assert LiveFirst(g, x, y, k) == LiveFirst(g, x, y, k - 1) + added;
    }
  }

  /** `count_neighbors` counts exactly the live cells of the torus neighbourhood. */
  lemma NeighbourCountIsLiveNeighbours(g: seq<bool>, x: int, y: int)
    requires |g| == Cells && InGrid(x, y)
    ensures NeighbourCount(g, x, y) == |LiveNeighbourCells(g, x, y)|
  {
    LiveFirstSize(g, x, y, 8);
    forall c | c in LiveNeighbourCells(g, x, y)
      ensures c in LiveFirst(g, x, y, 8)
    {
      NeighbourCellIsVisited(x, y, c);
    }
    forall k | 0 <= k < 8
      ensures Visited(x, y, k) in NeighbourCells(x, y)
    {
      VisitedIsNeighbourCell(x, y, k);
    }
    assert LiveFirst(g, x, y, 8) == LiveNeighbourCells(g, x, y);
  }

  /** Every cell has exactly eight torus neighbours. */
  lemma NeighbourCellsSize(x: int, y: int)
    requires InGrid(x, y)
    ensures |NeighbourCells(x, y)| == 8
  {
    var all := seq(Cells, _ => true);
    NeighbourCountIsLiveNeighbours(all, x, y);
    assert LiveNeighbourCells(all, x, y) == NeighbourCells(x, y);
    assert NeighbourCount(all, x, y) == 8 by {
      var k := 0;
      while k < 8
        invariant k <= 8 && CountFirst(all, x, y, k) == k
      {
        k := k + 1;
      }
    }
  }

  /** The state of the cell itself does not affect its count. */
  lemma NeighbourCountIgnoresSelf(g: seq<bool>, x: int, y: int, b: bool)
    requires |g| == Cells && InGrid(x, y)
    ensures NeighbourCount(g[Index(x, y) := b], x, y) == NeighbourCount(g, x, y)
  {
    var g' := g[Index(x, y) := b];
    forall c | c in NeighbourCells(x, y)
      ensures g'[Index(c.x, c.y)] == g[Index(c.x, c.y)]
    {
      IndexInjective(c.x, c.y, x, y);
    }
    assert LiveNeighbourCells(g', x, y) == LiveNeighbourCells(g, x, y);
    NeighbourCountIsLiveNeighbours(g, x, y);
    NeighbourCountIsLiveNeighbours(g', x, y);
  }

  /** Wraparound: in the first column the neighbours to the left are in the
      last column, in the last column those to the right are in the first,
      and likewise for the first and last rows. */
  lemma EdgesWrap(x: int, y: int, d: int)
    requires InGrid(x, y) && -1 <= d <= 1
    ensures x == 0 ==> Visited(x, y, Visits(d, -1)).x == Width - 1
    ensures x == Width - 1 ==> Visited(x, y, Visits(d, 1)).x == 0
    ensures y == 0 ==> Visited(x, y, Visits(-1, d)).y == Height - 1
    ensures y == Height - 1 ==> Visited(x, y, Visits(1, d)).y == 0
  {
    if x == 0 {
      SlotOffsets(-1, d);
    }
    if x == Width - 1 {
      SlotOffsets(1, d);
    }
    if y == 0 {
      SlotOffsets(d, -1);
    }
    if y == Height - 1 {
      SlotOffsets(d, 1);
    }
  }

  /** The loops at offset (dx, dy) visit the next slot, and compute its
      wrapped coordinates with the source's expression. */
  lemma VisitOrder(x: int, y: int, dx: int, dy: int)
    requires InGrid(x, y) && -1 <= dx <= 1 && -1 <= dy <= 1 && (dx != 0 || dy != 0)
    ensures 0 <= Visits(dy, dx) < 8 && Visits(dy, dx + 1) == Visits(dy, dx) + 1
    ensures Visited(x, y, Visits(dy, dx)) == Cell((x + dx + Width) % Width, (y + dy + Height) % Height)
  {
    SlotOffsets(dx, dy);
  }

  /** At offset (dx, dy) the loops add the bit of the cell at the source's
      wrapped coordinates to the running count. */
  lemma VisitStep(g: seq<bool>, x: int, y: int, dx: int, dy: int)
    requires |g| == Cells && InGrid(x, y) && -1 <= dx <= 1 && -1 <= dy <= 1 && (dx != 0 || dy != 0)
    ensures var nx := (x + dx + Width) % Width;
            var ny := (y + dy + Height) % Height;
            InGrid(nx, ny) &&
            CountFirst(g, x, y, Visits(dy, dx + 1)) ==
              CountFirst(g, x, y, Visits(dy, dx)) + if g[Index(nx, ny)] then 1 else 0
  {
    VisitOrder(x, y, dx, dy);
  }

  /** `count_neighbors`: the live cells among the eight wrapped neighbours of
      (x, y), visited by two nested loops over the offsets -1, 0, 1. */
  method CountNeighbors(grid: seq<bool>, x: int, y: int) returns (c: nat)
    requires |grid| == Cells && InGrid(x, y)
    ensures c == NeighbourCount(grid, x, y)
    ensures c == |LiveNeighbourCells(grid, x, y)|
    ensures c <= 8
  {
    c := 0;
    for dy := -1 to 2
      invariant c == CountFirst(grid, x, y, Visits(dy, -1))
    {
      for dx := -1 to 2
        invariant c == CountFirst(grid, x, y, Visits(dy, dx))
      {
        if dx == 0 && dy == 0 {
          continue;
        }
        var nx := (x + dx + Width) % Width;
        var ny := (y + dy + Height) % Height;
        VisitStep(grid, x, y, dx, dy);
        if grid[Index(nx, ny)] {
          c := c + 1;
        }
      }
    }
    NeighbourCountIsLiveNeighbours(grid, x, y);
  }
}
