/** Small patterns whose evolution under the rule is known, each placed on an
    otherwise dead grid: the block, a still life, and the blinker, an
    oscillator of period 2. */
module Oscillators {
  import opened Grid
  import opened Neighbours
  import opened Generation
  import Patterns

  /** The grid whose live cells are exactly `cells`. */
  function FromCells(cells: seq<Cell>): (g: seq<bool>)
    ensures |g| == Cells
  {
    seq(Cells, i requires 0 <= i < Cells => IndexOnto(i); Cell(ColumnOf(i), RowOf(i)) in cells)
  }

  lemma FromCellsAt(cells: seq<Cell>, x: int, y: int)
    requires InGrid(x, y)
    ensures 0 <= Index(x, y) < Cells
    ensures FromCells(cells)[Index(x, y)] <==> Cell(x, y) in cells
  {
    IndexInRange(x, y);
  }

  /** c is one of the eight torus neighbours of (x, y). */
  predicate Adjacent(c: Cell, x: int, y: int) {
    c != Cell(x, y) && TorusAdjacent(c.x, x, Width) && TorusAdjacent(c.y, y, Height)
  }

  /** How many of the first n of `cells` are neighbours of (x, y). */
  function NearFirst(cells: seq<Cell>, n: nat, x: int, y: int): nat
    requires n <= |cells|
  {
    if n == 0 then 0
    else NearFirst(cells, n - 1, x, y) + if Adjacent(cells[n - 1], x, y) then 1 else 0
  }

  function Near(cells: seq<Cell>, x: int, y: int): nat {
    NearFirst(cells, |cells|, x, y)
  }

  predicate Distinct(cells: seq<Cell>) {
    forall i, j :: 0 <= i < j < |cells| ==> cells[i] != cells[j]
  }

  predicate OnGrid(cells: seq<Cell>) {
    forall k :: 0 <= k < |cells| ==> InGridCell(cells[k])
  }

  /** NearFirst counts the set of neighbours among the first n of `cells`. */
  lemma {:induction false} NearFirstIsSize(cells: seq<Cell>, n: nat, x: int, y: int)
    requires n <= |cells| && Distinct(cells)
    ensures NearFirst(cells, n, x, y) == |set c | c in cells[..n] && Adjacent(c, x, y)|
  {
    if n > 0 {
      NearFirstIsSize(cells, n - 1, x, y);
      var p := cells[n - 1];
      assert cells[..n] == cells[..n - 1] + [p];
      assert p !in cells[..n - 1];
      var before := set c | c in cells[..n - 1] && Adjacent(c, x, y);
      if Adjacent(p, x, y) {
        assert (set c | c in cells[..n] && Adjacent(c, x, y)) == before + {p};
      } else {
        assert (set c | c in cells[..n] && Adjacent(c, x, y)) == before;
      }
    }
  }

  /** On a grid whose live cells are `cells`, the neighbour count of a cell
      is the number of `cells` around it. */
  lemma CountNear(cells: seq<Cell>, x: int, y: int)
    requires InGrid(x, y) && Distinct(cells) && OnGrid(cells)
    ensures NeighbourCount(FromCells(cells), x, y) == Near(cells, x, y)
  {
    var g := FromCells(cells);
    NeighbourCountIsLiveNeighbours(g, x, y);
    NearFirstIsSize(cells, |cells|, x, y);
    assert cells[..|cells|] == cells;
    forall c | c in LiveNeighbourCells(g, x, y)
      ensures c in cells && Adjacent(c, x, y)
    {
      FromCellsAt(cells, c.x, c.y);
    }
    forall c | c in cells && Adjacent(c, x, y)
      ensures c in LiveNeighbourCells(g, x, y)
    {
      FromCellsAt(cells, c.x, c.y);
    }
    assert LiveNeighbourCells(g, x, y) == set c | c in cells && Adjacent(c, x, y);
  }

  /** A cell with no live cell within one step on the torus has no live
      neighbours, and is dead itself. */
  lemma Isolated(cells: seq<Cell>, x: int, y: int)
    requires InGrid(x, y)
    requires forall c :: c in cells ==> !(TorusAdjacent(c.x, x, Width) && TorusAdjacent(c.y, y, Height))
    ensures NeighbourCount(FromCells(cells), x, y) == 0
    ensures Cell(x, y) !in cells
  {
    var g := FromCells(cells);
    NeighbourCountIsLiveNeighbours(g, x, y);
    forall c | c in LiveNeighbourCells(g, x, y)
      ensures false
    {
      FromCellsAt(cells, c.x, c.y);
    }
    assert LiveNeighbourCells(g, x, y) == {};
  }

  /** Per cell, the next generation of a grid whose live cells are `cells`
      follows the rule over the number of `cells` around it. */
  lemma NextFromCells(cells: seq<Cell>, x: int, y: int)
    requires InGrid(x, y) && Distinct(cells) && OnGrid(cells)
    ensures 0 <= Index(x, y) < Cells
    ensures NextGeneration(FromCells(cells))[Index(x, y)] == NextState(Cell(x, y) in cells, Near(cells, x, y))
  {
    GenerationAt(FromCells(cells), x, y);
    FromCellsAt(cells, x, y);
    CountNear(cells, x, y);
  }

  // ----- The block -----

  /** A 2x2 block of live cells. */
  const BlockCells: seq<Cell> := [Cell(49, 49), Cell(50, 49), Cell(49, 50), Cell(50, 50)]

  /** Neighbour counts along one row of the window around the block. */
  lemma BlockRow48()
    ensures Near(BlockCells, 48, 48) == 1 && Near(BlockCells, 49, 48) == 2 && Near(BlockCells, 50, 48) == 2 && Near(BlockCells, 51, 48) == 1
  {
    assert NearFirst([Cell(49, 49), Cell(50, 49), Cell(49, 50), Cell(50, 50)], 4, 48, 48) == 1;
    assert NearFirst([Cell(49, 49), Cell(50, 49), Cell(49, 50), Cell(50, 50)], 4, 49, 48) == 2;
    assert NearFirst([Cell(49, 49), Cell(50, 49), Cell(49, 50), Cell(50, 50)], 4, 50, 48) == 2;
    assert NearFirst([Cell(49, 49), Cell(50, 49), Cell(49, 50), Cell(50, 50)], 4, 51, 48) == 1;
  }

  lemma BlockRow49()
    ensures Near(BlockCells, 48, 49) == 2 && Near(BlockCells, 49, 49) == 3 && Near(BlockCells, 50, 49) == 3 && Near(BlockCells, 51, 49) == 2
  {
    assert NearFirst([Cell(49, 49), Cell(50, 49), Cell(49, 50), Cell(50, 50)], 4, 48, 49) == 2;
    assert NearFirst([Cell(49, 49), Cell(50, 49), Cell(49, 50), Cell(50, 50)], 4, 49, 49) == 3;
    assert NearFirst([Cell(49, 49), Cell(50, 49), Cell(49, 50), Cell(50, 50)], 4, 50, 49) == 3;
    assert NearFirst([Cell(49, 49), Cell(50, 49), Cell(49, 50), Cell(50, 50)], 4, 51, 49) == 2;
  }

  lemma BlockRow50()
    ensures Near(BlockCells, 48, 50) == 2 && Near(BlockCells, 49, 50) == 3 && Near(BlockCells, 50, 50) == 3 && Near(BlockCells, 51, 50) == 2
  {
    assert NearFirst([Cell(49, 49), Cell(50, 49), Cell(49, 50), Cell(50, 50)], 4, 48, 50) == 2;
    assert NearFirst([Cell(49, 49), Cell(50, 49), Cell(49, 50), Cell(50, 50)], 4, 49, 50) == 3;
    assert NearFirst([Cell(49, 49), Cell(50, 49), Cell(49, 50), Cell(50, 50)], 4, 50, 50) == 3;
    assert NearFirst([Cell(49, 49), Cell(50, 49), Cell(49, 50), Cell(50, 50)], 4, 51, 50) == 2;
  }

  lemma BlockRow51()
    ensures Near(BlockCells, 48, 51) == 1 && Near(BlockCells, 49, 51) == 2 && Near(BlockCells, 50, 51) == 2 && Near(BlockCells, 51, 51) == 1
  {
    assert NearFirst([Cell(49, 49), Cell(50, 49), Cell(49, 50), Cell(50, 50)], 4, 48, 51) == 1;
    assert NearFirst([Cell(49, 49), Cell(50, 49), Cell(49, 50), Cell(50, 50)], 4, 49, 51) == 2;
    assert NearFirst([Cell(49, 49), Cell(50, 49), Cell(49, 50), Cell(50, 50)], 4, 50, 51) == 2;
    assert NearFirst([Cell(49, 49), Cell(50, 49), Cell(49, 50), Cell(50, 50)], 4, 51, 51) == 1;
  }

  /** Around the block every block cell has three neighbours and every
      other cell at most two. */
  lemma BlockWindow(x: int, y: int)
    requires 48 <= x <= 51 && 48 <= y <= 51
    ensures NextState(Cell(x, y) in BlockCells, Near(BlockCells, x, y)) == (Cell(x, y) in BlockCells)
  {
    BlockRow48();
    BlockRow49();
    BlockRow50();
    BlockRow51();
  }

  /** The block is a still life: the next generation of a grid holding only
      a block is the same grid. */
  lemma BlockStill()
    ensures NextGeneration(FromCells(BlockCells)) == FromCells(BlockCells)
  {
    var g := FromCells(BlockCells);
    forall i | 0 <= i < Cells
      ensures NextGeneration(g)[i] == g[i]
    {
      IndexOnto(i);
      var x, y := ColumnOf(i), RowOf(i);
      NextFromCells(BlockCells, x, y);
      FromCellsAt(BlockCells, x, y);
      if 48 <= x <= 51 && 48 <= y <= 51 {
        BlockWindow(x, y);
      } else {
        Isolated(BlockCells, x, y);
      }
    }
  }

  /** A grid holding only a block never changes. */
  lemma BlockForever(k: nat)
    ensures Evolve(FromCells(BlockCells), k) == FromCells(BlockCells)
  {
    BlockStill();
    StillLifeForever(FromCells(BlockCells), k);
  }

  // ----- The blinker -----

  /** The blinker as seeded at row 30, column 20: a horizontal bar. */
  const Horizontal: seq<Cell> := [Cell(20, 31), Cell(21, 31), Cell(22, 31)]

  /** The same blinker one generation later: a vertical bar. */
  const Vertical: seq<Cell> := [Cell(21, 30), Cell(21, 31), Cell(21, 32)]

  /** Neighbour counts along one row of the window around the horizontal bar. */
  lemma HorizontalRow30()
    ensures Near(Horizontal, 19, 30) == 1 && Near(Horizontal, 20, 30) == 2 && Near(Horizontal, 21, 30) == 3 && Near(Horizontal, 22, 30) == 2 && Near(Horizontal, 23, 30) == 1
  {
    assert NearFirst([Cell(20, 31), Cell(21, 31), Cell(22, 31)], 3, 19, 30) == 1;
    assert NearFirst([Cell(20, 31), Cell(21, 31), Cell(22, 31)], 3, 20, 30) == 2;
    assert NearFirst([Cell(20, 31), Cell(21, 31), Cell(22, 31)], 3, 21, 30) == 3;
    assert NearFirst([Cell(20, 31), Cell(21, 31), Cell(22, 31)], 3, 22, 30) == 2;
    assert NearFirst([Cell(20, 31), Cell(21, 31), Cell(22, 31)], 3, 23, 30) == 1;
  }

  lemma HorizontalRow31()
    ensures Near(Horizontal, 19, 31) == 1 && Near(Horizontal, 20, 31) == 1 && Near(Horizontal, 21, 31) == 2 && Near(Horizontal, 22, 31) == 1 && Near(Horizontal, 23, 31) == 1
  {
    assert NearFirst([Cell(20, 31), Cell(21, 31), Cell(22, 31)], 3, 19, 31) == 1;
    assert NearFirst([Cell(20, 31), Cell(21, 31), Cell(22, 31)], 3, 20, 31) == 1;
    assert NearFirst([Cell(20, 31), Cell(21, 31), Cell(22, 31)], 3, 21, 31) == 2;
    assert NearFirst([Cell(20, 31), Cell(21, 31), Cell(22, 31)], 3, 22, 31) == 1;
    assert NearFirst([Cell(20, 31), Cell(21, 31), Cell(22, 31)], 3, 23, 31) == 1;
  }

  lemma HorizontalRow32()
    ensures Near(Horizontal, 19, 32) == 1 && Near(Horizontal, 20, 32) == 2 && Near(Horizontal, 21, 32) == 3 && Near(Horizontal, 22, 32) == 2 && Near(Horizontal, 23, 32) == 1
  {
    assert NearFirst([Cell(20, 31), Cell(21, 31), Cell(22, 31)], 3, 19, 32) == 1;
    assert NearFirst([Cell(20, 31), Cell(21, 31), Cell(22, 31)], 3, 20, 32) == 2;
    assert NearFirst([Cell(20, 31), Cell(21, 31), Cell(22, 31)], 3, 21, 32) == 3;
    assert NearFirst([Cell(20, 31), Cell(21, 31), Cell(22, 31)], 3, 22, 32) == 2;
    assert NearFirst([Cell(20, 31), Cell(21, 31), Cell(22, 31)], 3, 23, 32) == 1;
  }

  /** Neighbour counts along one row of the window around the vertical bar. */
  lemma VerticalRow29()
    ensures Near(Vertical, 20, 29) == 1 && Near(Vertical, 21, 29) == 1 && Near(Vertical, 22, 29) == 1
  {
    assert NearFirst([Cell(21, 30), Cell(21, 31), Cell(21, 32)], 3, 20, 29) == 1;
    assert NearFirst([Cell(21, 30), Cell(21, 31), Cell(21, 32)], 3, 21, 29) == 1;
    assert NearFirst([Cell(21, 30), Cell(21, 31), Cell(21, 32)], 3, 22, 29) == 1;
  }

  lemma VerticalRow30()
    ensures Near(Vertical, 20, 30) == 2 && Near(Vertical, 21, 30) == 1 && Near(Vertical, 22, 30) == 2
  {
    assert NearFirst([Cell(21, 30), Cell(21, 31), Cell(21, 32)], 3, 20, 30) == 2;
    assert NearFirst([Cell(21, 30), Cell(21, 31), Cell(21, 32)], 3, 21, 30) == 1;
    assert NearFirst([Cell(21, 30), Cell(21, 31), Cell(21, 32)], 3, 22, 30) == 2;
  }

  lemma VerticalRow31()
    ensures Near(Vertical, 20, 31) == 3 && Near(Vertical, 21, 31) == 2 && Near(Vertical, 22, 31) == 3
  {
    assert NearFirst([Cell(21, 30), Cell(21, 31), Cell(21, 32)], 3, 20, 31) == 3;
    assert NearFirst([Cell(21, 30), Cell(21, 31), Cell(21, 32)], 3, 21, 31) == 2;
    assert NearFirst([Cell(21, 30), Cell(21, 31), Cell(21, 32)], 3, 22, 31) == 3;
  }

  lemma VerticalRow32()
    ensures Near(Vertical, 20, 32) == 2 && Near(Vertical, 21, 32) == 1 && Near(Vertical, 22, 32) == 2
  {
    assert NearFirst([Cell(21, 30), Cell(21, 31), Cell(21, 32)], 3, 20, 32) == 2;
    assert NearFirst([Cell(21, 30), Cell(21, 31), Cell(21, 32)], 3, 21, 32) == 1;
    assert NearFirst([Cell(21, 30), Cell(21, 31), Cell(21, 32)], 3, 22, 32) == 2;
  }

  lemma VerticalRow33()
    ensures Near(Vertical, 20, 33) == 1 && Near(Vertical, 21, 33) == 1 && Near(Vertical, 22, 33) == 1
  {
    assert NearFirst([Cell(21, 30), Cell(21, 31), Cell(21, 32)], 3, 20, 33) == 1;
    assert NearFirst([Cell(21, 30), Cell(21, 31), Cell(21, 32)], 3, 21, 33) == 1;
    assert NearFirst([Cell(21, 30), Cell(21, 31), Cell(21, 32)], 3, 22, 33) == 1;
  }

  lemma HorizontalWindow(x: int, y: int)
    requires 19 <= x <= 23 && 30 <= y <= 32
    ensures NextState(Cell(x, y) in Horizontal, Near(Horizontal, x, y)) == (Cell(x, y) in Vertical)
  {
    HorizontalRow30();
    HorizontalRow31();
    HorizontalRow32();
  }

  /** The horizontal bar is what the blinker seeder writes at row 30,
      column 20 of a dead grid. */
  lemma BlinkerSeeded()
    ensures Patterns.Fits(30, 20, Patterns.Blinker)
    ensures Patterns.Stamp(Dead(), 30, 20, Patterns.Blinker) == FromCells(Horizontal)
  {
    Patterns.BlinkerExtent(30, 20);
    forall i | 0 <= i < Cells
      ensures Patterns.Stamp(Dead(), 30, 20, Patterns.Blinker)[i] == FromCells(Horizontal)[i]
    {
      IndexOnto(i);
      var x, y := ColumnOf(i), RowOf(i);
      Patterns.StampAt(Dead(), 30, 20, Patterns.Blinker, x, y);
      FromCellsAt(Horizontal, x, y);
    }
  }

  /** The horizontal bar turns into the vertical one. */
  lemma BlinkerFlip()
    ensures NextGeneration(FromCells(Horizontal)) == FromCells(Vertical)
  {
    var g := FromCells(Horizontal);
    forall i | 0 <= i < Cells
      ensures NextGeneration(g)[i] == FromCells(Vertical)[i]
    {
      IndexOnto(i);
      var x, y := ColumnOf(i), RowOf(i);
      NextFromCells(Horizontal, x, y);
      FromCellsAt(Vertical, x, y);
      if 19 <= x <= 23 && 30 <= y <= 32 {
        HorizontalWindow(x, y);
      } else {
        Isolated(Horizontal, x, y);
      }
    }
  }

  lemma VerticalWindow(x: int, y: int)
    requires 20 <= x <= 22 && 29 <= y <= 33
    ensures NextState(Cell(x, y) in Vertical, Near(Vertical, x, y)) == (Cell(x, y) in Horizontal)
  {
    VerticalRow29();
    VerticalRow30();
    VerticalRow31();
    VerticalRow32();
    VerticalRow33();
  }

  /** The vertical bar turns back into the horizontal one. */
  lemma BlinkerFlop()
    ensures NextGeneration(FromCells(Vertical)) == FromCells(Horizontal)
  {
    var g := FromCells(Vertical);
    forall i | 0 <= i < Cells
      ensures NextGeneration(g)[i] == FromCells(Horizontal)[i]
    {
      IndexOnto(i);
      var x, y := ColumnOf(i), RowOf(i);
      NextFromCells(Vertical, x, y);
      FromCellsAt(Horizontal, x, y);
      if 20 <= x <= 22 && 29 <= y <= 33 {
        VerticalWindow(x, y);
      } else {
        Isolated(Vertical, x, y);
      }
    }
  }

  /** The blinker has period 2: it changes after one generation and is back
      after two. */
  lemma BlinkerPeriod2()
    ensures Evolve(FromCells(Horizontal), 1) == FromCells(Vertical)
    ensures Evolve(FromCells(Horizontal), 2) == FromCells(Horizontal)
    ensures FromCells(Horizontal) != FromCells(Vertical)
  {
    BlinkerFlip();
    BlinkerFlop();
    FromCellsAt(Horizontal, 20, 31);
    FromCellsAt(Vertical, 20, 31);
  }
}
