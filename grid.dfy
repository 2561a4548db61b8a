/** The fixed-size cell grid: its dimensions, the pixel scale, the two colours,
    and the row-major linear index that maps a cell to its slot in the flat
    `grid`/`next` vectors. */
module Grid {

  /** Logical grid width and height, in cells. */
  const Width: nat := 100
  const Height: nat := 100
  /** Side of the square block of pixels that shows one cell. */
  const Scale: nat := 6
  /** Size of the pixel buffer. */
  const WindowWidth: nat := Width * Scale
  const WindowHeight: nat := Height * Scale

  /** Number of slots in `grid` and in `next`. */
  const Cells: nat := Width * Height
  /** Number of slots in the pixel buffer. */
  const Pixels: nat := WindowWidth * WindowHeight

  /** An unsigned 32-bit colour value. */
  newtype u32 = x: int | 0 <= x < 0x1_0000_0000

  const AliveColor: u32 := 0x39FF14
  const DeadColor: u32 := 0x0C0015

  predicate InGrid(x: int, y: int) {
    0 <= x < Width && 0 <= y < Height
  }

  /** Row-major linear index of cell (x, y). */
  function Index(x: int, y: int): (i: int)
    ensures InGrid(x, y) ==> 0 <= i < Cells
  {
    y * Width + x
  }

  /** The cell stored in slot i: the inverse of Index. */
  function ColumnOf(i: int): int { i % Width }
  function RowOf(i: int): int { i / Width }

  /** Every in-range cell has a slot of `grid`, and the slot gives the cell back. */
  lemma IndexInRange(x: int, y: int)
    requires InGrid(x, y)
    ensures 0 <= Index(x, y) < Cells
    ensures ColumnOf(Index(x, y)) == x && RowOf(Index(x, y)) == y
  {
  }

  /** Every slot of `grid` is the index of exactly one in-range cell. */
  lemma IndexOnto(i: int)
    requires 0 <= i < Cells
    ensures InGrid(ColumnOf(i), RowOf(i))
    ensures Index(ColumnOf(i), RowOf(i)) == i
  {
  }

  /** Distinct in-range cells occupy distinct slots. */
  lemma IndexInjective(x1: int, y1: int, x2: int, y2: int)
    requires InGrid(x1, y1) && InGrid(x2, y2)
    ensures Index(x1, y1) == Index(x2, y2) <==> x1 == x2 && y1 == y2
  {
    IndexInRange(x1, y1);
    IndexInRange(x2, y2);
  }

  /** The all-dead grid. */
  function Dead(): (g: seq<bool>)
    ensures |g| == Cells
    ensures forall i :: 0 <= i < Cells ==> !g[i]
  {
    seq(Cells, _ => false)
  }
}
