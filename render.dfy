/** Drawing the grid into the pixel buffer: each cell becomes a Scale x Scale
    block of one of two colours. */
module Render {
  import opened Grid

  predicate InWindow(px: int, py: int) {
    0 <= px < WindowWidth && 0 <= py < WindowHeight
  }

  /** Row-major index of pixel (px, py) in the buffer. */
  function PixelIndex(px: int, py: int): (p: int)
    ensures InWindow(px, py) ==> 0 <= p < Pixels
  {
    py * WindowWidth + px
  }

  /** Pixel (px, py) lies in the block that shows cell (x, y). */
  predicate InBlock(px: int, py: int, x: int, y: int) {
    x * Scale <= px < x * Scale + Scale && y * Scale <= py < y * Scale + Scale
  }

  /** The colour of a cell: the two colours are distinct, so a pixel tells
      whether its cell is alive. */
  function Color(alive: bool): (c: u32)
    ensures c == AliveColor <==> alive
    ensures c == DeadColor <==> !alive
  {
    if alive then AliveColor else DeadColor
  }

  /** The cell that pixel (px, py) shows. */
  lemma CellOfPixel(px: int, py: int)
    requires InWindow(px, py)
    ensures InGrid(px / Scale, py / Scale)
    ensures InBlock(px, py, px / Scale, py / Scale)
    ensures forall x, y :: InBlock(px, py, x, y) ==> x == px / Scale && y == py / Scale
  {
  }

  /** The colour of pixel (px, py) in the frame drawn from grid g. */
  function PixelColor(g: seq<bool>, px: int, py: int): u32
    requires |g| == Cells && InWindow(px, py)
  {
    CellOfPixel(px, py);
    Color(g[Index(px / Scale, py / Scale)])
  }

  /** The whole frame drawn from grid g. */
  function Frame(g: seq<bool>): (f: seq<u32>)
    requires |g| == Cells
    ensures |f| == Pixels
  {
    seq(Pixels, p requires 0 <= p < Pixels => PixelColor(g, p % WindowWidth, p / WindowWidth))
  }

  lemma FrameAt(g: seq<bool>, px: int, py: int)
    requires |g| == Cells && InWindow(px, py)
    ensures Frame(g)[PixelIndex(px, py)] == PixelColor(g, px, py)
  {
    var p := PixelIndex(px, py);
    assert p % WindowWidth == px && p / WindowWidth == py;
  }

  /** `point_scaled`: paints the block of cell (x, y) with `color`; every
      other pixel keeps its value. */
  method PointScaled(buffer: array<u32>, x: int, y: int, color: u32)
    requires buffer.Length == Pixels && InGrid(x, y)
    modifies buffer
    ensures forall px, py :: InWindow(px, py) ==>
              buffer[PixelIndex(px, py)] == if InBlock(px, py, x, y) then color else old(buffer[PixelIndex(px, py)])
  {
    var baseX := x * Scale;
    var baseY := y * Scale;
    for dy := 0 to Scale
      invariant forall px, py :: InWindow(px, py) ==>
                  buffer[PixelIndex(px, py)] ==
                    if InBlock(px, py, x, y) && py < baseY + dy then color else old(buffer[PixelIndex(px, py)])
    {
      for dx := 0 to Scale
        invariant forall px, py :: InWindow(px, py) ==>
                    buffer[PixelIndex(px, py)] ==
                      if InBlock(px, py, x, y) && (py < baseY + dy || (py == baseY + dy && px < baseX + dx))
                      then color else old(buffer[PixelIndex(px, py)])
      {
        buffer[(baseY + dy) * WindowWidth + (baseX + dx)] := color;
      }
    }
  }

  /** The render loop: draws every cell's block, so that afterwards every
      pixel shows the colour of the cell it belongs to, whatever the buffer
      held before. */
  method Draw(grid: array<bool>, buffer: array<u32>)
    requires grid.Length == Cells && buffer.Length == Pixels
    modifies buffer
    ensures forall px, py :: InWindow(px, py) ==> buffer[PixelIndex(px, py)] == PixelColor(grid[..], px, py)
    ensures buffer[..] == Frame(grid[..])
  {
    ghost var g := grid[..];
    for y := 0 to Height
      invariant forall px, py :: InWindow(px, py) && py / Scale < y ==>
                  buffer[PixelIndex(px, py)] == PixelColor(g, px, py)
    {
      for x := 0 to Width
        invariant forall px, py :: InWindow(px, py) && (py / Scale < y || (py / Scale == y && px / Scale < x)) ==>
                    buffer[PixelIndex(px, py)] == PixelColor(g, px, py)
      {
        var color := Color(grid[Index(x, y)]);
        PointScaled(buffer, x, y, color);
      }
    }
    forall p | 0 <= p < Pixels
      ensures buffer[p] == Frame(g)[p]
    {
      var px, py := p % WindowWidth, p / WindowWidth;
      assert PixelIndex(px, py) == p;
      FrameAt(g, px, py);
    }
  }

  /** The grid a frame shows: the colour of the top-left pixel of each block. */
  function GridOfFrame(f: seq<u32>): (g: seq<bool>)
    requires |f| == Pixels
    ensures |g| == Cells
  {
    seq(Cells, i requires 0 <= i < Cells =>
      IndexOnto(i);
      f[PixelIndex(ColumnOf(i) * Scale, RowOf(i) * Scale)] == AliveColor)
  }

  /** The frame shows the grid faithfully: the grid can be read back from it. */
  lemma FrameRoundTrip(g: seq<bool>)
    requires |g| == Cells
    ensures GridOfFrame(Frame(g)) == g
  {
    forall i | 0 <= i < Cells
      ensures GridOfFrame(Frame(g))[i] == g[i]
    {
      IndexOnto(i);
      var x, y := ColumnOf(i), RowOf(i);
      FrameAt(g, x * Scale, y * Scale);
      CellOfPixel(x * Scale, y * Scale);
    }
  }

  /** Different grids draw different frames. */
  lemma FrameInjective(g1: seq<bool>, g2: seq<bool>)
    requires |g1| == Cells && |g2| == Cells
    ensures Frame(g1) == Frame(g2) <==> g1 == g2
  {
    FrameRoundTrip(g1);
    FrameRoundTrip(g2);
  }
}
