/** The program's state and its frame loop: the current and next cell grids,
    the pixel buffer, the initial seeding of `main`, and one iteration of the
    main loop (compute the next generation, swap, draw). */
module Life {
  import opened Grid
  import opened Generation
  import opened Render
  import opened Patterns

  /** Every pattern `main` seeds fits inside the grid at the origin it is
      given, so none of the seeders' writes leaves the grid. */
  lemma SeedsFit()
    ensures Fits(10, 10, Glider) && Fits(30, 20, Blinker) && Fits(50, 50, Beacon)
    ensures Fits(20, 60, Toad) && Fits(60, 10, Pulsar()) && Fits(40, 30, Pentadecathlon)
    ensures Fits(80, 20, Lwss) && Fits(80, 50, Mwss) && Fits(80, 80, Hwss)
  {
    GliderExtent(10, 10);
    BlinkerExtent(30, 20);
    BeaconExtent(50, 50);
    ToadExtent(20, 60);
    PulsarExtent(60, 10);
    PentadecathlonExtent(40, 30);
    LwssExtent(80, 20);
    MwssExtent(80, 50);
    HwssExtent(80, 80);
  }

  /** The nine patterns `main` seeds, stamped onto `g` in the order and at
      the (oy, ox) origins `main` uses. */
  function Seeded(g: seq<bool>): (r: seq<bool>)
    requires |g| == Cells
    ensures |r| == Cells
  {
    SeedsFit();
    var g0 := Stamp(g, 10, 10, Glider);
    var g1 := Stamp(g0, 30, 20, Blinker);
    var g2 := Stamp(g1, 50, 50, Beacon);
    var g3 := Stamp(g2, 20, 60, Toad);
    var g4 := Stamp(g3, 60, 10, Pulsar());
    var g5 := Stamp(g4, 40, 30, Pentadecathlon);
    var g6 := Stamp(g5, 80, 20, Lwss);
    var g7 := Stamp(g6, 80, 50, Mwss);
    Stamp(g7, 80, 80, Hwss)
  }

  /** The grid `main` builds before its loop: the all-dead grid, seeded. */
  function InitialGrid(): (g: seq<bool>)
    ensures |g| == Cells
  {
    Seeded(Dead())
  }

  /** The nine spawn calls of `main`, in its order. */
  method Seed(g: array<bool>)
    requires g.Length == Cells
    modifies g
    ensures g[..] == Seeded(old(g[..]))
  {
    SeedsFit();
    SpawnGlider(g, 10, 10);
    SpawnBlinker(g, 30, 20);
    SpawnBeacon(g, 50, 50);
    SpawnToad(g, 20, 60);
    SpawnPulsar(g, 60, 10);
    SpawnPentadecathlon(g, 40, 30);
    SpawnLwss(g, 80, 20);
    SpawnMwss(g, 80, 50);
    SpawnHwss(g, 80, 80);
  }

  class Game {
    /** The current generation, indexed by Index(x, y). */
    var grid: array<bool>
    /** The buffer the next generation is written to. */
    var next: array<bool>
    /** The pixel buffer handed to the window, indexed by PixelIndex(px, py). */
    var buffer: array<u32>

    predicate Valid()
      reads this
    {
      grid.Length == Cells && next.Length == Cells && buffer.Length == Pixels && grid != next
    }

    /** `main` up to its loop: two all-dead grids, a zeroed pixel buffer, and
        the nine patterns seeded into `grid`. */
    constructor ()
      ensures Valid() && fresh(grid) && fresh(next) && fresh(buffer)
      ensures grid[..] == InitialGrid()
      ensures next[..] == Dead()
      ensures forall p :: 0 <= p < Pixels ==> buffer[p] == 0
    {
      var g := new bool[Cells](_ => false);
      var n := new bool[Cells](_ => false);
      var b := new u32[Pixels](_ => 0);
      assert g[..] == Dead();
      assert n[..] == Dead();
      Seed(g);
      grid, next, buffer := g, n, b;
    }

    /** The generation step of the loop: `next` receives the next generation
        of `grid`, then the two buffers are swapped, so that `grid` holds the
        new generation and `next` the old one. */
    method Step()
      requires Valid()
      modifies this, next
      ensures Valid() && buffer == old(buffer)
      ensures grid == old(next) && next == old(grid)
      ensures grid[..] == NextGeneration(old(grid[..]))
      ensures next[..] == old(grid[..])
    {
      ComputeNext(grid, next);
      grid, next := next, grid;
    }

    /** The render loop over the current grid. */
    method Redraw()
      requires Valid()
      modifies buffer
      ensures buffer[..] == Frame(grid[..])
    {
      Draw(grid, buffer);
    }

    /** One iteration of the main loop, without the window: step, then draw
        the new generation. */
    method Tick()
      requires Valid()
      modifies this, grid, next, buffer
      ensures Valid() && buffer == old(buffer)
      ensures grid == old(next) && next == old(grid)
      ensures grid[..] == NextGeneration(old(grid[..]))
      ensures next[..] == old(grid[..])
      ensures buffer[..] == Frame(grid[..])
    {
      Step();
      Redraw();
    }

    /** The main loop run for `frames` iterations (the window's closing and the
        Escape key, which end the source's loop, are not modelled). */
    method Run(frames: nat)
      requires Valid()
      modifies this, grid, next, buffer
      ensures Valid() && buffer == old(buffer)
      ensures grid[..] == Evolve(old(grid[..]), frames)
      ensures frames > 0 ==> buffer[..] == Frame(grid[..])
      ensures frames > 0 ==> next[..] == Evolve(old(grid[..]), frames - 1)
      ensures frames == 0 ==> next[..] == old(next[..]) && buffer[..] == old(buffer[..])
      ensures frames % 2 == 0 ==> grid == old(grid) && next == old(next)
      ensures frames % 2 == 1 ==> grid == old(next) && next == old(grid)
    {
      if frames == 0 {
        // The loop would not run: nothing changes.
        return;
      }
      ghost var g0 := grid[..];
      for k := 0 to frames
        invariant Valid() && buffer == old(buffer)
        invariant k % 2 == 0 ==> grid == old(grid) && next == old(next)
        invariant k % 2 == 1 ==> grid == old(next) && next == old(grid)
        invariant grid[..] == Evolve(g0, k)
        invariant k > 0 ==> buffer[..] == Frame(grid[..])
        invariant k > 0 ==> next[..] == Evolve(g0, k - 1)
      {
        Tick();
      }
    }
  }
}
