/** The pattern seeders: each writes `true` into the grid at a fixed list of
    (row, column) offsets from an origin (oy, ox), without wrapping. */
module Patterns {
  import opened Grid

  /** A pattern cell, dy rows below and dx columns right of the origin. */
  datatype Offset = Offset(dy: nat, dx: nat)

  /** Every cell of the pattern placed at (oy, ox) lies inside the grid. The
      seeders do not wrap: a column past the right edge would land in the
      next row, and a row past the bottom outside the grid, so the caller
      must choose origins for which this holds. */
  predicate Fits(oy: nat, ox: nat, pts: seq<Offset>) {
    forall k :: 0 <= k < |pts| ==> Within(oy, ox, pts[k])
  }

  predicate Within(oy: nat, ox: nat, p: Offset) {
    ox + p.dx < Width && oy + p.dy < Height
  }

  /** The grid G after `grid[index(ox + p.dx, oy + p.dy)] = true`. */
  function Mark(G: seq<bool>, oy: nat, ox: nat, p: Offset): (r: seq<bool>)
    requires |G| == Cells && Within(oy, ox, p)
    ensures |r| == Cells
  {
    IndexInRange(ox + p.dx, oy + p.dy);
    G[Index(ox + p.dx, oy + p.dy) := true]
  }

  /** The grid g after writing `true` at every cell of the pattern, in order. */
  function Stamp(g: seq<bool>, oy: nat, ox: nat, pts: seq<Offset>): (r: seq<bool>)
    requires |g| == Cells && Fits(oy, ox, pts)
    ensures |r| == Cells
  {
    if pts == [] then g
    else
      var p := pts[|pts| - 1];
      Mark(Stamp(g, oy, ox, pts[..|pts| - 1]), oy, ox, p)
  }

  /** Cell (x, y) is one of the pattern's cells when placed at (oy, ox). */
  predicate Covers(oy: nat, ox: nat, pts: seq<Offset>, x: int, y: int) {
    x >= ox && y >= oy && Offset(y - oy, x - ox) in pts
  }

  /** Seeding sets exactly the pattern's cells, never clears a cell, and
      leaves every other cell as it was. */
  lemma {:induction false} StampAt(g: seq<bool>, oy: nat, ox: nat, pts: seq<Offset>, x: int, y: int)
    requires |g| == Cells && Fits(oy, ox, pts) && InGrid(x, y)
    ensures Stamp(g, oy, ox, pts)[Index(x, y)] <==> g[Index(x, y)] || Covers(oy, ox, pts, x, y)
  {
    if pts != [] {
      var init, p := pts[..|pts| - 1], pts[|pts| - 1];
      StampAt(g, oy, ox, init, x, y);
      IndexInjective(x, y, ox + p.dx, oy + p.dy);
      assert pts == init + [p];
      assert Covers(oy, ox, pts, x, y) <==> Covers(oy, ox, init, x, y) || (x == ox + p.dx && y == oy + p.dy);
    }
  }

  /** StampAt for every cell at once. */
  lemma StampCells(g: seq<bool>, oy: nat, ox: nat, pts: seq<Offset>)
    requires |g| == Cells && Fits(oy, ox, pts)
    ensures forall x, y :: InGrid(x, y) ==>
              (Stamp(g, oy, ox, pts)[Index(x, y)] <==> g[Index(x, y)] || Covers(oy, ox, pts, x, y))
  {
    forall x, y | InGrid(x, y)
      ensures Stamp(g, oy, ox, pts)[Index(x, y)] <==> g[Index(x, y)] || Covers(oy, ox, pts, x, y)
    {
      StampAt(g, oy, ox, pts, x, y);
    }
  }

  lemma StampSnoc(g: seq<bool>, oy: nat, ox: nat, pts: seq<Offset>, p: Offset)
    requires |g| == Cells && Fits(oy, ox, pts) && Within(oy, ox, p)
    ensures Fits(oy, ox, pts + [p])
    ensures Stamp(g, oy, ox, pts + [p]) == Mark(Stamp(g, oy, ox, pts), oy, ox, p)
  {
    assert (pts + [p])[..|pts|] == pts;
  }

  /** The loop shared by the seeders: writes `true` at each offset in turn. */
  method Spawn(grid: array<bool>, oy: nat, ox: nat, pts: seq<Offset>)
    requires grid.Length == Cells && Fits(oy, ox, pts)
    modifies grid
    ensures grid[..] == Stamp(old(grid[..]), oy, ox, pts)
    ensures forall x, y :: InGrid(x, y) ==>
              (grid[Index(x, y)] <==> old(grid[Index(x, y)]) || Covers(oy, ox, pts, x, y))
  {
    ghost var g := grid[..];
    for k := 0 to |pts|
      invariant grid[..] == Stamp(g, oy, ox, pts[..k])
    {
      var p := pts[k];
      assert pts[..k + 1] == pts[..k] + [p];
      StampSnoc(g, oy, ox, pts[..k], p);
      grid[Index(ox + p.dx, oy + p.dy)] := true;
    }
    assert pts[..|pts|] == pts;
    forall x, y | InGrid(x, y)
      ensures grid[Index(x, y)] <==> g[Index(x, y)] || Covers(oy, ox, pts, x, y)
    {
      StampAt(g, oy, ox, pts, x, y);
    }
  }

  // ----- The patterns -----

  const Glider: seq<Offset> := [Offset(0, 1), Offset(1, 2), Offset(2, 0), Offset(2, 1), Offset(2, 2)]
  const Blinker: seq<Offset> := [Offset(1, 0), Offset(1, 1), Offset(1, 2)]
  const Beacon: seq<Offset> :=
    [Offset(0, 0), Offset(0, 1), Offset(1, 0), Offset(1, 1), Offset(2, 2), Offset(2, 3), Offset(3, 2), Offset(3, 3)]
  const Toad: seq<Offset> := [Offset(1, 1), Offset(1, 2), Offset(1, 3), Offset(2, 0), Offset(2, 1), Offset(2, 2)]
  const Pentadecathlon: seq<Offset> :=
    [Offset(1, 3), Offset(2, 3), Offset(3, 3), Offset(4, 3), Offset(5, 3), Offset(6, 3), Offset(7, 3), Offset(8, 3),
     Offset(9, 3), Offset(10, 3), Offset(0, 4), Offset(11, 4), Offset(1, 5), Offset(2, 5), Offset(3, 5), Offset(4, 5),
     Offset(5, 5), Offset(6, 5), Offset(7, 5), Offset(8, 5), Offset(9, 5), Offset(10, 5)]
  const Lwss: seq<Offset> :=
    [Offset(0, 1), Offset(0, 4), Offset(1, 0), Offset(2, 0), Offset(3, 0), Offset(4, 0), Offset(4, 1), Offset(4, 2),
     Offset(3, 3)]
  const Mwss: seq<Offset> :=
    [Offset(0, 1), Offset(0, 2), Offset(0, 5), Offset(1, 0), Offset(2, 0), Offset(3, 0), Offset(4, 0), Offset(5, 0),
     Offset(6, 1), Offset(6, 2), Offset(6, 3), Offset(5, 4), Offset(4, 5)]
  const Hwss: seq<Offset> :=
    [Offset(0, 2), Offset(0, 5), Offset(1, 0), Offset(2, 0), Offset(3, 0), Offset(4, 0), Offset(5, 0), Offset(6, 0),
     Offset(7, 1), Offset(7, 2), Offset(7, 3), Offset(7, 4), Offset(6, 5), Offset(5, 6)]

  /** The bounding box of each pattern: placed at (oy, ox) it fits exactly
      when its farthest row and column do. */
  lemma GliderExtent(oy: nat, ox: nat)
    ensures Fits(oy, ox, Glider) <==> oy + 2 < Height && ox + 2 < Width
  {
    assert Within(oy, ox, Glider[4]) <== Fits(oy, ox, Glider);
  }

  lemma BlinkerExtent(oy: nat, ox: nat)
    ensures Fits(oy, ox, Blinker) <==> oy + 1 < Height && ox + 2 < Width
  {
    assert Within(oy, ox, Blinker[2]) <== Fits(oy, ox, Blinker);
  }

  lemma BeaconExtent(oy: nat, ox: nat)
    ensures Fits(oy, ox, Beacon) <==> oy + 3 < Height && ox + 3 < Width
  {
    assert Within(oy, ox, Beacon[7]) <== Fits(oy, ox, Beacon);
  }

  lemma ToadExtent(oy: nat, ox: nat)
    ensures Fits(oy, ox, Toad) <==> oy + 2 < Height && ox + 3 < Width
  {
    assert Within(oy, ox, Toad[3]) <== Fits(oy, ox, Toad);
    assert Within(oy, ox, Toad[2]) <== Fits(oy, ox, Toad);
  }

  lemma PentadecathlonExtent(oy: nat, ox: nat)
    ensures Fits(oy, ox, Pentadecathlon) <==> oy + 11 < Height && ox + 5 < Width
  {
    assert Within(oy, ox, Pentadecathlon[11]) <== Fits(oy, ox, Pentadecathlon);
    assert Within(oy, ox, Pentadecathlon[12]) <== Fits(oy, ox, Pentadecathlon);
  }

  lemma LwssExtent(oy: nat, ox: nat)
    ensures Fits(oy, ox, Lwss) <==> oy + 4 < Height && ox + 4 < Width
  {
    assert Within(oy, ox, Lwss[5]) <== Fits(oy, ox, Lwss);
    assert Within(oy, ox, Lwss[1]) <== Fits(oy, ox, Lwss);
  }

  lemma MwssExtent(oy: nat, ox: nat)
    ensures Fits(oy, ox, Mwss) <==> oy + 6 < Height && ox + 5 < Width
  {
    assert Within(oy, ox, Mwss[8]) <== Fits(oy, ox, Mwss);
    assert Within(oy, ox, Mwss[2]) <== Fits(oy, ox, Mwss);
  }

  lemma HwssExtent(oy: nat, ox: nat)
    ensures Fits(oy, ox, Hwss) <==> oy + 7 < Height && ox + 6 < Width
  {
    assert Within(oy, ox, Hwss[8]) <== Fits(oy, ox, Hwss);
    assert Within(oy, ox, Hwss[13]) <== Fits(oy, ox, Hwss);
  }

  /** The pulsar's offsets in the order `spawn_pulsar` writes them: for each
      i of 2, 7, 9, 14 and each j of 4, 5, 6 the four cells (j, i - 2),
      (j, i + 2), (i - 2, j), (i + 2, j); then the eight cells (0, i), (5, i),
      (7, i), (12, i), (i, 0), (i, 5), (i, 7), (i, 12). */
  const PulsarColumns: seq<nat> := [2, 7, 9, 14]

  predicate Bounded(pts: seq<Offset>, m: nat) {
    forall k :: 0 <= k < |pts| ==> pts[k].dy <= m && pts[k].dx <= m
  }

  function PulsarArm(i: nat, j: nat): (r: seq<Offset>)
    requires 2 <= i
  {
    [Offset(j, i - 2), Offset(j, i + 2), Offset(i - 2, j), Offset(i + 2, j)]
  }

  /** The arm cells for j from 4 up to (not including) j. */
  function PulsarArms(i: nat, j: nat): (r: seq<Offset>)
    requires 2 <= i
  {
    if j <= 4 then [] else PulsarArms(i, j - 1) + PulsarArm(i, j - 1)
  }

  function PulsarTail(i: nat): (r: seq<Offset>)
  {
    [Offset(0, i), Offset(5, i), Offset(7, i), Offset(12, i), Offset(i, 0), Offset(i, 5), Offset(i, 7), Offset(i, 12)]
  }

  lemma PulsarTailHalves(i: nat)
    ensures PulsarTail(i) == [Offset(0, i), Offset(5, i), Offset(7, i), Offset(12, i)]
                           + [Offset(i, 0), Offset(i, 5), Offset(i, 7), Offset(i, 12)]
  {
  }

  /** Column offsets the pulsar's rounds can take. */
  predicate RoundOffsets(offs: seq<nat>) {
    forall k :: 0 <= k < |offs| ==> 2 <= offs[k] <= 14
  }

  /** The cells written by the rounds for the column offsets in offs, in order. */
  function PulsarRounds(offs: seq<nat>): (r: seq<Offset>)
    requires RoundOffsets(offs)
  {
    if offs == [] then []
    else
      var i := offs[|offs| - 1];
      PulsarRounds(offs[..|offs| - 1]) + PulsarArms(i, 7) + PulsarTail(i)
  }

  function Pulsar(): seq<Offset> {
    PulsarRounds(PulsarColumns)
  }

  lemma {:induction false} PulsarArmsBounded(i: nat, j: nat)
    requires 2 <= i <= 14 && j <= 7
    ensures Bounded(PulsarArms(i, j), 16)
  {
    if j > 4 {
      PulsarArmsBounded(i, j - 1);
    }
  }

  /** No cell of the rounds lies more than 16 rows or columns from the origin. */
  lemma {:induction false} PulsarRoundsBounded(offs: seq<nat>)
    requires RoundOffsets(offs)
    ensures Bounded(PulsarRounds(offs), 16)
  {
    if offs != [] {
      var i := offs[|offs| - 1];
      PulsarRoundsBounded(offs[..|offs| - 1]);
      PulsarArmsBounded(i, 7);
    }
  }

  lemma PulsarColumnsValid()
    ensures RoundOffsets(PulsarColumns)
  {
  }

  /** The pulsar reaches 16 rows and 16 columns past its origin, and no further. */
  lemma PulsarExtent(oy: nat, ox: nat)
    ensures Fits(oy, ox, Pulsar()) <==> ox + 16 < Width && oy + 16 < Height
  {
    PulsarColumnsValid();
    PulsarRoundsBounded(PulsarColumns);
    var front := PulsarRounds(PulsarColumns[..3]);
    var arms := PulsarArms(14, 7);
    assert Pulsar() == front + arms + PulsarTail(14);
    assert arms[1] == Offset(4, 16) && arms[3] == Offset(16, 4) by {
      assert PulsarArms(14, 5) == PulsarArm(14, 4);
      assert arms == PulsarArms(14, 5) + PulsarArm(14, 5) + PulsarArm(14, 6);
    }
    assert Pulsar()[|front| + 1] == Offset(4, 16);
    assert Pulsar()[|front| + 3] == Offset(16, 4);
  }

  /** `spawn_glider`: sets the Glider cells placed at (oy, ox). */
  method SpawnGlider(grid: array<bool>, oy: nat, ox: nat)
    requires grid.Length == Cells && Fits(oy, ox, Glider)
    modifies grid
    ensures grid[..] == Stamp(old(grid[..]), oy, ox, Glider)
    ensures forall x, y :: InGrid(x, y) ==>
              (grid[Index(x, y)] <==> old(grid[Index(x, y)]) || Covers(oy, ox, Glider, x, y))
  {
    Spawn(grid, oy, ox, Glider);
  }

  /** `spawn_blinker`: sets the Blinker cells placed at (oy, ox). */
  method SpawnBlinker(grid: array<bool>, oy: nat, ox: nat)
    requires grid.Length == Cells && Fits(oy, ox, Blinker)
    modifies grid
    ensures grid[..] == Stamp(old(grid[..]), oy, ox, Blinker)
    ensures forall x, y :: InGrid(x, y) ==>
              (grid[Index(x, y)] <==> old(grid[Index(x, y)]) || Covers(oy, ox, Blinker, x, y))
  {
    Spawn(grid, oy, ox, Blinker);
  }

  /** `spawn_beacon`: sets the Beacon cells placed at (oy, ox). */
  method SpawnBeacon(grid: array<bool>, oy: nat, ox: nat)
    requires grid.Length == Cells && Fits(oy, ox, Beacon)
    modifies grid
    ensures grid[..] == Stamp(old(grid[..]), oy, ox, Beacon)
    ensures forall x, y :: InGrid(x, y) ==>
              (grid[Index(x, y)] <==> old(grid[Index(x, y)]) || Covers(oy, ox, Beacon, x, y))
  {
    Spawn(grid, oy, ox, Beacon);
  }

  /** `spawn_toad`: sets the Toad cells placed at (oy, ox). */
  method SpawnToad(grid: array<bool>, oy: nat, ox: nat)
    requires grid.Length == Cells && Fits(oy, ox, Toad)
    modifies grid
    ensures grid[..] == Stamp(old(grid[..]), oy, ox, Toad)
    ensures forall x, y :: InGrid(x, y) ==>
              (grid[Index(x, y)] <==> old(grid[Index(x, y)]) || Covers(oy, ox, Toad, x, y))
  {
    Spawn(grid, oy, ox, Toad);
  }

  lemma AppendFour<T>(s: seq<T>, a: T, b: T, c: T, d: T)
    ensures s + [a] + [b] + [c] + [d] == s + [a, b, c, d]
  {
  }

  /** There is room for the pulsar (16 cells past the origin in both
      directions) before the right and bottom edges. */
  predicate Room(oy: nat, ox: nat) {
    ox + 16 < Width && oy + 16 < Height
  }

  /** The grid after the four writes of arm j of a round, with a = i - 2 and
      b = i + 2. */
  function ArmWrites(G: seq<bool>, oy: nat, ox: nat, a: nat, b: nat, j: nat): (r: seq<bool>)
    requires |G| == Cells && Room(oy, ox) && a <= 16 && b <= 16 && j <= 16
    ensures |r| == Cells
  {
    Mark(Mark(Mark(Mark(G, oy, ox, Offset(j, a)), oy, ox, Offset(j, b)), oy, ox, Offset(a, j)), oy, ox, Offset(b, j))
  }

  /** The grid after the arms of round i for j from 4 up to (not including) j. */
  function ArmsWrites(G: seq<bool>, oy: nat, ox: nat, i: nat, j: nat): (r: seq<bool>)
    requires |G| == Cells && Room(oy, ox) && 2 <= i <= 14 && j <= 7
    ensures |r| == Cells
  {
    if j <= 4 then G else ArmWrites(ArmsWrites(G, oy, ox, i, j - 1), oy, ox, i - 2, i + 2, j - 1)
  }

  /** The grid after the eight closing writes of round i. */
  function TailWrites(G: seq<bool>, oy: nat, ox: nat, i: nat): (r: seq<bool>)
    requires |G| == Cells && Room(oy, ox) && i <= 14
    ensures |r| == Cells
  {
    var column := Mark(Mark(Mark(Mark(G, oy, ox, Offset(0, i)), oy, ox, Offset(5, i)), oy, ox, Offset(7, i)), oy, ox, Offset(12, i));
    Mark(Mark(Mark(Mark(column, oy, ox, Offset(i, 0)), oy, ox, Offset(i, 5)), oy, ox, Offset(i, 7)), oy, ox, Offset(i, 12))
  }

  /** The grid after the rounds for the column offsets in offs, in order. */
  function RoundsWrites(G: seq<bool>, oy: nat, ox: nat, offs: seq<nat>): (r: seq<bool>)
    requires |G| == Cells && Room(oy, ox) && RoundOffsets(offs)
    ensures |r| == Cells
  {
    if offs == [] then G
    else
      var i := offs[|offs| - 1];
      TailWrites(ArmsWrites(RoundsWrites(G, oy, ox, offs[..|offs| - 1]), oy, ox, i, 7), oy, ox, i)
  }

  /** The rounds for one more column offset add that round's writes. */
  lemma RoundsWritesSnoc(G: seq<bool>, oy: nat, ox: nat, offs: seq<nat>, k: nat)
    requires |G| == Cells && Room(oy, ox) && RoundOffsets(offs) && k < |offs|
    ensures RoundOffsets(offs[..k]) && RoundOffsets(offs[..k + 1])
    ensures RoundsWrites(G, oy, ox, offs[..k + 1])
              == TailWrites(ArmsWrites(RoundsWrites(G, oy, ox, offs[..k]), oy, ox, offs[k], 7), oy, ox, offs[k])
  {
    assert offs[..k + 1][..k] == offs[..k];
  }

  /** Writing the four cells of arm j is stamping PulsarArm(i, j). */
  lemma StampArm(g: seq<bool>, oy: nat, ox: nat, done: seq<Offset>, i: nat, j: nat)
    requires |g| == Cells && Fits(oy, ox, done) && Room(oy, ox) && 2 <= i <= 14 && j <= 6
    ensures Fits(oy, ox, done + PulsarArm(i, j))
    ensures Stamp(g, oy, ox, done + PulsarArm(i, j)) == ArmWrites(Stamp(g, oy, ox, done), oy, ox, i - 2, i + 2, j)
  {
    var a, b := i - 2, i + 2;
    StampSnoc(g, oy, ox, done, Offset(j, a));
    StampSnoc(g, oy, ox, done + [Offset(j, a)], Offset(j, b));
    StampSnoc(g, oy, ox, done + [Offset(j, a)] + [Offset(j, b)], Offset(a, j));
    StampSnoc(g, oy, ox, done + [Offset(j, a)] + [Offset(j, b)] + [Offset(a, j)], Offset(b, j));
    AppendFour(done, Offset(j, a), Offset(j, b), Offset(a, j), Offset(b, j));
  }

  lemma PulsarArmsSnoc(done: seq<Offset>, i: nat, j: nat)
    requires 2 <= i && 4 < j
    ensures done + PulsarArms(i, j) == done + PulsarArms(i, j - 1) + PulsarArm(i, j - 1)
  {
  }

  /** The inner loop's writes are stamping PulsarArms(i, j). */
  lemma {:induction false} StampArms(g: seq<bool>, oy: nat, ox: nat, done: seq<Offset>, i: nat, j: nat)
    requires |g| == Cells && Fits(oy, ox, done) && Room(oy, ox) && 2 <= i <= 14 && j <= 7
    ensures Fits(oy, ox, done + PulsarArms(i, j))
    ensures Stamp(g, oy, ox, done + PulsarArms(i, j)) == ArmsWrites(Stamp(g, oy, ox, done), oy, ox, i, j)
  {
    if j <= 4 {
      assert done + PulsarArms(i, j) == done;
    } else {
      StampArms(g, oy, ox, done, i, j - 1);
      StampArm(g, oy, ox, done + PulsarArms(i, j - 1), i, j - 1);
      PulsarArmsSnoc(done, i, j);
    }
  }

  /** Writing four cells of the same pattern. */
  lemma StampFour(g: seq<bool>, oy: nat, ox: nat, done: seq<Offset>, p: Offset, q: Offset, r: Offset, t: Offset)
    requires |g| == Cells && Fits(oy, ox, done)
    requires Within(oy, ox, p) && Within(oy, ox, q) && Within(oy, ox, r) && Within(oy, ox, t)
    ensures Fits(oy, ox, done + [p, q, r, t])
    ensures Stamp(g, oy, ox, done + [p, q, r, t])
              == Mark(Mark(Mark(Mark(Stamp(g, oy, ox, done), oy, ox, p), oy, ox, q), oy, ox, r), oy, ox, t)
  {
    StampSnoc(g, oy, ox, done, p);
    StampSnoc(g, oy, ox, done + [p], q);
    StampSnoc(g, oy, ox, done + [p] + [q], r);
    StampSnoc(g, oy, ox, done + [p] + [q] + [r], t);
    AppendFour(done, p, q, r, t);
  }

  /** The eight cells that close a round of the pulsar: column i at rows 0,
      5, 7 and 12, then row i at columns 0, 5, 7 and 12. */
  lemma StampTail(g: seq<bool>, oy: nat, ox: nat, done: seq<Offset>, i: nat)
    requires |g| == Cells && Fits(oy, ox, done) && Room(oy, ox) && i <= 14
    ensures Fits(oy, ox, done + PulsarTail(i))
    ensures Stamp(g, oy, ox, done + PulsarTail(i)) == TailWrites(Stamp(g, oy, ox, done), oy, ox, i)
  {
    var rows := [Offset(0, i), Offset(5, i), Offset(7, i), Offset(12, i)];
    var cols := [Offset(i, 0), Offset(i, 5), Offset(i, 7), Offset(i, 12)];
    PulsarTailHalves(i);
    StampFour(g, oy, ox, done, rows[0], rows[1], rows[2], rows[3]);
    StampFour(g, oy, ox, done + rows, cols[0], cols[1], cols[2], cols[3]);
    assert done + rows + cols == done + PulsarTail(i);
  }

  /** The writes of the rounds for offs are stamping PulsarRounds(offs). */
  lemma {:induction false} StampRounds(g: seq<bool>, oy: nat, ox: nat, offs: seq<nat>)
    requires |g| == Cells && Room(oy, ox) && RoundOffsets(offs)
    ensures Fits(oy, ox, PulsarRounds(offs))
    ensures Stamp(g, oy, ox, PulsarRounds(offs)) == RoundsWrites(g, oy, ox, offs)
  {
    if offs != [] {
      var init, i := offs[..|offs| - 1], offs[|offs| - 1];
      StampRounds(g, oy, ox, init);
      var done := PulsarRounds(init);
      StampArms(g, oy, ox, done, i, 7);
      StampTail(g, oy, ox, done + PulsarArms(i, 7), i);
    }
  }

  /** `grid[index(ox + p.dx, oy + p.dy)] = true`: one write of `spawn_pulsar`. */
  method Put(grid: array<bool>, oy: nat, ox: nat, p: Offset)
    requires grid.Length == Cells && Within(oy, ox, p)
    modifies grid
    ensures grid[..] == Mark(old(grid[..]), oy, ox, p)
  {
    grid[Index(ox + p.dx, oy + p.dy)] := true;
  }

  /** All of `spawn_pulsar`'s writes are stamping Pulsar(). */
  lemma PulsarWrites(g: seq<bool>, oy: nat, ox: nat)
    requires |g| == Cells && Room(oy, ox)
    ensures RoundOffsets(PulsarColumns) && Fits(oy, ox, Pulsar())
    ensures RoundsWrites(g, oy, ox, PulsarColumns) == Stamp(g, oy, ox, Pulsar())
    ensures forall x, y :: InGrid(x, y) ==>
              (Stamp(g, oy, ox, Pulsar())[Index(x, y)] <==> g[Index(x, y)] || Covers(oy, ox, Pulsar(), x, y))
  {
    PulsarColumnsValid();
    StampRounds(g, oy, ox, PulsarColumns);
    StampCells(g, oy, ox, Pulsar());
  }

  /** The body of `spawn_pulsar`'s outer loop for column offset i: the inner
      loop over j in 4, 5, 6 writes four arm cells each, then eight closing
      cells follow. */
  method PulsarRound(grid: array<bool>, oy: nat, ox: nat, i: nat)
    requires grid.Length == Cells && Room(oy, ox) && 2 <= i <= 14
    modifies grid
    ensures grid[..] == TailWrites(ArmsWrites(old(grid[..]), oy, ox, i, 7), oy, ox, i)
  {
    var a := i - 2;
    var b := i + 2;
    ghost var start := grid[..];
    for j := 4 to 7
      invariant grid[..] == ArmsWrites(start, oy, ox, i, j)
    {
      Put(grid, oy, ox, Offset(j, a));
      Put(grid, oy, ox, Offset(j, b));
      Put(grid, oy, ox, Offset(a, j));
      Put(grid, oy, ox, Offset(b, j));
    }
    Put(grid, oy, ox, Offset(0, i));
    Put(grid, oy, ox, Offset(5, i));
    Put(grid, oy, ox, Offset(7, i));
    Put(grid, oy, ox, Offset(12, i));
    Put(grid, oy, ox, Offset(i, 0));
    Put(grid, oy, ox, Offset(i, 5));
    Put(grid, oy, ox, Offset(i, 7));
    Put(grid, oy, ox, Offset(i, 12));
  }

  /** The outer loop of `spawn_pulsar`: one round for each column offset in
      offs, in order. */
  method PulsarLoop(grid: array<bool>, oy: nat, ox: nat, offs: seq<nat>)
    requires grid.Length == Cells && Room(oy, ox) && RoundOffsets(offs)
    modifies grid
    ensures grid[..] == RoundsWrites(old(grid[..]), oy, ox, offs)
  {
    ghost var g := grid[..];
    for k := 0 to |offs|
      invariant grid[..] == RoundsWrites(g, oy, ox, offs[..k])
    {
      PulsarRound(grid, oy, ox, offs[k]);
      RoundsWritesSnoc(g, oy, ox, offs, k);
    }
    assert offs[..|offs|] == offs;
  }

  /** `spawn_pulsar`: the rounds for i in 2, 7, 9, 14 set the Pulsar cells
      placed at (oy, ox). */
  method SpawnPulsar(grid: array<bool>, oy: nat, ox: nat)
    requires grid.Length == Cells && Room(oy, ox)
    modifies grid
    ensures Fits(oy, ox, Pulsar())
    ensures grid[..] == Stamp(old(grid[..]), oy, ox, Pulsar())
    ensures forall x, y :: InGrid(x, y) ==>
              (grid[Index(x, y)] <==> old(grid[Index(x, y)]) || Covers(oy, ox, Pulsar(), x, y))
  {
    ghost var g := grid[..];
    PulsarColumnsValid();
    PulsarLoop(grid, oy, ox, PulsarColumns);
    PulsarWrites(g, oy, ox);
  }

  /** `spawn_pentadecathlon`: sets the Pentadecathlon cells placed at (oy, ox). */
  method SpawnPentadecathlon(grid: array<bool>, oy: nat, ox: nat)
    requires grid.Length == Cells && Fits(oy, ox, Pentadecathlon)
    modifies grid
    ensures grid[..] == Stamp(old(grid[..]), oy, ox, Pentadecathlon)
    ensures forall x, y :: InGrid(x, y) ==>
              (grid[Index(x, y)] <==> old(grid[Index(x, y)]) || Covers(oy, ox, Pentadecathlon, x, y))
  {
    Spawn(grid, oy, ox, Pentadecathlon);
  }

  /** `spawn_lwss`: sets the Lwss cells placed at (oy, ox). */
  method SpawnLwss(grid: array<bool>, oy: nat, ox: nat)
    requires grid.Length == Cells && Fits(oy, ox, Lwss)
    modifies grid
    ensures grid[..] == Stamp(old(grid[..]), oy, ox, Lwss)
    ensures forall x, y :: InGrid(x, y) ==>
              (grid[Index(x, y)] <==> old(grid[Index(x, y)]) || Covers(oy, ox, Lwss, x, y))
  {
    Spawn(grid, oy, ox, Lwss);
  }

  /** `spawn_mwss`: sets the Mwss cells placed at (oy, ox). */
  method SpawnMwss(grid: array<bool>, oy: nat, ox: nat)
    requires grid.Length == Cells && Fits(oy, ox, Mwss)
    modifies grid
    ensures grid[..] == Stamp(old(grid[..]), oy, ox, Mwss)
    ensures forall x, y :: InGrid(x, y) ==>
              (grid[Index(x, y)] <==> old(grid[Index(x, y)]) || Covers(oy, ox, Mwss, x, y))
  {
    Spawn(grid, oy, ox, Mwss);
  }

  /** `spawn_hwss`: sets the Hwss cells placed at (oy, ox). */
  method SpawnHwss(grid: array<bool>, oy: nat, ox: nat)
    requires grid.Length == Cells && Fits(oy, ox, Hwss)
    modifies grid
    ensures grid[..] == Stamp(old(grid[..]), oy, ox, Hwss)
    ensures forall x, y :: InGrid(x, y) ==>
              (grid[Index(x, y)] <==> old(grid[Index(x, y)]) || Covers(oy, ox, Hwss, x, y))
  {
    Spawn(grid, oy, ox, Hwss);
  }
}
