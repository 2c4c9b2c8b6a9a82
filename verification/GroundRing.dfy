/** The pad's pressure as the firmware keeps it (src/ground_reference.c): a ring of
    block sums, proved to hold the window of the whole history. */
module GroundRing {
  import opened Words
  import opened Wrappers
  import opened GroundReference

  /* ---- The ring of cells ---- */

  /** The ring from the oldest cell to the one under way. */
  function Rotated(a: seq<Cell>, current: nat): (r: seq<Cell>)
    requires |a| == GREF_BLOCKS && current < GREF_BLOCKS
    ensures |r| == GREF_BLOCKS && r[GREF_BLOCKS - 1] == a[current]
  {
    a[current + 1..] + a[..current + 1]
  }

  function Unused(n: nat): (z: seq<Cell>)
    ensures |z| == n
  {
    seq(n, _ => NO_CELL)
  }

  /** The window's cells, after those never used. */
  function Padded(w: seq<Cell>): (p: seq<Cell>)
    requires |w| <= GREF_BLOCKS
    ensures |p| == GREF_BLOCKS
  {
    Unused(GREF_BLOCKS - |w|) + w
  }

  predicate Holds(a: seq<Cell>, current: nat, blocks: seq<Block>) {
    && |a| == GREF_BLOCKS && current < GREF_BLOCKS && blocks != []
    && Rotated(a, current) == Padded(CellsOf(Window(blocks)))
  }

  lemma CurrentHolds(a: seq<Cell>, current: nat, blocks: seq<Block>)
    requires Holds(a, current, blocks)
    ensures a[current] == CellOf(blocks[|blocks| - 1])
  {
    var w := Window(blocks);
    assert Padded(CellsOf(w))[GREF_BLOCKS - 1] == CellOf(w[|w| - 1]);
  }

  /** The block under way changes. */
  lemma HoldsChanged(a: seq<Cell>, current: nat, blocks: seq<Block>, b: Block)
    requires Holds(a, current, blocks)
    ensures Holds(a[current := CellOf(b)], current, blocks[..|blocks| - 1] + [b])
  {
    var n := |blocks| - 1;
    var w, v := CellsOf(Window(blocks)), CellsOf(Window(blocks[..n] + [b]));
    assert |v| == |w| && forall i :: 0 <= i < |v| - 1 ==> v[i] == w[i];
    assert v == w[..|w| - 1] + [CellOf(b)];
    var r := Rotated(a, current);
    assert Rotated(a[current := CellOf(b)], current) == r[..GREF_BLOCKS - 1] + [CellOf(b)];
    assert Padded(v) == Padded(w)[..GREF_BLOCKS - 1] + [CellOf(b)];
  }

  function Next(current: nat): (n: nat)
    requires current < GREF_BLOCKS
    ensures n < GREF_BLOCKS && n == (current + 1) % 20
  {
    if current + 1 == GREF_BLOCKS then 0 else current + 1
  }

  /** The next block begins, in the place of the oldest once the ring is full. */
  lemma HoldsNext(a: seq<Cell>, current: nat, blocks: seq<Block>, b: Block)
    requires Holds(a, current, blocks)
    ensures Holds(a[Next(current) := CellOf(b)], Next(current), blocks + [b])
  {
    var next := Next(current);
    var w, v := CellsOf(Window(blocks)), CellsOf(Window(blocks + [b]));
    var r := Rotated(a, current);
    assert Rotated(a[next := CellOf(b)], next) == r[1..] + [CellOf(b)];
    if |w| < GREF_BLOCKS {
      assert v == w + [CellOf(b)];
    } else {
      assert v == w[1..] + [CellOf(b)];
    }
    assert Padded(v) == Padded(w)[1..] + [CellOf(b)];
  }

  lemma {:induction false} UnusedGathers(n: nat, before: Option<u32>)
    ensures Gathered(Unused(n), before) == Sums(0, 0, 0)
  {
    if n > 0 {
      UnusedGathers(n - 1, before);
      assert Unused(n)[..n - 1] == Unused(n - 1);
    }
  }

  /** The ring's sums, in whatever order, are the window's. */
  lemma RingGathers(a: seq<Cell>, current: nat, blocks: seq<Block>)
    requires Holds(a, current, blocks)
    ensures Gathered(a, None) == Gathered(CellsOf(Window(blocks)), None)
  {
    var w := CellsOf(Window(blocks));
    GatheredBoth(a[current + 1..], a[..current + 1], None);
    GatheredBoth(a[..current + 1], a[current + 1..], None);
    assert a[..current + 1] + a[current + 1..] == a;
    GatheredBoth(Unused(GREF_BLOCKS - |w|), w, None);
    UnusedGathers(GREF_BLOCKS - |w|, None);
  }

  lemma PastGathers(a: seq<Cell>, current: nat, blocks: seq<Block>, t: u32)
    requires Holds(a, current, blocks)
    ensures Plus(Gathered(a[..current], Some(t)), Gathered(a[current + 1..], Some(t)))
         == Gathered(CellsOf(Window(blocks)[..|Window(blocks)| - 1]), Some(t))
  {
    hide Gathered;
    var w := CellsOf(Window(blocks));
    var past := CellsOf(Window(blocks)[..|w| - 1]);
    assert past == w[..|w| - 1];
    GatheredBoth(a[current + 1..], a[..current], Some(t));
    assert Rotated(a, current)[..GREF_BLOCKS - 1] == a[current + 1..] + a[..current];
    assert Padded(w)[..GREF_BLOCKS - 1] == Unused(GREF_BLOCKS - |w|) + past;
    GatheredBoth(Unused(GREF_BLOCKS - |w|), past, Some(t));
    UnusedGathers(GREF_BLOCKS - |w|, Some(t));
  }

  /* ---- The reference ---- */

  datatype Fields = Fields(tracking: bool, pressure: int, current: nat, started: bool, filled: nat, degraded: bool,
                           rejectingSince: u32, reseeds: nat)

  predicate Mirrors(f: Fields, g: Ground) {
    && f.tracking == g.tracking && f.pressure == g.pressure && f.started == g.started && f.degraded == g.degraded
    && f.rejectingSince == g.rejectingSince && f.filled == |Window(g.blocks)|
  }

  class GroundRef {
    const cells: array<Cell>
    var f: Fields
    ghost var g: Ground

    ghost predicate Valid()
      reads this, cells
    {
      && Mirrors(f, g) && g.blocks != []
      && cells.Length == GREF_BLOCKS && f.current < GREF_BLOCKS && Holds(cells[..], f.current, g.blocks)
    }

    constructor (pa: int)
      ensures Valid() && g == Seeded(pa, true) && f.reseeds == 0 && fresh(cells)
    {
      cells := new Cell[GREF_BLOCKS](i => if i == 0 then Cell(pa, 1, 0) else NO_CELL);
      f := Fields(true, pa, 0, false, 1, false, 0, 0);
      g := Seeded(pa, true);
      new;
      SeedHolds(cells[..], pa);
    }

    /** gref_seed() and gref_hold(), told apart by whether the pad is then tracked. */
    method Seed(pa: int, tracking: bool)
      requires cells.Length == GREF_BLOCKS
      modifies this, cells
      ensures Valid() && g == Seeded(pa, tracking) && f.reseeds == old(f.reseeds)
    {
      forall i | 0 <= i < GREF_BLOCKS {
        cells[i] := if i == 0 then Cell(pa, 1, 0) else NO_CELL;
      }
      f := Fields(tracking, pa, 0, false, 1, false, 0, f.reseeds);
      g := Seeded(pa, tracking);
      SeedHolds(cells[..], pa);
    }

    method Reseed(pa: int)
      requires Valid()
      modifies this, cells
      ensures Valid() && g == Seeded(pa, true) && f.reseeds == old(f.reseeds) + 1
    {
      Seed(pa, true);
      f := f.(reseeds := f.reseeds + 1);
    }

    /** mean_of_blocks() */
    method MeanOfBlocks(fallback: int) returns (mean: int)
      requires cells.Length == GREF_BLOCKS
      ensures mean == MeanOfSums(Gathered(cells[..], None), fallback)
    {
      var total: int, count: nat := 0, 0;
      for i := 0 to GREF_BLOCKS
        invariant Gathered(cells[..i], None) == Sums(total, count, 0)
      {
        assert cells[..i + 1][..i] == cells[..i];
        total, count := total + cells[i].sum, count + cells[i].count;
      }
      assert cells[..GREF_BLOCKS] == cells[..];
      mean := if count > 0 then Truncated(total, count) else fallback;
    }

    /** gref_feed() */
    method Feed(pa: int, time: nat)
      requires Valid()
      modifies this, cells
      ensures Valid() && g == Fed(old(g), pa, time) && f.reseeds == old(f.reseeds)
    {
      hide Holds, Gathered, Joined, Window, CellsOf, MeanOfSums;
      if !f.tracking {
        return;
      }
      if !(-GREF_MAX_DEVIATION_PA <= pa - f.pressure <= GREF_MAX_DEVIATION_PA) {
        if f.rejectingSince == 0 {
          f := f.(rejectingSince := Add(Wrap(time), 1));
        }
        g := Fed(g, pa, time);
        return;
      }
      f := f.(rejectingSince := 0);
      Join(pa, time);
      RingGathers(cells[..], f.current, Joined(g, pa, time));
      var mean := MeanOfBlocks(f.pressure);
      f := f.(pressure := mean);
      g := Fed(g, pa, time);
    }

    /** An accepted reading into the block under way, or the next. */
    method Join(pa: int, time: nat)
      requires cells.Length == GREF_BLOCKS && Holds(cells[..], f.current, g.blocks) && f.started == g.started
      requires f.filled == |Window(g.blocks)|
      modifies `f, cells
      ensures f.current < GREF_BLOCKS && Joined(g, pa, time) != [] && Holds(cells[..], f.current, Joined(g, pa, time))
      ensures f == old(f).(started := true, current := f.current, filled := |Window(Joined(g, pa, time))|)
    {
      hide Holds, Window, CellOf, Joined;
      Indexed();
      ghost var blocks := g.blocks;
      ghost var last := blocks[|blocks| - 1];
      if !f.started {
        f := f.(started := true);
        last := Block(time, last.readings);
        blocks := blocks[..|blocks| - 1] + [last];
        RestartedCell(g.blocks[|g.blocks| - 1], time);
        SetCurrent(cells[f.current].(start := Wrap(time)), last, g.blocks);
        SubItself(time);
      }
      StartOfCell(last);
      if Sub(Wrap(time), cells[f.current].start) >= GREF_BLOCK_MS {
        OpenNextBlock(time);
        last := Block(time, []);
        blocks := blocks + [last];
      }
      Counted(last, Timed(pa, time));
      var c := cells[f.current];
      SetCurrent(c.(sum := c.sum + pa, count := (c.count + 1) % 0x1_0000),
                 Block(last.start, last.readings + [Timed(pa, time)]), blocks);
      JoinsTo(g, pa, time, blocks, last);
      SameSize(g.blocks, blocks, Joined(g, pa, time));
    }

    lemma Indexed()
      requires cells.Length == GREF_BLOCKS && Holds(cells[..], f.current, g.blocks)
      ensures f.current < GREF_BLOCKS && g.blocks != [] && CellOf(g.blocks[|g.blocks| - 1]) == cells[f.current]
    {
      CurrentHolds(cells[..], f.current, g.blocks);
    }

    method SetCurrent(c: Cell, ghost b: Block, ghost blocks: seq<Block>)
      requires cells.Length == GREF_BLOCKS && Holds(cells[..], f.current, blocks) && f.current < GREF_BLOCKS
      requires c == CellOf(b)
      modifies cells
      ensures blocks != [] && Holds(cells[..], f.current, blocks[..|blocks| - 1] + [b]) && cells[f.current] == c
    {
      HoldsChanged(cells[..], f.current, blocks, b);
      ghost var a := cells[..];
      cells[f.current] := c;
      assert cells[..] == a[f.current := c];
    }

    /** open_next_block() */
    method OpenNextBlock(time: nat)
      requires cells.Length == GREF_BLOCKS && Holds(cells[..], f.current, g.blocks) && f.current < GREF_BLOCKS
      requires f.filled == |Window(g.blocks)|
      modifies `f, cells
      ensures f.current < GREF_BLOCKS && Holds(cells[..], f.current, g.blocks + [Block(time, [])])
      ensures f == old(f).(current := f.current, filled := |Window(g.blocks + [Block(time, [])])|)
      ensures cells[f.current] == CellOf(Block(time, []))
    {
      hide Holds, Window;
      HoldsNext(cells[..], f.current, g.blocks, Block(time, []));
      WindowGrows(g.blocks, Block(time, []));
      ghost var a := cells[..];
      f := f.(current := (f.current + 1) % 20);
      cells[f.current] := Cell(0, 0, Wrap(time));
      assert Cell(0, 0, Wrap(time)) == CellOf(Block(time, []));
      assert cells[..] == a[f.current := CellOf(Block(time, []))];
      if f.filled < GREF_BLOCKS {
        f := f.(filled := f.filled + 1);
      }
    }

    /** gref_freeze_before() */
    method FreezeBefore(t: u32) returns (ok: bool)
      requires Valid()
      modifies this
      ensures Valid() && g == Frozen(old(g), t) && ok == !g.degraded
    {
      hide Holds, GatheredPast, Gathered;
      var total: int, count: nat, span: nat := 0, 0, 0;
      GatheredPastEnds(cells[..], f.current, t);
      PastGathers(cells[..], f.current, g.blocks, t);
      for i := 0 to GREF_BLOCKS
        invariant f == old(f) && g == old(g)
        invariant Sums(total, count, span) == GatheredPast(cells[..], f.current, i, t)
      {
        GatheredPastStep(cells[..], f.current, i, t);
        if i != f.current && cells[i].count != 0 && Signed(Sub(t, Add(cells[i].start, GREF_BLOCK_MS))) >= 0 {
          total, count, span := total + cells[i].sum, count + cells[i].count, span + GREF_BLOCK_MS;
        }
      }
      f := f.(tracking := false, degraded := span < MIN_PAD_MS);
      if count > 0 {
        f := f.(pressure := Truncated(total, count));
      }
      g := Frozen(g, t);
      ok := !f.degraded;
    }
  }

  /** The first n cells, the current one passed over. */
  function GatheredPast(a: seq<Cell>, current: nat, n: nat, t: u32): Sums
    requires current < |a| && n <= |a|
  {
    if n <= current then Gathered(a[..n], Some(t))
    else Plus(Gathered(a[..current], Some(t)), Gathered(a[current + 1..n], Some(t)))
  }

  lemma GatheredPastStep(a: seq<Cell>, current: nat, i: nat, t: u32)
    requires current < |a| && i < |a|
    ensures var before := GatheredPast(a, current, i, t);
            GatheredPast(a, current, i + 1, t) == if i == current then before else Plus(before, Share(a[i], Some(t)))
  {
    if i < current {
      assert a[..i + 1][..i] == a[..i];
    } else if i > current {
      assert a[current + 1..i + 1][..i - current - 1] == a[current + 1..i];
    } else {
      assert a[current + 1..i + 1] == [];
    }
  }

  lemma GatheredPastEnds(a: seq<Cell>, current: nat, t: u32)
    requires current < |a|
    ensures GatheredPast(a, current, 0, t) == Sums(0, 0, 0)
    ensures GatheredPast(a, current, |a|, t)
         == Plus(Gathered(a[..current], Some(t)), Gathered(a[current + 1..], Some(t)))
  {
    assert a[..0] == [] && a[current + 1..|a|] == a[current + 1..];
  }

  lemma RestartedCell(b: Block, time: nat)
    ensures CellOf(Block(time, b.readings)) == CellOf(b).(start := Wrap(time))
  {
  }

  lemma StartOfCell(b: Block)
    ensures CellOf(b).start == Wrap(b.start)
  {
  }

  lemma SubItself(time: nat)
    ensures Sub(Wrap(time), Wrap(time)) == 0
  {
  }

  lemma WindowGrows(blocks: seq<Block>, b: Block)
    ensures |Window(blocks + [b])| == if |Window(blocks)| < GREF_BLOCKS then |Window(blocks)| + 1 else |Window(blocks)|
  {
  }

  lemma SameSize(a: seq<Block>, b: seq<Block>, c: seq<Block>)
    ensures |a| == |c| ==> |Window(a)| == |Window(c)|
    ensures |b| == |c| ==> |Window(b)| == |Window(c)|
  {
  }

  lemma JoinsTo(g: Ground, pa: int, time: nat, blocks: seq<Block>, last: Block)
    requires g.blocks != [] && blocks != [] && blocks[|blocks| - 1] == last
    requires var n := |g.blocks| - 1;
             if !g.started then blocks == g.blocks[..n] + [Block(time, g.blocks[n].readings)]
             else if Sub(Wrap(time), Wrap(g.blocks[n].start)) >= GREF_BLOCK_MS then
               blocks == g.blocks + [Block(time, [])]
             else blocks == g.blocks
    ensures blocks[..|blocks| - 1] + [Block(last.start, last.readings + [Timed(pa, time)])] == Joined(g, pa, time)
    ensures |Joined(g, pa, time)| == |blocks|
  {
    var n := |g.blocks| - 1;
    if !g.started {
      assert blocks[..n] == g.blocks[..n];
    } else if |blocks| == |g.blocks| + 1 {
      assert blocks[..n + 1] == g.blocks;
      assert [] + [Timed(pa, time)] == [Timed(pa, time)];
    }
  }

  lemma SeedHolds(a: seq<Cell>, pa: int)
    requires |a| == GREF_BLOCKS && a[0] == Cell(pa, 1, 0) && forall i :: 0 < i < GREF_BLOCKS ==> a[i] == NO_CELL
    ensures Holds(a, 0, Seeded(pa, true).blocks)
  {
    var b := Block(0, [Reading.Seed(pa)]);
    assert b.readings[..0] == [];
    assert SumOf(b.readings) == pa;
    assert CellOf(b) == a[0];
    assert a[..1] == CellsOf([b]);
    assert a[1..] == Unused(GREF_BLOCKS - 1);
  }

  lemma Counted(b: Block, r: Reading)
    ensures var c := CellOf(b);
            CellOf(Block(b.start, b.readings + [r])) == Cell(c.sum + r.pa, (c.count + 1) % 0x1_0000, c.start)
  {
    assert (b.readings + [r])[..|b.readings|] == b.readings;
  }
}
