/** The pad's pressure (src/ground_reference.c): a mean over a window of blocks of
    accepted readings, here over their whole history. */
module GroundReference {
  import opened BadRun
  import opened Words
  import opened Wrappers

  const MIN_PAD_MS := 1000
  const GREF_BLOCK_MS := 250
  const GREF_BLOCKS := 20
  const GREF_MAX_DEVIATION_PA := 50

  /* ---- The history ---- */

  /** A reading and when it was taken; the seed has no time of its own. */
  datatype Reading = Timed(pa: int, time: nat) | Seed(pa: int)

  datatype Block = Block(start: nat, readings: seq<Reading>)

  /** The reference, over every block since the seed. */
  datatype Ground = Ground(tracking: bool, pressure: int, blocks: seq<Block>, started: bool, rejectingSince: u32,
                           degraded: bool)

  function Seeded(pa: int, tracking: bool): Ground {
    Ground(tracking, pa, [Block(0, [Seed(pa)])], false, 0, false)
  }

  /** The blocks the reference rests on. */
  function Window(blocks: seq<Block>): (w: seq<Block>)
    ensures |w| <= GREF_BLOCKS && |w| <= |blocks|
  {
    if |blocks| <= GREF_BLOCKS then blocks else blocks[|blocks| - GREF_BLOCKS..]
  }

  predicate WithinGate(g: Ground, pa: int) {
    -GREF_MAX_DEVIATION_PA <= pa - g.pressure <= GREF_MAX_DEVIATION_PA
  }

  /** An accepted reading joins the block under way, or begins the next. */
  function Joined(g: Ground, pa: int, time: nat): seq<Block>
    requires g.blocks != []
  {
    var n := |g.blocks| - 1;
    var last := g.blocks[n];
    if !g.started then g.blocks[..n] + [Block(time, last.readings + [Timed(pa, time)])]
    else if Sub(Wrap(time), Wrap(last.start)) >= GREF_BLOCK_MS then g.blocks + [Block(time, [Timed(pa, time)])]
    else g.blocks[..n] + [Block(last.start, last.readings + [Timed(pa, time)])]
  }

  function Fed(g: Ground, pa: int, time: nat): Ground
    requires g.blocks != []
  {
    if !g.tracking then g
    else if !WithinGate(g, pa) then
      g.(rejectingSince := if g.rejectingSince == 0 then Add(Wrap(time), 1) else g.rejectingSince)
    else
      var blocks := Joined(g, pa, time);
      g.(rejectingSince := 0, started := true, blocks := blocks, pressure := MeanOf(Window(blocks), None, g.pressure))
  }

  /* ---- Means ---- */

  /** Division toward zero. */
  function Truncated(total: int, count: nat): int
    requires count > 0
  {
    if total >= 0 then total / count else -(-total / count)
  }

  lemma Quotient(n: nat, count: nat, q: int)
    requires count > 0 && q == n / count
    ensures 0 <= q && q * count <= n < q * count + count
  {
    assert n == q * count + n % count;
  }

  lemma Negated(q: int, count: nat)
    ensures (0 - q) * count == 0 - q * count
  {
  }

  /** q goes into the total, and what is left over is of the total's sign and less
      than one more. */
  predicate GoesInto(q: int, total: int, count: nat) {
    if total >= 0 then 0 <= q && q * count <= total < q * count + count
    else q <= 0 && q * count - count < total <= q * count
  }

  lemma TowardZero(total: int, count: nat)
    requires count > 0
    ensures GoesInto(Truncated(total, count), total, count)
  {
    hide GoesInto;
    if total >= 0 {
      Quotient(total, count, total / count);
      Upward(total, count, total / count);
    } else {
      var n := 0 - total;
      Quotient(n, count, n / count);
      Negated(n / count, count);
      Downward(total, count, n / count);
    }
  }

  lemma Upward(total: int, count: nat, q: int)
    requires total >= 0 && 0 <= q && q * count <= total < q * count + count
    ensures GoesInto(q, total, count)
  {
  }

  lemma Downward(total: int, count: nat, q: int)
    requires total < 0 && 0 <= q && q * count <= 0 - total < q * count + count && (0 - q) * count == 0 - q * count
    ensures GoesInto(0 - q, total, count)
  {
  }

  function SumOf(readings: seq<Reading>): int {
    if readings == [] then 0 else SumOf(readings[..|readings| - 1]) + readings[|readings| - 1].pa
  }

  /** What is kept of a block; its count has sixteen bits. */
  datatype Cell = Cell(sum: int, count: nat, start: u32)

  const NO_CELL := Cell(0, 0, 0)

  function CellOf(b: Block): Cell {
    Cell(SumOf(b.readings), |b.readings| % 0x1_0000, Wrap(b.start))
  }

  function CellsOf(blocks: seq<Block>): (c: seq<Cell>)
    ensures |c| == |blocks|
  {
    seq(|blocks|, i requires 0 <= i < |blocks| => CellOf(blocks[i]))
  }

  datatype Sums = Sums(total: int, count: nat, span: nat)

  function Plus(a: Sums, b: Sums): Sums {
    Sums(a.total + b.total, a.count + b.count, a.span + b.span)
  }

  /** A cell that was filled and over by then; every cell, when no time is asked. */
  predicate Takes(c: Cell, before: Option<u32>) {
    match before
    case None => true
    case Some(t) => c.count != 0 && Signed(Sub(t, Add(c.start, GREF_BLOCK_MS))) >= 0
  }

  function Share(c: Cell, before: Option<u32>): Sums {
    if Takes(c, before) then Sums(c.sum, c.count, if before.Some? then GREF_BLOCK_MS else 0) else Sums(0, 0, 0)
  }

  function Gathered(cells: seq<Cell>, before: Option<u32>): Sums {
    if cells == [] then Sums(0, 0, 0)
    else Plus(Gathered(cells[..|cells| - 1], before), Share(cells[|cells| - 1], before))
  }

  function MeanOfSums(s: Sums, fallback: int): int {
    if s.count > 0 then Truncated(s.total, s.count) else fallback
  }

  function MeanOf(blocks: seq<Block>, before: Option<u32>, fallback: int): int {
    MeanOfSums(Gathered(CellsOf(blocks), before), fallback)
  }

  /** Frozen before a time: the ended blocks of the window, the one under way
      left out. */
  function Frozen(g: Ground, t: u32): Ground
    requires g.blocks != []
  {
    var past := Past(g);
    var sums := Gathered(CellsOf(past), Some(t));
    g.(tracking := false, pressure := MeanOfSums(sums, g.pressure), degraded := sums.span < MIN_PAD_MS)
  }

  function Past(g: Ground): seq<Block>
    requires g.blocks != []
  {
    var w := Window(g.blocks);
    w[..|w| - 1]
  }

  lemma {:induction false} GatheredBoth(a: seq<Cell>, b: seq<Cell>, before: Option<u32>)
    ensures Gathered(a + b, before) == Plus(Gathered(a, before), Gathered(b, before))
  {
    hide Share;
    if b == [] {
      assert a + b == a;
    } else {
      GatheredBoth(a, b[..|b| - 1], before);
      assert (a + b)[..|a + b| - 1] == a + b[..|b| - 1];
    }
  }

  /* ---- What the mean means ---- */

  function AllReadings(blocks: seq<Block>): seq<Reading> {
    if blocks == [] then [] else AllReadings(blocks[..|blocks| - 1]) + blocks[|blocks| - 1].readings
  }

  predicate CountsFit(blocks: seq<Block>) {
    forall b :: b in blocks ==> |b.readings| < 0x1_0000
  }

  lemma {:induction false} SumOfBoth(a: seq<Reading>, b: seq<Reading>)
    ensures SumOf(a + b) == SumOf(a) + SumOf(b)
  {
    if b == [] {
      assert a + b == a;
    } else {
      SumOfBoth(a, b[..|b| - 1]);
      assert (a + b)[..|a + b| - 1] == a + b[..|b| - 1];
    }
  }

  lemma {:induction false} GatheredIsAll(blocks: seq<Block>)
    requires CountsFit(blocks)
    ensures var s := Gathered(CellsOf(blocks), None);
            s.total == SumOf(AllReadings(blocks)) && s.count == |AllReadings(blocks)|
  {
    hide Gathered, CellsOf;
    if blocks == [] {
      NothingGathered();
    } else {
      var init, last := blocks[..|blocks| - 1], blocks[|blocks| - 1];
      assert last in blocks && forall b :: b in init ==> b in blocks;
      GatheredIsAll(init);
      GatheredStep(blocks, None);
      SumOfBoth(AllReadings(init), last.readings);
      assert |last.readings| % 0x1_0000 == |last.readings|;
    }
  }

  lemma NothingGathered()
    ensures Gathered(CellsOf([]), None) == Sums(0, 0, 0)
  {
  }

  /* ---- Over whole histories ---- */

  /** Feeds in time order, no block as far from the next as a turn of the clock. */
  predicate InOrder(g: Ground, time: nat) {
    g.blocks != [] && (g.started ==>
      var last := g.blocks[|g.blocks| - 1];
      last.start <= time < last.start + TURN)
  }

  /** Blocks in order, none of them empty, each reading in its block's quarter second. */
  predicate Sorted(blocks: seq<Block>, started: bool) {
    && blocks != []
    && (if started then InBlocks(blocks) else |blocks| == 1 && blocks[0].readings != [] && Untimed(blocks[0]))
  }

  predicate InBlocks(blocks: seq<Block>) {
    && (forall i :: 0 <= i < |blocks| ==> InBlock(blocks[i]))
    && (forall i, j :: 0 <= i < j < |blocks| ==> blocks[i].start + GREF_BLOCK_MS <= blocks[j].start)
  }

  predicate Untimed(b: Block) {
    forall r :: r in b.readings ==> r.Seed?
  }

  predicate InBlock(b: Block) {
    b.readings != [] && forall r :: r in b.readings && r.Timed? ==> b.start <= r.time < b.start + GREF_BLOCK_MS
  }

  /** The mean of all the readings in the window stands. */
  predicate MeanStands(g: Ground) {
    g.blocks != [] && g.pressure == MeanOf(Window(g.blocks), None, g.pressure)
  }

  lemma SeedStands(pa: int, tracking: bool)
    ensures Sorted(Seeded(pa, tracking).blocks, false) && MeanStands(Seeded(pa, tracking))
  {
    var g := Seeded(pa, tracking);
    var cells := CellsOf(g.blocks);
    assert g.blocks[0].readings[..0] == [] && cells[..0] == [];
    assert SumOf(g.blocks[0].readings) == pa;
    assert Gathered(cells, None) == Plus(Gathered(cells[..0], None), Share(cells[0], None));
    assert Truncated(pa, 1) == pa;
  }

  /** Nothing is rejected or degraded of a seed; and its block has no time until
      the first reading taken gives it its own. */
  lemma SeedBlockStartsLate(pa: int, tracking: bool, f: Feed, now: u32)
    ensures RejectingMs(Seeded(pa, tracking), now) == 0 && !Seeded(pa, tracking).degraded
    ensures tracking && -50 <= f.pa - pa <= 50 ==>
              Fed(Seeded(pa, tracking), f.pa, f.time).blocks == [Block(f.time, [Seed(pa), Timed(f.pa, f.time)])]
  {
    hide MeanOf;
    var g := Seeded(pa, tracking);
    assert g.blocks[..0] == [] && g.blocks[0].readings + [Timed(f.pa, f.time)] == [Seed(pa), Timed(f.pa, f.time)];
  }

  /** Every feed keeps it: while tracking, the pressure is the truncated mean of the
      seed and the accepted readings of the last twenty blocks. */
  lemma FeedKeeps(g: Ground, pa: int, time: nat)
    requires Sorted(g.blocks, g.started) && MeanStands(g) && InOrder(g, time)
    ensures var h := Fed(g, pa, time);
            Sorted(h.blocks, h.started) && MeanStands(h)
    ensures var h := Fed(g, pa, time);
            h.blocks != g.blocks <==> (g.tracking && WithinGate(g, pa))
  {
    hide MeanOf, Sorted;
    var h := Fed(g, pa, time);
    if g.tracking && WithinGate(g, pa) {
      JoinedSorted(g, pa, time);
      MeanAgain(h, g.pressure);
    }
  }

  lemma JoinedSorted(g: Ground, pa: int, time: nat)
    requires Sorted(g.blocks, g.started) && InOrder(g, time)
    ensures Sorted(Joined(g, pa, time), true) && Joined(g, pa, time) != g.blocks
  {
    hide InBlocks;
    var n := |g.blocks| - 1;
    var last, r := g.blocks[n], Timed(pa, time);
    if !g.started {
      assert Joined(g, pa, time) == [Block(time, last.readings + [r])];
      OneBlock(Block(time, last.readings + [r]));
    } else {
      ElapsedIsTrue(last.start, time);
      if time - last.start >= GREF_BLOCK_MS {
        BlockBegins(g.blocks, Block(time, [r]));
      } else {
        BlockGrows(g.blocks, r);
      }
    }
  }

  lemma OneBlock(b: Block)
    requires InBlock(b)
    ensures InBlocks([b])
  {
  }

  lemma BlockBegins(blocks: seq<Block>, b: Block)
    requires blocks != [] && InBlocks(blocks) && InBlock(b)
    requires blocks[|blocks| - 1].start + GREF_BLOCK_MS <= b.start
    ensures InBlocks(blocks + [b])
  {
    hide InBlock;
  }

  lemma BlockGrows(blocks: seq<Block>, r: Reading)
    requires blocks != [] && InBlocks(blocks) && r.Timed?
    requires blocks[|blocks| - 1].start <= r.time < blocks[|blocks| - 1].start + GREF_BLOCK_MS
    ensures var last := blocks[|blocks| - 1];
            var grown := blocks[..|blocks| - 1] + [Block(last.start, last.readings + [r])];
            InBlocks(grown) && grown != blocks
  {
    var last := blocks[|blocks| - 1];
    assert InBlock(Block(last.start, last.readings + [r])) by {
      assert InBlock(last);
    }
    hide InBlock;
    assert |last.readings + [r]| != |last.readings|;
  }

  lemma MeanAgain(h: Ground, before: int)
    requires h.blocks != [] && h.pressure == MeanOf(Window(h.blocks), None, before)
    ensures MeanStands(h)
  {
  }

  /** Readings, one after another. */
  datatype Feed = Feed(pa: int, time: nat)

  function AllFed(g: Ground, feeds: seq<Feed>): (h: Ground)
    requires g.blocks != []
    ensures h.blocks != []
  {
    if feeds == [] then g
    else var n := |feeds| - 1; Fed(AllFed(g, feeds[..n]), feeds[n].pa, feeds[n].time)
  }

  /** The readings that found the mean then standing within the gate. */
  function Accepted(g: Ground, feeds: seq<Feed>): seq<Reading>
    requires g.blocks != []
  {
    if feeds == [] then []
    else
      var n := |feeds| - 1;
      var before := AllFed(g, feeds[..n]);
      Accepted(g, feeds[..n])
      + (if before.tracking && WithinGate(before, feeds[n].pa) then [Timed(feeds[n].pa, feeds[n].time)] else [])
  }

  /** No accepted reading is lost from the history, none added, none moved. */
  lemma {:induction false} HistoryIsAccepted(g: Ground, feeds: seq<Feed>)
    requires g.blocks != []
    ensures AllReadings(AllFed(g, feeds).blocks) == AllReadings(g.blocks) + Accepted(g, feeds)
  {
    hide Joined, WithinGate, MeanOf, AllReadings;
    var r := AllReadings(g.blocks);
    if feeds == [] {
      assert r + [] == r;
    } else {
      var n := |feeds| - 1;
      var before, accepted := AllFed(g, feeds[..n]), Accepted(g, feeds[..n]);
      HistoryIsAccepted(g, feeds[..n]);
      JoinedReadings(before, feeds[n].pa, feeds[n].time);
      assert accepted + [] == accepted;
      var last := [Timed(feeds[n].pa, feeds[n].time)];
      assert (r + accepted) + last == r + (accepted + last);
    }
  }

  lemma JoinedReadings(g: Ground, pa: int, time: nat)
    requires g.blocks != []
    ensures AllReadings(Joined(g, pa, time)) == AllReadings(g.blocks) + [Timed(pa, time)]
  {
    var n, j, r := |g.blocks| - 1, Joined(g, pa, time), Timed(pa, time);
    var before := AllReadings(g.blocks[..n]);
    if |j| == n + 1 {
      assert j[..n] == g.blocks[..n] && j[n].readings == g.blocks[n].readings + [r];
      assert before + (g.blocks[n].readings + [r]) == (before + g.blocks[n].readings) + [r];
    } else {
      assert j[..n + 1] == g.blocks && j[n + 1].readings == [r];
    }
  }

  ghost predicate InOrderAll(g: Ground, feeds: seq<Feed>)
    requires g.blocks != []
  {
    forall i :: 0 <= i < |feeds| ==> InOrder(AllFed(g, feeds[..i]), feeds[i].time)
  }

  /** From a seed on, whatever is fed in time order: the pressure is the truncated
      mean of what the window holds, and a time's readings are in its blocks. */
  lemma {:induction false} MeanStandsThroughout(pa: int, feeds: seq<Feed>)
    requires InOrderAll(Seeded(pa, true), feeds)
    ensures var g := AllFed(Seeded(pa, true), feeds);
            && Sorted(g.blocks, g.started) && MeanStands(g)
            && (CountsFit(Window(g.blocks)) ==>
                  var all := AllReadings(Window(g.blocks));
                  |all| > 0 && g.pressure == Truncated(SumOf(all), |all|))
    decreases |feeds|
  {
    var start := Seeded(pa, true);
    var g := AllFed(start, feeds);
    if feeds == [] {
      SeedStands(pa, true);
    } else {
      var n := |feeds| - 1;
      assert InOrderAll(start, feeds[..n]) by {
        forall i | 0 <= i < n ensures feeds[..n][..i] == feeds[..i] {}
      }
      MeanStandsThroughout(pa, feeds[..n]);
      FeedKeeps(AllFed(start, feeds[..n]), feeds[n].pa, feeds[n].time);
    }
    if CountsFit(Window(g.blocks)) {
      GatheredIsAll(Window(g.blocks));
      assert AllReadings(Window(g.blocks)) != [];
    }
  }

  /** From a seed on, a reading is taken exactly when it is within 50 Pa, either
      way, of the truncated mean of what the window holds; another leaves the
      pressure, and all that was taken, as they were. */
  lemma TakenWithinFiftyPa(pa: int, feeds: seq<Feed>, f: Feed)
    requires InOrderAll(Seeded(pa, true), feeds + [f])
    requires CountsFit(Window(AllFed(Seeded(pa, true), feeds).blocks))
    ensures var g, h := AllFed(Seeded(pa, true), feeds), AllFed(Seeded(pa, true), feeds + [f]);
            var all := AllReadings(Window(g.blocks));
            && |all| > 0 && h.tracking
            && (if -50 <= f.pa - Truncated(SumOf(all), Positive(|all|)) <= 50
                then AllReadings(h.blocks) == AllReadings(g.blocks) + [Timed(f.pa, f.time)]
                else h.blocks == g.blocks && h.pressure == g.pressure)
  {
    hide Joined, MeanOf;
    var start := Seeded(pa, true);
    var both := feeds + [f];
    assert both[..|feeds|] == feeds;
    forall i | 0 <= i < |feeds|
      ensures InOrder(AllFed(start, feeds[..i]), feeds[i].time)
    {
      assert both[..i] == feeds[..i] && both[i] == feeds[i];
    }
    MeanStandsThroughout(pa, feeds);
    StillTracking(start, feeds);
    JoinedReadings(AllFed(start, feeds), f.pa, f.time);
  }

  lemma {:induction false} StillTracking(g: Ground, feeds: seq<Feed>)
    requires g.blocks != []
    ensures AllFed(g, feeds).tracking == g.tracking
  {
    hide Joined, MeanOf;
    if feeds != [] {
      StillTracking(g, feeds[..|feeds| - 1]);
    }
  }

  /* ---- Freezing ---- */

  /** The blocks over by a time. */
  function Ended(blocks: seq<Block>, t: nat): (e: seq<Block>)
    ensures forall b :: b in e ==> b in blocks && b.start + GREF_BLOCK_MS <= t
    ensures forall b :: b in blocks && b.start + GREF_BLOCK_MS <= t ==> b in e
  {
    if blocks == [] then []
    else
      var last := blocks[|blocks| - 1];
      var e := Ended(blocks[..|blocks| - 1], t);
      assert blocks == blocks[..|blocks| - 1] + [last];
      e + (if last.start + GREF_BLOCK_MS <= t then [last] else [])
  }

  /** Each ends less than half a turn of the clock from t. */
  predicate Near(blocks: seq<Block>, t: nat) {
    forall b :: b in blocks ==> -HALF_TURN <= t - (b.start + GREF_BLOCK_MS) < HALF_TURN
  }

  lemma {:induction false} GatheredIsEnded(blocks: seq<Block>, t: nat)
    requires CountsFit(blocks) && Near(blocks, t) && forall b :: b in blocks ==> b.readings != []
    ensures var used := AllReadings(Ended(blocks, t));
            Gathered(CellsOf(blocks), Some(Wrap(t))) == Sums(SumOf(used), |used|, GREF_BLOCK_MS * |Ended(blocks, t)|)
  {
    hide Takes, Gathered, CellsOf, SumOf, AllReadings, InBlock;
    if blocks == [] {
      NoneGathered(t);
    } else {
      var init, last := blocks[..|blocks| - 1], blocks[|blocks| - 1];
      assert last in blocks && forall b :: b in init ==> b in blocks;
      GatheredIsEnded(init, t);
      GatheredStep(blocks, Some(Wrap(t)));
      EndsWhenItSays(last, t);
      ReadingsStep(Ended(init, t), last);
    }
  }

  lemma NoneGathered(t: nat)
    ensures Gathered(CellsOf([]), Some(Wrap(t))) == Sums(0, 0, 0) && AllReadings([]) == [] && SumOf([]) == 0
  {
  }

  lemma GatheredStep(blocks: seq<Block>, before: Option<u32>)
    requires blocks != []
    ensures Gathered(CellsOf(blocks), before)
         == Plus(Gathered(CellsOf(blocks[..|blocks| - 1]), before), Share(CellOf(blocks[|blocks| - 1]), before))
  {
    assert CellsOf(blocks)[..|blocks| - 1] == CellsOf(blocks[..|blocks| - 1]);
  }

  lemma ReadingsStep(e: seq<Block>, last: Block)
    ensures AllReadings(e + [last]) == AllReadings(e) + last.readings && e + [] == e
    ensures SumOf(AllReadings(e + [last])) == SumOf(AllReadings(e)) + SumOf(last.readings)
  {
    assert (e + [last])[..|e|] == e;
    SumOfBoth(AllReadings(e), last.readings);
  }

  lemma EndsWhenItSays(b: Block, t: nat)
    requires -HALF_TURN <= t - (b.start + GREF_BLOCK_MS) < HALF_TURN && 0 < |b.readings| < 0x1_0000
    ensures Takes(CellOf(b), Some(Wrap(t))) <==> b.start + GREF_BLOCK_MS <= t
  {
    WrapUnique(Wrap(b.start) + GREF_BLOCK_MS, Wrap(b.start + GREF_BLOCK_MS),
               (b.start + GREF_BLOCK_MS) / 0x1_0000_0000 - b.start / 0x1_0000_0000);
    SignedIsTrue(b.start + GREF_BLOCK_MS, t);
  }

  /** Frozen before t, the pressure rests on exactly the blocks of the window that
      were over by t and not under way, so only on readings taken before t (and
      the seed, with the first block); and it is degraded exactly when they
      cover less than a second. */
  lemma FreezeUsesThePast(g: Ground, t: nat)
    requires Sorted(g.blocks, g.started) && CountsFit(Past(g)) && Near(Past(g), t)
    ensures var used, f := Ended(Past(g), t), Frozen(g, Wrap(t));
            && (f.degraded <==> GREF_BLOCK_MS * |used| < MIN_PAD_MS)
            && f.pressure == (if used == [] then g.pressure
                              else Truncated(SumOf(AllReadings(used)), Positive(|AllReadings(used)|)))
            && (forall r :: r in AllReadings(used) && r.Timed? ==> r.time < t)
            && (used != [] ==> |AllReadings(used)| > 0)
  {
    var used := Ended(Past(g), t);
    forall b | b in Past(g) ensures InBlock(b) {
      assert b in g.blocks;
    }
    GatheredIsEnded(Past(g), t);
    EndedReadings(used, t);
  }

  /** Frozen, the reference stands: nothing fed to it changes it. */
  lemma {:induction false} FrozenStands(g: Ground, t: u32, feeds: seq<Feed>)
    requires g.blocks != []
    ensures var f := Frozen(g, t); !f.tracking && f.blocks == g.blocks && AllFed(f, feeds) == f
  {
    hide MeanOfSums, Gathered;
    if feeds != [] {
      FrozenStands(g, t, feeds[..|feeds| - 1]);
    }
  }

  function Positive(n: nat): (p: nat)
    ensures p > 0 && (n > 0 ==> p == n)
  {
    if n == 0 then 1 else n
  }

  lemma {:induction false} EndedReadings(used: seq<Block>, t: nat)
    requires forall b :: b in used ==> InBlock(b) && b.start + GREF_BLOCK_MS <= t
    ensures forall r :: r in AllReadings(used) && r.Timed? ==> r.time < t
    ensures used != [] ==> AllReadings(used) != []
  {
    if used != [] {
      assert used[|used| - 1] in used;
      EndedReadings(used[..|used| - 1], t);
    }
  }

  /* ---- How long readings have been rejected ---- */

  /** gref_rejecting_ms(): one past the time is kept, so that 0 can mean none. */
  function RejectingMs(g: Ground, now: u32): u32 {
    if g.tracking && g.rejectingSince != 0 then Sub(Add(now, 1), g.rejectingSince) else 0
  }

  /** A run of rejected readings is timed from its first, unless that is taken on
      the clock's last tick: then, and only then, it is not noted. */
  lemma FirstRejectionCounts(g: Ground, pa: int, time: nat, now: nat)
    requires g.blocks != [] && g.tracking && g.rejectingSince == 0 && !WithinGate(g, pa)
    requires time <= now < time + TURN
    ensures var h := Fed(g, pa, time);
            if Wrap(time) == 0xFFFF_FFFF then h.rejectingSince == 0 && RejectingMs(h, Wrap(now)) == 0
            else h.rejectingSince != 0 && RejectingMs(h, Wrap(now)) == now - time
  {
    TickOn(time);
    TickOn(now);
    ElapsedIsTrue(time + 1, now + 1);
  }

  lemma TickOn(t: nat)
    ensures Add(Wrap(t), 1) == Wrap(t + 1) && (Wrap(t + 1) == 0 <==> Wrap(t) == 0xFFFF_FFFF)
  {
    WrapUnique(Wrap(t) + 1, Wrap(t + 1), (t + 1) / 0x1_0000_0000 - t / 0x1_0000_0000);
  }

  lemma {:induction false} RejectionsKeepTheFirst(g: Ground, feeds: seq<Feed>)
    requires g.blocks != [] && g.tracking && g.rejectingSince != 0
    requires forall f :: f in feeds ==> !WithinGate(g, f.pa)
    ensures AllFed(g, feeds) == g
  {
    if feeds != [] {
      var n := |feeds| - 1;
      RejectionsKeepTheFirst(g, feeds[..n]);
      assert feeds[n] in feeds;
    }
  }

  /** Each reading as the gate finds it: far when it is not taken. */
  function Looks(g: Ground, feeds: seq<Feed>): (ls: seq<Look>)
    requires g.blocks != []
    ensures |ls| == |feeds| && forall i :: 0 <= i < |ls| ==> ls[i].t == feeds[i].time
  {
    if feeds == [] then []
    else
      var n := |feeds| - 1;
      Looks(g, feeds[..n]) + [Look(!WithinGate(AllFed(g, feeds[..n]), feeds[n].pa), feeds[n].time)]
  }

  lemma {:induction false} RejectionsAreARun(g: Ground, feeds: seq<Feed>)
    requires g.blocks != [] && g.tracking && g.rejectingSince == 0
    ensures AllFed(g, feeds).rejectingSince == AfterLooks(Looks(g, feeds)) && AllFed(g, feeds).tracking
  {
    hide Joined, MeanOf, WithinGate;
    if feeds != [] {
      RejectionsAreARun(g, feeds[..|feeds| - 1]);
      assert Looks(g, feeds)[..|feeds| - 1] == Looks(g, feeds[..|feeds| - 1]);
    }
  }

  /** Every time of the run is one of the readings'. */
  lemma RunIsOfFeeds(g: Ground, feeds: seq<Feed>, i: nat)
    requires g.blocks != [] && i < |FarRun(Looks(g, feeds))|
    ensures exists f :: f in feeds && f.time == FarRun(Looks(g, feeds))[i]
  {
    hide AllFed, WithinGate;
    var ls, ts := Looks(g, feeds), FarRun(Looks(g, feeds));
    var k := |ls| - |ts| + i;
    assert ls[k].t == ts[i];
    assert feeds[k] in feeds && feeds[k].time == ts[i];
  }

  /** Over any readings: none are being rejected just after one is taken; otherwise
      the time is since the first rejected after it, or, that being on the clock's
      last tick, since the first that is not. */
  lemma RejectingSinceTheRun(g: Ground, feeds: seq<Feed>, now: nat)
    requires g.blocks != [] && g.tracking && g.rejectingSince == 0
    requires forall f :: f in feeds ==> f.time <= now < f.time + TURN
    ensures var ts, ms := FarRun(Looks(g, feeds)), RejectingMs(AllFed(g, feeds), Wrap(now));
            ms == if ts == [] || Wrap(ts[Anchor(ts)]) == LAST_TICK then 0 else now - ts[Anchor(ts)]
  {
    hide AllFed, Wrap, Add, Sub, FarRun, Looks, Anchor, AfterLooks;
    var ts := FarRun(Looks(g, feeds));
    RejectionsAreARun(g, feeds);
    GateKeepsRun(Looks(g, feeds));
    if ts != [] {
      var a := Anchor(ts);
      RunIsOfFeeds(g, feeds, a);
      AfterRunIsAnchor(ts);
      WrapSuccessor(ts[a]);
      WrapSuccessor(now);
      ElapsedIsTrue(ts[a] + 1, now + 1);
    }
  }
}
