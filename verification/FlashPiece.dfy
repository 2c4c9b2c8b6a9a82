/** A piece of a flash operation on the chip (src/flash_op.c, run_piece): polled
    while it is busy, suspended in time for the slot's end, and over by it. */
module FlashPiece {
  import opened Words
  import opened Wrappers
  import opened FlashTiming
  import opened FlashChip
  import opened FlashSlot
  import opened Core1Frame

  const PIECE_HARD_MAX_US := 20_000
  const SUSPEND_HARD_MAX_US := 1000

  /** run_piece()'s test of whether to suspend a piece at a poll. */
  predicate MustSuspend(p: Piece, now: u32) {
    p.maySuspend && BeforeOrAt(p.suspendAt, now) && BeforeOrAt(p.suspendFrom, now)
  }

  /** A turn of the loop: the status read at one time finds the chip busy or not,
      and the timer is read after it. */
  datatype Poll = Poll(read: int, busy: bool, now: int)

  /** How the loop over some polls ends: at which, and why. */
  datatype End = Ended(n: nat) | Suspended(n: nat) | Endless(n: nat) | StillBusy

  /** The loop from its k-th poll on, the timer read as t0 after the command. */
  function Polled(p: Piece, t0: int, polls: seq<Poll>, k: nat): (e: End)
    requires k <= |polls|
    ensures !e.StillBusy? ==> k <= e.n < |polls| && (e.Ended? <==> !polls[e.n].busy)
    ensures e.Suspended? ==> MustSuspend(p, Wrap(polls[e.n].now))
    ensures e.Endless? ==>
              !MustSuspend(p, Wrap(polls[e.n].now)) && Sub(Wrap(polls[e.n].now), Wrap(t0)) > PIECE_HARD_MAX_US
    ensures forall i :: k <= i < (if e.StillBusy? then |polls| else e.n) ==>
              polls[i].busy && !MustSuspend(p, Wrap(polls[i].now))
    decreases |polls| - k
  {
    if k == |polls| then StillBusy
    else if !polls[k].busy then Ended(k)
    else if MustSuspend(p, Wrap(polls[k].now)) then Suspended(k)
    else if Sub(Wrap(polls[k].now), Wrap(t0)) > PIECE_HARD_MAX_US then Endless(k)
    else Polled(p, t0, polls, k + 1)
  }

  /** The first look at the timer, from the k-th on, at which the part has had its
      time to suspend since ts. */
  function Settled(ts: int, settleUs: u32, spins: seq<int>, k: nat): (j: Option<nat>)
    requires k <= |spins|
    ensures j.Some? ==> k <= j.value < |spins| && Sub(Wrap(spins[j.value]), Wrap(ts)) >= settleUs
    ensures forall i :: k <= i < (if j.Some? then j.value else |spins|) ==> Sub(Wrap(spins[i]), Wrap(ts)) < settleUs
    decreases |spins| - k
  {
    if k == |spins| then None
    else if Sub(Wrap(spins[k]), Wrap(ts)) >= settleUs then Some(k)
    else Settled(ts, settleUs, spins, k + 1)
  }

  /** The polls after it: the suspend has landed, or is given up. */
  function Landed(ts: int, polls: seq<Poll>, k: nat): (e: End)
    requires k <= |polls|
    ensures !e.Suspended? && (!e.StillBusy? ==> k <= e.n < |polls|)
    decreases |polls| - k
  {
    if k == |polls| then StillBusy
    else if !polls[k].busy then Ended(k)
    else if Sub(Wrap(polls[k].now), Wrap(ts)) > SUSPEND_HARD_MAX_US then Endless(k)
    else Landed(ts, polls, k + 1)
  }

  /** All that a piece sees, so far: the polls up to its suspend command; the timer
      after that, and while it settles; the polls after, and the suspended bit. */
  datatype Trace = Trace(polls: seq<Poll>, ts: int, spins: seq<int>, after: seq<Poll>, bit: bool)

  /** What run_piece() returns for it, if it has. */
  function Ran(p: Piece, settleUs: u32, t0: int, tr: Trace): Option<PieceResult> {
    match Polled(p, t0, tr.polls, 0)
    case StillBusy => None
    case Ended(_) => Some(PieceDone)
    case Endless(_) => Some(PieceEndless)
    case Suspended(_) => if Settled(tr.ts, settleUs, tr.spins, 0).None? then None else RanOn(tr)
  }

  function RanOn(tr: Trace): Option<PieceResult> {
    match Landed(tr.ts, tr.after, 0)
    case Ended(_) => Some(if tr.bit then PieceSuspended else PieceDone)
    case Endless(_) => Some(PieceESuspend)
    case _ => None
  }

  /** run_piece()'s three loops. */
  method RunPiece(p: Piece, settleUs: u32, t0: int, tr: Trace) returns (r: Option<PieceResult>)
    ensures r == Ran(p, settleUs, t0, tr)
  {
    var k := 0;
    while true
      invariant k <= |tr.polls| && Polled(p, t0, tr.polls, 0) == Polled(p, t0, tr.polls, k)
      decreases |tr.polls| - k
    {
      if k == |tr.polls| {
        return None;
      }
      if !tr.polls[k].busy {
        return Some(PieceDone);
      }
      var now := Wrap(tr.polls[k].now);
      if p.maySuspend && Signed(Sub(now, p.suspendAt)) >= 0 && Signed(Sub(now, p.suspendFrom)) >= 0 {
        break;
      }
      if Sub(now, Wrap(t0)) > PIECE_HARD_MAX_US {
        return Some(PieceEndless);
      }
      k := k + 1;
    }
    assert Polled(p, t0, tr.polls, 0) == Suspended(k);
    var settled := Settle(tr.ts, settleUs, tr.spins);
    if !settled {
      return None;
    }
    r := AwaitSuspend(tr);
  }

  method Settle(ts: int, settleUs: u32, spins: seq<int>) returns (settled: bool)
    ensures settled == Settled(ts, settleUs, spins, 0).Some?
  {
    var k := 0;
    while k < |spins| && Sub(Wrap(spins[k]), Wrap(ts)) < settleUs
      invariant k <= |spins| && Settled(ts, settleUs, spins, 0) == Settled(ts, settleUs, spins, k)
    {
      k := k + 1;
    }
    return k < |spins|;
  }

  method AwaitSuspend(tr: Trace) returns (r: Option<PieceResult>)
    ensures r == RanOn(tr)
  {
    var k := 0;
    while k < |tr.after| && tr.after[k].busy
      invariant k <= |tr.after| && Landed(tr.ts, tr.after, 0) == Landed(tr.ts, tr.after, k)
    {
      if Sub(Wrap(tr.after[k].now), Wrap(tr.ts)) > SUSPEND_HARD_MAX_US {
        return Some(PieceESuspend);
      }
      k := k + 1;
    }
    return if k == |tr.after| then None else Some(if tr.bit then PieceSuspended else PieceDone);
  }

  /** The timer before a poll: as the poll before it left it, or the command. */
  function Before(t0: int, polls: seq<Poll>, k: nat): int
    requires k <= |polls|
  {
    if k == 0 then t0 else polls[k - 1].now
  }

  /** Polls in order, none of them more than d after the one before. */
  predicate NeverLate(t0: int, polls: seq<Poll>, d: nat) {
    forall k :: 0 <= k < |polls| ==>
      Before(t0, polls, k) <= polls[k].read <= polls[k].now <= Before(t0, polls, k) + d
  }

  /** When a suspend falls due, for a slot's end. */
  function Due(t: Timing, slotEnd: int): int {
    slotEnd - t.suspendUs - FLASH_SLOT_SUSPEND_US
  }

  /** What is planned in a slot, and its command out. */
  predicate Planned(t: Timing, kind: Kind, now: int, slotEnd: int, t0: int) {
    && Modest(t) && slotEnd - FRAME_WRITER_US <= now <= slotEnd
    && PieceFits(t, kind, Wrap(now), Wrap(slotEnd))
    && now <= t0 <= now + FLASH_SLOT_START_US
  }

  lemma FallsDue(t: Timing, kind: Kind, resume: bool, now: int, slotEnd: int, t0: int, x: int)
    requires Planned(t, kind, now, slotEnd, t0) && Suspends(t, kind) && t0 <= x <= slotEnd + PIECE_HARD_MAX_US
    ensures MustSuspend(PlannedPiece(t, kind, resume, Wrap(now), Wrap(slotEnd)), Wrap(x)) <==> x >= Due(t, slotEnd)
    ensures t0 + t.resumeHoldUs <= Due(t, slotEnd)
  {
    PlanIsTrue(t, kind, resume, now, slotEnd);
    BeforeIsTrue(Due(t, slotEnd), x);
    BeforeIsTrue(now + FLASH_SLOT_START_US + t.resumeHoldUs, x);
  }

  /** Every poll the loop goes on from was before the suspend fell due. */
  lemma {:induction false} GoesOnBeforeDue(t: Timing, kind: Kind, resume: bool, now: int, slotEnd: int, t0: int,
                                           polls: seq<Poll>, d: nat, k: nat)
    requires Planned(t, kind, now, slotEnd, t0) && Suspends(t, kind)
    requires NeverLate(t0, polls, d) && d <= FLASH_SLOT_SUSPEND_US
    requires var p := PlannedPiece(t, kind, resume, Wrap(now), Wrap(slotEnd));
             k <= |polls| && forall i :: 0 <= i < k ==> !MustSuspend(p, Wrap(polls[i].now))
    ensures t0 <= Before(t0, polls, k) && (k > 0 ==> Before(t0, polls, k) < Due(t, slotEnd))
    ensures Before(t0, polls, k) <= Due(t, slotEnd)
  {
    hide PlannedPiece, MustSuspend, PieceFits;
    if k == 0 {
      FallsDue(t, kind, resume, now, slotEnd, t0, t0);
    } else {
      GoesOnBeforeDue(t, kind, resume, now, slotEnd, t0, polls, d, k - 1);
      FallsDue(t, kind, resume, now, slotEnd, t0, polls[k - 1].now);
    }
  }

  /** How a piece that can suspend ends: told to suspend within d of the poll
      before, it has the part's time to suspend left in the slot. */
  predicate EndsInSlot(e: End, t: Timing, slotEnd: int, t0: int, polls: seq<Poll>, d: nat)
    requires !e.StillBusy? ==> e.n < |polls|
  {
    match e
    case Ended(n) => polls[n].now <= Due(t, slotEnd) + d
    case Suspended(n) =>
      && Due(t, slotEnd) <= polls[n].now <= Due(t, slotEnd) + d
      && polls[n].now - t0 >= t.resumeHoldUs
      && Before(t0, polls, n) + d + t.suspendUs <= slotEnd
    case Endless(_) => false
    case StillBusy => Before(t0, polls, |polls|) <= Due(t, slotEnd)
  }

  /** A planned piece that can suspend, polled no more than FLASH_SLOT_SUSPEND_US
      apart, ends or is told to suspend before the slot's end, the part's own
      time to suspend still left; it is told no sooner after its command than
      the part's hold; and PIECE_HARD_MAX_US is never reached. */
  lemma SuspendingPieceEndsInSlot(t: Timing, kind: Kind, resume: bool, now: int, slotEnd: int, t0: int,
                                  polls: seq<Poll>, d: nat)
    requires Planned(t, kind, now, slotEnd, t0) && Suspends(t, kind)
    requires NeverLate(t0, polls, d) && d <= FLASH_SLOT_SUSPEND_US
    ensures var e := Polled(PlannedPiece(t, kind, resume, Wrap(now), Wrap(slotEnd)), t0, polls, 0);
            EndsInSlot(e, t, slotEnd, t0, polls, d)
  {
    hide PlannedPiece, MustSuspend, PieceFits;
    var e := Polled(PlannedPiece(t, kind, resume, Wrap(now), Wrap(slotEnd)), t0, polls, 0);
    var n := if e.StillBusy? then |polls| else e.n;
    GoesOnBeforeDue(t, kind, resume, now, slotEnd, t0, polls, d, n);
    if !e.StillBusy? {
      FallsDue(t, kind, resume, now, slotEnd, t0, polls[n].now);
      ElapsedIsTrue(t0, polls[n].now);
    }
  }

  /** The datasheet of a part that cannot suspend: a program ends within its
      worst case of its command. */
  predicate ProgramEnds(t: Timing, t0: int, polls: seq<Poll>) {
    forall k :: 0 <= k < |polls| && polls[k].read >= t0 + t.programMaxUs ==> !polls[k].busy
  }

  /** A planned program that cannot suspend has ended by the slot's end, and is
      found to have at the first poll after; the bound is never reached. With two
      polls' time to spare of the start's, it is found inside the slot. */
  lemma WholeProgramEndsInSlot(t: Timing, kind: Kind, resume: bool, now: int, slotEnd: int, t0: int,
                               polls: seq<Poll>, d: nat)
    requires Planned(t, kind, now, slotEnd, t0) && !Suspends(t, kind)
    requires NeverLate(t0, polls, d) && d <= FLASH_SLOT_SUSPEND_US && ProgramEnds(t, t0, polls)
    ensures kind == Program && t0 + t.programMaxUs <= slotEnd
    ensures var e := Polled(PlannedPiece(t, kind, resume, Wrap(now), Wrap(slotEnd)), t0, polls, 0);
            var n := if e.StillBusy? then |polls| else e.n;
            && (e.Ended? || e.StillBusy?) && (n > 0 ==> polls[n - 1].read < t0 + t.programMaxUs)
            && (e.Ended? && t0 + 2 * d <= now + FLASH_SLOT_START_US ==> polls[n].now <= slotEnd)
  {
    PlanIsTrue(t, kind, resume, now, slotEnd);
    var e := Polled(PlannedPiece(t, kind, resume, Wrap(now), Wrap(slotEnd)), t0, polls, 0);
    if e.Endless? {
      assert polls[e.n].read < t0 + t.programMaxUs;
      NotBeforeCommand(t0, polls, d, e.n);
      ElapsedIsTrue(t0, polls[e.n].now);
      assert false;
    }
    if e.Ended? && e.n > 0 {
      assert Before(t0, polls, e.n - 1) <= polls[e.n - 1].read;
    }
  }

  lemma {:induction false} NotBeforeCommand(t0: int, polls: seq<Poll>, d: nat, k: nat)
    requires NeverLate(t0, polls, d) && k <= |polls|
    ensures t0 <= Before(t0, polls, k)
  {
    if k > 0 {
      NotBeforeCommand(t0, polls, d, k - 1);
    }
  }

  /* ---- The suspend, and the return ---- */

  function Prior(ts: int, spins: seq<int>, k: nat): int
    requires k <= |spins|
  {
    if k == 0 then ts else spins[k - 1]
  }

  /** The timer while the part settles, no two looks more than d apart. */
  predicate Ticking(ts: int, spins: seq<int>, d: nat) {
    forall k :: 0 <= k < |spins| ==> Prior(ts, spins, k) <= spins[k] <= Prior(ts, spins, k) + d
  }

  /** Between any two times a piece sees there are at most d. */
  predicate Prompt(p: Piece, settleUs: u32, t0: int, tr: Trace, d: nat) {
    var e := Polled(p, t0, tr.polls, 0);
    && NeverLate(t0, tr.polls, d)
    && (e.Suspended? ==>
          && tr.polls[e.n].now <= tr.ts <= tr.polls[e.n].now + d
          && Ticking(tr.ts, tr.spins, d)
          && var j := Settled(tr.ts, settleUs, tr.spins, 0);
             j.Some? ==> NeverLate(tr.spins[j.value], tr.after, d))
  }

  /** The datasheet: from its time to suspend after the command the part is not busy. */
  predicate SuspendsInTime(t: Timing, tr: Trace) {
    forall k :: 0 <= k < |tr.after| && tr.after[k].read >= tr.ts + t.suspendUs ==> !tr.after[k].busy
  }

  /** The time it returns by, or has come to: the poll that finds the chip idle, or,
      past a suspend, another status read after it. */
  function ReturnBy(p: Piece, settleUs: u32, t0: int, tr: Trace, d: nat): int {
    match Polled(p, t0, tr.polls, 0)
    case StillBusy => t0
    case Suspended(_) =>
      if Settled(tr.ts, settleUs, tr.spins, 0).None? || Landed(tr.ts, tr.after, 0).StillBusy? then tr.ts
      else tr.after[Landed(tr.ts, tr.after, 0).n].now + d
    case e => tr.polls[e.n].now
  }

  /** It has settled within d of the part's time. */
  lemma {:induction false} SettlesSoon(ts: int, settleUs: u32, spins: seq<int>, d: nat, k: nat)
    requires Ticking(ts, spins, d) && settleUs <= 1_000_000 && d <= 1_000_000 && k <= |spins|
    requires forall i :: 0 <= i < k ==> Sub(Wrap(spins[i]), Wrap(ts)) < settleUs
    ensures ts <= Prior(ts, spins, k) <= ts + settleUs
  {
    if k > 0 {
      SettlesSoon(ts, settleUs, spins, d, k - 1);
      assert Prior(ts, spins, k - 1) <= spins[k - 1] <= Prior(ts, spins, k - 1) + d;
      ElapsedIsTrue(ts, spins[k - 1]);
    }
  }

  /** After the suspend command the first poll finds the part idle: the suspend is
      not given up, and the piece returns within four more steps of the code. */
  lemma SuspendReturns(t: Timing, tr: Trace, d: nat)
    requires t.suspendUs <= 1_000_000 && d <= 1_000_000 && Ticking(tr.ts, tr.spins, d) && SuspendsInTime(t, tr)
    requires var j := Settled(tr.ts, t.suspendUs, tr.spins, 0);
             j.Some? && NeverLate(tr.spins[j.value], tr.after, d)
    ensures tr.after == [] || (Landed(tr.ts, tr.after, 0) == Ended(0) && tr.after[0].now <= tr.ts + t.suspendUs + 2 * d)
  {
    var j := Settled(tr.ts, t.suspendUs, tr.spins, 0).value;
    SettlesSoon(tr.ts, t.suspendUs, tr.spins, d, j);
    assert Prior(tr.ts, tr.spins, j) <= tr.spins[j] <= Prior(tr.ts, tr.spins, j) + d;
    ElapsedNeverExceeds(tr.ts, tr.spins[j]);
    if tr.after != [] {
      assert Before(tr.spins[j], tr.after, 0) <= tr.after[0].read;
    }
  }

  /** A piece planned in its slot, none of its steps more than a fifth of
      FLASH_SLOT_SUSPEND_US after the one before: it is never given up, and has
      returned by the slot's end, the chip idle or holding its operation. */
  lemma SuspendingPieceReturnsInSlot(t: Timing, kind: Kind, resume: bool, now: int, slotEnd: int, t0: int,
                                     tr: Trace, d: nat)
    requires Planned(t, kind, now, slotEnd, t0) && Suspends(t, kind)
    requires Prompt(PlannedPiece(t, kind, resume, Wrap(now), Wrap(slotEnd)), t.suspendUs, t0, tr, d)
    requires 5 * d <= FLASH_SLOT_SUSPEND_US && SuspendsInTime(t, tr)
    ensures var p := PlannedPiece(t, kind, resume, Wrap(now), Wrap(slotEnd));
            && Ran(p, t.suspendUs, t0, tr) in {Some(PieceDone), Some(PieceSuspended), None}
            && ReturnBy(p, t.suspendUs, t0, tr, d) <= slotEnd
  {
    hide PlannedPiece, MustSuspend, PieceFits, Polled, Settled, Landed, NeverLate, Ticking, SuspendsInTime, Wrap, Sub;
    var p := PlannedPiece(t, kind, resume, Wrap(now), Wrap(slotEnd));
    SuspendingPieceEndsInSlot(t, kind, resume, now, slotEnd, t0, tr.polls, d);
    FallsDue(t, kind, resume, now, slotEnd, t0, t0);
    if Polled(p, t0, tr.polls, 0).Suspended? && Settled(tr.ts, t.suspendUs, tr.spins, 0).Some? {
      SuspendReturns(t, tr, d);
    }
  }

  /* ---- Giving up ---- */

  /** Polls of this turn of the timer, none before a time. */
  predicate InTurn(from: int, polls: seq<Poll>) {
    forall i :: 0 <= i < |polls| ==> from <= polls[i].now < from + TURN
  }

  lemma {:induction false} PolledGivesUp(p: Piece, t0: int, polls: seq<Poll>, k: nat, n: nat)
    requires InTurn(t0, polls) && k <= n < |polls|
    ensures Polled(p, t0, polls, k) == Endless(n) <==>
            && (forall i :: k <= i <= n ==> polls[i].busy && !MustSuspend(p, Wrap(polls[i].now)))
            && (forall i :: k <= i < n ==> polls[i].now <= t0 + PIECE_HARD_MAX_US)
            && polls[n].now > t0 + PIECE_HARD_MAX_US
    decreases n - k
  {
    hide MustSuspend;
    ElapsedIsTrue(t0, polls[k].now);
    if k < n {
      PolledGivesUp(p, t0, polls, k + 1, n);
    }
  }

  lemma {:induction false} LandedGivesUp(ts: int, polls: seq<Poll>, k: nat, n: nat)
    requires InTurn(ts, polls) && k <= n < |polls|
    ensures Landed(ts, polls, k) == Endless(n) <==>
            && (forall i :: k <= i <= n ==> polls[i].busy)
            && (forall i :: k <= i < n ==> polls[i].now <= ts + SUSPEND_HARD_MAX_US)
            && polls[n].now > ts + SUSPEND_HARD_MAX_US
    decreases n - k
  {
    ElapsedIsTrue(ts, polls[k].now);
    if k < n {
      LandedGivesUp(ts, polls, k + 1, n);
    }
  }

  /** A piece gives the chip up at the first poll past a bound, and only there:
      with every poll before it busy, PIECE_HARD_MAX_US after its command if it
      has not come to its suspend by then, or SUSPEND_HARD_MAX_US after that. */
  lemma GivesUpExactly(p: Piece, t0: int, tr: Trace, n: nat)
    requires InTurn(t0, tr.polls) && InTurn(tr.ts, tr.after)
    ensures n < |tr.polls| ==> (Polled(p, t0, tr.polls, 0) == Endless(n) <==>
              && (forall i :: 0 <= i <= n ==> tr.polls[i].busy && !MustSuspend(p, Wrap(tr.polls[i].now)))
              && (forall i :: 0 <= i < n ==> tr.polls[i].now <= t0 + 20_000)
              && tr.polls[n].now > t0 + 20_000)
    ensures n < |tr.after| ==> (Landed(tr.ts, tr.after, 0) == Endless(n) <==>
              && (forall i :: 0 <= i <= n ==> tr.after[i].busy)
              && (forall i :: 0 <= i < n ==> tr.after[i].now <= tr.ts + 1_000)
              && tr.after[n].now > tr.ts + 1_000)
  {
    if n < |tr.polls| {
      PolledGivesUp(p, t0, tr.polls, 0, n);
    }
    if n < |tr.after| {
      LandedGivesUp(tr.ts, tr.after, 0, n);
    }
  }

  /* ---- What it tells of the chip ---- */

  /** The chip behind what a piece reads: at each poll up to the suspend command,
      when that is sent, at each poll after it, and at the suspended bit. */
  datatype Sight = Sight(before: seq<Chip>, told: Chip, after: seq<Chip>, last: Chip)

  /** The chip at the poll before the k-th, or where the polls start. */
  function ChipBefore(start: Chip, chips: seq<Chip>, k: nat): Chip
    requires k <= |chips|
  {
    if k == 0 then start else chips[k - 1]
  }

  /** Polls of a chip left to itself: each reads its busy bit as it is then. */
  predicate Reads(start: Chip, polls: seq<Poll>, chips: seq<Chip>) {
    && |chips| == |polls|
    && forall k :: 0 <= k < |polls| ==>
         OwnMove(ChipBefore(start, chips, k), chips[k]) && (polls[k].busy <==> ChipBusy(chips[k]))
  }

  /** A piece's trace read off a chip its command left in `start`. */
  predicate Shows(start: Chip, tr: Trace, c: Sight) {
    && Reads(start, tr.polls, c.before)
    && OwnMove(ChipBefore(start, c.before, |c.before|), c.told)
    && Reads(ToldToSuspend(c.told), tr.after, c.after)
    && OwnMove(ChipBefore(ToldToSuspend(c.told), c.after, |c.after|), c.last)
    && (tr.bit <==> c.last == Held)
  }

  /** The chip at the read it returned on. */
  function AtReturn(p: Piece, settleUs: u32, t0: int, tr: Trace, start: Chip, c: Sight): Chip
    requires Shows(start, tr, c) && Ran(p, settleUs, t0, tr).Some?
  {
    var e := Polled(p, t0, tr.polls, 0);
    if !e.Suspended? then c.before[e.n]
    else var l := Landed(tr.ts, tr.after, 0); if l.Ended? then c.last else c.after[l.n]
  }

  /** Left to itself from one read to a later one. */
  lemma {:induction false} LeftAlone(start: Chip, polls: seq<Poll>, chips: seq<Chip>, i: nat, k: nat)
    requires Reads(start, polls, chips) && i <= k <= |chips|
    ensures OwnMove(ChipBefore(start, chips, i), ChipBefore(start, chips, k))
  {
    if i < k {
      LeftAlone(start, polls, chips, i, k - 1);
    }
  }

  /** Whatever the chip does and whenever it is read: its command taken, or with
      nothing to resume, a piece returns PIECE_SUSPENDED exactly when the chip
      holds its operation, PIECE_DONE exactly when the chip is ready, and
      otherwise leaves it busy: before the suspend command with
      PIECE_ENDLESS, after it with PIECE_ESUSPEND. */
  lemma RunPieceTells(p: Piece, settleUs: u32, t0: int, tr: Trace, start: Chip, c: Sight)
    requires (start == Busy || start == Ready) && Shows(start, tr, c) && Ran(p, settleUs, t0, tr).Some?
    ensures var chip, r := AtReturn(p, settleUs, t0, tr, start, c), Ran(p, settleUs, t0, tr).value;
            && (r == PieceSuspended <==> chip == Held)
            && (r == PieceDone <==> chip == Ready)
            && (r == PieceEndless <==> chip == Busy)
            && (r == PieceESuspend <==> chip == Suspending)
  {
    hide MustSuspend, Settled, Wrap, Sub;
    var e := Polled(p, t0, tr.polls, 0);
    LeftAlone(start, tr.polls, c.before, 0, e.n + 1);
    if e.Suspended? {
      var l := Landed(tr.ts, tr.after, 0);
      var told := ToldToSuspend(c.told);
      LeftAlone(start, tr.polls, c.before, 0, |c.before|);
      LeftAlone(told, tr.after, c.after, 0, l.n + 1);
      LeftAlone(told, tr.after, c.after, l.n + 1, |c.after|);
      LandedBusy(tr.ts, tr.after, 0);
    }
  }

  lemma LandedBusy(ts: int, polls: seq<Poll>, k: nat)
    requires k <= |polls|
    ensures var e := Landed(ts, polls, k); !e.StillBusy? ==> (e.Ended? <==> !polls[e.n].busy)
    decreases |polls| - k
  {
  }

  /** A fresh start that a chip ignores, holding another operation, returns
      PIECE_DONE at its first status read, and that operation is held yet. */
  lemma IgnoredStartReadsDone(p: Piece, settleUs: u32, t0: int, tr: Trace, c: Sight)
    requires Shows(Commanded(Held, false), tr, c) && tr.polls != []
    ensures Ran(p, settleUs, t0, tr) == Some(PieceDone)
    ensures AtReturn(p, settleUs, t0, tr, Commanded(Held, false), c) == Held
  {
    assert OwnMove(ChipBefore(Held, c.before, 0), c.before[0]);
  }

  /* ---- What flash_slot_run() returns ---- */

  /** The word for it in src/flash_slot.h or src/flash_op.c. */
  function RcOf(r: PieceResult): int {
    match r
    case PieceDone => PIECE_DONE
    case PieceSuspended => PIECE_SUSPENDED
    case PieceEndless => -6
    case PieceESuspend => -7
  }

  /** What a command of the loop does: a piece; the rest run whole, polled until
      the chip is idle; or a whole run that the lockout refused. */
  datatype How =
    | APiece(p: Piece, settleUs: u32, t0: int, tr: Trace, sight: Sight)
    | Whole(polls: seq<Poll>, chips: seq<Chip>)
    | LockedOut

  /** A command on the chip: as it was before, how it ran, and as it was on return. */
  datatype Turn = Turn(was: Chip, how: How, now: Chip)

  predicate OnChip(cmd: Command, turn: Turn) {
    var start := Commanded(turn.was, cmd.resume);
    match turn.how
    case APiece(p, settleUs, t0, tr, c) =>
      && Shows(start, tr, c) && Ran(p, settleUs, t0, tr).Some?
      && cmd.rc == RcOf(Ran(p, settleUs, t0, tr).value) && turn.now == AtReturn(p, settleUs, t0, tr, start, c)
    case Whole(polls, chips) =>
      && polls != [] && Reads(start, polls, chips)
      && cmd.rc == 0 && turn.now == chips[|polls| - 1] && !polls[|polls| - 1].busy
    case LockedOut => -4 <= cmd.rc <= -1 && turn.now == turn.was
  }

  /** All the commands of an operation on a chip that holds none before the first.
      Between two of them the chip is left to itself, or another operation
      finishes the one it holds. */
  predicate AllOnChip(cs: seq<Command>, turns: seq<Turn>) {
    && |turns| == |cs|
    && (forall i :: 0 <= i < |cs| ==> OnChip(cs[i], turns[i]))
    && (turns != [] ==> turns[0].was == Ready)
    && (forall i :: 0 < i < |cs| ==> OwnMove(turns[i - 1].now, turns[i].was) || turns[i].was == Ready)
  }

  /** What a command's answer says of the chip. */
  lemma CommandTells(cmd: Command, turn: Turn)
    requires OnChip(cmd, turn) && (if cmd.resume then turn.was in {Held, Ready} else turn.was == Ready)
    ensures cmd.rc == PIECE_DONE <==> !turn.how.LockedOut? && turn.now == Ready
    ensures cmd.rc == PIECE_SUSPENDED <==> !turn.how.LockedOut? && turn.now == Held
    ensures (cmd.rc == -6 <==> turn.now == Busy) && (cmd.rc == -7 <==> turn.now == Suspending)
    ensures cmd.rc != FLASH_SLOT_ETIME
  {
    var start := Commanded(turn.was, cmd.resume);
    match turn.how
    case APiece(p, settleUs, t0, tr, c) => RunPieceTells(p, settleUs, t0, tr, start, c);
    case Whole(polls, chips) => LeftAlone(start, polls, chips, 0, |chips|);
    case LockedOut =>
  }

  /** However the passes go and whatever ran between them: flash_slot_run()
      returns 0 exactly when its last command ran and left the chip ready, the
      one start it sent having been taken; a busy chip is never returned as
      ended; and its passes run out with the operation held, if it was started. */
  lemma ZeroMeansEnded(io: seq<Answer>, t: Option<Timing>, kind: Kind, turns: seq<Turn>)
    requires |io| == FLASH_SLOT_MAX_PIECES
    requires AllOnChip(After(io, t, kind, FLASH_SLOT_MAX_PIECES).commands, turns)
    ensures var rc, n := Returned(After(io, t, kind, FLASH_SLOT_MAX_PIECES)), |turns|;
            && (rc == PIECE_DONE <==> n > 0 && !turns[n - 1].how.LockedOut? && turns[n - 1].now == Ready)
            && (n > 0 && rc == FLASH_SLOT_ETIME ==> turns[n - 1].now == Held)
            && (n > 0 ==> (rc == -6 <==> turns[n - 1].now == Busy) && (rc == -7 <==> turns[n - 1].now == Suspending))
    ensures var cs := After(io, t, kind, FLASH_SLOT_MAX_PIECES).commands;
            forall i :: 0 <= i < |cs| ==>
              && (cs[i].resume <==> i > 0)
              && Commanded(turns[i].was, cs[i].resume) == (if i > 0 && turns[i].was == Ready then Ready else Busy)
  {
    hide After, OnChip, Returned;
    var l := After(io, t, kind, FLASH_SLOT_MAX_PIECES);
    var cs := l.commands;
    RunIsProper(io, t, kind);
    forall i | 0 <= i < |cs|
      ensures if cs[i].resume then turns[i].was in {Held, Ready} else turns[i].was == Ready
    {
      HeldBetween(cs, turns, i);
    }
    if cs != [] {
      CommandTells(cs[|cs| - 1], turns[|cs| - 1]);
    }
  }

  lemma {:induction false} HeldBetween(cs: seq<Command>, turns: seq<Turn>, i: nat)
    requires Proper(cs) && AllOnChip(cs, turns) && i < |cs|
    ensures if cs[i].resume then turns[i].was in {Held, Ready} else turns[i].was == Ready
  {
    hide OnChip;
    if i > 0 {
      HeldBetween(cs, turns, i - 1);
      CommandTells(cs[i - 1], turns[i - 1]);
    }
  }
}
