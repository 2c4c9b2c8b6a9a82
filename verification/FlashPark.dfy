/** How long a body keeps the other core parked (src/flash_op.c): the chip's
    times and the code's own, against the time after which a park frees itself.

    A body that finds an operation held suspended finishes it before its own, so
    it may wait for the chip twice. */
module FlashPark {
  import opened Words
  import opened Wrappers
  import opened FlashTiming
  import opened FlashChip
  import opened FlashOp

  /** What is kept of a run's past: when the chip last became busy, and whether
      from an operation held or from none; and how long, since each core's helper
      last parked, a body has waited for the chip. */
  datatype Watch = Watch(busyAt: int, busyFrom: Chip, waited: Two<int>)

  /** A body waits for the chip. */
  predicate AwaitsChip(s: State) {
    s.caller.InBody? && s.caller.phase in {Finishing, Working, BodyPhase.Told} && ChipBusy(s.flash.chip)
  }

  function WaitedOn(w: int, s: State, t: State, c: Core): int {
    if OnCore<nat>(t.parkedAt, c) != OnCore<nat>(s.parkedAt, c) then 0
    else w + (if AwaitsChip(s) then t.clock - s.clock else 0)
  }

  function Seen(k: Watch, s: State, t: State): Watch {
    Watch(if ChipBusy(s.flash.chip) then k.busyAt else t.clock,
          if ChipBusy(s.flash.chip) then k.busyFrom else s.flash.chip,
          Two(WaitedOn(k.waited.zero, s, t, Core0), WaitedOn(k.waited.one, s, t, Core1)))
  }

  const NOTHING_SEEN: Watch := Watch(0, Ready, Two(0, 0))

  function Watched(run: seq<State>, n: nat): Watch
    requires n < |run|
  {
    if n == 0 then NOTHING_SEEN else Seen(Watched(run, n - 1), run[n - 1], run[n])
  }

  /** The times of a board: an operation held suspended has so much left when it
      is resumed, one started takes so long, and the code of a body, from the
      park to its end and the chip's part left out, so long. */
  datatype Pace = Pace(heldUs: nat, ownUs: nat, codeUs: nat)

  predicate ChipInTime(p: Pace, k: Watch, s: State) {
    ChipBusy(s.flash.chip) ==> s.clock - k.busyAt <= if k.busyFrom == Held then p.heldUs else p.ownUs
  }

  function CodeTime(k: Watch, s: State, c: Core): int {
    s.clock - OnCore<nat>(s.parkedAt, c) - OnCore<int>(k.waited, c)
  }

  predicate InTime(p: Pace, k: Watch, s: State) {
    ChipInTime(p, k, s) && (s.caller.InBody? ==> CodeTime(k, s, Other(s.caller.core)) <= p.codeUs)
  }

  /** The chip and the code keep those times throughout. */
  predicate Paced(p: Pace, run: seq<State>) {
    forall n :: 0 <= n < |run| ==> InTime(p, Watched(run, n), run[n])
  }

  /* ---- How long a body can wait for the chip ---- */

  /** What a body may first finish, if it may find anything held. */
  function FinishUs(p: Pace, finishes: bool): nat {
    if finishes then p.heldUs else 0
  }

  function LongestWait(p: Pace, finishes: bool): nat {
    if FinishUs(p, finishes) + p.ownUs < p.heldUs then p.heldUs else FinishUs(p, finishes) + p.ownUs
  }

  /** A body's wait so far, the chip having been busy for so long. */
  predicate WaitInBody(p: Pace, finishes: bool, chip: Chip, phase: BodyPhase, from: Chip, busyFor: int, w: int) {
    match phase
    case Entered => w == 0
    case Finishing =>
      if ChipBusy(chip) then finishes && chip == Busy && from == Held && w <= busyFor
      else chip == Ready && w <= FinishUs(p, finishes)
    case Cleared =>
      if ChipBusy(chip) then w == 0 || (finishes && chip == Busy && from == Held && w <= busyFor)
      else w == 0 || (chip == Ready && w <= FinishUs(p, finishes))
    case Finished => w <= LongestWait(p, finishes)
    case _ =>
      if !ChipBusy(chip) then w <= LongestWait(p, finishes)
      else if from == Held then w <= busyFor
      else w <= FinishUs(p, finishes) + busyFor
  }

  /** Of a core that a caller has had parked. */
  predicate WaitInv(p: Pace, finishes: bool, k: Watch, s: State, c: Core) {
    var w := OnCore<int>(k.waited, c);
    && 0 <= w <= s.clock - OnCore<nat>(s.parkedAt, c)
    && (ChipBusy(s.flash.chip) ==> k.busyAt <= s.clock)
    && (Wants(s, c) && (s.caller.Admitted? || (OnCore(s.lk, c) == LkParked && !s.caller.InBody?)) ==> w == 0)
    && (Wants(s, c) && s.caller.InBody? ==>
          WaitInBody(p, finishes, s.flash.chip, s.caller.phase, k.busyFrom, s.clock - k.busyAt, w))
  }

  /** A body finishes an operation it finds held. */
  predicate FinishesHeld(s: State, step: Step) {
    step == ByBody(FinishLook) && s.flash.chip == Held
  }

  /** With the chip idle it does not matter since when. */
  lemma IdleWait(p: Pace, finishes: bool, chip: Chip, phase: BodyPhase, from: Chip, busyFor: int,
                 other: Chip, otherFor: int, w: int)
    requires !ChipBusy(chip) && WaitInBody(p, finishes, chip, phase, from, busyFor, w)
    ensures WaitInBody(p, finishes, chip, phase, other, otherFor, w)
  {
  }

  lemma TickKeepsWait(p: Pace, finishes: bool, k: Watch, s: State, us: nat, c: Core)
    requires WaitInv(p, finishes, k, s, c) && ChipInTime(p, k, s)
    ensures var t := s.(clock := s.clock + us); WaitInv(p, finishes, Seen(k, s, t), t, c)
  {
  }

  lemma CallerKeepsWait(p: Pace, finishes: bool, k: Watch, s: State, step: CallerStep, c: Core)
    requires LockInv(s, c) && WaitInv(p, finishes, k, s, c) && CallerEnabled(s, step)
    ensures var t := CallerApply(s, step); WaitInv(p, finishes, Seen(k, s, t), t, c)
  {
  }

  lemma BodyKeepsWait(p: Pace, finishes: bool, k: Watch, s: State, step: BodyStep, c: Core)
    requires WaitInv(p, finishes, k, s, c) && ChipInTime(p, k, s) && s.caller.InBody? && BodyEnabled(s, step)
    requires FinishesHeld(s, ByBody(step)) ==> finishes
    ensures var t := BodyApply(s, step); WaitInv(p, finishes, Seen(k, s, t), t, c)
  {
    hide WaitInBody, BodyApply, BodyEnabled;
    if s.caller.core == Other(c) {
      BodyWaitsOn(p, finishes, k, s, step, c);
    }
  }

  /** A body's wait just after a step of its own. */
  predicate WaitAfter(p: Pace, finishes: bool, k: Watch, s: State, t: State, w: int)
    requires t.caller.InBody?
  {
    if ChipBusy(s.flash.chip) then
      WaitInBody(p, finishes, t.flash.chip, t.caller.phase, k.busyFrom, s.clock - k.busyAt, w)
    else WaitInBody(p, finishes, t.flash.chip, t.caller.phase, s.flash.chip, 0, w)
  }

  predicate WaitNow(p: Pace, finishes: bool, k: Watch, s: State, w: int)
    requires s.caller.InBody?
  {
    && (ChipBusy(s.flash.chip) ==> k.busyAt <= s.clock)
    && WaitInBody(p, finishes, s.flash.chip, s.caller.phase, k.busyFrom, s.clock - k.busyAt, w)
  }

  lemma BodyWaitsOn(p: Pace, finishes: bool, k: Watch, s: State, step: BodyStep, c: Core)
    requires s.caller.InBody? && BodyEnabled(s, step) && ChipInTime(p, k, s)
    requires FinishesHeld(s, ByBody(step)) ==> finishes
    requires WaitNow(p, finishes, k, s, OnCore<int>(k.waited, c))
    ensures var t := BodyApply(s, step);
            var l := Seen(k, s, t);
            WaitInBody(p, finishes, t.flash.chip, t.caller.phase, l.busyFrom, t.clock - l.busyAt,
                       OnCore<int>(l.waited, c))
  {
    hide WaitInBody, WaitNow, BodyApply, BodyEnabled, ChipInTime;
    if step.ByGround? {
      GroundWaits(p, finishes, k, s, step.run, OnCore<int>(k.waited, c));
    } else {
      DirectWaits(p, finishes, k, s, step, OnCore<int>(k.waited, c));
    }
  }

  lemma DirectWaits(p: Pace, finishes: bool, k: Watch, s: State, step: BodyStep, w: int)
    requires s.caller.InBody? && BodyEnabled(s, step) && !step.ByGround? && ChipInTime(p, k, s)
    requires FinishesHeld(s, ByBody(step)) ==> finishes
    requires WaitNow(p, finishes, k, s, w)
    ensures WaitAfter(p, finishes, k, s, BodyApply(s, step), w)
  {
  }

  lemma GroundWaits(p: Pace, finishes: bool, k: Watch, s: State, run: RunStep, w: int)
    requires s.caller.InBody? && BodyEnabled(s, ByGround(run)) && ChipInTime(p, k, s)
    requires WaitNow(p, finishes, k, s, w)
    ensures WaitAfter(p, finishes, k, s, BodyApply(s, ByGround(run)), w)
  {
  }

  lemma HelperKeepsWait(p: Pace, finishes: bool, k: Watch, s: State, core: Core, step: HelperStep, c: Core)
    requires LockInv(s, c) && WaitInv(p, finishes, k, s, c) && HelperEnabled(s, core, step)
    ensures var t := HelperApply(s, core, step); WaitInv(p, finishes, Seen(k, s, t), t, c)
  {
    hide WaitInBody;
    if Wants(s, c) && s.caller.InBody? && !ChipBusy(s.flash.chip) {
      IdleWait(p, finishes, s.flash.chip, s.caller.phase, k.busyFrom, s.clock - k.busyAt, s.flash.chip, 0,
               OnCore<int>(k.waited, c));
    }
  }

  lemma FlightKeepsWait(p: Pace, finishes: bool, k: Watch, s: State, step: FlightStep, c: Core)
    requires WaitInv(p, finishes, k, s, c) && FlightEnabled(s, step)
    ensures var t := FlightApply(s, step); WaitInv(p, finishes, Seen(k, s, t), t, c)
  {
  }

  lemma PieceKeepsWait(p: Pace, finishes: bool, k: Watch, s: State, step: PieceStep, c: Core)
    requires Inv(s) && Punctual(s) && WaitInv(p, finishes, k, s, c) && PieceEnabled(s, step)
    ensures var t := PieceApply(s, step); WaitInv(p, finishes, Seen(k, s, t), t, c)
  {
  }

  lemma ChipKeepsWait(p: Pace, finishes: bool, k: Watch, s: State, step: ChipStep, c: Core)
    requires WaitInv(p, finishes, k, s, c) && ChipInTime(p, k, s) && ChipEnabled(s, step)
    ensures var t := ChipApply(s, step); WaitInv(p, finishes, Seen(k, s, t), t, c)
  {
  }

  lemma StepKeepsWait(p: Pace, finishes: bool, k: Watch, s: State, step: Step, c: Core)
    requires Inv(s) && Punctual(s) && WaitInv(p, finishes, k, s, c) && ChipInTime(p, k, s) && Enabled(s, step)
    requires FinishesHeld(s, step) ==> finishes
    ensures var t := Apply(s, step); WaitInv(p, finishes, Seen(k, s, t), t, c)
  {
    hide WaitInv, Seen, ChipInTime, PieceInv, BusyInv;
    match step
    case Tick(us) => TickKeepsWait(p, finishes, k, s, us, c);
    case ByCaller(x) => CallerKeepsWait(p, finishes, k, s, x, c);
    case ByBody(b) => BodyKeepsWait(p, finishes, k, s, b, c);
    case ByHelper(core, h) => HelperKeepsWait(p, finishes, k, s, core, h, c);
    case ByFlight(x) => FlightKeepsWait(p, finishes, k, s, x, c);
    case ByPiece(x) => PieceKeepsWait(p, finishes, k, s, x, c);
    case ByChip(x) => ChipKeepsWait(p, finishes, k, s, x, c);
  }

  /* ---- Bodies that end in time ---- */

  /** No body of a run finds an operation held. */
  predicate FindsNoneHeld(run: seq<State>, steps: seq<Step>)
    requires |run| == |steps| + 1
  {
    forall i :: 0 <= i < |steps| ==> !FinishesHeld(run[i], steps[i])
  }

  lemma NoWaitAtFirst(p: Pace, finishes: bool, c: Core)
    ensures WaitInv(p, finishes, NOTHING_SEEN, Init(), c)
  {
  }

  /** In the park, or the chip's wait or the code's is too long. */
  lemma InParkNow(p: Pace, finishes: bool, k: Watch, s: State)
    requires WaitInv(p, finishes, k, s, Core0) && WaitInv(p, finishes, k, s, Core1) && InTime(p, k, s)
    requires LongestWait(p, finishes) + p.codeUs < PARK_MAX_US
    ensures Punctual(s)
  {
    if s.caller.InBody? {
      assert Wants(s, Other(s.caller.core));
    }
  }

  /** Where the longest wait and the code's time are less than a park, every body
      of every run ends inside its park. */
  lemma {:induction false} BodiesEndInPark(p: Pace, finishes: bool, run: seq<State>, steps: seq<Step>, n: nat)
    requires IsRun(run, steps) && n < |run| && Paced(p, run)
    requires finishes || FindsNoneHeld(run, steps)
    requires LongestWait(p, finishes) + p.codeUs < PARK_MAX_US
    ensures WaitInv(p, finishes, Watched(run, n), run[n], Core0)
    ensures WaitInv(p, finishes, Watched(run, n), run[n], Core1)
    ensures Punctual(run[n])
  {
    hide WaitInv, Seen, Inv, Punctual, Apply, Enabled, LongestWait, ChipInTime;
    assert InTime(p, Watched(run, n), run[n]);
    if n == 0 {
      NoWaitAtFirst(p, finishes, Core0);
      NoWaitAtFirst(p, finishes, Core1);
    } else {
      BodiesEndInPark(p, finishes, run, steps, n - 1);
      RunKeepsInv(run, steps, n - 1);
      assert Leads(run[n - 1], steps[n - 1], run[n]);
      assert InTime(p, Watched(run, n - 1), run[n - 1]);
      StepKeepsWait(p, finishes, Watched(run, n - 1), run[n - 1], steps[n - 1], Core0);
      StepKeepsWait(p, finishes, Watched(run, n - 1), run[n - 1], steps[n - 1], Core1);
    }
    InParkNow(p, finishes, Watched(run, n), run[n]);
  }

  /* ---- A body that does not ---- */

  lemma {:induction false} WatchedStays(run: seq<State>, t: State, n: nat)
    requires n < |run|
    ensures Watched(run + [t], n) == Watched(run, n)
  {
    hide Seen;
    if n > 0 {
      WatchedStays(run, t, n - 1);
    }
  }

  /** A run so far, all else in time. */
  predicate GoneTo(p: Pace, finishes: bool, run: seq<State>, steps: seq<Step>, s: State, k: Watch) {
    && IsRun(run, steps) && TimelyRun(0, IDLE_GAP_US, run) && Paced(p, run) && (finishes || FindsNoneHeld(run, steps))
    && run[|steps|] == s && Watched(run, |steps|) == k
  }

  lemma Onward(p: Pace, finishes: bool, run: seq<State>, steps: seq<Step>, s: State, k: Watch, step: Step, t: State)
    returns (r: seq<State>, ss: seq<Step>)
    requires GoneTo(p, finishes, run, steps, s, k) && Leads(s, step, t) && (finishes || !FinishesHeld(s, step))
    requires Timely(0, IDLE_GAP_US, t) && InTime(p, Seen(k, s, t), t)
    ensures GoneTo(p, finishes, r, ss, t, Seen(k, s, t))
  {
    hide Leads, Timely, InTime, Seen, FinishesHeld;
    r, ss := run + [t], steps + [step];
    forall i | 0 <= i < |ss| ensures Leads(r[i], ss[i], r[i + 1]) && (finishes || !FinishesHeld(r[i], ss[i])) {
      if i < |steps| {
        assert Leads(run[i], steps[i], run[i + 1]);
      }
    }
    forall n | 0 <= n < |r| ensures InTime(p, Watched(r, n), r[n]) {
      if n < |run| {
        WatchedStays(run, t, n);
        assert InTime(p, Watched(run, n), run[n]);
      } else {
        WatchedStays(run, t, n - 1);
      }
    }
    WatchedStays(run, t, |steps|);
  }

  /** Nothing has waited, at time 0. */
  function Fresh(from: Chip): Watch {
    Watch(0, from, Two(0, 0))
  }

  const HELD: Flash := Flash(Held, true, true, false)

  /** On the ground, with nobody in the lockout. */
  function Ground(flash: Flash): State {
    Init().(flash := flash)
  }

  lemma AtFirst(p: Pace, finishes: bool)
    ensures GoneTo(p, finishes, [Init()], [], Init(), Fresh(Ready))
  {
  }

  /** A flight that ends with its operation suspended. */
  lemma FlightLeavesHeld(p: Pace) returns (run: seq<State>, steps: seq<Step>)
    ensures GoneTo(p, true, run, steps, Ground(HELD), Fresh(Held))
  {
    hide GoneTo;
    var told, held := Flash(Suspending, false, false, false), Flash(Held, false, false, false);
    run, steps := [Init()], [];
    AtFirst(p, true);
    run, steps := Onward(p, true, run, steps, Init(), Fresh(Ready), ByFlight(Begin),
                         Aloft(0, NoPiece, NotEnding, IDLE));
    run, steps := Onward(p, true, run, steps, Aloft(0, NoPiece, NotEnding, IDLE), Fresh(Ready), ByPiece(ClaimPiece),
                         Aloft(0, ClaimedPiece(false), NotEnding, IDLE));
    run, steps := Onward(p, true, run, steps, Aloft(0, ClaimedPiece(false), NotEnding, IDLE), Fresh(Ready),
                         ByPiece(ByRun(Start)), Aloft(0, Running(false, false), NotEnding, AT_WORK));
    run, steps := Onward(p, true, run, steps, Aloft(0, Running(false, false), NotEnding, AT_WORK), Fresh(Ready),
                         ByPiece(ByRun(TellSuspend)), Aloft(0, Running(false, true), NotEnding, told));
    run, steps := Onward(p, true, run, steps, Aloft(0, Running(false, true), NotEnding, told), Fresh(Ready),
                         ByChip(SuspendLands), Aloft(0, Running(false, true), NotEnding, held));
    run, steps := HeldIsLeft(p, run, steps, held);
  }

  lemma HeldIsLeft(p: Pace, run: seq<State>, steps: seq<Step>, held: Flash) returns (r: seq<State>, ss: seq<Step>)
    requires held == Flash(Held, false, false, false)
    requires GoneTo(p, true, run, steps, Aloft(0, Running(false, true), NotEnding, held), Fresh(Ready))
    ensures GoneTo(p, true, r, ss, Ground(HELD), Fresh(Held))
  {
    hide GoneTo;
    r, ss := Onward(p, true, run, steps, Aloft(0, Running(false, true), NotEnding, held), Fresh(Ready),
                    ByPiece(ByRun(SeeIdle)), Aloft(0, Ended, NotEnding, HELD));
    r, ss := Onward(p, true, r, ss, Aloft(0, Ended, NotEnding, HELD), Fresh(Held), ByPiece(FreePiece),
                    Aloft(0, NoPiece, NotEnding, HELD));
    r, ss := Onward(p, true, r, ss, Aloft(0, NoPiece, NotEnding, HELD), Fresh(Held), ByFlight(End),
                    Aloft(0, NoPiece, Ending(0, 0), HELD));
    r, ss := Onward(p, true, r, ss, Aloft(0, NoPiece, Ending(0, 0), HELD), Fresh(Held), ByFlight(EndPoll),
                    Ground(HELD));
  }

  const OWN: Body := Direct(false)

  /** A caller on core1, core0's helper spinning for it since time 0. */
  function Locked(clock: nat, phase: BodyPhase, flash: Flash): State {
    Init().(clock := clock, lk := Two(LkParked, LkIdle), flash := flash, caller := InBody(Core1, OWN, phase),
            helper := Two(Spinning(0), Asleep))
  }

  /** A body is entered, and its code takes its time. */
  lemma EntersBody(p: Pace, finishes: bool, run: seq<State>, steps: seq<Step>, flash: Flash, code: nat)
    returns (r: seq<State>, ss: seq<Step>)
    requires GoneTo(p, finishes, run, steps, Ground(flash), Fresh(flash.chip)) && !ChipBusy(flash.chip)
    requires code <= p.codeUs && !flash.abandoned
    ensures GoneTo(p, finishes, r, ss, Locked(code, Entered, flash), Watch(code, flash.chip, Two(0, 0)))
  {
    hide GoneTo;
    var k, s0 := Fresh(flash.chip), Ground(flash);
    var s1 := s0.(lk := Two(LkWanted, LkIdle), caller := Claimed(Core1, OWN));
    var s2 := s1.(caller := Waiting(Core1, OWN, 0));
    var s3 := s2.(lk := Two(LkParked, LkIdle), helper := Two(Parking, Asleep));
    r, ss := Onward(p, finishes, run, steps, s0, k, ByCaller(Claim(Core1, OWN)), s1);
    r, ss := Onward(p, finishes, r, ss, s1, k, ByCaller(BeginWait), s2);
    r, ss := Onward(p, finishes, r, ss, s2, k, ByHelper(Core0, Look), s3);
    r, ss := ParkedAndIn(p, finishes, r, ss, s3, flash, code);
  }

  lemma ParkedAndIn(p: Pace, finishes: bool, run: seq<State>, steps: seq<Step>, s3: State, flash: Flash, code: nat)
    returns (r: seq<State>, ss: seq<Step>)
    requires GoneTo(p, finishes, run, steps, s3, Fresh(flash.chip)) && !ChipBusy(flash.chip) && !flash.abandoned
    requires s3 == Ground(flash).(lk := Two(LkParked, LkIdle), caller := Waiting(Core1, OWN, 0),
                                  helper := Two(Parking, Asleep))
    requires code <= p.codeUs
    ensures GoneTo(p, finishes, r, ss, Locked(code, Entered, flash), Watch(code, flash.chip, Two(0, 0)))
  {
    hide GoneTo;
    var k := Fresh(flash.chip);
    var s4 := s3.(helper := Two(Spinning(0), Asleep));
    var s5 := s4.(caller := Admitted(Core1, OWN));
    r, ss := Onward(p, finishes, run, steps, s3, k, ByHelper(Core0, ReadTimer), s4);
    r, ss := Onward(p, finishes, r, ss, s4, k, ByCaller(SeeParked), s5);
    r, ss := Onward(p, finishes, r, ss, s5, k, ByCaller(EnterBody), Locked(0, Entered, flash));
    r, ss := Onward(p, finishes, r, ss, Locked(0, Entered, flash), k, Tick(code), Locked(code, Entered, flash));
  }

  /** The held operation is finished. */
  lemma FinishesFirst(p: Pace, run: seq<State>, steps: seq<Step>, code: nat, held: nat)
    returns (r: seq<State>, ss: seq<Step>)
    requires GoneTo(p, true, run, steps, Locked(code, Entered, HELD), Watch(code, Held, Two(0, 0)))
    requires code <= p.codeUs && held <= p.heldUs
    ensures GoneTo(p, true, r, ss, Locked(code + held, Cleared, Flash(Ready, false, true, false)),
                   Watch(code + held, Ready, Two(held, held)))
  {
    hide GoneTo;
    var busy, done, cleared := HELD.(chip := Busy), HELD.(chip := Ready), Flash(Ready, false, true, false);
    var k := Watch(code, Held, Two(0, 0));
    r, ss := Onward(p, true, run, steps, Locked(code, Entered, HELD), k, ByBody(FinishLook),
                    Locked(code, Finishing, busy));
    r, ss := Onward(p, true, r, ss, Locked(code, Finishing, busy), k, Tick(held), Locked(code + held, Finishing, busy));
    k := Watch(code, Held, Two(held, held));
    r, ss := Onward(p, true, r, ss, Locked(code + held, Finishing, busy), k, ByChip(OperationEnds),
                    Locked(code + held, Finishing, done));
    r, ss := Onward(p, true, r, ss, Locked(code + held, Finishing, done), k, ByBody(FinishSeen),
                    Locked(code + held, Cleared, cleared));
  }

  /** And the body's own is begun; core0 lets itself go at PARK_MAX_US, the chip
      still busy. */
  lemma OwnRunsOn(p: Pace, finishes: bool, run: seq<State>, steps: seq<Step>, phase: BodyPhase, flash: Flash,
                  held: nat, at: nat)
    returns (r: seq<State>, ss: seq<Step>)
    requires GoneTo(p, finishes, run, steps, Locked(at, phase, flash), Watch(at, Ready, Two(held, held)))
    requires phase == Cleared || (phase == Entered && !flash.heldSuspended)
    requires flash.chip == Ready && !flash.abandoned
    requires held <= at <= PARK_MAX_US <= at + p.ownUs && at - held <= p.codeUs
    ensures IsRun(r, ss) && TimelyRun(0, IDLE_GAP_US, r) && Paced(p, r) && (finishes || FindsNoneHeld(r, ss))
    ensures var last := r[|ss|];
            && Outlived(last) && last.flash.chip == Busy && !last.flash.abandoned && !last.overran
            && MayFetch(last, Core0)
  {
    hide GoneTo;
    var busy, k := flash.(chip := Busy), Watch(at, Ready, Two(held, held));
    var own := PARK_MAX_US - at;
    var end := Locked(PARK_MAX_US, Working, busy);
    r, ss := Onward(p, finishes, run, steps, Locked(at, phase, flash), k, ByBody(StartOperation),
                    Locked(at, Working, busy));
    r, ss := Onward(p, finishes, r, ss, Locked(at, Working, busy), k, Tick(own), end);
    k := Watch(at, Ready, Two(held + own, held + own));
    r, ss := Onward(p, finishes, r, ss, end, k, ByHelper(Core0, StopSpinning), end.(helper := Two(Leaving, Asleep)));
    var free := end.(helper := Two(Asleep, Asleep), lk := Two(LkIdle, LkIdle));
    r, ss := Onward(p, finishes, r, ss, end.(helper := Two(Leaving, Asleep)), k, ByHelper(Core0, Unpark), free);
    GoneToSays(p, finishes, r, ss, free, k);
  }

  lemma GoneToSays(p: Pace, finishes: bool, run: seq<State>, steps: seq<Step>, s: State, k: Watch)
    requires GoneTo(p, finishes, run, steps, s, k)
    ensures IsRun(run, steps) && TimelyRun(0, IDLE_GAP_US, run) && Paced(p, run)
    ensures (finishes || FindsNoneHeld(run, steps)) && run[|steps|] == s
  {
  }

  /** Where the waits and the code's time reach PARK_MAX_US, a body outlives its
      park with everything else in time, and core0 fetches from a busy flash. */
  lemma OutlivesPark(p: Pace, finishes: bool) returns (run: seq<State>, steps: seq<Step>)
    requires FinishUs(p, finishes) + p.ownUs + p.codeUs >= PARK_MAX_US
    ensures IsRun(run, steps) && TimelyRun(0, IDLE_GAP_US, run) && Paced(p, run)
    ensures finishes || FindsNoneHeld(run, steps)
    ensures var last := run[|steps|];
            && Outlived(last) && last.flash.chip == Busy && !last.flash.abandoned && !last.overran
            && MayFetch(last, Core0)
  {
    hide GoneTo;
    var held := if FinishUs(p, finishes) < PARK_MAX_US then FinishUs(p, finishes) else PARK_MAX_US;
    var code := if p.codeUs < PARK_MAX_US - held then p.codeUs else PARK_MAX_US - held;
    if finishes {
      run, steps := FlightLeavesHeld(p);
      run, steps := EntersBody(p, true, run, steps, HELD, code);
      run, steps := FinishesFirst(p, run, steps, code, held);
      run, steps := OwnRunsOn(p, true, run, steps, Cleared, Flash(Ready, false, true, false), held, code + held);
    } else {
      run, steps := [Init()], [];
      AtFirst(p, false);
      assert Init() == Ground(IDLE);
      run, steps := EntersBody(p, false, run, steps, IDLE, code);
      run, steps := OwnRunsOn(p, false, run, steps, Entered, IDLE, 0, code);
    }
  }

  /* ---- When the flash is safe ---- */

  predicate NeverFetched(run: seq<State>) {
    forall n, c: Core :: 0 <= n < |run| && MayFetch(run[n], c) ==> !XipDown(run[n])
  }

  /** Where the longest wait and the code's time are less than a park, nothing in
      a run whose pieces keep to their slots ever fetches from a flash out of XIP,
      and no flight ends over a piece. */
  lemma TimelyRunIsSafe(p: Pace, finishes: bool, phase: nat, run: seq<State>, steps: seq<Step>)
    requires IsRun(run, steps) && TimelyRun(phase, IDLE_GAP_US, run) && Paced(p, run)
    requires finishes || FindsNoneHeld(run, steps)
    requires LongestWait(p, finishes) + p.codeUs < PARK_MAX_US
    ensures NeverFetched(run)
    ensures forall n :: 0 <= n < |run| && !run[n].flight ==> run[n].piece.NoPiece?
  {
    hide XipDown, MayFetch, Paced, TimelyRun, LongestWait;
    forall n | 0 <= n < |run| ensures Punctual(run[n]) {
      BodiesEndInPark(p, finishes, run, steps, n);
    }
    forall n | 0 <= n < |run| && !run[n].flight ensures run[n].piece.NoPiece? {
      PunctualRunIsSafe(phase, run, steps, n, Core0);
    }
    forall n, c: Core | 0 <= n < |run| && MayFetch(run[n], c) ensures !XipDown(run[n]) {
      PunctualRunIsSafe(phase, run, steps, n, c);
    }
  }

  /** Nothing fetches from a flash out of XIP in any run that keeps a board's
      times, its pieces in their slots and its looks no further apart than slots
      are. */
  ghost predicate Safe(p: Pace) {
    forall phase: nat, run, steps ::
      IsRun(run, steps) && TimelyRun(phase, IDLE_GAP_US, run) && Paced(p, run) ==> NeverFetched(run)
  }

  /** Nor in any of those in which no body finds an operation held. */
  ghost predicate SafeIfNoneHeld(p: Pace) {
    forall phase: nat, run, steps ::
      IsRun(run, steps) && TimelyRun(phase, IDLE_GAP_US, run) && Paced(p, run) && FindsNoneHeld(run, steps) ==>
        NeverFetched(run)
  }

  lemma IsFetched(run: seq<State>, steps: seq<Step>)
    requires |run| == |steps| + 1 && run[|steps|].flash.chip == Busy && MayFetch(run[|steps|], Core0)
    ensures !NeverFetched(run)
  {
  }

  /** The flash is safe if and only if a park is longer than what is left of an
      operation held, one of the body's own and the code together. */
  lemma SafeExactly(p: Pace)
    ensures Safe(p) <==> p.heldUs + p.ownUs + p.codeUs < PARK_MAX_US
  {
    hide TimelyRun, Paced, MayFetch, XipDown;
    if p.heldUs + p.ownUs + p.codeUs < PARK_MAX_US {
      forall phase: nat, run, steps | IsRun(run, steps) && TimelyRun(phase, IDLE_GAP_US, run) && Paced(p, run)
        ensures NeverFetched(run)
      {
        TimelyRunIsSafe(p, true, phase, run, steps);
      }
    } else {
      var run, steps := OutlivesPark(p, true);
      IsFetched(run, steps);
    }
  }

  /** And where no body finds one held, if and only if it is longer than one
      operation and the code. */
  lemma SafeWithNoneHeld(p: Pace)
    requires p.heldUs <= p.ownUs
    ensures SafeIfNoneHeld(p) <==> p.ownUs + p.codeUs < PARK_MAX_US
  {
    hide TimelyRun, Paced, MayFetch, XipDown, FindsNoneHeld;
    if p.ownUs + p.codeUs < PARK_MAX_US {
      forall phase: nat, run, steps |
          IsRun(run, steps) && TimelyRun(phase, IDLE_GAP_US, run) && Paced(p, run) && FindsNoneHeld(run, steps)
        ensures NeverFetched(run)
      {
        TimelyRunIsSafe(p, false, phase, run, steps);
      }
    } else {
      var run, steps := OutlivesPark(p, false);
      IsFetched(run, steps);
    }
  }

  /** The times of a listed part: one sector's erase, whole or what is left of it,
      if it suspends at all. */
  function PaceOf(t: Timing, codeUs: nat): Pace {
    Pace(if t.eraseSuspends then t.eraseMaxUs else 0, t.eraseMaxUs, codeUs)
  }

  /** So of the listed parts that suspend: with 800 ms an erase, however quick the
      code, the flash is safe only while no body finds an operation held; with
      400 ms it is whenever the code takes less than 0.7 s. */
  lemma ListedParts(i: nat, codeUs: nat)
    requires i < |PARTS| && PARTS[i].timing.eraseSuspends
    ensures var slow, p := PARTS[i].jedec == (0x0B, 0x40, 0x18), PaceOf(PARTS[i].timing, codeUs);
            && (Safe(p) <==> !slow && codeUs < 700_000)
            && (SafeIfNoneHeld(p) <==> codeUs < if slow then 700_000 else 1_100_000)
  {
    SafeExactly(PaceOf(PARTS[i].timing, codeUs));
    SafeWithNoneHeld(PaceOf(PARTS[i].timing, codeUs));
  }
}
