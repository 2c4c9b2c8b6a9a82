/** The flash lockout and the flight's slot pieces, on two cores
    (src/flash_op.c).

    Two cores run from one flash. A body or a piece takes it out of
    execute-in-place (XIP), and so does an operation the chip is still busy
    with; whoever else is running meanwhile must not fetch from it. The protocol
    is a machine of atomic steps, one for each access to what the cores share: a
    section under lk_lock, a load or store of lk[], flight or piece_busy, a
    command to the chip or a poll of its status. Steps of the two cores and of
    the chip interleave freely, and the clock may advance between any two. A
    time kept by the code is compared as the code compares it, through the
    32-bit timer.

    One lockout caller runs at a time, from either core. */
module FlashOp {
  import opened Words
  import opened Wrappers
  import opened Core1Frame
  import opened FlashChip
  import FlashPiece
  import FlashSlot

  const PARK_MAX_US := 1_500_000
  const PARK_WAIT_US := 20_000

  datatype Core = Core0 | Core1

  function Other(c: Core): Core {
    if c == Core0 then Core1 else Core0
  }

  function OnCore<T>(two: Two<T>, c: Core): T {
    if c == Core0 then two.zero else two.one
  }

  function SetCore<T>(two: Two<T>, c: Core, value: T): Two<T> {
    if c == Core0 then two.(zero := value) else two.(one := value)
  }

  datatype Lk = LkIdle | LkWanted | LkParked | LkRelease

  /** What a caller runs with the other core parked: an operation whole, fresh or
      the rest of one suspended, or a piece of the writer's erase. */
  datatype Body = Direct(resume: bool) | Ground(resume: bool)

  /** How far a body is. Direct: an operation held suspended is finished first;
      Cleared is past that. Ground: Told is past the suspend command. */
  datatype BodyPhase = Entered | Finishing | Cleared | Working | Told | Finished

  /** locked_out(): nobody in it, or how far its caller is. */
  datatype Caller =
    | Nobody
    | Claimed(core: Core, body: Body)
    | Waiting(core: Core, body: Body, since: nat)
    | TimedOut(core: Core, body: Body)
    | Admitted(core: Core, body: Body)
    | InBody(core: Core, body: Body, phase: BodyPhase)
    | Releasing(core: Core, body: Body)

  /** flash_op_park(): past Asleep, its core's interrupts are off. */
  datatype Helper = Asleep | Parking | Spinning(since: nat) | Leaving

  /** A slot piece on core1; Running and Ended with its interrupts off, told once
      it has sent the suspend command. */
  datatype SlotPiece = NoPiece | ClaimedPiece(resume: bool) | Running(resume: bool, told: bool) | Ended

  /** The flight task in flash_op_flight_end(), and its last look. */
  datatype Landing = NotEnding | Ending(since: nat, lastPoll: nat)

  /** The chip, and what is known of it. */
  datatype Flash = Flash(
    chip: Chip,
    heldSuspended: bool,
    resuming: bool,             // the writer's operation goes on with a resume
    abandoned: bool)            // a piece gave the chip up, and it is busy yet

  datatype State = State(
    clock: nat,
    lk: Two<Lk>,
    flight: bool,
    pieceBusy: bool,
    flash: Flash,
    caller: Caller,
    helper: Two<Helper>,
    parkedAt: Two<nat>,         // when the helper last stored LK_PARKED
    landing: Landing,
    piece: SlotPiece,
    overran: bool)              // a piece in progress was landed on

  /** locked_out(). */
  datatype CallerStep =
    | Claim(on: Core, body: Body)
    | BeginWait
    | SeeParked
    | GiveUp
    | Withdraw
    | EnterBody
    | LeaveBody
    | Return

  /** run_direct() or ground_piece_body(), inside it. */
  datatype BodyStep =
    | FinishLook
    | FinishSeen
    | FinishGiveUp
    | StartOperation
    | EndOperation
    | SkipGroundPiece
    | ByGround(run: RunStep)

  /** flash_op_park(). */
  datatype HelperStep = Look | ReadTimer | StopSpinning | Unpark

  /** flash_op_flight_begin() and flash_op_flight_end(). */
  datatype FlightStep = Begin | End | EndPoll

  /** run_piece(): the command, a poll that finds the chip idle, the suspend
      command, and the two limits on a chip that stays busy. */
  datatype RunStep = Start | SeeIdle | TellSuspend | GiveUpRun | GiveUpSuspend

  /** slot_piece() and run_piece_counted(); the writer giving its operation up. */
  datatype PieceStep = ClaimPiece | ByRun(run: RunStep) | FreePiece | Abandon

  /** The chip's own moves: what it is busy with ends, or a suspend lands. */
  datatype ChipStep = OperationEnds | SuspendLands

  datatype Step =
    | Tick(us: nat)
    | ByCaller(caller: CallerStep)
    | ByBody(body: BodyStep)
    | ByHelper(core: Core, helper: HelperStep)
    | ByFlight(flight: FlightStep)
    | ByPiece(piece: PieceStep)
    | ByChip(chip: ChipStep)

  function Init(): State {
    State(0, Two(LkIdle, LkIdle), false, false, Flash(Ready, false, false, false), Nobody, Two(Asleep, Asleep),
          Two(0, 0), NotEnding, NoPiece, false)
  }

  /** Elapsed by the timer, as the code reads it. */
  function Since(s: State, since: nat): u32 {
    Sub(Wrap(s.clock), Wrap(since))
  }

  predicate BodyOn(s: State, c: Core) {
    s.caller.InBody? && s.caller.core == c
  }

  /** Whether tasks and interrupts run on a core. */
  predicate CanRun(s: State, c: Core) {
    && OnCore(s.helper, c) == Asleep
    && !BodyOn(s, c)
    && !(c == Core1 && (s.piece.Running? || s.piece.Ended?))
  }

  /** The writer is in locked_out() with an operation of its own. */
  predicate WriterInLockout(s: State) {
    !s.caller.Nobody? && (s.caller.body.Ground? || s.caller.body.resume)
  }

  function FlashSlotHeld(held: bool, resumed: bool, leftSuspended: bool): bool {
    leftSuspended || (held && !resumed)
  }

  predicate LeftSuspended(r: PieceResult) {
    r in {PieceSuspended, PieceESuspend}
  }

  /* ---- A piece's commands and polls ---- */

  predicate RunEnabled(chip: Chip, step: RunStep, told: bool) {
    match step
    case Start => false
    case SeeIdle => !ChipBusy(chip)
    case TellSuspend => !told
    case GiveUpRun => !told && ChipBusy(chip)
    case GiveUpSuspend => told && ChipBusy(chip)
  }

  /** What a piece returns: when it sees the chip idle past a suspend, the
      suspended bit decides. */
  function Result(chip: Chip, step: RunStep, told: bool): PieceResult {
    match step
    case GiveUpRun => PieceEndless
    case GiveUpSuspend => PieceESuspend
    case _ => if told && chip == Held then PieceSuspended else PieceDone
  }

  predicate Ends(step: RunStep) {
    step.SeeIdle? || GivesUp(step)
  }

  /** A piece gives the chip up: PIECE_ENDLESS or PIECE_ESUSPEND. */
  predicate GivesUp(step: RunStep) {
    step.GiveUpRun? || step.GiveUpSuspend?
  }

  /** run_piece(), and the end of run_piece_counted(), a step of it. */
  function Run(f: Flash, step: RunStep, resume: bool, told: bool): (g: Flash)
    ensures g.abandoned == (f.abandoned || GivesUp(step))
  {
    match step
    case Start => f.(chip := Commanded(f.chip, resume))
    case TellSuspend => f.(chip := FlashChip.ToldToSuspend(f.chip))
    case _ =>
      var r := Result(f.chip, step, told);
      Flash(f.chip, FlashSlotHeld(f.heldSuspended, resume, LeftSuspended(r)), r == PieceSuspended,
            f.abandoned || GivesUp(step))
  }

  /* ---- Steps ---- */

  predicate CallerEnabled(s: State, step: CallerStep) {
    match step
    case Claim(on, body) =>
      && s.caller.Nobody? && CanRun(s, on)
      && (body.Ground? || body.resume ==> on == Core1 && s.piece.NoPiece? && body.resume == s.flash.resuming)
    case BeginWait => s.caller.Claimed? && CanRun(s, s.caller.core)
    case SeeParked => s.caller.Waiting? && CanRun(s, s.caller.core) && OnCore(s.lk, Other(s.caller.core)) == LkParked
    case GiveUp =>
      && s.caller.Waiting? && CanRun(s, s.caller.core) && OnCore(s.lk, Other(s.caller.core)) != LkParked
      && Since(s, s.caller.since) >= PARK_WAIT_US
    case Withdraw => s.caller.TimedOut? && CanRun(s, s.caller.core)
    case EnterBody => s.caller.Admitted? && CanRun(s, s.caller.core)
    case LeaveBody => s.caller.InBody? && s.caller.phase == Finished
    case Return => s.caller.Releasing? && CanRun(s, s.caller.core)
  }

  function CallerApply(s: State, step: CallerStep): (t: State)
    requires CallerEnabled(s, step)
    ensures t == s.(lk := t.lk, caller := t.caller)
  {
    match step
    case Claim(on, body) =>
      if s.flight then s
      else s.(lk := SetCore(s.lk, Other(on), LkWanted), caller := Claimed(on, body))
    case BeginWait => s.(caller := Waiting(s.caller.core, s.caller.body, s.clock))
    case SeeParked => s.(caller := Admitted(s.caller.core, s.caller.body))
    case GiveUp => s.(caller := TimedOut(s.caller.core, s.caller.body))
    case Withdraw =>
      if OnCore(s.lk, Other(s.caller.core)) == LkParked then s.(caller := Admitted(s.caller.core, s.caller.body))
      else s.(lk := SetCore(s.lk, Other(s.caller.core), LkIdle), caller := Nobody)
    case EnterBody => s.(caller := InBody(s.caller.core, s.caller.body, Entered))
    case LeaveBody =>
      s.(lk := SetCore(s.lk, Other(s.caller.core), LkRelease), caller := Releasing(s.caller.core, s.caller.body))
    case Return => s.(caller := Nobody)
  }

  function InBodyAt(s: State, phase: BodyPhase): Caller
    requires s.caller.InBody?
  {
    s.caller.(phase := phase)
  }

  predicate BodyEnabled(s: State, step: BodyStep)
    requires s.caller.InBody?
  {
    match step
    case FinishLook => s.caller.body.Direct? && s.caller.phase == Entered && s.flash.heldSuspended
    case FinishSeen => s.caller.body.Direct? && s.caller.phase == Finishing && !ChipBusy(s.flash.chip)
    case FinishGiveUp => s.caller.body.Direct? && s.caller.phase == Finishing && ChipBusy(s.flash.chip)
    case StartOperation =>
      s.caller.body.Direct? && (s.caller.phase == Cleared || (s.caller.phase == Entered && !s.flash.heldSuspended))
    case EndOperation => s.caller.body.Direct? && s.caller.phase == Working && !ChipBusy(s.flash.chip)
    case SkipGroundPiece => s.caller.body.Ground? && s.caller.phase == Entered
    case ByGround(run) =>
      s.caller.body.Ground? &&
      (if run.Start? then s.caller.phase == Entered
       else (s.caller.phase == Working || s.caller.phase == BodyPhase.Told)
            && RunEnabled(s.flash.chip, run, s.caller.phase == BodyPhase.Told))
  }

  function BodyApply(s: State, step: BodyStep): (t: State)
    requires s.caller.InBody? && BodyEnabled(s, step)
    ensures t == s.(flash := t.flash, pieceBusy := t.pieceBusy, caller := t.caller)
    ensures t.caller.InBody? && t.caller.core == s.caller.core && t.caller.body == s.caller.body
    ensures t.pieceBusy == (s.pieceBusy && !(step.ByGround? && Ends(step.run)))
    ensures t.flash.abandoned == (s.flash.abandoned || (step.ByGround? && GivesUp(step.run)))
  {
    var f := s.flash;
    match step
    case FinishLook =>
      if f.chip == Held then s.(flash := f.(chip := Busy), caller := InBodyAt(s, Finishing))
      else s.(flash := f.(heldSuspended := false), caller := InBodyAt(s, Cleared))
    case FinishSeen => s.(flash := f.(heldSuspended := false), caller := InBodyAt(s, Cleared))
    case FinishGiveUp => s.(flash := f.(heldSuspended := false), caller := InBodyAt(s, Cleared))
    case StartOperation =>
      s.(flash := f.(chip := Commanded(f.chip, s.caller.body.resume)), caller := InBodyAt(s, Working))
    case EndOperation =>
      s.(flash := f.(resuming := f.resuming && !s.caller.body.resume), caller := InBodyAt(s, Finished))
    case SkipGroundPiece => s.(caller := InBodyAt(s, Finished))
    case ByGround(run) =>
      s.(flash := Run(f, run, s.caller.body.resume, s.caller.phase == BodyPhase.Told),
         pieceBusy := s.pieceBusy && !Ends(run),
         caller := InBodyAt(s, if run.Start? then Working else if run.TellSuspend? then BodyPhase.Told else Finished))
  }

  predicate HelperEnabled(s: State, c: Core, step: HelperStep) {
    match step
    case Look => CanRun(s, c)
    case ReadTimer => OnCore(s.helper, c).Parking?
    case StopSpinning =>
      && OnCore(s.helper, c).Spinning?
      && (OnCore(s.lk, c) != LkParked || Since(s, OnCore(s.helper, c).since) >= PARK_MAX_US)
    case Unpark => OnCore(s.helper, c).Leaving?
  }

  function HelperApply(s: State, c: Core, step: HelperStep): (t: State)
    requires HelperEnabled(s, c, step)
    ensures t == s.(lk := t.lk, helper := t.helper, parkedAt := t.parkedAt)
    ensures OnCore(t.lk, Other(c)) == OnCore(s.lk, Other(c)) && OnCore(t.helper, Other(c)) == OnCore(s.helper, Other(c))
    ensures OnCore(t.parkedAt, Other(c)) == OnCore(s.parkedAt, Other(c))
  {
    match step
    case Look =>
      if OnCore(s.lk, c) != LkWanted then s
      else s.(lk := SetCore(s.lk, c, LkParked), helper := SetCore(s.helper, c, Parking),
              parkedAt := SetCore(s.parkedAt, c, s.clock))
    case ReadTimer => s.(helper := SetCore(s.helper, c, Spinning(s.clock)))
    case StopSpinning => s.(helper := SetCore(s.helper, c, Leaving))
    case Unpark => s.(lk := SetCore(s.lk, c, LkIdle), helper := SetCore(s.helper, c, Asleep))
  }

  predicate FlightEnabled(s: State, step: FlightStep) {
    match step
    case Begin => CanRun(s, Core0) && s.landing.NotEnding?
    case End => CanRun(s, Core0) && s.landing.NotEnding? && s.flight
    case EndPoll => CanRun(s, Core0) && s.landing.Ending?
  }

  function FlightApply(s: State, step: FlightStep): (t: State)
    requires FlightEnabled(s, step)
    ensures t == s.(flight := t.flight, landing := t.landing, overran := t.overran)
  {
    match step
    case Begin => s.(flight := true)
    case End => s.(landing := Ending(s.clock, s.clock))
    case EndPoll =>
      if !s.pieceBusy || Since(s, s.landing.since) > FlashPiece.PIECE_HARD_MAX_US then
        s.(flight := false, landing := NotEnding, overran := s.pieceBusy)
      else s.(landing := s.landing.(lastPoll := s.clock))
  }

  predicate PieceEnabled(s: State, step: PieceStep) {
    match step
    case ClaimPiece => CanRun(s, Core1) && s.piece.NoPiece? && !WriterInLockout(s)
    case ByRun(run) =>
      if run.Start? then CanRun(s, Core1) && s.piece.ClaimedPiece?
      else s.piece.Running? && RunEnabled(s.flash.chip, run, s.piece.told)
    case FreePiece => s.piece.Ended?
    case Abandon => CanRun(s, Core1) && s.piece.NoPiece? && !WriterInLockout(s)
  }

  function PieceApply(s: State, step: PieceStep): (t: State)
    requires PieceEnabled(s, step)
    ensures t == s.(flash := t.flash, pieceBusy := t.pieceBusy, piece := t.piece, overran := t.overran)
    ensures t.flash.abandoned == (s.flash.abandoned || (step.ByRun? && GivesUp(step.run)))
  {
    match step
    case ClaimPiece => if s.flight then s.(pieceBusy := true, piece := ClaimedPiece(s.flash.resuming)) else s
    case ByRun(run) =>
      if run.Start? then
        s.(flash := Run(s.flash, run, s.piece.resume, false), piece := Running(s.piece.resume, false))
      else
        s.(flash := Run(s.flash, run, s.piece.resume, s.piece.told),
           piece := if run.TellSuspend? then Running(s.piece.resume, true) else Ended)
    case FreePiece => s.(pieceBusy := false, piece := NoPiece, overran := false)
    case Abandon => s.(flash := s.flash.(resuming := false))
  }

  predicate ChipEnabled(s: State, step: ChipStep) {
    match step
    case OperationEnds => ChipBusy(s.flash.chip)
    case SuspendLands => s.flash.chip == Suspending
  }

  function ChipApply(s: State, step: ChipStep): State {
    s.(flash := s.flash.(chip := if step.OperationEnds? then Ready else Held, abandoned := false))
  }

  predicate Enabled(s: State, step: Step) {
    match step
    case Tick(_) => true
    case ByCaller(c) => CallerEnabled(s, c)
    case ByBody(b) => s.caller.InBody? && BodyEnabled(s, b)
    case ByHelper(core, h) => HelperEnabled(s, core, h)
    case ByFlight(f) => FlightEnabled(s, f)
    case ByPiece(p) => PieceEnabled(s, p)
    case ByChip(c) => ChipEnabled(s, c)
  }

  function Apply(s: State, step: Step): State
    requires Enabled(s, step)
  {
    match step
    case Tick(us) => s.(clock := s.clock + us)
    case ByCaller(c) => CallerApply(s, c)
    case ByBody(b) => BodyApply(s, b)
    case ByHelper(core, h) => HelperApply(s, core, h)
    case ByFlight(f) => FlightApply(s, f)
    case ByPiece(p) => PieceApply(s, p)
    case ByChip(c) => ChipApply(s, c)
  }

  /* ---- What every step keeps ---- */

  /** The other core's helper let itself go, or is about to: it has been parked
      for PARK_MAX_US. */
  predicate Expired(s: State, c: Core) {
    s.clock - OnCore<nat>(s.parkedAt, c) >= PARK_MAX_US
  }

  predicate IsParked(s: State, c: Core) {
    OnCore(s.helper, c) != Asleep
  }

  /** A caller for whom a core must be parked. */
  predicate Wants(s: State, c: Core) {
    !s.caller.Nobody? && !s.caller.Releasing? && s.caller.core == Other(c)
  }

  /** A claim on a core stands only while its caller waits. */
  predicate ClaimInv(s: State, c: Core) {
    OnCore(s.lk, c) == LkWanted ==> Wants(s, c) && (s.caller.Claimed? || s.caller.Waiting? || s.caller.TimedOut?)
  }

  /** LK_PARKED is a helper parked for the present caller, or letting itself go. */
  predicate ParkInv(s: State, c: Core) {
    && (OnCore(s.lk, c) == LkParked ==>
          Wants(s, c) && IsParked(s, c) && (OnCore(s.helper, c).Leaving? ==> Expired(s, c)))
    && (Wants(s, c) && (s.caller.Admitted? || s.caller.InBody?) ==> OnCore(s.lk, c) == LkParked || Expired(s, c))
    && (BodyOn(s, c) ==> !IsParked(s, c))
  }

  predicate TimeInv(s: State, c: Core) {
    && OnCore<nat>(s.parkedAt, c) <= s.clock
    && (OnCore(s.helper, c).Spinning? ==> OnCore<nat>(s.parkedAt, c) <= OnCore(s.helper, c).since <= s.clock)
  }

  predicate LockInv(s: State, c: Core) {
    ClaimInv(s, c) && ParkInv(s, c) && TimeInv(s, c)
  }

  predicate PieceInv(s: State) {
    && (s.pieceBusy <==> !s.piece.NoPiece?)
    && (!s.piece.NoPiece? ==> s.flight || s.overran) && (s.overran ==> s.pieceBusy)
    && (WriterInLockout(s) ==> s.piece.NoPiece? && s.caller.core == Core1)
    && (s.piece.Running? || s.piece.Ended? ==> OnCore(s.helper, Core1) == Asleep && !BodyOn(s, Core1))
    && (s.landing.Ending? ==> s.landing.since <= s.landing.lastPoll <= s.clock)
  }

  /** Somebody is waiting on the chip. */
  predicate Driven(s: State) {
    || s.piece.Running?
    || (s.caller.InBody? && s.caller.phase in {Finishing, Cleared, Working, BodyPhase.Told})
  }

  /** The chip is busy only while somebody waits on it, or a piece gave it up. */
  predicate BusyInv(s: State) {
    && (ChipBusy(s.flash.chip) ==> Driven(s) || s.flash.abandoned)
    && (s.flash.abandoned ==> ChipBusy(s.flash.chip))
  }

  predicate Inv(s: State) {
    LockInv(s, Core0) && LockInv(s, Core1) && PieceInv(s) && BusyInv(s)
  }

  lemma CallerKeepsClaim(s: State, step: CallerStep, c: Core)
    requires LockInv(s, c) && CallerEnabled(s, step)
    ensures ClaimInv(CallerApply(s, step), c) && TimeInv(CallerApply(s, step), c)
  {
  }

  lemma CallerKeepsPark(s: State, step: CallerStep, c: Core)
    requires LockInv(s, c) && CallerEnabled(s, step)
    ensures ParkInv(CallerApply(s, step), c)
  {
  }

  lemma CallerKeepsPiece(s: State, step: CallerStep)
    requires PieceInv(s) && CallerEnabled(s, step)
    ensures PieceInv(CallerApply(s, step))
  {
  }

  lemma CallerKeepsBusy(s: State, step: CallerStep)
    requires BusyInv(s) && CallerEnabled(s, step)
    ensures BusyInv(CallerApply(s, step))
  {
  }

  lemma BodyKeepsLock(s: State, step: BodyStep, c: Core)
    requires LockInv(s, c) && s.caller.InBody? && BodyEnabled(s, step)
    ensures LockInv(BodyApply(s, step), c)
  {
    hide BodyApply, BodyEnabled;
  }

  lemma BodyKeepsPiece(s: State, step: BodyStep)
    requires PieceInv(s) && s.caller.InBody? && BodyEnabled(s, step)
    ensures PieceInv(BodyApply(s, step))
  {
    hide BodyApply;
  }

  lemma BodyKeepsBusy(s: State, step: BodyStep)
    requires BusyInv(s) && s.caller.InBody? && BodyEnabled(s, step)
    ensures BusyInv(BodyApply(s, step))
  {
  }

  lemma HelperKeepsLock(s: State, core: Core, step: HelperStep, c: Core)
    requires LockInv(s, c) && HelperEnabled(s, core, step)
    ensures LockInv(HelperApply(s, core, step), c)
  {
    if core == c {
      OwnHelperKeepsLock(s, c, step);
    } else {
      OtherHelperKeepsLock(s, core, step, c);
    }
  }

  lemma OwnHelperKeepsLock(s: State, c: Core, step: HelperStep)
    requires LockInv(s, c) && HelperEnabled(s, c, step)
    ensures LockInv(HelperApply(s, c, step), c)
  {
    if step.StopSpinning? {
      ElapsedNeverExceeds(OnCore(s.helper, c).since, s.clock);
    }
  }

  lemma OtherHelperKeepsLock(s: State, core: Core, step: HelperStep, c: Core)
    requires core != c && LockInv(s, c) && HelperEnabled(s, core, step)
    ensures LockInv(HelperApply(s, core, step), c)
  {
    hide HelperApply, HelperEnabled;
  }

  lemma HelperKeepsPiece(s: State, core: Core, step: HelperStep)
    requires PieceInv(s) && BusyInv(s) && HelperEnabled(s, core, step)
    ensures PieceInv(HelperApply(s, core, step)) && BusyInv(HelperApply(s, core, step))
  {
  }

  lemma FlightKeepsLock(s: State, step: FlightStep, c: Core)
    requires LockInv(s, c) && FlightEnabled(s, step)
    ensures LockInv(FlightApply(s, step), c)
  {
  }

  lemma FlightKeepsPiece(s: State, step: FlightStep)
    requires PieceInv(s) && BusyInv(s) && FlightEnabled(s, step)
    ensures PieceInv(FlightApply(s, step)) && BusyInv(FlightApply(s, step))
  {
  }

  lemma PieceKeepsLock(s: State, step: PieceStep, c: Core)
    requires LockInv(s, c) && PieceEnabled(s, step)
    ensures LockInv(PieceApply(s, step), c)
  {
    hide PieceApply, PieceEnabled;
  }

  lemma PieceKeepsPiece(s: State, step: PieceStep)
    requires PieceInv(s) && PieceEnabled(s, step)
    ensures PieceInv(PieceApply(s, step))
  {
  }

  lemma PieceKeepsBusy(s: State, step: PieceStep)
    requires BusyInv(s) && PieceEnabled(s, step)
    ensures BusyInv(PieceApply(s, step))
  {
  }

  lemma StepKeepsInv(s: State, step: Step)
    requires Inv(s) && Enabled(s, step)
    ensures Inv(Apply(s, step))
  {
    match step
    case Tick(_) =>
    case ByCaller(c) =>
      CallerKeepsClaim(s, c, Core0);
      CallerKeepsPark(s, c, Core0);
      CallerKeepsClaim(s, c, Core1);
      CallerKeepsPark(s, c, Core1);
      CallerKeepsPiece(s, c);
      CallerKeepsBusy(s, c);
    case ByBody(b) =>
      BodyKeepsLock(s, b, Core0);
      BodyKeepsLock(s, b, Core1);
      BodyKeepsPiece(s, b);
      BodyKeepsBusy(s, b);
    case ByHelper(core, h) =>
      HelperKeepsLock(s, core, h, Core0);
      HelperKeepsLock(s, core, h, Core1);
      HelperKeepsPiece(s, core, h);
    case ByFlight(f) =>
      FlightKeepsLock(s, f, Core0);
      FlightKeepsLock(s, f, Core1);
      FlightKeepsPiece(s, f);
    case ByPiece(p) =>
      PieceKeepsLock(s, p, Core0);
      PieceKeepsLock(s, p, Core1);
      PieceKeepsPiece(s, p);
      PieceKeepsBusy(s, p);
    case ByChip(_) =>
  }

  /* ---- Runs ---- */

  predicate Leads(s: State, step: Step, t: State) {
    Enabled(s, step) && t == Apply(s, step)
  }

  /** The states of a run: each of its steps was enabled. */
  predicate IsRun(run: seq<State>, steps: seq<Step>) {
    && |run| == |steps| + 1
    && run[0] == Init()
    && forall i :: 0 <= i < |steps| ==> Leads(run[i], steps[i], run[i + 1])
  }

  lemma {:induction false} RunKeepsInv(run: seq<State>, steps: seq<Step>, n: nat)
    requires IsRun(run, steps) && n < |run|
    ensures Inv(run[n])
  {
    if n > 0 {
      RunKeepsInv(run, steps, n - 1);
      assert Leads(run[n - 1], steps[n - 1], run[n]);
      StepKeepsInv(run[n - 1], steps[n - 1]);
    }
  }

  /* ---- Out of XIP ---- */

  /** The chip answers no XIP read: it is busy with an operation or a suspend,
      or somebody is sending it commands. */
  predicate XipDown(s: State) {
    ChipBusy(s.flash.chip) || s.caller.InBody? || s.piece.Running?
  }

  /** A core may be fetching from the flash: it runs, and it is not core0 in
      flight, whose code is in RAM. */
  predicate MayFetch(s: State, c: Core) {
    CanRun(s, c) && !(c == Core0 && s.flight)
  }

  /** A body has outlived the park of the other core. */
  predicate Outlived(s: State) {
    s.caller.InBody? && Expired(s, Other(s.caller.core))
  }

  /** The flight was ended over the piece that is still driving the chip. */
  predicate LandedOn(s: State) {
    s.overran && s.piece.Running?
  }

  /** Of every interleaving and with no assumption on time: a core that may be
      fetching finds the flash out of XIP exactly when a body has outlived the
      other core's park, the flight was ended over the piece that runs, or a
      piece gave up a chip that is busy yet; and a body and a piece never drive
      the chip together, unless a body outlived its park. */
  lemma XipSafety(run: seq<State>, steps: seq<Step>, n: nat, c: Core)
    requires IsRun(run, steps) && n < |run|
    ensures var s := run[n];
            && (MayFetch(s, c) ==> (XipDown(s) <==> Outlived(s) || LandedOn(s) || s.flash.abandoned))
            && (s.caller.InBody? && s.piece.Running? ==> Outlived(s))
  {
    RunKeepsInv(run, steps, n);
  }

  predicate GivesUpChip(step: Step) {
    match step
    case ByPiece(ByRun(r)) => GivesUp(r)
    case ByBody(ByGround(r)) => GivesUp(r)
    case _ => false
  }

  /** The j-th step gave the chip up, and it has been busy ever since. */
  predicate BusySince(run: seq<State>, steps: seq<Step>, j: nat, n: nat)
    requires |run| == |steps| + 1 && j < n < |run|
  {
    GivesUpChip(steps[j]) && forall k :: j < k <= n ==> ChipBusy(run[k].flash.chip)
  }

  lemma AbandonedStep(s: State, step: Step)
    requires Enabled(s, step)
    ensures Apply(s, step).flash.abandoned == (!step.ByChip? && (s.flash.abandoned || GivesUpChip(step)))
    ensures step.ByChip? ==> !ChipBusy(Apply(s, step).flash.chip)
  {
    hide CallerApply, BodyApply, HelperApply, FlightApply, PieceApply;
  }

  /** What the second exception means: a chip is abandoned exactly while it has
      been busy since a piece gave it up. */
  lemma {:induction false} AbandonedExactly(run: seq<State>, steps: seq<Step>, n: nat)
    requires IsRun(run, steps) && n < |run|
    ensures run[n].flash.abandoned <==> exists j: nat :: j < n && BusySince(run, steps, j, n)
  {
    hide Apply, Enabled;
    if n > 0 {
      AbandonedExactly(run, steps, n - 1);
      RunKeepsInv(run, steps, n);
      assert Leads(run[n - 1], steps[n - 1], run[n]);
      AbandonedStep(run[n - 1], steps[n - 1]);
      if run[n].flash.abandoned {
        if GivesUpChip(steps[n - 1]) {
          assert BusySince(run, steps, n - 1, n);
        } else {
          var j: nat :| j < n - 1 && BusySince(run, steps, j, n - 1);
          assert BusySince(run, steps, j, n);
        }
      }
      forall j: nat | j < n && BusySince(run, steps, j, n) ensures run[n].flash.abandoned {
        assert ChipBusy(run[n].flash.chip);
        if j < n - 1 {
          assert BusySince(run, steps, j, n - 1);
        }
      }
    }
  }

  /** A piece ends on this step. */
  predicate PieceEnds(step: Step) {
    match step
    case ByPiece(ByRun(r)) => Ends(r)
    case ByBody(ByGround(r)) => Ends(r)
    case _ => false
  }

  /** It ends told to suspend and with its operation held. */
  predicate LeavesHeld(s: State, step: Step) {
    && PieceEnds(step) && s.flash.chip == Held
    && (if step.ByPiece? then s.piece.Running? && s.piece.told
        else s.caller.InBody? && s.caller.phase == BodyPhase.Told)
  }

  /** The writer's operation ends: with a piece that does not leave it held, with
      the rest of it run whole, or given up. */
  predicate WriterEnds(s: State, step: Step) {
    || (PieceEnds(step) && !LeavesHeld(s, step))
    || (step == ByBody(EndOperation) && s.caller.InBody? && s.caller.body.resume)
    || step == ByPiece(Abandon)
  }

  /** The j-th step left the operation held, and it has not ended since. */
  predicate HeldSince(run: seq<State>, steps: seq<Step>, j: nat, n: nat)
    requires |run| == |steps| + 1 && j < n < |run|
  {
    LeavesHeld(run[j], steps[j]) && forall k :: j < k < n ==> !WriterEnds(run[k], steps[k])
  }

  lemma ResumingStep(s: State, step: Step)
    requires Enabled(s, step)
    ensures Apply(s, step).flash.resuming <==> LeavesHeld(s, step) || (s.flash.resuming && !WriterEnds(s, step))
  {
    hide CallerApply, BodyApply, PieceApply, HelperApply, FlightApply;
    hide CallerEnabled, BodyEnabled, PieceEnabled, HelperEnabled, FlightEnabled;
    match step
    case ByBody(b) => ResumingBody(s, b);
    case ByPiece(p) => ResumingPiece(s, p);
    case _ =>
  }

  lemma ResumingBody(s: State, b: BodyStep)
    requires s.caller.InBody? && BodyEnabled(s, b)
    ensures var step := ByBody(b);
            BodyApply(s, b).flash.resuming == (LeavesHeld(s, step) || (s.flash.resuming && !WriterEnds(s, step)))
  {
  }

  lemma ResumingPiece(s: State, p: PieceStep)
    requires PieceEnabled(s, p)
    ensures var step := ByPiece(p);
            PieceApply(s, p).flash.resuming == (LeavesHeld(s, step) || (s.flash.resuming && !WriterEnds(s, step)))
  {
  }

  /** What the writer goes on with: it resumes exactly while its newest piece left
      the operation held and nothing has ended it since. */
  lemma {:induction false} ResumingExactly(run: seq<State>, steps: seq<Step>, n: nat)
    requires IsRun(run, steps) && n < |run|
    ensures run[n].flash.resuming <==> exists j: nat :: j < n && HeldSince(run, steps, j, n)
  {
    hide Apply, Enabled, LeavesHeld, WriterEnds;
    if n > 0 {
      ResumingExactly(run, steps, n - 1);
      assert Leads(run[n - 1], steps[n - 1], run[n]);
      ResumingStep(run[n - 1], steps[n - 1]);
      if run[n].flash.resuming {
        if LeavesHeld(run[n - 1], steps[n - 1]) {
          assert HeldSince(run, steps, n - 1, n);
        } else {
          var j: nat :| j < n - 1 && HeldSince(run, steps, j, n - 1);
          assert HeldSince(run, steps, j, n);
        }
      }
      forall j: nat | j < n && HeldSince(run, steps, j, n) ensures run[n].flash.resuming {
        if j < n - 1 {
          assert HeldSince(run, steps, j, n - 1);
        }
      }
    }
  }

  /** A piece ends with its operation held, or its suspend not landed. */
  predicate LeavesFlag(s: State, step: Step) {
    LeavesHeld(s, step) || step == ByPiece(ByRun(GiveUpSuspend)) || step == ByBody(ByGround(GiveUpSuspend))
  }

  /** The piece that ends resumed an operation. */
  predicate EndsResumed(s: State, step: Step) {
    && PieceEnds(step)
    && (if step.ByPiece? then s.piece.Running? && s.piece.resume else s.caller.InBody? && s.caller.body.resume)
  }

  /** run_direct() has been past the flag: it saw nothing held, finished what it
      saw, or gave that up. */
  predicate ClearsFlag(s: State, step: Step) {
    || (EndsResumed(s, step) && !LeavesFlag(s, step))
    || step == ByBody(FinishSeen) || step == ByBody(FinishGiveUp)
    || (step == ByBody(FinishLook) && s.flash.chip != Held)
  }

  predicate FlaggedSince(run: seq<State>, steps: seq<Step>, j: nat, n: nat)
    requires |run| == |steps| + 1 && j < n < |run|
  {
    LeavesFlag(run[j], steps[j]) && forall k :: j < k < n ==> !ClearsFlag(run[k], steps[k])
  }

  lemma FlagStep(s: State, step: Step)
    requires Enabled(s, step)
    ensures Apply(s, step).flash.heldSuspended <==>
              LeavesFlag(s, step) || (s.flash.heldSuspended && !ClearsFlag(s, step))
  {
    hide CallerApply, BodyApply, PieceApply, HelperApply, FlightApply;
    hide CallerEnabled, BodyEnabled, PieceEnabled, HelperEnabled, FlightEnabled;
    match step
    case ByBody(b) => FlagBody(s, b);
    case ByPiece(p) => FlagPiece(s, p);
    case _ =>
  }

  lemma FlagBody(s: State, b: BodyStep)
    requires s.caller.InBody? && BodyEnabled(s, b)
    ensures var step := ByBody(b);
            BodyApply(s, b).flash.heldSuspended
            == (LeavesFlag(s, step) || (s.flash.heldSuspended && !ClearsFlag(s, step)))
  {
  }

  lemma FlagPiece(s: State, p: PieceStep)
    requires PieceEnabled(s, p)
    ensures var step := ByPiece(p);
            PieceApply(s, p).flash.heldSuspended
            == (LeavesFlag(s, step) || (s.flash.heldSuspended && !ClearsFlag(s, step)))
  {
  }

  /** What the flag is kept by: held_suspended stands exactly while a piece has left
      its operation held, or its suspend not landed, and since then no resumed
      piece has ended otherwise and no run_direct() has been past it. */
  lemma {:induction false} FlagExactly(run: seq<State>, steps: seq<Step>, n: nat)
    requires IsRun(run, steps) && n < |run|
    ensures run[n].flash.heldSuspended <==> exists j: nat :: j < n && FlaggedSince(run, steps, j, n)
  {
    hide Apply, Enabled, LeavesFlag, ClearsFlag;
    if n > 0 {
      FlagExactly(run, steps, n - 1);
      assert Leads(run[n - 1], steps[n - 1], run[n]);
      FlagStep(run[n - 1], steps[n - 1]);
      if run[n].flash.heldSuspended {
        if LeavesFlag(run[n - 1], steps[n - 1]) {
          assert FlaggedSince(run, steps, n - 1, n);
        } else {
          var j: nat :| j < n - 1 && FlaggedSince(run, steps, j, n - 1);
          assert FlaggedSince(run, steps, j, n);
        }
      }
      forall j: nat | j < n && FlaggedSince(run, steps, j, n) ensures run[n].flash.heldSuspended {
        if j < n - 1 {
          assert FlaggedSince(run, steps, j, n - 1);
        }
      }
    }
  }

  /** A piece of this machine ends as run_piece() does: whatever a chip does under
      its status reads, what is returned is what the step it ends on gives for the
      chip at that read. */
  lemma EndsAsRunPiece(p: FlashSlot.Piece, settleUs: u32, t0: int, tr: FlashPiece.Trace, start: Chip,
                       c: FlashPiece.Sight)
    requires FlashPiece.Shows(start, tr, c) && FlashPiece.Ran(p, settleUs, t0, tr).Some?
    ensures var told := FlashPiece.Polled(p, t0, tr.polls, 0).Suspended?;
            var chip := FlashPiece.AtReturn(p, settleUs, t0, tr, start, c);
            var step := if !ChipBusy(chip) then SeeIdle else if told then GiveUpSuspend else GiveUpRun;
            RunEnabled(chip, step, told) && FlashPiece.Ran(p, settleUs, t0, tr) == Some(Result(chip, step, told))
  {
    var e := FlashPiece.Polled(p, t0, tr.polls, 0);
    if e.Suspended? {
      var l := FlashPiece.Landed(tr.ts, tr.after, 0);
      FlashPiece.LandedBusy(tr.ts, tr.after, 0);
      FlashPiece.LeftAlone(FlashChip.ToldToSuspend(c.told), tr.after, c.after, l.n + 1, |c.after|);
    }
  }

  /** The flight is ended with a piece in progress. */
  predicate LandsOnPiece(s: State, step: Step) {
    && step == ByFlight(EndPoll) && s.landing.Ending? && s.pieceBusy
    && Since(s, s.landing.since) > FlashPiece.PIECE_HARD_MAX_US
  }

  /** The j-th step landed on a piece, and a piece has been in progress ever since. */
  predicate OverranSince(run: seq<State>, steps: seq<Step>, j: nat, n: nat)
    requires |run| == |steps| + 1 && j < n < |run|
  {
    LandsOnPiece(run[j], steps[j]) && forall k :: j < k <= n ==> run[k].pieceBusy
  }

  lemma OverranStep(s: State, step: Step)
    requires PieceInv(s) && Enabled(s, step)
    ensures Apply(s, step).overran == (Apply(s, step).pieceBusy && (s.overran || LandsOnPiece(s, step)))
  {
    hide CallerApply, BodyApply, HelperApply;
  }

  lemma {:induction false} OverranExactly(run: seq<State>, steps: seq<Step>, n: nat)
    requires IsRun(run, steps) && n < |run|
    ensures run[n].overran <==> exists j: nat :: j < n && OverranSince(run, steps, j, n)
  {
    hide Apply, Enabled, LandsOnPiece;
    if n > 0 {
      OverranExactly(run, steps, n - 1);
      RunKeepsInv(run, steps, n - 1);
      assert Leads(run[n - 1], steps[n - 1], run[n]);
      OverranStep(run[n - 1], steps[n - 1]);
      if run[n].overran {
        if LandsOnPiece(run[n - 1], steps[n - 1]) {
          assert OverranSince(run, steps, n - 1, n);
        } else {
          var j: nat :| j < n - 1 && OverranSince(run, steps, j, n - 1);
          assert OverranSince(run, steps, j, n);
        }
      }
      forall j: nat | j < n && OverranSince(run, steps, j, n) ensures run[n].overran {
        assert run[n].pieceBusy;
        if j < n - 1 {
          assert OverranSince(run, steps, j, n - 1);
        }
      }
    }
  }

  /** While not in flight, unless the landing's own piece is still in progress,
      none is running and none can start until the next flight begins. */
  lemma NoPieceAfterLanding(run: seq<State>, steps: seq<Step>, n: nat)
    requires IsRun(run, steps) && n < |run| && !run[n].flight && !run[n].overran
    ensures run[n].piece.NoPiece?
    ensures forall p: PieceStep :: PieceEnabled(run[n], p) && p != Abandon ==> PieceApply(run[n], p) == run[n]
  {
    RunKeepsInv(run, steps, n);
  }

  /** A helper parks only for a caller that still waits: a claim withdrawn, or
      served, parks nobody. And a parked helper whose caller has gone finds the
      word changed at its next look, so it is not left spinning. */
  lemma WithdrawnClaimParksNobody(run: seq<State>, steps: seq<Step>, n: nat, c: Core)
    requires IsRun(run, steps) && n < |run|
    ensures var s := run[n];
            && (!Wants(s, c) && HelperEnabled(s, c, Look) ==> HelperApply(s, c, Look) == s)
            && (!Wants(s, c) && OnCore(s.helper, c).Spinning? ==> HelperEnabled(s, c, StopSpinning))
  {
    RunKeepsInv(run, steps, n);
  }

  /** A body is entered only with the other core parked for it. */
  lemma BodyFollowsPark(run: seq<State>, steps: seq<Step>, n: nat)
    requires IsRun(run, steps) && n < |steps| && steps[n] == ByCaller(EnterBody)
    ensures run[n].caller.Admitted?
    ensures var s, other := run[n], Other(run[n].caller.core);
            || Expired(s, other)
            || (IsParked(s, other) && OnCore(s.lk, other) == LkParked && !OnCore(s.helper, other).Leaving?)
  {
    assert Leads(run[n], steps[n], run[n + 1]);
    RunKeepsInv(run, steps, n);
  }

  /* ---- An operation held suspended ---- */

  predicate HoldsSuspended(chip: Chip) {
    chip == Held || chip == Suspending
  }

  /** A piece has told the chip to suspend, and has not returned. */
  predicate Telling(s: State) {
    || (s.piece.Running? && s.piece.told)
    || (s.caller.InBody? && s.caller.body.Ground? && s.caller.phase == BodyPhase.Told)
  }

  /** Between pieces, what the chip holds is known to be held. */
  predicate HeldKnown(s: State) {
    HoldsSuspended(s.flash.chip) ==> s.flash.heldSuspended || Telling(s)
  }

  predicate GroundRuns(s: State) {
    s.caller.InBody? && s.caller.body.Ground? && (s.caller.phase == Working || s.caller.phase == BodyPhase.Told)
  }

  predicate BeforeBody(s: State) {
    !s.caller.Nobody? && !s.caller.Releasing? && (s.caller.InBody? ==> s.caller.phase == Entered)
  }

  /** A resume goes to no chip with a suspend still to land. */
  predicate ResumeInv(s: State) {
    && (s.flash.resuming && !s.piece.Running? && !GroundRuns(s) ==> s.flash.chip != Suspending)
    && (s.piece.ClaimedPiece? && s.piece.resume ==> s.flash.resuming)
    && (s.piece.Running? && s.piece.resume && !s.piece.told ==> !HoldsSuspended(s.flash.chip))
    && (GroundRuns(s) && s.caller.body.resume && s.caller.phase == Working ==> !HoldsSuspended(s.flash.chip))
    && (BeforeBody(s) && s.caller.body.resume ==> s.flash.resuming)
  }

  /** A whole operation's body, past the finishing of one held, finds none held,
      unless it has outlived its park. */
  predicate ClearInv(s: State) {
    s.caller.InBody? && s.caller.body.Direct? && s.caller.phase in {Finishing, Cleared, Working} ==>
      !HoldsSuspended(s.flash.chip) || Expired(s, Other(s.caller.core))
  }

  predicate KnownInv(s: State) {
    HeldKnown(s) && ResumeInv(s) && ClearInv(s)
  }

  /** The body, if there is one, is inside its park. */
  predicate Punctual(s: State) {
    !Outlived(s)
  }

  /** run_direct() reads the suspended bit before a suspend has landed: it clears
      the flag and finishes nothing. */
  predicate Misses(s: State, step: Step) {
    step == ByBody(FinishLook) && s.flash.chip == Suspending
  }

  lemma CallerKeepsKnown(s: State, step: CallerStep)
    requires PieceInv(s) && KnownInv(s) && CallerEnabled(s, step)
    ensures KnownInv(CallerApply(s, step))
  {
  }

  lemma BodyKeepsKnown(s: State, step: BodyStep)
    requires Inv(s) && KnownInv(s) && s.caller.InBody? && BodyEnabled(s, step)
    requires Punctual(s) && !Misses(s, ByBody(step))
    ensures KnownInv(BodyApply(s, step))
  {
    if step == ByGround(SeeIdle) {
      assert s.caller.phase == BodyPhase.Told ==> HeldKnown(BodyApply(s, step));
    } else if step.ByGround? {
      assert HeldKnown(BodyApply(s, step));
    }
  }

  lemma PieceKeepsKnown(s: State, step: PieceStep)
    requires Inv(s) && KnownInv(s) && PieceEnabled(s, step)
    ensures KnownInv(PieceApply(s, step))
  {
    if step == ByRun(SeeIdle) {
      assert s.piece.told ==> HeldKnown(PieceApply(s, step));
    } else if step.ByRun? {
      assert HeldKnown(PieceApply(s, step));
    }
  }

  lemma ChipKeepsKnown(s: State, step: ChipStep)
    requires Inv(s) && KnownInv(s) && ChipEnabled(s, step)
    ensures KnownInv(ChipApply(s, step))
  {
  }

  lemma HelperKeepsKnown(s: State, core: Core, step: HelperStep)
    requires Inv(s) && KnownInv(s) && HelperEnabled(s, core, step)
    ensures KnownInv(HelperApply(s, core, step))
  {
  }

  lemma StepKeepsKnown(s: State, step: Step)
    requires Inv(s) && KnownInv(s) && Enabled(s, step) && Punctual(s) && !Misses(s, step)
    ensures KnownInv(Apply(s, step))
  {
    hide CallerApply, BodyApply, HelperApply, PieceApply, ChipApply, LockInv, BusyInv;
    match step
    case Tick(_) =>
    case ByCaller(c) => CallerKeepsKnown(s, c);
    case ByBody(b) => BodyKeepsKnown(s, b);
    case ByHelper(core, h) => HelperKeepsKnown(s, core, h);
    case ByFlight(_) =>
    case ByPiece(p) => PieceKeepsKnown(s, p);
    case ByChip(c) => ChipKeepsKnown(s, c);
  }

  /** No run_direct() has missed a suspend by the n-th state. */
  predicate NoMiss(run: seq<State>, steps: seq<Step>, n: nat)
    requires |run| == |steps| + 1 && n < |run|
  {
    forall i :: 0 <= i < n ==> !Misses(run[i], steps[i])
  }

  /** Until run_direct() misses a suspend, an operation the chip holds between
      pieces is known to be held. */
  lemma {:induction false} SuspendedIsKnown(run: seq<State>, steps: seq<Step>, n: nat)
    requires IsRun(run, steps) && n < |run| && NoMiss(run, steps, n)
    requires forall i :: 0 <= i < n ==> Punctual(run[i])
    ensures KnownInv(run[n])
  {
    hide Apply, Enabled, HeldKnown, ResumeInv, ClearInv;
    if n > 0 {
      SuspendedIsKnown(run, steps, n - 1);
      RunKeepsInv(run, steps, n - 1);
      assert Leads(run[n - 1], steps[n - 1], run[n]);
      StepKeepsKnown(run[n - 1], steps[n - 1]);
    } else {
      NothingHeldAtFirst();
    }
  }

  lemma NothingHeldAtFirst()
    ensures KnownInv(Init())
  {
  }

  /** And at once not, when it does: so it is known in every state of a run, its
      bodies punctual, if and only if no run_direct() looks at the suspended bit
      while a suspend is still to land. */
  lemma KnownExactly(run: seq<State>, steps: seq<Step>)
    requires IsRun(run, steps) && forall n :: 0 <= n < |run| ==> Punctual(run[n])
    ensures (forall n :: 0 <= n < |run| ==> HeldKnown(run[n])) <==> NoMiss(run, steps, |steps|)
  {
    if NoMiss(run, steps, |steps|) {
      forall n | 0 <= n < |run| ensures HeldKnown(run[n]) {
        assert NoMiss(run, steps, n);
        SuspendedIsKnown(run, steps, n);
      }
    } else {
      var i :| 0 <= i < |steps| && Misses(run[i], steps[i]);
      assert Leads(run[i], steps[i], run[i + 1]);
      RunKeepsInv(run, steps, i + 1);
      assert Punctual(run[i + 1]);
      XipSafety(run, steps, i + 1, Core0);
      assert !HeldKnown(run[i + 1]);
    }
  }

  /** run_direct() then never starts an operation on a chip that holds another
      suspended: the suspended one is finished first. */
  lemma NothingStartsOnHeld(run: seq<State>, steps: seq<Step>, n: nat)
    requires IsRun(run, steps) && n < |steps| && steps[n] == ByBody(StartOperation)
    requires NoMiss(run, steps, n) && forall i :: 0 <= i <= n ==> Punctual(run[i])
    ensures !HoldsSuspended(run[n].flash.chip)
  {
    assert Leads(run[n], steps[n], run[n + 1]);
    SuspendedIsKnown(run, steps, n);
    RunKeepsInv(run, steps, n);
    assert Punctual(run[n]);
  }

  /* ---- A piece on a held chip ---- */

  /** The writer gives an operation up that the chip may hold: one suspended is
      not gone on with, or a suspend has not landed. */
  predicate GivesUpOperation(s: State, step: Step) {
    || (step == ByPiece(Abandon) && s.flash.resuming)
    || step == ByPiece(ByRun(GiveUpSuspend))
    || step == ByBody(ByGround(GiveUpSuspend))
  }

  /** What the chip holds is the writer's present operation, to be gone on with. */
  predicate OwnInv(s: State) {
    && (HoldsSuspended(s.flash.chip) ==> s.flash.resuming || Telling(s))
    && (s.piece.Running? && !s.piece.told ==> !HoldsSuspended(s.flash.chip))
    && (GroundRuns(s) && s.caller.phase == Working ==> !HoldsSuspended(s.flash.chip))
    && (s.piece.ClaimedPiece? ==> s.piece.resume == s.flash.resuming)
    && (WriterInLockout(s) && BeforeBody(s) ==> s.caller.body.resume == s.flash.resuming)
  }

  lemma CallerKeepsOwn(s: State, step: CallerStep)
    requires Inv(s) && KnownInv(s) && OwnInv(s) && CallerEnabled(s, step)
    ensures OwnInv(CallerApply(s, step))
  {
  }

  lemma BodyKeepsOwn(s: State, step: BodyStep)
    requires Inv(s) && KnownInv(s) && OwnInv(s) && s.caller.InBody? && BodyEnabled(s, step)
    requires Punctual(s) && !Misses(s, ByBody(step)) && !GivesUpOperation(s, ByBody(step))
    ensures OwnInv(BodyApply(s, step))
  {
  }

  lemma PieceKeepsOwn(s: State, step: PieceStep)
    requires Inv(s) && KnownInv(s) && OwnInv(s) && PieceEnabled(s, step) && !GivesUpOperation(s, ByPiece(step))
    ensures OwnInv(PieceApply(s, step))
  {
  }

  lemma StepKeepsOwn(s: State, step: Step)
    requires Inv(s) && KnownInv(s) && OwnInv(s) && Enabled(s, step)
    requires Punctual(s) && !Misses(s, step) && !GivesUpOperation(s, step)
    ensures OwnInv(Apply(s, step))
  {
    hide CallerApply, BodyApply, HelperApply, PieceApply, LockInv, BusyInv;
    match step
    case Tick(_) =>
    case ByCaller(c) => CallerKeepsOwn(s, c);
    case ByBody(b) => BodyKeepsOwn(s, b);
    case ByHelper(core, h) =>
    case ByFlight(_) =>
    case ByPiece(p) => PieceKeepsOwn(s, p);
    case ByChip(c) =>
  }

  lemma {:induction false} OwnUntilGivenUp(run: seq<State>, steps: seq<Step>, n: nat)
    requires IsRun(run, steps) && n < |run| && NoMiss(run, steps, n)
    requires forall i :: 0 <= i < n ==> Punctual(run[i]) && !GivesUpOperation(run[i], steps[i])
    ensures OwnInv(run[n])
  {
    hide Apply, Enabled, OwnInv, KnownInv, GivesUpOperation;
    if n > 0 {
      OwnUntilGivenUp(run, steps, n - 1);
      RunKeepsInv(run, steps, n - 1);
      SuspendedIsKnown(run, steps, n - 1);
      assert Leads(run[n - 1], steps[n - 1], run[n]);
      StepKeepsOwn(run[n - 1], steps[n - 1]);
    } else {
      NothingOwnAtFirst();
    }
  }

  lemma NothingOwnAtFirst()
    ensures OwnInv(Init())
  {
  }

  /** A piece sends a fresh start. */
  predicate StartsFresh(s: State, step: Step) {
    || (step == ByPiece(ByRun(Start)) && s.piece.ClaimedPiece? && !s.piece.resume)
    || (step == ByBody(ByGround(Start)) && s.caller.InBody? && !s.caller.body.resume)
  }

  /** A piece can start fresh on a chip that holds an operation suspended, but only
      once the writer has given one up; the held one is then known, and the chip
      ignores the new one. */
  lemma FreshOnHeldIsIgnored(run: seq<State>, steps: seq<Step>, n: nat)
    requires IsRun(run, steps) && n < |steps| && StartsFresh(run[n], steps[n]) && HoldsSuspended(run[n].flash.chip)
    requires NoMiss(run, steps, n) && forall i :: 0 <= i <= n ==> Punctual(run[i])
    ensures run[n].flash.heldSuspended && run[n + 1].flash == run[n].flash
    ensures exists j :: 0 <= j < n && GivesUpOperation(run[j], steps[j])
  {
    assert Leads(run[n], steps[n], run[n + 1]);
    SuspendedIsKnown(run, steps, n);
    RunKeepsInv(run, steps, n);
    if forall j :: 0 <= j < n ==> !GivesUpOperation(run[j], steps[j]) {
      OwnUntilGivenUp(run, steps, n);
      assert false;
    }
  }

  /* ---- Landing ---- */

  /** The writer's slot of the frame a time falls in. */
  predicate InSlot(phase: nat, t: nat) {
    (t + phase) % 10_000 < FRAME_WRITER_US
  }

  /** A piece, from its claim, stays inside the writer's slot, and leaves the chip
      idle; and the flight task, ending the flight, looks at least this often. */
  predicate Timely(phase: nat, every: nat, s: State) {
    && (!s.piece.NoPiece? ==> InSlot(phase, s.clock))
    && !s.flash.abandoned
    && (s.landing.Ending? ==> s.clock - s.landing.lastPoll <= every)
  }

  /** The time between two slots. */
  const IDLE_GAP_US := LOOP_PERIOD_US - FRAME_WRITER_US

  predicate TimelyRun(phase: nat, every: nat, run: seq<State>) {
    forall i :: 0 <= i < |run| ==> Timely(phase, every, run[i])
  }

  predicate AllPunctual(run: seq<State>) {
    forall i :: 0 <= i < |run| ==> Punctual(run[i])
  }

  function SlotStart(phase: nat, t: nat): int {
    t - (t + phase) % 10_000
  }

  /** Looks that found a piece all fell in one slot, the first within a gap of
      the call. */
  predicate LandingInv(phase: nat, s: State) {
    && !s.overran
    && (s.landing.Ending? && s.landing.lastPoll > s.landing.since ==>
          && InSlot(phase, s.landing.lastPoll)
          && SlotStart(phase, s.landing.lastPoll) <= s.landing.since + IDLE_GAP_US)
  }

  lemma SameSlot(phase: nat, a: nat, b: nat)
    requires a <= b <= a + IDLE_GAP_US && InSlot(phase, a) && InSlot(phase, b)
    ensures SlotStart(phase, a) == SlotStart(phase, b)
  {
  }

  lemma StepKeepsLanding(phase: nat, s: State, step: Step)
    requires Inv(s) && Enabled(s, step) && LandingInv(phase, s) && Timely(phase, IDLE_GAP_US, s)
    requires Punctual(s)
    ensures LandingInv(phase, Apply(s, step))
  {
    hide CallerApply, BodyApply, HelperApply, LockInv, BusyInv;
    if step == ByFlight(EndPoll) {
      var since, last := s.landing.since, s.landing.lastPoll;
      ElapsedNeverExceeds(since, s.clock);
      if s.pieceBusy && last > since {
        SameSlot(phase, last, s.clock);
      }
    }
  }

  /** Under that timing, with looks no further apart than slots are and no park
      outlived, nothing ever fetches from the flash out of XIP, and a flight never
      ends over a piece. */
  lemma {:induction false} PunctualRunIsSafe(phase: nat, run: seq<State>, steps: seq<Step>, n: nat, c: Core)
    requires IsRun(run, steps) && n < |run| && TimelyRun(phase, IDLE_GAP_US, run) && AllPunctual(run)
    ensures LandingInv(phase, run[n])
    ensures XipDown(run[n]) ==> !MayFetch(run[n], c)
    ensures !run[n].flight ==> run[n].piece.NoPiece?
  {
    if n > 0 {
      PunctualRunIsSafe(phase, run, steps, n - 1, c);
      RunKeepsInv(run, steps, n - 1);
      assert Leads(run[n - 1], steps[n - 1], run[n]);
      StepKeepsLanding(phase, run[n - 1], steps[n - 1]);
    }
    RunKeepsInv(run, steps, n);
    assert Punctual(run[n]) && Timely(phase, IDLE_GAP_US, run[n]);
    XipSafety(run, steps, n, c);
  }

  /* ---- Runs that fail ---- */

  /** A run that keeps that timing, but for looks this far apart. */
  predicate Walk(every: nat, run: seq<State>, steps: seq<Step>) {
    IsRun(run, steps) && TimelyRun(0, every, run) && AllPunctual(run)
  }

  predicate WalksTo(every: nat, run: seq<State>, steps: seq<Step>, s: State) {
    Walk(every, run, steps) && run[|steps|] == s
  }

  lemma Go(every: nat, run: seq<State>, steps: seq<Step>, s: State, step: Step, t: State)
    returns (r: seq<State>, ss: seq<Step>)
    requires WalksTo(every, run, steps, s) && Leads(s, step, t) && Timely(0, every, t) && Punctual(t)
    ensures WalksTo(every, r, ss, t) && r == run + [t] && ss == steps + [step]
  {
    hide Leads, Timely, Punctual;
    r, ss := run + [t], steps + [step];
    forall i | 0 <= i < |ss| ensures Leads(r[i], ss[i], r[i + 1]) {
      if i < |steps| {
        assert Leads(run[i], steps[i], run[i + 1]);
      }
    }
  }

  /** In flight, or just landed, with nobody in the lockout. */
  function Aloft(clock: nat, piece: SlotPiece, landing: Landing, flash: Flash): State {
    Init().(clock := clock, flight := true, pieceBusy := piece != NoPiece, piece := piece, landing := landing,
            flash := flash)
  }

  const IDLE: Flash := Flash(Ready, false, false, false)
  const AT_WORK: Flash := Flash(Busy, false, false, false)

  /** A slot: from its start a piece runs, looked at then and a frame's slot less
      one later, when it ends. */
  lemma SlotLookedAt(run: seq<State>, steps: seq<Step>, since: nat, start: nat)
    returns (r: seq<State>, ss: seq<Step>)
    requires start % 10_000 == 0 && since <= start - 7_001 && start + 2_999 <= since + FlashPiece.PIECE_HARD_MAX_US
    requires WalksTo(7_001, run, steps, Aloft(start - 7_001, NoPiece, Ending(since, start - 7_001), IDLE))
    ensures WalksTo(7_001, r, ss, Aloft(start + 2_999, NoPiece, Ending(since, start + 2_999), IDLE))
  {
    hide WalksTo, InSlot, Since;
    SlotOf(start);
    var e, e1, e2 := Ending(since, start - 7_001), Ending(since, start), Ending(since, start + 2_999);
    r, ss := TimePasses(run, steps, start - 7_001, 7_001, NoPiece, e, IDLE);
    r, ss := Busily(r, ss, start, e);
    SinceIs(since, start, Aloft(start, Running(false, false), e, AT_WORK));
    r, ss := LookedAt(r, ss, start, e, e1);
    r, ss := TimePasses(r, ss, start, 2_999, Running(false, false), e1, AT_WORK);
    SinceIs(since, start + 2_999, Aloft(start + 2_999, Running(false, false), e1, AT_WORK));
    r, ss := LookedAt(r, ss, start + 2_999, e1, e2);
    r, ss := Done(r, ss, start + 2_999, e2);
  }

  lemma SlotOf(start: nat)
    requires start % 10_000 == 0
    ensures InSlot(0, start) && InSlot(0, start + 2_999)
  {
  }

  lemma SinceIs(since: nat, now: nat, s: State)
    requires since <= now <= since + FlashPiece.PIECE_HARD_MAX_US && s.clock == now
    ensures Since(s, since) <= FlashPiece.PIECE_HARD_MAX_US
  {
    ElapsedIsTrue(since, now);
  }

  lemma TimePasses(run: seq<State>, steps: seq<Step>, at: nat, us: nat, piece: SlotPiece, e: Landing, flash: Flash)
    returns (r: seq<State>, ss: seq<Step>)
    requires WalksTo(7_001, run, steps, Aloft(at, piece, e, flash)) && !flash.abandoned
    requires e.Ending? && at + us - e.lastPoll <= 7_001 && (piece.NoPiece? || InSlot(0, at + us))
    ensures WalksTo(7_001, r, ss, Aloft(at + us, piece, e, flash))
  {
    hide InSlot;
    r, ss := Go(7_001, run, steps, Aloft(at, piece, e, flash), Tick(us), Aloft(at + us, piece, e, flash));
  }

  lemma LookedAt(run: seq<State>, steps: seq<Step>, at: nat, e: Landing, f: Landing)
    returns (r: seq<State>, ss: seq<Step>)
    requires WalksTo(7_001, run, steps, Aloft(at, Running(false, false), e, AT_WORK)) && InSlot(0, at)
    requires e.Ending? && f == Ending(e.since, at)
    requires Since(Aloft(at, Running(false, false), e, AT_WORK), e.since) <= FlashPiece.PIECE_HARD_MAX_US
    ensures WalksTo(7_001, r, ss, Aloft(at, Running(false, false), f, AT_WORK))
  {
    assert Timely(0, 7_001, run[|steps|]);
    r, ss := Go(7_001, run, steps, Aloft(at, Running(false, false), e, AT_WORK), ByFlight(EndPoll),
                Aloft(at, Running(false, false), f, AT_WORK));
  }

  lemma Busily(run: seq<State>, steps: seq<Step>, at: nat, e: Landing) returns (r: seq<State>, ss: seq<Step>)
    requires WalksTo(7_001, run, steps, Aloft(at, NoPiece, e, IDLE)) && InSlot(0, at)
    ensures WalksTo(7_001, r, ss, Aloft(at, Running(false, false), e, AT_WORK))
  {
    assert Timely(0, 7_001, run[|steps|]);
    r, ss := Go(7_001, run, steps, Aloft(at, NoPiece, e, IDLE), ByPiece(ClaimPiece),
                Aloft(at, ClaimedPiece(false), e, IDLE));
    r, ss := Go(7_001, r, ss, Aloft(at, ClaimedPiece(false), e, IDLE), ByPiece(ByRun(Start)),
                Aloft(at, Running(false, false), e, AT_WORK));
  }

  lemma Done(run: seq<State>, steps: seq<Step>, at: nat, e: Landing) returns (r: seq<State>, ss: seq<Step>)
    requires WalksTo(7_001, run, steps, Aloft(at, Running(false, false), e, AT_WORK)) && InSlot(0, at)
    ensures WalksTo(7_001, r, ss, Aloft(at, NoPiece, e, IDLE))
  {
    assert Timely(0, 7_001, run[|steps|]);
    r, ss := Go(7_001, run, steps, Aloft(at, Running(false, false), e, AT_WORK), ByChip(OperationEnds),
                Aloft(at, Running(false, false), e, IDLE));
    r, ss := Go(7_001, r, ss, Aloft(at, Running(false, false), e, IDLE), ByPiece(ByRun(SeeIdle)),
                Aloft(at, Ended, e, IDLE));
    r, ss := Go(7_001, r, ss, Aloft(at, Ended, e, IDLE), ByPiece(FreePiece), Aloft(at, NoPiece, e, IDLE));
  }

  lemma FlightBegins(every: nat) returns (run: seq<State>, steps: seq<Step>)
    ensures WalksTo(every, run, steps, Aloft(0, NoPiece, NotEnding, IDLE))
  {
    run, steps := [Init()], [];
    run, steps := Go(every, run, steps, Init(), ByFlight(Begin), Aloft(0, NoPiece, NotEnding, IDLE));
  }

  /** The bound on the looks is tight. With every body and every piece in time, and
      looks a microsecond further apart than slots are, the flight task finds a
      piece at each of five looks, though each slot's has ended; it takes the third
      slot's for the first's, ends the flight, and core0 fetches from a flash out
      of XIP. */
  lemma SparsePollsLandOnPiece() returns (run: seq<State>, steps: seq<Step>)
    ensures Walk(IDLE_GAP_US + 1, run, steps)
    ensures var last := run[|steps|];
            last.caller.Nobody? && !last.flash.abandoned && LandedOn(last) && MayFetch(last, Core0)
  {
    run, steps := FlightBegins(7_001);
    run, steps := Go(7_001, run, steps, Aloft(0, NoPiece, NotEnding, IDLE), Tick(2_999),
                     Aloft(2_999, NoPiece, NotEnding, IDLE));
    run, steps := Go(7_001, run, steps, Aloft(2_999, NoPiece, NotEnding, IDLE), ByFlight(End),
                     Aloft(2_999, NoPiece, Ending(2_999, 2_999), IDLE));
    run, steps := SlotLookedAt(run, steps, 2_999, 10_000);
    run, steps := SlotLookedAt(run, steps, 2_999, 20_000);
    var e := Ending(2_999, 22_999);
    run, steps := Go(7_001, run, steps, Aloft(22_999, NoPiece, e, IDLE), Tick(7_001), Aloft(30_000, NoPiece, e, IDLE));
    run, steps := Busily(run, steps, 30_000, e);
    ElapsedIsTrue(2_999, 30_000);
    run, steps := Go(7_001, run, steps, Aloft(30_000, Running(false, false), e, AT_WORK), ByFlight(EndPoll),
                     Aloft(30_000, Running(false, false), NotEnding, AT_WORK).(flight := false, overran := true));
  }

  /* ---- A chip given up ---- */

  predicate StepsTo(run: seq<State>, steps: seq<Step>, s: State) {
    IsRun(run, steps) && run[|steps|] == s && forall i :: 0 <= i < |run| ==> Punctual(run[i])
  }

  lemma Then(run: seq<State>, steps: seq<Step>, s: State, step: Step, t: State)
    returns (r: seq<State>, ss: seq<Step>)
    requires StepsTo(run, steps, s) && Leads(s, step, t) && Punctual(t)
    ensures StepsTo(r, ss, t) && r == run + [t] && ss == steps + [step]
  {
    hide Leads, Punctual;
    r, ss := run + [t], steps + [step];
    forall i | 0 <= i < |ss| ensures Leads(r[i], ss[i], r[i + 1]) {
      if i < |steps| {
        assert Leads(run[i], steps[i], run[i + 1]);
      }
    }
  }

  const TOLD: Flash := Flash(Suspending, false, false, false)

  /** In flight, a piece has told the chip to suspend. */
  lemma ToldToSuspend() returns (run: seq<State>, steps: seq<Step>)
    ensures StepsTo(run, steps, Aloft(0, Running(false, true), NotEnding, TOLD)) && |steps| == 4 && |run| == 5
    ensures forall i :: 0 <= i < |run| ==> run[i].clock == 0
    ensures NoMiss(run, steps, 4)
  {
    run, steps := [Init()], [];
    run, steps := Then(run, steps, Init(), ByFlight(Begin), Aloft(0, NoPiece, NotEnding, IDLE));
    run, steps := Then(run, steps, Aloft(0, NoPiece, NotEnding, IDLE), ByPiece(ClaimPiece),
                       Aloft(0, ClaimedPiece(false), NotEnding, IDLE));
    run, steps := Then(run, steps, Aloft(0, ClaimedPiece(false), NotEnding, IDLE), ByPiece(ByRun(Start)),
                       Aloft(0, Running(false, false), NotEnding, AT_WORK));
    run, steps := Then(run, steps, Aloft(0, Running(false, false), NotEnding, AT_WORK), ByPiece(ByRun(TellSuspend)),
                       Aloft(0, Running(false, true), NotEnding, TOLD));
  }

  const PENDING: Flash := Flash(Suspending, true, false, true)

  /** After a suspend that has not landed: the piece is over, the flight is too. */
  const GROUNDED: State := Init().(clock := 1_001, flash := PENDING)

  /** With every body, every piece and every look in time, a suspend that has not
      landed by its limit lets both cores fetch from a flash out of XIP: its piece
      gives the chip up busy, core1's interrupts return, and the flight ends. */
  lemma PendingSuspendIsFetched() returns (run: seq<State>, steps: seq<Step>)
    ensures StepsTo(run, steps, GROUNDED) && |steps| == 9 && steps[4..6] == [Tick(1_001), ByPiece(ByRun(GiveUpSuspend))]
    ensures !GROUNDED.overran && XipDown(GROUNDED) && MayFetch(GROUNDED, Core0) && MayFetch(GROUNDED, Core1)
    ensures forall i :: 0 <= i < |run| ==> InSlot(0, run[i].clock)
  {
    hide IsRun, StepsTo;
    var e := Ending(1_001, 1_001);
    run, steps := ToldToSuspend();
    run, steps := Then(run, steps, Aloft(0, Running(false, true), NotEnding, TOLD), Tick(1_001),
                       Aloft(1_001, Running(false, true), NotEnding, TOLD));
    run, steps := Then(run, steps, Aloft(1_001, Running(false, true), NotEnding, TOLD), ByPiece(ByRun(GiveUpSuspend)),
                       Aloft(1_001, Ended, NotEnding, PENDING));
    run, steps := Then(run, steps, Aloft(1_001, Ended, NotEnding, PENDING), ByPiece(FreePiece),
                       Aloft(1_001, NoPiece, NotEnding, PENDING));
    run, steps := Then(run, steps, Aloft(1_001, NoPiece, NotEnding, PENDING), ByFlight(End),
                       Aloft(1_001, NoPiece, e, PENDING));
    run, steps := Then(run, steps, Aloft(1_001, NoPiece, e, PENDING), ByFlight(EndPoll), GROUNDED);
  }

  /** So does a chip that has not ended by a piece's limit: the piece returns, and
      core1 fetches from a busy flash. */
  lemma EndlessIsFetched() returns (run: seq<State>, steps: seq<Step>)
    ensures IsRun(run, steps) && AllPunctual(run)
    ensures |steps| == 6 && steps[3..5] == [Tick(20_001), ByPiece(ByRun(GiveUpRun))]
    ensures var last := run[6];
            last.flash.chip == Busy && last.flash.abandoned && !last.overran && MayFetch(last, Core1)
  {
    var given := AT_WORK.(abandoned := true);
    run, steps := [Init()], [];
    run, steps := Then(run, steps, Init(), ByFlight(Begin), Aloft(0, NoPiece, NotEnding, IDLE));
    run, steps := Then(run, steps, Aloft(0, NoPiece, NotEnding, IDLE), ByPiece(ClaimPiece),
                       Aloft(0, ClaimedPiece(false), NotEnding, IDLE));
    run, steps := Then(run, steps, Aloft(0, ClaimedPiece(false), NotEnding, IDLE), ByPiece(ByRun(Start)),
                       Aloft(0, Running(false, false), NotEnding, AT_WORK));
    run, steps := Then(run, steps, Aloft(0, Running(false, false), NotEnding, AT_WORK), Tick(20_001),
                       Aloft(20_001, Running(false, false), NotEnding, AT_WORK));
    run, steps := Then(run, steps, Aloft(20_001, Running(false, false), NotEnding, AT_WORK), ByPiece(ByRun(GiveUpRun)),
                       Aloft(20_001, Ended, NotEnding, given));
    run, steps := Then(run, steps, Aloft(20_001, Ended, NotEnding, given), ByPiece(FreePiece),
                       Aloft(20_001, NoPiece, NotEnding, given));
  }

  /** A caller in the lockout at that time, core0's helper parked for it or not. */
  function InLockout(caller: Caller, parked: bool, flash: Flash): State {
    var lk := if parked then LkParked else LkWanted;
    GROUNDED.(flash := flash, caller := caller, lk := Two(lk, LkIdle),
              helper := if parked then Two(Parking, Asleep) else Two(Asleep, Asleep),
              parkedAt := if parked then Two(1_001, 0) else Two(0, 0))
  }

  /** And an operation is then started on the chip that holds the other: run_direct()
      finds the suspended bit clear, clears the flag, and the suspend lands. */
  lemma MissedSuspendStartsOnHeld() returns (run: seq<State>, steps: seq<Step>)
    ensures IsRun(run, steps) && |steps| == 17 && steps[16] == ByBody(StartOperation)
    ensures forall i :: 0 <= i < |run| ==> Punctual(run[i])
    ensures Misses(run[14], steps[14]) && run[16].flash.chip == Held && !run[16].flash.heldSuspended
  {
    var d := Direct(false);
    var missed, landed := Flash(Suspending, false, false, true), Flash(Held, false, false, false);
    run, steps := PendingSuspendIsFetched();
    run, steps := Then(run, steps, GROUNDED, ByCaller(Claim(Core1, d)), InLockout(Claimed(Core1, d), false, PENDING));
    run, steps := Then(run, steps, InLockout(Claimed(Core1, d), false, PENDING), ByCaller(BeginWait),
                       InLockout(Waiting(Core1, d, 1_001), false, PENDING));
    run, steps := Then(run, steps, InLockout(Waiting(Core1, d, 1_001), false, PENDING), ByHelper(Core0, Look),
                       InLockout(Waiting(Core1, d, 1_001), true, PENDING));
    run, steps := Then(run, steps, InLockout(Waiting(Core1, d, 1_001), true, PENDING), ByCaller(SeeParked),
                       InLockout(Admitted(Core1, d), true, PENDING));
    run, steps := Then(run, steps, InLockout(Admitted(Core1, d), true, PENDING), ByCaller(EnterBody),
                       InLockout(InBody(Core1, d, Entered), true, PENDING));
    run, steps := Then(run, steps, InLockout(InBody(Core1, d, Entered), true, PENDING), ByBody(FinishLook),
                       InLockout(InBody(Core1, d, Cleared), true, missed));
    run, steps := Then(run, steps, InLockout(InBody(Core1, d, Cleared), true, missed), ByChip(SuspendLands),
                       InLockout(InBody(Core1, d, Cleared), true, landed));
    run, steps := Then(run, steps, InLockout(InBody(Core1, d, Cleared), true, landed), ByBody(StartOperation),
                       InLockout(InBody(Core1, d, Working), true, landed));
  }

  /** A piece starting fresh on a held chip: the writer has given up the operation
      the chip holds, as flash_slot_run() does when its passes run out. None of
      them finds room for a piece in the 20 s that they take, two thousand frames. */
  lemma FreshStartOnHeld() returns (run: seq<State>, steps: seq<Step>)
    ensures IsRun(run, steps) && |steps| == 11 && steps[7..9] == [Tick(20_000_000), ByPiece(Abandon)]
    ensures StartsFresh(run[10], steps[10]) && run[10].flash.chip == Held && run[11].flash == run[10].flash
    ensures NoMiss(run, steps, 11) && forall i :: 0 <= i < |run| ==> Punctual(run[i])
  {
    var at := 20_000_000;
    var lands := Flash(Held, false, false, false);
    var held, given := Flash(Held, true, true, false), Flash(Held, true, false, false);
    run, steps := ToldToSuspend();
    run, steps := Then(run, steps, Aloft(0, Running(false, true), NotEnding, TOLD), ByChip(SuspendLands),
                       Aloft(0, Running(false, true), NotEnding, lands));
    run, steps := Then(run, steps, Aloft(0, Running(false, true), NotEnding, lands), ByPiece(ByRun(SeeIdle)),
                       Aloft(0, Ended, NotEnding, held));
    run, steps := Then(run, steps, Aloft(0, Ended, NotEnding, held), ByPiece(FreePiece),
                       Aloft(0, NoPiece, NotEnding, held));
    run, steps := Then(run, steps, Aloft(0, NoPiece, NotEnding, held), Tick(at), Aloft(at, NoPiece, NotEnding, held));
    run, steps := Then(run, steps, Aloft(at, NoPiece, NotEnding, held), ByPiece(Abandon),
                       Aloft(at, NoPiece, NotEnding, given));
    run, steps := Then(run, steps, Aloft(at, NoPiece, NotEnding, given), ByPiece(ClaimPiece),
                       Aloft(at, ClaimedPiece(false), NotEnding, given));
    run, steps := Then(run, steps, Aloft(at, ClaimedPiece(false), NotEnding, given), ByPiece(ByRun(Start)),
                       Aloft(at, Running(false, false), NotEnding, given));
  }
}
