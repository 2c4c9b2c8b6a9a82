/** What is begun ends (src/flash_op.c): every lockout, park, piece and landing of
    the machine of FlashOp goes on by its own steps, each of which brings its end
    nearer, and is never left without one but while it waits for what it says it
    waits for. */
module FlashProgress {
  import opened Words
  import opened Wrappers
  import opened Core1Frame
  import opened FlashChip
  import opened FlashOp
  import FlashPiece

  /* ---- A lockout ---- */

  /** The most steps of its own that a lockout has before it. */
  function Left(c: Caller): nat {
    match c
    case Nobody => 0
    case Claimed(_, _) => 11
    case Waiting(_, _, _) => 10
    case TimedOut(_, _) => 9
    case Admitted(_, _) => 8
    case InBody(_, _, phase) => LeftInBody(phase)
    case Releasing(_, _) => 1
  }

  function LeftInBody(phase: BodyPhase): nat {
    match phase
    case Entered => 7
    case Finishing => 6
    case Cleared => 5
    case Working => 4
    case Told => 3
    case Finished => 2
  }

  predicate Own(step: Step) {
    step.ByCaller? || step.ByBody?
  }

  /** Each step of its own brings it nearer its end, and no other does. */
  lemma OwnStepsGoOn(s: State, step: Step)
    requires Enabled(s, step) && !s.caller.Nobody?
    ensures if Own(step) then Left(Apply(s, step).caller) < Left(s.caller) else Apply(s, step).caller == s.caller
  {
    hide CanRun, Since, WriterInLockout, SetCore, OnCore, HelperApply, FlightApply, PieceApply, Run;
  }

  function OwnSteps(steps: seq<Step>, a: nat, b: nat): nat
    requires a <= b <= |steps|
    decreases b
  {
    if a == b then 0 else OwnSteps(steps, a, b - 1) + (if Own(steps[b - 1]) then 1 else 0)
  }

  /** So of any stretch of any run in which a lockout goes on, no more than eleven
      steps are its own. */
  lemma {:induction false} LockoutIsShort(run: seq<State>, steps: seq<Step>, a: nat, b: nat)
    requires IsRun(run, steps) && a <= b <= |steps| && forall k :: a <= k < b ==> !run[k].caller.Nobody?
    ensures OwnSteps(steps, a, b) + Left(run[b].caller) <= Left(run[a].caller) <= 11
    decreases b
  {
    hide Apply, Enabled;
    if a < b {
      LockoutIsShort(run, steps, a, b - 1);
      assert Leads(run[b - 1], steps[b - 1], run[b]);
      OwnStepsGoOn(run[b - 1], steps[b - 1]);
    }
  }

  /** It waits: for the other core to park, in the first PARK_WAIT_US of its wait; or
      for the chip to end the operation it runs whole. */
  predicate Awaits(s: State) {
    || (s.caller.Waiting? && OnCore(s.lk, Other(s.caller.core)) != LkParked && Since(s, s.caller.since) < PARK_WAIT_US)
    || (s.caller.InBody? && s.caller.body.Direct? && s.caller.phase == Working && ChipBusy(s.flash.chip))
  }

  /** The phases a body of its kind has. */
  predicate OfItsKind(c: Caller) {
    c.InBody? ==> if c.body.Direct? then c.phase != BodyPhase.Told else c.phase != Finishing && c.phase != Cleared
  }

  lemma KindIsKept(s: State, step: Step)
    requires Enabled(s, step) && OfItsKind(s.caller)
    ensures OfItsKind(Apply(s, step).caller)
  {
    hide CanRun, Since, WriterInLockout, SetCore, OnCore, HelperApply, FlightApply, PieceApply, Run, RunEnabled;
  }

  lemma {:induction false} KindsThroughout(run: seq<State>, steps: seq<Step>, n: nat)
    requires IsRun(run, steps) && n < |run|
    ensures OfItsKind(run[n].caller)
  {
    hide Apply, Enabled;
    if n > 0 {
      KindsThroughout(run, steps, n - 1);
      assert Leads(run[n - 1], steps[n - 1], run[n]);
      KindIsKept(run[n - 1], steps[n - 1]);
    }
  }

  /** The step it takes next. */
  function NextOwn(s: State): Step
    requires !s.caller.Nobody?
  {
    match s.caller
    case Claimed(_, _) => ByCaller(BeginWait)
    case Waiting(core, _, _) => ByCaller(if OnCore(s.lk, Other(core)) == LkParked then SeeParked else GiveUp)
    case TimedOut(_, _) => ByCaller(Withdraw)
    case Admitted(_, _) => ByCaller(EnterBody)
    case InBody(_, Direct(_), phase) => NextOfDirect(s, phase)
    case InBody(_, Ground(_), phase) =>
      if phase == Finished then ByCaller(LeaveBody)
      else if phase == Entered then ByBody(SkipGroundPiece)
      else ByBody(ByGround(if !ChipBusy(s.flash.chip) then SeeIdle
                           else if phase == BodyPhase.Told then GiveUpSuspend else TellSuspend))
    case Releasing(_, _) => ByCaller(Return)
  }

  function NextOfDirect(s: State, phase: BodyPhase): Step {
    match phase
    case Entered => ByBody(if s.flash.heldSuspended then FinishLook else StartOperation)
    case Finishing => ByBody(if ChipBusy(s.flash.chip) then FinishGiveUp else FinishSeen)
    case Cleared => ByBody(StartOperation)
    case Working => ByBody(EndOperation)
    case _ => ByCaller(LeaveBody)
  }

  /** And in every state of every run it has one to take exactly when it does not
      wait and, outside its body, its core runs. */
  lemma LockoutIsNeverStuck(run: seq<State>, steps: seq<Step>, n: nat)
    requires IsRun(run, steps) && n < |run| && !run[n].caller.Nobody?
    ensures var s := run[n];
            (exists step :: Own(step) && Enabled(s, step)) <==>
            !Awaits(s) && (s.caller.InBody? || CanRun(s, s.caller.core))
  {
    hide CanRun;
    var s := run[n];
    KindsThroughout(run, steps, n);
    if !Awaits(s) && (s.caller.InBody? || CanRun(s, s.caller.core)) {
      assert Enabled(s, NextOwn(s));
    }
  }

  /** The core whose lockout it is. */
  function CoreOf(s: State, step: CallerStep): Core
    requires CallerEnabled(s, step)
  {
    if step.Claim? then step.on else s.caller.core
  }

  /** How it ends: by returning after its body; or, with no body, refused in a
      flight, or withdrawn with the other core not parked, whose word it then takes
      back. A body is entered by all others; and it sets no word but the other core's. */
  lemma LockoutEnds(s: State, step: CallerStep)
    requires CallerEnabled(s, step)
    ensures var t := CallerApply(s, step);
            && (step.Claim? ==> (t.caller.Nobody? <==> s.flight) && (s.flight ==> t == s))
            && (!step.Claim? && t.caller.Nobody? <==>
                  step.Return? || (step.Withdraw? && OnCore(s.lk, Other(s.caller.core)) != LkParked))
            && (step.Withdraw? && t.caller.Nobody? ==> OnCore(t.lk, Other(s.caller.core)) == LkIdle)
            && (step.Claim? && !s.flight ==> OnCore(t.lk, Other(step.on)) == LkWanted)
            && (step.LeaveBody? ==> OnCore(t.lk, Other(s.caller.core)) == LkRelease)
            && OnCore(t.lk, CoreOf(s, step)) == OnCore(s.lk, CoreOf(s, step))
  {
    hide CanRun, Since, WriterInLockout;
  }

  /* ---- A park ---- */

  function LeftToPark(h: Helper): nat {
    match h
    case Asleep => 0
    case Leaving => 1
    case Spinning(_) => 2
    case Parking => 3
  }

  /** A helper that has parked its core lets it go by three steps, the second of
      which it has exactly when its word no longer says parked or PARK_MAX_US have
      passed; and it leaves its word idle. One that looks parks exactly when it is
      wanted. */
  lemma ParkEnds(s: State, c: Core, step: HelperStep)
    ensures OnCore(s.helper, c) != Asleep ==>
              ((exists h :: HelperEnabled(s, c, h)) <==>
               !OnCore(s.helper, c).Spinning? || OnCore(s.lk, c) != LkParked
               || Since(s, OnCore(s.helper, c).since) >= PARK_MAX_US)
    ensures HelperEnabled(s, c, step) ==>
              var t := HelperApply(s, c, step);
              if step.Look? then
                (OnCore(t.helper, c) == (if OnCore(s.lk, c) == LkWanted then Parking else Asleep))
                && (OnCore(s.lk, c) == LkWanted ==> OnCore(t.lk, c) == LkParked)
              else
                LeftToPark(OnCore(t.helper, c)) == LeftToPark(OnCore(s.helper, c)) - 1
                && (OnCore(t.helper, c) == Asleep ==> OnCore(t.lk, c) == LkIdle)
  {
    if OnCore(s.helper, c).Parking? {
      assert HelperEnabled(s, c, ReadTimer);
    } else if OnCore(s.helper, c).Spinning? {
      assert HelperEnabled(s, c, StopSpinning) || !exists h :: HelperEnabled(s, c, h);
    } else if OnCore(s.helper, c).Leaving? {
      assert HelperEnabled(s, c, Unpark);
    }
  }

  /* ---- A slot piece ---- */

  function LeftOfPiece(p: SlotPiece): nat {
    match p
    case NoPiece => 0
    case Ended => 1
    case Running(_, told) => if told then 2 else 3
    case ClaimedPiece(_) => 4
  }

  /** A piece claimed frees itself by four steps of its own, and always has one: to
      start, its core must run. One is claimed exactly in flight, and goes on with
      what the writer does. */
  lemma PieceEndsItself(s: State, step: PieceStep)
    ensures !s.piece.NoPiece? ==>
              ((exists p :: p != ClaimPiece && p != Abandon && PieceEnabled(s, p)) <==>
               !s.piece.ClaimedPiece? || CanRun(s, Core1))
    ensures PieceEnabled(s, step) ==>
              var t := PieceApply(s, step);
              if step.ClaimPiece? then
                t.piece == (if s.flight then ClaimedPiece(s.flash.resuming) else NoPiece)
                && (s.flight ==> t.pieceBusy)
              else if step.Abandon? then t.piece == s.piece
              else
                LeftOfPiece(t.piece) < LeftOfPiece(s.piece)
                && (t.piece.NoPiece? ==> !t.pieceBusy && !t.overran)
  {
    hide CanRun, Since, WriterInLockout, Run;
    if s.piece.ClaimedPiece? && CanRun(s, Core1) {
      assert PieceEnabled(s, ByRun(Start));
    } else if s.piece.Running? {
      assert PieceEnabled(s, ByRun(if !ChipBusy(s.flash.chip) then SeeIdle
                                   else if s.piece.told then GiveUpSuspend else GiveUpRun));
    } else if s.piece.Ended? {
      assert PieceEnabled(s, FreePiece);
    }
  }

  /* ---- A landing ---- */

  /** A look of flight_end() ends the flight exactly when no piece is in progress or
      PIECE_HARD_MAX_US are over since it began; otherwise it looks again. */
  lemma LandingEnds(s: State, began: nat)
    requires FlightEnabled(s, EndPoll) && s.landing.since == began <= s.clock < began + TURN
    ensures var t := FlightApply(s, EndPoll);
            && (t.landing.NotEnding? <==> !s.pieceBusy || s.clock - began > FlashPiece.PIECE_HARD_MAX_US)
            && (t.landing.NotEnding? ==> !t.flight) && (t.landing.Ending? ==> t.flight == s.flight)
  {
    ElapsedIsTrue(began, s.clock);
  }
}
