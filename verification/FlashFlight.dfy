/** Pieces that keep to their plan (src/flash_slot.c, src/flash_op.c): each is over
    by its slot's end and leaves the chip idle, in every run of the two cores. */
module FlashFlight {
  import opened Words
  import opened Wrappers
  import opened Core1Frame
  import opened FlashTiming
  import opened FlashSlot
  import opened FlashPiece
  import opened FlashChip
  import opened FlashOp
  import opened FlashPark

  /** A part whose erases and programs both suspend; the longest step of the code
      in a piece; and where the frames lie. */
  datatype Board = Board(timing: Timing, stepUs: nat, phase: nat) {
    predicate Valid() {
      Modest(timing) && timing.eraseSuspends && timing.programSuspends && timing.suspendUs <= SUSPEND_HARD_MAX_US
      && 6 * stepUs < FLASH_SLOT_SUSPEND_US
    }
  }

  /** When the present slot piece was claimed, and since when it, and the caller in
      the lockout, are where they are. */
  datatype Log = Log(claimedAt: nat, pieceSince: nat, callerSince: nat)

  function Noted(l: Log, s: State, t: State): Log {
    Log(if s.piece.NoPiece? then t.clock else l.claimedAt,
        if s.piece != t.piece then t.clock else l.pieceSince,
        if s.caller != t.caller then t.clock else l.callerSince)
  }

  function Logged(run: seq<State>, n: nat): Log
    requires n < |run|
  {
    if n == 0 then Log(0, 0, 0) else Noted(Logged(run, n - 1), run[n - 1], run[n])
  }

  function SlotEnd(b: Board, l: Log): int {
    SlotStart(b.phase, l.claimedAt) + FRAME_WRITER_US
  }

  /** When the suspend command is out at the latest: the poll that sees its time,
      and the command. */
  function ToldBy(b: Board, l: Log): int {
    Due(b.timing, SlotEnd(b, l)) + 2 * b.stepUs
  }

  /** When the piece is over: the part's time, and then its settle, a poll and the
      second status. */
  function OverBy(b: Board, l: Log): int {
    ToldBy(b, l) + b.timing.suspendUs + 3 * b.stepUs
  }

  /** A slot piece is claimed in its slot and planned; its command goes out in time,
      and then each step of run_piece() does; and the part suspends in its time. */
  predicate PieceOnPlan(b: Board, l: Log, s: State) {
    && (!s.piece.NoPiece? ==>
          && InSlot(b.phase, l.claimedAt)
          && PieceFits(b.timing, Erase, Wrap(l.claimedAt), Wrap(SlotEnd(b, l))))
    && match s.piece
       case NoPiece => true
       case ClaimedPiece(_) => s.clock <= l.claimedAt + FLASH_SLOT_START_US
       case Running(_, told) =>
         if told then
           && s.clock <= l.pieceSince + b.timing.suspendUs + 3 * b.stepUs
           && (ChipBusy(s.flash.chip) ==> s.clock <= l.pieceSince + b.timing.suspendUs)
         else s.clock <= ToldBy(b, l)
       case Ended => s.clock <= l.pieceSince + b.stepUs
  }

  /** And so is a ground piece. */
  predicate GroundOnPlan(b: Board, l: Log, s: State) {
    s.caller.InBody? && s.caller.body.Ground? ==>
      && (s.caller.phase == Working ==> s.clock <= l.callerSince + FRAME_WRITER_US)
      && (s.caller.phase == BodyPhase.Told && ChipBusy(s.flash.chip) ==>
            s.clock <= l.callerSince + b.timing.suspendUs)
  }

  /** run_piece() gives the chip up only past its limits. */
  predicate GivesUpLate(l: Log, s: State, step: Step) {
    match step
    case ByPiece(ByRun(GiveUpRun)) => s.clock - l.pieceSince > PIECE_HARD_MAX_US
    case ByPiece(ByRun(GiveUpSuspend)) => s.clock - l.pieceSince > SUSPEND_HARD_MAX_US
    case ByBody(ByGround(GiveUpRun)) => s.clock - l.callerSince > PIECE_HARD_MAX_US
    case ByBody(ByGround(GiveUpSuspend)) => s.clock - l.callerSince > SUSPEND_HARD_MAX_US
    case _ => true
  }

  predicate OnPlan(b: Board, run: seq<State>, steps: seq<Step>)
    requires |run| == |steps| + 1
  {
    && (forall n :: 0 <= n < |run| ==>
          PieceOnPlan(b, Logged(run, n), run[n]) && GroundOnPlan(b, Logged(run, n), run[n]))
    && (forall n :: 0 <= n < |steps| ==> GivesUpLate(Logged(run, n), run[n], steps[n]))
  }

  predicate LogInv(b: Board, l: Log, s: State) {
    && l.claimedAt <= s.clock && l.pieceSince <= s.clock && l.callerSince <= s.clock
    && (s.piece.Running? ==> l.claimedAt <= l.pieceSince)
    && (s.piece.Running? && s.piece.told ==> l.pieceSince <= ToldBy(b, l))
    && (s.piece.Ended? ==> l.pieceSince <= OverBy(b, l))
  }

  lemma PlanFits(b: Board, l: Log)
    requires b.Valid() && InSlot(b.phase, l.claimedAt)
    requires PieceFits(b.timing, Erase, Wrap(l.claimedAt), Wrap(SlotEnd(b, l)))
    ensures SlotStart(b.phase, l.claimedAt) <= l.claimedAt < SlotEnd(b, l)
    ensures l.claimedAt + FLASH_SLOT_START_US + b.timing.resumeHoldUs <= Due(b.timing, SlotEnd(b, l))
  {
    hide PieceFits;
    PlanIsTrue(b.timing, Erase, false, l.claimedAt, SlotEnd(b, l));
  }

  lemma StaysInSlot(phase: nat, from: nat, now: nat)
    requires InSlot(phase, from) && from <= now < SlotStart(phase, from) + FRAME_WRITER_US
    ensures InSlot(phase, now)
  {
    var r := (from + phase) % 10_000;
    var q := (from + phase) / 10_000;
    assert now + phase == 10_000 * q + (r + now - from);
    assert (now + phase) / 10_000 == q;
  }

  /** While there is a piece its slot is not over. */
  lemma PieceInSlot(b: Board, l: Log, s: State)
    requires b.Valid() && LogInv(b, l, s) && PieceOnPlan(b, l, s) && !s.piece.NoPiece?
    ensures InSlot(b.phase, s.clock)
  {
    hide PieceFits, InSlot;
    PlanFits(b, l);
    StaysInSlot(b.phase, l.claimedAt, s.clock);
  }

  lemma StepKeepsLog(b: Board, l: Log, s: State, step: Step)
    requires b.Valid() && LogInv(b, l, s) && PieceOnPlan(b, l, s) && Enabled(s, step)
    requires step.ByPiece? ==> !GivesUpChip(step)
    ensures LogInv(b, Noted(l, s, Apply(s, step)), Apply(s, step))
  {
    hide CallerApply, BodyApply, HelperApply, PieceFits, InSlot;
    if !s.piece.NoPiece? {
      PlanFits(b, l);
    }
  }

  /** Nothing is given up. */
  lemma NothingGivenUp(b: Board, l: Log, s: State, step: Step)
    requires b.Valid() && LogInv(b, l, s) && PieceOnPlan(b, l, s) && GroundOnPlan(b, l, s)
    requires Enabled(s, step) && GivesUpLate(l, s, step)
    ensures !GivesUpChip(step)
  {
    hide CallerApply, HelperApply, PieceFits, InSlot;
    if !s.piece.NoPiece? {
      PlanFits(b, l);
    }
  }

  /** In every run on plan each piece stays inside its slot, from its claim, and
      leaves the chip idle. */
  lemma {:induction false} PiecesKeepToSlots(b: Board, run: seq<State>, steps: seq<Step>, n: nat)
    requires b.Valid() && IsRun(run, steps) && n < |run| && OnPlan(b, run, steps)
    ensures LogInv(b, Logged(run, n), run[n])
    ensures !run[n].flash.abandoned && (!run[n].piece.NoPiece? ==> InSlot(b.phase, run[n].clock))
  {
    hide Enabled, Apply, LogInv, Noted, InSlot, PieceOnPlan, GroundOnPlan, GivesUpLate;
    assert PieceOnPlan(b, Logged(run, n), run[n]);
    if n == 0 {
      FirstLog(b);
    } else {
      var l := Logged(run, n - 1);
      PiecesKeepToSlots(b, run, steps, n - 1);
      assert Leads(run[n - 1], steps[n - 1], run[n]);
      assert PieceOnPlan(b, l, run[n - 1]) && GroundOnPlan(b, l, run[n - 1]);
      assert GivesUpLate(l, run[n - 1], steps[n - 1]);
      NothingGivenUp(b, l, run[n - 1], steps[n - 1]);
      StepKeepsLog(b, l, run[n - 1], steps[n - 1]);
      AbandonedStep(run[n - 1], steps[n - 1]);
    }
    if !run[n].piece.NoPiece? {
      PieceInSlot(b, Logged(run, n), run[n]);
    }
  }

  lemma FirstLog(b: Board)
    ensures LogInv(b, Log(0, 0, 0), Init())
  {
  }

  /** The flight task, ending the flight, looks at least this often. */
  predicate LooksOften(run: seq<State>, every: nat) {
    forall n :: 0 <= n < |run| && run[n].landing.Ending? ==> run[n].clock - run[n].landing.lastPoll <= every
  }

  /** So from the part's figures and the code's pace alone: where a park is long
      enough, nothing ever fetches from a flash out of XIP. */
  lemma SafeOnPlan(b: Board, codeUs: nat, finishes: bool, run: seq<State>, steps: seq<Step>)
    requires b.Valid() && IsRun(run, steps) && OnPlan(b, run, steps) && LooksOften(run, IDLE_GAP_US)
    requires Paced(PaceOf(b.timing, codeUs), run) && (finishes || FindsNoneHeld(run, steps))
    requires (if finishes then 2 else 1) * b.timing.eraseMaxUs + codeUs < PARK_MAX_US
    ensures NeverFetched(run)
  {
    hide OnPlan, Paced, NeverFetched, InSlot;
    forall n | 0 <= n < |run| ensures Timely(b.phase, IDLE_GAP_US, run[n]) {
      PiecesKeepToSlots(b, run, steps, n);
    }
    TimelyRunIsSafe(PaceOf(b.timing, codeUs), finishes, b.phase, run, steps);
  }
}
