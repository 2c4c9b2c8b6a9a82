/** The listed parts and their figures (src/flash_timing.c). */
module FlashTiming {
  import opened Words
  import opened Wrappers

  datatype Timing = Timing(programMaxUs: u32, eraseMaxUs: u32, suspendUs: u32, resumeHoldUs: u32,
                           programSuspends: bool, eraseSuspends: bool)

  datatype Part = Part(jedec: (int, int, int), timing: Timing)

  const PARTS: seq<Part> := [
    Part((0xEF, 0x40, 0x15), Timing(3000, 400_000, 20, 20, true, true)),
    Part((0xEF, 0x40, 0x18), Timing(3000, 400_000, 20, 20, true, true)),
    Part((0xEF, 0x70, 0x18), Timing(3000, 400_000, 20, 20, true, true)),
    Part((0x0B, 0x40, 0x18), Timing(2000, 800_000, 20, 500, true, true)),
    Part((0x68, 0x40, 0x17), Timing(2400, 400_000, 35, 20, false, false))
  ]

  function TimingFor(jedec: (int, int, int)): Option<Timing> {
    Lookup(PARTS, jedec)
  }

  function Lookup(parts: seq<Part>, jedec: (int, int, int)): (t: Option<Timing>)
    ensures t.Some? <==> exists p :: p in parts && p.jedec == jedec
    ensures t.Some? ==> exists p :: p in parts && p.jedec == jedec && p.timing == t.value
  {
    if parts == [] then None
    else if parts[0].jedec == jedec then Some(parts[0].timing)
    else Lookup(parts[1..], jedec)
  }
}

/** One flash operation cut into pieces that fit the writer's slots
    (src/flash_slot.c). */
module FlashSlot {
  import opened Words
  import opened Wrappers
  import opened FlashTiming
  import opened Core1Frame

  const FLASH_SLOT_START_US := 300
  const FLASH_SLOT_SUSPEND_US := 500
  const FLASH_SLOT_MAX_PIECES := 2000

  const PIECE_DONE := 0
  const PIECE_SUSPENDED := 1
  const FLASH_SLOT_NOT_YET := 2
  const FLASH_SLOT_ETIME := -62
  const FLASH_SLOT_EREFUSED := -63

  datatype Kind = Program | Erase

  datatype Piece = Piece(resume: bool, maySuspend: bool, suspendAt: u32, suspendFrom: u32)

  /* ---- Planning a piece ---- */

  predicate BeforeOrAt(a: u32, b: u32) {
    Signed(Sub(b, a)) >= 0
  }

  predicate Suspends(t: Timing, kind: Kind) {
    if kind == Erase then t.eraseSuspends else t.programSuspends
  }

  function PlannedPiece(t: Timing, kind: Kind, resume: bool, now: u32, slotEnd: u32): Piece {
    if Suspends(t, kind) then
      Piece(resume, true, Sub(Sub(slotEnd, t.suspendUs), FLASH_SLOT_SUSPEND_US),
            Add(Add(now, FLASH_SLOT_START_US), t.resumeHoldUs))
    else Piece(resume, false, 0, 0)
  }

  predicate PieceFits(t: Timing, kind: Kind, now: u32, slotEnd: u32) {
    if Suspends(t, kind) then
      var p := PlannedPiece(t, kind, false, now, slotEnd);
      BeforeOrAt(p.suspendFrom, p.suspendAt)
    else kind == Program && BeforeOrAt(Add(Add(now, FLASH_SLOT_START_US), t.programMaxUs), slotEnd)
  }

  method Plan(t: Timing, kind: Kind, resume: bool, now: u32, slotEnd: u32) returns (fits: bool, piece: Piece)
    ensures fits == PieceFits(t, kind, now, slotEnd)
    ensures piece == PlannedPiece(t, kind, resume, now, slotEnd)
  {
    var suspends := if kind == Erase then t.eraseSuspends else t.programSuspends;
    piece := Piece(resume, suspends, 0, 0);
    if suspends {
      piece := piece.(suspendFrom := Add(Add(now, FLASH_SLOT_START_US), t.resumeHoldUs));
      piece := piece.(suspendAt := Sub(Sub(slotEnd, t.suspendUs), FLASH_SLOT_SUSPEND_US));
      return BeforeOrAt(piece.suspendFrom, piece.suspendAt), piece;
    }
    return kind == Program && BeforeOrAt(Add(Add(now, FLASH_SLOT_START_US), t.programMaxUs), slotEnd), piece;
  }

  /** Figures small beside half a turn of the timer: every listed part's. */
  predicate Modest(t: Timing) {
    t.programMaxUs <= 1_000_000 && t.suspendUs <= 1_000_000 && t.resumeHoldUs <= 1_000_000
  }

  /** Times near enough for the timer to order them. */
  predicate Near(a: int, b: int) {
    -1_000_000_000 <= b - a <= 1_000_000_000
  }

  lemma ShiftByWord(x: int, k: u32)
    ensures Add(Wrap(x), k) == Wrap(x + k)
    ensures Sub(Wrap(x), k) == Wrap(x - k)
  {
    var a, c, d := x / 0x1_0000_0000, (x + k) / 0x1_0000_0000, (x - k) / 0x1_0000_0000;
    assert x == Wrap(x) + a * 0x1_0000_0000;
    WrapUnique(Wrap(x) + k, Wrap(x + k), c - a);
    WrapUnique(Wrap(x) - k, Wrap(x - k), d - a);
  }

  lemma BeforeIsTrue(a: int, b: int)
    requires -0x8000_0000 <= b - a < 0x8000_0000
    ensures BeforeOrAt(Wrap(a), Wrap(b)) <==> a <= b
  {
    SignedIsTrue(a, b);
  }

  /** Over any turn of the 32-bit timer, the plan is made in true time: a
      suspending piece fits when its earliest suspend is no later than its
      latest, and a program that cannot suspend when its worst case fits. */
  lemma PlanIsTrue(t: Timing, kind: Kind, resume: bool, now: int, slotEnd: int)
    requires Modest(t) && Near(now, slotEnd)
    ensures var p := PlannedPiece(t, kind, resume, Wrap(now), Wrap(slotEnd));
            var from, at := now + FLASH_SLOT_START_US + t.resumeHoldUs, slotEnd - t.suspendUs - FLASH_SLOT_SUSPEND_US;
            && (p.maySuspend <==> Suspends(t, kind))
            && (p.maySuspend ==> p.suspendFrom == Wrap(from) && p.suspendAt == Wrap(at))
            && (PieceFits(t, kind, Wrap(now), Wrap(slotEnd)) <==>
                  if p.maySuspend then from <= at
                  else kind == Program && now + FLASH_SLOT_START_US + t.programMaxUs <= slotEnd)
  {
    BoundsAreTrue(now, t.resumeHoldUs, t.programMaxUs, t.suspendUs, slotEnd);
  }

  lemma BoundsAreTrue(now: int, hold: u32, program: u32, suspend: u32, slotEnd: int)
    requires hold <= 1_000_000 && program <= 1_000_000 && suspend <= 1_000_000 && Near(now, slotEnd)
    ensures var start := Add(Wrap(now), FLASH_SLOT_START_US);
            var from, at := Add(start, hold), Sub(Sub(Wrap(slotEnd), suspend), FLASH_SLOT_SUSPEND_US);
            && from == Wrap(now + FLASH_SLOT_START_US + hold)
            && at == Wrap(slotEnd - suspend - FLASH_SLOT_SUSPEND_US)
            && (BeforeOrAt(from, at) <==>
                  now + FLASH_SLOT_START_US + hold <= slotEnd - suspend - FLASH_SLOT_SUSPEND_US)
            && (BeforeOrAt(Add(start, program), Wrap(slotEnd)) <==>
                  now + FLASH_SLOT_START_US + program <= slotEnd)
  {
    ShiftByWord(now, FLASH_SLOT_START_US);
    ShiftByWord(now + FLASH_SLOT_START_US, hold);
    ShiftByWord(now + FLASH_SLOT_START_US, program);
    ShiftByWord(slotEnd, suspend);
    ShiftByWord(slotEnd - suspend, FLASH_SLOT_SUSPEND_US);
    BeforeIsTrue(now + FLASH_SLOT_START_US + hold, slotEnd - suspend - FLASH_SLOT_SUSPEND_US);
    BeforeIsTrue(now + FLASH_SLOT_START_US + program, slotEnd);
  }

  /* ---- Running an operation ---- */

  /** What the hardware answers on one pass of the loop: whether the operation
      is still sliced; what it returns run whole; whether the slot's alarm ran
      the piece at all; the timer and the slot's start then; and what the piece
      returned, FLASH_SLOT_NOT_YET when it issued no command. */
  datatype Answer = Answer(sliced: bool, whole: int, ran: bool, now: u32, slotT0: u32, piece: int)

  /** A command that reached the chip, and what came of it. */
  datatype Command = Command(resume: bool, rc: int)

  /** flash_slot_try(). */
  function Tried(t: Option<Timing>, kind: Kind, a: Answer): int {
    if t.Some? && !PieceFits(t.value, kind, a.now, Add(a.slotT0, FRAME_WRITER_US)) then FLASH_SLOT_NOT_YET
    else a.piece
  }

  /** The first piece is tried in the slot running; others wait for one. */
  function Attempt(t: Option<Timing>, kind: Kind, n: nat, a: Answer): int {
    if (n == 0 && t.Some?) || a.ran then Tried(t, kind, a) else FLASH_SLOT_NOT_YET
  }

  function Issued(commands: seq<Command>, resume: bool, rc: int): seq<Command> {
    if rc == FLASH_SLOT_NOT_YET then commands else commands + [Command(resume, rc)]
  }

  /** The loop after some passes: what it has sent, whether a piece of the
      operation has been suspended, and what it has returned. */
  datatype Loop = Loop(commands: seq<Command>, resume: bool, returned: Option<int>)

  function Return(l: Loop, rc: int): Loop {
    l.(returned := Some(rc))
  }

  function OnePass(l: Loop, t: Option<Timing>, kind: Kind, n: nat, a: Answer): Loop {
    if l.returned.Some? then l
    else if !a.sliced then Return(l.(commands := l.commands + [Command(l.resume, a.whole)]), a.whole)
    else if t.None? && kind == Erase then Return(l, FLASH_SLOT_EREFUSED)
    else AfterAttempt(l, t, kind, Attempt(t, kind, n, a))
  }

  function AfterAttempt(l: Loop, t: Option<Timing>, kind: Kind, rc: int): Loop
    requires kind == Erase ==> t.Some?
  {
    var m := l.(commands := Issued(l.commands, l.resume, rc));
    if rc == PIECE_SUSPENDED then m.(resume := true)
    else if rc != FLASH_SLOT_NOT_YET then Return(m, rc)
    else if !m.resume && kind == Erase && !t.value.eraseSuspends then Return(m, FLASH_SLOT_EREFUSED)
    else m
  }

  /** The loop after its first n passes, for any hardware. */
  function After(io: seq<Answer>, t: Option<Timing>, kind: Kind, n: nat): Loop
    requires n <= |io|
  {
    if n == 0 then Loop([], false, None) else OnePass(After(io, t, kind, n - 1), t, kind, n - 1, io[n - 1])
  }

  /** What flash_slot_run() returns. */
  function Returned(l: Loop): int {
    if l.returned.Some? then l.returned.value else FLASH_SLOT_ETIME
  }

  lemma {:induction false} ReturnStands(io: seq<Answer>, t: Option<Timing>, kind: Kind, n: nat, m: nat)
    requires n <= m <= |io| && After(io, t, kind, n).returned.Some?
    ensures After(io, t, kind, m) == After(io, t, kind, n)
  {
    if n < m {
      ReturnStands(io, t, kind, n, m - 1);
    }
  }

  /** The hardware under an operation, with the commands it has taken. */
  class SlotIo {
    const answers: seq<Answer>
    var commands: seq<Command>

    /** One answer for each pass the loop can make. */
    constructor (answers: seq<Answer>)
      ensures this.answers == answers && commands == []
    {
      this.answers := answers;
      commands := [];
    }

    method RunPiece(n: nat, resume: bool) returns (rc: int)
      requires n < |answers|
      modifies this
      ensures rc == answers[n].piece && commands == Issued(old(commands), resume, rc)
    {
      rc := answers[n].piece;
      if rc != FLASH_SLOT_NOT_YET {
        commands := commands + [Command(resume, rc)];
      }
    }

    method RunWhole(n: nat, resume: bool) returns (rc: int)
      requires n < |answers|
      modifies this
      ensures rc == answers[n].whole && commands == old(commands) + [Command(resume, rc)]
    {
      rc := answers[n].whole;
      commands := commands + [Command(resume, rc)];
    }
  }

  method Try(io: SlotIo, n: nat, t: Option<Timing>, kind: Kind, resume: bool) returns (rc: int)
    requires n < |io.answers|
    modifies io
    ensures rc == Tried(t, kind, io.answers[n])
    ensures io.commands == Issued(old(io.commands), resume, rc)
  {
    if t.Some? {
      var fits, piece := Plan(t.value, kind, resume, io.answers[n].now, Add(io.answers[n].slotT0, FRAME_WRITER_US));
      if !fits {
        return FLASH_SLOT_NOT_YET;
      }
    }
    rc := io.RunPiece(n, resume);
  }

  method TryPass(io: SlotIo, n: nat, t: Option<Timing>, kind: Kind, resume: bool) returns (rc: int)
    requires n < |io.answers|
    modifies io
    ensures rc == Attempt(t, kind, n, io.answers[n])
    ensures io.commands == Issued(old(io.commands), resume, rc)
  {
    if (n == 0 && t.Some?) || io.answers[n].ran {
      rc := Try(io, n, t, kind, resume);
    } else {
      rc := FLASH_SLOT_NOT_YET;
    }
  }

  method Run(io: SlotIo, t: Option<Timing>, kind: Kind) returns (rc: int)
    requires |io.answers| == FLASH_SLOT_MAX_PIECES && io.commands == []
    modifies io
    ensures var l := After(io.answers, t, kind, FLASH_SLOT_MAX_PIECES); rc == Returned(l) && io.commands == l.commands
  {
    var resume := false;
    var n := 0;
    while n < FLASH_SLOT_MAX_PIECES
      invariant n <= FLASH_SLOT_MAX_PIECES
      invariant After(io.answers, t, kind, n) == Loop(io.commands, resume, None)
    {
      ghost var l := After(io.answers, t, kind, n);
      ghost var next := After(io.answers, t, kind, n + 1);
      assert next == OnePass(l, t, kind, n, io.answers[n]);
      if next.returned.Some? {
        ReturnStands(io.answers, t, kind, n + 1, FLASH_SLOT_MAX_PIECES);
      }
      if !io.answers[n].sliced {
        rc := io.RunWhole(n, resume);
        return;
      }
      if t.None? && kind == Erase {
        return FLASH_SLOT_EREFUSED;
      }
      rc := TryPass(io, n, t, kind, resume);
      assert next == AfterAttempt(l, t, kind, rc);
      if rc == PIECE_SUSPENDED {
        resume := true;
      } else if rc != FLASH_SLOT_NOT_YET {
        return;
      } else if !resume && kind == Erase && !t.value.eraseSuspends {
        return FLASH_SLOT_EREFUSED;
      }
      n := n + 1;
    }
    return FLASH_SLOT_ETIME;
  }

  /** The first command is a fresh start, each later one a resume, and each but
      the last left the operation suspended. */
  predicate Proper(cs: seq<Command>) {
    && (forall i :: 0 <= i < |cs| ==> (cs[i].resume <==> i > 0))
    && (forall i :: 0 <= i < |cs| - 1 ==> cs[i].rc == PIECE_SUSPENDED)
  }

  function LastRc(cs: seq<Command>): int
    requires cs != []
  {
    cs[|cs| - 1].rc
  }

  /** Still looping, what was sent is all suspended; returned, the return is the
      last command's, or a refusal that sent nothing. */
  predicate LoopInv(l: Loop, kind: Kind) {
    && Proper(l.commands)
    && (l.returned.None? ==> (l.resume <==> l.commands != []))
    && (l.returned.None? && l.commands != [] ==> LastRc(l.commands) == PIECE_SUSPENDED)
    && (l.returned.Some? ==>
          if l.commands != [] then l.returned == Some(LastRc(l.commands))
          else l.returned == Some(FLASH_SLOT_EREFUSED) && kind == Erase)
  }

  lemma {:induction false} LoopKeepsInv(io: seq<Answer>, t: Option<Timing>, kind: Kind, n: nat)
    requires n <= |io|
    ensures LoopInv(After(io, t, kind, n), kind) && |After(io, t, kind, n).commands| <= n
  {
    if n > 0 {
      LoopKeepsInv(io, t, kind, n - 1);
      var l, a := After(io, t, kind, n - 1), io[n - 1];
      if l.returned.None? && a.sliced && !(t.None? && kind == Erase) {
        AttemptKeepsInv(l, t, kind, Attempt(t, kind, n - 1, a));
      }
    }
  }

  lemma AttemptKeepsInv(l: Loop, t: Option<Timing>, kind: Kind, rc: int)
    requires LoopInv(l, kind) && l.returned.None? && (kind == Erase ==> t.Some?)
    ensures LoopInv(AfterAttempt(l, t, kind, rc), kind)
  {
  }

  /** Whatever the hardware does, and however `sliced` turns: at most one fresh
      start, then only resumes of what was suspended; success exactly when the
      last command ended it; otherwise the last command's own answer, unless
      the passes ran out; and a refusal of the loop's own sends nothing. */
  lemma RunIsProper(io: seq<Answer>, t: Option<Timing>, kind: Kind)
    requires |io| == FLASH_SLOT_MAX_PIECES
    ensures var l := After(io, t, kind, FLASH_SLOT_MAX_PIECES);
            var rc, cs := Returned(l), l.commands;
            && Proper(cs)
            && (rc == PIECE_DONE <==> cs != [] && LastRc(cs) == PIECE_DONE)
            && (cs != [] && rc != LastRc(cs) ==> rc == FLASH_SLOT_ETIME && LastRc(cs) == PIECE_SUSPENDED)
            && (cs == [] ==> rc == FLASH_SLOT_ETIME || (rc == FLASH_SLOT_EREFUSED && kind == Erase))
  {
    LoopKeepsInv(io, t, kind, FLASH_SLOT_MAX_PIECES);
  }

  /** A pass sends a command exactly when the loop has not returned and the
      operation runs whole; or, sliced, it is not an erase of a part not listed,
      it is the first pass of a listed part or its slot's alarm ran, and the part's
      plan fits the slot; and then only if the hardware takes it. */
  lemma SendsExactly(io: seq<Answer>, t: Option<Timing>, kind: Kind, n: nat)
    requires n < |io|
    ensures var l, a := After(io, t, kind, n), io[n];
            |After(io, t, kind, n + 1).commands| == |l.commands| +
            (if l.returned.None? &&
                (!a.sliced ||
                 ((t.Some? || kind == Program) && ((n == 0 && t.Some?) || a.ran) && a.piece != FLASH_SLOT_NOT_YET &&
                  (t.Some? ==> PieceFits(t.value, kind, a.now, Add(a.slotT0, FRAME_WRITER_US)))))
             then 1 else 0)
  {
    hide PieceFits;
  }

  /** An erase no slot can hold, of a part not listed or one whose erase cannot
      suspend, is refused at once while sliced, and nothing is sent. */
  lemma RefusedErase(io: seq<Answer>, t: Option<Timing>)
    requires |io| == FLASH_SLOT_MAX_PIECES && (t.None? || !t.value.eraseSuspends)
    ensures After(io, t, Erase, FLASH_SLOT_MAX_PIECES)
         == if io[0].sliced then Loop([], false, Some(FLASH_SLOT_EREFUSED))
            else Loop([Command(false, io[0].whole)], false, Some(io[0].whole))
  {
    assert After(io, t, Erase, 1) == OnePass(Loop([], false, None), t, Erase, 0, io[0]);
    if io[0].sliced && t.Some? {
      assert Tried(t, Erase, io[0]) == FLASH_SLOT_NOT_YET;
    }
    ReturnStands(io, t, Erase, 1, FLASH_SLOT_MAX_PIECES);
  }

  /* ---- An erase ends ---- */

  /** What a slot leaves the chip to work in, started this late into it. */
  function Useful(t: Timing, late: int): int {
    FRAME_WRITER_US - t.suspendUs - FLASH_SLOT_SUSPEND_US - FLASH_SLOT_START_US - late
  }

  /** An erase of a working chip, each pass after the first starting no later
      than `late` into its slot. `left` is the erase's time still to run before
      each pass: a pass takes the slot's useful part off it, and leaves the
      piece suspended only with some of it left. */
  predicate WorkingErase(io: seq<Answer>, t: Timing, late: nat, left: seq<int>) {
    && |io| == FLASH_SLOT_MAX_PIECES && |left| == |io| + 1
    && left[0] <= t.eraseMaxUs
    && forall n :: 0 <= n < |io| ==> WorkingPass(io[n], t, late, n, left[n], left[n + 1])
  }

  predicate WorkingPass(a: Answer, t: Timing, late: nat, n: nat, before: int, after: int) {
    && a.sliced
    && (n > 0 ==> a.ran && Sub(a.now, a.slotT0) <= late)
    && (a.piece == PIECE_DONE || (a.piece == PIECE_SUSPENDED && after > 0))
    && after <= before - (if n > 0 then Useful(t, late) else 0)
  }

  lemma FitsLateStart(t: Timing, now: u32, slotT0: u32, late: nat)
    requires Modest(t) && t.eraseSuspends && Sub(now, slotT0) <= late && t.resumeHoldUs <= Useful(t, late)
    ensures PieceFits(t, Erase, now, Add(slotT0, FRAME_WRITER_US))
  {
    var d := Sub(now, slotT0);
    LateStart(now, slotT0);
    PlanIsTrue(t, Erase, false, slotT0 + d, slotT0 + FRAME_WRITER_US);
  }

  /** Words for a time in a slot, and the slot's end, as true times. */
  lemma LateStart(now: u32, slotT0: u32)
    ensures Wrap(slotT0 + Sub(now, slotT0)) == now
    ensures Wrap(slotT0 + FRAME_WRITER_US) == Add(slotT0, FRAME_WRITER_US)
  {
    var k := (now - slotT0) / 0x1_0000_0000;
    WrapUnique(slotT0 + Sub(now, slotT0), now, -k);
  }

  /** While it has not ended, each pass has left less. */
  predicate Progressing(l: Loop, t: Timing, late: nat, n: nat, left: int) {
    || l.returned == Some(PIECE_DONE)
    || (l.returned.None? && left <= t.eraseMaxUs - (n - 1) * Useful(t, late) && (n > 1 ==> left > 0))
  }

  lemma PassProgress(l: Loop, t: Timing, late: nat, n: nat, a: Answer, before: int, after: int)
    requires Modest(t) && t.eraseSuspends && t.resumeHoldUs <= Useful(t, late)
    requires n >= 1 && Progressing(l, t, late, n, before) && WorkingPass(a, t, late, n, before, after)
    ensures Progressing(OnePass(l, Some(t), Erase, n, a), t, late, n + 1, after)
  {
    FitsLateStart(t, a.now, a.slotT0, late);
    assert Attempt(Some(t), Erase, n, a) == a.piece;
    assert n * Useful(t, late) == (n - 1) * Useful(t, late) + Useful(t, late);
  }

  lemma {:induction false} EraseProgress(io: seq<Answer>, t: Timing, late: nat, left: seq<int>, n: nat)
    requires Modest(t) && t.eraseSuspends && WorkingErase(io, t, late, left)
    requires t.resumeHoldUs <= Useful(t, late) && 1 <= n <= FLASH_SLOT_MAX_PIECES
    ensures Progressing(After(io, Some(t), Erase, n), t, late, n, left[n])
  {
    assert WorkingPass(io[n - 1], t, late, n - 1, left[n - 1], left[n]);
    if n == 1 {
      assert After(io, Some(t), Erase, 0) == Loop([], false, None);
      assert Tried(Some(t), Erase, io[0]) in {PIECE_DONE, PIECE_SUSPENDED, FLASH_SLOT_NOT_YET};
    } else {
      EraseProgress(io, t, late, left, n - 1);
      PassProgress(After(io, Some(t), Erase, n - 1), t, late, n - 1, io[n - 1], left[n - 1], left[n]);
    }
  }

  lemma EraseEndsBy(io: seq<Answer>, t: Timing, late: nat, left: seq<int>, n: nat)
    requires Modest(t) && t.eraseSuspends && WorkingErase(io, t, late, left)
    requires t.resumeHoldUs <= Useful(t, late) && 1 < n <= FLASH_SLOT_MAX_PIECES
    requires t.eraseMaxUs <= (n - 1) * Useful(t, late)
    ensures var l := After(io, Some(t), Erase, FLASH_SLOT_MAX_PIECES);
            Returned(l) == PIECE_DONE && |l.commands| <= n
  {
    EraseProgress(io, t, late, left, n);
    LoopKeepsInv(io, Some(t), Erase, n);
    ReturnStands(io, Some(t), Erase, n, FLASH_SLOT_MAX_PIECES);
  }

  lemma ListedFigures(p: Part)
    requires p in PARTS && p.timing.eraseSuspends
    ensures var t := p.timing;
            Modest(t) && t.eraseMaxUs <= 800_000 && t.suspendUs == 20 && t.resumeHoldUs <= 500
  {
  }

  /** Of every listed part whose erase suspends, any erase resumed each slot
      ends, even when every slot is entered 1.68 ms late: within 1,601 commands
      then, and within 368 entered on time. So FLASH_SLOT_ETIME is not reached. */
  lemma ListedEraseEnds(p: Part, io: seq<Answer>, late: nat, left: seq<int>)
    requires p in PARTS && p.timing.eraseSuspends && late <= 1680
    requires WorkingErase(io, p.timing, late, left)
    ensures var l := After(io, Some(p.timing), Erase, FLASH_SLOT_MAX_PIECES);
            Returned(l) == PIECE_DONE && |l.commands| <= (if late == 0 then 368 else 1601)
  {
    ListedFigures(p);
    var n := if late == 0 then 368 else 1601;
    assert (n - 1) * Useful(p.timing, late) >= 800_000;
    EraseEndsBy(io, p.timing, late, left, n);
  }
}
