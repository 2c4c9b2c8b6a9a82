/** The pressure collector (src/pressure_collector.c): one interrupt state
    machine owning the sensor's bus, and its drop-oldest queue of cycles, proved
    against a log of everything done on the bus. */
module PressureCollector {
  import opened Wrappers
  import opened NetRing

  const COLLECTOR_STEPS_MAX := 2
  const COLLECTOR_QUEUE := 4
  const SLOTS := 5
  const FAILURES_BEFORE_RECOVERY := 3
  const RETRY_US := 1000
  const CLEAR_CLOCK_EDGES := 18
  const CLEAR_HALF_BIT_US := 10
  const TRANSFER_MARGIN_US := 100

  datatype Step = Step(commandLen: nat, readLen: nat, convertUs: nat, middleUs: nat)

  datatype Part = Part(steps: seq<Step>, resetLen: nat, resetUs: nat) {
    predicate Valid() {
      0 < |steps| <= COLLECTOR_STEPS_MAX
    }
  }

  /** One cycle as it is queued. */
  datatype Raw = Raw(data: seq<seq<byte>>, at: seq<nat>, flashed: seq<bool>) {
    predicate Valid() {
      |data| == |at| == |flashed| == COLLECTOR_STEPS_MAX
    }
  }

  const EMPTY: Raw := Raw([[], []], [0, 0], [false, false])

  /** What is done on the bus, or comes of it: a command and when its conversion
      begins, a read and when it is asked for, its bytes, a failure, and the
      moves of a bus clear. flashOps counts the flash operations so far. */
  datatype Op =
    | Commanded(step: nat, converting: nat, flashOps: nat)
    | ReadAsked(step: nat, time: nat, flashOps: nat)
    | Got(bytes: seq<byte>)
    | Failed
    | LinesTaken | Scl(high: bool) | Sda(high: bool) | LinesGiven
    | ResetWritten

  /* ---- What a record is made of ---- */

  /** Step i of a cycle, from the three entries of the log that begin at k: its
      own command, its read asked for no sooner than the part's conversion time
      after that, and the bytes. */
  predicate MadeOf(part: Part, log: seq<Op>, k: nat, raw: Raw, i: nat)
    requires part.Valid() && raw.Valid() && i < |part.steps|
  {
    && k + 3 <= |log| && log[k].Commanded? && log[k + 1].ReadAsked? && log[k].step == log[k + 1].step == i
    && log[k + 1].time >= log[k].converting + part.steps[i].convertUs
    && log[k + 2] == Got(raw.data[i])
    && raw.at[i] == log[k].converting + part.steps[i].middleUs
    && raw.flashed[i] == (log[k].flashOps != log[k + 1].flashOps)
  }

  /** The first n steps, one after the other with nothing between. */
  predicate MadeOfPass(part: Part, log: seq<Op>, start: nat, raw: Raw, n: nat)
    requires part.Valid() && raw.Valid() && n <= |part.steps|
  {
    (n > 0 ==> MadeOf(part, log, start, raw, 0)) && (n > 1 ==> MadeOf(part, log, start + 3, raw, 1))
  }

  lemma MadeOfStays(part: Part, log: seq<Op>, more: seq<Op>, start: nat, raw: Raw, n: nat)
    requires part.Valid() && raw.Valid() && n <= |part.steps| && MadeOfPass(part, log, start, raw, n)
    ensures MadeOfPass(part, log + more, start, raw, n)
  {
  }

  predicate AllMade(part: Part, log: seq<Op>, starts: seq<nat>, queued: seq<Raw>)
    requires part.Valid()
  {
    |starts| == |queued| &&
    forall i :: 0 <= i < |queued| ==> queued[i].Valid() && MadeOfPass(part, log, starts[i], queued[i], |part.steps|)
  }

  lemma AllMadeStays(part: Part, log: seq<Op>, more: seq<Op>, starts: seq<nat>, queued: seq<Raw>)
    requires part.Valid() && AllMade(part, log, starts, queued)
    ensures AllMade(part, log + more, starts, queued)
  {
    hide MadeOfPass;
    forall i | 0 <= i < |queued| ensures MadeOfPass(part, log + more, starts[i], queued[i], |part.steps|) {
      MadeOfStays(part, log, more, starts[i], queued[i], |part.steps|);
    }
  }

  /** Records leave in the order of their passes. */
  predicate Ordered(starts: seq<nat>, before: nat) {
    && (forall i, j :: 0 <= i < j < |starts| ==> starts[i] < starts[j])
    && (forall i :: 0 <= i < |starts| ==> starts[i] < before)
  }

  /** A queue that a finished cycle has joined: full, it has lost its oldest. */
  function Pushed(q: seq<Raw>, raw: Raw): seq<Raw> {
    if |q| == COLLECTOR_QUEUE then q[1..] + [raw] else q + [raw]
  }

  /* ---- Recovery ---- */

  /** The bus clear: nine clocks, then SDA low and let go with SCL high, a STOP. */
  function ClearOp(k: nat): Op {
    if k == 0 then LinesTaken
    else if k <= CLEAR_CLOCK_EDGES then Scl((k - 1) % 2 == 1)
    else if k == CLEAR_CLOCK_EDGES + 1 then Sda(false)
    else if k == CLEAR_CLOCK_EDGES + 2 then Sda(true)
    else LinesGiven
  }

  const CLEAR_OPS := CLEAR_CLOCK_EDGES + 4

  /** The log ends with the first n moves of a bus clear, begun by a failure. */
  predicate EndsClearing(log: seq<Op>, n: nat) {
    n < |log| && log[|log| - n - 1] == Failed && forall k :: 0 <= k < n ==> log[|log| - n + k] == ClearOp(k)
  }

  /** The part is reset only right after a whole bus clear. */
  predicate ResetsAreCleared(log: seq<Op>) {
    forall k :: 0 <= k < |log| && log[k] == ResetWritten ==> EndsClearing(log[..k], CLEAR_OPS)
  }

  /** A bus clear begins only on the third failure in a row. */
  predicate ClearsAreEarned(log: seq<Op>) {
    forall k :: 0 <= k < |log| && log[k] == LinesTaken ==> InARow(log[..k]) == FAILURES_BEFORE_RECOVERY
  }

  /** Failures since a read last gave bytes, or a bus clear began. */
  function InARow(log: seq<Op>): nat {
    if log == [] then 0
    else
      var before := InARow(log[..|log| - 1]);
      match log[|log| - 1]
      case Failed => before + 1
      case Got(_) => 0
      case LinesTaken => 0
      case _ => before
  }

  predicate Disciplined(log: seq<Op>) {
    ResetsAreCleared(log) && ClearsAreEarned(log)
  }

  lemma OneMore(log: seq<Op>, op: Op)
    requires Disciplined(log)
    requires op == ResetWritten ==> EndsClearing(log, CLEAR_OPS)
    requires op == LinesTaken ==> InARow(log) == FAILURES_BEFORE_RECOVERY
    ensures Disciplined(log + [op])
  {
    hide EndsClearing, InARow;
    var longer := log + [op];
    forall k | 0 <= k < |longer| ensures longer[..k] == log[..k] && (k < |log| ==> longer[k] == log[k]) {}
    assert log[..|log|] == log;
  }

  lemma ClearGoesOn(log: seq<Op>, n: nat)
    requires EndsClearing(log, n)
    ensures EndsClearing(log + [ClearOp(n)], n + 1)
  {
  }

  /** What the I2C specification asks of a bus clear (UM10204, section 3.1.16):
      of its moves the eighteen from the second on, and no others, are clock
      edges, low and high in turn; the last leaves SCL high, and then SDA goes
      low and high, a STOP, before the lines are given back. */
  lemma ClearIsNineClocksAndStop(log: seq<Op>)
    requires EndsClearing(log, CLEAR_OPS)
    ensures var from := |log| - CLEAR_OPS;
            && (forall k :: from <= k < |log| ==> (log[k].Scl? <==> 1 <= k - from <= 18))
            && (forall k :: from < k <= from + 18 ==> log[k] == Scl((k - from) % 2 == 0))
            && log[from + 19] == Sda(false) && log[from + 20] == Sda(true) && log[from + 21] == LinesGiven
  {
    var from := |log| - CLEAR_OPS;
    forall k | from <= k < |log| ensures log[k] == ClearOp(k - from) {
      assert log[|log| - CLEAR_OPS + (k - from)] == ClearOp(k - from);
    }
  }

  /* ---- The machine ---- */

  datatype State = Idle | Waiting | Reading | Retrying | Clearing | Resetting | Reloading

  /** The handler's scalars; due is when its alarm is set for. */
  datatype Machine = Machine(state: State, step: nat, clearEdge: nat, failures: nat, flashOps: nat,
                             head: nat, count: nat, due: nat)

  /** What a failure does on the bus, after so many in a row. */
  function FailureOps(failures: nat): seq<Op> {
    if failures + 1 < FAILURES_BEFORE_RECOVERY then [Failed] else [Failed] + [LinesTaken]
  }

  /** What a move of the bus clear does, after so many. */
  function ClearOps(clearEdge: nat): seq<Op> {
    if clearEdge <= CLEAR_CLOCK_EDGES + 1 then [ClearOp(clearEdge + 1)] else [LinesGiven] + [ResetWritten]
  }

  lemma Twice(log: seq<Op>, a: Op, b: Op)
    ensures (log + [a]) + [b] == log + ([a] + [b])
  {
  }

  datatype Stats = Stats(cycles: nat, dropped: nat, failed: nat, recoveries: nat)

  /** The bus's log, where in it the pass under way and each queued one began,
      and the cycles taken. */
  datatype Story = Story(log: seq<Op>, passStart: nat, starts: seq<nat>, taken: nat)

  predicate Legal(part: Part, m: Machine) {
    && part.Valid() && m.head < SLOTS && m.count <= COLLECTOR_QUEUE
    && m.step < |part.steps| && m.failures < FAILURES_BEFORE_RECOVERY
    && (m.state != Waiting && m.state != Reading ==> m.step == 0)
  }

  /** What the log holds of the work under way. */
  predicate UnderWay(part: Part, m: Machine, g: Story, slot: Raw)
    requires part.Valid() && slot.Valid() && m.step < |part.steps|
  {
    var log, k := g.log, g.passStart + 3 * m.step;
    match m.state
    case Waiting => MadeOfPass(part, log, g.passStart, slot, m.step)
                    && k + 1 == |log| && CommandStands(part, m, log[k], slot)
                    && m.due >= log[k].converting + part.steps[m.step].convertUs
    case Reading => MadeOfPass(part, log, g.passStart, slot, m.step)
                    && k + 2 == |log| && CommandStands(part, m, log[k], slot)
                    && log[k + 1].ReadAsked? && log[k + 1].step == m.step
                    && log[k + 1].time >= log[k].converting + part.steps[m.step].convertUs
                    && slot.flashed[m.step] == (log[k].flashOps != log[k + 1].flashOps)
    case Clearing => m.clearEdge <= CLEAR_CLOCK_EDGES + 2 && EndsClearing(log, m.clearEdge + 1)
    case _ => true
  }

  predicate CommandStands(part: Part, m: Machine, op: Op, slot: Raw)
    requires part.Valid() && slot.Valid() && m.step < |part.steps|
  {
    && op.Commanded? && op.step == m.step && op.flashOps == m.flashOps
    && slot.at[m.step] == op.converting + part.steps[m.step].middleUs
  }

  class Collector {
    const part: Part
    const bitUs: nat
    const queue: array<Raw>
    var m: Machine
    var stats: Stats
    ghost var g: Story

    /** The slot being built, never a queued one. */
    function Building(): (i: nat)
      requires m.head < SLOTS && m.count <= COLLECTOR_QUEUE
      reads this
      ensures i < SLOTS
    {
      Turned(m.head + m.count, SLOTS)
    }

    /** The cycles to take, oldest first. */
    function Queued(): (q: seq<Raw>)
      requires queue.Length == SLOTS && m.head < SLOTS && m.count <= COLLECTOR_QUEUE
      reads this, queue
      ensures |q| == m.count
    {
      Around(queue[..], m.head, m.count)
    }

    ghost predicate Valid()
      reads this, queue
    {
      && queue.Length == SLOTS && Legal(part, m)
      && (forall i :: 0 <= i < SLOTS ==> queue[i].Valid())
      && AllMade(part, g.log, g.starts, Queued()) && Ordered(g.starts, g.passStart) && g.passStart <= |g.log|
      && UnderWay(part, m, g, queue[Building()])
      && Disciplined(g.log) && InARow(g.log) == m.failures
      && stats.cycles == g.taken + stats.dropped + m.count
    }

    /** What holds whatever the work under way. */
    ghost predicate Sound()
      reads this, queue
    {
      && queue.Length == SLOTS && Legal(part, m)
      && (forall i :: 0 <= i < SLOTS ==> queue[i].Valid())
      && AllMade(part, g.log, g.starts, Queued()) && Ordered(g.starts, g.passStart) && g.passStart <= |g.log|
      && Disciplined(g.log) && InARow(g.log) == m.failures
      && stats.cycles == g.taken + stats.dropped + m.count
    }

    function WriteUs(len: nat): nat {
      (9 * (len + 1) + 2) * bitUs
    }

    function ReadUs(len: nat): nat {
      (9 * (len + 3) + 3) * bitUs
    }

    function CommandOp(step: nat, now: nat, flashOps: nat): Op
      requires step < |part.steps|
    {
      Commanded(step, now + WriteUs(part.steps[step].commandLen), flashOps)
    }

    function NextStep(): nat
      reads this
    {
      if m.step + 1 == |part.steps| then 0 else m.step + 1
    }

    /** All that an alarm does on the bus, and finds there. */
    function AlarmOps(now: nat, ok: bool, bytes: seq<byte>, flashOps: nat): seq<Op>
      requires part.Valid() && m.step < |part.steps|
      reads this
    {
      match m.state
      case Idle => []
      case Waiting => if ok then [ReadAsked(m.step, now, flashOps)] else FailureOps(m.failures)
      case Reading =>
        if ok then [Got(bytes)] + [CommandOp(NextStep(), now, flashOps)] else FailureOps(m.failures)
      case Clearing => ClearOps(m.clearEdge)
      case Resetting => if ok then [] else FailureOps(m.failures)
      case _ => [CommandOp(0, now, flashOps)]
    }

    /** collector_begin() */
    constructor (part: Part, bitUs: nat, now: nat)
      requires part.Valid()
      ensures Valid() && this.part == part && this.bitUs == bitUs && m.state == Retrying && m.due == now
      ensures Queued() == [] && g == Story([], 0, [], 0) && fresh(queue)
    {
      this.part, this.bitUs := part, bitUs;
      queue := new Raw[SLOTS](_ => EMPTY);
      m := Machine(Retrying, 0, 0, 0, 0, 0, 0, now);
      stats := Stats(0, 0, 0, 0);
      g := Story([], 0, [], 0);
    }

    /** The slot being built changes; the queued ones do not. */
    method Build(raw: Raw)
      requires queue.Length == SLOTS && m.head < SLOTS && m.count <= COLLECTOR_QUEUE && raw.Valid()
      requires forall i :: 0 <= i < SLOTS ==> queue[i].Valid()
      modifies queue
      ensures queue[Building()] == raw && Queued() == old(Queued())
      ensures forall i :: 0 <= i < SLOTS ==> queue[i].Valid()
    {
      BuildingIsFree(queue[..], m.head, m.count, raw);
      ghost var q := queue[..];
      queue[Building()] := raw;
      assert queue[..] == q[Building() := raw];
    }

    /** The log goes on; what it already showed stands. */
    ghost method Log(op: Op)
      requires queue.Length == SLOTS && Legal(part, m)
      requires AllMade(part, g.log, g.starts, Queued()) && Disciplined(g.log)
      requires op == ResetWritten ==> EndsClearing(g.log, CLEAR_OPS)
      requires op == LinesTaken ==> InARow(g.log) == FAILURES_BEFORE_RECOVERY
      modifies `g
      ensures g == old(g).(log := old(g).log + [op])
      ensures AllMade(part, g.log, g.starts, Queued()) && Disciplined(g.log)
      ensures InARow(g.log) == (match op
                                case Failed => InARow(old(g).log) + 1
                                case Got(_) => 0
                                case LinesTaken => 0
                                case _ => InARow(old(g).log))
    {
      hide AllMade, Disciplined, EndsClearing;
      AllMadeStays(part, g.log, [op], g.starts, Queued());
      OneMore(g.log, op);
      assert (g.log + [op])[..|g.log|] == g.log;
      g := g.(log := g.log + [op]);
    }

    /** command() */
    method Command(now: nat, flashOps: nat)
      requires Sound() && |g.log| == g.passStart + 3 * m.step
      requires MadeOfPass(part, g.log, g.passStart, queue[Building()], m.step)
      modifies `m, `g, queue
      ensures Valid() && m == old(m).(state := Waiting, flashOps := flashOps, due := m.due)
      ensures Queued() == old(Queued()) && g == old(g).(log := g.log)
      ensures g.log == old(g).log + [CommandOp(m.step, now, flashOps)]
    {
      hide AllMade, Disciplined, Ordered, InARow;
      var s := part.steps[m.step];
      var converting := now + WriteUs(s.commandLen);
      var slot := queue[Building()];
      Build(slot.(at := slot.at[m.step := converting + s.middleUs]));
      ghost var log := g.log;
      Log(Commanded(m.step, converting, flashOps));
      MadeOfStays(part, log, [Commanded(m.step, converting, flashOps)], g.passStart, slot, m.step);
      m := m.(flashOps := flashOps, state := Waiting, due := converting + s.convertUs);
    }

    /** push(): the finished cycle joins the queue; a full one drops its oldest,
        whose slot is the next to be built. */
    method Push()
      requires Sound() && m.step == 0 && g.passStart < |g.log|
      requires MadeOfPass(part, g.log, g.passStart, queue[Building()], |part.steps|)
      modifies `m, `stats, `g
      ensures Sound() && m == old(m).(head := m.head, count := m.count) && g.log == old(g).log && g.passStart == |g.log|
      ensures g.taken == old(g).taken
      ensures Queued() == Pushed(old(Queued()), old(queue[Building()]))
      ensures stats.cycles == old(stats).cycles + 1
    {
      hide AllMade, Ordered, Disciplined, InARow, MadeOfPass;
      OneMoreQueued(queue[..], m.head, m.count);
      ghost var all := g.starts + [g.passStart];
      ghost var raws := Queued() + [queue[Building()]];
      MadeJoins(part, g.log, g.starts, Queued(), g.passStart, queue[Building()]);
      if m.count == COLLECTOR_QUEUE {
        m := m.(head := Turned(m.head + 1, SLOTS));
        stats := stats.(dropped := stats.dropped + 1);
        MadeLeaves(part, g.log, all, raws, |g.log|);
        all := all[1..];
      } else {
        m := m.(count := m.count + 1);
      }
      assert |raws| == COLLECTOR_QUEUE + 1 ==> raws[1..] == raws[1..COLLECTOR_QUEUE] + [raws[COLLECTOR_QUEUE]];
      stats := stats.(cycles := stats.cycles + 1);
      g := g.(starts := all, passStart := |g.log|);
    }

    /** failed(): the cycle begins again after a while, or, the third time in a
        row, the bus is cleared first. */
    method Fail(now: nat)
      requires Sound()
      modifies `m, `stats, `g
      ensures Valid() && Queued() == old(Queued()) && m.step == 0
      ensures g.starts == old(g).starts && g.taken == old(g).taken
      ensures g.log == old(g).log + FailureOps(old(m).failures)
      ensures stats.cycles == old(stats).cycles && stats.dropped == old(stats).dropped
      ensures if old(m).failures + 1 == FAILURES_BEFORE_RECOVERY
              then m.state == Clearing && m.due == now + CLEAR_HALF_BIT_US
              else m.state == Retrying && m.due == now + RETRY_US
    {
      hide AllMade, Disciplined, Ordered, InARow, MadeOfPass;
      Log(Failed);
      stats := stats.(failed := stats.failed + 1);
      if m.failures + 1 < FAILURES_BEFORE_RECOVERY {
        m := m.(step := 0, failures := m.failures + 1, state := Retrying, due := now + RETRY_US);
        return;
      }
      Twice(old(g).log, Failed, LinesTaken);
      Log(LinesTaken);
      stats := stats.(recoveries := stats.recoveries + 1);
      m := m.(step := 0, failures := 0, clearEdge := 0, state := Clearing, due := now + CLEAR_HALF_BIT_US);
    }

    /** clear_step(): a move of the bus clear an alarm, and after the last the reset. */
    method ClearStep(now: nat)
      requires Valid() && m.state == Clearing
      modifies `m, `g
      ensures Valid() && Queued() == old(Queued())
      ensures g == old(g).(log := old(g).log + ClearOps(old(m).clearEdge))
      ensures m.state == if old(m).clearEdge <= CLEAR_CLOCK_EDGES + 1 then Clearing else Resetting
    {
      hide AllMade, Disciplined, Ordered, InARow, MadeOfPass;
      hide EndsClearing;
      var edge := m.clearEdge;
      m := m.(clearEdge := m.clearEdge + 1, due := now + CLEAR_HALF_BIT_US);
      ClearGoesOn(g.log, edge + 1);
      if edge < CLEAR_CLOCK_EDGES {
        Log(Scl(edge % 2 == 1));
      } else if edge == CLEAR_CLOCK_EDGES {
        Log(Sda(false));
      } else if edge == CLEAR_CLOCK_EDGES + 1 {
        Log(Sda(true));
      } else {
        Twice(g.log, LinesGiven, ResetWritten);
        Log(LinesGiven);
        Log(ResetWritten);
        m := m.(state := Resetting, due := now + WriteUs(part.resetLen) + TRANSFER_MARGIN_US);
      }
    }

    /** after_command() */
    method AfterCommand(now: nat, ok: bool, flashOps: nat)
      requires Valid() && m.state == Waiting && now >= m.due
      modifies `m, `stats, `g, queue
      ensures Valid() && Queued() == old(Queued()) && g.starts == old(g).starts && g.taken == old(g).taken
      ensures g.log == old(g).log + old(AlarmOps(now, ok, [], flashOps))
      ensures ok ==> m.state == Reading && m.step == old(m).step && m.failures == old(m).failures
    {
      hide AllMade, Disciplined, Ordered, InARow;
      if !ok {
        Fail(now);
        return;
      }
      var slot := queue[Building()];
      Build(slot.(flashed := slot.flashed[m.step := flashOps != m.flashOps]));
      ghost var log := g.log;
      Log(ReadAsked(m.step, now, flashOps));
      MadeOfStays(part, log, [ReadAsked(m.step, now, flashOps)], g.passStart, slot, m.step);
      m := m.(state := Reading, due := now + ReadUs(part.steps[m.step].readLen) + TRANSFER_MARGIN_US);
    }

    /** after_read() */
    method AfterRead(now: nat, ok: bool, bytes: seq<byte>, flashOps: nat)
      requires Valid() && m.state == Reading
      modifies `m, `stats, `g, queue
      ensures Valid() && g.taken == old(g).taken
      ensures g.log == old(g).log + old(AlarmOps(now, ok, bytes, flashOps))
      ensures ok ==> m.state == Waiting && m.step == old(NextStep()) && m.failures == 0
      ensures if ok && old(m).step + 1 == |part.steps| then
                m.count > 0 && Queued() == Pushed(old(Queued()), Queued()[m.count - 1])
              else Queued() == old(Queued())
    {
      hide AllMade, Disciplined, Ordered, InARow, MadeOfPass;
      if !ok {
        Fail(now);
        return;
      }
      Twice(g.log, Got(bytes), CommandOp(NextStep(), now, flashOps));
      Read(bytes);
      m := m.(failures := 0, step := m.step + 1);
      if m.step == |part.steps| {
        m := m.(step := 0);
        Push();
        NothingMade(part, g.log, g.passStart, queue[Building()]);
      }
      Command(now, flashOps);
    }

    /** The bytes of a read that ended well join the cycle being built. */
    method Read(bytes: seq<byte>)
      requires Valid() && m.state == Reading
      modifies `g, queue
      ensures queue.Length == SLOTS && (forall i :: 0 <= i < SLOTS ==> queue[i].Valid())
      ensures Queued() == old(Queued()) && g == old(g).(log := old(g).log + [Got(bytes)])
      ensures AllMade(part, g.log, g.starts, Queued()) && Disciplined(g.log) && InARow(g.log) == 0
      ensures MadeOfPass(part, g.log, g.passStart, queue[Building()], m.step + 1)
    {
      hide AllMade, Disciplined, Ordered, InARow;
      var slot := queue[Building()];
      Build(slot.(data := slot.data[m.step := bytes]));
      ghost var log := g.log;
      Log(Got(bytes));
      MadeOfStays(part, log, [Got(bytes)], g.passStart, slot, m.step);
    }

    /** after_reset() */
    method AfterReset(now: nat, ok: bool)
      requires Valid() && m.state == Resetting
      modifies `m, `stats, `g
      ensures Valid() && Queued() == old(Queued()) && g.taken == old(g).taken
      ensures g.log == old(g).log + old(AlarmOps(now, ok, [], 0))
      ensures ok ==> m.state == Reloading && m.due == now + part.resetUs
    {
      hide AllMade, Disciplined, Ordered, InARow, MadeOfPass;
      if !ok {
        Fail(now);
        return;
      }
      assert g.log + [] == g.log;
      m := m.(state := Reloading, due := now + part.resetUs);
    }

    /** collector_alarm_isr(): the alarm, no sooner than it was set for: what it
        does on the bus, at its time, and what it finds there go on the log, and the
        queue changes only by a finished cycle. */
    method Alarm(now: nat, ok: bool, bytes: seq<byte>, flashOps: nat)
      requires Valid() && now >= m.due
      modifies `m, `stats, `g, queue
      ensures Valid() && g.taken == old(g).taken
      ensures g.log == old(g).log + old(AlarmOps(now, ok, bytes, flashOps))
      ensures if ok && old(m).state == Reading && old(m).step + 1 == |part.steps| then
                m.count > 0 && Queued() == Pushed(old(Queued()), Queued()[m.count - 1])
              else Queued() == old(Queued())
    {
      hide AllMade, Disciplined, Ordered, InARow, MadeOfPass;
      if m.state == Waiting {
        AfterCommand(now, ok, flashOps);
      } else if m.state == Reading {
        AfterRead(now, ok, bytes, flashOps);
      } else if m.state == Retrying || m.state == Reloading {
        ghost var old_g := g;
        g := g.(passStart := |g.log|);
        NothingMade(part, g.log, g.passStart, queue[Building()]);
        OrderedLater(g.starts, old_g.passStart, g.passStart);
        Command(now, flashOps);
      } else if m.state == Clearing {
        ClearStep(now);
      } else if m.state == Resetting {
        AfterReset(now, ok);
      } else {
        assert g.log + [] == g.log;
      }
    }

    /** collector_take(), the interrupt held off: the oldest cycle, and the one
        being built untouched. */
    method Take() returns (out: Option<Raw>)
      requires Valid()
      modifies `m, `g
      ensures Valid() && g.log == old(g).log
      ensures out == if old(Queued()) == [] then None else Some(old(Queued())[0])
      ensures Queued() == (if old(Queued()) == [] then [] else old(Queued())[1..])
      ensures out.Some? ==> out.value.Valid() && MadeOfPass(part, g.log, old(g).starts[0], out.value, |part.steps|)
      ensures out.Some? ==> (forall k :: k in g.starts ==> old(g).starts[0] < k)
      ensures g.taken == old(g).taken + (if out.Some? then 1 else 0)
      ensures queue[Building()] == old(queue[Building()])
    {
      hide AllMade, Ordered, Disciplined, InARow, MadeOfPass, Around;
      out := None;
      if m.count > 0 {
        ghost var q := Queued();
        MadeLeaves(part, g.log, g.starts, q, g.passStart);
        AroundDrops(queue[..], m.head, m.count, 1);
        AroundAt(queue[..], m.head, m.count, 0);
        out := Some(queue[m.head]);
        ghost var building := Building();
        m := m.(head := Turned(m.head + 1, SLOTS), count := m.count - 1);
        assert Building() == building && Queued() == q[1..];
        g := g.(starts := g.starts[1..], taken := g.taken + 1);
      }
    }
  }

  lemma AroundLength(b: seq<Raw>, tail: nat, len: nat)
    requires tail < |b| && len <= |b|
    ensures |Around(b, tail, len)| == len
  {
  }

  lemma BuildingIsFree(b: seq<Raw>, head: nat, count: nat, raw: Raw)
    requires |b| == SLOTS && head < SLOTS && count <= COLLECTOR_QUEUE
    ensures Around(b[Turned(head + count, SLOTS) := raw], head, count) == Around(b, head, count)
  {
  }

  lemma OneMoreQueued(b: seq<Raw>, head: nat, count: nat)
    requires |b| == SLOTS && head < SLOTS && count <= COLLECTOR_QUEUE
    ensures Around(b, head, count + 1) == Around(b, head, count) + [b[Turned(head + count, SLOTS)]]
    ensures Around(b, Turned(head + 1, SLOTS), count) == Around(b, head, count + 1)[1..]
  {
    hide Turned, Around;
    AroundLength(b, head, count);
    AroundLength(b, head, count + 1);
    AroundDrops(b, head, count + 1, 1);
    AroundAt(b, head, count + 1, count);
    forall i | 0 <= i < count ensures Around(b, head, count + 1)[i] == Around(b, head, count)[i] {
      AroundAt(b, head, count + 1, i);
      AroundAt(b, head, count, i);
    }
  }

  lemma MadeJoins(part: Part, log: seq<Op>, starts: seq<nat>, queued: seq<Raw>, start: nat, raw: Raw)
    requires part.Valid() && raw.Valid() && AllMade(part, log, starts, queued) && Ordered(starts, start)
    requires start < |log| && MadeOfPass(part, log, start, raw, |part.steps|)
    ensures AllMade(part, log, starts + [start], queued + [raw]) && Ordered(starts + [start], |log|)
  {
    hide MadeOfPass;
  }

  /** The oldest gone, the rest are as they were, and all later than it. */
  lemma MadeLeaves(part: Part, log: seq<Op>, starts: seq<nat>, queued: seq<Raw>, before: nat)
    requires part.Valid() && queued != [] && AllMade(part, log, starts, queued) && Ordered(starts, before)
    ensures |starts| == |queued|
    ensures AllMade(part, log, starts[1..], queued[1..]) && Ordered(starts[1..], before)
    ensures queued[0].Valid() && MadeOfPass(part, log, starts[0], queued[0], |part.steps|)
    ensures forall k :: k in starts[1..] ==> starts[0] < k
  {
    hide MadeOfPass;
  }

  lemma NothingMade(part: Part, log: seq<Op>, start: nat, raw: Raw)
    requires part.Valid() && raw.Valid()
    ensures MadeOfPass(part, log, start, raw, 0)
  {
  }

  lemma OrderedLater(starts: seq<nat>, before: nat, later: nat)
    requires Ordered(starts, before) && before <= later
    ensures Ordered(starts, later)
  {
  }
}
