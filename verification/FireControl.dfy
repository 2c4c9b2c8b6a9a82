/** When each pyro channel is pulsed (src/fire_control.c): first fires on their
    own triggers, re-fires on too fast a descent, a gap between channels, and a
    guard on what may be believed after a pulse. Channels are numbered from 0
    here and from 1 in a command. Heights and speeds are reals. */
module FireControl {
  import opened Words
  import opened Wrappers

  const CHARGE_GUARD_MS := 2000

  datatype Mode = ModeNone | Fallen | Agl | Speed | Delay

  datatype Plan = Plan(enabled: Two<bool>, mode: Two<Mode>, triggerM: Two<real>, triggerMs: Two<real>,
                       triggerDelayMs: Two<u32>, refireMs: Two<real>, emergencyMs: real,
                       refireIntervalMs: u32, fireGapMs: u32)

  datatype Inputs = Inputs(nowMs: u32, apogeeDeclared: bool, apogeeMs: u32, stateKnown: bool, heightM: real,
                           speed: real, padRatio: real, peakM: real, pulseActive: bool)

  datatype Kind = KindNone | First | Refire | Emergency

  datatype Command = Command(channel: nat, kind: Kind)

  datatype Channel = Channel(fired: bool, pulses: nat, lastPulseMs: u32, lastPulseEndMs: u32, pulseEnded: bool)

  /** What was believed when a pulse was last given, and when. */
  datatype Guard = Guard(on: bool, fromMs: u32, heightM: real, speed: real)

  datatype State = State(channel: Two<Channel>, activeChannel: nat, guard: Guard)

  datatype Believed = Believed(heightM: real, speed: real)

  const RESET: State :=
    State(Two(Channel(false, 0, 0, 0, false), Channel(false, 0, 0, 0, false)), 0, Guard(false, 0, 0.0, 0.0))

  /* ---- The charge guard ---- */

  function Seconds(ms: int): real {
    ms as real / 1000.0
  }

  function FallSpeed(speed: real, dt: real): real {
    speed - 9.80665 * dt
  }

  function FallHeight(heightM: real, speed: real, dt: real): real {
    heightM + speed * dt - 0.5 * 9.80665 * dt * dt
  }

  function AtLeast(x: real, floor: real): real {
    if x < floor then floor else x
  }

  predicate GuardRunning(g: Guard, nowMs: u32) {
    g.on && Sub(nowMs, g.fromMs) < CHARGE_GUARD_MS
  }

  function BelievedState(g: Guard, inputs: Inputs): Believed {
    if !GuardRunning(g, inputs.nowMs) then Believed(inputs.heightM, inputs.speed)
    else
      var dt := Seconds(Sub(inputs.nowMs, g.fromMs));
      Believed(AtLeast(inputs.heightM, FallHeight(g.heightM, g.speed, dt)),
               AtLeast(inputs.speed, FallSpeed(g.speed, dt)))
  }

  function DescentMs(b: Believed): real {
    -b.speed
  }

  /* ---- What each channel is owed ---- */

  predicate TriggerMet(plan: Plan, i: nat, inputs: Inputs, b: Believed) {
    match plan.mode.At(i)
    case Delay => Sub(inputs.nowMs, inputs.apogeeMs) >= plan.triggerDelayMs.At(i)
    case Agl => inputs.stateKnown && b.heightM <= plan.triggerM.At(i)
    case Fallen => inputs.stateKnown && b.heightM <= inputs.peakM - plan.triggerM.At(i)
    case Speed => inputs.stateKnown && DescentMs(b) >= plan.triggerMs.At(i)
    case ModeNone => false
  }

  predicate IntervalPassed(c: Channel, plan: Plan, nowMs: u32) {
    Sub(nowMs, c.lastPulseMs) >= plan.refireIntervalMs
  }

  function Owed(s: State, plan: Plan, i: nat, inputs: Inputs): Kind {
    var b := BelievedState(s.guard, inputs);
    var descentMs := DescentMs(b) * inputs.padRatio;
    var c := s.channel.At(i);
    if !plan.enabled.At(i) || !inputs.apogeeDeclared then KindNone
    else
      var emergency := inputs.stateKnown && plan.emergencyMs > 0.0 && descentMs >= plan.emergencyMs;
      if !c.fired then
        if emergency then Emergency else if TriggerMet(plan, i, inputs, b) then First else KindNone
      else if !IntervalPassed(c, plan, inputs.nowMs) then KindNone
      else if emergency then Emergency
      else if inputs.stateKnown && plan.refireMs.At(i) > 0.0 && descentMs > plan.refireMs.At(i) then Refire
      else KindNone
  }

  /* ---- Whose turn ---- */

  /** The channel served, of those owed: one that has never fired if there is one,
      else the one whose last pulse is the older; pyro 1 if neither decides. */
  function FirstInLine(s: State, owes: Two<Kind>): Option<nat> {
    if owes.zero == KindNone then (if owes.one == KindNone then None else Some(1))
    else if owes.one == KindNone then Some(0)
    else
      var c0, c1 := s.channel.zero, s.channel.one;
      if !c0.fired then Some(0)
      else if !c1.fired then Some(1)
      else if Signed(Sub(c1.lastPulseMs, c0.lastPulseMs)) >= 0 then Some(0)
      else Some(1)
  }

  function OtherOf(i: nat): nat {
    if i == 0 then 1 else 0
  }

  predicate GapPassed(s: State, plan: Plan, i: nat, nowMs: u32) {
    var other := s.channel.At(OtherOf(i));
    !other.fired || (other.pulseEnded && Sub(nowMs, other.lastPulseEndMs) >= plan.fireGapMs)
  }

  function EndNoted(s: State, inputs: Inputs): State {
    if s.activeChannel == 0 || inputs.pulseActive then s
    else
      var i := s.activeChannel - 1;
      s.(channel := s.channel.With(i, s.channel.At(i).(lastPulseEndMs := inputs.nowMs, pulseEnded := true)),
         activeChannel := 0)
  }

  /** The command for a state whose pulse's end, if any, is noted. */
  function Decide(s: State, plan: Plan, inputs: Inputs): Command {
    if inputs.pulseActive then Command(0, KindNone)
    else
      var owes := Two(Owed(s, plan, 0, inputs), Owed(s, plan, 1, inputs));
      match FirstInLine(s, owes)
      case None => Command(0, KindNone)
      case Some(i) => if GapPassed(s, plan, i, inputs.nowMs) then Command(i + 1, owes.At(i)) else Command(0, KindNone)
  }

  function PulseStarted(s: State, channel: nat, inputs: Inputs): State {
    if channel != 1 && channel != 2 then s
    else
      var b := BelievedState(s.guard, inputs);
      var c := s.channel.At(channel - 1);
      State(s.channel.With(channel - 1, c.(fired := true, pulses := (c.pulses + 1) % 0x1_0000,
                                           lastPulseMs := inputs.nowMs, pulseEnded := false)),
            channel,
            Guard(true, inputs.nowMs, b.heightM, if b.speed < 0.0 then b.speed else 0.0))
  }

  /** fire_state_t, and the calls that change it. */
  class FireControl {
    var channel: Two<Channel>
    var activeChannel: nat
    var guard: Guard

    function View(): State
      reads this
    {
      State(channel, activeChannel, guard)
    }

    constructor ()
      ensures View() == RESET
    {
      channel := RESET.channel;
      activeChannel := 0;
      guard := RESET.guard;
    }

    method NotePulseEnd(inputs: Inputs)
      modifies this
      ensures View() == EndNoted(old(View()), inputs)
    {
      if activeChannel == 0 || inputs.pulseActive {
        return;
      }
      var i := activeChannel - 1;
      var c := channel.At(i);
      channel := channel.With(i, c.(lastPulseEndMs := inputs.nowMs, pulseEnded := true));
      activeChannel := 0;
    }

    method Step(plan: Plan, inputs: Inputs) returns (command: Command)
      modifies this
      ensures View() == EndNoted(old(View()), inputs)
      ensures command == Decide(View(), plan, inputs)
    {
      var none := Command(0, KindNone);
      NotePulseEnd(inputs);
      if inputs.pulseActive {
        return none;
      }
      var s := View();
      var owes := Two(Owed(s, plan, 0, inputs), Owed(s, plan, 1, inputs));
      var i := FirstInLine(s, owes);
      if i.None? || !GapPassed(s, plan, i.value, inputs.nowMs) {
        return none;
      }
      return Command(i.value + 1, owes.At(i.value));
    }

    method NoteStarted(which: nat, inputs: Inputs)
      modifies this
      ensures View() == PulseStarted(old(View()), which, inputs)
    {
      if which != 1 && which != 2 {
        return;
      }
      var c := channel.At(which - 1);
      var b := BelievedState(guard, inputs);
      guard := Guard(true, inputs.nowMs, b.heightM, if b.speed < 0.0 then b.speed else 0.0);
      channel := channel.With(which - 1, c.(fired := true, pulses := (c.pulses + 1) % 0x1_0000,
                                            lastPulseMs := inputs.nowMs, pulseEnded := false));
      activeChannel := which;
    }
  }

  /* ---- The charge guard over a chain of pulses ---- */

  /** A call the flight makes, at a true time. */
  datatype Call = StepCall(t: int, inputs: Inputs) | PulseCall(t: int, inputs: Inputs, channel: nat)

  predicate Clocked(c: Call) {
    c.inputs.nowMs == Wrap(c.t)
  }

  function Called(s: State, c: Call): State {
    match c
    case StepCall(_, inputs) => EndNoted(s, inputs)
    case PulseCall(_, inputs, channel) => PulseStarted(s, channel, inputs)
  }

  function AfterCalls(s: State, calls: seq<Call>): State {
    if calls == [] then s else Called(AfterCalls(s, calls[..|calls| - 1]), calls[|calls| - 1])
  }

  /** The time of the newest pulse, the chain's first at first. */
  function GuardTime(first: int, calls: seq<Call>): int {
    if calls == [] then first
    else
      var c := calls[|calls| - 1];
      if c.PulseCall? && (c.channel == 1 || c.channel == 2) then c.t else GuardTime(first, calls[..|calls| - 1])
  }

  /** Calls in order of time, each pulse while the guard of the one before it
      still runs. */
  predicate Chain(s: State, first: int, calls: seq<Call>) {
    calls == []
    || (var init, c := calls[..|calls| - 1], calls[|calls| - 1];
        && Chain(s, first, init)
        && Clocked(c)
        && (if init == [] then first else init[|init| - 1].t) <= c.t
        && (c.PulseCall? ==> c.t - GuardTime(first, init) < CHARGE_GUARD_MS))
  }

  /** The guard is no lower and no faster than free fall from b at time first. */
  predicate Above(g: Guard, at: int, b: Believed, first: int) {
    && g.on && g.fromMs == Wrap(at) && first <= at
    && g.speed >= FallSpeed(b.speed, Seconds(at - first))
    && g.heightM >= FallHeight(b.heightM, b.speed, Seconds(at - first))
  }

  lemma FallComposes(h: real, v: real, s: real, t: real, h': real, v': real)
    requires t >= 0.0 && v' >= FallSpeed(v, s) && h' >= FallHeight(h, v, s)
    ensures FallSpeed(v', t) >= FallSpeed(v, s + t)
    ensures FallHeight(h', v', t) >= FallHeight(h, v, s + t)
  {
    assert (v' - (v - 9.80665 * s)) * t >= 0.0;
    assert (v' - (v - 9.80665 * s)) * t == v' * t - v * t + 9.80665 * s * t;
    assert h + v * (s + t) - 0.5 * 9.80665 * (s + t) * (s + t)
        == (h + v * s - 0.5 * 9.80665 * s * s) + v * t - 9.80665 * s * t - 0.5 * 9.80665 * t * t;
  }

  lemma SecondsAdd(a: int, b: int)
    ensures Seconds(a + b) == Seconds(a) + Seconds(b)
    ensures a >= 0 ==> Seconds(a) >= 0.0
  {
  }

  /** While the guard runs, what is believed is not below that fall either. */
  lemma BelievedIsAbove(g: Guard, at: int, b: Believed, first: int, inputs: Inputs, t: int)
    requires Above(g, at, b, first) && inputs.nowMs == Wrap(t) && at <= t < at + CHARGE_GUARD_MS
    ensures BelievedState(g, inputs).speed >= FallSpeed(b.speed, Seconds(t - first))
    ensures BelievedState(g, inputs).heightM >= FallHeight(b.heightM, b.speed, Seconds(t - first))
  {
    ElapsedIsTrue(at, t);
    SecondsAdd(at - first, t - at);
    FallComposes(b.heightM, b.speed, Seconds(at - first), Seconds(t - at), g.heightM, g.speed);
  }

  lemma FallStaysDown(v: real, dt: real)
    requires v <= 0.0 && dt >= 0.0
    ensures FallSpeed(v, dt) <= 0.0
  {
  }

  lemma {:induction false} ChainStaysAbove(s: State, first: int, b: Believed, calls: seq<Call>)
    requires Above(s.guard, first, b, first) && b.speed <= 0.0 && Chain(s, first, calls)
    ensures var at := GuardTime(first, calls);
            && Above(AfterCalls(s, calls).guard, at, b, first)
            && at <= (if calls == [] then first else calls[|calls| - 1].t)
  {
    if calls != [] {
      var init, c := calls[..|calls| - 1], calls[|calls| - 1];
      ChainStaysAbove(s, first, b, init);
      if c.PulseCall? && (c.channel == 1 || c.channel == 2) {
        var at := GuardTime(first, init);
        BelievedIsAbove(AfterCalls(s, init).guard, at, b, first, c.inputs, c.t);
        SecondsAdd(c.t - first, 0);
        FallStaysDown(b.speed, Seconds(c.t - first));
      }
    }
  }

  /** No rule is met that this height and speed would not meet: of height or
      speed for a first fire, of speed for a re-fire or an emergency one. */
  predicate MetByTheFall(s: State, plan: Plan, i: nat, inputs: Inputs, fall: Believed) {
    var now, owed := BelievedState(s.guard, inputs), Owed(s, plan, i, inputs);
    && (TriggerMet(plan, i, inputs, now) ==>
          match plan.mode.At(i)
          case Agl => fall.heightM <= plan.triggerM.At(i)
          case Fallen => fall.heightM <= inputs.peakM - plan.triggerM.At(i)
          case Speed => -fall.speed >= plan.triggerMs.At(i)
          case _ => true)
    && (owed == Refire ==> -fall.speed * inputs.padRatio > plan.refireMs.At(i))
    && (owed == Emergency ==> -fall.speed * inputs.padRatio >= plan.emergencyMs)
  }

  lemma FallMeets(s: State, plan: Plan, i: nat, inputs: Inputs, fall: Believed)
    requires inputs.padRatio >= 0.0
    requires var now := BelievedState(s.guard, inputs); now.speed >= fall.speed && now.heightM >= fall.heightM
    ensures MetByTheFall(s, plan, i, inputs, fall)
  {
    hide BelievedState;
    Scaled(-BelievedState(s.guard, inputs).speed, -fall.speed, inputs.padRatio);
  }

  lemma Scaled(x: real, y: real, k: real)
    requires x <= y && k >= 0.0
    ensures x * k <= y * k
  {
    assert (y - x) * k >= 0.0;
  }

  /** Free fall for a time, its speed capped at zero when it begins. */
  function Fall(b: Believed, dt: real): Believed {
    var v := if b.speed < 0.0 then b.speed else 0.0;
    Believed(FallHeight(b.heightM, v, dt), FallSpeed(v, dt))
  }

  /** Through any chain of pulses, each while the guard of the one before it
      runs, with any steps between, and until the last one's guard ends: whatever
      the sensor says, the believed state stays on or above the fall from what was
      believed at the chain's first pulse, its speed capped at zero.
      So no rule of height or speed, for a first fire, a re-fire or an emergency
      one, is met before that fall would meet it. */
  lemma GuardHoldsThroughChain(s: State, channel: nat, pulse: Inputs, first: int, calls: seq<Call>,
                               plan: Plan, i: nat, inputs: Inputs, t: int)
    requires (channel == 1 || channel == 2) && pulse.nowMs == Wrap(first)
    requires Chain(PulseStarted(s, channel, pulse), first, calls)
    requires inputs.nowMs == Wrap(t) && (if calls == [] then first else calls[|calls| - 1].t) <= t
    requires t - GuardTime(first, calls) < CHARGE_GUARD_MS
    ensures var fall := Fall(BelievedState(s.guard, pulse), Seconds(t - first));
            var after := AfterCalls(PulseStarted(s, channel, pulse), calls);
            && BelievedState(after.guard, inputs).speed >= fall.speed
            && BelievedState(after.guard, inputs).heightM >= fall.heightM
            && (inputs.padRatio >= 0.0 ==> MetByTheFall(after, plan, i, inputs, fall))
  {
    hide MetByTheFall;
    var s' := PulseStarted(s, channel, pulse);
    var was := BelievedState(s.guard, pulse);
    var b := Believed(was.heightM, if was.speed < 0.0 then was.speed else 0.0);
    assert Seconds(0) == 0.0;
    ChainStaysAbove(s', first, b, calls);
    BelievedIsAbove(AfterCalls(s', calls).guard, GuardTime(first, calls), b, first, inputs, t);
    if inputs.padRatio >= 0.0 {
      FallMeets(AfterCalls(s', calls), plan, i, inputs, Fall(was, Seconds(t - first)));
    }
  }

  /* ---- Scheduling over whole runs ---- */

  /** A round of the flight at a true time: the end of a pulse is noted, a
      command decided, and a command given is carried out and reported back. */
  datatype Round = Round(t: int, inputs: Inputs)

  function AfterRound(s: State, plan: Plan, r: Round): State {
    var noted := EndNoted(s, r.inputs);
    PulseStarted(noted, Decide(noted, plan, r.inputs).channel, r.inputs)
  }

  function AfterRounds(plan: Plan, rounds: seq<Round>, n: nat): State
    requires n <= |rounds|
  {
    if n == 0 then RESET else AfterRound(AfterRounds(plan, rounds, n - 1), plan, rounds[n - 1])
  }

  /** What the n-th round commands. */
  function CommandAt(plan: Plan, rounds: seq<Round>, n: nat): Command
    requires n < |rounds|
  {
    Decide(NotedAt(plan, rounds, n), plan, rounds[n].inputs)
  }

  function NotedAt(plan: Plan, rounds: seq<Round>, n: nat): State
    requires n < |rounds|
  {
    EndNoted(AfterRounds(plan, rounds, n), rounds[n].inputs)
  }

  predicate OwedAt(plan: Plan, rounds: seq<Round>, n: nat, i: nat)
    requires n < |rounds|
  {
    Owed(NotedAt(plan, rounds, n), plan, i, rounds[n].inputs) != KindNone
  }

  /** When a channel's newest pulse before round n was commanded, and when its
      end was last seen, in true time. */
  function StartedAt(plan: Plan, rounds: seq<Round>, n: nat, i: nat): int
    requires n <= |rounds|
  {
    if n == 0 then 0
    else if CommandAt(plan, rounds, n - 1).channel == i + 1 then rounds[n - 1].t
    else StartedAt(plan, rounds, n - 1, i)
  }

  function EndedAt(plan: Plan, rounds: seq<Round>, n: nat, i: nat): int
    requires n <= |rounds|
  {
    if n == 0 then 0
    else if AfterRounds(plan, rounds, n - 1).activeChannel == i + 1 && !rounds[n - 1].inputs.pulseActive then
      rounds[n - 1].t
    else EndedAt(plan, rounds, n - 1, i)
  }

  /** Time never goes backwards, and the run is shorter than half a turn of the
      timer. */
  predicate InTime(rounds: seq<Round>) {
    && (forall i :: 0 <= i < |rounds| ==> rounds[i].inputs.nowMs == Wrap(rounds[i].t))
    && (forall i, j :: 0 <= i <= j < |rounds| ==> 0 <= rounds[j].t - rounds[i].t < HALF_TURN)
  }

  /** A channel's words are its times. */
  predicate ChannelInv(s: State, i: nat, started: int, ended: int, from: int, now: int) {
    var c := s.channel.At(i);
    && (c.fired ==> c.lastPulseMs == Wrap(started) && from <= started <= now)
    && (c.pulseEnded ==> c.lastPulseEndMs == Wrap(ended) && started <= ended <= now)
    && (c.fired && !c.pulseEnded ==> s.activeChannel == i + 1)
    && (s.activeChannel == i + 1 ==> c.fired && !c.pulseEnded)
    && s.activeChannel <= 2
  }

  lemma RoundKeepsChannel(s: State, plan: Plan, r: Round, i: nat, started: int, ended: int, from: int, now: int)
    requires i < 2 && ChannelInv(s, i, started, ended, from, now) && from <= now <= r.t && r.inputs.nowMs == Wrap(r.t)
    ensures var ended' := if s.activeChannel == i + 1 && !r.inputs.pulseActive then r.t else ended;
            var noted := EndNoted(s, r.inputs);
            && ChannelInv(noted, i, started, ended', from, r.t)
            && ChannelInv(AfterRound(s, plan, r), i,
                          if Decide(noted, plan, r.inputs).channel == i + 1 then r.t else started, ended', from, r.t)
  {
    var noted := EndNoted(s, r.inputs);
    var which := Decide(noted, plan, r.inputs).channel;
    assert which > 0 ==> noted.activeChannel == 0;
  }

  lemma {:induction false} RoundsKeepChannel(plan: Plan, rounds: seq<Round>, n: nat, i: nat)
    requires InTime(rounds) && 0 < n <= |rounds| && i < 2
    ensures ChannelInv(AfterRounds(plan, rounds, n), i, StartedAt(plan, rounds, n, i), EndedAt(plan, rounds, n, i),
                       rounds[0].t, rounds[n - 1].t)
  {
    var s, r := AfterRounds(plan, rounds, n - 1), rounds[n - 1];
    if n == 1 {
      RoundKeepsChannel(s, plan, r, i, 0, 0, r.t, r.t);
    } else {
      RoundsKeepChannel(plan, rounds, n - 1, i);
      RoundKeepsChannel(s, plan, r, i, StartedAt(plan, rounds, n - 1, i), EndedAt(plan, rounds, n - 1, i),
                        rounds[0].t, rounds[n - 2].t);
    }
  }

  lemma NotedInv(plan: Plan, rounds: seq<Round>, n: nat, i: nat)
    requires InTime(rounds) && n < |rounds| && i < 2
    ensures ChannelInv(NotedAt(plan, rounds, n), i, StartedAt(plan, rounds, n, i), EndedAt(plan, rounds, n + 1, i),
                       rounds[0].t, rounds[n].t)
  {
    var s, r := AfterRounds(plan, rounds, n), rounds[n];
    if n == 0 {
      RoundKeepsChannel(s, plan, r, i, 0, 0, r.t, r.t);
    } else {
      RoundsKeepChannel(plan, rounds, n, i);
      RoundKeepsChannel(s, plan, r, i, StartedAt(plan, rounds, n, i), EndedAt(plan, rounds, n, i),
                        rounds[0].t, rounds[n - 1].t);
    }
  }

  /** Every command of every run: to an enabled channel that is owed a pulse,
      after apogee, with no pulse active; the other channel, if it has fired, has
      been seen to end the gap before or earlier; and the channel's own last
      pulse began the interval before or earlier. */
  lemma CommandsAreSpaced(plan: Plan, rounds: seq<Round>, n: nat)
    requires InTime(rounds) && n < |rounds| && CommandAt(plan, rounds, n).channel != 0
    ensures var i := CommandAt(plan, rounds, n).channel - 1;
            var j, s, r := OtherOf(i), NotedAt(plan, rounds, n), rounds[n];
            && i < 2 && OwedAt(plan, rounds, n, i)
            && plan.enabled.At(i) && r.inputs.apogeeDeclared && !r.inputs.pulseActive
            && (s.channel.At(j).fired ==>
                  && s.channel.At(j).pulseEnded
                  && StartedAt(plan, rounds, n, j) <= EndedAt(plan, rounds, n + 1, j)
                  && r.t - EndedAt(plan, rounds, n + 1, j) >= plan.fireGapMs)
            && (s.channel.At(i).fired ==> r.t - StartedAt(plan, rounds, n, i) >= plan.refireIntervalMs)
  {
    var i := CommandAt(plan, rounds, n).channel - 1;
    var j := OtherOf(i);
    NotedInv(plan, rounds, n, i);
    NotedInv(plan, rounds, n, j);
    var s := NotedAt(plan, rounds, n);
    if s.channel.At(j).fired && s.channel.At(j).pulseEnded {
      ElapsedIsTrue(EndedAt(plan, rounds, n + 1, j), rounds[n].t);
    }
    if s.channel.At(i).fired {
      ElapsedIsTrue(StartedAt(plan, rounds, n, i), rounds[n].t);
    }
  }

  lemma {:induction false} FiredStays(plan: Plan, rounds: seq<Round>, a: nat, b: nat, i: nat)
    requires a <= b <= |rounds| && i < 2
    ensures AfterRounds(plan, rounds, a).channel.At(i).fired ==> AfterRounds(plan, rounds, b).channel.At(i).fired
    ensures (forall k :: a <= k < b ==> CommandAt(plan, rounds, k).channel != i + 1) ==>
              && AfterRounds(plan, rounds, b).channel.At(i).fired == AfterRounds(plan, rounds, a).channel.At(i).fired
              && StartedAt(plan, rounds, b, i) == StartedAt(plan, rounds, a, i)
    decreases b - a
  {
    hide AfterRound, Decide, EndNoted;
    if a < b {
      FiredStays(plan, rounds, a, b - 1, i);
      assert CommandAt(plan, rounds, b - 1) == Decide(NotedAt(plan, rounds, b - 1), plan, rounds[b - 1].inputs);
      RoundKeepsFired(AfterRounds(plan, rounds, b - 1), plan, rounds[b - 1], i);
    }
  }

  lemma RoundKeepsFired(s: State, plan: Plan, r: Round, i: nat)
    requires i < 2
    ensures s.channel.At(i).fired ==> AfterRound(s, plan, r).channel.At(i).fired
    ensures Decide(EndNoted(s, r.inputs), plan, r.inputs).channel != i + 1 ==>
              AfterRound(s, plan, r).channel.At(i).fired == s.channel.At(i).fired
  {
    hide Decide;
  }

  lemma {:induction false} StartedGrows(plan: Plan, rounds: seq<Round>, a: nat, b: nat, i: nat)
    requires InTime(rounds) && a < b <= |rounds| && i < 2 && CommandAt(plan, rounds, a).channel == i + 1
    ensures AfterRounds(plan, rounds, b).channel.At(i).fired && StartedAt(plan, rounds, b, i) >= rounds[a].t
    decreases b - a
  {
    hide AfterRound, Decide, EndNoted;
    if a + 1 < b {
      StartedGrows(plan, rounds, a, b - 1, i);
      RoundKeepsFired(AfterRounds(plan, rounds, b - 1), plan, rounds[b - 1], i);
    } else {
      CommandFires(AfterRounds(plan, rounds, a), plan, rounds[a], i);
    }
  }

  lemma CommandFires(s: State, plan: Plan, r: Round, i: nat)
    requires i < 2 && Decide(EndNoted(s, r.inputs), plan, r.inputs).channel == i + 1
    ensures AfterRound(s, plan, r).channel.At(i).fired
  {
    hide Decide;
  }

  /** Any two commands of a run: of the same channel, they begin the interval
      apart or more; of different ones, the earlier pulse is seen to end between
      them, the gap or more before the later begins. */
  lemma AnyTwoAreSpaced(plan: Plan, rounds: seq<Round>, a: nat, b: nat)
    requires InTime(rounds) && a < b < |rounds|
    requires CommandAt(plan, rounds, a).channel != 0 && CommandAt(plan, rounds, b).channel != 0
    ensures var i, j := CommandAt(plan, rounds, a).channel - 1, CommandAt(plan, rounds, b).channel - 1;
            && (i == j ==> rounds[b].t - rounds[a].t >= plan.refireIntervalMs)
            && (i != j ==> var ended := EndedAt(plan, rounds, b + 1, i);
                  rounds[a].t <= ended && rounds[b].t - ended >= plan.fireGapMs)
  {
    hide Decide, AfterRound;
    CommandsAreSpaced(plan, rounds, a);
    CommandsAreSpaced(plan, rounds, b);
    StartedGrows(plan, rounds, a, b, CommandAt(plan, rounds, a).channel - 1);
  }

  /** Of two channels owed a pulse, the one that has not fired, or has waited
      longer, goes. */
  lemma LongerWaitGoes(s: State, owes: Two<Kind>, i: nat, si: int, sj: int)
    requires i < 2 && owes.zero != KindNone && owes.one != KindNone
    requires var ci, cj := s.channel.At(i), s.channel.At(OtherOf(i));
             cj.fired && (ci.fired ==> ci.lastPulseMs == Wrap(si) && cj.lastPulseMs == Wrap(sj))
    requires si < sj < si + HALF_TURN
    ensures FirstInLine(s, owes) == Some(i)
  {
    OrderIsTrue(si, sj);
  }

  /** With a gap, a channel that is owed a pulse when the other is given one,
      and still owed its own later, is not passed over by the other again. */
  lemma OvertakenOnce(plan: Plan, rounds: seq<Round>, a: nat, b: nat, i: nat)
    requires InTime(rounds) && a < b < |rounds| && i < 2 && plan.fireGapMs > 0
    requires OwedAt(plan, rounds, a, i) && CommandAt(plan, rounds, a).channel == OtherOf(i) + 1
    requires forall k :: a < k < b ==> CommandAt(plan, rounds, k).channel != i + 1
    requires OwedAt(plan, rounds, b, i)
    ensures CommandAt(plan, rounds, b).channel != OtherOf(i) + 1
  {
    var j := OtherOf(i);
    var s, r := NotedAt(plan, rounds, b), rounds[b];
    WaitedLonger(plan, rounds, a, b, i);
    var owes := Two(Owed(s, plan, 0, r.inputs), Owed(s, plan, 1, r.inputs));
    if owes.At(j) != KindNone {
      var si, sj := StartedAt(plan, rounds, b, i), StartedAt(plan, rounds, b, j);
      LongerWaitGoes(s, owes, i, if s.channel.At(i).fired then si else sj - 1, sj);
    }
  }

  lemma WaitedLonger(plan: Plan, rounds: seq<Round>, a: nat, b: nat, i: nat)
    requires InTime(rounds) && a < b < |rounds| && i < 2 && plan.fireGapMs > 0
    requires CommandAt(plan, rounds, a).channel == OtherOf(i) + 1
    requires forall k :: a < k < b ==> CommandAt(plan, rounds, k).channel != i + 1
    ensures var ci, cj := NotedAt(plan, rounds, b).channel.At(i), NotedAt(plan, rounds, b).channel.At(OtherOf(i));
            var si, sj := StartedAt(plan, rounds, b, i), StartedAt(plan, rounds, b, OtherOf(i));
            && cj.fired
            && (ci.fired ==> ci.lastPulseMs == Wrap(si) && cj.lastPulseMs == Wrap(sj) && si < sj < si + HALF_TURN)
  {
    var j := OtherOf(i);
    StartedGrows(plan, rounds, a, b, j);
    FiredStays(plan, rounds, a + 1, b, i);
    NotedInv(plan, rounds, b, i);
    NotedInv(plan, rounds, b, j);
    CommandsAreSpaced(plan, rounds, a);
  }

  lemma OrderIsTrue(a: int, b: int)
    requires a < b < a + HALF_TURN
    ensures Signed(Sub(Wrap(b), Wrap(a))) >= 0 && Signed(Sub(Wrap(a), Wrap(b))) < 0
  {
    SignedIsTrue(a, b);
    SignedIsTrue(b, a);
  }

  /* ---- When time goes backwards ---- */

  /** A difference of two words, their times less than half a turn apart either
      way, is what has passed, or, time having gone back, more than half a turn. */
  lemma DifferenceMeans(from: int, now: int)
    requires -HALF_TURN <= now - from < HALF_TURN
    ensures Sub(Wrap(now), Wrap(from)) == now - from + (if now < from then TURN else 0)
  {
    if from <= now {
      ElapsedIsTrue(from, now);
    } else {
      SubWraps(from, now);
      WrapUnique(now - from, now - from + TURN, -1);
    }
  }

  /** The test of the re-fire interval, of any interval up to half a turn. */
  lemma IntervalTestMeans(c: Channel, plan: Plan, started: int, now: int)
    requires c.lastPulseMs == Wrap(started)
    requires -HALF_TURN <= now - started < HALF_TURN && 0 < plan.refireIntervalMs <= HALF_TURN
    ensures IntervalPassed(c, plan, Wrap(now)) <==> now < started || now - started >= plan.refireIntervalMs
    ensures (IntervalPassed(c, plan, Wrap(now)) <==> now - started >= plan.refireIntervalMs) <==> started <= now
  {
    DifferenceMeans(started, now);
  }

  /** The test of the charge guard: it runs for its time after the pulse, and,
      time having gone back behind the pulse, not at all. */
  lemma GuardTestMeans(g: Guard, from: int, now: int)
    requires g.on && g.fromMs == Wrap(from) && -HALF_TURN <= now - from < HALF_TURN
    ensures GuardRunning(g, Wrap(now)) <==> from <= now < from + CHARGE_GUARD_MS
    ensures (GuardRunning(g, Wrap(now)) <==> now - from < CHARGE_GUARD_MS) <==> from <= now
  {
    DifferenceMeans(from, now);
  }

  /** It does go back: a pulse with no sample is given the loop's time, and the
      next sample's own time may be behind it. Channel 1, fired at 1000 with a
      re-fire interval of a minute, is fired again by a sample from 999, which is
      believed as it stands. */
  lemma SampleBehindPulseFiresAgain()
    ensures var plan := Plan(Two(true, false), Two(Delay, ModeNone), Two(0.0, 0.0), Two(0.0, 0.0), Two(0, 0),
                             Two(20.0, 0.0), 0.0, 60_000, 1_000);
            var loop := Inputs(1_000, true, 1_000, false, 100.0, 0.0, 1.0, 100.0, false);
            var sample := Inputs(999, true, 1_000, true, 100.0, -30.0, 1.0, 100.0, false);
            var rounds := [Round(1_000, loop), Round(999, sample)];
            && CommandAt(plan, rounds, 0) == Command(1, First)
            && CommandAt(plan, rounds, 1) == Command(1, Refire)
            && BelievedState(NotedAt(plan, rounds, 1).guard, sample) == Believed(100.0, -30.0)
  {
    var plan := Plan(Two(true, false), Two(Delay, ModeNone), Two(0.0, 0.0), Two(0.0, 0.0), Two(0, 0),
                     Two(20.0, 0.0), 0.0, 60_000, 1_000);
    var loop := Inputs(1_000, true, 1_000, false, 100.0, 0.0, 1.0, 100.0, false);
    var sample := Inputs(999, true, 1_000, true, 100.0, -30.0, 1.0, 100.0, false);
    var rounds := [Round(1_000, loop), Round(999, sample)];
    assert NotedAt(plan, rounds, 0) == RESET;
    var fired := PulseStarted(RESET, 1, loop);
    assert AfterRounds(plan, rounds, 1) == fired;
    DifferenceMeans(1_000, 999);
    assert NotedAt(plan, rounds, 1) == EndNoted(fired, sample);
  }

  /** With the other channel's end seen and any gap up to half a turn, the test
      of the gap is passed exactly when the gap has passed or time has gone
      back behind the end: so it means what it says if and only if it has not. */
  lemma GapTestMeans(s: State, plan: Plan, i: nat, ended: int, now: int)
    requires var o := s.channel.At(OtherOf(i)); o.fired && o.pulseEnded && o.lastPulseEndMs == Wrap(ended)
    requires -HALF_TURN <= now - ended < HALF_TURN && 0 < plan.fireGapMs <= HALF_TURN
    ensures GapPassed(s, plan, i, Wrap(now)) <==> now < ended || now - ended >= plan.fireGapMs
    ensures (GapPassed(s, plan, i, Wrap(now)) <==> now - ended >= plan.fireGapMs) <==> ended <= now
  {
    DifferenceMeans(ended, now);
  }
}
