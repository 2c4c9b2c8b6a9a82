/** What each round of a flight commands (src/fire_control.c), said of the rounds
    themselves: of what was commanded before and when, in true times; of the
    rounds that saw a pulse over; and of the heights and speeds believed, from the
    sensor's and from free fall. The state fire control keeps is not spoken of. */
module FireRounds {
  import opened Words
  import opened Wrappers
  import opened FireControl

  /** The newest round before the n-th to command channel i. */
  function Newest(plan: Plan, rounds: seq<Round>, n: nat, i: nat): (k: Option<nat>)
    requires n <= |rounds|
    ensures k.Some? ==> k.value < n && CommandAt(plan, rounds, k.value).channel == i + 1
    ensures forall m :: (if k.Some? then k.value + 1 else 0) <= m < n ==> CommandAt(plan, rounds, m).channel != i + 1
  {
    if n == 0 then None
    else if CommandAt(plan, rounds, n - 1).channel == i + 1 then Some(n - 1)
    else Newest(plan, rounds, n - 1, i)
  }

  /** The newest to command either. */
  function NewestOfAll(plan: Plan, rounds: seq<Round>, n: nat): (k: Option<nat>)
    requires n <= |rounds|
    ensures k.Some? ==> k.value < n && CommandAt(plan, rounds, k.value).channel != 0
    ensures forall m :: (if k.Some? then k.value + 1 else 0) <= m < n ==> CommandAt(plan, rounds, m).channel == 0
  {
    if n == 0 then None
    else if CommandAt(plan, rounds, n - 1).channel != 0 then Some(n - 1)
    else NewestOfAll(plan, rounds, n - 1)
  }

  /** The first round from the a-th, before the n-th, that sees no pulse active. */
  function FirstIdle(rounds: seq<Round>, a: nat, n: nat): (e: Option<nat>)
    requires n <= |rounds|
    ensures e.Some? ==> a <= e.value < n && !rounds[e.value].inputs.pulseActive
    ensures forall m :: a <= m < (if e.Some? then e.value else n) ==> rounds[m].inputs.pulseActive
    decreases n
  {
    if a >= n then None
    else if FirstIdle(rounds, a, n - 1).Some? then FirstIdle(rounds, a, n - 1)
    else if !rounds[n - 1].inputs.pulseActive then Some(n - 1)
    else None
  }

  function Larger(x: real, y: real): real {
    if x > y then x else y
  }

  /** What a round believes: the sensor's height and speed, but, for two seconds
      after a pulse, each at least what free fall since it makes of what was
      believed then, from rest or falling. */
  function Believes(plan: Plan, rounds: seq<Round>, n: nat): Believed
    requires n < |rounds|
    decreases n
  {
    var shown := rounds[n].inputs;
    var k := NewestOfAll(plan, rounds, n);
    if k.None? || rounds[n].t - rounds[k.value].t >= 2_000 then Believed(shown.heightM, shown.speed)
    else
      var from := Believes(plan, rounds, k.value);
      var down := Larger(-from.speed, 0.0);
      var dt := (rounds[n].t - rounds[k.value].t) as real / 1000.0;
      Believed(Larger(shown.heightM, from.heightM - down * dt - 9.80665 * dt * dt / 2.0),
               Larger(shown.speed, -down - 9.80665 * dt))
  }

  /* ---- The rules ---- */

  /** A channel's own event has come. */
  predicate EventCome(plan: Plan, i: nat, r: Round, apogee: int, b: Believed) {
    match plan.mode.At(i)
    case Delay => apogee + plan.triggerDelayMs.At(i) <= r.t
    case Agl => r.inputs.stateKnown && plan.triggerM.At(i) >= b.heightM
    case Fallen => r.inputs.stateKnown && r.inputs.peakM - b.heightM >= plan.triggerM.At(i)
    case Speed => r.inputs.stateKnown && b.speed <= -plan.triggerMs.At(i)
    case ModeNone => false
  }

  /** The descent in the pad's air is the emergency speed or more. */
  predicate EmergencySpeed(plan: Plan, r: Round, b: Believed) {
    plan.emergencyMs > 0.0 && r.inputs.stateKnown && plan.emergencyMs <= r.inputs.padRatio * -b.speed
  }

  predicate RefireSpeed(plan: Plan, i: nat, r: Round, b: Believed) {
    plan.refireMs.At(i) > 0.0 && r.inputs.stateKnown && plan.refireMs.At(i) < r.inputs.padRatio * -b.speed
  }

  /** A fire of this kind is due to the channel: before its first, by its event;
      after it, by the speed, the interval over; by the emergency speed in either
      case. None without it enabled, or before apogee. */
  predicate DueFor(plan: Plan, rounds: seq<Round>, apogee: int, n: nat, i: nat, kind: Kind)
    requires n < |rounds|
  {
    var r, b, k := rounds[n], Believes(plan, rounds, n), Newest(plan, rounds, n, i);
    && plan.enabled.At(i) && r.inputs.apogeeDeclared
    && (k.Some? ==> rounds[k.value].t + plan.refireIntervalMs <= r.t)
    && match kind
       case First => k.None? && !EmergencySpeed(plan, r, b) && EventCome(plan, i, r, apogee, b)
       case Refire => k.Some? && !EmergencySpeed(plan, r, b) && RefireSpeed(plan, i, r, b)
       case Emergency => EmergencySpeed(plan, r, b)
       case KindNone => false
  }

  predicate AnyDue(plan: Plan, rounds: seq<Round>, apogee: int, n: nat, i: nat)
    requires n < |rounds|
  {
    || DueFor(plan, rounds, apogee, n, i, First)
    || DueFor(plan, rounds, apogee, n, i, Refire)
    || DueFor(plan, rounds, apogee, n, i, Emergency)
  }

  /** A channel's newest pulse, if it had one, was seen over the gap ago or more. */
  predicate GapOver(plan: Plan, rounds: seq<Round>, n: nat, i: nat)
    requires n < |rounds|
  {
    var k := Newest(plan, rounds, n, i);
    k.Some? ==>
      var e := FirstIdle(rounds, k.value + 1, n + 1);
      e.Some? && rounds[e.value].t + plan.fireGapMs <= rounds[n].t
  }

  /** Both due: one never fired before one that was, else the one fired longer
      ago; the first channel if neither decides. */
  predicate GoesFirst(plan: Plan, rounds: seq<Round>, n: nat, i: nat)
    requires n < |rounds|
  {
    var k, o := Newest(plan, rounds, n, i), Newest(plan, rounds, n, OtherOf(i));
    if k.None? then o.Some? || i == 0
    else o.Some? && (rounds[k.value].t < rounds[o.value].t || (rounds[k.value].t == rounds[o.value].t && i == 0))
  }

  /** Apogee's time, once it is declared. */
  predicate ApogeeAt(r: Round, apogee: int) {
    r.inputs.apogeeDeclared ==> r.inputs.apogeeMs == Wrap(apogee) && apogee <= r.t < apogee + TURN
  }

  /* ---- The state they leave ---- */

  /** A channel as the commands before round n and the idle rounds before m leave it. */
  predicate ChannelIs(s: State, plan: Plan, rounds: seq<Round>, n: nat, m: nat, i: nat)
    requires n <= |rounds| && m <= |rounds|
  {
    var c, k := s.channel.At(i), Newest(plan, rounds, n, i);
    && (c.fired <==> k.Some?)
    && (if k.None? then s.activeChannel != i + 1
        else
          var e := FirstIdle(rounds, k.value + 1, m);
          && c.lastPulseMs == rounds[k.value].inputs.nowMs
          && (c.pulseEnded <==> e.Some?) && (s.activeChannel == i + 1 <==> e.None?)
          && (e.Some? ==> c.lastPulseEndMs == rounds[e.value].inputs.nowMs))
  }

  lemma NotedChannel(s: State, plan: Plan, rounds: seq<Round>, n: nat, i: nat)
    requires n < |rounds| && i < 2 && ChannelIs(s, plan, rounds, n, n, i) && s.activeChannel <= 2
    ensures ChannelIs(EndNoted(s, rounds[n].inputs), plan, rounds, n, n + 1, i)
    ensures EndNoted(s, rounds[n].inputs).activeChannel <= 2
    ensures !rounds[n].inputs.pulseActive ==> EndNoted(s, rounds[n].inputs).activeChannel == 0
  {
    hide CommandAt;
  }

  lemma CommandedChannel(s: State, plan: Plan, rounds: seq<Round>, n: nat, i: nat, which: nat)
    requires n < |rounds| && i < 2 && ChannelIs(s, plan, rounds, n, n + 1, i) && s.activeChannel <= 2
    requires which == CommandAt(plan, rounds, n).channel <= 2 && (which != 0 ==> s.activeChannel == 0)
    ensures ChannelIs(PulseStarted(s, which, rounds[n].inputs), plan, rounds, n + 1, n + 1, i)
    ensures PulseStarted(s, which, rounds[n].inputs).activeChannel <= 2
  {
    hide CommandAt, BelievedState;
  }

  /** A command is for one of the channels and of a kind, or is none of any, and is
      not given while a pulse is active. */
  lemma CommandShape(plan: Plan, rounds: seq<Round>, n: nat)
    requires n < |rounds|
    ensures var c := CommandAt(plan, rounds, n);
            && c.channel <= 2 && (c.channel == 0 <==> c.kind == KindNone)
            && (c.channel != 0 ==> !rounds[n].inputs.pulseActive)
  {
    hide Owed, GapPassed, EndNoted;
  }

  lemma {:induction false} ChannelsAre(plan: Plan, rounds: seq<Round>, n: nat, i: nat)
    requires n <= |rounds| && i < 2
    ensures ChannelIs(AfterRounds(plan, rounds, n), plan, rounds, n, n, i)
    ensures AfterRounds(plan, rounds, n).activeChannel <= 2
  {
    hide Decide, ChannelIs, EndNoted, PulseStarted;
    if n == 0 {
      StartIs(plan, rounds, i);
    } else {
      ChannelsAre(plan, rounds, n - 1, i);
      NotedChannel(AfterRounds(plan, rounds, n - 1), plan, rounds, n - 1, i);
      CommandShape(plan, rounds, n - 1);
      CommandedChannel(NotedAt(plan, rounds, n - 1), plan, rounds, n - 1, i, CommandAt(plan, rounds, n - 1).channel);
    }
  }

  lemma StartIs(plan: Plan, rounds: seq<Round>, i: nat)
    requires i < 2
    ensures ChannelIs(RESET, plan, rounds, 0, 0, i)
  {
  }

  /** The guard as the newest command leaves it. */
  predicate GuardIs(g: Guard, plan: Plan, rounds: seq<Round>, n: nat)
    requires n <= |rounds|
  {
    var k := NewestOfAll(plan, rounds, n);
    && (g.on <==> k.Some?)
    && (k.Some? ==>
          var b := Believes(plan, rounds, k.value);
          g == Guard(true, rounds[k.value].inputs.nowMs, b.heightM, if b.speed < 0.0 then b.speed else 0.0))
  }

  lemma Freefall(h: real, v: real, dt: real)
    ensures FallSpeed(v, dt) == -(-v) - 9.80665 * dt
    ensures FallHeight(h, v, dt) == h - (-v) * dt - 9.80665 * dt * dt / 2.0
  {
  }

  lemma GuardBelieves(g: Guard, plan: Plan, rounds: seq<Round>, n: nat)
    requires InTime(rounds) && n < |rounds| && GuardIs(g, plan, rounds, n)
    ensures BelievedState(g, rounds[n].inputs) == Believes(plan, rounds, n)
  {
    hide CommandAt, FallSpeed, FallHeight;
    var k := NewestOfAll(plan, rounds, n);
    if k.Some? {
      var b, dt := Believes(plan, rounds, k.value), Seconds(rounds[n].t - rounds[k.value].t);
      ElapsedIsTrue(rounds[k.value].t, rounds[n].t);
      Freefall(b.heightM, if b.speed < 0.0 then b.speed else 0.0, dt);
    }
  }

  lemma {:induction false} GuardsAre(plan: Plan, rounds: seq<Round>, n: nat)
    requires InTime(rounds) && n <= |rounds|
    ensures GuardIs(AfterRounds(plan, rounds, n).guard, plan, rounds, n)
  {
    hide Decide, BelievedState, Believes;
    if n > 0 {
      GuardsAre(plan, rounds, n - 1);
      CommandShape(plan, rounds, n - 1);
      GuardBelieves(AfterRounds(plan, rounds, n - 1).guard, plan, rounds, n - 1);
    }
  }

  /** What fire control goes by is what the rounds believe. */
  lemma BelievedExactly(plan: Plan, rounds: seq<Round>, n: nat)
    requires InTime(rounds) && n < |rounds|
    ensures BelievedState(NotedAt(plan, rounds, n).guard, rounds[n].inputs) == Believes(plan, rounds, n)
  {
    hide Decide, BelievedState, Believes;
    GuardsAre(plan, rounds, n);
    GuardBelieves(AfterRounds(plan, rounds, n).guard, plan, rounds, n);
  }

  lemma NotedIs(plan: Plan, rounds: seq<Round>, n: nat, i: nat)
    requires n < |rounds| && i < 2
    ensures ChannelIs(NotedAt(plan, rounds, n), plan, rounds, n, n + 1, i)
  {
    hide ChannelIs, EndNoted;
    ChannelsAre(plan, rounds, n, i);
    NotedChannel(AfterRounds(plan, rounds, n), plan, rounds, n, i);
  }

  /* ---- The command ---- */

  lemma EventMeans(plan: Plan, i: nat, r: Round, apogee: int, b: Believed)
    requires r.inputs.nowMs == Wrap(r.t) && r.inputs.apogeeMs == Wrap(apogee) && apogee <= r.t < apogee + TURN
    ensures TriggerMet(plan, i, r.inputs, b) <==> EventCome(plan, i, r, apogee, b)
  {
    ElapsedIsTrue(apogee, r.t);
  }

  lemma SpeedsMean(plan: Plan, i: nat, r: Round, b: Believed)
    ensures var descentMs := DescentMs(b) * r.inputs.padRatio;
            && EmergencySpeed(plan, r, b)
            == (r.inputs.stateKnown && plan.emergencyMs > 0.0 && descentMs >= plan.emergencyMs)
            && RefireSpeed(plan, i, r, b)
            == (r.inputs.stateKnown && plan.refireMs.At(i) > 0.0 && descentMs > plan.refireMs.At(i))
  {
    assert DescentMs(b) * r.inputs.padRatio == r.inputs.padRatio * -b.speed;
  }

  lemma RestMeans(s: State, plan: Plan, rounds: seq<Round>, n: nat, i: nat)
    requires InTime(rounds) && n < |rounds| && i < 2 && ChannelIs(s, plan, rounds, n, n + 1, i)
    ensures var c, k := s.channel.At(i), Newest(plan, rounds, n, i);
            && (c.fired <==> k.Some?)
            && (c.fired ==> (IntervalPassed(c, plan, rounds[n].inputs.nowMs)
                  <==> rounds[k.value].t + plan.refireIntervalMs <= rounds[n].t))
  {
    hide CommandAt;
    var k := Newest(plan, rounds, n, i);
    if k.Some? {
      ElapsedIsTrue(rounds[k.value].t, rounds[n].t);
    }
  }

  lemma OwedIsDue(plan: Plan, rounds: seq<Round>, apogee: int, n: nat, i: nat, kind: Kind)
    requires InTime(rounds) && n < |rounds| && i < 2 && ApogeeAt(rounds[n], apogee) && kind != KindNone
    ensures Owed(NotedAt(plan, rounds, n), plan, i, rounds[n].inputs) == kind
       <==> DueFor(plan, rounds, apogee, n, i, kind)
  {
    hide BelievedState, Believes, NotedAt, ChannelIs, Newest, TriggerMet, EventCome, IntervalPassed, DescentMs;
    hide EmergencySpeed, RefireSpeed, Wrap;
    NotedIs(plan, rounds, n, i);
    BelievedExactly(plan, rounds, n);
    RestMeans(NotedAt(plan, rounds, n), plan, rounds, n, i);
    SpeedsMean(plan, i, rounds[n], Believes(plan, rounds, n));
    if rounds[n].inputs.apogeeDeclared {
      EventMeans(plan, i, rounds[n], apogee, Believes(plan, rounds, n));
    }
  }

  lemma AnyOwed(plan: Plan, rounds: seq<Round>, apogee: int, n: nat, i: nat)
    requires InTime(rounds) && n < |rounds| && i < 2 && ApogeeAt(rounds[n], apogee)
    ensures OwedAt(plan, rounds, n, i) <==> AnyDue(plan, rounds, apogee, n, i)
  {
    hide Owed, DueFor, NotedAt;
    OwedIsDue(plan, rounds, apogee, n, i, First);
    OwedIsDue(plan, rounds, apogee, n, i, Refire);
    OwedIsDue(plan, rounds, apogee, n, i, Emergency);
  }

  lemma GapIsOver(plan: Plan, rounds: seq<Round>, n: nat, i: nat)
    requires InTime(rounds) && n < |rounds| && i < 2
    ensures GapPassed(NotedAt(plan, rounds, n), plan, i, rounds[n].inputs.nowMs)
       <==> GapOver(plan, rounds, n, OtherOf(i))
  {
    hide NotedAt, CommandAt;
    NotedIs(plan, rounds, n, OtherOf(i));
    var k := Newest(plan, rounds, n, OtherOf(i));
    if k.Some? && FirstIdle(rounds, k.value + 1, n + 1).Some? {
      ElapsedIsTrue(rounds[FirstIdle(rounds, k.value + 1, n + 1).value].t, rounds[n].t);
    }
  }

  lemma TurnIs(plan: Plan, rounds: seq<Round>, n: nat, i: nat, owes: Two<Kind>)
    requires InTime(rounds) && n < |rounds| && i < 2
    ensures FirstInLine(NotedAt(plan, rounds, n), owes) == Some(i)
       <==> owes.At(i) != KindNone && (owes.At(OtherOf(i)) == KindNone || GoesFirst(plan, rounds, n, i))
  {
    hide NotedAt, CommandAt;
    NotedIs(plan, rounds, n, 0);
    NotedIs(plan, rounds, n, 1);
    var k0, k1 := Newest(plan, rounds, n, 0), Newest(plan, rounds, n, 1);
    if k0.Some? && k1.Some? {
      SignedIsTrue(rounds[k0.value].t, rounds[k1.value].t);
    }
  }

  /** Over any rounds in time, of any length less than half a turn: a round
      commands a fire of a kind exactly when no pulse is active, that fire is due
      to the channel, the other's pulse is the gap over, and the other is due
      none or comes after. Otherwise it commands none. */
  lemma CommandExactly(plan: Plan, rounds: seq<Round>, apogee: int, n: nat, i: nat, kind: Kind)
    requires InTime(rounds) && n < |rounds| && i < 2 && ApogeeAt(rounds[n], apogee) && kind != KindNone
    ensures CommandAt(plan, rounds, n) == Command(i + 1, kind) <==>
            && !rounds[n].inputs.pulseActive
            && DueFor(plan, rounds, apogee, n, i, kind)
            && GapOver(plan, rounds, n, OtherOf(i))
            && (!AnyDue(plan, rounds, apogee, n, OtherOf(i)) || GoesFirst(plan, rounds, n, i))
    ensures CommandAt(plan, rounds, n).channel <= 2
    ensures CommandAt(plan, rounds, n).channel == 0 <==> CommandAt(plan, rounds, n).kind == KindNone
  {
    hide Owed, DueFor, AnyDue, GapPassed, GapOver, GoesFirst, FirstInLine, NotedAt, EndNoted;
    CommandShape(plan, rounds, n);
    var s, inputs := NotedAt(plan, rounds, n), rounds[n].inputs;
    var owes := Two(Owed(s, plan, 0, inputs), Owed(s, plan, 1, inputs));
    OwedIsDue(plan, rounds, apogee, n, i, kind);
    AnyOwed(plan, rounds, apogee, n, OtherOf(i));
    GapIsOver(plan, rounds, n, i);
    TurnIs(plan, rounds, n, i, owes);
  }

  /** Of two channels that have never been fired, with no pulse active and no
      emergency speed, one that is enabled while the other has nothing due is
      given its first fire exactly when apogee is declared and its event has come:
      the delay since apogee, the height, the fall from the peak or the descent. */
  lemma FirstFireExactly(plan: Plan, rounds: seq<Round>, apogee: int, n: nat, i: nat)
    requires InTime(rounds) && n < |rounds| && i < 2 && ApogeeAt(rounds[n], apogee)
    requires forall m :: 0 <= m < n ==> CommandAt(plan, rounds, m).channel == 0
    requires var r, b := rounds[n], Believes(plan, rounds, n);
             && plan.enabled.At(i) && !r.inputs.pulseActive && !EmergencySpeed(plan, r, b)
             && (plan.enabled.At(OtherOf(i)) && r.inputs.apogeeDeclared ==>
                   !EventCome(plan, OtherOf(i), r, apogee, b))
    ensures var r := rounds[n];
            && Believes(plan, rounds, n) == Believed(r.inputs.heightM, r.inputs.speed)
            && (CommandAt(plan, rounds, n) == Command(i + 1, First) <==>
                  r.inputs.apogeeDeclared && EventCome(plan, i, r, apogee, Believed(r.inputs.heightM, r.inputs.speed)))
            && (CommandAt(plan, rounds, n) != Command(i + 1, First) ==>
                  CommandAt(plan, rounds, n) == Command(0, KindNone))
  {
    hide CommandAt, EventCome, EmergencySpeed, RefireSpeed;
    var j := OtherOf(i);
    assert Newest(plan, rounds, n, i).None? && Newest(plan, rounds, n, j).None?;
    assert NewestOfAll(plan, rounds, n).None?;
    CommandExactly(plan, rounds, apogee, n, i, First);
    CommandExactly(plan, rounds, apogee, n, i, Refire);
    CommandExactly(plan, rounds, apogee, n, i, Emergency);
    CommandExactly(plan, rounds, apogee, n, j, First);
    CommandExactly(plan, rounds, apogee, n, j, Refire);
    CommandExactly(plan, rounds, apogee, n, j, Emergency);
  }

  /** How many rounds before the n-th commanded channel i. */
  function Commanded(plan: Plan, rounds: seq<Round>, n: nat, i: nat): nat
    requires n <= |rounds|
  {
    if n == 0 then 0
    else Commanded(plan, rounds, n - 1, i) + (if CommandAt(plan, rounds, n - 1).channel == i + 1 then 1 else 0)
  }

  /** The count of pulses kept for each channel is of them, in sixteen bits. */
  lemma {:induction false} PulsesAreCounted(plan: Plan, rounds: seq<Round>, n: nat, i: nat)
    requires n <= |rounds| && i < 2
    ensures AfterRounds(plan, rounds, n).channel.At(i).pulses == Commanded(plan, rounds, n, i) % 0x1_0000
  {
    hide Decide, BelievedState;
    if n > 0 {
      PulsesAreCounted(plan, rounds, n - 1, i);
      CommandShape(plan, rounds, n - 1);
    }
  }
}
