/** The ground test procedure (src/ground_test_seq.c), and what is true of every
    fire it asks for, whatever is done with the switch. */
module GroundTestSeq {
  import opened Words
  import opened Wrappers

  const GT_DEBOUNCE_MS := 100
  const GT_ARM_MS := 1000
  const GT_COUNTDOWN_MS := 5000
  const GT_TONE_MS := 3000
  const GT_ALL_CLEAR_MS := 2100

  datatype Phase = Alert | Countdown | Fire1 | Tone | Countdown2 | Fire2 | AllClear | Done

  datatype Sound = NoSound | AlertSound | CountdownSound | ToneSound | AllClearSound

  datatype Outcome = NotAsked | Busy | Fault | Energised

  datatype Seq = Seq(phase: Phase, phaseMs: u32, enabled: Two<bool>, raw: bool, rawSince: u32, asserted: bool,
                     heldSince: u32, armed: bool, sounded: bool, result: Two<Outcome>)

  datatype Action = Action(sound: Sound, fire: nat)

  /* ---- The procedure as a function ---- */

  function SoundOf(p: Phase): Sound {
    match p
    case Alert => AlertSound
    case Countdown => CountdownSound
    case Countdown2 => CountdownSound
    case Tone => ToneSound
    case AllClear => AllClearSound
    case _ => NoSound
  }

  function ChannelToFire(p: Phase): nat {
    if p == Fire1 then 1 else if p == Fire2 then 2 else 0
  }

  predicate StoppedByTheSwitch(p: Phase) {
    p == Countdown || p == Tone || p == Countdown2
  }

  function Entered(s: Seq, p: Phase, now: u32): Seq {
    s.(phase := p, phaseMs := now, sounded := false)
  }

  /** Where the procedure goes from a countdown (0) or a channel that is done. */
  function NextPhase(enabled: Two<bool>, channelDone: nat): Phase {
    if channelDone == 0 && enabled.zero then Fire1
    else if channelDone == 0 && enabled.one then Fire2
    else if channelDone == 1 && enabled.one then Tone
    else AllClear
  }

  function Debounced(s: Seq, raw: bool, now: u32): (d: Seq)
    ensures d == s.(raw := raw, rawSince := if raw != s.raw then now else s.rawSince, asserted := d.asserted,
                    heldSince := d.heldSince)
    ensures d.asserted && !s.asserted ==> d.heldSince == now
    ensures d.asserted && s.asserted ==> d.heldSince == s.heldSince
  {
    var r := if raw != s.raw then s.(raw := raw, rawSince := now) else s;
    if r.raw != r.asserted && Sub(now, r.rawSince) >= GT_DEBOUNCE_MS then
      r.(asserted := r.raw, heldSince := if r.raw then now else r.heldSince)
    else r
  }

  /** What the time alone does to a phase. */
  function Advanced(s: Seq, now: u32): (r: Seq)
    ensures r.asserted == s.asserted && r.heldSince == s.heldSince && r.enabled == s.enabled
    ensures r.raw == s.raw && r.rawSince == s.rawSince
    ensures r.phaseMs == if r.phase == s.phase then s.phaseMs else now
  {
    var ran := Sub(now, s.phaseMs);
    match s.phase
    case Alert =>
      var armed := s.armed || (s.asserted && Sub(now, s.heldSince) >= GT_ARM_MS);
      var a := s.(armed := armed);
      if armed && !s.asserted then Entered(a, Countdown, now) else a
    case Countdown => if ran >= GT_COUNTDOWN_MS then Entered(s, NextPhase(s.enabled, 0), now) else s
    case Tone => if ran >= GT_TONE_MS then Entered(s, Countdown2, now) else s
    case Countdown2 => if ran >= GT_COUNTDOWN_MS then Entered(s, Fire2, now) else s
    case AllClear => if ran >= GT_ALL_CLEAR_MS then Entered(s, Done, now) else s
    case _ => s
  }

  function Moved(s: Seq, raw: bool, now: u32): Seq {
    var d := Debounced(s, raw, now);
    if d.asserted && StoppedByTheSwitch(d.phase) then Entered(d.(armed := false), Alert, now) else Advanced(d, now)
  }

  /** gt_seq_step()'s effect, and its action. */
  function Stepped(s: Seq, raw: bool, now: u32): Seq {
    Moved(s, raw, now).(sounded := true)
  }

  function ActionOf(s: Seq, raw: bool, now: u32): Action {
    var m := Moved(s, raw, now);
    Action(if m.sounded then NoSound else SoundOf(m.phase), ChannelToFire(m.phase))
  }

  /** gt_seq_fired()'s. */
  function Reported(s: Seq, channel: nat, r: Outcome, now: u32): Seq {
    if r == Busy then s
    else if channel == 1 && s.phase == Fire1 then
      Entered(s.(result := s.result.With(0, r)), NextPhase(s.enabled, 1), now)
    else if channel == 2 && s.phase == Fire2 then
      Entered(s.(result := s.result.With(1, r)), NextPhase(s.enabled, 2), now)
    else s
  }

  function Begun(enabled: Two<bool>, asserted: bool, now: u32): Seq {
    Seq(Alert, now, enabled, asserted, now, asserted, now, false, false, Two(NotAsked, NotAsked))
  }

  /* ---- Histories ---- */

  datatype Event = Step(raw: bool, time: nat) | Report(channel: nat, outcome: Outcome, time: nat)

  /** A mode entered, and all that happened since. */
  datatype History = History(enabled: Two<bool>, asserted: bool, began: nat, events: seq<Event>) {
    function Init(): History
      requires events != []
    {
      this.(events := events[..|events| - 1])
    }

    function Last(): Event
      requires events != []
    {
      events[|events| - 1]
    }

    function Now(): nat {
      if events == [] then began else Last().time
    }

    /** Time never goes back. */
    predicate Forward()
      decreases |events|
    {
      events == [] || (Init().Forward() && Init().Now() <= Now())
    }
  }

  function After(s: Seq, e: Event): Seq {
    match e
    case Step(raw, time) => Stepped(s, raw, Wrap(time))
    case Report(channel, outcome, time) => Reported(s, channel, outcome, Wrap(time))
  }

  function State(h: History): Seq
    decreases |h.events|
  {
    if h.events == [] then Begun(h.enabled, h.asserted, Wrap(h.began)) else After(State(h.Init()), h.Last())
  }

  /** Since when the debounced switch has been closed, if it is. */
  function ClosedSince(h: History): Option<nat>
    decreases |h.events|
  {
    if h.events == [] then (if h.asserted then Some(h.began) else None)
    else if !State(h).asserted then None
    else if ClosedSince(h.Init()).Some? then ClosedSince(h.Init())
    else Some(h.Now())
  }

  /** For how long it had been closed at the last step that found it so. */
  function ClosedFor(h: History): int
    decreases |h.events|
  {
    if h.events == [] then 0
    else if h.Last().Step? && ClosedSince(h).Some? then h.Now() - ClosedSince(h).value
    else ClosedFor(h.Init())
  }

  /** Since which step every step has found it open. */
  function OpenSince(h: History): Option<nat>
    decreases |h.events|
  {
    if h.events == [] then None
    else if h.Last().Report? then OpenSince(h.Init())
    else if State(h).asserted then None
    else if OpenSince(h.Init()).Some? then OpenSince(h.Init())
    else Some(h.Now())
  }

  /** When the present phase began. */
  function PhaseAt(h: History): nat
    decreases |h.events|
  {
    if h.events == [] then h.began
    else if State(h).phase != State(h.Init()).phase then h.Now()
    else PhaseAt(h.Init())
  }

  /** Channel 1's fire has been reported since the mode was last announced. */
  predicate FirstReported(h: History)
    decreases |h.events|
  {
    && h.events != [] && State(h).phase != Alert
    && (FirstReported(h.Init()) ||
        (State(h.Init()).phase == Fire1 && h.Last().Report? && h.Last().channel == 1 && h.Last().outcome != Busy))
  }

  /** The times the state keeps are those of the history. */
  predicate Timed(h: History) {
    var s := State(h);
    && s.enabled == h.enabled
    && s.phaseMs == Wrap(PhaseAt(h)) && PhaseAt(h) <= h.Now()
    && (s.asserted <==> ClosedSince(h).Some?)
    && (s.asserted ==> s.heldSince == Wrap(ClosedSince(h).value) && ClosedFor(h) <= h.Now() - ClosedSince(h).value)
    && (ClosedSince(h).Some? ==> ClosedSince(h).value <= h.Now())
    && (OpenSince(h).Some? ==> OpenSince(h).value <= h.Now())
  }

  /** What arming, and a countdown, have been given. */
  predicate Earned(h: History) {
    var s := State(h);
    && (s.phase == Alert && s.armed ==> s.asserted && ClosedFor(h) >= GT_ARM_MS)
    && (s.phase == Countdown || s.phase == Countdown2 ==>
          !s.asserted && OpenSince(h).Some? && OpenSince(h).value <= PhaseAt(h))
    && (s.phase == Countdown ==> ClosedFor(h) >= GT_ARM_MS)
  }

  /** What a fire, and the wait for channel 2's, have. */
  predicate InTurn(h: History) {
    var s := State(h);
    && (s.phase == Fire1 ==> h.enabled.zero)
    && (s.phase == Tone || s.phase == Countdown2 ==> h.enabled.one && FirstReported(h))
    && (s.phase == Fire2 ==> h.enabled.one && (h.enabled.zero ==> FirstReported(h)))
  }

  /** What is so after any history. */
  predicate Safe(h: History) {
    Timed(h) && Earned(h) && InTurn(h)
  }

  lemma BegunSafe(h: History)
    requires h.events == []
    ensures Safe(h)
  {
  }

  lemma StepTimes(s: Seq, raw: bool, now: u32)
    ensures var t := Stepped(s, raw, now);
            && t.enabled == s.enabled && t.phaseMs == (if t.phase == s.phase then s.phaseMs else now)
            && (t.asserted ==> t.heldSince == if s.asserted then s.heldSince else now)
  {
    hide Debounced, Advanced;
  }

  lemma StepKeepsTimed(h: History)
    requires h.events != [] && h.Last().Step? && h.Forward() && Timed(h.Init())
    ensures Timed(h)
  {
    hide Stepped, FirstReported;
    StepTimes(State(h.Init()), h.Last().raw, Wrap(h.Now()));
  }

  lemma StepKeepsEarned(h: History)
    requires h.events != [] && h.Last().Step? && h.Forward() && Timed(h) && Timed(h.Init()) && Earned(h.Init())
    ensures Earned(h)
  {
    hide Debounced;
    ElapsedNeverExceeds(PhaseAt(h.Init()), h.Now());
    if ClosedSince(h).Some? {
      ElapsedNeverExceeds(ClosedSince(h).value, h.Now());
    }
  }

  lemma StepKeepsTurn(h: History)
    requires h.events != [] && h.Last().Step? && State(h.Init()).enabled == h.enabled && InTurn(h.Init())
    ensures InTurn(h)
  {
    hide Stepped;
    StepGoes(State(h.Init()), h.Last().raw, Wrap(h.Now()));
  }

  /** Where a step can go. */
  lemma StepGoes(s: Seq, raw: bool, now: u32)
    ensures var p := Stepped(s, raw, now).phase;
            || p == s.phase || p == Alert
            || (s.phase == Alert && p == Countdown)
            || (s.phase == Countdown && p == NextPhase(s.enabled, 0))
            || (s.phase == Tone && p == Countdown2)
            || (s.phase == Countdown2 && p == Fire2)
            || (s.phase == AllClear && p == Done)
  {
    hide Debounced;
  }

  lemma StepKeepsSafe(h: History)
    requires h.events != [] && h.Last().Step? && h.Forward() && Safe(h.Init())
    ensures Safe(h)
  {
    hide Earned, InTurn;
    StepKeepsTimed(h);
    StepKeepsEarned(h);
    StepKeepsTurn(h);
  }

  lemma ReportKeepsSafe(h: History)
    requires h.events != [] && h.Last().Report? && h.Forward() && Safe(h.Init())
    ensures Safe(h)
  {
  }

  lemma {:induction false} AlwaysSafe(h: History)
    requires h.Forward()
    ensures Safe(h)
    decreases |h.events|
  {
    if h.events == [] {
      BegunSafe(h);
    } else {
      AlwaysSafe(h.Init());
      if h.Last().Step? {
        StepKeepsSafe(h);
      } else {
        ReportKeepsSafe(h);
      }
    }
  }

  /* ---- Every fire is earned ---- */

  /** A step that asks for a channel asks for an enabled one; and as the fire
      phase begins, every step of a full countdown has found the debounced
      switch open, the last of at least GT_ARM_MS closed before that, or, for
      channel 2 after channel 1, channel 1's fire has been reported since the
      mode was announced. */
  lemma FireIsEarned(h: History)
    requires h.Forward() && h.events != [] && h.Last().Step?
    ensures var was, fire := State(h.Init()), ActionOf(State(h.Init()), h.Last().raw, Wrap(h.Now())).fire;
            fire != 0 ==>
              && h.enabled.At(fire - 1)
              && (fire == 2 && h.enabled.zero ==> FirstReported(h))
              && (ChannelToFire(was.phase) != fire ==>
                    && OpenSince(h).Some? && h.Now() - OpenSince(h).value >= GT_COUNTDOWN_MS
                    && (was.phase == Countdown2 || (was.phase == Countdown && ClosedFor(h) >= GT_ARM_MS)))
  {
    hide Stepped, ActionOf, Timed, Earned, InTurn;
    AlwaysSafe(h);
    AlwaysSafe(h.Init());
    FireHasItsTurn(h);
    FireFollowsCountdown(h);
  }

  lemma FireHasItsTurn(h: History)
    requires h.events != [] && h.Last().Step? && InTurn(h)
    ensures var fire := ActionOf(State(h.Init()), h.Last().raw, Wrap(h.Now())).fire;
            fire != 0 ==> h.enabled.At(fire - 1) && (fire == 2 && h.enabled.zero ==> FirstReported(h))
  {
    hide Moved, FirstReported;
  }

  lemma FireFollowsCountdown(h: History)
    requires h.Forward() && h.events != [] && h.Last().Step? && Timed(h.Init()) && Earned(h.Init())
    ensures var was, fire := State(h.Init()), ActionOf(State(h.Init()), h.Last().raw, Wrap(h.Now())).fire;
            fire != 0 && ChannelToFire(was.phase) != fire ==>
              && OpenSince(h).Some? && h.Now() - OpenSince(h).value >= GT_COUNTDOWN_MS
              && (was.phase == Countdown2 || (was.phase == Countdown && ClosedFor(h) >= GT_ARM_MS))
  {
    hide Debounced;
    ElapsedNeverExceeds(PhaseAt(h.Init()), h.Now());
  }

  /** Only a step begins a fire, and only from the end of a countdown. */
  lemma FireBegins(s: Seq, e: Event)
    requires ChannelToFire(After(s, e).phase) != ChannelToFire(s.phase) && ChannelToFire(After(s, e).phase) != 0
    ensures e.Step? && (s.phase == Countdown || s.phase == Countdown2)
  {
    hide Stepped;
    if e.Step? {
      StepGoes(s, e.raw, Wrap(e.time));
    }
  }

  /** Nothing is asked after the all-clear, ever again. */
  lemma {:induction false} NothingAfterTheAllClear(h: History, more: seq<Event>)
    requires State(h).phase == AllClear || State(h).phase == Done
    ensures var later := State(h.(events := h.events + more));
            (later.phase == AllClear || later.phase == Done) && forall raw, now :: ActionOf(later, raw, now).fire == 0
    decreases |more|
  {
    hide After, ActionOf;
    forall s: Seq, raw, now | s.phase == AllClear || s.phase == Done ensures ActionOf(s, raw, now).fire == 0 {
      NothingAsked(s, raw, now);
    }
    if more == [] {
      assert h.events + more == h.events;
    } else {
      var n := |more| - 1;
      NothingAfterTheAllClear(h, more[..n]);
      var g := h.(events := h.events + more);
      assert g.Init() == h.(events := h.events + more[..n]);
      ClearStays(State(g.Init()), g.Last());
    }
  }

  lemma ClearStays(s: Seq, e: Event)
    requires s.phase == AllClear || s.phase == Done
    ensures After(s, e).phase == AllClear || After(s, e).phase == Done
  {
    hide Debounced;
  }

  lemma NothingAsked(s: Seq, raw: bool, now: u32)
    requires s.phase == AllClear || s.phase == Done
    ensures ActionOf(s, raw, now).fire == 0
  {
    hide Debounced;
  }

  /** In the alert a closed switch arms exactly when it has been closed for
      GT_ARM_MS, however long the mode has then been announced. */
  lemma ArmsByClosure(h: History)
    requires h.Forward() && h.events != [] && h.Last().Step? && State(h.Init()).phase == Alert
    requires State(h).asserted && h.Now() < ClosedSince(h).value + TURN
    ensures State(h).armed <==> State(h.Init()).armed || ClosedFor(h) >= GT_ARM_MS
  {
    hide Debounced;
    AlwaysSafe(h);
    ElapsedIsTrue(ClosedSince(h).value, h.Now());
  }

  /** A step that finds the pin closed arms the test. */
  predicate ArmedBy(h: History, t: nat) {
    State(h.(events := h.events + [Step(true, t)])).armed
  }

  /** An alert is promised to arm on nothing shorter than GT_ARM_MS of itself with
      the switch closed throughout. In one not yet armed that is kept, whenever
      the next step comes, exactly when the closure is no older than the alert. */
  lemma AnnouncedLongEnough(h: History)
    requires h.Forward() && (h.events == [] || h.Last().Step?)
    requires State(h).phase == Alert && State(h).asserted && !State(h).armed
    requires h.Now() < ClosedSince(h).value + TURN
    ensures (forall t :: h.Now() <= t < ClosedSince(h).value + TURN && ArmedBy(h, t) ==> t - PhaseAt(h) >= GT_ARM_MS)
       <==> PhaseAt(h) <= ClosedSince(h).value
  {
    hide Debounced, Safe;
    forall t | h.Now() <= t < ClosedSince(h).value + TURN
      ensures ArmedBy(h, t) <==> t - ClosedSince(h).value >= GT_ARM_MS
    {
      NextStepArms(h, t);
    }
    if ClosedSince(h).value < PhaseAt(h) {
      NotYetArmed(h);
      var t := if h.Now() < ClosedSince(h).value + GT_ARM_MS then ClosedSince(h).value + GT_ARM_MS else h.Now();
      assert ArmedBy(h, t) && t - PhaseAt(h) < GT_ARM_MS;
    }
  }

  lemma NextStepArms(h: History, t: nat)
    requires h.Forward() && State(h).phase == Alert && State(h).asserted && !State(h).armed
    requires ClosedSince(h).Some? && h.Now() <= t < ClosedSince(h).value + TURN
    ensures ArmedBy(h, t) <==> t - ClosedSince(h).value >= GT_ARM_MS
  {
    AlwaysSafe(h);
    var g := h.(events := h.events + [Step(true, t)]);
    assert g.Init() == h;
    ElapsedIsTrue(ClosedSince(h).value, t);
  }

  /** A step that leaves a closed alert unarmed has just begun it, or found the
      closure too short. */
  lemma NotYetArmed(h: History)
    requires h.Forward() && (h.events == [] || h.Last().Step?)
    requires State(h).phase == Alert && State(h).asserted && !State(h).armed
    requires ClosedSince(h).Some? && h.Now() < ClosedSince(h).value + TURN
    ensures PhaseAt(h) == h.Now() || h.Now() - ClosedSince(h).value < GT_ARM_MS
  {
    hide Debounced, Safe;
    if h.events != [] {
      AlwaysSafe(h);
      TimedSays(h);
      ElapsedIsTrue(ClosedSince(h).value, h.Now());
    }
  }

  lemma TimedSays(h: History)
    requires Safe(h) && State(h).asserted
    ensures ClosedSince(h).Some? && State(h).heldSince == Wrap(ClosedSince(h).value) && ClosedSince(h).value <= h.Now()
  {
  }

  /** One more event of a history. */
  lemma Then(h: History, e: Event, t: Seq) returns (g: History)
    requires After(State(h), e) == t
    ensures g == h.(events := h.events + [e]) && State(g) == t
    ensures PhaseAt(g) == if t.phase != State(h).phase then e.time else PhaseAt(h)
    ensures ClosedSince(g)
         == if !t.asserted then None else if ClosedSince(h).Some? then ClosedSince(h) else Some(e.time)
    ensures h.Forward() && h.Now() <= e.time ==> g.Forward()
    ensures g.Now() == e.time
  {
    g := h.(events := h.events + [e]);
    assert g.Init() == h;
  }

  lemma Beginning(enabled: Two<bool>, asserted: bool, began: nat) returns (h: History)
    ensures h == History(enabled, asserted, began, []) && State(h) == Begun(enabled, asserted, Wrap(began))
    ensures PhaseAt(h) == began && ClosedSince(h) == (if asserted then Some(began) else None)
    ensures h.Forward() && h.Now() == began
  {
    h := History(enabled, asserted, began, []);
  }

  /** It is not always kept: the switch closed during channel 1's fire stops the
      procedure only after it, and a millisecond after the mode is announced
      afresh the test is armed. */
  lemma ArmsJustAnnounced() returns (h: History)
    ensures h.Forward() && h.enabled == Two(true, true) && h.events != [] && h.Last().Step?
    ensures State(h).phase == Alert && State(h).armed && !State(h.Init()).armed
    ensures h.Now() - PhaseAt(h) == 1 && ClosedSince(h) == Some(6_202)
  {
    hide State, PhaseAt, ClosedSince, History.Forward, History.Now;
    var both, fired := Two(true, true), Two(Energised, NotAsked);
    h := ClosedDuringFire();
    h := Then(h, Report(1, Energised, 8_000), Seq(Tone, 8_000, both, true, 6_102, true, 6_202, true, false, fired));
    h := Then(h, Step(true, 8_001), Seq(Alert, 8_001, both, true, 6_102, true, 6_202, false, true, fired));
    var init := h;
    h := Then(h, Step(true, 8_002), Seq(Alert, 8_001, both, true, 6_102, true, 6_202, true, true, fired));
    assert h.Init() == init;
  }

  lemma ClosedDuringFire() returns (h: History)
    ensures h.Forward() && h.enabled == Two(true, true) && h.Now() == 6_202 && ClosedSince(h) == Some(6_202)
    ensures State(h) == Seq(Fire1, 6_101, Two(true, true), true, 6_102, true, 6_202, true, true,
                            Two(NotAsked, NotAsked))
  {
    hide State, PhaseAt, ClosedSince, History.Forward, History.Now;
    var both, none := Two(true, true), Two(NotAsked, NotAsked);
    h := CountedDown();
    h := Then(h, Step(true, 6_102), Seq(Fire1, 6_101, both, true, 6_102, false, 0, true, true, none));
    h := Then(h, Step(true, 6_202), Seq(Fire1, 6_101, both, true, 6_102, true, 6_202, true, true, none));
  }

  lemma StepThen(h: History, raw: bool, time: u32, t: Seq) returns (g: History)
    requires Stepped(State(h), raw, time) == t
    ensures g == h.(events := h.events + [Step(raw, time)]) && State(g) == t
    ensures ClosedSince(g)
         == if !t.asserted then None else if ClosedSince(h).Some? then ClosedSince(h) else Some(time)
    ensures h.Forward() && h.Now() <= time ==> g.Forward()
    ensures g.Now() == time
  {
    hide Stepped;
    assert Wrap(time) == time;
    g := Then(h, Step(raw, time), t);
  }

  lemma CountedDown() returns (h: History)
    ensures h.Forward() && h.enabled == Two(true, true) && h.Now() == 6_101 && ClosedSince(h) == None
    ensures State(h) == Seq(Fire1, 6_101, Two(true, true), false, 1_001, false, 0, true, true, Two(NotAsked, NotAsked))
  {
    hide State, PhaseAt, ClosedSince, History.Forward, History.Now;
    var both, none := Two(true, true), Two(NotAsked, NotAsked);
    h := JustOpened();
    h := StepThen(h, false, 1_101, Seq(Countdown, 1_101, both, false, 1_001, false, 0, true, true, none));
    h := StepThen(h, false, 6_101, Seq(Fire1, 6_101, both, false, 1_001, false, 0, true, true, none));
  }

  lemma JustOpened() returns (h: History)
    ensures h.Forward() && h.enabled == Two(true, true) && h.Now() == 1_001 && ClosedSince(h) == Some(0)
    ensures State(h) == Seq(Alert, 0, Two(true, true), false, 1_001, true, 0, true, true, Two(NotAsked, NotAsked))
  {
    hide State, PhaseAt, ClosedSince, History.Forward, History.Now;
    var both, none := Two(true, true), Two(NotAsked, NotAsked);
    h := Beginning(both, true, 0);
    h := StepThen(h, true, 1_000, Seq(Alert, 0, both, true, 0, true, 0, true, true, none));
    h := StepThen(h, false, 1_001, Seq(Alert, 0, both, false, 1_001, true, 0, true, true, none));
  }

  /* ---- The debounce ---- */

  /** Since when every step has read the pin as the last one did. */
  function SteadySince(h: History): nat
    decreases |h.events|
  {
    if h.events == [] then h.began
    else if h.Last().Step? && h.Last().raw != State(h.Init()).raw then h.Now()
    else SteadySince(h.Init())
  }

  lemma {:induction false} SteadyIsKept(h: History)
    requires h.Forward()
    ensures State(h).rawSince == Wrap(SteadySince(h)) && SteadySince(h) <= h.Now()
    decreases |h.events|
  {
    hide Advanced;
    if h.events != [] {
      SteadyIsKept(h.Init());
      if h.Last().Step? {
        RawKept(State(h.Init()), h.Last().raw, Wrap(h.Now()));
      }
    }
  }

  lemma RawKept(s: Seq, raw: bool, now: u32)
    ensures var t := Stepped(s, raw, now);
            t.raw == raw && t.rawSince == (if raw != s.raw then now else s.rawSince)
  {
    hide Debounced, Advanced;
  }

  /** The debounced level changes only to what every step has read for GT_DEBOUNCE_MS. */
  lemma LevelIsSteady(h: History)
    requires h.Forward() && h.events != [] && State(h).asserted != State(h.Init()).asserted
    ensures h.Last().Step? && h.Last().raw == State(h).asserted
    ensures h.Now() - SteadySince(h) >= GT_DEBOUNCE_MS
  {
    hide Advanced;
    SteadyIsKept(h);
    SteadyIsKept(h.Init());
    if h.Last().Step? {
      RawKept(State(h.Init()), h.Last().raw, Wrap(h.Now()));
      ElapsedNeverExceeds(SteadySince(h), h.Now());
    }
  }

  /** And it does change then: a step takes what has been read for GT_DEBOUNCE_MS,
      and nothing sooner. */
  lemma LevelFollows(h: History)
    requires h.Forward() && h.events != [] && h.Last().Step? && h.Now() < SteadySince(h) + TURN
    ensures State(h).asserted
         == if h.Now() - SteadySince(h) >= GT_DEBOUNCE_MS then h.Last().raw else State(h.Init()).asserted
  {
    hide Advanced;
    SteadyIsKept(h);
    SteadyIsKept(h.Init());
    RawKept(State(h.Init()), h.Last().raw, Wrap(h.Now()));
    ElapsedIsTrue(SteadySince(h), h.Now());
  }

  /* ---- The procedure, start to end ---- */

  /** What an undisturbed procedure goes through, from the switch's opening. */
  function Route(enabled: Two<bool>): seq<Phase> {
    if enabled == Two(true, true) then [Countdown, Fire1, Tone, Countdown2, Fire2, AllClear, Done]
    else if enabled == Two(true, false) then [Countdown, Fire1, AllClear, Done]
    else if enabled == Two(false, true) then [Countdown, Fire2, AllClear, Done]
    else [Countdown, AllClear, Done]
  }

  /** The phases gone through since the mode was last announced. */
  function Trail(h: History): seq<Phase>
    decreases |h.events|
  {
    if h.events == [] || State(h).phase == Alert then []
    else if State(h).phase == State(h.Init()).phase then Trail(h.Init())
    else Trail(h.Init()) + [State(h).phase]
  }

  /** So far along its route, and there. */
  predicate OnRoute(enabled: Two<bool>, trail: seq<Phase>, p: Phase) {
    if p == Alert then trail == []
    else trail != [] && trail <= Route(enabled) && trail[|trail| - 1] == p
  }

  /** The phase after p on the route. */
  predicate Follows(enabled: Two<bool>, p: Phase, q: Phase) {
    var r := [Alert] + Route(enabled);
    exists i :: 0 <= i < |r| - 1 && r[i] == p && r[i + 1] == q
  }

  lemma RouteGoesOn(enabled: Two<bool>, trail: seq<Phase>, p: Phase, q: Phase)
    requires OnRoute(enabled, trail, p) && Follows(enabled, p, q)
    ensures OnRoute(enabled, trail + [q], q)
  {
    hide Route;
    var route := Route(enabled);
    var r := [Alert] + route;
    var i :| 0 <= i < |r| - 1 && r[i] == p && r[i + 1] == q;
    if p == Alert {
      EachOnce(enabled, i, 0);
    } else {
      assert r[|trail|] == route[|trail| - 1] == trail[|trail| - 1];
      EachOnce(enabled, i, |trail|);
    }
    if q == Alert {
      EachOnce(enabled, i + 1, 0);
    }
    assert route[..|trail| + 1] == trail + [q];
  }

  /** No phase is on it twice. */
  lemma EachOnce(enabled: Two<bool>, i: nat, j: nat)
    requires var r := [Alert] + Route(enabled); i < |r| && j < |r| && r[i] == r[j]
    ensures i == j
  {
    if enabled == Two(true, true) {
    } else if enabled == Two(true, false) {
    } else if enabled == Two(false, true) {
    } else {
    }
  }

  lemma NextFollows(enabled: Two<bool>)
    ensures Follows(enabled, Alert, Countdown) && Follows(enabled, AllClear, Done)
    ensures Follows(enabled, Countdown, NextPhase(enabled, 0))
    ensures enabled.zero ==> Follows(enabled, Fire1, NextPhase(enabled, 1))
    ensures enabled.one ==> Follows(enabled, Fire2, NextPhase(enabled, 2))
    ensures enabled.zero && enabled.one ==> Follows(enabled, Tone, Countdown2) && Follows(enabled, Countdown2, Fire2)
  {
    hide Follows;
    var n := |Route(enabled)|;
    FollowsAt(enabled, 0);
    FollowsAt(enabled, 1);
    FollowsAt(enabled, 2);
    FollowsAt(enabled, n - 1);
    if enabled.zero && enabled.one {
      FollowsAt(enabled, 3);
      FollowsAt(enabled, 4);
      FollowsAt(enabled, 5);
    }
  }

  lemma FollowsAt(enabled: Two<bool>, i: nat)
    requires i < |Route(enabled)|
    ensures var r := [Alert] + Route(enabled); Follows(enabled, r[i], r[i + 1])
  {
    hide Route;
  }

  /** Where an event takes it: nowhere, back to the alert, or on. */
  lemma EventFollows(h: History)
    requires h.Forward() && h.events != [] && OnRoute(h.enabled, Trail(h.Init()), State(h.Init()).phase)
    ensures var p, q := State(h.Init()).phase, State(h).phase; q == p || q == Alert || Follows(h.enabled, p, q)
  {
    hide Stepped, Follows, Route, Safe;
    AlwaysSafe(h.Init());
    EnabledThere(h.Init());
    NextFollows(h.enabled);
    if h.Last().Step? {
      StepGoes(State(h.Init()), h.Last().raw, Wrap(h.Now()));
    }
  }

  lemma EnabledThere(h: History)
    requires Safe(h) && OnRoute(h.enabled, Trail(h), State(h).phase)
    ensures var p := State(h).phase;
            && State(h).enabled == h.enabled
            && (p == Fire1 ==> h.enabled.zero) && (p == Fire2 ==> h.enabled.one)
            && (p == Tone || p == Countdown2 ==> h.enabled.zero && h.enabled.one)
  {
    hide FirstReported;
  }

  /** After any history the procedure is somewhere on its route, having gone
      through all of it before that, in order: a countdown, the enabled channels,
      with a tone and a countdown between two, the all-clear, and the end. */
  lemma {:induction false} RouteIsFollowed(h: History)
    requires h.Forward()
    ensures OnRoute(h.enabled, Trail(h), State(h).phase)
    decreases |h.events|
  {
    hide After, Route, Follows;
    if h.events != [] {
      RouteIsFollowed(h.Init());
      EventFollows(h);
      var p, q := State(h.Init()).phase, State(h).phase;
      if q != p && q != Alert {
        RouteGoesOn(h.enabled, Trail(h.Init()), p, q);
      }
    }
  }

  /** How long a phase that times out lasts. */
  function Lasts(p: Phase): Option<nat> {
    match p
    case Countdown => Some(5_000)
    case Tone => Some(3_000)
    case Countdown2 => Some(5_000)
    case AllClear => Some(2_100)
    case _ => None
  }

  /** A step leaves the alert when it is armed and open; a phase with a time when
      that has passed, or, but for the all-clear, the switch is closed, which goes
      back to the alert, disarmed; and no other. */
  lemma StepLeavesOnTime(h: History)
    requires h.Forward() && h.events != [] && h.Last().Step? && h.Now() < PhaseAt(h.Init()) + TURN
    ensures var p, d := State(h.Init()).phase, State(h);
            var stopped := d.asserted && p in {Countdown, Tone, Countdown2};
            && (d.phase != p <==>
                  if p == Alert then d.armed && !d.asserted
                  else stopped || (Lasts(p).Some? && h.Now() - PhaseAt(h.Init()) >= Lasts(p).value))
            && (stopped ==> d.phase == Alert && !d.armed)
            && (p == Alert && !d.asserted ==> d.armed == State(h.Init()).armed)
  {
    hide Safe, Moved;
    AlwaysSafe(h.Init());
    PhaseTimed(h.Init());
    ElapsedIsTrue(PhaseAt(h.Init()), h.Now());
    MoveLeaves(State(h.Init()), h.Last().raw, Wrap(h.Now()));
  }

  lemma MoveLeaves(s: Seq, raw: bool, now: u32)
    ensures var p, d := s.phase, Moved(s, raw, now);
            var stopped := d.asserted && p in {Countdown, Tone, Countdown2};
            && (d.phase != p <==>
                  if p == Alert then d.armed && !d.asserted
                  else stopped || (Lasts(p).Some? && Sub(now, s.phaseMs) >= Lasts(p).value))
            && (stopped ==> d.phase == Alert && !d.armed)
            && (p == Alert && !d.asserted ==> d.armed == s.armed)
  {
    hide Debounced, Sub;
  }

  lemma PhaseTimed(h: History)
    requires Safe(h)
    ensures State(h).phaseMs == Wrap(PhaseAt(h)) && PhaseAt(h) <= h.Now()
  {
  }

  /** The newest outcome, but for BUSY, reported for a channel in its own fire. */
  function Outcomes(h: History, i: nat): Outcome
    decreases |h.events|
  {
    if h.events == [] then NotAsked
    else
      var e := h.Last();
      if e.Report? && e.outcome != Busy && e.channel == i + 1
         && State(h.Init()).phase == (if i == 0 then Fire1 else Fire2) then e.outcome
      else Outcomes(h.Init(), i)
  }

  /** A channel's result is that; a report of that kind, and no other, takes the
      procedure on. */
  lemma {:induction false} ResultsAreReported(h: History, i: nat)
    requires i < 2
    ensures State(h).result.At(i) == Outcomes(h, i)
    ensures h.events != [] && h.Last().Report? ==>
              (State(h).phase != State(h.Init()).phase <==>
               && h.Last().outcome != Busy && h.Last().channel in {1, 2}
               && State(h.Init()).phase == (if h.Last().channel == 1 then Fire1 else Fire2))
    decreases |h.events|
  {
    if h.events != [] {
      ResultsAreReported(h.Init(), i);
      if h.Last().Step? {
        ResultKept(State(h.Init()), h.Last().raw, Wrap(h.Now()));
      }
    }
  }

  lemma ResultKept(s: Seq, raw: bool, now: u32)
    ensures Stepped(s, raw, now).result == s.result
  {
  }

  /** No step since the phase began, the last event aside. */
  predicate Unannounced(h: History)
    decreases |h.events|
  {
    h.events == [] || (if State(h).phase != State(h.Init()).phase then h.Last().Report?
                       else h.Last().Report? && Unannounced(h.Init()))
  }

  lemma {:induction false} SoundedExactly(h: History)
    ensures State(h).sounded <==> !Unannounced(h)
    decreases |h.events|
  {
    if h.events != [] {
      SoundedExactly(h.Init());
      if h.Last().Report? {
        ReportSounds(State(h.Init()), h.Last());
      }
    }
  }

  lemma ReportSounds(s: Seq, e: Event)
    requires e.Report?
    ensures After(s, e).phase == s.phase ==> After(s, e) == s
    ensures After(s, e).phase != s.phase ==> !After(s, e).sounded
  {
  }

  lemma MovedSounded(s: Seq, raw: bool, now: u32)
    ensures Moved(s, raw, now).sounded <==> s.sounded && Moved(s, raw, now).phase == s.phase
  {
    hide Debounced;
    assert Debounced(s, raw, now).sounded == s.sounded && Debounced(s, raw, now).phase == s.phase;
  }

  /** A phase is sounded once, by its first step: the alert, a countdown of either
      kind, the tone and the all-clear each as itself, a fire and the end by
      nothing. And a step asks for a channel exactly in that channel's fire. */
  lemma SoundsOnce(h: History)
    requires h.events != [] && h.Last().Step?
    ensures var a, p := ActionOf(State(h.Init()), h.Last().raw, Wrap(h.Now())), State(h).phase;
            var begins := p != State(h.Init()).phase || Unannounced(h.Init());
            && (a.sound == AlertSound <==> begins && p == Alert)
            && (a.sound == CountdownSound <==> begins && (p == Countdown || p == Countdown2))
            && (a.sound == ToneSound <==> begins && p == Tone)
            && (a.sound == AllClearSound <==> begins && p == AllClear)
            && (a.fire == 1 <==> p == Fire1) && (a.fire == 2 <==> p == Fire2) && a.fire <= 2
  {
    hide Moved;
    SoundedExactly(h.Init());
    MovedSounded(State(h.Init()), h.Last().raw, Wrap(h.Now()));
  }

  /* ---- The sequence, updated in place ---- */

  class GroundTest {
    var s: Seq

    /** gt_seq_begin() */
    constructor (pyro1: bool, pyro2: bool, asserted: bool, now: u32)
      ensures s == Begun(Two(pyro1, pyro2), asserted, now)
    {
      s := Seq(Alert, now, Two(pyro1, pyro2), asserted, now, asserted, now, false, false, Two(NotAsked, NotAsked));
    }

    method Enter(p: Phase, now: u32)
      modifies this
      ensures s == Entered(old(s), p, now)
    {
      s := s.(phase := p);
      s := s.(phaseMs := now);
      s := s.(sounded := false);
    }

    method Debounce(raw: bool, now: u32)
      modifies this
      ensures s == Debounced(old(s), raw, now)
    {
      if raw != s.raw {
        s := s.(raw := raw, rawSince := now);
      }
      if s.raw != s.asserted && Sub(now, s.rawSince) >= GT_DEBOUNCE_MS {
        s := s.(asserted := s.raw);
        if s.asserted {
          s := s.(heldSince := now);
        }
      }
    }

    /** after() */
    method GoOn(channelDone: nat, now: u32)
      modifies this
      ensures s == Entered(old(s), NextPhase(old(s).enabled, channelDone), now)
    {
      if channelDone < 1 && s.enabled.At(0) {
        Enter(Fire1, now);
      } else if channelDone < 1 && s.enabled.At(1) {
        Enter(Fire2, now);
      } else if channelDone == 1 && s.enabled.At(1) {
        Enter(Tone, now);
      } else {
        Enter(AllClear, now);
      }
    }

    method Advance(now: u32)
      modifies this
      ensures s == Advanced(old(s), now)
    {
      match s.phase
      case Alert =>
        if s.asserted && Sub(now, s.heldSince) >= GT_ARM_MS {
          s := s.(armed := true);
        }
        if s.armed && !s.asserted {
          Enter(Countdown, now);
        }
      case Countdown =>
        if Sub(now, s.phaseMs) >= GT_COUNTDOWN_MS {
          GoOn(0, now);
        }
      case Tone =>
        if Sub(now, s.phaseMs) >= GT_TONE_MS {
          Enter(Countdown2, now);
        }
      case Countdown2 =>
        if Sub(now, s.phaseMs) >= GT_COUNTDOWN_MS {
          Enter(Fire2, now);
        }
      case AllClear =>
        if Sub(now, s.phaseMs) >= GT_ALL_CLEAR_MS {
          Enter(Done, now);
        }
      case _ =>
    }

    /** gt_seq_step() */
    method Step(raw: bool, now: u32) returns (a: Action)
      modifies this
      ensures s == Stepped(old(s), raw, now) && a == ActionOf(old(s), raw, now)
    {
      hide Debounced, Advanced;
      Debounce(raw, now);
      if s.asserted && StoppedByTheSwitch(s.phase) {
        s := s.(armed := false);
        Enter(Alert, now);
      } else {
        Advance(now);
      }
      a := Action(NoSound, ChannelToFire(s.phase));
      if !s.sounded {
        a := a.(sound := SoundOf(s.phase));
        s := s.(sounded := true);
      }
    }

    /** gt_seq_fired() */
    method Fired(channel: nat, r: Outcome, now: u32)
      modifies this
      ensures s == Reported(old(s), channel, r, now)
    {
      if r == Busy {
        return;
      }
      if channel == 1 && s.phase == Fire1 {
        s := s.(result := s.result.With(0, r));
        GoOn(1, now);
      } else if channel == 2 && s.phase == Fire2 {
        s := s.(result := s.result.With(1, r));
        GoOn(2, now);
      }
    }
  }
}
