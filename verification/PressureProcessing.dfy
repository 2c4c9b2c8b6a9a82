/** The stuck-sensor roll-back of the pressure path (src/pressure_processing.c).

    An estimator is known here by the calls made on it since it was started,
    in order: whatever its state is, it is a function of those. Saving and
    restoring its state is saving and restoring that history. */
module PressureProcessing {
  import opened Words
  import opened Wrappers

  const GAP_US := 250_000
  const SUSPECT_US := 1_000_000
  const STUCK_SPAN_US := 950_000
  const STUCK_MIN_READINGS := 8
  const REPEATING_READINGS := 8

  datatype Call = Start(raw: int, us: u32) | Reading(raw: int, us: u32) | NoReading(us: u32) | Pulse(us: u32)

  type History = seq<Call>

  /** The estimator's state after its calls, whatever machine it is. */
  ghost function StateAfter<S>(step: (S, Call) -> S, s: S, calls: History): S {
    if calls == [] then s else step(StateAfter(step, s, calls[..|calls| - 1]), calls[|calls| - 1])
  }

  lemma {:induction false} StateAfterBoth<S>(step: (S, Call) -> S, s: S, a: History, b: History)
    ensures StateAfter(step, s, a + b) == StateAfter(step, StateAfter(step, s, a), b)
  {
    if b == [] {
      assert a + b == a;
    } else {
      StateAfterBoth(step, s, a, b[..|b| - 1]);
      assert (a + b)[..|a + b| - 1] == a + b[..|b| - 1];
    }
  }

  /* ---- The watch for gaps and repeats ---- */

  datatype Watch = Watch(haveReading: bool, lastUs: u32, stuckValue: int, stuckSince: u32, stuckReadings: nat,
                         suspect: bool, suspectUntil: u32, repeating: bool)

  const NO_WATCH := Watch(false, 0, 0, 0, 0, false, 0, false)

  function Held(w: Watch, us: u32): Watch {
    w.(suspect := true, suspectUntil := Add(us, SUSPECT_US))
  }

  /** The reading joins the run of its value, or begins one. The count is kept
      in sixteen bits. */
  function Joined(w: Watch, raw: int, us: u32): Watch {
    var anew := !w.haveReading || raw != w.stuckValue;
    w.(stuckValue := raw, stuckSince := if anew then us else w.stuckSince,
       stuckReadings := ((if anew then 0 else w.stuckReadings) + 1) % 0x1_0000, haveReading := true, lastUs := us)
  }

  predicate Stuck(w: Watch, us: u32) {
    w.stuckReadings >= STUCK_MIN_READINGS && Sub(us, w.stuckSince) >= STUCK_SPAN_US
  }

  function Gapped(w: Watch, us: u32): Watch {
    if w.haveReading && Sub(us, w.lastUs) > GAP_US then Held(w, us) else w
  }

  function Watched(w: Watch, raw: int, us: u32): Watch {
    var joined := Joined(Gapped(w, us), raw, us);
    var held := if Stuck(joined, us) then Held(joined, us) else joined;
    held.(suspect := held.suspect && Signed(Sub(us, held.suspectUntil)) < 0,
          repeating := held.stuckReadings >= REPEATING_READINGS)
  }

  /* ---- One estimator's part ---- */

  datatype Event = Feed(raw: int, us: u32) | PulseNoted

  /** The watch, and an estimator's history now and as it was when the present
      reading first appeared. */
  datatype Proc = Proc(w: Watch, started: bool, est: History, saved: History)

  const AT_BOOT := Proc(NO_WATCH, false, [], [])

  function Fed(p: Proc, raw: int, us: u32): Proc {
    var q := p.(w := Watched(p.w, raw, us));
    if !p.started then q.(started := true, est := [Start(raw, us)], saved := [Start(raw, us)])
    else
      var back := if q.w.stuckReadings == REPEATING_READINGS then p.saved else p.est;
      var est := back + [if q.w.repeating then NoReading(us) else Reading(raw, us)];
      q.(est := est, saved := if q.w.stuckReadings == 1 then est else p.saved)
  }

  function After(p: Proc, e: Event): Proc {
    match e
    case Feed(raw, us) => if raw <= 0 then p else Fed(p, raw, us)
    case PulseNoted => if p.started then p.(est := p.est + [Pulse(p.w.lastUs)]) else p
  }

  function AfterAll(p: Proc, es: seq<Event>): Proc {
    if es == [] then p else After(AfterAll(p, es[..|es| - 1]), es[|es| - 1])
  }

  /** What a sample made of this reading says of it. */
  predicate MarkedSuspect(p: Proc) {
    p.w.suspect || p.w.repeating
  }

  /* ---- A run of one reading ---- */

  predicate Reads(e: Event) {
    e.Feed? && e.raw > 0
  }

  /** Readings of v, pulses and unusable readings, in any order, a reading first. */
  predicate IsRun(es: seq<Event>, v: int) {
    es != [] && Reads(es[0]) && forall e :: e in es && Reads(e) ==> e.raw == v
  }

  /** How many readings. */
  function Count(es: seq<Event>): nat {
    if es == [] then 0 else Count(es[..|es| - 1]) + (if Reads(es[|es| - 1]) then 1 else 0)
  }

  function LastUs(es: seq<Event>): u32 {
    if es == [] then 0 else if Reads(es[|es| - 1]) then es[|es| - 1].us else LastUs(es[..|es| - 1])
  }

  /** The calls for the events past a run's first reading, each as it comes. */
  function Early(es: seq<Event>): History {
    if es == [] then []
    else
      var e := es[|es| - 1];
      Early(es[..|es| - 1]) +
      (if Reads(e) then (if Count(es) == 1 then [] else [Reading(e.raw, e.us)])
       else if e.PulseNoted? then [Pulse(LastUs(es))] else [])
  }

  /** The calls from the eighth reading on: no reading for each, and the pulses
      noted since. */
  function Late(es: seq<Event>): History {
    if es == [] then []
    else
      var e := es[|es| - 1];
      Late(es[..|es| - 1]) +
      (if Count(es) < REPEATING_READINGS then []
       else if Reads(e) then [NoReading(e.us)]
       else if e.PulseNoted? then [Pulse(LastUs(es))] else [])
  }

  predicate Begins(p: Proc, v: int) {
    v > 0 && (p.w.haveReading ==> p.w.stuckValue != v) && (p.started <==> p.w.haveReading)
  }

  /** The first reading of a run. */
  lemma RunBegins(p: Proc, v: int, e: Event)
    requires Begins(p, v) && Reads(e) && e.raw == v
    ensures var q := After(p, e);
            && q.w.haveReading && q.w.stuckValue == v && q.w.stuckReadings == 1 && !q.w.repeating
            && q.started && q.saved == q.est && q.w.lastUs == e.us
  {
  }

  /** Any later one. */
  lemma RunGoesOn(p: Proc, e: Event)
    requires p.started && p.w.haveReading && Reads(e) && e.raw == p.w.stuckValue
    ensures var q := After(p, e);
            && q.w.haveReading && q.w.stuckValue == e.raw && q.started && q.w.lastUs == e.us
            && q.w.stuckReadings == (p.w.stuckReadings + 1) % 0x1_0000
            && (q.w.repeating <==> q.w.stuckReadings >= REPEATING_READINGS)
            && q.est == (if q.w.stuckReadings == REPEATING_READINGS then p.saved else p.est)
                        + [if q.w.repeating then NoReading(e.us) else Reading(e.raw, e.us)]
            && (q.w.stuckReadings != 1 ==> q.saved == p.saved)
  {
  }

  /** Whatever the estimator knew before: in a run of fewer than eight it has had
      each reading; from the eighth on it stands as the run's first reading left
      it, and has had since only the calls from the eighth reading on. */
  lemma {:induction false} RollBack(p: Proc, v: int, es: seq<Event>)
    requires Begins(p, v) && IsRun(es, v) && Count(es) < 0x1_0000
    ensures var q, first := AfterAll(p, es), After(p, es[0]);
            && q.w.stuckReadings == Count(es) > 0 && q.w.stuckValue == v && q.started && q.w.haveReading
            && q.w.lastUs == LastUs(es)
            && q.saved == first.est
            && (q.w.repeating <==> Count(es) >= REPEATING_READINGS)
            && q.est == first.est + (if Count(es) < REPEATING_READINGS then Early(es) else Late(es))
    decreases |es|
  {
    hide Watched;
    var init, e := es[..|es| - 1], es[|es| - 1];
    var first := After(p, es[0]);
    RunBegins(p, v, es[0]);
    if |es| == 1 {
      assert init == [] && Early(init) == [];
      assert first.est + [] == first.est;
    } else {
      RollBack(p, v, init);
      var q := AfterAll(p, init);
      if Reads(e) {
        assert e in es;
        RunGoesOn(q, e);
      }
      if Count(init) < REPEATING_READINGS <= Count(es) {
        NoneLate(init);
      }
      StepsAdd(first.est, if Count(init) < REPEATING_READINGS then Early(init) else Late(init), e, LastUs(es));
    }
  }

  lemma StepsAdd(base: History, calls: History, e: Event, last: u32)
    requires e.Feed? || e.PulseNoted?
    ensures base + (calls + [Pulse(last)]) == base + calls + [Pulse(last)] && calls + [] == calls
    ensures e.Feed? ==> base + (calls + [Reading(e.raw, e.us)]) == base + calls + [Reading(e.raw, e.us)]
    ensures e.Feed? ==> base + (calls + [NoReading(e.us)]) == base + calls + [NoReading(e.us)]
  {
  }

  lemma {:induction false} NoneLate(es: seq<Event>)
    requires Count(es) < REPEATING_READINGS
    ensures Late(es) == []
  {
    if es != [] {
      NoneLate(es[..|es| - 1]);
    }
  }

  /** So whatever machine the estimator is, its state in a stuck run is that after
      the run's first reading, brought on only by the calls from the eighth on:
      readings two to seven leave no trace. */
  lemma StuckRunLeavesNoTrace<S>(step: (S, Call) -> S, s: S, p: Proc, v: int, es: seq<Event>)
    requires Begins(p, v) && IsRun(es, v) && REPEATING_READINGS <= Count(es) < 0x1_0000
    ensures StateAfter(step, s, AfterAll(p, es).est)
         == StateAfter(step, StateAfter(step, s, After(p, es[0]).est), Late(es))
  {
    RollBack(p, v, es);
    StateAfterBoth(step, s, After(p, es[0]).est, Late(es));
  }

  /** With no pulse in it, those are one no_reading for each reading from the
      eighth on and nothing else. */
  lemma {:induction false} LateIsNoReadings(es: seq<Event>)
    requires PulseNoted !in es
    ensures |Late(es)| == (if Count(es) < REPEATING_READINGS then 0 else Count(es) - REPEATING_READINGS + 1)
    ensures forall c :: c in Late(es) ==> c.NoReading?
  {
    if es != [] {
      assert es[|es| - 1] in es;
      LateIsNoReadings(es[..|es| - 1]);
      NoneLateBefore(es);
    }
  }

  lemma NoneLateBefore(es: seq<Event>)
    ensures Count(es) < REPEATING_READINGS ==> Late(es) == []
  {
    if Count(es) < REPEATING_READINGS {
      NoneLate(es);
    }
  }

  /** Every sample from the eighth reading of a run on is marked suspect. */
  lemma RepeatsAreSuspect(p: Proc, v: int, es: seq<Event>)
    requires Begins(p, v) && IsRun(es, v) && REPEATING_READINGS <= Count(es) < 0x1_0000
    ensures MarkedSuspect(AfterAll(p, es))
  {
    RollBack(p, v, es);
  }

  /** A pulse noted before a run's eighth reading is taken back with the
      readings: from then on the estimators are as if it had not been noted. */
  lemma EarlyPulseIsForgotten(p: Proc, v: int, a: seq<Event>, b: seq<Event>)
    requires Begins(p, v) && IsRun(a, v) && IsRun(a + b, v)
    requires Count(a) < REPEATING_READINGS <= Count(a + b) < 0x1_0000
    ensures AfterAll(p, a + ([PulseNoted] + b)).est == AfterAll(p, a + b).est
  {
    PulseUncounted(a, b);
    assert IsRun(a + ([PulseNoted] + b), v);
    RollBack(p, v, a + b);
    RollBack(p, v, a + ([PulseNoted] + b));
  }

  lemma {:induction false} PulseUncounted(a: seq<Event>, b: seq<Event>)
    requires Count(a) < REPEATING_READINGS
    ensures var with, without := a + ([PulseNoted] + b), a + b;
            Count(with) == Count(without) && LastUs(with) == LastUs(without) && Late(with) == Late(without)
    decreases |b|
  {
    var with, without := a + ([PulseNoted] + b), a + b;
    if b == [] {
      assert without == a && with[..|with| - 1] == a;
    } else {
      var init := b[..|b| - 1];
      PulseUncounted(a, init);
      assert with[..|with| - 1] == a + ([PulseNoted] + init) && without[..|without| - 1] == a + init;
    }
  }

  /* ---- The sixteen-bit count ---- */

  /** For a run of any length, the count is the number of readings in sixteen
      bits: it is believed not to repeat exactly when that is below eight. */
  lemma {:induction false} CountWraps(p: Proc, v: int, es: seq<Event>)
    requires Begins(p, v) && IsRun(es, v)
    ensures var q := AfterAll(p, es);
            && q.w.stuckReadings == Count(es) % 0x1_0000 && q.w.stuckValue == v && q.started && q.w.haveReading
            && (q.w.repeating <==> Count(es) % 0x1_0000 >= REPEATING_READINGS)
    decreases |es|
  {
    hide Watched;
    var init, e := es[..|es| - 1], es[|es| - 1];
    RunBegins(p, v, es[0]);
    if |es| > 1 {
      CountWraps(p, v, init);
      if Reads(e) {
        assert e in es;
        RunGoesOn(AfterAll(p, init), e);
      }
    } else {
      assert Count(init) == 0;
    }
  }

  /* ---- Suspicion lasts a second ---- */

  /** The watch is suspicious until this time. */
  predicate SuspectTill(w: Watch, until: nat) {
    w.suspect && w.suspectUntil == Wrap(until)
  }

  /** A reading before that keeps it, or puts it off. */
  lemma SuspicionLasts(w: Watch, raw: int, t: nat, until: nat) returns (later: nat)
    requires SuspectTill(w, until) && t < until <= t + SUSPECT_US
    ensures SuspectTill(Watched(w, raw, Wrap(t)), later) && until <= later <= t + SUSPECT_US
  {
    hide Stuck;
    var us := Wrap(t);
    var joined := Joined(Gapped(w, us), raw, us);
    var gap := w.haveReading && Sub(us, w.lastUs) > GAP_US;
    later := if gap || Stuck(joined, us) then t + SUSPECT_US else until;
    AddWraps(t, SUSPECT_US);
    SignedIsTrue(later, t);
  }

  lemma AddWraps(t: nat, d: u32)
    ensures Add(Wrap(t), d) == Wrap(t + d)
  {
    WrapUnique(Wrap(t) + d, Wrap(t + d), (t + d) / 0x1_0000_0000 - t / 0x1_0000_0000);
  }

  function WatchedAll(w: Watch, raws: seq<int>, ts: seq<nat>): Watch
    requires |raws| == |ts|
  {
    if ts == [] then w
    else Watched(WatchedAll(w, raws[..|ts| - 1], ts[..|ts| - 1]), raws[|ts| - 1], Wrap(ts[|ts| - 1]))
  }

  /** Time never goes back, and all of it is within a second of the first reading's. */
  predicate WithinASecond(ts: seq<nat>) {
    forall i, j :: 0 <= i <= j < |ts| ==> ts[i] <= ts[j] < ts[i] + SUSPECT_US
  }

  /** After a gap, or a stuck run, every reading within a second of the one that
      showed it is suspect, across the timer's wrap and whatever comes between. */
  lemma {:induction false} SuspectForASecond(w: Watch, raws: seq<int>, ts: seq<nat>) returns (until: nat)
    requires |raws| == |ts| > 0 && WithinASecond(ts)
    requires var us := Wrap(ts[0]); Gapped(w, us) == Held(w, us) || Stuck(Joined(Gapped(w, us), raws[0], us), us)
    ensures SuspectTill(WatchedAll(w, raws, ts), until)
    ensures ts[0] + SUSPECT_US <= until <= ts[|ts| - 1] + SUSPECT_US
    decreases |ts|
  {
    hide Stuck;
    var n := |ts| - 1;
    if n == 0 {
      until := ts[0] + SUSPECT_US;
      AddWraps(ts[0], SUSPECT_US);
      SignedIsTrue(until, ts[0]);
      assert WatchedAll(w, raws[..0], ts[..0]) == w;
    } else {
      var before := SuspectForASecond(w, raws[..n], ts[..n]);
      assert ts[..n][n - 1] == ts[n - 1] <= ts[n];
      until := SuspicionLasts(WatchedAll(w, raws[..n], ts[..n]), raws[n], ts[n], before);
    }
  }

  /* ---- What is suspect, exactly ---- */

  /** How many readings in a row, up to the k-th, have read as it does. */
  function RunLength(raws: seq<int>, k: nat): (n: nat)
    requires k < |raws|
    ensures 0 < n <= k + 1
    ensures forall i :: k + 1 - n <= i <= k ==> raws[i] == raws[k]
    ensures n <= k ==> raws[k - n] != raws[k]
  {
    if k > 0 && raws[k - 1] == raws[k] then RunLength(raws, k - 1) + 1 else 1
  }

  /** The k-th reading is of a run of eight or more over 950 ms, as a count in
      sixteen bits and a timer of 32 show them. */
  predicate StuckAt(raws: seq<int>, ts: seq<nat>, k: nat)
    requires k < |raws| == |ts|
  {
    var run := RunLength(raws, k);
    run % 0x1_0000 >= 8 && (ts[k] as int - ts[k + 1 - run]) % TURN >= 950_000
  }

  /** It comes more than a quarter of a second after the one before it, or stuck. */
  predicate Trouble(raws: seq<int>, ts: seq<nat>, k: nat)
    requires k < |raws| == |ts|
  {
    (k > 0 && ts[k] > ts[k - 1] + 250_000) || StuckAt(raws, ts, k)
  }

  function Latest(raws: seq<int>, ts: seq<nat>, n: nat): (k: Option<nat>)
    requires n <= |raws| == |ts|
    ensures k.Some? ==> k.value < n && Trouble(raws, ts, k.value)
    ensures forall i :: (if k.Some? then k.value + 1 else 0) <= i < n ==> !Trouble(raws, ts, i)
  {
    if n == 0 then None else if Trouble(raws, ts, n - 1) then Some(n - 1) else Latest(raws, ts, n - 1)
  }

  /** Readings in order, no two in a row a turn of the timer apart. */
  predicate InOrder(ts: seq<nat>) {
    forall i :: 0 < i < |ts| ==> ts[i - 1] <= ts[i] < ts[i - 1] + TURN
  }

  /** The watch after the first n readings, n > 0: the run it is in, and its
      suspicion. */
  predicate RunIs(w: Watch, raws: seq<int>, ts: seq<nat>, n: nat)
    requires 0 < n <= |raws| == |ts|
  {
    var run := RunLength(raws, n - 1);
    && w.haveReading && w.lastUs == Wrap(ts[n - 1]) && w.stuckValue == raws[n - 1]
    && w.stuckReadings == run % 0x1_0000 && w.stuckSince == Wrap(ts[n - run]) && (w.repeating <==> run % 0x1_0000 >= 8)
  }

  predicate SuspicionIs(w: Watch, raws: seq<int>, ts: seq<nat>, n: nat)
    requires 0 < n <= |raws| == |ts|
  {
    var l := Latest(raws, ts, n);
    && (w.suspect <==> l.Some? && ts[n - 1] < ts[l.value] + 1_000_000)
    && (w.suspect ==> w.suspectUntil == Wrap(ts[l.value] + 1_000_000))
  }

  lemma RunStep(w: Watch, raws: seq<int>, ts: seq<nat>, n: nat)
    requires n < |raws| == |ts| && (if n == 0 then w == NO_WATCH else RunIs(w, raws, ts, n))
    ensures RunIs(Watched(w, raws[n], Wrap(ts[n])), raws, ts, n + 1)
  {
    hide Stuck, Wrap;
  }

  lemma StuckStep(w: Watch, raws: seq<int>, ts: seq<nat>, n: nat)
    requires n < |raws| == |ts| && (if n == 0 then w == NO_WATCH else RunIs(w, raws, ts, n))
    ensures Stuck(Joined(Gapped(w, Wrap(ts[n])), raws[n], Wrap(ts[n])), Wrap(ts[n])) <==> StuckAt(raws, ts, n)
  {
    hide Wrap, Sub;
    SubWraps(ts[n + 1 - RunLength(raws, n)], ts[n]);
    WrapIs(ts[n] as int - ts[n + 1 - RunLength(raws, n)]);
  }

  lemma WrapIs(x: int)
    ensures Wrap(x) == x % TURN
  {
  }

  /** Its suspicion, of what was held before and of trouble now. */
  lemma WatchedSuspicion(w: Watch, raw: int, us: u32)
    ensures var g := Watched(w, raw, us);
            var stuck := Stuck(Joined(Gapped(w, us), raw, us), us);
            var trouble := stuck || (w.haveReading && Sub(us, w.lastUs) > GAP_US);
            && g.suspectUntil == (if trouble then Add(us, SUSPECT_US) else w.suspectUntil)
            && (g.suspect <==> (trouble || w.suspect) && Signed(Sub(us, g.suspectUntil)) < 0)
  {
    hide Stuck;
  }

  lemma SuspicionStep(w: Watch, raws: seq<int>, ts: seq<nat>, n: nat)
    requires n < |raws| == |ts| && InOrder(ts)
    requires if n == 0 then w == NO_WATCH else RunIs(w, raws, ts, n) && SuspicionIs(w, raws, ts, n)
    ensures SuspicionIs(Watched(w, raws[n], Wrap(ts[n])), raws, ts, n + 1)
  {
    hide Watched, Stuck, StuckAt, RunLength, Wrap, Sub, Add, Signed, Joined, Gapped;
    var us := Wrap(ts[n]);
    WatchedSuspicion(w, raws[n], us);
    StuckStep(w, raws, ts, n);
    AddWraps(ts[n], SUSPECT_US);
    SignedIsTrue(ts[n] + SUSPECT_US, ts[n]);
    if n > 0 {
      ElapsedIsTrue(ts[n - 1], ts[n]);
      var l := Latest(raws, ts, n);
      if !Trouble(raws, ts, n) && w.suspect {
        Ordered(ts, l.value, n - 1);
        SignedIsTrue(ts[l.value] + SUSPECT_US, ts[n]);
      }
    }
  }

  lemma {:induction false} WatchIs(raws: seq<int>, ts: seq<nat>, n: nat)
    requires 0 < n <= |raws| == |ts| && InOrder(ts)
    ensures var w := WatchedAll(NO_WATCH, raws[..n], ts[..n]);
            RunIs(w, raws, ts, n) && SuspicionIs(w, raws, ts, n)
  {
    hide Watched, RunIs, SuspicionIs;
    var w := WatchedAll(NO_WATCH, raws[..n - 1], ts[..n - 1]);
    assert ts[..n][..n - 1] == ts[..n - 1] && raws[..n][..n - 1] == raws[..n - 1];
    if n > 1 {
      WatchIs(raws, ts, n - 1);
    }
    RunStep(w, raws, ts, n - 1);
    SuspicionStep(w, raws, ts, n - 1);
  }

  lemma {:induction false} Ordered(ts: seq<nat>, i: nat, j: nat)
    requires InOrder(ts) && i <= j < |ts|
    ensures ts[i] <= ts[j]
  {
    if i < j {
      Ordered(ts, i, j - 1);
    }
  }

  /** Over any readings in order, for as long as they go on: the watch is
      suspicious exactly within a second of a reading that came after a gap or of
      a stuck run. So an ordinary reading, with no trouble in the last second, is
      not suspect. */
  lemma SuspectExactly(raws: seq<int>, ts: seq<nat>)
    requires 0 < |raws| == |ts| && InOrder(ts)
    ensures var w, last := WatchedAll(NO_WATCH, raws, ts), |ts| - 1;
            && (w.suspect <==> exists k: nat :: k <= last && Trouble(raws, ts, k) && ts[last] < ts[k] + 1_000_000)
            && (w.repeating <==> RunLength(raws, last) % 0x1_0000 >= 8)
  {
    hide Trouble, WatchedAll;
    var n := |ts|;
    assert raws[..n] == raws && ts[..n] == ts;
    WatchIs(raws, ts, n);
    var l := Latest(raws, ts, n);
    forall k: nat | k < n && Trouble(raws, ts, k)
      ensures l.Some? && ts[k] <= ts[l.value]
    {
      assert l.Some? && k <= l.value;
      Ordered(ts, k, l.value);
    }
  }

  /** The events' usable readings are these, at these times. */
  predicate Timed(es: seq<Event>, raws: seq<int>, ts: seq<nat>) {
    if es == [] then raws == [] && ts == []
    else
      var init, e := es[..|es| - 1], es[|es| - 1];
      if !Reads(e) then Timed(init, raws, ts)
      else
        && 0 < |raws| == |ts| && e.raw == raws[|raws| - 1] && e.us == Wrap(ts[|ts| - 1])
        && Timed(init, raws[..|raws| - 1], ts[..|ts| - 1])
  }

  lemma {:induction false} TimedLengths(es: seq<Event>, raws: seq<int>, ts: seq<nat>)
    requires Timed(es, raws, ts)
    ensures |raws| == |ts|
  {
    if es != [] && !Reads(es[|es| - 1]) {
      TimedLengths(es[..|es| - 1], raws, ts);
    }
  }

  lemma {:induction false} ProcWatches(es: seq<Event>, raws: seq<int>, ts: seq<nat>)
    requires Timed(es, raws, ts) && |raws| == |ts|
    ensures AfterAll(AT_BOOT, es).w == WatchedAll(NO_WATCH, raws, ts)
    decreases es
  {
    hide Watched;
    if es != [] {
      var init := es[..|es| - 1];
      if Reads(es[|es| - 1]) {
        TimedLengths(init, raws[..|raws| - 1], ts[..|ts| - 1]);
        ProcWatches(init, raws[..|raws| - 1], ts[..|ts| - 1]);
      } else {
        ProcWatches(init, raws, ts);
      }
    }
  }

  /** What a sample says of its reading, from boot, whatever pulses and unusable
      readings come between: suspect exactly within a second of trouble, or as a
      repeat. */
  lemma MarkedExactly(es: seq<Event>, raws: seq<int>, ts: seq<nat>)
    requires Timed(es, raws, ts) && 0 < |raws| == |ts| && InOrder(ts)
    ensures MarkedSuspect(AfterAll(AT_BOOT, es)) <==>
            || RunLength(raws, |ts| - 1) % 0x1_0000 >= 8
            || exists k: nat :: k < |ts| && Trouble(raws, ts, k) && ts[|ts| - 1] < ts[k] + 1_000_000
  {
    hide WatchedAll, Trouble;
    ProcWatches(es, raws, ts);
    SuspectExactly(raws, ts);
  }

  /* ---- The intake, over every estimator ---- */

  class Intake {
    const est: array<History>
    const saved: array<History>
    var w: Watch
    var started: bool
    ghost var p: Proc

    /** Every estimator has been told the same. */
    ghost predicate Valid()
      reads this, est, saved
    {
      && est != saved && est.Length == saved.Length && w == p.w && started == p.started
      && (forall i :: 0 <= i < est.Length ==> est[i] == p.est)
      && (forall i :: 0 <= i < est.Length ==> saved[i] == p.saved)
    }

    /** pp_init() */
    constructor (estimators: nat)
      ensures Valid() && p == AT_BOOT && est.Length == estimators && fresh(est) && fresh(saved)
    {
      est := new History[estimators](_ => []);
      saved := new History[estimators](_ => []);
      w := NO_WATCH;
      started := false;
      p := AT_BOOT;
    }

    method WatchForGapAndStuck(raw: int, us: u32) returns (stuck: bool)
      modifies `w
      ensures w == Watched(old(w), raw, us)
      ensures stuck == Stuck(Joined(Gapped(old(w), us), raw, us), us)
    {
      if w.haveReading && Sub(us, w.lastUs) > GAP_US {
        w := Held(w, us);
      }
      if !w.haveReading || raw != w.stuckValue {
        w := w.(stuckValue := raw, stuckSince := us, stuckReadings := 0);
      }
      w := w.(stuckReadings := (w.stuckReadings + 1) % 0x1_0000, haveReading := true, lastUs := us);
      stuck := w.stuckReadings >= STUCK_MIN_READINGS && Sub(us, w.stuckSince) >= STUCK_SPAN_US;
      if stuck {
        w := Held(w, us);
      }
      if w.suspect && Signed(Sub(us, w.suspectUntil)) >= 0 {
        w := w.(suspect := false);
      }
      w := w.(repeating := w.stuckReadings >= REPEATING_READINGS);
    }

    method Remember()
      requires est != saved && est.Length == saved.Length
      modifies saved
      ensures forall i :: 0 <= i < est.Length ==> saved[i] == est[i]
    {
      for i := 0 to est.Length
        invariant forall j :: 0 <= j < i ==> saved[j] == est[j]
      {
        saved[i] := est[i];
      }
    }

    method PutBack()
      requires est != saved && est.Length == saved.Length
      modifies est
      ensures forall i :: 0 <= i < est.Length ==> est[i] == saved[i]
    {
      for i := 0 to est.Length
        invariant forall j :: 0 <= j < i ==> est[j] == saved[j]
      {
        est[i] := saved[i];
      }
    }

    method CallAll(c: Call)
      modifies est
      ensures forall i :: 0 <= i < est.Length ==> est[i] == old(est[i]) + [c]
    {
      for i := 0 to est.Length
        invariant forall j :: 0 <= j < i ==> est[j] == old(est[j]) + [c]
        invariant forall j :: i <= j < est.Length ==> est[j] == old(est[j])
      {
        est[i] := est[i] + [c];
      }
    }

    method StartAll(raw: int, us: u32)
      requires est != saved && est.Length == saved.Length
      modifies est, saved, `started
      ensures started && forall i :: 0 <= i < est.Length ==> est[i] == [Start(raw, us)] && saved[i] == est[i]
    {
      for i := 0 to est.Length
        invariant forall j :: 0 <= j < i ==> est[j] == [Start(raw, us)]
      {
        est[i] := [Start(raw, us)];
      }
      started := true;
      Remember();
    }

    /** feed_estimators() */
    method FeedEstimators(raw: int, us: u32)
      requires est != saved && est.Length == saved.Length
      requires (forall i :: 0 <= i < est.Length ==> est[i] == p.est) && started == p.started
      requires (forall i :: 0 <= i < est.Length ==> saved[i] == p.saved) && w == Watched(p.w, raw, us)
      modifies est, saved, `started, `p
      ensures Valid() && p == Fed(old(p), raw, us)
    {
      hide Watched;
      if !started {
        StartAll(raw, us);
      } else {
        if w.stuckReadings == REPEATING_READINGS {
          PutBack();
        }
        CallAll(if w.repeating then NoReading(us) else Reading(raw, us));
        if w.stuckReadings == 1 {
          Remember();
        }
      }
      p := Fed(p, raw, us);
    }

    /** pp_feed_us(), and what a sample made of the reading is marked. */
    method TakeReading(raw: int, us: u32) returns (suspect: bool, stuck: bool)
      requires Valid()
      modifies this, est, saved
      ensures Valid() && p == After(old(p), Feed(raw, us))
      ensures raw > 0 ==> suspect == MarkedSuspect(p)
    {
      hide Watched;
      if raw <= 0 {
        return false, false;
      }
      stuck := WatchForGapAndStuck(raw, us);
      FeedEstimators(raw, us);
      suspect := w.suspect || w.repeating;
    }

    /** pp_note_pulse() */
    method NotePulse()
      requires Valid()
      modifies est, `p
      ensures Valid() && p == After(old(p), PulseNoted)
    {
      if started {
        CallAll(Pulse(w.lastUs));
      }
      p := After(p, PulseNoted);
    }
  }
}
