/** Where readings take the altitude filter's state (src/altitude_filter.c).

    Covariances says what a gain leaves of the variance; here the state itself is
    followed, against the reading and against a true flight: how far a heeded
    reading moves it and which way, what is left of an error it had, and that on
    the motion it models it stays exact. */
module FilterState {
  import opened Words
  import opened BadRun
  import opened Covariances
  import opened AltitudeFilter

  /** The combination w of a state. */
  function Along(k: Kin, w: Vec): real {
    w.h * k.altitude + w.v * k.speed + w.a * k.accel
  }

  function Abs(x: real): real {
    if x < 0.0 then -x else x
  }

  function Larger(x: real, y: real): real {
    if x > y then x else y
  }

  /** A reading that moves the state. */
  ghost predicate Used(f: Filter, r: Reading) {
    Good(f) && r.mPerPa != 0.0 && Heeded(f, r) && !Updated(f, r).rejected
  }

  /** A reading's height over the reference less the filter's. */
  function Residual(r: Reading, f: Filter, k: Kin): real {
    r.altitudeM - f.refM - k.altitude
  }

  /* ---- A correction ---- */

  lemma Shrinks(z: real, x: real, y: real, hh: real, rv: real, s: real)
    requires s > 0.0 && s == hh + rv && y == x + hh / s * (z - x)
    ensures (z - y) * s == (z - x) * rv
  {
    var g := hh / s;
    Divided(hh, s);
    calc {
      (z - y) * s;
      (z - x) * s - (g * (z - x)) * s;
      (z - x) * s - (g * s) * (z - x);
      (z - x) * rv;
    }
  }

  lemma SmallerShare(x: real, y: real, hh: real, rv: real, s: real)
    requires hh >= 0.0 && rv > 0.0 && s == hh + rv && y * s == x * rv
    ensures (x > 0.0 ==> 0.0 < y <= x) && (x == 0.0 ==> y == 0.0) && (x < 0.0 ==> x <= y < 0.0)
    ensures hh > 0.0 && x != 0.0 ==> y != x
  {
    assert (x - y) * s == x * hh;
    if x > 0.0 {
      PositiveProduct(x, rv);
      SignOf(y, s);
      NonNegativeProduct(x, hh);
      SignOf(x - y, s);
    } else if x < 0.0 {
      PositiveProduct(-x, rv);
      SignOf(-y, s);
      NonNegativeProduct(-x, hh);
      SignOf(y - x, s);
    } else {
      SignOf(y, s);
      SignOf(-y, s);
    }
    if hh > 0.0 && x > 0.0 {
      PositiveProduct(x, hh);
    } else if hh > 0.0 && x < 0.0 {
      PositiveProduct(-x, hh);
    }
  }

  lemma PositiveProduct(x: real, y: real)
    requires x > 0.0 && y > 0.0
    ensures x * y > 0.0
  {
  }

  lemma NonNegativeProduct(x: real, y: real)
    requires x >= 0.0 && y >= 0.0
    ensures x * y >= 0.0
  {
  }

  lemma SignOf(x: real, s: real)
    requires s > 0.0
    ensures x * s > 0.0 ==> x > 0.0
    ensures x * s >= 0.0 ==> x >= 0.0
  {
    if x < 0.0 {
      PositiveProduct(-x, s);
      assert (-x) * s == -(x * s);
    }
  }

  /** A reading that is used takes the altitude toward it and never past it:
      what is left between them is the part ReadingVar / InnovationVar of what
      there was, on the same side, and less than it unless the altitude was
      certain. The reference stays. */
  lemma MovesTowardReading(f: Filter, r: Reading)
    requires Used(f, r)
    ensures var before, after := Residual(r, f, AtReading(f, r).kin), Residual(r, f, Updated(f, r).belief.kin);
            && after * InnovationVar(f, r) == before * ReadingVar(f.noiseVarPa2, r.mPerPa)
            && (before > 0.0 ==> 0.0 < after <= before)
            && (before == 0.0 ==> after == 0.0)
            && (before < 0.0 ==> before <= after < 0.0)
            && (AtReading(f, r).cov.hh > 0.0 && before != 0.0 ==> after != before)
    ensures Updated(f, r).refM == f.refM
  {
    hide Good, PredictedKin, PredictedCov, CorrectedCov, ReadingVar, NoiseTracked, Refused, Since, Outlier, Elapsed;
    hide InnovationVar;
    UsedIs(f, r);
    var p, s := AtReading(f, r), InnovationVar(f, r);
    var rv := ReadingVar(f.noiseVarPa2, r.mPerPa);
    var k := Updated(f, r).belief.kin;
    Shrinks(r.altitudeM - f.refM, p.kin.altitude, k.altitude, p.cov.hh, rv, s);
    AltitudeVarianceNonNegative(p.cov);
    ReadingVarFloor(f.noiseVarPa2, r.mPerPa);
    SmallerShare(Residual(r, f, p.kin), Residual(r, f, k), p.cov.hh, rv, s);
  }

  /** What a used reading makes of the prediction. */
  lemma UsedIs(f: Filter, r: Reading)
    requires Used(f, r)
    ensures var p, s := AtReading(f, r), InnovationVar(f, r);
            && Psd(p.cov) && s > 0.0 && s == p.cov.hh + ReadingVar(f.noiseVarPa2, r.mPerPa)
            && Updated(f, r).belief.kin == CorrectedKin(p.kin, p.cov, Residual(r, f, p.kin), s)
    ensures Updated(f, r).refM == f.refM
  {
    hide Good, PredictedKin, PredictedCov, CorrectedCov, CorrectedKin, ReadingVar, NoiseTracked, Refused, Since;
    hide Outlier, Elapsed;
    InnovationVarPositive(f, r);
  }

  lemma GainAlong(x: real, v: real, a: real, hh: real, hv: real, ha: real, i: real, s: real, h: real, u: real, b: real)
    requires s != 0.0
    ensures h * (x + hh / s * i) + u * (v + hv / s * i) + b * (a + ha / s * i)
         == h * x + u * v + b * a + (hh * h + hv * u + ha * b) / s * i
  {
    var gh, gv, ga := hh / s, hv / s, ha / s;
    Divided(hh, s);
    Divided(hv, s);
    Divided(ha, s);
    var g := gh * h + gv * u + ga * b;
    assert g * s == hh * h + hv * u + ha * b by {
      assert g * s == (gh * s) * h + (gv * s) * u + (ga * s) * b;
    }
    Ratio(g, hh * h + hv * u + ha * b, s);
    assert h * (x + gh * i) + u * (v + gv * i) + b * (a + ga * i) == h * x + u * v + b * a + g * i;
  }

  lemma Reach(row: real, s: real, i: real, error: real, e: real)
    requires s != 0.0 && i == e - error
    ensures row / s * i == row / s * e - row / s * error
  {
  }

  /** How far a used reading moves the combination w for each metre of its
      innovation: the covariance of w with the altitude over the innovation
      variance. */
  ghost function MetresPerMetre(f: Filter, r: Reading, w: Vec): real
    requires Used(f, r)
  {
    UsedIs(f, r);
    AltitudeRow(AtReading(f, r).cov, w) / InnovationVar(f, r)
  }

  /** Against any true state: along every combination w the error after a used
      reading is the prediction's, less its altitude error by MetresPerMetre, the
      gain GainIsOptimal is about, plus the reading's own error by the same. A
      reading that shows the true altitude has none. */
  lemma ErrorAfter(f: Filter, r: Reading, truth: Kin, w: Vec)
    requires Used(f, r)
    ensures var k, readingError := AtReading(f, r).kin, r.altitudeM - f.refM - truth.altitude;
            Along(Updated(f, r).belief.kin, w) - Along(truth, w) == Along(k, w) - Along(truth, w)
              - MetresPerMetre(f, r, w) * (k.altitude - truth.altitude) + MetresPerMetre(f, r, w) * readingError
  {
    hide Good, AtReading, Updated, Heeded, InnovationVar, Psd;
    UsedIs(f, r);
    var p, s := AtReading(f, r), InnovationVar(f, r);
    var i := Residual(r, f, p.kin);
    RowIs(p.cov, w);
    GainAlong(p.kin.altitude, p.kin.speed, p.kin.accel, p.cov.hh, p.cov.hv, p.cov.ha, i, s, w.h, w.v, w.a);
    Reach(AltitudeRow(p.cov, w), s, i, p.kin.altitude - truth.altitude, r.altitudeM - f.refM - truth.altitude);
  }

  /* ---- A prediction ---- */

  /** The state is carried by the transition whose transpose carries the
      covariance's quadratic form. */
  lemma PredictionIsTransition(k: Kin, dt: real, w: Vec)
    ensures Along(PredictedKin(k, dt), w) == Along(k, Back(dt, w))
  {
    TransitionScalars(k.altitude, k.speed, k.accel, dt, w.h, w.v, w.a);
  }

  lemma TransitionScalars(x: real, v: real, a: real, dt: real, h: real, u: real, b: real)
    ensures h * (x + (v * dt + a * (0.5 * dt * dt))) + u * (v + a * dt) + b * a
         == h * x + (h * dt + u) * v + (h * (0.5 * dt * dt) + u * dt + b) * a
  {
    assert h * (v * dt) == (h * dt) * v;
    assert h * (a * (0.5 * dt * dt)) == (h * (0.5 * dt * dt)) * a;
    assert u * (a * dt) == (u * dt) * a;
  }

  /** True elapsed seconds. */
  function Seconds(us: int): real {
    us as real / 1_000_000.0
  }

  /** A reading is heeded exactly when its true time is later than the last
      heeded one's, and what the filter predicts over is the time between, in
      seconds. A reading not heeded changes nothing. */
  lemma HeededIsLater(f: Filter, r: Reading, was: int, now: int)
    requires f.started && Good(f) && r.mPerPa != 0.0
    requires f.tUs == Wrap(was) && r.tUs == Wrap(now) && -HALF_TURN <= now - was < HALF_TURN
    ensures Heeded(f, r) <==> now > was
    ensures Heeded(f, r) ==> AtReading(f, r) == Predicted(f.belief, Seconds(now - was))
    ensures Updated(f, r).tUs == (if now > was then Wrap(now) else Wrap(was))
    ensures now <= was ==> Updated(f, r) == f
  {
    hide Good, PredictedKin, PredictedCov, CorrectedCov, CorrectedKin, ReadingVar, NoiseTracked, Refused, Since;
    hide Outlier;
    SignedIsTrue(was, now);
    if now > was {
      assert Elapsed(f.tUs, r.tUs) == Seconds(now - was) > 0.0;
    }
  }

  /* ---- A flight it models ---- */

  /** Constant acceleration from a state, s seconds on. */
  function Flown(k: Kin, s: real): Kin {
    Kin(k.altitude + k.speed * s + k.accel * s * s / 2.0, k.speed + k.accel * s, k.accel)
  }

  datatype Look = Look(timeUs: int, mPerPa: real)

  /** The time of the last look, or of the state it started in. */
  function LastTime(t0: int, looks: seq<Look>): int {
    if looks == [] then t0 else looks[|looks| - 1].timeUs
  }

  predicate InTurn(t0: int, looks: seq<Look>) {
    forall i :: 0 <= i < |looks| ==>
      looks[i].mPerPa != 0.0 && 0 < looks[i].timeUs - LastTime(t0, looks[..i]) < HALF_TURN
  }

  /** What the sensor shows of the flight k, over a reference. */
  function ReadingOf(refM: real, k: Kin, t0: int, l: Look): Reading {
    Reading(refM + Flown(k, Seconds(l.timeUs - t0)).altitude, l.mPerPa, Wrap(l.timeUs))
  }

  function ReadingsOf(refM: real, k: Kin, t0: int, looks: seq<Look>): (rs: seq<Reading>)
    requires forall l :: l in looks ==> l.mPerPa != 0.0
    ensures |rs| == |looks| && Usable(rs)
  {
    if looks == [] then []
    else ReadingsOf(refM, k, t0, looks[..|looks| - 1]) + [ReadingOf(refM, k, t0, looks[|looks| - 1])]
  }

  lemma FlownIsMoved(x: real, v: real, a: real, s: real, t: real)
    ensures PredictedKin(Flown(Kin(x, v, a), s), t) == Flown(Kin(x, v, a), s + t)
  {
    calc {
      PredictedKin(Flown(Kin(x, v, a), s), t);
      MovedKin(x + v * s + a * s * s / 2.0, v + a * s, a, t);
      Kin(x + v * (s + t) + a * (s + t) * (s + t) / 2.0, v + a * (s + t), a);
      Flown(Kin(x, v, a), s + t);
    }
  }

  lemma ExactReading(f: Filter, r: Reading)
    requires Good(f) && r.mPerPa != 0.0 && Heeded(f, r) && Residual(r, f, AtReading(f, r).kin) == 0.0
    ensures Updated(f, r).belief.kin == AtReading(f, r).kin && !Updated(f, r).rejected
    ensures Updated(f, r).refM == f.refM
  {
    hide Good, PredictedKin, PredictedCov, CorrectedCov, ReadingVar, NoiseTracked, Since, Elapsed;
    InnovationVarPositive(f, r);
    assert !Outlier(0.0, InnovationVar(f, r));
  }

  /** On a flight of constant acceleration shown exactly, at any times and over
      any turns of the timer, a filter once right is right at every reading, and
      refuses none. */
  lemma {:induction false} ExactOnModel(f: Filter, k: Kin, t0: int, looks: seq<Look>)
    requires Good(f) && f.started && f.tUs == Wrap(t0) && f.belief.kin == k
    requires InTurn(t0, looks) && forall l :: l in looks ==> l.mPerPa != 0.0
    ensures var g := Run(f, ReadingsOf(f.refM, k, t0, looks));
            && g.belief.kin == Flown(k, Seconds(LastTime(t0, looks) - t0))
            && g.started && g.refM == f.refM && g.tUs == Wrap(LastTime(t0, looks))
            && (looks != [] ==> !g.rejected)
  {
    hide Good, Updated, PredictedKin, PredictedCov, Flown, AtReading, Heeded;
    if looks == [] {
      FlownNowhere(k);
    } else {
      var init, l := looks[..|looks| - 1], looks[|looks| - 1];
      assert forall i :: 0 <= i < |init| ==> init[..i] == looks[..i];
      ExactOnModel(f, k, t0, init);
      var rs := ReadingsOf(f.refM, k, t0, looks);
      var r := ReadingOf(f.refM, k, t0, l);
      assert rs[..|rs| - 1] == ReadingsOf(f.refM, k, t0, init) && rs[|rs| - 1] == r;
      var g := Run(f, ReadingsOf(f.refM, k, t0, init));
      var was := LastTime(t0, init);
      HeededIsLater(g, r, was, l.timeUs);
      FlownIsMoved(k.altitude, k.speed, k.accel, Seconds(was - t0), Seconds(l.timeUs - was));
      assert Seconds(was - t0) + Seconds(l.timeUs - was) == Seconds(l.timeUs - t0);
      ExactReading(g, r);
      StaysStarted(g, r);
    }
  }

  lemma FlownNowhere(k: Kin)
    ensures Flown(k, Seconds(0)) == k
  {
  }

  lemma StaysStarted(f: Filter, r: Reading)
    requires Good(f) && r.mPerPa != 0.0
    ensures Updated(f, r).started == f.started
  {
    hide Good, PredictedKin, PredictedCov, CorrectedCov, CorrectedKin, ReadingVar, NoiseTracked, Refused, Since;
    hide Outlier, Elapsed;
  }

  /* ---- The noise and the gate ---- */

  /** Read off standard deviations: a reading's is the sensor's as altitude, or
      half a metre where that is larger; and a reading is far off exactly when it
      is more than six standard deviations of the innovation from the prediction. */
  lemma SigmasAre(sigmaPa: real, mPerPa: real, sigma: real, innovation: real)
    requires sigmaPa >= 0.0 && mPerPa >= 0.0 && sigma >= 0.0
    ensures ReadingVar(sigmaPa * sigmaPa, mPerPa) == Squared(Larger(sigmaPa * mPerPa, 0.5))
    ensures Outlier(innovation, sigma * sigma) <==> Abs(innovation) > 6.0 * sigma
  {
    var x := sigmaPa * mPerPa;
    assert (sigmaPa * sigmaPa) * (mPerPa * mPerPa) == x * x;
    NonNegativeProduct(sigmaPa, mPerPa);
    SquareOrder(x, 0.5);
    SquareOrder(Abs(innovation), 6.0 * sigma);
    assert Abs(innovation) * Abs(innovation) == innovation * innovation;
    assert (6.0 * sigma) * (6.0 * sigma) == 36.0 * (sigma * sigma);
  }

  lemma SquareOrder(x: real, y: real)
    requires x >= 0.0 && y >= 0.0
    ensures x * x > y * y <==> x > y
  {
    assert x * x - y * y == (x + y) * (x - y);
    if x > y {
      PositiveProduct(x + y, x - y);
    } else {
      NonNegativeProduct(x + y, y - x);
    }
  }

  /** The tracked noise goes from what it was toward half the square of the last
      step, as a pressure: the part dt / 2 s of the way, all of it from two
      seconds on, and never below the floor. With no step to go by it stays. */
  lemma NoiseFollowsSteps(f: Filter, innovation: real, dt: real)
    requires f.mPerPa != 0.0 && dt > 0.0 && f.noiseVarPa2 >= Squared(NOISE_FLOOR_PA)
    ensures var was, now := f.noiseVarPa2, NoiseTracked(f, innovation, dt);
            var scatter := Squared((innovation - f.lastInnovation) / f.mPerPa) / 2.0;
            if f.haveLastInnovation then Follows(was, now, scatter, dt) else now == was
  {
    hide Squared, Follows;
    if f.haveLastInnovation {
      var step := Squared((innovation - f.lastInnovation) / f.mPerPa);
      NoiseIs(f, innovation, dt);
      assert 0.5 * step == step / 2.0;
      FloorIs();
      Following(f.noiseVarPa2, step / 2.0, dt);
    }
  }

  /** From was to now, toward what the scatter says. */
  predicate Follows(was: real, now: real, scatter: real, dt: real) {
    && now >= 1.44 && now <= Larger(was, scatter) && (was <= scatter ==> was <= now) && (scatter == was ==> now == was)
    && (dt >= 2.0 ==> now == Larger(scatter, 1.44))
    && (dt <= 2.0 ==> 2.0 * now >= (2.0 - dt) * was + dt * scatter)
    && (dt <= 2.0 && now > 1.44 ==> 2.0 * now == (2.0 - dt) * was + dt * scatter)
  }

  /** Part of the way, and not below the floor. */
  function Toward(was: real, scatter: real, weight: real): real {
    Larger(was + weight * (scatter - was), 1.44)
  }

  function Weight(dt: real): real {
    if dt / 2.0 > 1.0 then 1.0 else dt / 2.0
  }

  lemma NoiseIs(f: Filter, innovation: real, dt: real)
    requires f.mPerPa != 0.0 && f.haveLastInnovation
    ensures NoiseTracked(f, innovation, dt)
         == Toward(f.noiseVarPa2, 0.5 * Squared((innovation - f.lastInnovation) / f.mPerPa), Weight(dt))
  {
    FloorIs();
    hide Squared;
  }

  lemma FloorIs()
    ensures Squared(NOISE_FLOOR_PA) == 1.44
  {
  }

  lemma Following(was: real, scatter: real, dt: real)
    requires dt > 0.0 && was >= 1.44
    ensures Follows(was, Toward(was, scatter, Weight(dt)), scatter, dt)
  {
    hide Follows, Weight;
    var weight := Weight(dt);
    var mid := was + weight * (scatter - was);
    TowardIs(was, scatter, weight, mid);
    FollowingTo(was, scatter, dt, weight, mid);
  }

  lemma TowardIs(was: real, scatter: real, weight: real, mid: real)
    requires mid == was + weight * (scatter - was)
    ensures Toward(was, scatter, weight) == Larger(mid, 1.44)
  {
  }

  lemma FollowingTo(was: real, scatter: real, dt: real, weight: real, mid: real)
    requires dt > 0.0 && was >= 1.44 && mid == was + weight * (scatter - was)
    requires weight == Weight(dt)
    ensures Follows(was, Larger(mid, 1.44), scatter, dt)
  {
    hide Follows;
    PartWay(was, scatter, weight, mid);
    if dt <= 2.0 {
      Doubled(was, scatter, weight, dt, mid);
    }
    Floored(was, mid, scatter, dt);
  }

  lemma Floored(was: real, mid: real, scatter: real, dt: real)
    requires was >= 1.44 && mid <= Larger(was, scatter) && (was <= scatter ==> was <= mid)
    requires (was == scatter ==> mid == was) && (dt >= 2.0 ==> mid == scatter)
    requires dt <= 2.0 ==> 2.0 * mid == (2.0 - dt) * was + dt * scatter
    ensures Follows(was, Larger(mid, 1.44), scatter, dt)
  {
  }

  lemma PartWay(was: real, to: real, weight: real, mid: real)
    requires 0.0 <= weight <= 1.0 && mid == was + weight * (to - was)
    ensures mid <= Larger(was, to) && (was <= to ==> was <= mid) && (was == to ==> mid == was)
    ensures weight == 1.0 ==> mid == to
  {
    if was <= to {
      NonNegativeProduct(weight, to - was);
      NonNegativeProduct(1.0 - weight, to - was);
      assert (1.0 - weight) * (to - was) == (to - was) - weight * (to - was);
    } else {
      NonNegativeProduct(weight, was - to);
      assert weight * (was - to) == -(weight * (to - was));
    }
  }

  lemma Doubled(was: real, to: real, weight: real, u: real, mid: real)
    requires u == 2.0 * weight && mid == was + weight * (to - was)
    ensures 2.0 * mid == (2.0 - u) * was + u * to
  {
    calc {
      2.0 * mid;
      2.0 * was + (2.0 * weight) * (to - was);
      2.0 * was + u * (to - was);
      (2.0 - u) * was + u * to;
    }
  }

  /* ---- What else a reading leaves ---- */

  /** Started, the filter shows the height it was started at, at rest; it is as
      unsure of that as of a reading at the noise floor, 8 m/s unsure of the speed
      and 8 m/s^2 of the acceleration, and of nothing together; and no run of far
      readings, and no step, is under way. */
  lemma StartShows(was: real, altitudeM: real, mPerPa: real, tUs: u32, w: Vec)
    ensures var f := Started(was, altitudeM, mPerPa, tUs);
            && f.started && f.tUs == tUs && f.mPerPa == mPerPa && !f.rejected && !f.haveLastInnovation
            && f.refM + f.belief.kin.altitude == altitudeM && f.belief.kin.speed == 0.0 && f.belief.kin.accel == 0.0
            && Quad(f.belief.cov, w) == ReadingVar(1.44, mPerPa) * w.h * w.h + 64.0 * w.v * w.v + 64.0 * w.a * w.a
            && f.noiseVarPa2 == 1.44 && f.sinceUs == AfterLooks([])
  {
    StartForm(ReadingVar(1.44, mPerPa), w.h, w.v, w.a);
  }

  lemma StartForm(hh: real, h: real, v: real, a: real)
    ensures Quad(InitialCov(hh), Vec(h, v, a)) == hh * h * h + 64.0 * v * v + 64.0 * a * a
  {
  }

  /** More than six standard deviations of its innovation from the prediction. */
  predicate Far(f: Filter, r: Reading) {
    var x := Residual(r, f, AtReading(f, r).kin);
    x * x > 36.0 * InnovationVar(f, r)
  }

  /** A heeded reading that is refused leaves the prediction, and no step for the
      noise to follow; one that is used is the step's next beginning, and the noise
      follows it unless it was far. */
  lemma WhatIsKept(f: Filter, r: Reading)
    requires Good(f) && r.mPerPa != 0.0 && Heeded(f, r)
    ensures var g := Updated(f, r);
            && g.mPerPa == r.mPerPa
            && g.sinceUs == Since(f.sinceUs, Far(f, r), r.tUs)
            && (g.rejected <==> Refused(f.sinceUs, Far(f, r), r.tUs))
            && (g.haveLastInnovation <==> !g.rejected)
            && (g.rejected ==> g.belief == AtReading(f, r) && g.noiseVarPa2 == f.noiseVarPa2)
            && (!g.rejected ==>
                  && g.lastInnovation == Residual(r, f, AtReading(f, r).kin)
                  && g.noiseVarPa2
                  == (if Far(f, r) then f.noiseVarPa2
                      else NoiseTracked(f.(mPerPa := r.mPerPa), g.lastInnovation, Elapsed(f.tUs, r.tUs))))
  {
    hide Good, PredictedKin, PredictedCov, CorrectedCov, CorrectedKin, ReadingVar, Refused, Since, Elapsed;
    NoiseOf(f, AtReading(f, r), r, Since(f.sinceUs, Far(f, r), r.tUs), Refused(f.sinceUs, Far(f, r), r.tUs));
  }

  /** The noise tracked does not depend on the belief, nor on the gate. */
  lemma NoiseOf(f: Filter, b: Belief, r: Reading, since: u32, refused: bool)
    requires r.mPerPa != 0.0
    ensures var g := f.(tUs := r.tUs, mPerPa := r.mPerPa, belief := b, sinceUs := since, rejected := refused);
            forall x: real, dt: real :: NoiseTracked(g, x, dt) == NoiseTracked(f.(mPerPa := r.mPerPa), x, dt)
  {
  }

  /** Each reading of a run as the gate finds it, at its true time. */
  ghost function LooksOf(f: Filter, rs: seq<Reading>, ts: seq<int>): (ls: seq<BadRun.Look>)
    requires Good(f) && Usable(rs) && |ts| == |rs|
    ensures |ls| == |rs| && forall i :: 0 <= i < |ls| ==> ls[i].t == ts[i]
  {
    if rs == [] then []
    else
      var n := |rs| - 1;
      LooksOf(f, rs[..n], ts[..n]) + [BadRun.Look(Far(Run(f, rs[..n]), rs[n]), ts[n])]
  }

  /** The readings were taken then, after the first time and each after the other,
      all within half a turn of the timer. */
  predicate At(t0: int, rs: seq<Reading>, ts: seq<int>) {
    && |ts| == |rs|
    && (forall i :: 0 <= i < |rs| ==> rs[i].tUs == Wrap(ts[i]) && t0 < ts[i] < t0 + HALF_TURN)
    && (forall i, j :: 0 <= i < j < |rs| ==> ts[i] < ts[j])
  }

  lemma {:induction false} RunGates(f: Filter, t0: int, rs: seq<Reading>, ts: seq<int>)
    requires Good(f) && f.started && f.tUs == Wrap(t0) && f.sinceUs == 0 && Usable(rs) && At(t0, rs, ts)
    ensures var g := Run(f, rs);
            && g.started && g.tUs == Wrap(if ts == [] then t0 else ts[|ts| - 1])
            && g.sinceUs == AfterLooks(LooksOf(f, rs, ts))
            && (rs != [] ==> (var n := |rs| - 1; g.rejected <==>
                  Refused(AfterLooks(LooksOf(f, rs[..n], ts[..n])), Far(Run(f, rs[..n]), rs[n]), rs[n].tUs)))
  {
    hide Good, Updated, Far, Refused, Since, Heeded, Wrap;
    if rs != [] {
      var n := |rs| - 1;
      RunGates(f, t0, rs[..n], ts[..n]);
      var g := Run(f, rs[..n]);
      HeededIsLater(g, rs[n], if n == 0 then t0 else ts[n - 1], ts[n]);
      WhatIsKept(g, rs[n]);
      StaysStarted(g, rs[n]);
      assert LooksOf(f, rs, ts)[..n] == LooksOf(f, rs[..n], ts[..n]);
    }
  }

  /** Through every run, the newest reading is refused exactly when it is far and
      less than 50 ms have passed since the anchor of the run of far ones it ends. */
  lemma RejectedExactly(f: Filter, t0: int, rs: seq<Reading>, ts: seq<int>)
    requires Good(f) && f.started && f.tUs == Wrap(t0) && f.sinceUs == 0
    requires rs != [] && Usable(rs) && At(t0, rs, ts)
    ensures var far, n := FarRun(LooksOf(f, rs, ts)), |rs| - 1;
            && (Far(Run(f, rs[..n]), rs[n]) <==> far != [])
            && (Run(f, rs).rejected <==> far != [] && ts[n] - far[Anchor(far)] < BAD_RUN_US)
  {
    hide Good, Updated, Far, Refused, Wrap, Anchor, FarRun;
    var n := |rs| - 1;
    var ls := LooksOf(f, rs, ts);
    RunGates(f, t0, rs, ts);
    assert ls[..n] == LooksOf(f, rs[..n], ts[..n]);
    RefusedInItsRun(ls);
  }
}
