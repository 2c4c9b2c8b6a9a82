/** The altitude filter (src/altitude_filter.c), a Kalman filter whose model holds
    the acceleration, over the reals. */
module AltitudeFilter {
  import opened Words
  import opened BadRun
  import opened Covariances

  const INITIAL_SPEED_VAR := 64.0
  const INITIAL_ACCEL_VAR := 64.0

  datatype Kin = Kin(altitude: real, speed: real, accel: real)

  /** What the filter believes: a state and its covariance. */
  datatype Belief = Belief(kin: Kin, cov: Cov)

  datatype Filter = Filter(started: bool, refM: real, tUs: u32, belief: Belief, noiseVarPa2: real, mPerPa: real,
                           lastInnovation: real, haveLastInnovation: bool, sinceUs: u32, rejected: bool)

  const NOISE_FLOOR_PA := 1.2
  const READING_NOISE_M := 0.5
  const NOISE_TRACK_S := 2.0

  function Squared(x: real): real {
    x * x
  }

  function ReadingVar(noiseVarPa2: real, mPerPa: real): real {
    var sensor := noiseVarPa2 * Squared(mPerPa);
    var floor := Squared(READING_NOISE_M);
    if sensor > floor then sensor else floor
  }

  function InitialCov(hh: real): Cov {
    Cov(hh, 0.0, 0.0, INITIAL_SPEED_VAR, 0.0, INITIAL_ACCEL_VAR)
  }

  function Started(lastInnovation: real, altitudeM: real, mPerPa: real, tUs: u32): Filter {
    var noise := Squared(NOISE_FLOOR_PA);
    Filter(true, altitudeM, tUs, Belief(Kin(0.0, 0.0, 0.0), InitialCov(ReadingVar(noise, mPerPa))),
           noise, mPerPa, lastInnovation, false, 0, false)
  }

  function Elapsed(was: u32, now: u32): real {
    Signed(Sub(now, was)) as real * 0.000001
  }

  function PredictedKin(k: Kin, dt: real): Kin {
    MovedKin(k.altitude, k.speed, k.accel, dt)
  }

  function MovedKin(x: real, v: real, a: real, dt: real): Kin {
    Kin(x + (v * dt + a * (0.5 * dt * dt)), v + a * dt, a)
  }

  function Predicted(b: Belief, dt: real): Belief {
    Belief(PredictedKin(b.kin, dt), PredictedCov(b.cov, dt))
  }

  function CorrectedKin(k: Kin, p: Cov, innovation: real, s: real): Kin
    requires s != 0.0
  {
    Kin(k.altitude + p.hh / s * innovation, k.speed + p.hv / s * innovation, k.accel + p.ha / s * innovation)
  }

  function Corrected(b: Belief, innovation: real, s: real): Belief
    requires s != 0.0
  {
    Belief(CorrectedKin(b.kin, b.cov, innovation, s), CorrectedCov(b.cov, s))
  }

  /** The sensor noise tracked by the scatter of successive innovations. */
  function NoiseTracked(f: Filter, innovation: real, dt: real): (noise: real)
    requires f.mPerPa != 0.0
    ensures f.noiseVarPa2 >= Squared(NOISE_FLOOR_PA) ==> noise >= Squared(NOISE_FLOOR_PA)
  {
    if !f.haveLastInnovation then f.noiseVarPa2
    else
      var stepPa := (innovation - f.lastInnovation) / f.mPerPa;
      var weight := if dt / NOISE_TRACK_S > 1.0 then 1.0 else dt / NOISE_TRACK_S;
      var tracked := f.noiseVarPa2 + weight * (0.5 * Squared(stepPa) - f.noiseVarPa2);
      if tracked < Squared(NOISE_FLOOR_PA) then Squared(NOISE_FLOOR_PA) else tracked
  }

  /** The reading is more than six standard deviations from the prediction:
      the source's |innovation| / sqrt(s) > 6, squared. */
  predicate Outlier(innovation: real, s: real) {
    Squared(innovation) > 36.0 * s
  }

  ghost predicate Good(f: Filter) {
    f.started ==> Psd(f.belief.cov) && f.noiseVarPa2 >= Squared(NOISE_FLOOR_PA)
  }

  datatype Reading = Reading(altitudeM: real, mPerPa: real, tUs: u32)

  /** The prediction a reading is compared with, and the variance of the
      difference. */
  function AtReading(f: Filter, r: Reading): Belief {
    Predicted(f.belief, Elapsed(f.tUs, r.tUs))
  }

  function InnovationVar(f: Filter, r: Reading): real {
    AtReading(f, r).cov.hh + ReadingVar(f.noiseVarPa2, r.mPerPa)
  }

  predicate Heeded(f: Filter, r: Reading) {
    f.started && Elapsed(f.tUs, r.tUs) > 0.0
  }

  ghost function Updated(f: Filter, r: Reading): Filter
    requires Good(f) && r.mPerPa != 0.0
  {
    if !Heeded(f, r) then f
    else
      InnovationVarPositive(f, r);
      var s := InnovationVar(f, r);
      var innovation := r.altitudeM - f.refM - AtReading(f, r).kin.altitude;
      var outlier := Outlier(innovation, s);
      var refused := Refused(f.sinceUs, outlier, r.tUs);
      var g := f.(tUs := r.tUs, mPerPa := r.mPerPa, belief := AtReading(f, r),
                  sinceUs := Since(f.sinceUs, outlier, r.tUs), rejected := refused);
      if refused then g.(haveLastInnovation := false)
      else
        var noise := if outlier then g.noiseVarPa2 else NoiseTracked(g, innovation, Elapsed(f.tUs, r.tUs));
        g.(belief := Corrected(g.belief, innovation, s), noiseVarPa2 := noise,
           lastInnovation := innovation, haveLastInnovation := true)
  }

  lemma ReadingVarFloor(noiseVarPa2: real, mPerPa: real)
    ensures ReadingVar(noiseVarPa2, mPerPa) >= Squared(READING_NOISE_M) > 0.0
  {
  }

  lemma InnovationVarPositive(f: Filter, r: Reading)
    requires Good(f) && Heeded(f, r)
    ensures Psd(AtReading(f, r).cov)
    ensures InnovationVar(f, r) >= Squared(READING_NOISE_M) > 0.0
  {
    var dt := Elapsed(f.tUs, r.tUs);
    PredictKeepsPsd(f.belief.cov, dt);
    AltitudeVarianceNonNegative(PredictedCov(f.belief.cov, dt));
    ReadingVarFloor(f.noiseVarPa2, r.mPerPa);
  }

  lemma InitialCovPsd(hh: real)
    requires hh >= 0.0
    ensures Psd(InitialCov(hh))
  {
    forall w: Vec
      ensures Quad(InitialCov(hh), w) >= 0.0
    {
      DiagonalForm(hh, w.h, w.v, w.a);
    }
  }

  lemma DiagonalForm(hh: real, h: real, v: real, a: real)
    requires hh >= 0.0
    ensures hh * h * h + INITIAL_SPEED_VAR * v * v + INITIAL_ACCEL_VAR * a * a >= 0.0
  {
    assert h * h >= 0.0 && v * v >= 0.0 && a * a >= 0.0;
    assert hh * (h * h) >= 0.0;
  }

  lemma StartIsGood(was: real, altitudeM: real, mPerPa: real, tUs: u32)
    ensures Good(Started(was, altitudeM, mPerPa, tUs))
  {
    var noise := Squared(NOISE_FLOOR_PA);
    ReadingVarFloor(noise, mPerPa);
    InitialCovPsd(ReadingVar(noise, mPerPa));
  }

  lemma UpdateKeepsGood(f: Filter, r: Reading)
    requires Good(f) && r.mPerPa != 0.0
    ensures Good(Updated(f, r))
    ensures Heeded(f, r) ==>
              forall w: Vec :: Quad(Updated(f, r).belief.cov, w) <= Quad(AtReading(f, r).cov, w)
  {
    if Heeded(f, r) {
      InnovationVarPositive(f, r);
      ReadingVarFloor(f.noiseVarPa2, r.mPerPa);
      CorrectKeepsPsd(AtReading(f, r).cov, ReadingVar(f.noiseVarPa2, r.mPerPa));
    }
  }

  ghost predicate Usable(rs: seq<Reading>) {
    forall r :: r in rs ==> r.mPerPa != 0.0
  }

  ghost function Run(f: Filter, rs: seq<Reading>): (g: Filter)
    requires Good(f) && Usable(rs)
    ensures Good(g)
    decreases |rs|
  {
    if rs == [] then f
    else
      var g := Run(f, rs[..|rs| - 1]);
      UpdateKeepsGood(g, rs[|rs| - 1]);
      Updated(g, rs[|rs| - 1])
  }

  /** Through every run of readings from a start, the covariance stays positive
      semidefinite, and the next reading's innovation variance is positive and
      its correction raises the variance of no combination of the state. */
  lemma RunStaysGood(was: real, altitudeM: real, mPerPa: real, tUs: u32, rs: seq<Reading>, r: Reading)
    requires Usable(rs) && r.mPerPa != 0.0
    ensures Good(Started(was, altitudeM, mPerPa, tUs))
    ensures var f := Run(Started(was, altitudeM, mPerPa, tUs), rs);
            && (f.started ==> Psd(f.belief.cov))
            && (Heeded(f, r) ==> InnovationVar(f, r) > 0.0)
            && (Heeded(f, r) ==> forall w: Vec :: Quad(Updated(f, r).belief.cov, w) <= Quad(AtReading(f, r).cov, w))
  {
    StartIsGood(was, altitudeM, mPerPa, tUs);
    var f := Run(Started(was, altitudeM, mPerPa, tUs), rs);
    UpdateKeepsGood(f, r);
    if Heeded(f, r) {
      InnovationVarPositive(f, r);
    }
  }

  lemma PredictTwice(b: Belief, s: real, t: real)
    ensures Predicted(Predicted(b, s), t) == Predicted(b, s + t)
  {
    PredictComposes(b.cov, s, t);
    KinComposes(b.kin.altitude, b.kin.speed, b.kin.accel, s, t);
  }

  lemma KinComposes(x: real, v: real, a: real, s: real, t: real)
    ensures PredictedKin(PredictedKin(Kin(x, v, a), s), t) == PredictedKin(Kin(x, v, a), s + t)
  {
    calc {
      PredictedKin(PredictedKin(Kin(x, v, a), s), t);
      MovedKin(x + (v * s + a * (0.5 * s * s)), v + a * s, a, t);
      MovedKin(x, v, a, s + t);
      PredictedKin(Kin(x, v, a), s + t);
    }
  }

  lemma PredictNothing(b: Belief)
    ensures Predicted(b, 0.0) == b
  {
  }

  /** Every reading of the run moves the clock forward and is refused. */
  ghost predicate AllRefused(f: Filter, rs: seq<Reading>)
    requires Good(f) && Usable(rs)
  {
    rs == [] || (AllRefused(f, rs[..|rs| - 1])
                 && Heeded(Run(f, rs[..|rs| - 1]), rs[|rs| - 1])
                 && Run(f, rs).rejected)
  }

  ghost function TotalTime(f: Filter, rs: seq<Reading>): real
    requires Good(f) && Usable(rs)
  {
    if rs == [] then 0.0
    else TotalTime(f, rs[..|rs| - 1]) + Elapsed(Run(f, rs[..|rs| - 1]).tUs, rs[|rs| - 1].tUs)
  }

  /** However many readings are refused, and however they are spaced, the
      belief is that of one prediction over the whole time. */
  lemma {:induction false} RefusedRunIsOnePrediction(f: Filter, rs: seq<Reading>)
    requires Good(f) && Usable(rs) && AllRefused(f, rs)
    ensures Run(f, rs).belief == Predicted(f.belief, TotalTime(f, rs))
  {
    if rs == [] {
      PredictNothing(f.belief);
    } else {
      var init, r := rs[..|rs| - 1], rs[|rs| - 1];
      RefusedRunIsOnePrediction(f, init);
      var g := Run(f, init);
      PredictTwice(f.belief, TotalTime(f, init), Elapsed(g.tUs, r.tUs));
      assert Run(f, rs).belief == AtReading(g, r);
    }
  }

  /* ---- The filter as the firmware keeps it ---- */

  /** The six variances, each overwritten in its turn. */
  class Variances {
    var hh: real
    var hv: real
    var ha: real
    var vv: real
    var va: real
    var aa: real

    function Value(): Cov
      reads this
    {
      Cov(hh, hv, ha, vv, va, aa)
    }

    constructor ()
    {
    }

    method Become(p: Cov)
      modifies this
      ensures Value() == p
    {
      hh, hv, ha, vv, va, aa := p.hh, p.hv, p.ha, p.vv, p.va, p.aa;
    }

    /** correct()'s: the entries of the altitude are copied before they change,
        and every entry is taken down by a gain times its copy. */
    method TakeDown(gainH: real, gainV: real, gainA: real)
      modifies this
      ensures Value() == CorrectedBy(old(Value()), gainH, gainV, gainA)
    {
      var hh0, hv0, ha0 := hh, hv, ha;
      hh := hh - gainH * hh0;
      hv := hv - gainH * hv0;
      ha := ha - gainH * ha0;
      vv := vv - gainV * hv0;
      va := va - gainV * ha0;
      aa := aa - gainA * ha0;
    }
  }

  /** The fields the source overwrites. */
  class AltitudeFilter {
    var started: bool
    var refM: real
    var tUs: u32
    var kin: Kin
    const vars: Variances
    var noiseVarPa2: real
    var mPerPa: real
    var lastInnovation: real
    var haveLastInnovation: bool
    const badRun: Gate
    var rejected: bool

    function View(): Filter
      reads this, badRun, vars
    {
      Filter(started, refM, tUs, Belief(kin, vars.Value()), noiseVarPa2, mPerPa, lastInnovation, haveLastInnovation,
             badRun.sinceUs, rejected)
    }

    constructor ()
      ensures !started && fresh(badRun) && fresh(vars)
    {
      started := false;
      badRun := new Gate();
      vars := new Variances();
    }

    method Start(altitudeM: real, mPerPa: real, tUs: u32)
      modifies this, badRun, vars
      ensures View() == Started(old(lastInnovation), altitudeM, mPerPa, tUs)
    {
      started := true;
      this.mPerPa := mPerPa;
      refM := altitudeM;
      this.tUs := tUs;
      kin := Kin(0.0, 0.0, 0.0);
      noiseVarPa2 := Squared(NOISE_FLOOR_PA);
      vars.Become(InitialCov(ReadingVar(noiseVarPa2, mPerPa)));
      haveLastInnovation := false;
      badRun.sinceUs := 0;
      rejected := false;
    }

    method TrackNoise(innovation: real, dt: real)
      requires mPerPa != 0.0
      modifies `noiseVarPa2, `lastInnovation, `haveLastInnovation
      ensures noiseVarPa2 == NoiseTracked(old(View()), innovation, dt)
      ensures lastInnovation == innovation && haveLastInnovation
    {
      if haveLastInnovation {
        var stepPa := (innovation - lastInnovation) / mPerPa;
        var weight := dt / NOISE_TRACK_S;
        if weight > 1.0 {
          weight := 1.0;
        }
        noiseVarPa2 := noiseVarPa2 + weight * (0.5 * Squared(stepPa) - noiseVarPa2);
        if noiseVarPa2 < Squared(NOISE_FLOOR_PA) {
          noiseVarPa2 := Squared(NOISE_FLOOR_PA);
        }
      }
      lastInnovation := innovation;
      haveLastInnovation := true;
    }

    /** The gains are of the variances as they stand. */
    method Correct(innovation: real, innovationVar: real)
      requires innovationVar != 0.0
      modifies `kin, vars
      ensures Belief(kin, vars.Value()) == Corrected(old(Belief(kin, vars.Value())), innovation, innovationVar)
    {
      hide CorrectedBy;
      var gainH := vars.hh / innovationVar;
      var gainV := vars.hv / innovationVar;
      var gainA := vars.ha / innovationVar;
      kin := kin.(altitude := kin.altitude + gainH * innovation);
      kin := kin.(speed := kin.speed + gainV * innovation);
      kin := kin.(accel := kin.accel + gainA * innovation);
      vars.TakeDown(gainH, gainV, gainA);
    }

    method Update(altitudeM: real, mPerPa: real, tUs: u32)
      requires Good(View()) && mPerPa != 0.0
      modifies this, badRun, vars
      ensures View() == Updated(old(View()), Reading(altitudeM, mPerPa, tUs))
    {
      hide PredictedCov, PredictedKin, CorrectedCov, CorrectedKin, ReadingVar, NoiseTracked, Refused, Since, Good;
      ghost var was, r := View(), Reading(altitudeM, mPerPa, tUs);
      if !started {
        return;
      }
      var dt := Elapsed(this.tUs, tUs);
      if dt <= 0.0 {
        return;
      }
      InnovationVarPositive(was, r);
      this.tUs := tUs;
      this.mPerPa := mPerPa;
      kin := PredictedKin(kin, dt);
      vars.Become(PredictedCov(vars.Value(), dt));
      var innovation := altitudeM - refM - kin.altitude;
      var innovationVar := vars.hh + ReadingVar(noiseVarPa2, mPerPa);
      var outlier := Outlier(innovation, innovationVar);
      rejected := badRun.Rejects(outlier, tUs);
      if rejected {
        haveLastInnovation := false;
        return;
      }
      if !outlier {
        TrackNoise(innovation, dt);
      } else {
        lastInnovation := innovation;
        haveLastInnovation := true;
      }
      Correct(innovation, innovationVar);
    }
  }
}
