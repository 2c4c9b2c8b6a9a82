/** Covariances of a height, a speed and an acceleration, as the altitude filter
    updates them (src/altitude_filter.c), over the reals.

    The six entries are updated by hand-expanded formulas. They are proved
    against the quadratic form of the matrix they stand for: a symmetric matrix
    is its quadratic form (FormDetermines), so an equation between forms at
    every vector is an equation between matrices. */
module Covariances {

  datatype Vec = Vec(h: real, v: real, a: real)

  datatype Cov = Cov(hh: real, hv: real, ha: real, vv: real, va: real, aa: real)

  /** w' P w, for w = (h, v, a). */
  function Form(hh: real, hv: real, ha: real, vv: real, va: real, aa: real, h: real, v: real, a: real): real {
    hh * h * h + vv * v * v + aa * a * a + 2.0 * (hv * h * v + ha * h * a + va * v * a)
  }

  function Quad(p: Cov, w: Vec): real {
    Form(p.hh, p.hv, p.ha, p.vv, p.va, p.aa, w.h, w.v, w.a)
  }

  ghost predicate Psd(p: Cov) {
    forall w: Vec :: Quad(p, w) >= 0.0
  }

  lemma FormDetermines(p: Cov, q: Cov)
    requires forall w: Vec :: Quad(p, w) == Quad(q, w)
    ensures p == q
  {
    assert Quad(p, Vec(1.0, 0.0, 0.0)) == Quad(q, Vec(1.0, 0.0, 0.0));
    assert Quad(p, Vec(0.0, 1.0, 0.0)) == Quad(q, Vec(0.0, 1.0, 0.0));
    assert Quad(p, Vec(0.0, 0.0, 1.0)) == Quad(q, Vec(0.0, 0.0, 1.0));
    assert Quad(p, Vec(1.0, 1.0, 0.0)) == Quad(q, Vec(1.0, 1.0, 0.0));
    assert Quad(p, Vec(1.0, 0.0, 1.0)) == Quad(q, Vec(1.0, 0.0, 1.0));
    assert Quad(p, Vec(0.0, 1.0, 1.0)) == Quad(q, Vec(0.0, 1.0, 1.0));
  }

  /* ---- Predict ---- */

  /** F(dt)' w, for F(dt) the transition of constant acceleration. */
  function Back(dt: real, w: Vec): Vec {
    BackOf(dt, w.h, w.v, w.a)
  }

  function BackOf(dt: real, h: real, v: real, a: real): Vec {
    Vec(h, h * dt + v, h * (0.5 * dt * dt) + v * dt + a)
  }

  /* F(dt) P F(dt)', an entry at a time. */

  function MovedHH(hh: real, hv: real, ha: real, vv: real, va: real, aa: real, dt: real, halfDt2: real): real {
    hh + 2.0 * dt * hv + 2.0 * halfDt2 * ha + dt * dt * vv + 2.0 * dt * halfDt2 * va + halfDt2 * halfDt2 * aa
  }

  function MovedHV(hv: real, ha: real, vv: real, va: real, aa: real, dt: real, halfDt2: real): real {
    hv + dt * (ha + vv) + (dt * dt + halfDt2) * va + dt * halfDt2 * aa
  }

  function MovedHA(ha: real, va: real, aa: real, dt: real, halfDt2: real): real {
    ha + dt * va + halfDt2 * aa
  }

  function MovedVV(vv: real, va: real, aa: real, dt: real): real {
    vv + 2.0 * dt * va + dt * dt * aa
  }

  function MovedVA(va: real, aa: real, dt: real): real {
    va + dt * aa
  }

  function MovedCov(p: Cov, dt: real, halfDt2: real): Cov {
    Cov(MovedHH(p.hh, p.hv, p.ha, p.vv, p.va, p.aa, dt, halfDt2),
        MovedHV(p.hv, p.ha, p.vv, p.va, p.aa, dt, halfDt2), MovedHA(p.ha, p.va, p.aa, dt, halfDt2),
        MovedVV(p.vv, p.va, p.aa, dt), MovedVA(p.va, p.aa, dt), p.aa)
  }

  /** The density of the white jerk, in m^2/s^5. */
  const JERK_PSD := 7.0

  /** What the jerk adds to the covariance over dt. */
  function JerkNoise(dt: real): Cov {
    var dt2 := dt * dt;
    var dt3 := dt2 * dt;
    Cov(JERK_PSD * dt3 * dt2 / 20.0, JERK_PSD * dt2 * dt2 / 8.0, JERK_PSD * dt3 / 6.0,
        JERK_PSD * dt3 / 3.0, JERK_PSD * dt2 / 2.0, JERK_PSD * dt)
  }

  function Plus(p: Cov, q: Cov): Cov {
    Cov(p.hh + q.hh, p.hv + q.hv, p.ha + q.ha, p.vv + q.vv, p.va + q.va, p.aa + q.aa)
  }

  function PredictedCov(p: Cov, dt: real): Cov {
    Plus(MovedCov(p, dt, 0.5 * dt * dt), JerkNoise(dt))
  }

  lemma MoveForm(hh: real, hv: real, ha: real, vv: real, va: real, aa: real,
                 t: real, k: real, h: real, v: real, a: real)
    ensures Form(MovedHH(hh, hv, ha, vv, va, aa, t, k), MovedHV(hv, ha, vv, va, aa, t, k), MovedHA(ha, va, aa, t, k),
                 MovedVV(vv, va, aa, t), MovedVA(va, aa, t), aa, h, v, a)
         == Form(hh, hv, ha, vv, va, aa, h, h * t + v, h * k + v * t + a)
  {
    calc {
      Form(MovedHH(hh, hv, ha, vv, va, aa, t, k), MovedHV(hv, ha, vv, va, aa, t, k), MovedHA(ha, va, aa, t, k),
           MovedVV(vv, va, aa, t), MovedVA(va, aa, t), aa, h, v, a);
      Form(hh + 2.0 * t * hv + 2.0 * k * ha + t * t * vv + 2.0 * t * k * va + k * k * aa,
           hv + t * (ha + vv) + (t * t + k) * va + t * k * aa, ha + t * va + k * aa,
           vv + 2.0 * t * va + t * t * aa, va + t * aa, aa, h, v, a);
      Form(hh, hv, ha, vv, va, aa, h, h * t + v, h * k + v * t + a);
    }
  }

  lemma SumForm(a: real, b: real, c: real, d: real, e: real, f: real,
                a': real, b': real, c': real, d': real, e': real, f': real, x: real, y: real, z: real)
    ensures Form(a + a', b + b', c + c', d + d', e + e', f + f', x, y, z)
         == Form(a, b, c, d, e, f, x, y, z) + Form(a', b', c', d', e', f', x, y, z)
  {
  }

  /** The quadratic form of the jerk noise: 7 times the integral of the square
      of the response h u^2/2 + v u + a over the interval. */
  function JerkForm(t: real, h: real, v: real, a: real): real {
    7.0 * (t * t * t * t * t / 20.0 * (h * h) + t * t * t * t / 4.0 * (h * v) + t * t * t / 3.0 * (v * v + h * a)
           + t * t * (v * a) + t * (a * a))
  }

  lemma JerkFormIsForm(t: real, h: real, v: real, a: real)
    ensures Quad(JerkNoise(t), Vec(h, v, a)) == JerkForm(t, h, v, a)
  {
    calc {
      Quad(JerkNoise(t), Vec(h, v, a));
      Form(7.0 * (t * t * t) * (t * t) / 20.0, 7.0 * (t * t) * (t * t) / 8.0, 7.0 * (t * t * t) / 6.0,
           7.0 * (t * t * t) / 3.0, 7.0 * (t * t) / 2.0, 7.0 * t, h, v, a);
      JerkForm(t, h, v, a);
    }
  }

  lemma JerkFormPositive(t: real, h: real, v: real, a: real)
    requires t >= 0.0
    ensures JerkForm(t, h, v, a) >= 0.0
  {
    var q, r, x := h * t * t / 6.0 + v * t / 2.0 + a, h * t * t / 2.0 + v * t, h * t * t;
    SquaresNonNegative(7.0 * t, q, r, x);
    calc {
      7.0 * t * (q * q + r * r / 12.0 + x * x / 720.0);
      7.0 * t * ((h * t * t / 6.0 + v * t / 2.0 + a) * (h * t * t / 6.0 + v * t / 2.0 + a)
                 + (h * t * t / 2.0 + v * t) * (h * t * t / 2.0 + v * t) / 12.0
                 + (h * t * t) * (h * t * t) / 720.0);
      JerkForm(t, h, v, a);
    }
  }

  lemma SquaresNonNegative(k: real, q: real, r: real, x: real)
    requires k >= 0.0
    ensures k * (q * q + r * r / 12.0 + x * x / 720.0) >= 0.0
  {
    assert q * q >= 0.0 && r * r >= 0.0 && x * x >= 0.0;
  }

  lemma JerkFormAdds(s: real, t: real, h: real, v: real, a: real)
    ensures JerkForm(s, h, h * t + v, h * (0.5 * t * t) + v * t + a) + JerkForm(t, h, v, a)
         == JerkForm(s + t, h, v, a)
  {
    assert s * s * s * s * s / 20.0 * (h * h) + s * s * s * s / 4.0 * (h * (h * t + v))
           + s * s * s / 3.0 * ((h * t + v) * (h * t + v) + h * (h * (0.5 * t * t) + v * t + a))
           + s * s * ((h * t + v) * (h * (0.5 * t * t) + v * t + a))
           + s * ((h * (0.5 * t * t) + v * t + a) * (h * (0.5 * t * t) + v * t + a))
           + (t * t * t * t * t / 20.0 * (h * h) + t * t * t * t / 4.0 * (h * v) + t * t * t / 3.0 * (v * v + h * a)
              + t * t * (v * a) + t * (a * a))
        == (s + t) * (s + t) * (s + t) * (s + t) * (s + t) / 20.0 * (h * h)
           + (s + t) * (s + t) * (s + t) * (s + t) / 4.0 * (h * v)
           + (s + t) * (s + t) * (s + t) / 3.0 * (v * v + h * a) + (s + t) * (s + t) * (v * a) + (s + t) * (a * a);
  }

  lemma BacksAdd(s: real, t: real, h: real, v: real, a: real)
    ensures Back(s, Vec(h, h * t + v, h * (0.5 * t * t) + v * t + a)) == Back(s + t, Vec(h, v, a))
  {
    assert h * s + (h * t + v) == h * (s + t) + v;
    assert h * (0.5 * s * s) + (h * t + v) * s + (h * (0.5 * t * t) + v * t + a)
        == h * (0.5 * (s + t) * (s + t)) + v * (s + t) + a;
    calc {
      Back(s, Vec(h, h * t + v, h * (0.5 * t * t) + v * t + a));
      BackOf(s, h, h * t + v, h * (0.5 * t * t) + v * t + a);
      BackOf(s + t, h, v, a);
      Back(s + t, Vec(h, v, a));
    }
  }

  /** The noise of two intervals, the first carried through the second, is the
      noise of their sum. */
  lemma NoiseComposes(s: real, t: real, h: real, v: real, a: real)
    ensures Quad(JerkNoise(s), Vec(h, h * t + v, h * (0.5 * t * t) + v * t + a)) + Quad(JerkNoise(t), Vec(h, v, a))
         == Quad(JerkNoise(s + t), Vec(h, v, a))
  {
    calc {
      Quad(JerkNoise(s), Vec(h, h * t + v, h * (0.5 * t * t) + v * t + a)) + Quad(JerkNoise(t), Vec(h, v, a));
      { JerkFormIsForm(s, h, h * t + v, h * (0.5 * t * t) + v * t + a); JerkFormIsForm(t, h, v, a); }
      JerkForm(s, h, h * t + v, h * (0.5 * t * t) + v * t + a) + JerkForm(t, h, v, a);
      { JerkFormAdds(s, t, h, v, a); }
      JerkForm(s + t, h, v, a);
      { JerkFormIsForm(s + t, h, v, a); }
      Quad(JerkNoise(s + t), Vec(h, v, a));
    }
  }

  /** The six predicted entries are those of F P F' + Q. */
  lemma PredictIsPropagation(p: Cov, dt: real, w: Vec)
    ensures Quad(PredictedCov(p, dt), w) == Quad(p, Back(dt, w)) + Quad(JerkNoise(dt), w)
  {
    hide JerkNoise;
    var m, n := MovedCov(p, dt, 0.5 * dt * dt), JerkNoise(dt);
    PlusForm(m, n, w);
    MovedForm(p, dt, w);
  }

  lemma PlusForm(m: Cov, n: Cov, w: Vec)
    ensures Quad(Plus(m, n), w) == Quad(m, w) + Quad(n, w)
  {
    SumForm(m.hh, m.hv, m.ha, m.vv, m.va, m.aa, n.hh, n.hv, n.ha, n.vv, n.va, n.aa, w.h, w.v, w.a);
  }

  lemma MovedForm(p: Cov, dt: real, w: Vec)
    ensures Quad(MovedCov(p, dt, 0.5 * dt * dt), w) == Quad(p, Back(dt, w))
  {
    MoveForm(p.hh, p.hv, p.ha, p.vv, p.va, p.aa, dt, 0.5 * dt * dt, w.h, w.v, w.a);
    BackForm(p, dt, w);
  }

  lemma BackForm(p: Cov, dt: real, w: Vec)
    ensures Quad(p, Back(dt, w))
         == Form(p.hh, p.hv, p.ha, p.vv, p.va, p.aa, w.h, w.h * dt + w.v, w.h * (0.5 * dt * dt) + w.v * dt + w.a)
  {
  }

  lemma PredictedNonNegative(p: Cov, dt: real, w: Vec)
    requires Psd(p) && dt >= 0.0
    ensures Quad(PredictedCov(p, dt), w) >= 0.0
  {
    PredictIsPropagation(p, dt, w);
    JerkFormIsForm(dt, w.h, w.v, w.a);
    JerkFormPositive(dt, w.h, w.v, w.a);
    assert Quad(p, Back(dt, w)) >= 0.0;
  }

  lemma PredictKeepsPsd(p: Cov, dt: real)
    requires Psd(p) && dt >= 0.0
    ensures Psd(PredictedCov(p, dt))
  {
    var q := PredictedCov(p, dt);
    forall w: Vec
      ensures Quad(q, w) >= 0.0
    {
      PredictedNonNegative(p, dt, w);
    }
  }

  lemma TwoPredictions(p: Cov, s: real, t: real, h: real, v: real, a: real)
    ensures Quad(PredictedCov(PredictedCov(p, s), t), Vec(h, v, a)) == Quad(PredictedCov(p, s + t), Vec(h, v, a))
  {
    var w, u := Vec(h, v, a), Vec(h, h * t + v, h * (0.5 * t * t) + v * t + a);
    calc {
      Quad(PredictedCov(PredictedCov(p, s), t), w);
      { PredictIsPropagation(PredictedCov(p, s), t, w); assert Back(t, w) == u; }
      Quad(PredictedCov(p, s), u) + Quad(JerkNoise(t), w);
      { PredictIsPropagation(p, s, u); }
      Quad(p, Back(s, u)) + Quad(JerkNoise(s), u) + Quad(JerkNoise(t), w);
      { NoiseComposes(s, t, h, v, a); BacksAdd(s, t, h, v, a); }
      Quad(p, Back(s + t, w)) + Quad(JerkNoise(s + t), w);
      { PredictIsPropagation(p, s + t, w); }
      Quad(PredictedCov(p, s + t), w);
    }
  }

  /** Predicting over two intervals in turn is predicting over their sum. */
  lemma PredictComposes(p: Cov, s: real, t: real)
    ensures PredictedCov(PredictedCov(p, s), t) == PredictedCov(p, s + t)
  {
    var twice, once := PredictedCov(PredictedCov(p, s), t), PredictedCov(p, s + t);
    forall w: Vec
      ensures Quad(twice, w) == Quad(once, w)
    {
      TwoPredictions(p, s, t, w.h, w.v, w.a);
    }
    FormDetermines(twice, once);
  }

  /* ---- Correct ---- */

  function CorrectedCov(p: Cov, s: real): Cov
    requires s != 0.0
  {
    CorrectedBy(p, p.hh / s, p.hv / s, p.ha / s)
  }

  function CorrectedBy(p: Cov, gainH: real, gainV: real, gainA: real): Cov {
    Cov(p.hh - gainH * p.hh, p.hv - gainH * p.hv, p.ha - gainH * p.ha,
        p.vv - gainV * p.hv, p.va - gainV * p.ha, p.aa - gainA * p.ha)
  }

  /** The covariance of the altitude with the combination w of the state. */
  function AltitudeRow(p: Cov, w: Vec): real {
    p.hh * w.h + p.hv * w.v + p.ha * w.a
  }

  lemma CorrectionForm(hh: real, hv: real, ha: real, vv: real, va: real, aa: real,
                       gh: real, gv: real, ga: real, s: real, h: real, v: real, a: real, g: real, b: real)
    requires gh * s == hh && gv * s == hv && ga * s == ha
    requires g == gh * h + gv * v + ga * a && b == hh * h + hv * v + ha * a
    ensures g * s == b
    ensures Form(hh - gh * hh, hv - gh * hv, ha - gh * ha, vv - gv * hv, va - gv * ha, aa - ga * ha, h, v, a)
         == Form(hh, hv, ha, vv, va, aa, h, v, a) - g * b
  {
    SameProduct(g, gh * h + gv * v + ga * a, s);
    SameProduct(g, gh * h + gv * v + ga * a, b);
    SameProduct(b, hh * h + hv * v + ha * a, gh * h + gv * v + ga * a);
    assert gh * hv == gv * hh && gh * ha == ga * hh && gv * ha == ga * hv by {
      assert gh * (gv * s) == gv * (gh * s);
      assert gh * (ga * s) == ga * (gh * s);
      assert gv * (ga * s) == ga * (gv * s);
    }
    assert (gh * h + gv * v + ga * a) * s == (gh * s) * h + (gv * s) * v + (ga * s) * a;
    assert (gh * h + gv * v + ga * a) * (hh * h + hv * v + ha * a)
        == (gh * hh) * h * h + (gv * hv) * v * v + (ga * ha) * a * a
           + (gh * hv + gv * hh) * (h * v) + (gh * ha + ga * hh) * (h * a) + (gv * ha + ga * hv) * (v * a);
    assert (gh * hv + gv * hh) * (h * v) == 2.0 * (gh * hv) * (h * v);
    assert (gh * ha + ga * hh) * (h * a) == 2.0 * (gh * ha) * (h * a);
    assert (gv * ha + ga * hv) * (v * a) == 2.0 * (gv * ha) * (v * a);
    assert (hh - gh * hh) * h * h + (vv - gv * hv) * v * v + (aa - ga * ha) * a * a
           + 2.0 * ((hv - gh * hv) * h * v + (ha - gh * ha) * h * a + (va - gv * ha) * v * a)
        == hh * h * h + vv * v * v + aa * a * a + 2.0 * (hv * h * v + ha * h * a + va * v * a)
           - ((gh * hh) * h * h + (gv * hv) * v * v + (ga * ha) * a * a
              + 2.0 * (gh * hv) * (h * v) + 2.0 * (gh * ha) * (h * a) + 2.0 * (gv * ha) * (v * a));
  }

  /** What the reading explains of the variance of w: the square of its
      covariance with the altitude, over the innovation variance. */
  function Explained(p: Cov, s: real, w: Vec): real
    requires s != 0.0
  {
    AltitudeRow(p, w) / s * AltitudeRow(p, w)
  }

  lemma Ratio(g: real, b: real, s: real)
    requires s != 0.0 && g * s == b
    ensures g == b / s
  {
  }

  lemma ExplainedBy(p: Cov, s: real, w: Vec, g: real)
    requires s != 0.0 && g * s == AltitudeRow(p, w)
    ensures g * AltitudeRow(p, w) == Explained(p, s, w)
  {
    Ratio(g, AltitudeRow(p, w), s);
  }

  lemma SameCovForm(hh: real, hv: real, ha: real, vv: real, va: real, aa: real,
                    hh': real, hv': real, ha': real, vv': real, va': real, aa': real, h: real, v: real, a: real)
    requires hh == hh' && hv == hv' && ha == ha' && vv == vv' && va == va' && aa == aa'
    ensures Form(hh, hv, ha, vv, va, aa, h, v, a) == Form(hh', hv', ha', vv', va', aa', h, v, a)
  {
  }

  lemma QuadIsForm(p: Cov, w: Vec)
    ensures Quad(p, w) == Form(p.hh, p.hv, p.ha, p.vv, p.va, p.aa, w.h, w.v, w.a)
  {
  }

  lemma CorrectionQuad(p: Cov, w: Vec, gh: real, gv: real, ga: real, s: real, g: real, b: real)
    requires gh * s == p.hh && gv * s == p.hv && ga * s == p.ha
    requires g == gh * w.h + gv * w.v + ga * w.a && b == p.hh * w.h + p.hv * w.v + p.ha * w.a
    ensures g * s == b && Quad(CorrectedBy(p, gh, gv, ga), w) == Quad(p, w) - g * b
  {
    hide Form, Quad, CorrectedBy;
    QuadIsForm(p, w);
    CorrectedForm(p, gh, gv, ga, w);
    CorrectionForm(p.hh, p.hv, p.ha, p.vv, p.va, p.aa, gh, gv, ga, s, w.h, w.v, w.a, g, b);
  }

  lemma CorrectedForm(p: Cov, gh: real, gv: real, ga: real, w: Vec)
    ensures Quad(CorrectedBy(p, gh, gv, ga), w)
         == Form(p.hh - gh * p.hh, p.hv - gh * p.hv, p.ha - gh * p.ha,
                 p.vv - gv * p.hv, p.va - gv * p.ha, p.aa - ga * p.ha, w.h, w.v, w.a)
  {
    hide Form, Quad;
    var q := CorrectedBy(p, gh, gv, ga);
    QuadIsForm(q, w);
    SameCovForm(q.hh, q.hv, q.ha, q.vv, q.va, q.aa,
                p.hh - gh * p.hh, p.hv - gh * p.hv, p.ha - gh * p.ha,
                p.vv - gv * p.hv, p.va - gv * p.ha, p.aa - ga * p.ha, w.h, w.v, w.a);
  }

  lemma CorrectTakesExplained(p: Cov, s: real, w: Vec)
    requires s != 0.0
    ensures Quad(CorrectedCov(p, s), w) == Quad(p, w) - Explained(p, s, w)
  {
    hide Quad, CorrectedBy, AltitudeRow, Explained;
    Divided(p.hh, s);
    Divided(p.hv, s);
    Divided(p.ha, s);
    var gh, gv, ga := p.hh / s, p.hv / s, p.ha / s;
    var g := gh * w.h + gv * w.v + ga * w.a;
    RowIs(p, w);
    CorrectionQuad(p, w, gh, gv, ga, s, g, AltitudeRow(p, w));
    ExplainedBy(p, s, w, g);
  }

  lemma RowIs(p: Cov, w: Vec)
    ensures AltitudeRow(p, w) == p.hh * w.h + p.hv * w.v + p.ha * w.a
  {
  }

  lemma Divided(x: real, s: real)
    requires s != 0.0
    ensures x / s * s == x
  {
  }

  lemma ShiftForm(hh: real, hv: real, ha: real, vv: real, va: real, aa: real, h: real, v: real, a: real, t: real)
    ensures Form(hh, hv, ha, vv, va, aa, h - t, v, a)
         == Form(hh, hv, ha, vv, va, aa, h, v, a) - 2.0 * t * (hh * h + hv * v + ha * a) + t * t * hh
  {
  }

  lemma ShiftedNonNegative(p: Cov, w: Vec, t: real)
    requires Psd(p)
    ensures Quad(p, w) - 2.0 * t * AltitudeRow(p, w) + t * t * p.hh >= 0.0
  {
    assert Quad(p, Vec(w.h - t, w.v, w.a)) >= 0.0;
    calc {
      Quad(p, Vec(w.h - t, w.v, w.a));
      Form(p.hh, p.hv, p.ha, p.vv, p.va, p.aa, w.h - t, w.v, w.a);
      { ShiftForm(p.hh, p.hv, p.ha, p.vv, p.va, p.aa, w.h, w.v, w.a, t); }
      Quad(p, w) - 2.0 * t * (p.hh * w.h + p.hv * w.v + p.ha * w.a) + t * t * p.hh;
      { SameProduct(p.hh * w.h + p.hv * w.v + p.ha * w.a, AltitudeRow(p, w), 2.0 * t); }
      Quad(p, w) - 2.0 * t * AltitudeRow(p, w) + t * t * p.hh;
    }
  }

  lemma SameProduct(x: real, y: real, k: real)
    requires x == y
    ensures k * x == k * y
  {
  }

  lemma AltitudeVarianceNonNegative(p: Cov)
    requires Psd(p)
    ensures p.hh >= 0.0
  {
    assert p.hh == Quad(p, Vec(1.0, 0.0, 0.0)) >= 0.0;
  }

  /** Cauchy-Schwarz for the altitude against any combination. */
  lemma CauchySchwarz(p: Cov, w: Vec)
    requires Psd(p)
    ensures AltitudeRow(p, w) * AltitudeRow(p, w) <= p.hh * Quad(p, w)
  {
    var b, q := AltitudeRow(p, w), Quad(p, w);
    AltitudeVarianceNonNegative(p);
    if p.hh > 0.0 {
      ShiftedNonNegative(p, w, b / p.hh);
      Discriminant(b, q, p.hh);
    } else if b != 0.0 {
      var t := (q + 1.0) / (2.0 * b);
      assert 2.0 * t * b == q + 1.0;
      ShiftedNonNegative(p, w, t);
      assert false;
    }
  }

  lemma Discriminant(b: real, q: real, hh: real)
    requires hh > 0.0 && var t := b / hh; q - 2.0 * t * b + t * t * hh >= 0.0
    ensures b * b <= hh * q
  {
    var t := b / hh;
    assert t * hh == b;
    assert t * t * hh == t * b;
    assert hh * (q - t * b) >= 0.0;
    assert hh * (q - t * b) == hh * q - (t * hh) * b;
  }

  lemma Cancel(x: real, y: real, s: real)
    requires s > 0.0 && x * s <= y * s
    ensures x <= y
  {
    assert (y - x) * s >= 0.0;
  }

  lemma CancelStrict(x: real, y: real, s: real)
    requires s > 0.0 && x * s < y * s
    ensures x < y
  {
    if x >= y {
      Cancel(y, x, s);
    }
  }

  lemma ShareOfSquare(b: real, q: real, hh: real, s: real)
    requires 0.0 < s && 0.0 <= hh <= s && 0.0 <= q && b * b <= hh * q
    ensures 0.0 <= b / s * b <= q
  {
    var g := b / s;
    assert g * s == b;
    assert (g * b) * s == b * b >= 0.0;
    assert hh * q <= q * s;
    Cancel(0.0, g * b, s);
    Cancel(g * b, q, s);
  }

  lemma ExplainedIsShare(p: Cov, r: real, w: Vec)
    requires Psd(p) && r > 0.0
    ensures p.hh + r > 0.0 && 0.0 <= Explained(p, p.hh + r, w) <= Quad(p, w)
  {
    AltitudeVarianceNonNegative(p);
    CauchySchwarz(p, w);
    assert Quad(p, w) >= 0.0;
    ShareOfSquare(AltitudeRow(p, w), Quad(p, w), p.hh, p.hh + r);
  }

  lemma CorrectedBetween(p: Cov, r: real, w: Vec)
    requires Psd(p) && r > 0.0
    ensures p.hh + r > 0.0
    ensures 0.0 <= Quad(CorrectedCov(p, p.hh + r), w) <= Quad(p, w)
  {
    ExplainedIsShare(p, r, w);
    CorrectTakesExplained(p, p.hh + r, w);
  }

  /** A correction keeps P positive semidefinite and raises no variance, of
      any combination of the state. */
  lemma CorrectKeepsPsd(p: Cov, r: real)
    requires Psd(p) && r > 0.0
    ensures p.hh + r > 0.0
    ensures Psd(CorrectedCov(p, p.hh + r))
    ensures forall w: Vec :: Quad(CorrectedCov(p, p.hh + r), w) <= Quad(p, w)
  {
    AltitudeVarianceNonNegative(p);
    var q := CorrectedCov(p, p.hh + r);
    forall w: Vec
      ensures Quad(q, w) >= 0.0 && Quad(q, w) <= Quad(p, w)
    {
      CorrectedBetween(p, r, w);
    }
    assert Psd(q);
  }

  /** The height is then known better than by the prediction or the reading
      alone: its variance is their product over their sum. */
  lemma CorrectedHeightVariance(p: Cov, r: real)
    requires Psd(p) && r > 0.0
    ensures p.hh + r > 0.0
    ensures CorrectedCov(p, p.hh + r).hh == p.hh * r / (p.hh + r)
    ensures 0.0 <= CorrectedCov(p, p.hh + r).hh < r
  {
    AltitudeVarianceNonNegative(p);
    HarmonicShare(p.hh, r);
  }

  lemma HarmonicShare(h: real, r: real)
    requires h >= 0.0 && r > 0.0
    ensures h - h / (h + r) * h == h * r / (h + r)
    ensures 0.0 <= h * r / (h + r) < r
  {
    var s, g := h + r, h / (h + r);
    assert g * s == h;
    assert (h - g * h) * s == h * s - (g * s) * h;
    assert h * s - h * h == h * r >= 0.0;
    Ratio(h - g * h, h * r, s);
    Cancel(0.0, h - g * h, s);
    assert r * s == r * h + r * r && r * r > 0.0;
    CancelStrict(h - g * h, r, s);
  }

  /** The form of the covariance left by any gain k whatever, for a reading of
      variance r: (I - kH) P (I - kH)' + r k k'. */
  function GainForm(p: Cov, k: Vec, r: real, w: Vec): real {
    var t := k.h * w.h + k.v * w.v + k.a * w.a;
    Quad(p, Vec(w.h - t, w.v, w.a)) + r * (t * t)
  }

  lemma GainFormAt(p: Cov, k: Vec, r: real, w: Vec)
    requires p.hh + r > 0.0
    ensures var d := k.h * w.h + k.v * w.v + k.a * w.a - AltitudeRow(p, w) / (p.hh + r);
            GainForm(p, k, r, w) == Quad(p, w) - Explained(p, p.hh + r, w) + (p.hh + r) * (d * d)
  {
    GainScalars(p.hh, p.hv, p.ha, p.vv, p.va, p.aa, w.h, w.v, w.a, k.h * w.h + k.v * w.v + k.a * w.a,
                AltitudeRow(p, w), r);
  }

  lemma GainScalars(hh: real, hv: real, ha: real, vv: real, va: real, aa: real, h: real, v: real, a: real,
                    t: real, b: real, r: real)
    requires hh + r > 0.0 && b == hh * h + hv * v + ha * a
    ensures var g := b / (hh + r);
            Form(hh, hv, ha, vv, va, aa, h - t, v, a) + r * (t * t)
            == Form(hh, hv, ha, vv, va, aa, h, v, a) - g * b + (hh + r) * ((t - g) * (t - g))
  {
    calc {
      Form(hh, hv, ha, vv, va, aa, h - t, v, a) + r * (t * t);
      { ShiftForm(hh, hv, ha, vv, va, aa, h, v, a, t); SameProduct(hh * h + hv * v + ha * a, b, 2.0 * t); }
      Form(hh, hv, ha, vv, va, aa, h, v, a) + (t * t * hh + r * (t * t) - 2.0 * t * b);
      { CompleteSquare(t, b, hh, r); }
      Form(hh, hv, ha, vv, va, aa, h, v, a) + ((hh + r) * ((t - b / (hh + r)) * (t - b / (hh + r))) - b / (hh + r) * b);
    }
  }

  lemma CompleteSquare(t: real, b: real, hh: real, r: real)
    requires hh + r > 0.0
    ensures var g := b / (hh + r);
            t * t * hh + r * (t * t) - 2.0 * t * b == (hh + r) * ((t - g) * (t - g)) - g * b
  {
    var s := hh + r;
    var g := b / s;
    assert g * s == b;
    assert s * ((t - g) * (t - g)) == t * t * s - 2.0 * t * (g * s) + g * (g * s);
    assert t * t * s == t * t * hh + r * (t * t);
  }

  lemma GainExceedsBy(p: Cov, r: real, k: Vec, w: Vec) returns (x: real)
    requires p.hh + r > 0.0
    ensures x >= 0.0 && GainForm(p, k, r, w) == Quad(p, w) - Explained(p, p.hh + r, w) + x
  {
    hide Quad, Explained, AltitudeRow, GainForm;
    var d := k.h * w.h + k.v * w.v + k.a * w.a - AltitudeRow(p, w) / (p.hh + r);
    GainFormAt(p, k, r, w);
    x := (p.hh + r) * (d * d);
    SquareNonNegative(p.hh + r, d);
  }

  /** No gain leaves less than the filter's own, in any direction, and the
      filter's own leaves exactly CorrectedCov. */
  lemma GainIsOptimal(p: Cov, r: real, k: Vec, w: Vec)
    requires Psd(p) && r > 0.0
    ensures p.hh + r > 0.0
    ensures Quad(CorrectedCov(p, p.hh + r), w) <= GainForm(p, k, r, w)
  {
    AltitudeVarianceNonNegative(p);
    hide Quad, CorrectedCov, Explained, GainForm;
    CorrectTakesExplained(p, p.hh + r, w);
    var x := GainExceedsBy(p, r, k, w);
  }

  lemma OwnGainAttains(p: Cov, r: real, w: Vec)
    requires p.hh + r > 0.0
    ensures var s := p.hh + r;
            GainForm(p, Vec(p.hh / s, p.hv / s, p.ha / s), r, w) == Quad(CorrectedCov(p, s), w)
  {
    var s := p.hh + r;
    var k := Vec(p.hh / s, p.hv / s, p.ha / s);
    calc {
      GainForm(p, k, r, w);
      { GainFormAt(p, k, r, w);
        OwnGain(p.hh, p.hv, p.ha, s, w.h, w.v, w.a, AltitudeRow(p, w));
        var d := k.h * w.h + k.v * w.v + k.a * w.a - AltitudeRow(p, w) / s;
        assert d == 0.0;
        assert s * (d * d) == 0.0; }
      Quad(p, w) - Explained(p, s, w);
      { CorrectTakesExplained(p, s, w); }
      Quad(CorrectedCov(p, s), w);
    }
  }

  lemma SquareNonNegative(s: real, d: real)
    requires s > 0.0
    ensures s * (d * d) >= 0.0
  {
    assert d * d >= 0.0;
  }

  lemma OwnGain(hh: real, hv: real, ha: real, s: real, h: real, v: real, a: real, b: real)
    requires s > 0.0 && b == hh * h + hv * v + ha * a
    ensures hh / s * h + hv / s * v + ha / s * a == b / s
  {
    var x, y, z := hh / s, hv / s, ha / s;
    assert x * s == hh && y * s == hv && z * s == ha;
    assert (x * h + y * v + z * a) * s == (x * s) * h + (y * s) * v + (z * s) * a;
    Ratio(x * h + y * v + z * a, b, s);
  }
}
