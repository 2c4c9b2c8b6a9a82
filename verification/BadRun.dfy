/** The gate that both filters put their readings through (src/bad_run.h), and
    for exactly how long it refuses a run of far ones. */
module BadRun {
  import opened Words

  const BAD_RUN_US := 50000
  const LAST_TICK: u32 := 0xFFFF_FFFF

  /** The gate's word after a reading, and whether the reading is refused.
      A word of 0 says there is no run, so a run's own is its anchor plus one. */
  function Since(since: u32, far: bool, tUs: u32): u32 {
    if !far then 0 else if since == 0 then Add(tUs, 1) else since
  }

  predicate Refused(since: u32, far: bool, tUs: u32) {
    far && Sub(Add(tUs, 1), Since(since, far, tUs)) < BAD_RUN_US
  }

  class Gate {
    var sinceUs: u32

    constructor ()
      ensures sinceUs == 0
    {
      sinceUs := 0;
    }

    method Rejects(far: bool, tUs: u32) returns (rejects: bool)
      modifies this
      ensures sinceUs == Since(old(sinceUs), far, tUs)
      ensures rejects == Refused(old(sinceUs), far, tUs)
    {
      if !far {
        sinceUs := 0;
        return false;
      }
      if sinceUs == 0 {
        sinceUs := Add(tUs, 1);
      }
      return Sub(Add(tUs, 1), sinceUs) < BAD_RUN_US;
    }
  }

  predicate Monotone(ts: seq<int>) {
    forall i, j :: 0 <= i <= j < |ts| ==> ts[i] <= ts[j]
  }

  /** The gate's word after a run of far readings at these times. */
  function AfterRun(ts: seq<int>): u32 {
    if ts == [] then 0 else Since(AfterRun(ts[..|ts| - 1]), true, Wrap(ts[|ts| - 1]))
  }

  /** The reading the run is timed from: the first not on the timer's last
      tick, whose successor is the word that means no run. */
  function Anchor(ts: seq<int>): (a: nat)
    requires ts != []
    ensures a < |ts|
    ensures forall i :: 0 <= i < a ==> Wrap(ts[i]) == LAST_TICK
    ensures a == |ts| - 1 || Wrap(ts[a]) != LAST_TICK
  {
    if |ts| == 1 then 0
    else
      var a := Anchor(ts[..|ts| - 1]);
      if Wrap(ts[a]) != LAST_TICK then a else |ts| - 1
  }

  lemma {:induction false} AfterRunIsAnchor(ts: seq<int>)
    requires ts != []
    ensures AfterRun(ts) == Wrap(ts[Anchor(ts)] + 1)
  {
    var last := ts[|ts| - 1];
    WrapSuccessor(last);
    if |ts| > 1 {
      var init := ts[..|ts| - 1];
      AfterRunIsAnchor(init);
      WrapSuccessor(init[Anchor(init)]);
    }
  }

  lemma WrapSuccessor(t: int)
    ensures Add(Wrap(t), 1) == Wrap(t + 1)
    ensures Wrap(t + 1) == 0 <==> Wrap(t) == LAST_TICK
  {
    var k := t / 0x1_0000_0000;
    if Wrap(t) == LAST_TICK {
      WrapUnique(t + 1, 0, k + 1);
    } else {
      WrapUnique(t + 1, Wrap(t) + 1, k);
    }
  }

  /** A run's newest reading is refused exactly while less than 50 ms has
      passed since the run's anchor. */
  lemma RefusedForFiftyMs(ts: seq<int>)
    requires ts != [] && Monotone(ts) && ts[|ts| - 1] < ts[0] + 0x1_0000_0000
    ensures Refused(AfterRun(ts[..|ts| - 1]), true, Wrap(ts[|ts| - 1]))
       <==> ts[|ts| - 1] - ts[Anchor(ts)] < BAD_RUN_US
  {
    hide Anchor, Wrap, Add, Sub;
    var last := ts[|ts| - 1];
    AfterRunIsAnchor(ts);
    WrapSuccessor(last);
    ElapsedIsTrue(ts[Anchor(ts)] + 1, last + 1);
  }

  /** So the run is timed from its first reading for every continuation
      exactly when that reading is not on the timer's last tick. */
  lemma FirstReadingAnchors(first: int)
    ensures Wrap(first) != LAST_TICK
       <==> forall ts: seq<int> :: |ts| > 1 && ts[0] == first && Monotone(ts) ==> ts[Anchor(ts)] == first
  {
    if Wrap(first) == LAST_TICK {
      var ts := [first, first + 1];
      assert ts[Anchor(ts)] == first + 1;
    }
  }

  /** On that tick, a run 50,005 us old is refused still. */
  lemma LastTickStretchesRun()
    ensures var ts := [LAST_TICK as int, LAST_TICK + 10, LAST_TICK + 50_005];
            && ts[2] - ts[0] >= BAD_RUN_US
            && Refused(AfterRun(ts[..2]), true, Wrap(ts[2]))
  {
    var ts := [LAST_TICK as int, LAST_TICK + 10, LAST_TICK + 50_005];
    assert ts[..2] == [LAST_TICK as int, LAST_TICK + 10] && ts[..2][..1] == [LAST_TICK as int];
    assert Anchor(ts[..2][..1]) == 0;
    assert Anchor(ts[..2]) == 1;
    RefusedForFiftyMs(ts);
  }

  /* ---- Near readings between ---- */

  datatype Look = Look(far: bool, t: int)

  function AfterLooks(ls: seq<Look>): u32 {
    if ls == [] then 0 else Since(AfterLooks(ls[..|ls| - 1]), ls[|ls| - 1].far, Wrap(ls[|ls| - 1].t))
  }

  /** The times of the far readings since the newest near one. */
  function FarRun(ls: seq<Look>): (ts: seq<int>)
    ensures |ts| <= |ls|
    ensures forall i :: 0 <= i < |ts| ==> ls[|ls| - |ts| + i] == Look(true, ts[i])
    ensures |ts| < |ls| ==> !ls[|ls| - |ts| - 1].far
  {
    if ls == [] || !ls[|ls| - 1].far then [] else FarRun(ls[..|ls| - 1]) + [ls[|ls| - 1].t]
  }

  lemma {:induction false} GateKeepsRun(ls: seq<Look>)
    ensures AfterLooks(ls) == AfterRun(FarRun(ls))
  {
    if ls != [] {
      GateKeepsRun(ls[..|ls| - 1]);
      var ts := FarRun(ls);
      assert ls[|ls| - 1].far ==> ts[..|ts| - 1] == FarRun(ls[..|ls| - 1]);
    }
  }

  /** Readings in order, all within a turn of the timer. */
  predicate InTurn(ls: seq<Look>) {
    forall i, j :: 0 <= i <= j < |ls| ==> 0 <= ls[j].t - ls[i].t < TURN
  }

  lemma RunInTurn(ls: seq<Look>)
    requires InTurn(ls) && FarRun(ls) != []
    ensures var ts := FarRun(ls); Monotone(ts) && ts[|ts| - 1] < ts[0] + TURN
  {
    var ts, n := FarRun(ls), |ls| - |FarRun(ls)|;
    forall i, j | 0 <= i <= j < |ts|
      ensures 0 <= ts[j] - ts[i] < TURN
    {
      assert ls[n + i].t == ts[i] && ls[n + j].t == ts[j];
    }
  }

  /** Of any readings, near and far: the newest is refused exactly when it is far
      and less than 50 ms have passed since the anchor of the run of far ones it is
      the last of. */
  lemma RefusedInItsRun(ls: seq<Look>)
    requires ls != [] && InTurn(ls)
    ensures var l, ts := ls[|ls| - 1], FarRun(ls);
            && (l.far <==> ts != [])
            && (Refused(AfterLooks(ls[..|ls| - 1]), l.far, Wrap(l.t)) <==> l.far && l.t - ts[Anchor(ts)] < BAD_RUN_US)
  {
    hide Anchor, InTurn, Monotone;
    var l, ts := ls[|ls| - 1], FarRun(ls);
    if l.far {
      GateKeepsRun(ls[..|ls| - 1]);
      assert ts[..|ts| - 1] == FarRun(ls[..|ls| - 1]);
      RunInTurn(ls);
      RefusedForFiftyMs(ts);
    }
  }

  /** A near reading ends the run, whatever was before it: the next far one begins
      another. */
  lemma NearEndsRun(ls: seq<Look>, near: int, t: int)
    ensures FarRun(ls + [Look(false, near), Look(true, t)]) == [t]
    ensures AfterLooks(ls + [Look(false, near), Look(true, t)]) == Wrap(t + 1)
  {
    var a := ls + [Look(false, near)];
    var b := ls + [Look(false, near), Look(true, t)];
    assert b[..|b| - 1] == a && a[..|a| - 1] == ls;
    WrapSuccessor(t);
  }
}
