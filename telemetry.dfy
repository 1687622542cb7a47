/**
 * The per-frame bookkeeping shared by the simulation loops: what is read
 * from the engine after each step, the beam classification, the latched
 * domino-tip flags and the recomputed ball-direction flag.
 */
module Telemetry {

  import opened Wrappers
  import opened Geometry

  /** What the loop reads from the engine after some number of steps. */
  datatype Pose = Pose(beamAngle: real, firstAngle: real, lastAngle: real, ballVx: real)

  datatype BeamTip = Positive | Negative | Neutral

  /** The loop's tracked variables. */
  datatype Telemetry = Telemetry(firstTipped: bool, lastTipped: bool, beamTip: BeamTip, ballMovingRight: bool)

  const Initial: Telemetry := Telemetry(false, false, Neutral, false)

  /** A domino counts as tipped once its angle exceeds this in magnitude. */
  const TipAngle: real := 0.5
  /** The beam counts as tipped once its angle exceeds this in magnitude. */
  const BeamAngle: real := 0.2
  /** The ball counts as moving right once its horizontal speed exceeds this. */
  const RightSpeed: real := 0.1

  /** The three-way split of the beam angle; both boundaries +-0.2 belong to the neutral band. */
  function Classify(angle: real): (tip: BeamTip)
    ensures tip == Positive <==> angle > 0.2
    ensures tip == Negative <==> angle < -0.2
    ensures tip == Neutral <==> -0.2 <= angle <= 0.2
  {
    if angle > BeamAngle then Positive
    else if angle < -BeamAngle then Negative
    else Neutral
  }

  /** One frame's update: the tip flags only ever switch on, the other two are recomputed from this pose. */
  function Observe(t: Telemetry, p: Pose): Telemetry {
    Telemetry(
      if !t.firstTipped && Abs(p.firstAngle) > TipAngle then true else t.firstTipped,
      if !t.lastTipped && Abs(p.lastAngle) > TipAngle then true else t.lastTipped,
      Classify(p.beamAngle),
      p.ballVx > RightSpeed)
  }

  /** The variables after observing the poses `ps` in order. */
  function ObserveAll(t: Telemetry, ps: seq<Pose>): Telemetry {
    if |ps| == 0 then t else Observe(ObserveAll(t, ps[..|ps| - 1]), ps[|ps| - 1])
  }

  /**
   * After a run of frames a tip flag is set iff it was set before or some
   * observed pose had that domino beyond 0.5 rad (it latches and never
   * reverts), while the beam classification and the ball flag describe the
   * latest pose alone.
   */
  lemma {:induction false} ObserveAllMeaning(t: Telemetry, ps: seq<Pose>)
    ensures ObserveAll(t, ps).firstTipped <==>
            t.firstTipped || exists j :: 0 <= j < |ps| && Abs(ps[j].firstAngle) > 0.5
    ensures ObserveAll(t, ps).lastTipped <==>
            t.lastTipped || exists j :: 0 <= j < |ps| && Abs(ps[j].lastAngle) > 0.5
    ensures |ps| == 0 ==> ObserveAll(t, ps) == t
    ensures |ps| > 0 ==> ObserveAll(t, ps).beamTip == Classify(ps[|ps| - 1].beamAngle)
    ensures |ps| > 0 ==> (ObserveAll(t, ps).ballMovingRight <==> ps[|ps| - 1].ballVx > 0.1)
  {
    if |ps| > 0 {
      var init := ps[..|ps| - 1];
      ObserveAllMeaning(t, init);
      assert forall j :: 0 <= j < |init| ==> init[j] == ps[j];
      if Abs(ps[|ps| - 1].firstAngle) > 0.5 {
        assert exists j :: 0 <= j < |ps| && Abs(ps[j].firstAngle) > 0.5;
      }
      if Abs(ps[|ps| - 1].lastAngle) > 0.5 {
        assert exists j :: 0 <= j < |ps| && Abs(ps[j].lastAngle) > 0.5;
      }
      if exists j :: 0 <= j < |ps| && Abs(ps[j].firstAngle) > 0.5 {
        var j :| 0 <= j < |ps| && Abs(ps[j].firstAngle) > 0.5;
        if j < |init| {
          assert Abs(init[j].firstAngle) > 0.5;
        }
      }
      if exists j :: 0 <= j < |ps| && Abs(ps[j].lastAngle) > 0.5 {
        var j :| 0 <= j < |ps| && Abs(ps[j].lastAngle) > 0.5;
        if j < |init| {
          assert Abs(init[j].lastAngle) > 0.5;
        }
      }
    }
  }

  /** Observing one more pose is one more Observe step. */
  lemma ObserveAllSnoc(t: Telemetry, ps: seq<Pose>, p: Pose)
    ensures ObserveAll(t, ps + [p]) == Observe(ObserveAll(t, ps), p)
  {
    assert (ps + [p])[..|ps|] == ps;
  }

  /** A set tip flag stays set whatever the next pose is; a negative or neutral beam never undoes it. */
  lemma TipFlagsLatch(t: Telemetry, p: Pose)
    ensures t.firstTipped ==> Observe(t, p).firstTipped
    ensures t.lastTipped ==> Observe(t, p).lastTipped
  {
  }

  /**
   * The first index below `n` at which `holds` is true. This is where a loop
   * that inspects indices 0, 1, ... and leaves at the first hit stops.
   */
  function FirstIndex(holds: nat -> bool, n: nat): (r: Option<nat>)
    ensures r.Some? ==> r.value < n && holds(r.value)
    ensures r.Some? ==> forall j :: 0 <= j < r.value ==> !holds(j)
    ensures r.None? <==> forall j :: 0 <= j < n ==> !holds(j)
  {
    if n == 0 then None
    else
      var earlier := FirstIndex(holds, n - 1);
      if earlier.Some? then earlier
      else if holds(n - 1) then Some(n - 1)
      else None
  }

  /** The poses after 0, 1, ..., n - 1 steps. */
  function Prefix(trace: nat -> Pose, n: nat): (ps: seq<Pose>)
    ensures |ps| == n && forall j :: 0 <= j < n ==> ps[j] == trace(j)
  {
    seq(n, j requires 0 <= j => trace(j))
  }

  lemma PrefixSnoc(trace: nat -> Pose, n: nat)
    ensures Prefix(trace, n + 1) == Prefix(trace, n) + [trace(n)]
  {
    assert forall j :: 0 <= j < n + 1 ==> Prefix(trace, n + 1)[j] == (Prefix(trace, n) + [trace(n)])[j];
  }

  /** The loop variables after observing the poses after 0 .. k - 1 steps, one frame at a time. */
  function VarsAfter(vars0: Telemetry, trace: nat -> Pose, k: nat): Telemetry {
    if k == 0 then vars0 else Observe(VarsAfter(vars0, trace, k - 1), trace(k - 1))
  }

  /** Observing frame by frame is observing the whole prefix. */
  lemma {:induction false} VarsAfterIsObserveAll(vars0: Telemetry, trace: nat -> Pose, k: nat)
    ensures VarsAfter(vars0, trace, k) == ObserveAll(vars0, Prefix(trace, k))
  {
    if k > 0 {
      VarsAfterIsObserveAll(vars0, trace, k - 1);
      PrefixSnoc(trace, k - 1);
      ObserveAllSnoc(vars0, Prefix(trace, k - 1), trace(k - 1));
    }
  }

  /** The first hit is the index that holds with none before it. */
  lemma FirstIndexAt(holds: nat -> bool, n: nat, j: nat)
    requires j < n && holds(j)
    requires forall i :: 0 <= i < j ==> !holds(i)
    ensures FirstIndex(holds, n) == Some(j)
  {
  }
}
