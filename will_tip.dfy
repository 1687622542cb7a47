/**
 * The single-domino tip test: one domino of the given width and height is
 * stood on the ledge with the starting tilt, and the world is stepped for
 * up to three seconds at 60 frames per second. Exit status 0 says the
 * domino fell beyond 0.5 rad within that time, exit status 1 that it did
 * not.
 */
module WillTip {

  import opened Wrappers
  import opened Geometry
  import opened Telemetry
  import World

  /** Gap between neighbouring dominoes (only one is created here). */
  const DominoSpacing: real := 0.5

  /** Three seconds at 60 frames per second. */
  const WillTipFrames: nat := 3 * 60

  /**
   * The creation loop run for a single domino, then the first and last
   * references taken from the list: both are the one domino, centred at
   * x = 5 on the ledge with the starting tilt.
   */
  method SetUpDomino(width: real, height: real) returns (first: DominoBody, last: DominoBody)
    ensures first == last
    ensures first == DominoBody(Vec(StartX, PlatformTop + height / 2.0), PushAngle)
  {
    var bodies := World.CreateDominoes(DominoSpacing, width, height, 1);
    var f := PyIndex(bodies, 0);
    var l := PyIndex(bodies, -1);
    first, last := f.value, l.value;
  }

  /** The domino is beyond 0.5 rad in magnitude after k steps. */
  function Tipped(angle: nat -> real): nat -> bool {
    (k: nat) => Abs(angle(k)) > 0.5
  }

  /** The exit status and the number of physics steps taken before exiting. */
  datatype Exit = Exit(code: int, steps: nat)

  /**
   * Exit 0 at the first pose among those after 0 .. 179 steps that has the
   * domino tipped, having stepped up to it but not past it; otherwise exit
   * 1 after all 180 steps.
   */
  function Outcome(angle: nat -> real): Exit {
    match FirstIndex(Tipped(angle), WillTipFrames)
    case Some(j) => Exit(0, j)
    case None => Exit(1, WillTipFrames)
  }

  /** The test passes iff the domino is tipped in one of the poses after 0 .. 179 steps; the pose after step 180 is never read. */
  lemma OutcomeMeaning(angle: nat -> real)
    ensures Outcome(angle).code == 0 || Outcome(angle).code == 1
    ensures Outcome(angle).code == 0 <==> exists j :: 0 <= j < WillTipFrames && Abs(angle(j)) > 0.5
    ensures Outcome(angle).code == 0 ==>
      Outcome(angle).steps < WillTipFrames && Abs(angle(Outcome(angle).steps)) > 0.5
    ensures forall i :: 0 <= i < Outcome(angle).steps ==> Abs(angle(i)) <= 0.5
    ensures Outcome(angle).code == 1 ==> Outcome(angle).steps == WillTipFrames
  {
    var holds := Tipped(angle);
    if exists j :: 0 <= j < WillTipFrames && Abs(angle(j)) > 0.5 {
      var j :| 0 <= j < WillTipFrames && Abs(angle(j)) > 0.5;
      assert holds(j);
    }
    forall i | 0 <= i < Outcome(angle).steps ensures Abs(angle(i)) <= 0.5 {
      assert !holds(i);
    }
  }

  /** A loop that meets its first tipped pose at j exits 0 after j steps. */
  lemma TipsAt(angle: nat -> real, j: nat)
    requires j < WillTipFrames && Abs(angle(j)) > 0.5
    requires forall i :: 0 <= i < j ==> Abs(angle(i)) <= 0.5
    ensures Outcome(angle) == Exit(0, j)
  {
    var holds := Tipped(angle);
    forall i | 0 <= i < j ensures !holds(i) {
      assert Abs(angle(i)) <= 0.5;
    }
    FirstIndexAt(holds, WillTipFrames, j);
  }

  /** A loop that never meets a tipped pose exits 1 after all its steps. */
  lemma NeverTips(angle: nat -> real)
    requires forall i :: 0 <= i < WillTipFrames ==> Abs(angle(i)) <= 0.5
    ensures Outcome(angle) == Exit(1, WillTipFrames)
  {
    var holds := Tipped(angle);
    forall i | 0 <= i < WillTipFrames ensures !holds(i) {
      assert Abs(angle(i)) <= 0.5;
    }
  }

  /** Two runs whose domino angles agree on the poses after 0 .. 179 steps end alike, whatever happens later. */
  lemma OnlyFirstPosesMatter(a1: nat -> real, a2: nat -> real)
    requires forall j :: 0 <= j < WillTipFrames ==> a1(j) == a2(j)
    ensures Outcome(a1) == Outcome(a2)
  {
    OutcomeMeaning(a1);
    var o := Outcome(a1);
    if o.code == 0 {
      forall i | 0 <= i < o.steps ensures Abs(a2(i)) <= 0.5 {
        assert a1(i) == a2(i);
      }
      assert a1(o.steps) == a2(o.steps);
      TipsAt(a2, o.steps);
    } else {
      forall i | 0 <= i < WillTipFrames ensures Abs(a2(i)) <= 0.5 {
        assert a1(i) == a2(i);
      }
      NeverTips(a2);
    }
  }

  /**
   * The frame loop. `angle(k)` is the domino's angle after k steps; the
   * first and the last domino are the same body, so both checks read it.
   * The last-domino check exits 0 at once, before the step; after 180
   * steps the script exits 1. Both tip flags end up set iff it exited 0.
   */
  method TipLoop(angle: nat -> real) returns (exitCode: int, frameCount: nat, firstTipped: bool, lastTipped: bool)
    ensures Exit(exitCode, frameCount) == Outcome(angle)
    ensures firstTipped == lastTipped == (exitCode == 0)
  {
    firstTipped, lastTipped := false, false;
    var running := true;
    frameCount := 0;
    while running
      invariant frameCount <= WillTipFrames
      invariant running <==> frameCount < WillTipFrames
      invariant forall i :: 0 <= i < frameCount ==> Abs(angle(i)) <= 0.5
      invariant !firstTipped && !lastTipped
      decreases WillTipFrames - frameCount
    {
      var firstAngle, lastAngle := angle(frameCount), angle(frameCount);
      if !firstTipped && Abs(firstAngle) > 0.5 {
        firstTipped := true;
      }
      if !lastTipped && Abs(lastAngle) > 0.5 {
        lastTipped := true;
        TipsAt(angle, frameCount);
        return 0, frameCount, firstTipped, lastTipped;
      }
      frameCount := frameCount + 1;
      if frameCount >= WillTipFrames {
        running := false;
      }
    }
    NeverTips(angle);
    exitCode := 1;
  }

  /** The whole script: set up the domino, then run the loop on its angles. */
  method WillTipMain(width: real, height: real, angle: nat -> real) returns (exitCode: int)
    ensures exitCode == 0 <==> exists j :: 0 <= j < WillTipFrames && Abs(angle(j)) > 0.5
    ensures exitCode == 0 || exitCode == 1
  {
    var first, last := SetUpDomino(width, height);
    var steps, firstTipped, lastTipped;
    exitCode, steps, firstTipped, lastTipped := TipLoop(angle);
    OutcomeMeaning(angle);
  }
}
