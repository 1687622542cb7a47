/**
 * The interactive application: the world parameters come from a fixed
 * task table or from six sliders, and once the start button has been
 * clicked every frame updates the tip flags, the beam classification and
 * the ball direction, then steps the world. There is no frame limit and
 * no early stop: the loop ends only when the window is closed.
 */
module RunApp {

  import opened Wrappers
  import opened Geometry
  import opened Telemetry
  import World

  function Max(a: real, b: real): (m: real)
    ensures m >= a && m >= b && (m == a || m == b)
  {
    if a >= b then a else b
  }

  /**
   * get_values: the three fixed tasks give fixed parameter lists; any other
   * task reads the sliders, raises each value to at least 0.1, then raises
   * the third entry from the end (the domino count) to at least 1. Fewer
   * than three sliders make that last step fail.
   */
  function GetValues(task: string, sliders: seq<real>): (r: Result<seq<real>, PyError>)
    ensures r.Failure? ==> r.error == IndexError
  {
    if task == "task_1" then Success([0.5, 0.2, 1.0, 4.0, 0.1, 0.0])
    else if task == "task_2" then Success([0.5, 0.2, 1.0, 22.0, 2.0, 0.0])
    else if task == "task_3" then Success([0.5, 0.2, 1.0, 6.0, 0.6, 0.0])
    else
      var values := seq(|sliders|, i requires 0 <= i < |sliders| => Max(0.1, sliders[i]));
      match PyIndex(values, -3)
      case Failure(e) => Failure(e)
      case Success(v) => Success(values[|values| - 3 := Max(v, 1.0)])
  }

  predicate IsFixedTask(task: string) {
    task == "task_1" || task == "task_2" || task == "task_3"
  }

  /**
   * For a slider-driven task the result has one entry per slider, every
   * entry is the slider's value or 0.1, whichever is larger, except that
   * the domino-count entry is also at least 1; it fails exactly when there
   * are fewer than three sliders.
   */
  lemma SliderValues(task: string, sliders: seq<real>)
    requires !IsFixedTask(task)
    ensures GetValues(task, sliders).Success? <==> |sliders| >= 3
    ensures GetValues(task, sliders).Success? ==>
      var v, n := GetValues(task, sliders).value, |sliders|;
      && |v| == n
      && (forall i :: 0 <= i < n ==> v[i] >= 0.1 && v[i] >= sliders[i])
      && (forall i :: 0 <= i < n && i != n - 3 ==> v[i] == 0.1 || v[i] == sliders[i])
      && v[n - 3] >= 1.0
      && (v[n - 3] == 0.1 || v[n - 3] == sliders[n - 3] || v[n - 3] == 1.0)
  {
  }

  /** The fixed tasks: four, twenty-two and six dominoes with the given gaps, and no hole. */
  lemma FixedTaskValues(sliders: seq<real>)
    ensures GetValues("task_1", sliders) == Success([0.5, 0.2, 1.0, 4.0, 0.1, 0.0])
    ensures GetValues("task_2", sliders) == Success([0.5, 0.2, 1.0, 22.0, 2.0, 0.0])
    ensures GetValues("task_3", sliders) == Success([0.5, 0.2, 1.0, 6.0, 0.6, 0.0])
  {
  }

  /** With the application's six sliders, every task gives six values whose domino count is at least 1. */
  lemma SixSlidersGiveDominoes(task: string, sliders: seq<real>)
    requires |sliders| == 6
    ensures GetValues(task, sliders).Success?
    ensures |GetValues(task, sliders).value| == 6
    ensures GetValues(task, sliders).value[3] >= 1.0
  {
    if !IsFixedTask(task) {
      SliderValues(task, sliders);
    }
  }

  /**
   * The world is built from the six values in slider order (spacing,
   * width, height, count, gap, hole). Since the count is at least 1 the
   * build never fails, and it creates at least one domino.
   */
  method WorldFor(task: string, sliders: seq<real>) returns (r: Result<World.Scene, PyError>)
    requires |sliders| == 6
    ensures r.Success? && |r.value.dominoes| >= 1
  {
    var values := GetValues(task, sliders);
    SixSlidersGiveDominoes(task, sliders);
    var v := values.value;
    r := World.GetWorld(World.WorldParams(v[0], v[1], v[2], v[3], v[4], v[5]));
  }

  /** How many of the first `frames` frames ran the started branch: every frame from the first click on. */
  function ActiveFrames(clicked: nat -> bool, frames: nat): nat {
    match FirstIndex(clicked, frames)
    case Some(c) => frames - c
    case None => 0
  }

  /** No click, no steps; after a first click at frame c, each of the frames c .. frames - 1 steps once. */
  lemma ActiveFramesMeaning(clicked: nat -> bool, frames: nat)
    ensures ActiveFrames(clicked, frames) <= frames
    ensures ActiveFrames(clicked, frames) == 0 <==> forall i :: 0 <= i < frames ==> !clicked(i)
    ensures forall c :: 0 <= c < frames && clicked(c) && (forall i :: 0 <= i < c ==> !clicked(i)) ==>
      ActiveFrames(clicked, frames) == frames - c
  {
    forall c | 0 <= c < frames && clicked(c) && (forall i :: 0 <= i < c ==> !clicked(i))
      ensures ActiveFrames(clicked, frames) == frames - c
    {
      FirstIndexAt(clicked, frames, c);
    }
  }

  /**
   * The main loop over `frames` frames (the last one is the frame whose
   * events closed the window). `clicked(i)` says whether the events of
   * frame i include a click on the start button; `trace(k)` is what the
   * engine shows after k steps. The start flag latches; from then on every
   * frame observes the current pose and steps once, and nothing ever stops
   * the loop early.
   */
  method RunFrames(clicked: nat -> bool, trace: nat -> Pose, frames: nat) returns (gameStarted: bool, final: Telemetry, steps: nat)
    ensures gameStarted <==> exists i :: 0 <= i < frames && clicked(i)
    ensures steps == ActiveFrames(clicked, frames)
    ensures final == ObserveAll(Initial, Prefix(trace, steps))
  {
    var firstDominoTipped, lastDominoTipped, ballMovingRight, beamTip := false, false, false, Neutral;
    gameStarted := false;
    steps := 0;
    for i := 0 to frames
      invariant gameStarted == FirstIndex(clicked, i).Some?
      invariant steps == ActiveFrames(clicked, i)
      invariant Telemetry(firstDominoTipped, lastDominoTipped, beamTip, ballMovingRight) == VarsAfter(Initial, trace, steps)
    {
      if clicked(i) {
        gameStarted := true;
      }
      if gameStarted {
        var p := trace(steps);
        if !firstDominoTipped && Abs(p.firstAngle) > 0.5 {
          firstDominoTipped := true;
        }
        if !lastDominoTipped && Abs(p.lastAngle) > 0.5 {
          lastDominoTipped := true;
        }
        if p.beamAngle > 0.2 {
          beamTip := Positive;
        } else if p.beamAngle < -0.2 {
          beamTip := Negative;
        } else {
          beamTip := Neutral;
        }
        var ballVelocity := p.ballVx;
        ballMovingRight := ballVelocity > 0.1;
        steps := steps + 1;
      }
    }
    final := Telemetry(firstDominoTipped, lastDominoTipped, beamTip, ballMovingRight);
    VarsAfterIsObserveAll(Initial, trace, steps);
  }
}
