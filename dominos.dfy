/**
 * The domino script: it picks one of 36 scenarios by its index, prints
 * that scenario's facts while laying out the row, then steps the world
 * for up to 30 seconds at 120 frames per second and prints "success."
 * when the beam tipped positive. The contact callbacks and the frame
 * loop update the same script-level variables.
 */
module DominosScript {

  import opened Wrappers
  import opened Geometry
  import opened Contacts
  import opened Telemetry
  import opened Scenarios
  import World

  /** Domino width used by every scenario of the script. */
  const DominoWidth: real := 0.2

  /** 30 seconds at 120 frames per second. */
  const TotalFrames: nat := 30 * 120

  /** One row of the scenario table: domino height, domino count and skip count. */
  datatype Entry = Entry(height: real, count: int, skip: int)

  /** The table rows for the combinations `ts`; the height is the width times the ratio. */
  function TableOf(ts: seq<Combo<real>>): (table: seq<Entry>)
    ensures |table| == |ts|
  {
    seq(|ts|, t requires 0 <= t < |ts| => Entry(DominoWidth * ts[t].ratio, ts[t].count, ts[t].skip))
  }

  lemma TableOfSnoc(ts: seq<Combo<real>>, x: Combo<real>)
    ensures TableOf(ts + [x]) == TableOf(ts) + [Entry(DominoWidth * x.ratio, x.count, x.skip)]
  {
    var lhs := TableOf(ts + [x]);
    var rhs := TableOf(ts) + [Entry(DominoWidth * x.ratio, x.count, x.skip)];
    forall t | 0 <= t < |lhs| ensures lhs[t] == rhs[t] {
      if t < |ts| {
        assert (ts + [x])[t] == ts[t];
      }
    }
  }

  /** The script's table is built from the same ratio, count and skip lists as the generator's defaults. */
  function ScenarioTable(): seq<Entry> {
    TableOf(Combos(DefaultRatios, DefaultCounts, DefaultSkips))
  }

  /** The script's table, built from its three lists. */
  method BuildScenarioTable() returns (scenarios: seq<Entry>)
    ensures scenarios == ScenarioTable()
  {
    scenarios := FillTable(DefaultRatios, DefaultCounts, DefaultSkips);
  }

  /** The three nested loops that fill the table, ratio-major. */
  method FillTable(ratios: seq<real>, counts: seq<int>, skips: seq<int>) returns (scenarios: seq<Entry>)
    ensures scenarios == TableOf(Combos(ratios, counts, skips))
  {
    scenarios := [];
    ghost var visited: seq<Combo<real>> := [];
    for a := 0 to |ratios|
      invariant visited == Triples(ratios, counts, skips, a)
      invariant scenarios == TableOf(visited)
    {
      var r := ratios[a];
      ghost var before := visited;
      for b := 0 to |counts|
        invariant visited == before + Row(r, counts, skips, b)
        invariant scenarios == TableOf(visited)
      {
        var n := counts[b];
        ghost var rowBefore := visited;
        for c := 0 to |skips|
          invariant visited == rowBefore + Cell(r, n, skips, c)
          invariant scenarios == TableOf(visited)
        {
          var k := skips[c];
          TableOfSnoc(visited, Combo(r, n, k));
          scenarios := scenarios + [Entry(DominoWidth * r, n, k)];
          CellSnoc(r, n, skips, c);
          AppendAssoc(rowBefore, Cell(r, n, skips, c), [Combo(r, n, k)]);
          visited := visited + [Combo(r, n, k)];
        }
        AppendAssoc(before, Row(r, counts, skips, b), Cell(r, n, skips, |skips|));
      }
    }
  }

  /** Row (i·|ns| + j)·|ks| + l of a table built from nine-cell rows. */
  lemma TableAt(rs: seq<real>, ns: seq<int>, ks: seq<int>, i: int, j: int, l: int)
    requires |ns| == 3 && |ks| == 3
    requires 0 <= i < |rs| && 0 <= j < 3 && 0 <= l < 3
    ensures |TableOf(Combos(rs, ns, ks))| == 9 * |rs|
    ensures (i * 3 + j) * 3 + l < 9 * |rs|
    ensures TableOf(Combos(rs, ns, ks))[(i * 3 + j) * 3 + l] == Entry(0.2 * rs[i], ns[j], ks[l])
  {
    assert |ns| * |ks| == 9;
    assert (i * 3 + j) * 3 + l == i * (|ns| * |ks|) + (j * |ks| + l);
    CombosAt(rs, ns, ks, i, j, l);
  }

  /**
   * The table has 36 rows; row (i·3 + j)·3 + l has height 0.2·ratio i,
   * count j and skip l.
   */
  lemma ScenarioTableLayout(i: int, j: int, l: int)
    requires 0 <= i < 4 && 0 <= j < 3 && 0 <= l < 3
    ensures |ScenarioTable()| == 36
    ensures ScenarioTable()[(i * 3 + j) * 3 + l] == Entry(0.2 * DefaultRatios[i], DefaultCounts[j], DefaultSkips[l])
  {
    DefaultSizes();
    TableAt(DefaultRatios, DefaultCounts, DefaultSkips, i, j, l);
  }

  /** Row t of the table describes the same scenario as the generator's entry t for the same combinations. */
  lemma TableRowIsGenerated(ts: seq<Combo<real>>, t: int)
    requires 0 <= t < |ts|
    ensures var e := TableOf(ts)[t];
      ScenarioFacts(DominoWidth, e.height, e.count, e.skip) == Generated(DominoWidth, ts)[t]
  {
    assert TableOf(ts)[t].height == HeightOf(DominoWidth, ts[t].ratio);
  }

  /** The facts the script prints for row t are exactly the generator's scenario t under its defaults. */
  lemma TableMatchesGenerator(t: int)
    requires 0 <= t < |ScenarioTable()|
    ensures var e := ScenarioTable()[t];
      ScenarioFacts(DominoWidth, e.height, e.count, e.skip) == DefaultGenerated()[t]
  {
    TableRowIsGenerated(Combos(DefaultRatios, DefaultCounts, DefaultSkips), t);
  }

  /**
   * When the skip window ends before the last index, the last index is
   * created and is the last one created.
   */
  lemma LastIndexEmitted(n: int, k: int)
    requires 0 < n && n / 2 + k / 2 <= n - 1
    ensures Emitted(n, k) != [] && Emitted(n, k)[|Emitted(n, k)| - 1] == n - 1
  {
    var e := Emitted(n, k);
    EmittedExactly(n, k, n - 1);
    var a :| 0 <= a < |e| && e[a] == n - 1;
    var z := |e| - 1;
    EmittedExactly(n, k, e[z]);
    if a < z {
      EmittedIncreasing(n, k, a, z);
    }
  }

  /** The default counts lie in 5 .. 20 and the default skips in 0 .. 4. */
  lemma DefaultsInRange()
    ensures forall n :: n in DefaultCounts ==> 5 <= n <= 20
    ensures forall k :: k in DefaultSkips ==> 0 <= k <= 4
  {
  }

  /** Every row of a table whose counts lie in 5 .. 20 and skips in 0 .. 4 creates its last domino last. */
  lemma RowsCreateDominoes(rs: seq<real>, ns: seq<int>, ks: seq<int>, t: int)
    requires 0 <= t < |Combos(rs, ns, ks)|
    requires forall n :: n in ns ==> 5 <= n <= 20
    requires forall k :: k in ks ==> 0 <= k <= 4
    ensures var e := TableOf(Combos(rs, ns, ks))[t];
      Emitted(e.count, e.skip) != [] && Emitted(e.count, e.skip)[|Emitted(e.count, e.skip)| - 1] == e.count - 1
  {
    var i, j, l := CombosEntry(rs, ns, ks, t);
    var n, k := ns[j], ks[l];
    assert n in ns && k in ks;
    assert 5 <= n <= 20 && 0 <= k <= 4;
    LastIndexEmitted(n, k);
  }

  /** Every row of the table creates at least one domino, and its last domino is index count - 1. */
  lemma TableRowsCreateDominoes(t: int)
    requires 0 <= t < |ScenarioTable()|
    ensures var e := ScenarioTable()[t];
      Emitted(e.count, e.skip) != [] && Emitted(e.count, e.skip)[|Emitted(e.count, e.skip)| - 1] == e.count - 1
  {
    DefaultsInRange();
    RowsCreateDominoes(DefaultRatios, DefaultCounts, DefaultSkips, t);
  }

  /** The bodies created for the indices `e`: the first one tilted, all standing on the ledge. */
  function BodiesFor(w: real, h: real, e: seq<nat>): (bodies: seq<DominoBody>)
    ensures |bodies| == |e|
  {
    seq(|e|, t requires 0 <= t < |e| => DominoBody(Vec(DominoX(w, e[t]), PlatformTop + h / 2.0), if t == 0 then PushAngle else 0.0))
  }

  lemma BodiesForSnoc(w: real, h: real, e: seq<nat>, j: nat)
    ensures BodiesFor(w, h, e + [j]) ==
            BodiesFor(w, h, e) + [DominoBody(Vec(DominoX(w, j), PlatformTop + h / 2.0), if |e| == 0 then PushAngle else 0.0)]
  {
    var lhs := BodiesFor(w, h, e + [j]);
    var rhs := BodiesFor(w, h, e) + [DominoBody(Vec(DominoX(w, j), PlatformTop + h / 2.0), if |e| == 0 then PushAngle else 0.0)];
    forall t | 0 <= t < |lhs| ensures lhs[t] == rhs[t] {
      if t < |e| {
        assert (e + [j])[t] == e[t];
      }
    }
  }

  /**
   * The skip-and-push loop: the printed push and domino facts and the
   * bodies created, for `n` dominoes of which `k` around the middle are
   * skipped.
   */
  method PlaceDominoes(w: real, h: real, n: int, k: int) returns (printed: seq<Fact>, bodies: seq<DominoBody>)
    ensures printed == DominoFacts(w, Emitted(n, k))
    ensures bodies == BodiesFor(w, h, Emitted(n, k))
  {
    var startY := PlatformTop + h / 2.0;
    var mid := n / 2;
    var skipStart := mid - k / 2;
    var skipEnd := mid + k / 2;
    var pushed := false;
    printed := [];
    bodies := [];
    ghost var created: seq<nat> := [];
    var count := if n > 0 then n else 0;
    for i := 0 to count
      invariant created == EmittedBelow(n, k, i)
      invariant pushed <==> created != []
      invariant printed == DominoFacts(w, created)
      invariant bodies == BodiesFor(w, h, created)
    {
      EmittedBelowStep(n, k, i);
      if skipStart <= i < skipEnd {
        assert created + [] == created;
        continue;
      }
      var dominoX := DominoX(w, i);
      var angle := 0.0;
      ghost var added: seq<Fact> := [Domino(dominoX)];
      ghost var before := printed;
      if !pushed {
        angle := PushAngle;
        printed := printed + [Push(dominoX)];
        added := [Push(dominoX)] + added;
        pushed := true;
      }
      BodiesForSnoc(w, h, created, i);
      bodies := bodies + [DominoBody(Vec(dominoX, startY), angle)];
      printed := printed + [Domino(dominoX)];
      AppendAssoc(before, added[..|added| - 1], [Domino(dominoX)]);
      assert added[..|added| - 1] + [Domino(dominoX)] == added;
      DominoFactsSnoc(w, created, i);
      created := created + [i];
    }
  }

  /**
   * Only the first created domino is tilted, and the push fact names it;
   * each created body stands where its domino fact says.
   */
  lemma BodiesMatchFacts(w: real, h: real, n: int, k: int, t: int)
    requires 0 <= t < |Emitted(n, k)|
    ensures var bodies, fs := BodiesFor(w, h, Emitted(n, k)), ScenarioFacts(w, h, n, k);
      && (bodies[t].angle == -0.3 <==> t == 0)
      && (t != 0 ==> bodies[t].angle == 0.0)
      && fs[2] == Push(bodies[0].centre.x)
      && fs[3 + t] == Domino(bodies[t].centre.x)
      && bodies[t].centre.y == 6.0 + h / 2.0
  {
    ScenarioLayout(w, h, n, k);
  }

  /** With a positive pitch the created bodies stand left to right in creation order. */
  lemma BodiesIncreasing(w: real, h: real, n: int, k: int, a: int, b: int)
    requires w + Spacing > 0.0
    requires 0 <= a < b < |Emitted(n, k)|
    ensures BodiesFor(w, h, Emitted(n, k))[a].centre.x < BodiesFor(w, h, Emitted(n, k))[b].centre.x
  {
    EmittedXIncreasing(w, n, k, a, b);
  }

  /** The beam angle after step k is above 0.2. */
  function BeamPositive(trace: nat -> Pose): nat -> bool {
    (k: nat) => Classify(trace(k).beamAngle) == Positive
  }

  /** Whether some inspected pose has the beam tipped positive. */
  function Succeeds(trace: nat -> Pose): bool {
    FirstIndex(BeamPositive(trace), TotalFrames).Some?
  }

  /** The number of physics steps taken: up to the first positive pose, else all of them. */
  function StepsTaken(trace: nat -> Pose): nat {
    match FirstIndex(BeamPositive(trace), TotalFrames)
    case Some(j) => j
    case None => TotalFrames
  }

  /** The number of poses inspected: the one that stopped the loop is inspected but not stepped past. */
  function Inspected(trace: nat -> Pose): nat {
    if Succeeds(trace) then StepsTaken(trace) + 1 else TotalFrames
  }

  /**
   * The loop succeeds iff some pose after 0 .. 3599 steps has the beam
   * above 0.2; it stops at the first such pose, and it never stops early
   * otherwise, however negative the beam gets.
   */
  lemma RunOutcome(trace: nat -> Pose)
    ensures Succeeds(trace) <==> exists j :: 0 <= j < TotalFrames && trace(j).beamAngle > 0.2
    ensures Succeeds(trace) ==> StepsTaken(trace) < TotalFrames && trace(StepsTaken(trace)).beamAngle > 0.2
    ensures forall j :: 0 <= j < StepsTaken(trace) ==> trace(j).beamAngle <= 0.2
    ensures !Succeeds(trace) ==> StepsTaken(trace) == TotalFrames
    ensures Inspected(trace) <= TotalFrames
  {
    var holds := BeamPositive(trace);
    if exists j :: 0 <= j < TotalFrames && trace(j).beamAngle > 0.2 {
      var j :| 0 <= j < TotalFrames && trace(j).beamAngle > 0.2;
      assert holds(j);
    }
    forall j | 0 <= j < StepsTaken(trace) ensures trace(j).beamAngle <= 0.2 {
      assert !holds(j);
    }
  }

  /** A loop that meets its first positive beam at j has taken j steps and inspected j + 1 poses. */
  lemma StopsAt(trace: nat -> Pose, j: nat)
    requires j < TotalFrames && trace(j).beamAngle > 0.2
    requires forall i :: 0 <= i < j ==> trace(i).beamAngle <= 0.2
    ensures Succeeds(trace) && StepsTaken(trace) == j && Inspected(trace) == j + 1
  {
    var holds := BeamPositive(trace);
    forall i | 0 <= i < j ensures !holds(i) {
      assert trace(i).beamAngle <= 0.2;
    }
    FirstIndexAt(holds, TotalFrames, j);
  }

  /** A loop that never meets a positive beam takes every step and inspects every pose. */
  lemma RunsOut(trace: nat -> Pose)
    requires forall i :: 0 <= i < TotalFrames ==> trace(i).beamAngle <= 0.2
    ensures !Succeeds(trace) && StepsTaken(trace) == TotalFrames && Inspected(trace) == TotalFrames
  {
    var holds := BeamPositive(trace);
    forall i | 0 <= i < TotalFrames ensures !holds(i) {
      assert trace(i).beamAngle <= 0.2;
    }
  }

  /**
   * Where a loop that leaves at its first positive beam, or after
   * TotalFrames steps, has stopped: that is the run's step count, and it
   * succeeded iff it left early.
   */
  lemma RunEnds(trace: nat -> Pose, k: nat)
    requires k <= TotalFrames
    requires forall i :: 0 <= i < k ==> trace(i).beamAngle <= 0.2
    requires k < TotalFrames ==> trace(k).beamAngle > 0.2
    ensures StepsTaken(trace) == k
    ensures Succeeds(trace) <==> k < TotalFrames
    ensures Inspected(trace) == if k < TotalFrames then k + 1 else k
  {
    if k < TotalFrames {
      StopsAt(trace, k);
    } else {
      RunsOut(trace);
    }
  }

  /** The outcome depends only on the inspected poses: traces that agree on them give the same run. */
  lemma OnlyInspectedPosesMatter(t1: nat -> Pose, t2: nat -> Pose)
    requires forall j :: 0 <= j < Inspected(t1) ==> t1(j) == t2(j)
    ensures Succeeds(t1) == Succeeds(t2) && StepsTaken(t1) == StepsTaken(t2) && Inspected(t1) == Inspected(t2)
    ensures Prefix(t1, Inspected(t1)) == Prefix(t2, Inspected(t2))
  {
    RunOutcome(t1);
    var k := StepsTaken(t1);
    RunEnds(t1, k);
    SameStop(t1, t2, k);
    RunEnds(t2, k);
    PrefixAgree(t1, t2, Inspected(t1));
  }

  /** A trace that agrees with another on the poses up to its stop stops at the same step. */
  lemma SameStop(t1: nat -> Pose, t2: nat -> Pose, k: nat)
    requires k <= TotalFrames
    requires forall i :: 0 <= i < k ==> t1(i).beamAngle <= 0.2
    requires k < TotalFrames ==> t1(k).beamAngle > 0.2
    requires forall j :: 0 <= j < (if k < TotalFrames then k + 1 else k) ==> t1(j) == t2(j)
    ensures forall i :: 0 <= i < k ==> t2(i).beamAngle <= 0.2
    ensures k < TotalFrames ==> t2(k).beamAngle > 0.2
  {
    forall i | 0 <= i < k ensures t2(i).beamAngle <= 0.2 {
      assert t1(i) == t2(i);
    }
    if k < TotalFrames {
      assert t1(k) == t2(k);
    }
  }

  lemma PrefixAgree(t1: nat -> Pose, t2: nat -> Pose, n: nat)
    requires forall j :: 0 <= j < n ==> t1(j) == t2(j)
    ensures Prefix(t1, n) == Prefix(t2, n)
  {
    assert forall j :: 0 <= j < n ==> Prefix(t1, n)[j] == Prefix(t2, n)[j];
  }

  /** A beam that only ever tips negative never stops the loop and never prints success. */
  lemma NegativeTipDoesNotStop(trace: nat -> Pose)
    requires forall j :: 0 <= j < TotalFrames ==> trace(j).beamAngle < -0.2
    ensures !Succeeds(trace) && StepsTaken(trace) == TotalFrames
    ensures ObserveAll(Initial, Prefix(trace, Inspected(trace))).beamTip == Negative
  {
    RunOutcome(trace);
    ObserveAllMeaning(Initial, Prefix(trace, TotalFrames));
  }

  /** The callbacks delivered during steps 0 .. k - 1, in order. */
  function AllEvents(events: nat -> seq<ContactEvent>, k: nat): seq<ContactEvent> {
    if k == 0 then [] else AllEvents(events, k - 1) + events(k - 1)
  }

  /** The contact flags after the callbacks of steps 0 .. k - 1, one step at a time. */
  function FlagsAfter(t: Tracked, flags0: Flags, events: nat -> seq<ContactEvent>, k: nat): Flags {
    if k == 0 then flags0 else Replay(t, FlagsAfter(t, flags0, events, k - 1), events(k - 1))
  }

  lemma {:induction false} FlagsAfterIsReplay(t: Tracked, flags0: Flags, events: nat -> seq<ContactEvent>, k: nat)
    ensures FlagsAfter(t, flags0, events, k) == Replay(t, flags0, AllEvents(events, k))
  {
    if k > 0 {
      FlagsAfterIsReplay(t, flags0, events, k - 1);
      ReplayAppend(t, flags0, AllEvents(events, k - 1), events(k - 1));
    }
  }

  /**
   * The script's variables: the three contact flags its callbacks set and
   * clear, and the four the frame loop updates. Bodies are compared with
   * the last domino, the ball, the ledge and the beam, given here as ids.
   */
  class ScriptGlobals {
    const tracked: Tracked
    var firstDominoTipped: bool
    var lastDominoTipped: bool
    var dominoBallContact: bool
    var ballMovingRight: bool
    var ballContactTop: bool
    var ballContactBottom: bool
    var beamTip: BeamTip

    function ContactFlags(): Flags
      reads this
    {
      Flags(dominoBallContact, ballContactTop, ballContactBottom)
    }

    function LoopVars(): Telemetry
      reads this
    {
      Telemetry(firstDominoTipped, lastDominoTipped, beamTip, ballMovingRight)
    }

    constructor (tracked: Tracked)
      ensures this.tracked == tracked
      ensures ContactFlags() == NoContact && LoopVars() == Initial
    {
      this.tracked := tracked;
      firstDominoTipped := false;
      lastDominoTipped := false;
      dominoBallContact := false;
      ballMovingRight := false;
      ballContactTop := false;
      ballContactBottom := false;
      beamTip := Neutral;
    }

    method BeginContact(a: BodyId, b: BodyId)
      modifies this
      ensures ContactFlags() == Apply(tracked, old(ContactFlags()), Begin(a, b))
      ensures LoopVars() == old(LoopVars())
    {
      if (a == tracked.lastDomino && b == tracked.ball) || (b == tracked.lastDomino && a == tracked.ball) {
        dominoBallContact := true;
      }
      if (a == tracked.ball && b == tracked.platform) || (b == tracked.ball && a == tracked.platform) {
        ballContactTop := true;
      }
      if (a == tracked.ball && b == tracked.beam) || (b == tracked.ball && a == tracked.beam) {
        ballContactBottom := true;
      }
    }

    method EndContact(a: BodyId, b: BodyId)
      modifies this
      ensures ContactFlags() == Apply(tracked, old(ContactFlags()), End(a, b))
      ensures LoopVars() == old(LoopVars())
    {
      if (a == tracked.lastDomino && b == tracked.ball) || (b == tracked.lastDomino && a == tracked.ball) {
        dominoBallContact := false;
      }
      if (a == tracked.ball && b == tracked.platform) || (b == tracked.ball && a == tracked.platform) {
        ballContactTop := false;
      }
      if (a == tracked.ball && b == tracked.beam) || (b == tracked.ball && a == tracked.beam) {
        ballContactBottom := false;
      }
    }

    /** The callbacks the engine makes during one step, in order. */
    method Deliver(evs: seq<ContactEvent>)
      modifies this
      ensures ContactFlags() == Replay(tracked, old(ContactFlags()), evs)
      ensures LoopVars() == old(LoopVars())
    {
      for i := 0 to |evs|
        invariant ContactFlags() == Replay(tracked, old(ContactFlags()), evs[..i])
        invariant LoopVars() == old(LoopVars())
      {
        assert evs[..i + 1][..i] == evs[..i];
        match evs[i]
        case Begin(a, b) => BeginContact(a, b);
        case End(a, b) => EndContact(a, b);
      }
      assert evs[..|evs|] == evs;
    }

    /** The per-frame update of the tip flags, the beam classification and the ball direction. */
    method UpdateVariables(p: Pose)
      modifies this
      ensures LoopVars() == Observe(old(LoopVars()), p)
      ensures ContactFlags() == old(ContactFlags())
    {
      if !firstDominoTipped && Abs(p.firstAngle) > 0.5 {
        firstDominoTipped := true;
      }
      if !lastDominoTipped && Abs(p.lastAngle) > 0.5 {
        lastDominoTipped := true;
      }
      if p.beamAngle > 0.2 {
        beamTip := Positive;
      } else if p.beamAngle < -0.2 {
        beamTip := Negative;
      } else {
        beamTip := Neutral;
      }
      var ballVelocity := p.ballVx;
      ballMovingRight := ballVelocity > 0.1;
    }

    /**
     * One pass of the loop body: update the variables from the current
     * pose, then either stop on a positive beam or let the engine step,
     * delivering that step's callbacks.
     */
    method Frame(p: Pose, evs: seq<ContactEvent>) returns (stop: bool)
      modifies this
      ensures stop <==> p.beamAngle > 0.2
      ensures LoopVars() == Observe(old(LoopVars()), p)
      ensures ContactFlags() == if stop then old(ContactFlags()) else Replay(tracked, old(ContactFlags()), evs)
    {
      UpdateVariables(p);
      if beamTip == Positive {
        return true;
      }
      Deliver(evs);
      return false;
    }

    /**
     * The frame loop. `trace(k)` is what the engine shows after k steps and
     * `events(k)` the callbacks it makes during step k. The loop stops at
     * the first positive beam, having inspected that pose but not stepped
     * past it, or after TotalFrames steps; the variables then hold the
     * frame-by-frame observation of exactly the inspected poses and the
     * replay of exactly the callbacks of the steps taken.
     */
    method Run(trace: nat -> Pose, events: nat -> seq<ContactEvent>) returns (frameCount: nat)
      modifies this
      ensures frameCount <= TotalFrames
      ensures forall i :: 0 <= i < frameCount ==> trace(i).beamAngle <= 0.2
      ensures frameCount < TotalFrames ==> trace(frameCount).beamAngle > 0.2
      ensures beamTip == Positive <==> frameCount < TotalFrames
      ensures LoopVars() == VarsAfter(old(LoopVars()), trace, if frameCount < TotalFrames then frameCount + 1 else frameCount)
      ensures ContactFlags() == FlagsAfter(tracked, old(ContactFlags()), events, frameCount)
    {
      var running := true;
      frameCount := 0;
      ghost var vars0, flags0 := LoopVars(), ContactFlags();
      while running
        invariant frameCount <= TotalFrames
        invariant running <==> frameCount < TotalFrames
        invariant forall i :: 0 <= i < frameCount ==> trace(i).beamAngle <= 0.2
        invariant LoopVars() == VarsAfter(vars0, trace, frameCount)
        invariant ContactFlags() == FlagsAfter(tracked, flags0, events, frameCount)
        invariant frameCount > 0 ==> beamTip != Positive
        decreases TotalFrames - frameCount
      {
        var stop := Frame(trace(frameCount), events(frameCount));
        if stop {
          break;
        }
        frameCount := frameCount + 1;
        if frameCount >= TotalFrames {
          running := false;
        }
      }
    }
  }

  /**
   * The ball_x fact printed for a scenario is where the world builder puts
   * the ball for the same row: pitch 0.5 + w from x = 5, gap 0.1.
   */
  lemma BallFactMatchesWorld(w: real, h: real, n: int, hole: real)
    ensures BallXOf(w, n) == World.BallCentre(World.WorldParams(Spacing, w, h, n as real, SmallGap, hole), n).x
  {
  }

  /** How a run of the script ends. */
  datatype ScriptResult =
    | NoSuchScenario
    | Crashed(printed: seq<Fact>, error: PyError)
    | Simulated(printed: seq<Fact>, successPrinted: bool, steps: nat, final: Telemetry, contacts: Flags)

  /** Python's index into the 36-row table: -36 .. -1 count from the end. */
  function TableIndex(arg: int): int {
    if arg < 0 then arg + 36 else arg
  }

  /** The scene set up for a scenario, before the frame loop: what was printed and the dominoes created. */
  datatype Setup = Missing | Failed(error: PyError) | Ready(printed: seq<Fact>, bodies: seq<DominoBody>)

  /**
   * Everything the script does before its frame loop. An index of 36 or
   * more exits before anything is printed and one below -36 raises
   * IndexError; any other index prints the facts of its scenario, which
   * are the generator's scenario of the same position, and creates at
   * least one domino.
   */
  method SetUpScenario(arg: int) returns (s: Setup)
    ensures arg >= 36 <==> s == Missing
    ensures arg < -36 <==> s == Failed(IndexError)
    ensures -36 <= arg < 36 ==>
      && s.Ready?
      && s.printed == DefaultGenerated()[TableIndex(arg)]
      && |s.bodies| > 0
    ensures -36 <= arg < 36 ==>
      var e := ScenarioTable()[TableIndex(arg)];
      s.Ready? && s.bodies == BodiesFor(DominoWidth, e.height, Emitted(e.count, e.skip))
  {
    var scenarios := BuildScenarioTable();
    assert |scenarios| == 36 by {
      ScenarioTableLayout(0, 0, 0);
    }
    if arg >= |scenarios| {
      return Missing;
    }
    var entry := PyIndex(scenarios, arg);
    if entry.Failure? {
      return Failed(entry.error);
    }
    ghost var t := TableIndex(arg);
    assert entry.value == ScenarioTable()[t];
    var h, n, k := entry.value.height, entry.value.count, entry.value.skip;
    var printed := [Width(DominoWidth), Height(h)];
    var dominoFacts, bodies := PlaceDominoes(DominoWidth, h, n, k);
    printed := printed + dominoFacts;
    var first := PyIndex(bodies, 0);
    var last := PyIndex(bodies, -1);
    TableRowsCreateDominoes(t);
    if first.Failure? {
      // not reached: every table row creates a domino
      assert false;
    }
    var lastDominoX := DominoX(DominoWidth, n - 1);
    var ballX := lastDominoX + DominoWidth / 2.0 + BallRadius + SmallGap;
    assert ballX == BallXOf(DominoWidth, n);
    ghost var head := printed;
    printed := printed + [BallX(ballX)];
    assert printed == head + [BallX(BallXOf(DominoWidth, n))];
    TableMatchesGenerator(t);
    return Ready(printed, bodies);
  }

  /**
   * The whole script for command-line argument `arg`: set up the scenario,
   * then run the frame loop from all-false variables; "success." is
   * printed iff a positive beam was seen, and the contact flags are the
   * replay of every event raised during the steps taken, on the pairs of
   * the last domino, the ball, the ledge and the beam.
   */
  method DominosMain(arg: int, trace: nat -> Pose, events: nat -> seq<ContactEvent>) returns (out: ScriptResult)
    ensures arg >= 36 <==> out == NoSuchScenario
    ensures arg < -36 <==> out == Crashed([], IndexError)
    ensures -36 <= arg < 36 ==>
      && out.Simulated?
      && out.printed == DefaultGenerated()[TableIndex(arg)]
      && out.successPrinted == Succeeds(trace)
      && out.steps == StepsTaken(trace)
      && out.final == ObserveAll(Initial, Prefix(trace, Inspected(trace)))
    ensures -36 <= arg < 36 ==>
      var e := ScenarioTable()[TableIndex(arg)];
      var b := |Emitted(e.count, e.skip)|;
      out.Simulated? && out.contacts == Replay(Tracked(b, b + 1, 0, b + 2), NoContact, AllEvents(events, out.steps))
  {
    var setup := SetUpScenario(arg);
    match setup
    case Missing =>
      return NoSuchScenario;
    case Failed(error) =>
      return Crashed([], error);
    case Ready(printed, bodies) =>
      // ids in creation order: the ledge, the created dominoes, the ball, the beam
      var g := new ScriptGlobals(Tracked(|bodies|, |bodies| + 1, 0, |bodies| + 2));
      var steps := g.Run(trace, events);
      RunEnds(trace, steps);
      VarsAfterIsObserveAll(Initial, trace, Inspected(trace));
      FlagsAfterIsReplay(g.tracked, NoContact, events, steps);
      return Simulated(printed, g.beamTip == Positive, steps, g.LoopVars(), g.ContactFlags());
  }
}
