/**
 * The scene built by get_world: two static ledges with a hole between
 * them, a row of dominoes on the first ledge, the ball a small gap past
 * the last domino, and a beam with a cup at each end pivoting on a
 * fulcrum. Only the coordinates are modelled; the engine that simulates
 * the bodies is not.
 */
module World {

  import opened Wrappers
  import opened Geometry
  import opened Contacts

  /** The keyword arguments of get_world, in order. */
  datatype WorldParams = WorldParams(spacing: real, width: real, height: real, num: real, gap: real, hole: real)

  const DefaultParams: WorldParams := WorldParams(0.5, 0.2, 1.0, 20.0, 0.1, 0.1)

  /** An axis-aligned box given by its centre and half extents. */
  datatype Box = Box(centre: Vec, halfW: real, halfH: real)

  /** The pivot between beam and fulcrum. */
  datatype Joint = Joint(anchorA: Vec, anchorB: Vec, motorEnabled: bool, limitEnabled: bool, lower: real, upper: real)

  /**
   * What get_world builds. Bodies are numbered in creation order: ledge 0,
   * second ledge 1, domino i is 2 + i, then ball, beam and fulcrum; the
   * contact observer is given the last domino, the ball, the first ledge
   * and the beam.
   */
  datatype Scene = Scene(
    platform: Box,
    platform2: Box,
    dominoes: seq<DominoBody>,
    first: DominoBody,
    last: DominoBody,
    ball: Vec,
    beam: Vec,
    beamBox: Box,
    cupWalls: seq<seq<Vec>>,
    fulcrum: Vec,
    joint: Joint,
    tracked: Tracked)

  /** Python's int() on a float: truncation toward zero. */
  function Trunc(x: real): (t: int)
    ensures x >= 0.0 ==> t >= 0 && t as real <= x < t as real + 1.0
    ensures x < 0.0 ==> t <= 0 && t as real - 1.0 < x <= t as real
    ensures t >= 1 <==> x >= 1.0
  {
    if x >= 0.0 then x.Floor else -((-x).Floor)
  }

  /** Domino `i` as created: centred on the row at pitch width + spacing, standing on the ledge, only index 0 tilted. */
  function DominoAt(spacing: real, width: real, height: real, i: int): DominoBody {
    DominoBody(Vec(CentreX(spacing, width, i), PlatformTop + height / 2.0), if i == 0 then PushAngle else 0.0)
  }

  /**
   * Neighbouring dominoes are exactly one pitch apart, every domino stands
   * on the ledge top, and the tilt of -0.3 belongs to index 0 alone.
   */
  lemma DominoRowLayout(spacing: real, width: real, height: real, i: int)
    ensures DominoAt(spacing, width, height, i + 1).centre.x - DominoAt(spacing, width, height, i).centre.x == width + spacing
    ensures DominoAt(spacing, width, height, i).centre.y - height / 2.0 == PlatformTop
    ensures DominoAt(spacing, width, height, i).angle == -0.3 <==> i == 0
    ensures i != 0 ==> DominoAt(spacing, width, height, i).angle == 0.0
  {
    CentresOnePitchApart(spacing, width, i);
  }

  /** The for loop over range(n): one body per index, appended in order. */
  method CreateDominoes(spacing: real, width: real, height: real, n: int) returns (bodies: seq<DominoBody>)
    ensures |bodies| == if n > 0 then n else 0
    ensures forall i :: 0 <= i < |bodies| ==> bodies[i] == DominoAt(spacing, width, height, i)
  {
    bodies := [];
    var startY := PlatformTop + height / 2.0;
    var i := 0;
    while i < n
      invariant 0 <= i && (n > 0 ==> i <= n) && (n <= 0 ==> i == 0)
      invariant |bodies| == i
      invariant forall j :: 0 <= j < i ==> bodies[j] == DominoAt(spacing, width, height, j)
    {
      var angle := 0.0;
      if i == 0 {
        angle := PushAngle;
      }
      bodies := bodies + [DominoBody(Vec(CentreX(spacing, width, i), startY), angle)];
      i := i + 1;
    }
  }

  const BeamLength: real := 8.0
  const BeamThickness: real := 0.2
  const CupWidth: real := 2.0
  const CupHeight: real := 1.0
  const WallThickness: real := 0.1

  /** x offsets of the two cups from the beam's centre. */
  const LeftCupOffset: real := -BeamLength / 2.0 + CupWidth / 2.0
  const RightCupOffset: real := BeamLength / 2.0 - CupWidth / 2.0

  /** The vertices of the wall on the left side of the cup at offset `off`, in the order they are listed. */
  function CupLeftWall(off: real): seq<Vec> {
    [Vec(off - CupWidth / 2.0 + WallThickness / 2.0, CupHeight / 2.0),
     Vec(off - CupWidth / 2.0 + WallThickness / 2.0, -CupHeight / 2.0),
     Vec(off - CupWidth / 2.0 - WallThickness / 2.0, -CupHeight / 2.0),
     Vec(off - CupWidth / 2.0 - WallThickness / 2.0, CupHeight / 2.0)]
  }

  /** The vertices of the wall on the right side of the cup at offset `off`, in the order they are listed. */
  function CupRightWall(off: real): seq<Vec> {
    [Vec(off + CupWidth / 2.0 - WallThickness / 2.0, CupHeight / 2.0),
     Vec(off + CupWidth / 2.0 - WallThickness / 2.0, -CupHeight / 2.0),
     Vec(off + CupWidth / 2.0 + WallThickness / 2.0, -CupHeight / 2.0),
     Vec(off + CupWidth / 2.0 + WallThickness / 2.0, CupHeight / 2.0)]
  }

  /** The four walls in the order they are attached to the beam: left cup left, left cup right, right cup left, right cup right. */
  function CupWalls(): seq<seq<Vec>> {
    [CupLeftWall(LeftCupOffset), CupRightWall(LeftCupOffset), CupLeftWall(RightCupOffset), CupRightWall(RightCupOffset)]
  }

  /** The corners of the axis-aligned rectangle centred at (cx, cy) with the given half extents. */
  function Corners(cx: real, cy: real, halfW: real, halfH: real): set<Vec> {
    {Vec(cx - halfW, cy - halfH), Vec(cx + halfW, cy - halfH), Vec(cx + halfW, cy + halfH), Vec(cx - halfW, cy + halfH)}
  }

  function VertexSet(vs: seq<Vec>): set<Vec> {
    set v | v in vs
  }

  /** Reflection in the vertical line through the beam's centre. */
  function Mirror(v: Vec): Vec {
    Vec(-v.x, v.y)
  }

  function MirrorAll(vs: seq<Vec>): set<Vec> {
    set v | v in vs :: Mirror(v)
  }

  /**
   * Each wall is a rectangle 0.1 wide and 1.0 high centred on the beam's
   * axis, at cup offset -+ cup_width/2: the walls stand at x = -4, -2, 2
   * and 4, so the left cup's outer wall is centred at -beam_length/2.
   */
  lemma CupWallRectangles()
    ensures |CupWalls()| == 4
    ensures forall w :: 0 <= w < 4 ==> |CupWalls()[w]| == 4
    ensures VertexSet(CupWalls()[0]) == Corners(-BeamLength / 2.0, 0.0, 0.05, 0.5)
    ensures VertexSet(CupWalls()[1]) == Corners(-2.0, 0.0, 0.05, 0.5)
    ensures VertexSet(CupWalls()[2]) == Corners(2.0, 0.0, 0.05, 0.5)
    ensures VertexSet(CupWalls()[3]) == Corners(BeamLength / 2.0, 0.0, 0.05, 0.5)
  {
    var a, b, c, d := Corners(-4.0, 0.0, 0.05, 0.5), Corners(-2.0, 0.0, 0.05, 0.5), Corners(2.0, 0.0, 0.05, 0.5), Corners(4.0, 0.0, 0.05, 0.5);
    assert VertexSet(CupWalls()[0]) == a;
    assert VertexSet(CupWalls()[1]) == b;
    assert VertexSet(CupWalls()[2]) == c;
    assert VertexSet(CupWalls()[3]) == d;
  }

  /** The right cup is the left cup mirrored about the beam's centre: outer wall onto outer wall, inner onto inner. */
  lemma CupsMirrored()
    ensures MirrorAll(CupWalls()[0]) == VertexSet(CupWalls()[3])
    ensures MirrorAll(CupWalls()[1]) == VertexSet(CupWalls()[2])
  {
    var l0, l1 := CupWalls()[0], CupWalls()[1];
    assert MirrorAll(l0) == {Mirror(l0[0]), Mirror(l0[1]), Mirror(l0[2]), Mirror(l0[3])};
    assert MirrorAll(l1) == {Mirror(l1[0]), Mirror(l1[1]), Mirror(l1[2]), Mirror(l1[3])};
  }

  /** Rotation limits of +-15 degrees, with 3.1416 standing for pi. */
  const JointLimit: real := 15.0 * (3.1416 / 180.0)

  /** Where get_world puts the ball for the row ending at index n - 1. */
  function BallCentre(p: WorldParams, n: int): Vec {
    Vec(CentreX(p.spacing, p.width, n - 1) + p.width / 2.0 + BallRadius + p.gap, PlatformTop + BallRadius)
  }

  /**
   * get_world. With fewer than one domino (after truncating the count) the
   * lookup of the first domino raises IndexError; otherwise the scene holds
   * exactly int(num) dominoes laid out by DominoAt, the first and last of
   * them, the ball resting on the ledge with its left edge `gap` right of
   * the last domino's right edge, the second ledge leaving a hole of
   * `hole` after the first, the beam on its fulcrum, and a joint with
   * symmetric limits and no motor.
   */
  method GetWorld(p: WorldParams) returns (r: Result<Scene, PyError>)
    ensures r.Failure? <==> Trunc(p.num) <= 0
    ensures r.Failure? ==> r.error == IndexError
    ensures r.Success? ==>
      var s, n := r.value, Trunc(p.num);
      && |s.dominoes| == n
      && (forall i :: 0 <= i < n ==> s.dominoes[i] == DominoAt(p.spacing, p.width, p.height, i))
      && s.first == s.dominoes[0] && s.last == s.dominoes[n - 1]
      && s.ball.x - BallRadius == s.last.centre.x + p.width / 2.0 + p.gap
      && s.ball.y - BallRadius == PlatformTop
      && s.ball == BallCentre(p, n)
      && s.platform.centre.y + s.platform.halfH == PlatformTop
      && s.platform2.centre.x - s.platform2.halfW == s.platform.centre.x + s.platform.halfW + p.hole
      && s.platform2.centre.x == 26.0 + p.hole
      && s.beam == s.fulcrum == Vec(32.0 + p.hole, 2.0)
      && s.beamBox == Box(s.beam, BeamLength / 2.0, BeamThickness / 2.0)
      && s.cupWalls == CupWalls()
      && s.joint.lower == -s.joint.upper && s.joint.upper == JointLimit
      && !s.joint.motorEnabled && s.joint.limitEnabled
      && s.tracked == Tracked(n + 1, n + 2, 0, n + 3)
      && |{s.tracked.lastDomino, s.tracked.ball, s.tracked.platform, s.tracked.beam}| == 4
  {
    var platform := Box(Vec(12.5, 5.0), 12.5, 1.0);
    var platform2 := Box(Vec(25.0 + p.hole + 1.0, 5.0), 1.0, 1.0);
    var n := Trunc(p.num);
    var dominoes := CreateDominoes(p.spacing, p.width, p.height, n);
    var first := PyIndex(dominoes, 0);
    var last := PyIndex(dominoes, -1);
    if first.Failure? {
      return Failure(first.error);
    }
    var lastDominoX := CentreX(p.spacing, p.width, n - 1);
    var ball := Vec(lastDominoX + p.width / 2.0 + BallRadius + p.gap, PlatformTop + BallRadius);
    var beamPosition := Vec(32.0 + p.hole, 2.0);
    var beamBox := Box(beamPosition, BeamLength / 2.0, BeamThickness / 2.0);
    var walls := [CupLeftWall(LeftCupOffset), CupRightWall(LeftCupOffset), CupLeftWall(RightCupOffset), CupRightWall(RightCupOffset)];
    var joint := Joint(Vec(0.0, 0.0), Vec(0.0, 0.0), false, true, -15.0 * (3.1416 / 180.0), 15.0 * (3.1416 / 180.0));
    var lastId, ballId, platformId, beamId := 2 + (n - 1), 2 + n, 0, 3 + n;
    TrackedBodiesDistinct(n);
    r := Success(Scene(platform, platform2, dominoes, first.value, last.value, ball, beamPosition, beamBox,
                       walls, beamPosition, joint, Tracked(lastId, ballId, platformId, beamId)));
  }

  /** The four bodies handed to the contact observer are distinct, so each contact event changes at most one flag. */
  lemma TrackedBodiesDistinct(n: nat)
    ensures |{n + 1, n + 2, 0, n + 3}| == 4
  {
    assert {n + 1, n + 2, 0, n + 3} == {0} + {n + 1} + {n + 2} + {n + 3};
  }

  /** The default scene has 20 dominoes, the last centred at 5 + 19 * 0.7, and the ball 0.1 past its right edge. */
  lemma DefaultWorld()
    ensures Trunc(DefaultParams.num) == 20
    ensures BallCentre(DefaultParams, 20) == Vec(18.3 + 0.1 + 0.5 + 0.1, 6.5)
    ensures DominoAt(0.5, 0.2, 1.0, 19).centre == Vec(18.3, 6.5)
  {
  }
}
