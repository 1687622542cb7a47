/**
 * The five abstract features computed from a structure summary: the
 * domino spacing (when the row is evenly spaced), the force of the ball,
 * how centred the ball is over the row, the ball's offset from the last
 * domino, and the domino-to-ball mass and size ratio. A feature that
 * cannot be computed is None.
 */
module Features {

  import opened Wrappers
  import opened Geometry
  import World

  /** The structure summary: domino x positions in increasing order, the domino size and the ball. */
  datatype StructureRep = StructureRep(
    sortedDominoPositions: seq<real>,
    dominoWidth: real,
    dominoHeight: real,
    ballPosition: real,
    ballRadius: real,
    ballDensity: real)

  /** math.pi, as used by the force feature. */
  const Pi: real := 3.141592653589793

  function Cube(x: real): real {
    x * x * x
  }

  /** Left-to-right sum of a list of numbers. */
  function Sum(xs: seq<real>): real {
    if |xs| == 0 then 0.0 else Sum(xs[..|xs| - 1]) + xs[|xs| - 1]
  }

  /** The gap from position i to position i + 1. */
  function Gap(ps: seq<real>, i: nat): real
    requires i + 1 < |ps|
  {
    ps[i + 1] - ps[i]
  }

  /** The gaps between consecutive positions; none for fewer than two positions. */
  function Spacings(ps: seq<real>): (gaps: seq<real>)
    ensures |gaps| == if |ps| == 0 then 0 else |ps| - 1
    ensures forall i :: 0 <= i < |gaps| ==> gaps[i] == Gap(ps, i)
  {
    if |ps| == 0 then [] else seq(|ps| - 1, i requires 0 <= i < |ps| - 1 => Gap(ps, i))
  }

  /** The gaps telescope: they add up to the distance from the first position to the last. */
  lemma {:induction false} SpacingsSum(ps: seq<real>)
    requires |ps| >= 1
    ensures Sum(Spacings(ps)) == ps[|ps| - 1] - ps[0]
  {
    if |ps| > 1 {
      var init := ps[..|ps| - 1];
      SpacingsSum(init);
      var g, gi := Spacings(ps), Spacings(init);
      assert g[..|g| - 1] == gi by {
        forall i | 0 <= i < |gi| ensures g[i] == gi[i] {
          assert init[i + 1] == ps[i + 1] && init[i] == ps[i];
        }
      }
      assert Sum(g) == Sum(gi) + g[|g| - 1];
    }
  }

  /** Dividing n·d by a non-zero n gives back d. */
  lemma DivideOut(n: real, d: real, total: real)
    requires n != 0.0 && total == n * d
    ensures total / n == d
  {
  }

  /** A list whose every entry is d adds up to its length times d. */
  lemma {:induction false} SumConstant(xs: seq<real>, d: real)
    requires forall i :: 0 <= i < |xs| ==> xs[i] == d
    ensures Sum(xs) == (|xs| as real) * d
  {
    if |xs| > 0 {
      SumConstant(xs[..|xs| - 1], d);
    }
  }

  /** Every gap lies within `tolerance` of `average`. */
  predicate Aligned(spacings: seq<real>, average: real, tolerance: real) {
    forall s :: s in spacings ==> Abs(s - average) <= tolerance
  }

  /**
   * Feature 1, spacing and alignment: the mean gap between consecutive
   * dominoes, provided every gap lies within 1% of the domino width of
   * that mean; None for fewer than two dominoes or a misaligned row.
   */
  function Feature1(rep: StructureRep): (res: Option<real>)
    ensures |rep.sortedDominoPositions| < 2 ==> res == None
  {
    var ps := rep.sortedDominoPositions;
    if |ps| < 2 then None
    else
      var spacings := Spacings(ps);
      var averageSpacing := Sum(spacings) / (|spacings| as real);
      var tolerance := 0.01 * rep.dominoWidth;
      if Aligned(spacings, averageSpacing, tolerance) then Some(averageSpacing)
      else None
  }

  /** The mean of the gaps of two or more positions is the span over the number of gaps. */
  lemma MeanIsSpan(ps: seq<real>)
    requires |ps| >= 2
    ensures Sum(Spacings(ps)) / (|Spacings(ps)| as real) == (ps[|ps| - 1] - ps[0]) / ((|ps| - 1) as real)
  {
    SpacingsSum(ps);
  }

  /** Alignment of the gaps, stated position by position. */
  lemma AlignedIff(ps: seq<real>, average: real, tolerance: real)
    ensures Aligned(Spacings(ps), average, tolerance) <==>
      forall i :: 0 <= i < |ps| - 1 ==> Abs(Gap(ps, i) - average) <= tolerance
  {
    var spacings := Spacings(ps);
    if forall i :: 0 <= i < |ps| - 1 ==> Abs(Gap(ps, i) - average) <= tolerance {
      forall s | s in spacings ensures Abs(s - average) <= tolerance {
        var i :| 0 <= i < |spacings| && spacings[i] == s;
      }
    }
    if Aligned(spacings, average, tolerance) {
      forall i | 0 <= i < |ps| - 1 ensures Abs(Gap(ps, i) - average) <= tolerance {
        assert spacings[i] in spacings;
      }
    }
  }

  /** Feature 1 of two or more positions, with the mean and the alignment test named. */
  lemma Feature1Unfold(rep: StructureRep)
    requires |rep.sortedDominoPositions| >= 2
    ensures var ps := rep.sortedDominoPositions;
      var spacings := Spacings(ps);
      var average := Sum(spacings) / (|spacings| as real);
      Feature1(rep) == if Aligned(spacings, average, 0.01 * rep.dominoWidth) then Some(average) else None
  {
  }

  /**
   * With at least two dominoes the mean gap is (last - first) / (n - 1),
   * and the feature is that mean exactly when no gap deviates from it by
   * more than 1% of the width.
   */
  lemma Feature1Mean(rep: StructureRep)
    requires |rep.sortedDominoPositions| >= 2
    ensures var ps := rep.sortedDominoPositions;
      var mean := (ps[|ps| - 1] - ps[0]) / ((|ps| - 1) as real);
      && (Feature1(rep).Some? ==> Feature1(rep).value == mean)
      && (Feature1(rep).Some? <==>
            forall i :: 0 <= i < |ps| - 1 ==> Abs(Gap(ps, i) - mean) <= 0.01 * rep.dominoWidth)
  {
    var ps := rep.sortedDominoPositions;
    var spacings := Spacings(ps);
    var average := Sum(spacings) / (|spacings| as real);
    var mean := (ps[|ps| - 1] - ps[0]) / ((|ps| - 1) as real);
    var tolerance := 0.01 * rep.dominoWidth;
    Feature1Unfold(rep);
    MeanIsSpan(ps);
    assert average == mean;
    AlignedIff(ps, mean, tolerance);
    assert Feature1(rep) == if Aligned(spacings, mean, tolerance) then Some(mean) else None;
  }

  /** Gaps that all equal d are aligned around d exactly when the tolerance is not negative. */
  lemma ConstantAligned(spacings: seq<real>, d: real, tolerance: real)
    requires |spacings| > 0
    requires forall i :: 0 <= i < |spacings| ==> spacings[i] == d
    ensures Aligned(spacings, d, tolerance) <==> tolerance >= 0.0
  {
    assert spacings[0] in spacings;
  }

  /**
   * Evenly spaced dominoes with gap d give d, whatever d is, provided the
   * width is not negative; with a negative width the tolerance is negative
   * and no row counts as aligned.
   */
  lemma Feature1EvenlySpaced(rep: StructureRep, d: real)
    requires |rep.sortedDominoPositions| >= 2
    requires forall i :: 0 <= i < |rep.sortedDominoPositions| - 1 ==>
      Gap(rep.sortedDominoPositions, i) == d
    ensures Feature1(rep) == if rep.dominoWidth >= 0.0 then Some(d) else None
  {
    var spacings := Spacings(rep.sortedDominoPositions);
    var tolerance := 0.01 * rep.dominoWidth;
    Feature1Unfold(rep);
    SumConstant(spacings, d);
    DivideOut(|spacings| as real, d, Sum(spacings));
    assert Sum(spacings) / (|spacings| as real) == d;
    ConstantAligned(spacings, d, tolerance);
    assert Feature1(rep) == if Aligned(spacings, d, tolerance) then Some(d) else None;
  }

  /** The x positions of n dominoes laid out at pitch width + spacing from x = 5. */
  function RowPositions(spacing: real, width: real, n: nat): (ps: seq<real>)
    ensures |ps| == n
  {
    seq(n, i requires 0 <= i < n => CentreX(spacing, width, i))
  }

  /** A laid-out row of two or more dominoes of non-negative width is aligned, with mean gap width + spacing. */
  lemma Feature1OfRow(spacing: real, width: real, n: nat, height: real, ball: real, radius: real, density: real)
    requires n >= 2 && width >= 0.0
    ensures Feature1(StructureRep(RowPositions(spacing, width, n), width, height, ball, radius, density)) == Some(width + spacing)
  {
    var ps := RowPositions(spacing, width, n);
    forall i | 0 <= i < n - 1 ensures Gap(ps, i) == width + spacing {
      CentresOnePitchApart(spacing, width, i);
    }
    Feature1EvenlySpaced(StructureRep(ps, width, height, ball, radius, density), width + spacing);
  }

  /** Feature 2, initial force: the ball's mass (density times the sphere volume) times an assumed unit velocity. */
  function Feature2(rep: StructureRep): (res: Option<real>)
    ensures res.Some?
  {
    var ballVolume := (4.0 / 3.0) * Pi * Cube(rep.ballRadius);
    var ballMass := rep.ballDensity * ballVolume;
    var assumedVelocity := 1.0;
    Some(ballMass * assumedVelocity)
  }

  lemma CubeMonotone(x: real, y: real)
    requires 0.0 <= x <= y
    ensures 0.0 <= Cube(x) <= Cube(y)
  {
    assert x * x <= y * y by {
      assert x * x <= x * y <= y * y;
    }
    assert x * x * x <= y * y * x <= y * y * y;
  }

  /**
   * The force is never negative for a non-negative density and radius,
   * grows with the radius, and is zero for a ball of zero radius or
   * density.
   */
  lemma Feature2Monotone(rep: StructureRep, r: real)
    requires rep.ballDensity >= 0.0 && 0.0 <= rep.ballRadius <= r
    ensures 0.0 <= Feature2(rep).value <= Feature2(rep.(ballRadius := r)).value
    ensures rep.ballRadius == 0.0 || rep.ballDensity == 0.0 ==> Feature2(rep).value == 0.0
  {
    CubeMonotone(rep.ballRadius, r);
    var k := (4.0 / 3.0) * Pi;
    var c1, c2 := Cube(rep.ballRadius), Cube(r);
    assert rep.ballDensity * (k * c1) <= rep.ballDensity * (k * c2) by {
      assert k * c1 <= k * c2;
    }
    assert 0.0 <= rep.ballDensity * (k * c1);
  }

  /**
   * Feature 3, balance: with the ball's extent inside the span from the
   * first to the last domino, one minus the ball's distance from the
   * span's centre relative to half the total domino width; None when the
   * ball is not within the span. An empty row fails on its first element,
   * and a zero total width fails on the division.
   */
  function Feature3(rep: StructureRep): (res: Result<Option<real>, PyError>)
  {
    var ps := rep.sortedDominoPositions;
    match PyIndex(ps, 0)
    case Failure(e) => Failure(e)
    case Success(first) => BalanceWithin(rep.ballPosition, rep.ballRadius, rep.dominoWidth, first, PyIndex(ps, -1).value, |ps| as real)
  }

  /**
   * The balance computation for a ball at `ball` of radius `radius` over
   * a row of `count` dominoes of width `width` whose end positions are
   * `first` and `last`.
   */
  function BalanceWithin(ball: real, radius: real, width: real, first: real, last: real, count: real): Result<Option<real>, PyError> {
    var totalDominoWidth := count * width;
    var centreDominoPosition := (first + last) / 2.0;
    if ball - radius >= first && ball + radius <= last then
      var balance := Abs(ball - centreDominoPosition);
      if totalDominoWidth / 2.0 == 0.0 then Failure(ZeroDivisionError)
      else Success(Some(1.0 - balance / (totalDominoWidth / 2.0)))
    else Success(None)
  }

  lemma Feature3Unfold(rep: StructureRep)
    requires |rep.sortedDominoPositions| > 0
    ensures var ps := rep.sortedDominoPositions;
      Feature3(rep) == BalanceWithin(rep.ballPosition, rep.ballRadius, rep.dominoWidth, PyIndex(ps, 0).value, PyIndex(ps, -1).value, |ps| as real)
  {
  }

  lemma IndexEnds(ps: seq<real>)
    requires |ps| > 0
    ensures PyIndex(ps, 0).value == ps[0] && PyIndex(ps, -1).value == ps[|ps| - 1]
  {
  }

  /** On a non-empty row, feature 3 is the balance computation over the first and last positions. */
  lemma Feature3Ends(rep: StructureRep)
    requires |rep.sortedDominoPositions| > 0
    ensures var ps := rep.sortedDominoPositions;
      Feature3(rep) == BalanceWithin(rep.ballPosition, rep.ballRadius, rep.dominoWidth, ps[0], ps[|ps| - 1], |ps| as real)
  {
    Feature3Unfold(rep);
    IndexEnds(rep.sortedDominoPositions);
  }

  /** The ball's extent lies within the span of the row. */
  predicate BallWithinRow(rep: StructureRep)
    requires |rep.sortedDominoPositions| > 0
  {
    var ps := rep.sortedDominoPositions;
    rep.ballPosition - rep.ballRadius >= ps[0] && rep.ballPosition + rep.ballRadius <= ps[|ps| - 1]
  }

  /**
   * Feature 3 raises IndexError exactly on an empty row, and
   * ZeroDivisionError exactly when the ball is within the span and the
   * width is zero; it is None exactly when the ball is outside the span.
   */
  lemma Feature3Cases(rep: StructureRep)
    ensures Feature3(rep) == Failure(IndexError) <==> |rep.sortedDominoPositions| == 0
    ensures Feature3(rep) == Failure(ZeroDivisionError) <==>
      |rep.sortedDominoPositions| > 0 && BallWithinRow(rep) && rep.dominoWidth == 0.0
    ensures Feature3(rep) == Success(None) <==> |rep.sortedDominoPositions| > 0 && !BallWithinRow(rep)
  {
    var ps := rep.sortedDominoPositions;
    if |ps| > 0 {
      Feature3Ends(rep);
      var n := |ps| as real;
      assert n >= 1.0;
      if rep.dominoWidth != 0.0 {
        assert n * rep.dominoWidth != 0.0;
      }
    }
  }

  /**
   * For a positive width a computed balance is at most 1, and exactly 1
   * when the ball sits at the centre of the span.
   */
  lemma Feature3AtMostOne(rep: StructureRep)
    requires rep.dominoWidth > 0.0
    requires Feature3(rep).Success? && Feature3(rep).value.Some?
    ensures Feature3(rep).value.value <= 1.0
    ensures var ps := rep.sortedDominoPositions;
      Feature3(rep).value.value == 1.0 <==> rep.ballPosition == (ps[0] + ps[|ps| - 1]) / 2.0
  {
    var ps := rep.sortedDominoPositions;
    assert |ps| > 0;
    Feature3Ends(rep);
    BalanceAtMostOne(rep.ballPosition, rep.ballRadius, rep.dominoWidth, ps[0], ps[|ps| - 1], |ps| as real);
  }

  /** The balance of a row of at least one domino of positive width is at most 1, and 1 just at the centre. */
  lemma BalanceAtMostOne(ball: real, radius: real, width: real, first: real, last: real, count: real)
    requires width > 0.0 && count >= 1.0
    requires BalanceWithin(ball, radius, width, first, last, count).Success?
    requires BalanceWithin(ball, radius, width, first, last, count).value.Some?
    ensures BalanceWithin(ball, radius, width, first, last, count).value.value <= 1.0
    ensures BalanceWithin(ball, radius, width, first, last, count).value.value == 1.0 <==> ball == (first + last) / 2.0
  {
    HalfTotalPositive(count, width);
    BalanceValue(ball, radius, width, first, last, count);
    RatioZero(Abs(ball - (first + last) / 2.0), count * width / 2.0);
  }

  /**
   * On a row of positive width, a computed balance is non-negative exactly
   * when the ball is within half the total domino width of the span's
   * centre; and of two ball positions that both give a balance, the one
   * nearer the centre gives the strictly higher balance.
   */
  lemma Feature3Ordering(rep: StructureRep, other: real)
    requires rep.dominoWidth > 0.0
    requires Feature3(rep).Success? && Feature3(rep).value.Some?
    requires Feature3(rep.(ballPosition := other)).Success? && Feature3(rep.(ballPosition := other)).value.Some?
    ensures var ps := rep.sortedDominoPositions;
      var centre := (ps[0] + ps[|ps| - 1]) / 2.0;
      && (Feature3(rep).value.value >= 0.0 <==>
            Abs(rep.ballPosition - centre) <= (|ps| as real) * rep.dominoWidth / 2.0)
      && (Feature3(rep).value.value < Feature3(rep.(ballPosition := other)).value.value <==>
            Abs(other - centre) < Abs(rep.ballPosition - centre))
  {
    var ps := rep.sortedDominoPositions;
    assert |ps| > 0;
    var rep2 := rep.(ballPosition := other);
    Feature3Ends(rep);
    Feature3Ends(rep2);
    BalanceSign(rep.ballPosition, rep.ballRadius, rep.dominoWidth, ps[0], ps[|ps| - 1], |ps| as real);
    BalanceOrder(rep.ballPosition, other, rep.ballRadius, rep.dominoWidth, ps[0], ps[|ps| - 1], |ps| as real);
  }

  /** With a non-zero total width, the balance is None outside the span and one minus the scaled offset inside it. */
  lemma BalanceValue(ball: real, radius: real, width: real, first: real, last: real, count: real)
    requires count * width / 2.0 != 0.0
    ensures BalanceWithin(ball, radius, width, first, last, count) ==
      if ball - radius >= first && ball + radius <= last
      then Success(Some(1.0 - Abs(ball - (first + last) / 2.0) / (count * width / 2.0)))
      else Success(None)
  {
  }

  /**
   * For a positive width a computed balance is non-negative exactly when
   * the ball's offset from the centre is at most half the total domino
   * width, and a ball nearer the centre gets a strictly higher balance.
   */
  lemma BalanceSign(ball: real, radius: real, width: real, first: real, last: real, count: real)
    requires width > 0.0 && count >= 1.0
    requires BalanceWithin(ball, radius, width, first, last, count).Success?
    requires BalanceWithin(ball, radius, width, first, last, count).value.Some?
    ensures BalanceWithin(ball, radius, width, first, last, count).value.value >= 0.0 <==>
      Abs(ball - (first + last) / 2.0) <= count * width / 2.0
  {
    HalfTotalPositive(count, width);
    BalanceValue(ball, radius, width, first, last, count);
    QuotientAtMostOne(Abs(ball - (first + last) / 2.0), count * width / 2.0);
  }

  lemma BalanceOrder(b1: real, b2: real, radius: real, width: real, first: real, last: real, count: real)
    requires width > 0.0 && count >= 1.0
    requires BalanceWithin(b1, radius, width, first, last, count).Success?
    requires BalanceWithin(b1, radius, width, first, last, count).value.Some?
    requires BalanceWithin(b2, radius, width, first, last, count).Success?
    requires BalanceWithin(b2, radius, width, first, last, count).value.Some?
    ensures BalanceWithin(b1, radius, width, first, last, count).value.value <
            BalanceWithin(b2, radius, width, first, last, count).value.value <==>
      Abs(b2 - (first + last) / 2.0) < Abs(b1 - (first + last) / 2.0)
  {
    HalfTotalPositive(count, width);
    BalanceValue(b1, radius, width, first, last, count);
    BalanceValue(b2, radius, width, first, last, count);
    QuotientLess(Abs(b2 - (first + last) / 2.0), Abs(b1 - (first + last) / 2.0), count * width / 2.0);
  }

  lemma QuotientAtMostOne(x: real, y: real)
    requires y > 0.0
    ensures 1.0 - x / y >= 0.0 <==> x <= y
  {
    assert x / y * y == x;
  }

  lemma QuotientLess(x: real, z: real, y: real)
    requires y > 0.0
    ensures 1.0 - z / y < 1.0 - x / y <==> x < z
  {
    assert x / y * y == x;
    assert z / y * y == z;
  }

  lemma HalfTotalPositive(count: real, width: real)
    requires count >= 1.0 && width > 0.0
    ensures count * width / 2.0 > 0.0
  {
  }

  /** A non-negative quotient by a positive number is not negative, and zero just when the dividend is. */
  lemma RatioZero(x: real, y: real)
    requires x >= 0.0 && y > 0.0
    ensures x / y >= 0.0
    ensures x / y == 0.0 <==> x == 0.0
  {
  }

  /** Feature 4, ball position relative to the last domino: None iff there are no dominoes. */
  function Feature4(rep: StructureRep): (res: Option<real>)
    ensures res.None? <==> |rep.sortedDominoPositions| == 0
    ensures res.Some? ==>
      res.value + rep.sortedDominoPositions[|rep.sortedDominoPositions| - 1] == rep.ballPosition
  {
    var ps := rep.sortedDominoPositions;
    if |ps| > 0 then
      var lastDominoPosition := ps[|ps| - 1];
      Some(rep.ballPosition - lastDominoPosition)
    else None
  }

  /**
   * For a row and ball laid out as the world builds them, the ball lies
   * half a width, its radius and the gap past the last domino.
   */
  lemma Feature4OfWorld(p: World.WorldParams, n: nat, height: real, radius: real, density: real)
    requires n >= 1
    ensures Feature4(StructureRep(RowPositions(p.spacing, p.width, n), p.width, height, World.BallCentre(p, n).x, radius, density))
      == Some(p.width / 2.0 + BallRadius + p.gap)
  {
  }

  /**
   * Feature 5, size and mass variation: the domino's mass (unit density)
   * over the ball's mass, times the domino height over the ball diameter;
   * None when either ratio would divide by zero. Its pi is 3.14159.
   */
  function Feature5(rep: StructureRep): (res: Option<real>)
  {
    var dominoVolume := rep.dominoWidth * rep.dominoHeight;
    var dominoDensity := 1.0;
    var dominoMass := dominoVolume * dominoDensity;
    var ballVolume := (4.0 / 3.0) * 3.14159 * Cube(rep.ballRadius);
    var ballMass := ballVolume * rep.ballDensity;
    var massVariation := if ballMass != 0.0 then Some(dominoMass / ballMass) else None;
    var sizeVariation := if rep.ballRadius != 0.0 then Some(rep.dominoHeight / (2.0 * rep.ballRadius)) else None;
    if massVariation.Some? && sizeVariation.Some? then Some(massVariation.value * sizeVariation.value)
    else None
  }

  lemma CubeZero(x: real)
    ensures Cube(x) == 0.0 <==> x == 0.0
  {
    if x != 0.0 {
      assert x * x > 0.0;
      assert x * x * x != 0.0;
    }
  }

  /**
   * Feature 5 is None exactly for a ball of zero radius or zero density,
   * and positive when every dimension and the density are positive.
   */
  lemma Feature5Defined(rep: StructureRep)
    ensures Feature5(rep).None? <==> rep.ballRadius == 0.0 || rep.ballDensity == 0.0
    ensures rep.dominoWidth > 0.0 && rep.dominoHeight > 0.0 && rep.ballRadius > 0.0 && rep.ballDensity > 0.0 ==>
      Feature5(rep).Some? && Feature5(rep).value > 0.0
  {
    var k := (4.0 / 3.0) * 3.14159;
    var c := Cube(rep.ballRadius);
    CubeZero(rep.ballRadius);
    var ballMass := k * c * rep.ballDensity;
    assert ballMass == 0.0 <==> c == 0.0 || rep.ballDensity == 0.0;
    if rep.dominoWidth > 0.0 && rep.dominoHeight > 0.0 && rep.ballRadius > 0.0 && rep.ballDensity > 0.0 {
      CubeMonotone(0.0, rep.ballRadius);
      assert c > 0.0;
      assert ballMass > 0.0;
      var dominoMass := rep.dominoWidth * rep.dominoHeight * 1.0;
      assert dominoMass > 0.0;
      assert dominoMass / ballMass > 0.0;
      assert rep.dominoHeight / (2.0 * rep.ballRadius) > 0.0;
    }
  }
}
