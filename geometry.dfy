/** Coordinates and constants shared by the three scripts that lay out a domino row. */
module Geometry {

  datatype Vec = Vec(x: real, y: real)

  /** A domino as created: the centre of its box and its initial angle in radians. */
  datatype DominoBody = DominoBody(centre: Vec, angle: real)

  /** x of the first domino's centre on the ledge. */
  const StartX: real := 5.0
  /** y of the top surface of the ledge. */
  const PlatformTop: real := 6.0
  /** Initial tilt given to the domino that starts the chain. */
  const PushAngle: real := -0.3
  const BallRadius: real := 0.5
  const BallDensity: real := 0.5

  function Abs(x: real): (r: real)
    ensures r >= 0.0 && (r == x || r == -x)
  {
    if x < 0.0 then -x else x
  }

  /** x of the centre of domino index `i` when boxes of `width` are set `spacing` apart. */
  function CentreX(spacing: real, width: real, i: int): real {
    StartX + (i as real) * (width + spacing)
  }

  /** Neighbouring indices are exactly one pitch (width + spacing) apart. */
  lemma CentresOnePitchApart(spacing: real, width: real, i: int)
    ensures CentreX(spacing, width, i + 1) - CentreX(spacing, width, i) == width + spacing
  {
  }

  /** With a positive pitch the centres grow strictly with the index, so distinct indices never share a centre. */
  lemma CentresIncreasing(spacing: real, width: real, i: int, j: int)
    requires width + spacing > 0.0
    requires i < j
    ensures CentreX(spacing, width, i) < CentreX(spacing, width, j)
  {
    var d := ((j - i) as real) * (width + spacing);
    assert (j - i) as real >= 1.0;
    assert d >= width + spacing by {
      assert d - (width + spacing) == ((j - i - 1) as real) * (width + spacing);
    }
    assert CentreX(spacing, width, j) == CentreX(spacing, width, i) + d;
  }
}
