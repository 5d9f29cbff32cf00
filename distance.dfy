/**
 Pinhole distance estimate: an object of assumed real width KNOWN_WIDTH that
 spans `pixelWidth` pixels through a lens of focal length FOCAL_LENGTH pixels
 is KNOWN_WIDTH * FOCAL_LENGTH / pixelWidth metres away. Python's float
 division is modelled by exact division over `real`; a zero width raises
 ZeroDivisionError, modelled by the DivisionByZero value.
 */
module Distance {

  const KNOWN_WIDTH: real := 0.5
  const FOCAL_LENGTH: real := 500.0

  datatype Estimate = Metres(metres: real) | DivisionByZero

  function CalculateDistance(pixelWidth: int): (r: Estimate)
    ensures r.DivisionByZero? <==> pixelWidth == 0
  {
    if pixelWidth == 0 then DivisionByZero
    else Metres(KNOWN_WIDTH * FOCAL_LENGTH / pixelWidth as real)
  }

  /** Similar triangles: distance times pixel width is the constant KNOWN_WIDTH * FOCAL_LENGTH. */
  lemma DistanceTimesWidth(w: int)
    requires w != 0
    ensures CalculateDistance(w).metres * w as real == KNOWN_WIDTH * FOCAL_LENGTH
  {
  }

  /** A box of positive width is estimated at a positive distance. */
  lemma DistancePositive(w: int)
    requires w > 0
    ensures CalculateDistance(w).Metres? && CalculateDistance(w).metres > 0.0
  {
  }

  /** The wider the box, the closer the object: strictly decreasing in the width. */
  lemma DistanceStrictlyDecreasing(w1: int, w2: int)
    requires 0 < w1 < w2
    ensures CalculateDistance(w1).metres > CalculateDistance(w2).metres
  {
    var d1, d2 := CalculateDistance(w1).metres, CalculateDistance(w2).metres;
    var r1, r2 := w1 as real, w2 as real;
    DistanceTimesWidth(w1);
    DistanceTimesWidth(w2);
    DistancePositive(w2);
    assert d1 * r1 == d2 * r2;
    assert d2 * (r2 - r1) > 0.0;
    assert d2 * r1 < d2 * r2;
    assert d1 * r1 > d2 * r1;
    assert (d1 - d2) * r1 > 0.0;
  }

  /** A negative width (x2 left of x1) is not rejected; it yields a negative distance. */
  lemma DistanceNegativeWidth(w: int)
    requires w < 0
    ensures CalculateDistance(w).Metres? && CalculateDistance(w).metres < 0.0
  {
  }
}
