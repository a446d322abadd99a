/** The pure arithmetic helpers of the game: wrapCoordinate
    (breakout.js:71-75), p5's `constrain` as the mouse control uses it, and the
    axis-aligned box overlap test of the collision system. */
module Geometry {

  /** wrapCoordinate: below zero wraps to the far edge, at or past the far
      edge wraps to zero, anything else is kept. */
  function WrapCoordinate(value: real, max: real): (r: real)
    ensures value < 0.0 ==> r == max - 1.0
    ensures 0.0 <= value < max ==> r == value
    ensures value >= 0.0 && value >= max ==> r == 0.0
  {
    if value < 0.0 then max - 1.0
    else if value >= max then 0.0
    else value
  }

  /** On a playfield at least one unit wide, a wrapped coordinate is on the
      playfield, and wrapping it again changes nothing. */
  lemma WrapCoordinateInRange(value: real, max: real)
    requires max >= 1.0
    ensures 0.0 <= WrapCoordinate(value, max) < max
    ensures WrapCoordinate(WrapCoordinate(value, max), max) == WrapCoordinate(value, max)
  {
  }

  function Min(a: real, b: real): real { if a <= b then a else b }
  function Max(a: real, b: real): real { if a >= b then a else b }

  /** p5's constrain(v, lo, hi), that is Math.max(Math.min(v, hi), lo). */
  function Constrain(v: real, lo: real, hi: real): (r: real)
    ensures lo <= hi ==> lo <= r <= hi
    ensures lo <= v <= hi ==> r == v
    ensures v <= lo ==> r == lo
    ensures lo <= hi <= v ==> r == hi
  {
    Max(Min(v, hi), lo)
  }

  function Abs(v: real): (r: real)
    ensures r >= 0.0 && (r == v || r == -v)
  {
    if v < 0.0 then -v else v
  }

  /** The closed-box overlap test the collision system uses for the ball
      against a brick and against the paddle: the boxes at (px, py) of size
      pw × ph and at (qx, qy) of size qw × qh touch or intersect. */
  predicate Overlap(px: real, py: real, pw: real, ph: real, qx: real, qy: real, qw: real, qh: real) {
    py + ph >= qy && py <= qy + qh && px + pw >= qx && px <= qx + qw
  }

  /** Overlap is symmetric. */
  lemma OverlapSymmetric(px: real, py: real, pw: real, ph: real, qx: real, qy: real, qw: real, qh: real)
    ensures Overlap(px, py, pw, ph, qx, qy, qw, qh) <==> Overlap(qx, qy, qw, qh, px, py, pw, ph)
  {
  }
}
