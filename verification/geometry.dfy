/**
 * Arithmetic shared by the two canvas games: the countdown clock, the
 * `Math.max`/`Math.min` clamp and the closed-disc hit test
 * `dx * dx + dy * dy <= r * r`.
 */
module Geometry {

  function Max(a: real, b: real): real { if a >= b then a else b }
  function Min(a: real, b: real): real { if a <= b then a else b }

  /** `Math.max(lo, Math.min(hi, v))`. */
  function Clamp(lo: real, hi: real, v: real): (r: real)
    ensures lo <= r
    ensures lo <= hi ==> r <= hi
    ensures lo <= v <= hi ==> r == v
    ensures v < lo ==> r == lo
    ensures lo <= hi && hi < v ==> r == hi
  {
    Max(lo, Min(hi, v))
  }

  /**
   * Seconds left on a clock of `duration` seconds started at `startTime`, at
   * time `now` (both in milliseconds): `Math.max(0, duration - elapsed)`.
   */
  function TimeLeft(duration: real, now: real, startTime: real): (r: real)
    ensures 0.0 <= r
    ensures now >= startTime && duration >= 0.0 ==> r <= duration
    ensures r == 0.0 <==> now - startTime >= duration * 1000.0
    ensures r > 0.0 ==> r == duration - (now - startTime) / 1000.0
  {
    Max(0.0, duration - (now - startTime) / 1000.0)
  }

  /** The point at offset (dx, dy) from a centre lies in the closed disc of radius `r`. */
  predicate InDisc(dx: real, dy: real, r: real)
  {
    dx * dx + dy * dy <= r * r
  }

  lemma SquareBelow(d: real, r: real)
    requires r >= 0.0 && d * d <= r * r
    ensures -r <= d <= r
  {
    var a := if d >= 0.0 then d else -d;
    assert a * a == d * d;
    if a > r {
      ProductPositive(a - r, a + r);
      assert (a - r) * (a + r) == a * a - r * r;
    }
  }

  lemma ProductPositive(x: real, y: real)
    requires x > 0.0 && y > 0.0
    ensures x * y > 0.0
  {
  }

  /** Scaling a non-negative length by a unit draw keeps it within the length. */
  lemma ScaleBelow(t: real, x: real)
    requires 0.0 <= t <= 1.0 && x >= 0.0
    ensures 0.0 <= t * x <= x
  {
    assert x - t * x == (1.0 - t) * x;
  }

  /** The disc lies inside its bounding square. */
  lemma DiscInSquare(dx: real, dy: real, r: real)
    requires r >= 0.0 && InDisc(dx, dy, r)
    ensures -r <= dx <= r && -r <= dy <= r
  {
    assert dx * dx <= r * r by {
      assert dy * dy >= 0.0;
    }
    assert dy * dy <= r * r by {
      assert dx * dx >= 0.0;
    }
    SquareBelow(dx, r);
    SquareBelow(dy, r);
  }
}
