/**
 * Plane geometry shared by every version of the game: points, the orbit,
 * the two angle-wrapping rules and the circle-overlap test.
 *
 * Floating point is modelled by exact reals. `Math.cos` and `Math.sin` are
 * not modelled; every operation that needs them receives them as a `Trig`
 * parameter, and `Math.sqrt` is avoided by comparing squares.
 */
module Geometry {

  /** `Math.PI` as the browser prints it: the shortest decimal that rounds to that double. */
  const Pi: real := 3.141592653589793

  /** `Math.PI * 2` as the browser prints it: doubling a double is exact, and this is the shortest decimal that rounds to the result. */
  const TwoPi: real := 6.283185307179586

  /** A point or displacement on the canvas. */
  datatype Vec = Vec(x: real, y: real)

  /** The browser's trigonometry: an angle `t` to the point `(cos t, sin t)`. */
  type Trig = real -> Vec

  /** The point at angle `theta` on the circle of `radius` around `center`. */
  function OrbitPoint(center: Vec, radius: real, theta: real, trig: Trig): Vec
  {
    var u := trig(theta);
    Vec(center.x + u.x * radius, center.y + u.y * radius)
  }

  /** `Math.sqrt(dx * dx + dy * dy) < reach`, decided without the square root. */
  predicate Within(p: Vec, q: Vec, reach: real)
  {
    var dx, dy := p.x - q.x, p.y - q.y;
    0.0 < reach && dx * dx + dy * dy < reach * reach
  }

  /** `Within` agrees with the source's test on the true Euclidean distance. */
  lemma WithinIsDistanceTest(p: Vec, q: Vec, reach: real, distance: real)
    requires 0.0 <= distance
    requires distance * distance == (p.x - q.x) * (p.x - q.x) + (p.y - q.y) * (p.y - q.y)
    ensures Within(p, q, reach) <==> distance < reach
  {
    if distance < reach {
      SquareStrictlyBelow(distance, reach);
    } else if 0.0 < reach {
      SquareBelow(reach, distance);
    }
  }

  /** Squaring is monotone on non-negative reals. */
  lemma SquareBelow(lo: real, hi: real)
    requires 0.0 <= lo <= hi
    ensures lo * lo <= hi * hi
  {
    var low, mid, high := lo * lo, lo * hi, hi * hi;
    ProductSign(lo, hi - lo);
    ProductSign(hi, hi - lo);
    assert lo * (hi - lo) == mid - low;
    assert hi * (hi - lo) == high - mid;
    assert low <= mid <= high;
  }

  /** Squaring is strictly monotone on non-negative reals. */
  lemma SquareStrictlyBelow(lo: real, hi: real)
    requires 0.0 <= lo < hi
    ensures lo * lo < hi * hi
  {
    var low, mid, high := lo * lo, lo * hi, hi * hi;
    ProductSign(lo, hi - lo);
    PositiveProduct(hi, hi - lo);
    assert lo * (hi - lo) == mid - low;
    assert hi * (hi - lo) == high - mid;
    assert low <= mid < high;
  }

  lemma ProductSign(x: real, y: real)
    requires 0.0 <= x && 0.0 <= y
    ensures 0.0 <= x * y
  {
  }

  lemma PositiveProduct(x: real, y: real)
    requires 0.0 < x && 0.0 < y
    ensures 0.0 < x * y
  {
  }

  /**
   * A player's (or the hero's) step along the orbit: add `delta`, then fold
   * back once into the turn, downwards when above 2π and upwards when below 0.
   */
  function StepAngle(angle: real, delta: real): (r: real)
    // the result names the same direction as angle + delta
    ensures r - (angle + delta) in {-TwoPi, 0.0, TwoPi}
    // an angle already inside the closed turn is left alone
    ensures 0.0 <= angle + delta <= TwoPi ==> r == angle + delta
    // one step of at most a full turn keeps the angle inside [0, 2π]
    ensures 0.0 <= angle <= TwoPi && -TwoPi <= delta <= TwoPi ==> 0.0 <= r <= TwoPi
  {
    var a := angle + delta;
    if a > TwoPi then a - TwoPi
    else if a < 0.0 then a + TwoPi
    else a
  }

  /**
   * The alien's spin: add `speed` and fold back only from above 2π
   * (there is no lower fold, so a negative speed drifts below 0).
   */
  function Spin(rotation: real, speed: real): (r: real)
    ensures r - (rotation + speed) in {-TwoPi, 0.0}
    ensures rotation + speed <= TwoPi ==> r == rotation + speed
    ensures 0.0 <= rotation <= TwoPi && 0.0 <= speed <= TwoPi ==> 0.0 <= r <= TwoPi
  {
    var a := rotation + speed;
    if a > TwoPi then a - TwoPi else a
  }
}
