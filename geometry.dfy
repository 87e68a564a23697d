/** Unity's vector and scalar helpers, over exact reals instead of 32-bit
    floats. */
module Geometry {

  datatype Vec3 = Vec3(x: real, y: real, z: real)

  datatype Vec2 = Vec2(x: real, y: real)

  const Zero: Vec3 := Vec3(0.0, 0.0, 0.0)
  const One: Vec3 := Vec3(1.0, 1.0, 1.0)
  const Up: Vec3 := Vec3(0.0, 1.0, 0.0)

  function Add(a: Vec3, b: Vec3): Vec3 {
    Vec3(a.x + b.x, a.y + b.y, a.z + b.z)
  }

  function Sub(a: Vec3, b: Vec3): Vec3 {
    Vec3(a.x - b.x, a.y - b.y, a.z - b.z)
  }

  function Neg(a: Vec3): Vec3 {
    Vec3(-a.x, -a.y, -a.z)
  }

  /** `v * k`, a vector times a scalar. */
  function Scale(v: Vec3, k: real): Vec3 {
    Vec3(v.x * k, v.y * k, v.z * k)
  }

  /** `Vector3.one * k`. */
  function Uniform(k: real): Vec3 {
    Vec3(k, k, k)
  }

  function Abs(x: real): real {
    if x < 0.0 then -x else x
  }

  function Min(a: real, b: real): (r: real)
    ensures r <= a && r <= b && (r == a || r == b)
  {
    if a <= b then a else b
  }

  /** `Mathf.Clamp01`. */
  function Clamp01(v: real): (r: real)
    ensures 0.0 <= r <= 1.0
    ensures 0.0 <= v <= 1.0 ==> r == v
    ensures v >= 1.0 <==> r == 1.0
  {
    if v < 0.0 then 0.0 else if v > 1.0 then 1.0 else v
  }

  /** Progress of a timed move after `timer` seconds: the clamped ratio
      `Mathf.Clamp01(timer / duration)` shared by every grid mover. A zero
      duration divides to an infinity of the timer's sign, which clamps to
      1 or 0. */
  function MoveProgress(timer: real, duration: real): (t: real)
    ensures 0.0 <= t <= 1.0
    ensures 0.0 < duration && 0.0 <= timer <= duration ==> t * duration == timer
    ensures duration < 0.0 && timer >= 0.0 ==> t == 0.0
  {
    if duration == 0.0 then (if timer > 0.0 then 1.0 else 0.0)
    else Clamp01(timer / duration)
  }

  /** When a move completes: with a positive duration exactly when the timer
      reaches it, with a zero duration on the first frame that takes any time,
      and with a negative duration never (while time runs forward). */
  lemma MoveCompletesAtDuration(timer: real, duration: real)
    ensures duration > 0.0 ==> (MoveProgress(timer, duration) >= 1.0 <==> timer >= duration)
    ensures duration == 0.0 ==> (MoveProgress(timer, duration) >= 1.0 <==> timer > 0.0)
    ensures duration < 0.0 && timer >= 0.0 ==> MoveProgress(timer, duration) < 1.0
  {
    if duration > 0.0 {
      if timer >= duration {
        assert timer / duration >= 1.0;
      } else {
        assert timer / duration < 1.0;
      }
    }
  }

  /** `Vector3.Lerp`, which clamps its parameter to [0, 1] first. */
  function Lerp(a: Vec3, b: Vec3, t: real): Vec3 {
    var c := Clamp01(t);
    Add(a, Scale(Sub(b, a), c))
  }

  /** The ease-in-out cubic curve both movers use: it runs from 0 to 1 over
      [0, 1], passing 1/2 at the midpoint, and stays inside [0, 1]. */
  function EaseInOutCubic(t: real): (e: real)
    ensures t == 0.0 ==> e == 0.0
    ensures t == 0.5 ==> e == 0.5
    ensures t == 1.0 ==> e == 1.0
    ensures 0.0 <= t <= 1.0 ==> 0.0 <= e <= 1.0
  {
    if t < 0.5 then CubeInUnit(2.0 * t); 4.0 * t * t * t
    else var u := -2.0 * t + 2.0; CubeInUnit(u); 1.0 - u * u * u / 2.0
  }

  /** Cubing keeps [0, 1] inside [0, 1]. */
  lemma CubeInUnit(x: real)
    ensures 0.0 <= x <= 1.0 ==> 0.0 <= x * x * x <= 1.0
  {
    if 0.0 <= x <= 1.0 {
      assert 0.0 <= x * x <= x;
      assert x * x * x <= x * x;
    }
  }

  /** `Mathf.Round`: the nearest integer, and the even one of two at a tie. */
  function Round(x: real): (r: int)
    ensures x - 0.5 <= r as real <= x + 0.5
    ensures (r as real == x - 0.5 || r as real == x + 0.5) ==> r % 2 == 0
  {
    var f := x.Floor;
    var frac := x - f as real;
    if frac < 0.5 then f
    else if frac > 0.5 then f + 1
    else if f % 2 == 0 then f else f + 1
  }

  /** `Mathf.Round(v / g) * g`: the lattice point of step `g` nearest to `v`
      (a negative step describes the same lattice as its magnitude). */
  function AlignToGrid(v: real, g: real): (r: real)
    requires g != 0.0
    ensures OnLattice(r, g)
    ensures Abs(r - v) <= Abs(g) / 2.0
  {
    AlignToGridIsNearestLatticePoint(v, g);
    (Round(v / g) as real) * g
  }

  /** `v` is an integer multiple of the step `g`. */
  ghost predicate OnLattice(v: real, g: real)
    requires g != 0.0
  {
    (v / g).Floor as real == v / g
  }

  /** Rounding `v / g` and scaling back gives a lattice point, at most half a
      step from `v`. */
  lemma AlignToGridIsNearestLatticePoint(v: real, g: real)
    requires g != 0.0
    ensures OnLattice((Round(v / g) as real) * g, g)
    ensures Abs((Round(v / g) as real) * g - v) <= Abs(g) / 2.0
  {
    var k := Round(v / g);
    var q := v / g;
    var a := (k as real) * g;
    DivideMultiple(k as real, g);
    assert a / g == k as real;
    assert (k as real).Floor == k;
    assert OnLattice(a, g);
    assert v == q * g;
    var d := k as real - q;
    assert -0.5 <= d <= 0.5;
    assert a - v == d * g;
    HalfStepBound(d, g);
    assert a == (Round(v / g) as real) * g;
  }

  /** A displacement of at most half a step, in either direction, is at most
      half the step's magnitude. */
  lemma HalfStepBound(d: real, g: real)
    requires -0.5 <= d <= 0.5
    ensures Abs(d * g) <= Abs(g) / 2.0
  {
    AbsOfProduct(d, g);
    assert (0.5 - Abs(d)) * Abs(g) >= 0.0;
  }

  /** The magnitude of a product is the product of the magnitudes. */
  lemma AbsOfProduct(x: real, y: real)
    ensures Abs(x * y) == Abs(x) * Abs(y)
  {
    if x < 0.0 && y < 0.0 {
      assert x * y == (-x) * (-y);
    } else if x < 0.0 {
      assert x * y == -((-x) * y);
    } else if y < 0.0 {
      assert x * y == -(x * (-y));
    }
  }

  /** Dividing a multiple of `g` by `g` gives back the factor. */
  lemma DivideMultiple(x: real, g: real)
    requires g != 0.0
    ensures (x * g) / g == x
  {
    var y := (x * g) / g;
    assert y * g == x * g;
    assert (y - x) * g == 0.0;
  }

  /** The same move applied to a point already on the lattice by a whole number of
      steps lands exactly on the lattice point it names. */
  lemma AlignToGridFixesLatticePoints(k: int, g: real)
    requires g != 0.0
    ensures AlignToGrid(k as real * g, g) == k as real * g
  {
    assert (k as real * g) / g == k as real;
  }

  /** The horizontal target of a grid step: x and z aligned to the lattice,
      y kept from the start position. */
  function AlignedTarget(start: Vec3, direction: Vec3, g: real): (r: Vec3)
    requires g != 0.0
    ensures r.y == start.y
  {
    var raw := Add(start, direction);
    Vec3(AlignToGrid(raw.x, g), start.y, AlignToGrid(raw.z, g))
  }

  /** A point whose x and z both lie on the lattice of step `g`. */
  ghost predicate OnGrid(p: Vec3, g: real)
    requires g != 0.0
  {
    OnLattice(p.x, g) && OnLattice(p.z, g)
  }

  /** Every aligned target is on the grid, within half a step of `start + direction`
      on each horizontal axis. */
  lemma AlignedTargetOnGrid(start: Vec3, direction: Vec3, g: real)
    requires g != 0.0
    ensures OnGrid(AlignedTarget(start, direction, g), g)
    ensures Abs(AlignedTarget(start, direction, g).x - (start.x + direction.x)) <= Abs(g) / 2.0
    ensures Abs(AlignedTarget(start, direction, g).z - (start.z + direction.z)) <= Abs(g) / 2.0
  {
  }
}
