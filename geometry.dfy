/**
 * Two-dimensional vector arithmetic over `real`, as the game uses Unity's `Vector2`.
 *
 * The square root behind `magnitude`, `normalized`, `Distance` and `MoveTowards` is not
 * computed: it is a parameter `sqrt`, and `IsSqrt(sqrt)` states what every lemma assumes
 * of it. Everything else is computed exactly.
 */
module Geometry {

  datatype Vec2 = Vec2(x: real, y: real)

  const Zero := Vec2(0.0, 0.0)
  const Right := Vec2(1.0, 0.0)

  /** Unity's `Vector2.kEpsilon`: a vector whose magnitude is not above it normalises to zero. */
  const Epsilon: real := 0.00001

  function Add(a: Vec2, b: Vec2): Vec2 { Vec2(a.x + b.x, a.y + b.y) }

  function Sub(a: Vec2, b: Vec2): Vec2 { Vec2(a.x - b.x, a.y - b.y) }

  function Scale(a: Vec2, k: real): Vec2 { Vec2(a.x * k, a.y * k) }

  function SqrMagnitude(a: Vec2): real { a.x * a.x + a.y * a.y }

  function SqrDistance(a: Vec2, b: Vec2): real { SqrMagnitude(Sub(a, b)) }

  /** `r` is the non-negative square root of `s`. */
  ghost predicate IsRootOf(r: real, s: real) {
    0.0 <= r && r * r == s
  }

  /**
   * The assumption made of the square-root oracle: a non-negative root of every
   * non-negative real. Proofs instantiate it one argument at a time, through `SqrtIsRoot`.
   */
  ghost predicate IsSqrt(sqrt: real -> real) {
    forall s :: 0.0 <= s ==> IsRootOf(sqrt(s), s)
  }

  function Magnitude(a: Vec2, sqrt: real -> real): real { sqrt(SqrMagnitude(a)) }

  /** `Vector2.normalized`: the vector divided by its magnitude, or zero when that is not above `Epsilon`. */
  function Normalized(a: Vec2, sqrt: real -> real): Vec2 {
    var m := Magnitude(a, sqrt);
    if m > Epsilon then Scale(a, 1.0 / m) else Zero
  }

  function Clamp01(t: real): real {
    if t < 0.0 then 0.0 else if t > 1.0 then 1.0 else t
  }

  /** `Vector2.Lerp`: interpolation with the parameter clamped to [0, 1]. */
  function Lerp(a: Vec2, b: Vec2, t: real): Vec2 {
    Add(a, Scale(Sub(b, a), Clamp01(t)))
  }

  /** `Vector2.MoveTowards`: step from `current` toward `target` by `maxDelta`, landing on it when close enough. */
  function MoveTowards(current: Vec2, target: Vec2, maxDelta: real, sqrt: real -> real): Vec2
    requires IsSqrt(sqrt)
  {
    var d := Sub(target, current);
    var sq := SqrMagnitude(d);
    if sq == 0.0 || (maxDelta >= 0.0 && sq <= maxDelta * maxDelta) then target
    else
      var dist := sqrt(sq);
      SqrtPositive(sqrt, sq);
      Add(current, Scale(d, maxDelta / dist))
  }

  /** Circle overlap `Distance(p, q) <= reach`, stated without a square root. */
  predicate Within(p: Vec2, q: Vec2, reach: real) {
    0.0 <= reach && SqrDistance(p, q) <= reach * reach
  }

  /** Strict closeness `Distance(p, q) < reach`, stated without a square root. */
  predicate Closer(p: Vec2, q: Vec2, reach: real) {
    0.0 < reach && SqrDistance(p, q) < reach * reach
  }

  // ---------------------------------------------------------------------------
  // Facts about the oracle and the vector operations

  lemma SqrMagnitudeNonNegative(a: Vec2)
    ensures 0.0 <= SqrMagnitude(a)
  {
    assert 0.0 <= a.x * a.x && 0.0 <= a.y * a.y;
  }

  lemma SqrtIsRoot(sqrt: real -> real, s: real)
    requires IsSqrt(sqrt) && 0.0 <= s
    ensures 0.0 <= sqrt(s) && sqrt(s) * sqrt(s) == s
  {
    assert IsRootOf(sqrt(s), s);
  }

  lemma SqrtPositive(sqrt: real -> real, s: real)
    requires IsSqrt(sqrt) && 0.0 < s
    ensures 0.0 < sqrt(s)
  {
    SqrtIsRoot(sqrt, s);
  }

  /** Comparing two non-negative reals is the same as comparing their squares. */
  lemma SquareMonotone(a: real, b: real)
    requires 0.0 <= a && 0.0 <= b
    ensures a <= b <==> a * a <= b * b
    ensures a < b <==> a * a < b * b
  {
    if a < b {
      calc {
        a * a;
      <= a * b;
      <  b * b;
      }
    } else if b < a {
      calc {
        b * b;
      <= b * a;
      <  a * a;
      }
    }
  }

  /** The squared test `Within` is exactly the engine's `Distance(p, q) <= reach`. */
  lemma WithinIsDistanceTest(p: Vec2, q: Vec2, reach: real, sqrt: real -> real)
    requires IsSqrt(sqrt)
    ensures Within(p, q, reach) <==> Magnitude(Sub(p, q), sqrt) <= reach
  {
    var sq := SqrDistance(p, q);
    SqrMagnitudeNonNegative(Sub(p, q));
    var dist := sqrt(sq);
    SqrtIsRoot(sqrt, sq);
    if 0.0 <= reach {
      SquareMonotone(dist, reach);
    }
  }

  /** The squared test `Closer` is exactly the engine's `Distance(p, q) < reach`. */
  lemma CloserIsDistanceTest(p: Vec2, q: Vec2, reach: real, sqrt: real -> real)
    requires IsSqrt(sqrt)
    ensures Closer(p, q, reach) <==> Magnitude(Sub(p, q), sqrt) < reach
  {
    var sq := SqrDistance(p, q);
    SqrMagnitudeNonNegative(Sub(p, q));
    var dist := sqrt(sq);
    SqrtIsRoot(sqrt, sq);
    if 0.0 < reach {
      SquareMonotone(dist, reach);
    }
  }

  /** A normalised vector either has length one or is zero (when the input was too short). */
  lemma NormalizedIsUnitOrZero(a: Vec2, sqrt: real -> real)
    requires IsSqrt(sqrt)
    ensures Magnitude(a, sqrt) > Epsilon ==> SqrMagnitude(Normalized(a, sqrt)) == 1.0
    ensures Magnitude(a, sqrt) <= Epsilon ==> Normalized(a, sqrt) == Zero
  {
    var m := Magnitude(a, sqrt);
    if m > Epsilon {
      SqrMagnitudeNonNegative(a);
      SqrtIsRoot(sqrt, SqrMagnitude(a));
      var k := 1.0 / m;
      assert m * k == 1.0;
      assert m * m == a.x * a.x + a.y * a.y;
      var n := Normalized(a, sqrt);
      assert n == Vec2(a.x * k, a.y * k);
      calc {
        SqrMagnitude(n);
        (a.x * k) * (a.x * k) + (a.y * k) * (a.y * k);
        (a.x * a.x + a.y * a.y) * (k * k);
        (m * m) * (k * k);
        (m * k) * (m * k);
        1.0;
      }
    }
  }

  /** Normalising keeps the direction: the result is a non-negative multiple of the input. */
  lemma NormalizedSameDirection(a: Vec2, sqrt: real -> real)
    ensures exists k: real :: 0.0 <= k && Normalized(a, sqrt) == Scale(a, k)
  {
    var m := Magnitude(a, sqrt);
    if m > Epsilon {
      assert Normalized(a, sqrt) == Scale(a, 1.0 / m);
    } else {
      assert Normalized(a, sqrt) == Scale(a, 0.0);
    }
  }

  /** A vector whose squared magnitude exceeds a positive threshold is long enough to normalise. */
  lemma AboveThresholdNormalizes(a: Vec2, threshold: real, sqrt: real -> real)
    requires IsSqrt(sqrt)
    requires Epsilon * Epsilon <= threshold < SqrMagnitude(a)
    ensures Magnitude(a, sqrt) > Epsilon
    ensures SqrMagnitude(Normalized(a, sqrt)) == 1.0
  {
    var m := Magnitude(a, sqrt);
    SqrtIsRoot(sqrt, SqrMagnitude(a));
    SquareMonotone(m, Epsilon);
    NormalizedIsUnitOrZero(a, sqrt);
  }

  lemma SqrtZero(sqrt: real -> real)
    requires IsSqrt(sqrt)
    ensures sqrt(0.0) == 0.0
  {
    SqrtIsRoot(sqrt, 0.0);
    SquareMonotone(0.0, sqrt(0.0));
  }

  /** The zero vector normalises to zero. */
  lemma NormalizedZero(sqrt: real -> real)
    requires IsSqrt(sqrt)
    ensures Normalized(Zero, sqrt) == Zero
  {
    assert SqrMagnitude(Zero) == 0.0;
    SqrtZero(sqrt);
  }

  /** Interpolating all the way (or beyond, which is clamped) lands on the end point. */
  lemma LerpFull(a: Vec2, b: Vec2, t: real)
    requires 1.0 <= t
    ensures Lerp(a, b, t) == b
  {
    assert Clamp01(t) == 1.0;
  }

  /** A unit vector normalises to itself. */
  lemma NormalizedUnitIsIdentity(a: Vec2, sqrt: real -> real)
    requires IsSqrt(sqrt)
    requires SqrMagnitude(a) == 1.0
    ensures Normalized(a, sqrt) == a
  {
    var m := Magnitude(a, sqrt);
    SqrtIsRoot(sqrt, 1.0);
    if m < 1.0 {
      SquareMonotone(m, 1.0);
    } else if m > 1.0 {
      SquareMonotone(1.0, m);
    }
    assert m == 1.0;
  }

  lemma ScaleSqrMagnitude(a: Vec2, k: real)
    ensures SqrMagnitude(Scale(a, k)) == SqrMagnitude(a) * (k * k)
  {
    assert (a.x * k) * (a.x * k) == (a.x * a.x) * (k * k);
    assert (a.y * k) * (a.y * k) == (a.y * a.y) * (k * k);
  }

  lemma RatioBelowOne(m: real, d: real)
    requires 0.0 <= m < d
    ensures 0.0 <= m / d < 1.0 && d * (m / d) == m
  {
    var j := m / d;
    assert d * j == m;
  }

  /** The far branch of `MoveTowards` toward zero scales the start by `1 - maxDelta / dist`. */
  lemma MoveTowardsZeroFar(v: Vec2, maxDelta: real, sqrt: real -> real)
    requires IsSqrt(sqrt) && 0.0 <= maxDelta && maxDelta * maxDelta < SqrMagnitude(v)
    ensures 0.0 < sqrt(SqrMagnitude(v))
    ensures var j := maxDelta / sqrt(SqrMagnitude(v));
      && 0.0 <= j < 1.0
      && MoveTowards(v, Zero, maxDelta, sqrt) == Scale(v, 1.0 - j)
      && sqrt(SqrMagnitude(v)) * j == maxDelta
  {
    var sq := SqrMagnitude(v);
    SqrMagnitudeNonNegative(v);
    SqrtIsRoot(sqrt, sq);
    var dist := sqrt(sq);
    SquareMonotone(maxDelta, dist);
    RatioBelowOne(maxDelta, dist);
    assert SqrMagnitude(Sub(Zero, v)) == sq;
    assert MoveTowards(v, Zero, maxDelta, sqrt) == Add(v, Scale(Sub(Zero, v), maxDelta / dist));
    StepTowardZero(v, maxDelta / dist);
  }

  /** A step of a fraction `j` of the way from `v` to zero leaves `(1 - j)` of `v`. */
  lemma StepTowardZero(v: Vec2, j: real)
    ensures Add(v, Scale(Sub(Zero, v), j)) == Scale(v, 1.0 - j)
  {
    assert Sub(Zero, v) == Vec2(-v.x, -v.y);
  }

  /**
   * Moving toward zero by a non-negative step: the result points the same way as the start
   * and is no longer than it (never past zero), and it is at most `maxDelta` away from the start.
   */
  lemma MoveTowardsZero(v: Vec2, maxDelta: real, sqrt: real -> real)
    requires IsSqrt(sqrt) && 0.0 <= maxDelta
    ensures var r := MoveTowards(v, Zero, maxDelta, sqrt);
      && (exists k: real :: 0.0 <= k <= 1.0 && r == Scale(v, k))
      && SqrDistance(v, r) <= maxDelta * maxDelta
  {
    var sq := SqrMagnitude(v);
    assert SqrMagnitude(Sub(Zero, v)) == sq;
    if sq == 0.0 || sq <= maxDelta * maxDelta {
      NearStep(v, MoveTowards(v, Zero, maxDelta, sqrt), maxDelta);
    } else {
      MoveTowardsZeroFar(v, maxDelta, sqrt);
      SqrMagnitudeNonNegative(v);
      SqrtIsRoot(sqrt, sq);
      var dist := sqrt(sq);
      FarStep(v, MoveTowards(v, Zero, maxDelta, sqrt), maxDelta / dist, dist, maxDelta);
    }
  }

  /** Landing on zero from within `maxDelta` of it. */
  lemma NearStep(v: Vec2, r: Vec2, maxDelta: real)
    requires r == Zero && SqrMagnitude(v) <= maxDelta * maxDelta
    ensures exists k: real :: 0.0 <= k <= 1.0 && r == Scale(v, k)
    ensures SqrDistance(v, r) <= maxDelta * maxDelta
  {
    assert r == Scale(v, 0.0);
    assert Sub(v, r) == v;
  }

  /** Scaling by `1 - j`, where `j` is the step over the length, moves the vector by exactly the step. */
  lemma FarStep(v: Vec2, r: Vec2, j: real, dist: real, maxDelta: real)
    requires 0.0 <= j < 1.0 && r == Scale(v, 1.0 - j)
    requires dist * dist == SqrMagnitude(v) && dist * j == maxDelta
    ensures exists k: real :: 0.0 <= k <= 1.0 && r == Scale(v, k)
    ensures SqrDistance(v, r) <= maxDelta * maxDelta
  {
    assert Sub(v, r) == Scale(v, j);
    ScaleSqrMagnitude(v, j);
    calc {
      SqrDistance(v, r);
      SqrMagnitude(v) * (j * j);
      (dist * j) * (dist * j);
      maxDelta * maxDelta;
    }
  }
}
