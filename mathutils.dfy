/** The cubic Bezier primitive of `MathUtils.cs`: evaluation by De Casteljau,
    the affine tail of the Gaussian sampler, and the G1 chaining step that
    builds the next segment of a composite curve. */
module MathUtils {
  import opened Vectors

  /** A cubic Bezier curve: four control points, any four are valid. */
  datatype Curve = Curve(p0: Vec2, p1: Vec2, p2: Vec2, p3: Vec2)

  /** The point lies within the axis-aligned bounding box of the control points. */
  predicate InBoundingBox(c: Curve, p: Vec2) {
    && Min4(c.p0.x, c.p1.x, c.p2.x, c.p3.x) <= p.x <= Max4(c.p0.x, c.p1.x, c.p2.x, c.p3.x)
    && Min4(c.p0.y, c.p1.y, c.p2.y, c.p3.y) <= p.y <= Max4(c.p0.y, c.p1.y, c.p2.y, c.p3.y)
  }

  /** `CubicBezierCurve.GetPoint`: three rounds of `Vector2.Lerp`, each with the
      same `t`. `Lerp` clamps `t` first, so every evaluated point, for every `t`,
      lies in the bounding box of the four control points. */
  function GetPoint(c: Curve, t: real): (r: Vec2)
    ensures InBoundingBox(c, r)
  {
    DeCasteljauCoordWithin(c.p0.x, c.p1.x, c.p2.x, c.p3.x, Clamp01(t));
    DeCasteljauCoordWithin(c.p0.y, c.p1.y, c.p2.y, c.p3.y, Clamp01(t));
    var p01 := Lerp(c.p0, c.p1, t);
    var p12 := Lerp(c.p1, c.p2, t);
    var p23 := Lerp(c.p2, c.p3, t);
    var p012 := Lerp(p01, p12, t);
    var p123 := Lerp(p12, p23, t);
    Lerp(p012, p123, t)
  }

  /** The Bernstein form of one coordinate of a cubic Bezier curve. */
  function BernsteinCoord(a: real, b: real, c: real, d: real, t: real): real {
    var u := 1.0 - t;
    u * u * u * a + 3.0 * u * u * t * b + 3.0 * u * t * t * c + t * t * t * d
  }

  /** Reference definition of the curve: the Bernstein polynomial form. */
  function Bernstein(c: Curve, t: real): Vec2 {
    Vec2(BernsteinCoord(c.p0.x, c.p1.x, c.p2.x, c.p3.x, t),
         BernsteinCoord(c.p0.y, c.p1.y, c.p2.y, c.p3.y, t))
  }

  /** The derivative of the Bernstein form with respect to `t`. */
  function Velocity(c: Curve, t: real): Vec2 {
    var u := 1.0 - t;
    Add(Add(Scale(Sub(c.p1, c.p0), 3.0 * u * u),
            Scale(Sub(c.p2, c.p1), 6.0 * u * t)),
        Scale(Sub(c.p3, c.p2), 3.0 * t * t))
  }

  lemma GetPointAtZero(c: Curve)
    ensures GetPoint(c, 0.0) == c.p0
  {
  }

  lemma GetPointAtOne(c: Curve)
    ensures GetPoint(c, 1.0) == c.p3
  {
  }

  /** `Vector2.Lerp` clamps, so a parameter outside [0,1] evaluates at the nearer end. */
  lemma GetPointClampsParameter(c: Curve, t: real)
    ensures GetPoint(c, t) == GetPoint(c, Clamp01(t))
    ensures t <= 0.0 ==> GetPoint(c, t) == c.p0
    ensures t >= 1.0 ==> GetPoint(c, t) == c.p3
  {
  }

  /** De Casteljau's three rounds of interpolation on one coordinate. */
  function DeCasteljauCoord(a: real, b: real, c: real, d: real, t: real): real {
    var ab := LerpUnclamped(a, b, t);
    var bc := LerpUnclamped(b, c, t);
    var cd := LerpUnclamped(c, d, t);
    LerpUnclamped(LerpUnclamped(ab, bc, t), LerpUnclamped(bc, cd, t), t)
  }

  lemma DeCasteljauCoordIsBernstein(a: real, b: real, c: real, d: real, t: real)
    ensures DeCasteljauCoord(a, b, c, d, t) == BernsteinCoord(a, b, c, d, t)
  {
  }

  /** On [0,1] the interpolation scheme is the Bernstein polynomial. */
  lemma GetPointIsBernstein(c: Curve, t: real)
    requires 0.0 <= t <= 1.0
    ensures GetPoint(c, t) == Bernstein(c, t)
  {
    DeCasteljauCoordIsBernstein(c.p0.x, c.p1.x, c.p2.x, c.p3.x, t);
    DeCasteljauCoordIsBernstein(c.p0.y, c.p1.y, c.p2.y, c.p3.y, t);
  }

  function Min4(a: real, b: real, c: real, d: real): real { Min(Min(a, b), Min(c, d)) }

  function Max4(a: real, b: real, c: real, d: real): real { Max(Max(a, b), Max(c, d)) }

  lemma LerpWithin(a: real, b: real, t: real, lo: real, hi: real)
    requires lo <= a <= hi && lo <= b <= hi && 0.0 <= t <= 1.0
    ensures lo <= LerpUnclamped(a, b, t) <= hi
  {
    var k := b - a;
    ProductNonNegative(if k >= 0.0 then k else -k, t);
    ProductNonNegative(if k >= 0.0 then k else -k, 1.0 - t);
    assert k * t + k * (1.0 - t) == k;
  }

  lemma ProductNonNegative(a: real, b: real)
    requires a >= 0.0 && b >= 0.0
    ensures a * b >= 0.0
  {
  }

  lemma DeCasteljauCoordWithin(a: real, b: real, c: real, d: real, t: real)
    requires 0.0 <= t <= 1.0
    ensures Min4(a, b, c, d) <= DeCasteljauCoord(a, b, c, d, t) <= Max4(a, b, c, d)
  {
    var lo, hi := Min4(a, b, c, d), Max4(a, b, c, d);
    var ab, bc, cd := LerpUnclamped(a, b, t), LerpUnclamped(b, c, t), LerpUnclamped(c, d, t);
    LerpWithin(a, b, t, lo, hi);
    LerpWithin(b, c, t, lo, hi);
    LerpWithin(c, d, t, lo, hi);
    LerpWithin(ab, bc, t, lo, hi);
    LerpWithin(bc, cd, t, lo, hi);
    LerpWithin(LerpUnclamped(ab, bc, t), LerpUnclamped(bc, cd, t), t, lo, hi);
  }

  /** An example: the curve (0,0),(1,0),(1,1),(0,1) at t = 0.5 is (0.75, 0.5). */
  lemma GetPointExample()
    ensures GetPoint(Curve(Vec2(0.0, 0.0), Vec2(1.0, 0.0), Vec2(1.0, 1.0), Vec2(0.0, 1.0)), 0.5)
            == Vec2(0.75, 0.5)
  {
  }

  /** A pair of independent standard normal variates, the output of the
      Box-Muller transform, taken as input. */
  datatype StdNormal = StdNormal(z1: real, z2: real)

  /** The affine tail of `Statistics.GetRandomNormalVector2`: scale the standard
      normals by `std` per axis, then shift by `mean`. */
  function GetRandomNormalVector2(mean: Vec2, std: Vec2, z: StdNormal): (r: Vec2)
    ensures Sub(r, mean) == Vec2(z.z1 * std.x, z.z2 * std.y)
  {
    Vec2(z.z1 * std.x + mean.x, z.z2 * std.y + mean.y)
  }

  /** Draws mirrored through zero give samples mirrored through `mean`, and a
      zero draw or zero deviation gives `mean` itself. */
  lemma SamplerIsCentredOnMean(mean: Vec2, std: Vec2, z: StdNormal)
    ensures Add(GetRandomNormalVector2(mean, std, z), GetRandomNormalVector2(mean, std, StdNormal(-z.z1, -z.z2)))
            == Scale(mean, 2.0)
    ensures GetRandomNormalVector2(mean, Zero, z) == mean
    ensures GetRandomNormalVector2(mean, std, StdNormal(0.0, 0.0)) == mean
  {
  }

  /** `CubicBezierCurve.GetRandomG1CubicBezier`: the next segment starts at the
      old end, leaves along the old exit tangent scaled by `beta`, and adds one
      Gaussian offset for each of the two remaining control points. */
  function GetRandomG1CubicBezier(oldCurve: Curve, beta: real, mu: Vec2, std: Vec2,
                                  d1: StdNormal, d2: StdNormal): (r: Curve)
    ensures r.p0 == oldCurve.p3
    ensures Sub(r.p1, r.p0) == Scale(Sub(oldCurve.p3, oldCurve.p2), beta)
    ensures Sub(r.p2, r.p1) == GetRandomNormalVector2(mu, std, d1)
    ensures Sub(r.p3, r.p2) == GetRandomNormalVector2(mu, std, d2)
  {
    var p0 := oldCurve.p3;
    var p1 := Add(oldCurve.p3, Scale(Sub(oldCurve.p3, oldCurve.p2), beta));
    var p2 := Add(p1, GetRandomNormalVector2(mu, std, d1));
    var p3 := Add(p2, GetRandomNormalVector2(mu, std, d2));
    Curve(p0, p1, p2, p3)
  }

  /** Position continuity: the new segment starts where the old one ends. */
  lemma ChainIsPositionContinuous(oldCurve: Curve, beta: real, mu: Vec2, std: Vec2, d1: StdNormal, d2: StdNormal)
    ensures GetPoint(GetRandomG1CubicBezier(oldCurve, beta, mu, std, d1, d2), 0.0) == GetPoint(oldCurve, 1.0)
  {
    GetPointAtZero(GetRandomG1CubicBezier(oldCurve, beta, mu, std, d1, d2));
    GetPointAtOne(oldCurve);
  }

  lemma VelocityAtZero(c: Curve)
    ensures Velocity(c, 0.0) == Scale(Sub(c.p1, c.p0), 3.0)
  {
    var a, b, d := Sub(c.p1, c.p0), Sub(c.p2, c.p1), Sub(c.p3, c.p2);
    var v := Velocity(c, 0.0);
    assert v.x == a.x * (3.0 * 1.0 * 1.0) + b.x * (6.0 * 1.0 * 0.0) + d.x * (3.0 * 0.0 * 0.0);
    assert v.y == a.y * (3.0 * 1.0 * 1.0) + b.y * (6.0 * 1.0 * 0.0) + d.y * (3.0 * 0.0 * 0.0);
  }

  lemma VelocityAtOne(c: Curve)
    ensures Velocity(c, 1.0) == Scale(Sub(c.p3, c.p2), 3.0)
  {
    var a, b, d := Sub(c.p1, c.p0), Sub(c.p2, c.p1), Sub(c.p3, c.p2);
    var v := Velocity(c, 1.0);
    assert v.x == a.x * (3.0 * 0.0 * 0.0) + b.x * (6.0 * 0.0 * 1.0) + d.x * (3.0 * 1.0 * 1.0);
    assert v.y == a.y * (3.0 * 0.0 * 0.0) + b.y * (6.0 * 0.0 * 1.0) + d.y * (3.0 * 1.0 * 1.0);
  }

  /** The curve leaves `p0` along `3(p1 - p0)` and arrives at `p3` along `3(p3 - p2)`. */
  lemma VelocityAtEnds(c: Curve)
    ensures Velocity(c, 0.0) == Scale(Sub(c.p1, c.p0), 3.0)
    ensures Velocity(c, 1.0) == Scale(Sub(c.p3, c.p2), 3.0)
  {
    VelocityAtZero(c);
    VelocityAtOne(c);
  }

  /** Tangent continuity: the entry velocity of the new segment is the exit
      velocity of the old one scaled by `beta`. */
  lemma ChainIsTangentContinuous(oldCurve: Curve, beta: real, mu: Vec2, std: Vec2, d1: StdNormal, d2: StdNormal)
    ensures Velocity(GetRandomG1CubicBezier(oldCurve, beta, mu, std, d1, d2), 0.0) == Scale(Velocity(oldCurve, 1.0), beta)
  {
    var n := GetRandomG1CubicBezier(oldCurve, beta, mu, std, d1, d2);
    VelocityAtEnds(n);
    VelocityAtEnds(oldCurve);
    var v := Sub(oldCurve.p3, oldCurve.p2);
    ScalesCommute(v, beta, 3.0);
  }

  lemma ScalesCommute(v: Vec2, a: real, b: real)
    ensures Scale(Scale(v, a), b) == Scale(Scale(v, b), a)
  {
  }

  /** With `beta == 1` the junction is C1: the velocities agree exactly. */
  lemma ChainIsC1WhenBetaIsOne(oldCurve: Curve, mu: Vec2, std: Vec2, d1: StdNormal, d2: StdNormal)
    ensures Velocity(GetRandomG1CubicBezier(oldCurve, 1.0, mu, std, d1, d2), 0.0) == Velocity(oldCurve, 1.0)
  {
    ChainIsTangentContinuous(oldCurve, 1.0, mu, std, d1, d2);
  }

  function Cross(a: Vec2, b: Vec2): real { a.x * b.y - a.y * b.x }

  function Dot(a: Vec2, b: Vec2): real { a.x * b.x + a.y * b.y }

  /** G1 continuity: for `beta >= 0` the entry tangent is parallel to the exit
      tangent and points the same way; for `beta > 0` and a non-degenerate exit
      tangent it is a strictly positive multiple of it. */
  lemma ChainIsG1(oldCurve: Curve, beta: real, mu: Vec2, std: Vec2, d1: StdNormal, d2: StdNormal)
    requires beta >= 0.0
    ensures var n := GetRandomG1CubicBezier(oldCurve, beta, mu, std, d1, d2);
            var entry, exit := Sub(n.p1, n.p0), Sub(oldCurve.p3, oldCurve.p2);
            Cross(entry, exit) == 0.0 && Dot(entry, exit) >= 0.0
            && (beta > 0.0 && exit != Zero ==> Dot(entry, exit) > 0.0)
  {
    var n := GetRandomG1CubicBezier(oldCurve, beta, mu, std, d1, d2);
    var entry, exit := Sub(n.p1, n.p0), Sub(oldCurve.p3, oldCurve.p2);
    assert entry == Scale(exit, beta);
    var sq := exit.x * exit.x + exit.y * exit.y;
    assert Dot(entry, exit) == beta * sq;
    assert sq >= 0.0;
    if beta > 0.0 && exit != Zero {
      assert exit.x != 0.0 || exit.y != 0.0;
      assert sq > 0.0;
    }
  }
}
