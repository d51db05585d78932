/** `PersonMovement.cs`: a cubic Bezier curve object whose control points are
    mirrored in place across one edge of the domain, and the chaining step
    that builds a fresh curve object from the previous one. */
module PersonMovement {
  import opened Vectors
  import opened Wrappers
  import MathUtils

  /** The four edges of the domain [0,width] x [0,height]. */
  datatype Edge = Top | Right | Bottom | Left

  /** The integer codes `ReflectCurve` accepts: 0 top, 1 right, 2 bottom,
      3 left; any other code names no edge. */
  function SideEdge(side: int): (r: Option<Edge>)
    ensures r.Some? <==> 0 <= side <= 3
  {
    if side == 0 then Some(Top)
    else if side == 1 then Some(Right)
    else if side == 2 then Some(Bottom)
    else if side == 3 then Some(Left)
    else None
  }

  /** The mirror image of one point across an edge. */
  function ReflectPoint(p: Vec2, e: Edge, height: real, width: real): Vec2 {
    match e
    case Top => Vec2(p.x, 2.0 * height - p.y)
    case Right => Vec2(2.0 * width - p.x, p.y)
    case Bottom => Vec2(p.x, -p.y)
    case Left => Vec2(-p.x, p.y)
  }

  /** The whole curve mirrored: all four control points, not only the one
      that crossed the edge. */
  function Reflected(c: MathUtils.Curve, e: Edge, height: real, width: real): MathUtils.Curve {
    MathUtils.Curve(ReflectPoint(c.p0, e, height, width), ReflectPoint(c.p1, e, height, width),
                    ReflectPoint(c.p2, e, height, width), ReflectPoint(c.p3, e, height, width))
  }

  /** What `ReflectCurve(side, height, width)` does to the control points. */
  function ReflectSide(c: MathUtils.Curve, side: int, height: real, width: real): MathUtils.Curve {
    match SideEdge(side)
    case Some(e) => Reflected(c, e, height, width)
    case None => c
  }

  class CubicBezierCurve {
    var p0: Vec2
    var p1: Vec2
    var p2: Vec2
    var p3: Vec2

    /** The control points as a value. */
    function Controls(): MathUtils.Curve
      reads this
    {
      MathUtils.Curve(p0, p1, p2, p3)
    }

    constructor (p0: Vec2, p1: Vec2, p2: Vec2, p3: Vec2)
      ensures Controls() == MathUtils.Curve(p0, p1, p2, p3)
    {
      this.p0 := p0;
      this.p1 := p1;
      this.p2 := p2;
      this.p3 := p3;
    }

    /** The same three rounds of interpolation as `MathUtils.GetPoint`: on
        [0,1] the Bernstein polynomial of the control points, and always
        within their bounding box. */
    function GetPoint(t: real): (r: Vec2)
      reads this
      ensures MathUtils.InBoundingBox(Controls(), r)
      ensures 0.0 <= t <= 1.0 ==> r == MathUtils.Bernstein(Controls(), t)
    {
      if 0.0 <= t <= 1.0 then MathUtils.GetPointIsBernstein(Controls(), t); MathUtils.GetPoint(Controls(), t)
      else MathUtils.GetPoint(Controls(), t)
    }

    /** Mirrors every control point in place across the edge `side` names;
        an unknown `side` leaves the curve as it is. */
    method ReflectCurve(side: int, height: real, width: real)
      modifies this
      ensures Controls() == ReflectSide(old(Controls()), side, height, width)
    {
      if side == 0 {
        p0 := Vec2(p0.x, 2.0 * height - p0.y);
        p1 := Vec2(p1.x, 2.0 * height - p1.y);
        p2 := Vec2(p2.x, 2.0 * height - p2.y);
        p3 := Vec2(p3.x, 2.0 * height - p3.y);
      } else if side == 1 {
        p0 := Vec2(2.0 * width - p0.x, p0.y);
        p1 := Vec2(2.0 * width - p1.x, p1.y);
        p2 := Vec2(2.0 * width - p2.x, p2.y);
        p3 := Vec2(2.0 * width - p3.x, p3.y);
      } else if side == 2 {
        p0 := Vec2(p0.x, -p0.y);
        p1 := Vec2(p1.x, -p1.y);
        p2 := Vec2(p2.x, -p2.y);
        p3 := Vec2(p3.x, -p3.y);
      } else if side == 3 {
        p0 := Vec2(-p0.x, p0.y);
        p1 := Vec2(-p1.x, p1.y);
        p2 := Vec2(-p2.x, p2.y);
        p3 := Vec2(-p3.x, p3.y);
      }
    }
  }

  /** `PersonMovement.GetRandomG1CubicBezier`: a fresh curve object built by
      the chaining step; the old curve is only read. */
  method GetRandomG1CubicBezier(oldCurve: CubicBezierCurve, beta: real, mu: Vec2, std: Vec2,
                                d1: MathUtils.StdNormal, d2: MathUtils.StdNormal)
    returns (curve: CubicBezierCurve)
    ensures fresh(curve)
    ensures curve.Controls() == MathUtils.GetRandomG1CubicBezier(oldCurve.Controls(), beta, mu, std, d1, d2)
  {
    var p0 := oldCurve.p3;
    var p1 := Add(oldCurve.p3, Scale(Sub(oldCurve.p3, oldCurve.p2), beta));
    var p2 := Add(p1, MathUtils.GetRandomNormalVector2(mu, std, d1));
    var p3 := Add(p2, MathUtils.GetRandomNormalVector2(mu, std, d2));
    curve := new CubicBezierCurve(p0, p1, p2, p3);
  }

  /** Each side code moves exactly one coordinate of every control point:
      top and bottom only `y`, right and left only `x`. */
  lemma ReflectSideMovesOneAxis(c: MathUtils.Curve, side: int, height: real, width: real)
    ensures var r := ReflectSide(c, side, height, width);
            (side == 0 ==> r == MathUtils.Curve(Vec2(c.p0.x, 2.0 * height - c.p0.y), Vec2(c.p1.x, 2.0 * height - c.p1.y),
                                                Vec2(c.p2.x, 2.0 * height - c.p2.y), Vec2(c.p3.x, 2.0 * height - c.p3.y)))
            && (side == 1 ==> r == MathUtils.Curve(Vec2(2.0 * width - c.p0.x, c.p0.y), Vec2(2.0 * width - c.p1.x, c.p1.y),
                                                   Vec2(2.0 * width - c.p2.x, c.p2.y), Vec2(2.0 * width - c.p3.x, c.p3.y)))
            && (side == 2 ==> r == MathUtils.Curve(Vec2(c.p0.x, -c.p0.y), Vec2(c.p1.x, -c.p1.y),
                                                   Vec2(c.p2.x, -c.p2.y), Vec2(c.p3.x, -c.p3.y)))
            && (side == 3 ==> r == MathUtils.Curve(Vec2(-c.p0.x, c.p0.y), Vec2(-c.p1.x, c.p1.y),
                                                   Vec2(-c.p2.x, c.p2.y), Vec2(-c.p3.x, c.p3.y)))
            && (!(0 <= side <= 3) ==> r == c)
  {
  }

  /** Reflecting twice across the same edge restores every control point. */
  lemma ReflectSideIsInvolution(c: MathUtils.Curve, side: int, height: real, width: real)
    ensures ReflectSide(ReflectSide(c, side, height, width), side, height, width) == c
  {
  }

  /** Mirroring commutes with one interpolation on one coordinate. */
  lemma MirrorCommutesWithLerp(k: real, a: real, b: real, s: real)
    ensures k - LerpUnclamped(a, b, s) == LerpUnclamped(k - a, k - b, s)
  {
  }

  lemma ReflectPointCommutesWithLerp(a: Vec2, b: Vec2, t: real, e: Edge, height: real, width: real)
    ensures Lerp(ReflectPoint(a, e, height, width), ReflectPoint(b, e, height, width), t)
            == ReflectPoint(Lerp(a, b, t), e, height, width)
  {
    var s := Clamp01(t);
    match e
    case Top => MirrorCommutesWithLerp(2.0 * height, a.y, b.y, s);
    case Right => MirrorCommutesWithLerp(2.0 * width, a.x, b.x, s);
    case Bottom => MirrorCommutesWithLerp(0.0, a.y, b.y, s);
    case Left => MirrorCommutesWithLerp(0.0, a.x, b.x, s);
  }

  /** Reflection commutes with evaluation: the point of the mirrored curve at
      `t` is the mirror image of the point of the original curve at `t`. */
  lemma ReflectionCommutesWithGetPoint(c: MathUtils.Curve, e: Edge, height: real, width: real, t: real)
    ensures MathUtils.GetPoint(Reflected(c, e, height, width), t)
            == ReflectPoint(MathUtils.GetPoint(c, t), e, height, width)
  {
    var p01 := Lerp(c.p0, c.p1, t);
    var p12 := Lerp(c.p1, c.p2, t);
    var p23 := Lerp(c.p2, c.p3, t);
    ReflectPointCommutesWithLerp(c.p0, c.p1, t, e, height, width);
    ReflectPointCommutesWithLerp(c.p1, c.p2, t, e, height, width);
    ReflectPointCommutesWithLerp(c.p2, c.p3, t, e, height, width);
    ReflectPointCommutesWithLerp(p01, p12, t, e, height, width);
    ReflectPointCommutesWithLerp(p12, p23, t, e, height, width);
    ReflectPointCommutesWithLerp(Lerp(p01, p12, t), Lerp(p12, p23, t), t, e, height, width);
  }

  /** A point beyond an edge is mirrored back to the inner side of that edge. */
  lemma ReflectPointReturnsInside(p: Vec2, e: Edge, height: real, width: real)
    ensures e == Top && p.y > height ==> ReflectPoint(p, e, height, width).y < height
    ensures e == Right && p.x > width ==> ReflectPoint(p, e, height, width).x < width
    ensures e == Bottom && p.y < 0.0 ==> ReflectPoint(p, e, height, width).y > 0.0
    ensures e == Left && p.x < 0.0 ==> ReflectPoint(p, e, height, width).x > 0.0
  {
  }

  /** An example: the curve (0,0),(1,0),(1,1),(0,1) mirrored across the
      top edge of a domain of height 2 is (0,4),(1,4),(1,3),(0,3). */
  lemma ReflectExample()
    ensures ReflectSide(MathUtils.Curve(Vec2(0.0, 0.0), Vec2(1.0, 0.0), Vec2(1.0, 1.0), Vec2(0.0, 1.0)), 0, 2.0, 5.0)
            == MathUtils.Curve(Vec2(0.0, 4.0), Vec2(1.0, 4.0), Vec2(1.0, 3.0), Vec2(0.0, 3.0))
  {
  }
}
