/** `MovementCurve.cs`: one person's current Bezier segment, the progress
    parameter along it, and a list of points sampled from it when it was built. */
module MovementCurve {
  import opened Vectors
  import opened Wrappers
  import MathUtils
  import PersonMovement

  /** `Flags.HitStatus`: the four edges a person can hit, and any other status. */
  datatype HitStatus = HitTop | HitRight | HitBottom | HitLeft | NoHit

  function HitEdge(side: HitStatus): (r: Option<PersonMovement.Edge>)
    ensures r.None? <==> side == NoHit
  {
    match side
    case HitTop => Some(PersonMovement.Top)
    case HitRight => Some(PersonMovement.Right)
    case HitBottom => Some(PersonMovement.Bottom)
    case HitLeft => Some(PersonMovement.Left)
    case NoHit => None
  }

  /** What `ReflectCurve(side, height, width)` does to the curve. */
  function ReflectHit(c: MathUtils.Curve, side: HitStatus, height: real, width: real): MathUtils.Curve {
    match HitEdge(side)
    case Some(e) => PersonMovement.Reflected(c, e, height, width)
    case None => c
  }

  /** The integer side code `PersonMovement.ReflectCurve` uses for the same status. */
  function SideCode(side: HitStatus): int {
    match side
    case HitTop => 0
    case HitRight => 1
    case HitBottom => 2
    case HitLeft => 3
    case NoHit => -1
  }

  /** The two copies of the reflection, here and in `PersonMovement.cs`, agree. */
  lemma ReflectHitAgreesWithReflectSide(c: MathUtils.Curve, side: HitStatus, height: real, width: real)
    ensures ReflectHit(c, side, height, width) == PersonMovement.ReflectSide(c, SideCode(side), height, width)
  {
  }

  /** Reflecting twice with the same status restores the curve. */
  lemma ReflectHitIsInvolution(c: MathUtils.Curve, side: HitStatus, height: real, width: real)
    ensures ReflectHit(ReflectHit(c, side, height, width), side, height, width) == c
  {
    ReflectHitAgreesWithReflectSide(c, side, height, width);
    ReflectHitAgreesWithReflectSide(ReflectHit(c, side, height, width), side, height, width);
    PersonMovement.ReflectSideIsInvolution(c, SideCode(side), height, width);
  }

  /** The new value of `curveTime` after `UpdateCurveTime(speed)`. */
  function AdvancedTime(curveTime: real, speed: real): real {
    if curveTime + speed > 1.0 then 0.0 else curveTime + speed
  }

  /** Progress is either advanced exactly by `speed` or reset to 0 (not
      wrapped to `curveTime + speed - 1`), and a non-negative step keeps it in [0,1]. */
  lemma AdvancedTimeStaysInUnit(curveTime: real, speed: real)
    requires 0.0 <= curveTime <= 1.0 && speed >= 0.0
    ensures 0.0 <= AdvancedTime(curveTime, speed) <= 1.0
    ensures AdvancedTime(curveTime, speed) == curveTime + speed || AdvancedTime(curveTime, speed) == 0.0
    ensures curveTime + speed <= 1.0 <==> AdvancedTime(curveTime, speed) == curveTime + speed
  {
  }

  /** The parameter of the `i`-th cached sample: `(float)i / nSegments`. */
  function SampleParameter(i: int, nSegments: int): real
    requires nSegments != 0
  {
    i as real / nSegments as real
  }

  /** The first sample is the start point and the last one the end point. */
  lemma SamplesStartAndEndOnCurve(c: MathUtils.Curve, nSegments: int)
    requires nSegments > 0
    ensures MathUtils.GetPoint(c, SampleParameter(0, nSegments)) == c.p0
    ensures MathUtils.GetPoint(c, SampleParameter(nSegments, nSegments)) == c.p3
  {
    assert SampleParameter(0, nSegments) == 0.0;
    assert SampleParameter(nSegments, nSegments) == 1.0;
    MathUtils.GetPointAtZero(c);
    MathUtils.GetPointAtOne(c);
  }

  /** The initial curve: a three-step random walk from `position`. */
  function RandomWalkCurve(position: Vec2, mean: Vec2, std: Vec2,
                           d1: MathUtils.StdNormal, d2: MathUtils.StdNormal, d3: MathUtils.StdNormal): MathUtils.Curve
  {
    var p1 := Add(position, MathUtils.GetRandomNormalVector2(mean, std, d1));
    var p2 := Add(p1, MathUtils.GetRandomNormalVector2(mean, std, d2));
    var p3 := Add(p2, MathUtils.GetRandomNormalVector2(mean, std, d3));
    MathUtils.Curve(position, p1, p2, p3)
  }

  class MovementCurve {
    var curve: MathUtils.Curve
    var curveTime: real
    var nSegments: int
    var segments: seq<Vec2>

    predicate TimeInRange()
      reads this
    {
      0.0 <= curveTime <= 1.0
    }

    /** Builds the random-walk curve and caches `nSegments + 1` points sampled
        at `i / nSegments`. A negative `nSegments` caches nothing. */
    constructor (position: Vec2, randomWalkMean: Vec2, randomWalkStd: Vec2, nSegments: int,
                 d1: MathUtils.StdNormal, d2: MathUtils.StdNormal, d3: MathUtils.StdNormal)
      requires nSegments != 0
      ensures curve == RandomWalkCurve(position, randomWalkMean, randomWalkStd, d1, d2, d3)
      ensures curve.p0 == position && curveTime == 0.0 && TimeInRange()
      ensures this.nSegments == nSegments
      ensures |segments| == if nSegments >= 0 then nSegments + 1 else 0
      ensures forall i :: 0 <= i < |segments| ==> segments[i] == MathUtils.GetPoint(curve, SampleParameter(i, nSegments))
      ensures nSegments > 0 ==> segments[0] == curve.p0 && segments[nSegments] == curve.p3
    {
      var p0 := position;
      var p1 := Add(p0, MathUtils.GetRandomNormalVector2(randomWalkMean, randomWalkStd, d1));
      var p2 := Add(p1, MathUtils.GetRandomNormalVector2(randomWalkMean, randomWalkStd, d2));
      var p3 := Add(p2, MathUtils.GetRandomNormalVector2(randomWalkMean, randomWalkStd, d3));
      curve := MathUtils.Curve(p0, p1, p2, p3);
      curveTime := 0.0;
      this.nSegments := nSegments;
      segments := [];
      new;
      var i := 0;
      while i <= nSegments
        invariant 0 <= i && (nSegments >= 0 ==> i <= nSegments + 1) && (nSegments < 0 ==> i == 0)
        invariant curve == MathUtils.Curve(p0, p1, p2, p3) && curveTime == 0.0 && this.nSegments == nSegments
        invariant |segments| == i
        invariant forall k :: 0 <= k < i ==> segments[k] == MathUtils.GetPoint(curve, SampleParameter(k, nSegments))
      {
        segments := segments + [MathUtils.GetPoint(curve, SampleParameter(i, nSegments))];
        i := i + 1;
      }
      if nSegments > 0 {
        SamplesStartAndEndOnCurve(curve, nSegments);
      }
    }

    /** Mirrors the whole curve across the edge that was hit; any other status
        leaves it alone. Progress and the cached samples are not touched, so
        the samples keep their pre-reflection values. */
    method ReflectCurve(side: HitStatus, height: real, width: real)
      modifies this
      ensures curve == ReflectHit(old(curve), side, height, width)
      ensures curveTime == old(curveTime) && nSegments == old(nSegments) && segments == old(segments)
      ensures HitEdge(side).Some? ==>
                GetPoint() == PersonMovement.ReflectPoint(old(GetPoint()), HitEdge(side).value, height, width)
    {
      if side != NoHit {
        PersonMovement.ReflectionCommutesWithGetPoint(curve, HitEdge(side).value, height, width, curveTime);
      }
      if side == HitTop {
        curve := curve.(p0 := Vec2(curve.p0.x, 2.0 * height - curve.p0.y));
        curve := curve.(p1 := Vec2(curve.p1.x, 2.0 * height - curve.p1.y));
        curve := curve.(p2 := Vec2(curve.p2.x, 2.0 * height - curve.p2.y));
        curve := curve.(p3 := Vec2(curve.p3.x, 2.0 * height - curve.p3.y));
      } else if side == HitRight {
        curve := curve.(p0 := Vec2(2.0 * width - curve.p0.x, curve.p0.y));
        curve := curve.(p1 := Vec2(2.0 * width - curve.p1.x, curve.p1.y));
        curve := curve.(p2 := Vec2(2.0 * width - curve.p2.x, curve.p2.y));
        curve := curve.(p3 := Vec2(2.0 * width - curve.p3.x, curve.p3.y));
      } else if side == HitBottom {
        curve := curve.(p0 := Vec2(curve.p0.x, -curve.p0.y));
        curve := curve.(p1 := Vec2(curve.p1.x, -curve.p1.y));
        curve := curve.(p2 := Vec2(curve.p2.x, -curve.p2.y));
        curve := curve.(p3 := Vec2(curve.p3.x, -curve.p3.y));
      } else if side == HitLeft {
        curve := curve.(p0 := Vec2(-curve.p0.x, curve.p0.y));
        curve := curve.(p1 := Vec2(-curve.p1.x, curve.p1.y));
        curve := curve.(p2 := Vec2(-curve.p2.x, curve.p2.y));
        curve := curve.(p3 := Vec2(-curve.p3.x, curve.p3.y));
      }
    }

    /** The point at the current progress; it always lies in the bounding box
        of the control points, and is the Bernstein point when progress is in [0,1]. */
    function GetPoint(): (r: Vec2)
      reads this
      ensures MathUtils.InBoundingBox(curve, r)
      ensures TimeInRange() ==> r == MathUtils.Bernstein(curve, curveTime)
    {
      if TimeInRange() then MathUtils.GetPointIsBernstein(curve, curveTime); MathUtils.GetPoint(curve, curveTime)
      else MathUtils.GetPoint(curve, curveTime)
    }

    /** Advances progress by `speed`; past 1 it is reset to exactly 0. */
    method UpdateCurveTime(speed: real)
      modifies this
      ensures curveTime == AdvancedTime(old(curveTime), speed)
      ensures curve == old(curve) && nSegments == old(nSegments) && segments == old(segments)
      ensures speed >= 0.0 && old(TimeInRange()) ==> TimeInRange()
    {
      curveTime := curveTime + speed;
      if curveTime > 1.0 {
        curveTime := 0.0;
      }
    }
  }
}
