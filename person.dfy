/** `Person.cs`: one person of the Unity simulation, a position in the unit
    square moved by clamped steps, a speed coefficient and inert attributes. */
module Person {
  import opened Vectors

  const MAX_RANDOM_SPEED: real := 0.003
  const MIN_RANDOM_SPEED: real := 0.0003

  /** The position after a step by `delta`, each axis clamped to [0,1] on its own. */
  function ClampedMove(position: Vec2, delta: Vec2): (r: Vec2)
    ensures InUnitSquare(r)
    ensures InUnitSquare(Add(position, delta)) ==> r == Add(position, delta)
  {
    Vec2(Clamp01(position.x + delta.x), Clamp01(position.y + delta.y))
  }

  /** Each axis is clamped independently: the new `x` depends only on the old
      `x` and `delta.x`, the new `y` only on the old `y` and `delta.y`. */
  lemma ClampedMoveIsPerAxis(p: Vec2, d: Vec2, q: Vec2, e: Vec2)
    ensures p.x + d.x == q.x + e.x ==> ClampedMove(p, d).x == ClampedMove(q, e).x
    ensures p.y + d.y == q.y + e.y ==> ClampedMove(p, d).y == ClampedMove(q, e).y
  {
  }

  /** A zero step is idempotent, and leaves a position inside the square where it is. */
  lemma MoveByZeroIsIdempotent(p: Vec2)
    ensures ClampedMove(ClampedMove(p, Zero), Zero) == ClampedMove(p, Zero)
    ensures InUnitSquare(p) ==> ClampedMove(p, Zero) == p
  {
  }

  /** The direction of a random step from two noise samples: `2n - 1` per axis. */
  function NoiseDirection(n1: real, n2: real): (r: Vec2)
    ensures 0.0 <= n1 <= 1.0 && 0.0 <= n2 <= 1.0 ==> -1.0 <= r.x <= 1.0 && -1.0 <= r.y <= 1.0
  {
    Vec2(n1 * 2.0 - 1.0, n2 * 2.0 - 1.0)
  }

  /** The values `Initialize` draws: `Random.Range(MIN_RANDOM_SPEED, MAX_RANDOM_SPEED)`
      for the speed and `Random.value` for the rest. */
  datatype InitDraws = InitDraws(speed: real, sfc: real, wpc: real, irc: real, x: real, y: real)

  predicate InUnit(v: real) { 0.0 <= v <= 1.0 }

  predicate DrawsInRange(d: InitDraws) {
    MIN_RANDOM_SPEED <= d.speed <= MAX_RANDOM_SPEED
    && InUnit(d.sfc) && InUnit(d.wpc) && InUnit(d.irc) && InUnit(d.x) && InUnit(d.y)
  }

  class Person {
    var speedCoefficient: real
    var sfc: real
    var wpc: real
    var irc: real
    var wellbeing: real
    var position: Vec2

    /** The ranges `Initialize` establishes. */
    predicate AttributesInRange()
      reads this
    {
      MIN_RANDOM_SPEED <= speedCoefficient <= MAX_RANDOM_SPEED
      && InUnit(sfc) && InUnit(wpc) && InUnit(irc) && InUnitSquare(position)
    }

    /** A freshly added component: every field holds its default, zero. */
    constructor ()
      ensures speedCoefficient == 0.0 && sfc == 0.0 && wpc == 0.0 && irc == 0.0 && wellbeing == 0.0
      ensures position == Zero
    {
      speedCoefficient, sfc, wpc, irc, wellbeing := 0.0, 0.0, 0.0, 0.0, 0.0;
      position := Zero;
    }

    method Initialize(draws: InitDraws)
      requires DrawsInRange(draws)
      modifies this
      ensures speedCoefficient == draws.speed && sfc == draws.sfc && wpc == draws.wpc && irc == draws.irc
      ensures wellbeing == 0.0 && position == Vec2(draws.x, draws.y)
      ensures AttributesInRange()
    {
      speedCoefficient := draws.speed;
      sfc := draws.sfc;
      wpc := draws.wpc;
      irc := draws.irc;
      wellbeing := 0.0;
      position := Vec2(draws.x, draws.y);
    }

    /** A step of `speedCoefficient` along the direction the two Perlin noise
        samples `n1`, `n2` give, clamped into the unit square. */
    method RandomMove(n1: real, n2: real)
      modifies this
      ensures position == ClampedMove(old(position), Scale(NoiseDirection(n1, n2), speedCoefficient))
      ensures InUnitSquare(position)
      ensures speedCoefficient == old(speedCoefficient) && sfc == old(sfc) && wpc == old(wpc)
      ensures irc == old(irc) && wellbeing == old(wellbeing)
    {
      var randomDirection := NoiseDirection(n1, n2);
      position := Add(position, Scale(randomDirection, speedCoefficient));
      position := Vec2(Clamp01(position.x), Clamp01(position.y));
    }

    method Move(delta: Vec2)
      modifies this
      ensures position == ClampedMove(old(position), delta)
      ensures InUnitSquare(position)
      ensures speedCoefficient == old(speedCoefficient) && sfc == old(sfc) && wpc == old(wpc)
      ensures irc == old(irc) && wellbeing == old(wellbeing)
    {
      position := Vec2(Clamp01(position.x + delta.x), Clamp01(position.y + delta.y));
    }
  }
}
