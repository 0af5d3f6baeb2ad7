/** The per-contact formulas of the impulse-based contact solver: the body state the
    solver reads and writes, the normal impulse with its effective-mass denominator,
    the choice of restitution, and the Coulomb-clamped friction impulse. */
module ContactImpulse {
  import opened Vectors
  import RigidBody

  const StaticFriction: real := 0.61
  const DynamicFriction: real := 0.47
  /** Below this magnitude a tangential impulse is treated as zero. */
  const FrictionCutoff: real := 0.000001
  /** Restitution of a contact that is not at rest. */
  const Bounce: real := 0.3
  /** Added to the squared gravity step when deciding whether a contact is at rest. */
  const RestingMargin: real := 0.01
  /** The gravity acceleration (`gravity`, pointing down the screen). */
  const Gravity: Vec2 := Vec2(0.0, 9.81)
  /** Sanity bound on a normal impulse. */
  const ImpulseBound: real := 100000.0

  /** What the solver reads of a body's mass distribution; the solver never changes it.
      A static body has both inverses zero. */
  datatype MassProps = MassProps(invMass: real, invInertia: real)

  /** The part of a body that the contact passes read and write. */
  datatype Body = Body(position: Vec2, velocity: Vec2, angularVelocity: real, props: MassProps)

  predicate NonNegative(m: MassProps) {
    m.invMass >= 0.0 && m.invInertia >= 0.0
  }

  /** The body after an impulse at `offset` from its centre of mass
      (`physical_object::apply_impulse`): the velocity gains `impulse * invMass` and the
      angular velocity gains `invInertia * cross(offset, impulse)`. */
  function Kicked(b: Body, impulse: Vec2, offset: Vec2): Body {
    b.(velocity := Add(b.velocity, Scale(impulse, b.props.invMass)),
       angularVelocity := b.angularVelocity + b.props.invInertia * Cross(offset, impulse))
  }

  /** The body translated by `delta` (`physical_object::move`). */
  function Shifted(b: Body, delta: Vec2): Body {
    b.(position := Add(b.position, delta))
  }

  /** Velocity of the body's material point at `offset` from its centre of mass. */
  function PointVelocity(b: Body, offset: Vec2): Vec2 {
    RigidBody.VertexVelocity(b.velocity, b.angularVelocity, offset)
  }

  /** Velocity of the point owner's contact point relative to the line owner's. */
  function RelativeVelocity(lineOwner: Body, pointOwner: Body, offsetA: Vec2, offsetB: Vec2): Vec2 {
    Sub(PointVelocity(pointOwner, offsetB), PointVelocity(lineOwner, offsetA))
  }

  /** One body's share of the effective-mass denominator along `dir`:
      `invMass + invInertia * cross(r, dir)^2`. */
  function Response(m: MassProps, r: Vec2, dir: Vec2): real {
    var rn := Cross(r, dir);
    m.invMass + m.invInertia * rn * rn
  }

  /** The effective-mass denominator for an impulse along `dir`, multiplied by the
      number of contacts that share the impulse. */
  function Denominator(ma: MassProps, mb: MassProps, offsetA: Vec2, offsetB: Vec2,
                       dir: Vec2, numContacts: int): real
  {
    (Response(ma, offsetA, dir) + Response(mb, offsetB, dir)) * numContacts as real
  }

  /** Magnitude of the normal impulse (`calc_impulse_norm`). It solves the
      effective-mass equation, and it pushes the bodies apart (is not negative) when
      they approach. */
  function ImpulseNorm(ma: MassProps, mb: MassProps, offsetA: Vec2, offsetB: Vec2,
                       normal: Vec2, relVn: real, restitution: real, numContacts: int): (j: real)
    requires Denominator(ma, mb, offsetA, offsetB, normal, numContacts) != 0.0
    ensures j * Denominator(ma, mb, offsetA, offsetB, normal, numContacts) == -(1.0 + restitution) * relVn
    ensures relVn <= 0.0 && restitution >= 0.0 && NonNegative(ma) && NonNegative(mb) && numContacts >= 1
            ==> j >= 0.0
  {
    var denom := Denominator(ma, mb, offsetA, offsetB, normal, numContacts);
    if relVn <= 0.0 && restitution >= 0.0 && NonNegative(ma) && NonNegative(mb) && numContacts >= 1 then
      DenominatorNonNegative(ma, mb, offsetA, offsetB, normal, numContacts);
      QuotientNonNegative(-(1.0 + restitution) * relVn, denom);
      -(1.0 + restitution) * relVn / denom
    else
      -(1.0 + restitution) * relVn / denom
  }

  lemma DenominatorNonNegative(ma: MassProps, mb: MassProps, offsetA: Vec2, offsetB: Vec2,
                               dir: Vec2, numContacts: int)
    requires NonNegative(ma) && NonNegative(mb) && numContacts >= 1
    ensures Denominator(ma, mb, offsetA, offsetB, dir, numContacts) >= 0.0
  {
    var ca := Cross(offsetA, dir);
    var cb := Cross(offsetB, dir);
    assert ca * ca >= 0.0 && cb * cb >= 0.0;
    assert ma.invInertia * ca * ca >= 0.0;
    assert mb.invInertia * cb * cb >= 0.0;
  }

  lemma QuotientNonNegative(a: real, b: real)
    requires a >= 0.0 && b >= 0.0 && b != 0.0
    ensures a / b >= 0.0
  {
  }

  /** With `k` contacts between the same two bodies, each receives exactly `1/k` of the
      normal impulse a sole contact would receive. */
  lemma ImpulseSplitEvenly(ma: MassProps, mb: MassProps, offsetA: Vec2, offsetB: Vec2,
                           normal: Vec2, relVn: real, restitution: real, k: int)
    requires k >= 1
    requires Denominator(ma, mb, offsetA, offsetB, normal, 1) != 0.0
    ensures Denominator(ma, mb, offsetA, offsetB, normal, k) != 0.0
    ensures ImpulseNorm(ma, mb, offsetA, offsetB, normal, relVn, restitution, k)
         == ImpulseNorm(ma, mb, offsetA, offsetB, normal, relVn, restitution, 1) / k as real
  {
    var t := Response(ma, offsetA, normal) + Response(mb, offsetB, normal);
    var num := -(1.0 + restitution) * relVn;
    assert Denominator(ma, mb, offsetA, offsetB, normal, k) == t * k as real;
    assert num / (t * k as real) == (num / t) / k as real;
  }

  /** Restitution of a contact: 0 (inelastic) when the squared relative velocity is
      below one step's squared gravity velocity plus a margin, and `Bounce` otherwise. */
  function Restitution(relV: Vec2, dt: real): (e: real)
    ensures e == 0.0 || e == Bounce
    ensures e == 0.0 <==> SquaredNorm(relV) < SquaredNorm(Scale(Gravity, dt)) + RestingMargin
  {
    if SquaredNorm(relV) < SquaredNorm(Scale(Gravity, dt)) + RestingMargin then 0.0 else Bounce
  }

  /** The unclamped tangential impulse: the effective-mass formula along the tangent. */
  function TangentImpulse(ma: MassProps, mb: MassProps, offsetA: Vec2, offsetB: Vec2,
                          tangent: Vec2, relV: Vec2, numContacts: int): (jt: real)
    requires Denominator(ma, mb, offsetA, offsetB, tangent, numContacts) != 0.0
    ensures jt * Denominator(ma, mb, offsetA, offsetB, tangent, numContacts) == -Dot(relV, tangent)
  {
    -Dot(relV, tangent) / Denominator(ma, mb, offsetA, offsetB, tangent, numContacts)
  }

  /** The friction impulse (`calc_friction_impulse`) for the unit `tangent` of the
      sliding direction and the normal impulse `j`: nothing when the tangential
      impulse is negligible, the full tangential impulse while it stays inside the
      static cone, and otherwise the dynamic friction against the tangent. */
  function FrictionImpulse(ma: MassProps, mb: MassProps, offsetA: Vec2, offsetB: Vec2,
                           tangent: Vec2, relV: Vec2, j: real, numContacts: int): (f: Vec2)
    requires Denominator(ma, mb, offsetA, offsetB, tangent, numContacts) != 0.0
    ensures var jt := TangentImpulse(ma, mb, offsetA, offsetB, tangent, relV, numContacts);
            (Abs(jt) < FrictionCutoff ==> f == Zero) &&
            (FrictionCutoff <= Abs(jt) < j * StaticFriction ==> f == Scale(tangent, jt)) &&
            (FrictionCutoff <= Abs(jt) && j * StaticFriction <= Abs(jt) ==>
               f == Scale(tangent, -(j * DynamicFriction)))
  {
    var jt := TangentImpulse(ma, mb, offsetA, offsetB, tangent, relV, numContacts);
    if Abs(jt) < FrictionCutoff then Zero
    else if Abs(jt) < j * StaticFriction then Scale(tangent, jt)
    else
      ScaleTwice(tangent, -j, DynamicFriction);
      Scale(Scale(tangent, -j), DynamicFriction)
  }

  lemma ScaleTwice(v: Vec2, a: real, b: real)
    ensures Scale(Scale(v, a), b) == Scale(v, a * b)
  {
    assert v.x * a * b == v.x * (a * b);
    assert v.y * a * b == v.y * (a * b);
  }

  /** Coulomb's law: for a unit tangent and a non-negative normal impulse `j`, the
      friction impulse is never larger than `StaticFriction * j`. */
  lemma FrictionWithinStaticCone(ma: MassProps, mb: MassProps, offsetA: Vec2, offsetB: Vec2,
                                 tangent: Vec2, relV: Vec2, j: real, numContacts: int)
    requires Denominator(ma, mb, offsetA, offsetB, tangent, numContacts) != 0.0
    requires SquaredNorm(tangent) == 1.0 && j >= 0.0
    ensures var f := FrictionImpulse(ma, mb, offsetA, offsetB, tangent, relV, j, numContacts);
            SquaredNorm(f) <= (StaticFriction * j) * (StaticFriction * j)
  {
    var jt := TangentImpulse(ma, mb, offsetA, offsetB, tangent, relV, numContacts);
    if Abs(jt) < FrictionCutoff {
      SquareMonotone(0.0, StaticFriction * j);
    } else if Abs(jt) < j * StaticFriction {
      StaticWithinCone(tangent, jt, j);
    } else {
      DynamicWithinCone(tangent, j);
    }
  }

  /** A friction impulse inside the static cone stays inside it. */
  lemma StaticWithinCone(t: Vec2, jt: real, j: real)
    requires SquaredNorm(t) == 1.0 && Abs(jt) < j * StaticFriction
    ensures SquaredNorm(Scale(t, jt)) <= (StaticFriction * j) * (StaticFriction * j)
  {
    ScaledSquaredNorm(t, jt);
    SquareMonotone(jt, StaticFriction * j);
  }

  /** Dynamic friction is weaker than static friction. */
  lemma DynamicWithinCone(t: Vec2, j: real)
    requires SquaredNorm(t) == 1.0 && j >= 0.0
    ensures SquaredNorm(Scale(t, -(j * DynamicFriction))) <= (StaticFriction * j) * (StaticFriction * j)
  {
    var d := j * DynamicFriction;
    ScaledSquaredNorm(t, -d);
    assert -d * -d == d * d;
    SquareMonotone(d, StaticFriction * j);
  }

  lemma ScaledSquaredNorm(v: Vec2, s: real)
    ensures SquaredNorm(Scale(v, s)) == s * s * SquaredNorm(v)
  {
  }

  lemma SquareMonotone(a: real, b: real)
    requires 0.0 <= a <= b || (a < 0.0 && -a <= b)
    ensures a * a <= b * b
  {
  }

  // ---------------------------------------------------------------------------
  // What an impulse pair does to the contact.

  /** Applying `s * d` to the point owner and `-(s * d)` to the line owner (`d` a unit
      vector) changes the relative contact velocity along `d` by `s` times the summed
      responses of the two bodies. */
  lemma {:induction false} ImpulseResponse(a: Body, b: Body, offsetA: Vec2, offsetB: Vec2, d: Vec2, s: real)
    requires SquaredNorm(d) == 1.0
    ensures Dot(RelativeVelocity(Kicked(a, Neg(Scale(d, s)), offsetA), Kicked(b, Scale(d, s), offsetB),
                                 offsetA, offsetB), d)
         == Dot(RelativeVelocity(a, b, offsetA, offsetB), d)
            + s * (Response(a.props, offsetA, d) + Response(b.props, offsetB, d))
  {
    var p := Scale(d, s);
    assert Neg(p) == Scale(d, -s);
    KickAlong(a, offsetA, d, -s);
    KickAlong(b, offsetB, d, s);
    var a' := Kicked(a, Neg(p), offsetA);
    var b' := Kicked(b, p, offsetB);
    DotSubLinear(PointVelocity(b', offsetB), PointVelocity(a', offsetA), d);
    DotSubLinear(PointVelocity(b, offsetB), PointVelocity(a, offsetA), d);
  }

  /** An impulse `c * d` at `offset` (`d` a unit vector) changes the velocity of that
      body point along `d` by `c` times the body's response. */
  lemma KickAlong(x: Body, offset: Vec2, d: Vec2, c: real)
    requires SquaredNorm(d) == 1.0
    ensures Dot(PointVelocity(Kicked(x, Scale(d, c), offset), offset), d)
         == Dot(PointVelocity(x, offset), d) + c * Response(x.props, offset, d)
  {
    var k := Kicked(x, Scale(d, c), offset);
    var cr := Cross(offset, d);
    var im := x.props.invMass;
    var ii := x.props.invInertia;
    var lin := Dot(x.velocity, d);
    var lin' := Dot(k.velocity, d);
    assert lin' == lin + c * im by {
      assert Scale(Scale(d, c), im) == Scale(d, c * im);
      DotAfterStep(x.velocity, d, c * im);
    }
    var w' := k.angularVelocity;
    assert w' == x.angularVelocity + ii * (c * cr) by {
      assert Cross(offset, Scale(d, c)) == c * cr;
    }
    PointVelocityAlong(k, offset, d);
    PointVelocityAlong(x, offset, d);
    assert Response(x.props, offset, d) == im + ii * cr * cr;
    KickSum(lin, lin', x.angularVelocity, w', c, im, ii, cr);
  }

  /** The arithmetic of `KickAlong`: a step of `c * im` in the linear part and of
      `ii * c * cr` in the spin adds `c` times the response to the point velocity. */
  lemma KickSum(lin: real, lin': real, w: real, w': real, c: real, im: real, ii: real, cr: real)
    requires lin' == lin + c * im
    requires w' == w + ii * (c * cr)
    ensures lin' + w' * cr == lin + w * cr + c * (im + ii * cr * cr)
  {
    SpinStep(w, ii, c, cr);
    Distribute(c, im, ii * cr * cr);
  }

  lemma Distribute(c: real, a: real, b: real)
    ensures c * (a + b) == c * a + c * b
  {
  }

  lemma SpinStep(w: real, ii: real, c: real, cr: real)
    ensures (w + ii * (c * cr)) * cr == w * cr + c * (ii * cr * cr)
  {
  }

  /** The velocity of a body point along `d`: the linear part plus the angular
      velocity times `cross(offset, d)`. */
  lemma PointVelocityAlong(b: Body, offset: Vec2, d: Vec2)
    ensures Dot(PointVelocity(b, offset), d) == Dot(b.velocity, d) + b.angularVelocity * Cross(offset, d)
  {
  }

  lemma DotSubLinear(u: Vec2, v: Vec2, d: Vec2)
    ensures Dot(Sub(u, v), d) == Dot(u, d) - Dot(v, d)
  {
  }

  lemma DotAfterStep(v: Vec2, d: Vec2, c: real)
    ensures Dot(Add(v, Scale(d, c)), d) == Dot(v, d) + c * SquaredNorm(d)
  {
  }

  /** With a single contact, the normal impulse `j * n` makes the relative normal
      velocity at the contact `-e` times what it was. */
  lemma NormalImpulseRestitution(a: Body, b: Body, offsetA: Vec2, offsetB: Vec2, n: Vec2, e: real)
    requires SquaredNorm(n) == 1.0
    requires Denominator(a.props, b.props, offsetA, offsetB, n, 1) != 0.0
    ensures var relVn := Dot(RelativeVelocity(a, b, offsetA, offsetB), n);
            var p := Scale(n, ImpulseNorm(a.props, b.props, offsetA, offsetB, n, relVn, e, 1));
            Dot(RelativeVelocity(Kicked(a, Neg(p), offsetA), Kicked(b, p, offsetB), offsetA, offsetB), n)
              == -e * relVn
  {
    var relVn := Dot(RelativeVelocity(a, b, offsetA, offsetB), n);
    var j := ImpulseNorm(a.props, b.props, offsetA, offsetB, n, relVn, e, 1);
    ImpulseResponse(a, b, offsetA, offsetB, n, j);
  }

  /** With a single contact, a friction impulse inside the static cone (the full
      tangential impulse) stops the sliding: the relative contact velocity along the
      tangent becomes zero. */
  lemma StaticFrictionStopsSliding(a: Body, b: Body, offsetA: Vec2, offsetB: Vec2, t: Vec2)
    requires SquaredNorm(t) == 1.0
    requires Denominator(a.props, b.props, offsetA, offsetB, t, 1) != 0.0
    ensures var jt := TangentImpulse(a.props, b.props, offsetA, offsetB, t,
                                     RelativeVelocity(a, b, offsetA, offsetB), 1);
            var f := Scale(t, jt);
            Dot(RelativeVelocity(Kicked(a, Neg(f), offsetA), Kicked(b, f, offsetB), offsetA, offsetB), t) == 0.0
  {
    var jt := TangentImpulse(a.props, b.props, offsetA, offsetB, t, RelativeVelocity(a, b, offsetA, offsetB), 1);
    ImpulseResponse(a, b, offsetA, offsetB, t, jt);
  }

  /** Action and reaction: for two bodies of finite mass, the momentum the line owner
      loses is the momentum the point owner gains (`m_a dv_a + m_b dv_b = 0`). */
  lemma ImpulsePairConservesMomentum(a: Body, b: Body, offsetA: Vec2, offsetB: Vec2, p: Vec2)
    requires a.props.invMass > 0.0 && b.props.invMass > 0.0
    ensures Add(Scale(Sub(Kicked(a, Neg(p), offsetA).velocity, a.velocity), 1.0 / a.props.invMass),
                Scale(Sub(Kicked(b, p, offsetB).velocity, b.velocity), 1.0 / b.props.invMass))
            == Zero
  {
    var ia := a.props.invMass;
    var ib := b.props.invMass;
    assert Sub(Kicked(a, Neg(p), offsetA).velocity, a.velocity) == Vec2(-p.x * ia, -p.y * ia);
    assert Sub(Kicked(b, p, offsetB).velocity, b.velocity) == Vec2(p.x * ib, p.y * ib);
    assert -p.x * ia * (1.0 / ia) == -p.x && -p.y * ia * (1.0 / ia) == -p.y;
    assert p.x * ib * (1.0 / ib) == p.x && p.y * ib * (1.0 / ib) == p.y;
  }
}
