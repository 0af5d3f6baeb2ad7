/** A rigid body built from point-mass samples (`physical_object`): its mass
    properties are folds over the samples, and its pose and velocity are advanced by
    an explicit Euler step from accumulated force and torque. */
module RigidBody {
  import opened Vectors

  /** Simulation length units per metre (`world_scale`). */
  const WorldScale: real := 10.0

  /** One sample the body is built from: a point and the mass placed there. */
  datatype Sample = Sample(point: Vec2, mass: real)

  // ---------------------------------------------------------------------------
  // Folds over the samples, in sample order (each `std::accumulate` of the
  // constructor).

  /** Sum of the sample masses; never negative when no sample mass is. */
  function TotalMass(ps: seq<Sample>): (m: real)
    ensures (forall i :: 0 <= i < |ps| ==> ps[i].mass >= 0.0) ==> m >= 0.0
  {
    if |ps| == 0 then 0.0 else TotalMass(ps[..|ps| - 1]) + ps[|ps| - 1].mass
  }

  /** Sum of `mass * point` over the samples. */
  function MassMoment(ps: seq<Sample>): Vec2 {
    if |ps| == 0 then Zero
    else Add(MassMoment(ps[..|ps| - 1]), Scale(ps[|ps| - 1].point, ps[|ps| - 1].mass))
  }

  /** The mass-weighted mean of the sample points: the point that, carrying the
      total mass, has the samples' mass moment. */
  function CenterOfMass(ps: seq<Sample>): (c: Vec2)
    requires TotalMass(ps) != 0.0
    ensures Scale(c, TotalMass(ps)) == MassMoment(ps)
  {
    var m := TotalMass(ps);
    var mm := MassMoment(ps);
    assert mm.x / m * m == mm.x && mm.y / m * m == mm.y;
    DivBy(mm, m)
  }

  /** The sample points relative to `c`, one per sample, in sample order. */
  function Offsets(ps: seq<Sample>, c: Vec2): (offs: seq<Vec2>)
    ensures |offs| == |ps|
  {
    if |ps| == 0 then [] else Offsets(ps[..|ps| - 1], c) + [Sub(ps[|ps| - 1].point, c)]
  }

  /** Moment of inertia about `c`: the sum of `mass * |point - c|^2`. */
  function InertiaAbout(ps: seq<Sample>, c: Vec2): real {
    if |ps| == 0 then 0.0
    else InertiaAbout(ps[..|ps| - 1], c) + ps[|ps| - 1].mass * SquaredNorm(Sub(ps[|ps| - 1].point, c))
  }

  /** The sum of `mass_i * vs[i]`, pairing each sample's mass with a vector. */
  function MassWeightedSum(ps: seq<Sample>, vs: seq<Vec2>): Vec2
    requires |vs| == |ps|
  {
    if |ps| == 0 then Zero
    else Add(MassWeightedSum(ps[..|ps| - 1], vs[..|vs| - 1]), Scale(vs[|vs| - 1], ps[|ps| - 1].mass))
  }

  // ---------------------------------------------------------------------------
  // What the folds mean.

  /** The folds over the samples add up piecewise: folding two lists one after the
      other gives the sum of their folds. */
  lemma {:induction false} SampleFoldsSplit(ps: seq<Sample>, qs: seq<Sample>)
    ensures TotalMass(ps + qs) == TotalMass(ps) + TotalMass(qs)
    ensures MassMoment(ps + qs) == Add(MassMoment(ps), MassMoment(qs))
    decreases |qs|
  {
    if |qs| == 0 {
      assert ps + qs == ps;
    } else {
      var qs' := qs[..|qs| - 1];
      var q := qs[|qs| - 1];
      var all := ps + qs;
      assert all[..|all| - 1] == ps + qs' && all[|all| - 1] == q;
      SampleFoldsSplit(ps, qs');
      var step := Scale(q.point, q.mass);
      assert MassMoment(all) == Add(MassMoment(ps + qs'), step);
      assert MassMoment(qs) == Add(MassMoment(qs'), step);
      AddRegroup(MassMoment(ps), MassMoment(qs'), step);
    }
  }

  lemma AddRegroup(a: Vec2, b: Vec2, c: Vec2)
    ensures Add(Add(a, b), c) == Add(a, Add(b, c))
  {
  }

  /** A body of a single sample has its centre of mass at that sample, so its
      moment of inertia about the centre of mass is zero. */
  lemma SingleSampleHasNoInertia(s: Sample)
    requires s.mass != 0.0
    ensures TotalMass([s]) != 0.0
    ensures CenterOfMass([s]) == s.point
    ensures InertiaAbout([s], CenterOfMass([s])) == 0.0
  {
    assert [s][..0] == [];
    assert TotalMass([s]) == s.mass;
    assert MassMoment([s]) == Scale(s.point, s.mass);
    var c := CenterOfMass([s]);
    assert Scale(c, s.mass) == Scale(s.point, s.mass);
    CancelScale(c, s.point, s.mass);
    assert Sub(s.point, c) == Zero;
  }

  lemma CancelScale(a: Vec2, b: Vec2, m: real)
    requires m != 0.0 && Scale(a, m) == Scale(b, m)
    ensures a == b
  {
    assert a.x * m == b.x * m && a.y * m == b.y * m;
    assert (a.x - b.x) * m == 0.0 && (a.y - b.y) * m == 0.0;
  }

  /** The i-th offset is the i-th sample point minus `c`. */
  lemma {:induction false} OffsetsAt(ps: seq<Sample>, c: Vec2, i: nat)
    requires i < |ps|
    ensures Offsets(ps, c)[i] == Sub(ps[i].point, c)
  {
    if i < |ps| - 1 {
      OffsetsAt(ps[..|ps| - 1], c, i);
    }
  }

  /** Mass-weighted offsets from any point `c` sum to the mass moment minus `c` times
      the total mass. */
  lemma {:induction false} WeightedOffsets(ps: seq<Sample>, c: Vec2)
    ensures MassWeightedSum(ps, Offsets(ps, c)) == Sub(MassMoment(ps), Scale(c, TotalMass(ps)))
  {
    if |ps| > 0 {
      var init := ps[..|ps| - 1];
      WeightedOffsets(init, c);
      var offs := Offsets(ps, c);
      var last := ps[|ps| - 1];
      assert offs[..|offs| - 1] == Offsets(init, c);
      assert offs[|offs| - 1] == Sub(last.point, c);
      WeightedStep(MassMoment(init), TotalMass(init), last.point, last.mass, c);
    }
  }

  /** Adding one sample of mass `m` at `p` to both sides of the balance. */
  lemma WeightedStep(mm: Vec2, t: real, p: Vec2, m: real, c: Vec2)
    ensures Add(Sub(mm, Scale(c, t)), Scale(Sub(p, c), m)) == Sub(Add(mm, Scale(p, m)), Scale(c, t + m))
  {
    assert (p.x - c.x) * m == p.x * m - c.x * m;
    assert (p.y - c.y) * m == p.y * m - c.y * m;
    assert c.x * (t + m) == c.x * t + c.x * m;
    assert c.y * (t + m) == c.y * t + c.y * m;
  }

  /** The centre of mass is the one point about which the mass-weighted offsets
      balance: the offsets the constructor stores sum to zero when weighted by mass,
      and no other point has that property. */
  lemma CenterOfMassBalances(ps: seq<Sample>, c: Vec2)
    requires TotalMass(ps) != 0.0
    ensures MassWeightedSum(ps, Offsets(ps, c)) == Zero <==> c == CenterOfMass(ps)
  {
    WeightedOffsets(ps, c);
    BalancePoint(MassMoment(ps), TotalMass(ps), c);
  }

  /** `c` balances the moment `mm` of a mass `m` exactly when it is `mm / m`. */
  lemma BalancePoint(mm: Vec2, m: real, c: Vec2)
    requires m != 0.0
    ensures Sub(mm, Scale(c, m)) == Zero <==> c == DivBy(mm, m)
  {
    QuotientIff(mm.x, m, c.x);
    QuotientIff(mm.y, m, c.y);
  }

  /** `q` is the quotient `a / m` exactly when `q * m == a`. */
  lemma QuotientIff(a: real, m: real, q: real)
    requires m != 0.0
    ensures a - q * m == 0.0 <==> q == a / m
  {
    if q == a / m {
      assert q * m == a;
    }
  }

  /** The moment of inertia is the mass-weighted sum of the squared lengths of the
      stored offsets. */
  lemma {:induction false} InertiaFromOffsets(ps: seq<Sample>, c: Vec2)
    ensures InertiaAbout(ps, c) == MassSquaredLengths(ps, Offsets(ps, c))
  {
    if |ps| > 0 {
      var init := ps[..|ps| - 1];
      InertiaFromOffsets(init, c);
      var offs := Offsets(ps, c);
      assert offs == Offsets(init, c) + [Sub(ps[|ps| - 1].point, c)];
      assert offs[..|offs| - 1] == Offsets(init, c);
      assert offs[|offs| - 1] == Sub(ps[|ps| - 1].point, c);
    }
  }

  /** The sum of `mass_i * |vs[i]|^2`. */
  function MassSquaredLengths(ps: seq<Sample>, vs: seq<Vec2>): real
    requires |vs| == |ps|
  {
    if |ps| == 0 then 0.0
    else MassSquaredLengths(ps[..|ps| - 1], vs[..|vs| - 1]) + ps[|ps| - 1].mass * SquaredNorm(vs[|vs| - 1])
  }

  // ---------------------------------------------------------------------------
  // Velocity of a point of the body.

  /** Velocity of a point at offset `o` from the centre of mass of a body moving with
      linear velocity `v` and angular velocity `w`: `v + w x o`. */
  function VertexVelocity(v: Vec2, w: real, o: Vec2): (r: Vec2)
    ensures Dot(Sub(r, v), o) == 0.0
    ensures SquaredNorm(Sub(r, v)) == w * w * SquaredNorm(o)
    ensures Cross(o, Sub(r, v)) == w * SquaredNorm(o)
  {
    Add(v, Vec2(-w * o.y, w * o.x))
  }

  /** The per-vertex velocity as `update` computes it, given the rotated offset `o`
      and its length `len` (which the source obtains with a square root):
      `v + (|o| w) * (o.y, o.x) / |o|`. */
  function VertexVelocityAsWritten(v: Vec2, w: real, o: Vec2, len: real): (r: Vec2)
    requires len > 0.0 && len * len == SquaredNorm(o)
    ensures r == Add(v, Vec2(w * o.y, w * o.x))
    ensures Dot(Sub(r, v), o) == 2.0 * w * o.x * o.y
  {
    assert len * w * (o.y / len) == w * o.y && len * w * (o.x / len) == w * o.x;
    var velocityNorm := len * w;
    var normalized := DivBy(o, len);
    Add(v, Vec2(velocityNorm * normalized.y, velocityNorm * normalized.x))
  }

  /** The per-vertex velocity as written is not a rigid rotation: for a body spinning
      in place at unit rate, the vertex at offset (3, 4) is given velocity (4, 3), which
      has a component along the offset, while `VertexVelocity` gives (-4, 3). */
  lemma VertexVelocityAsWrittenNotTangential()
    ensures VertexVelocityAsWritten(Zero, 1.0, Vec2(3.0, 4.0), 5.0) == Vec2(4.0, 3.0)
    ensures Dot(Vec2(4.0, 3.0), Vec2(3.0, 4.0)) != 0.0
    ensures VertexVelocity(Zero, 1.0, Vec2(3.0, 4.0)) == Vec2(-4.0, 3.0)
  {
    var o := Vec2(3.0, 4.0);
    assert DivBy(o, 5.0) == Vec2(0.6, 0.8);
  }

  /** The constructor's loop over the samples: each sample's offset from `com`, and
      the sum of mass times squared offset length. */
  method OffsetsAndInertia(points: seq<Sample>, com: Vec2) returns (offs: seq<Vec2>, inertia: real)
    ensures offs == Offsets(points, com)
    ensures inertia == InertiaAbout(points, com)
  {
    offs := [];
    inertia := 0.0;
    var i := 0;
    while i < |points|
      invariant 0 <= i <= |points|
      invariant offs == Offsets(points[..i], com)
      invariant inertia == InertiaAbout(points[..i], com)
    {
      assert points[..i + 1][..i] == points[..i];
      var offset := Sub(points[i].point, com);
      offs := offs + [offset];
      inertia := inertia + points[i].mass * SquaredNorm(offset);
      i := i + 1;
    }
    assert points[..|points|] == points;
  }

  // ---------------------------------------------------------------------------
  // The body.

  class PhysicalObject {
    var position: Vec2
    /** The rotation angle; the source keeps it as a `Rotation2D`. */
    var rotation: real
    var velocity: Vec2
    var force: Vec2
    var torque: real
    var angularMomentum: real
    var angularVelocity: real

    const mass: real
    const centerOfMass: Vec2
    const offsets: seq<Vec2>
    const inverseInertia: real

    ghost predicate Valid()
      reads this
    {
      mass != 0.0
    }

    /** Builds the body from its samples: total mass, centre of mass, the offsets of
        the samples from it, and the inverse of the moment of inertia about it. */
    constructor (position: Vec2, points: seq<Sample>)
      requires TotalMass(points) != 0.0
      requires InertiaAbout(points, CenterOfMass(points)) != 0.0
      ensures Valid()
      ensures mass == TotalMass(points)
      ensures centerOfMass == CenterOfMass(points)
      ensures offsets == Offsets(points, centerOfMass)
      ensures inverseInertia == 1.0 / InertiaAbout(points, centerOfMass)
      ensures this.position == position && rotation == 0.0 && velocity == Zero
      ensures force == Zero && torque == 0.0
      ensures angularMomentum == 0.0 && angularVelocity == 0.0
    {
      var m := TotalMass(points);
      var com := DivBy(MassMoment(points), m);
      var offs, inertia := OffsetsAndInertia(points, com);
      this.position := position;
      rotation := 0.0;
      velocity := Zero;
      force := Zero;
      torque := 0.0;
      angularMomentum := 0.0;
      mass := m;
      centerOfMass := com;
      offsets := offs;
      inverseInertia := 1.0 / inertia;
      angularVelocity := 1.0 / inertia * 0.0;
    }

    /** Adds the force that gives the whole body acceleration `acceleration`. */
    method Accelerate(acceleration: Vec2)
      modifies this`force
      ensures force == Add(old(force), Scale(acceleration, mass))
    {
      force := Add(force, Scale(acceleration, mass));
    }

    /** As `Accelerate`, and adds the torque of that force applied at `point`. */
    method AccelerateAt(point: Vec2, acceleration: Vec2)
      modifies this`force, this`torque
      ensures force == Add(old(force), Scale(acceleration, mass))
      ensures torque == old(torque) + Cross(Sub(point, centerOfMass), Scale(acceleration, mass))
    {
      Accelerate(acceleration);
      var offset := Sub(point, centerOfMass);
      var f := Scale(acceleration, mass);
      torque := torque + (offset.x * f.y - f.x * offset.y);
    }

    /** One Euler step of length `dt`: the position moves with the velocity from before
        the step, velocity and angle change with the accumulated force and the
        angular velocity from before the step, the angular momentum takes up the
        torque, and both accumulators are cleared. */
    method Update(dt: real)
      requires Valid()
      modifies this`position, this`velocity, this`rotation, this`angularMomentum,
               this`angularVelocity, this`force, this`torque
      ensures Valid()
      ensures position == Add(old(position), Scale(old(velocity), dt))
      ensures velocity == Add(old(velocity), Scale(Scale(DivBy(old(force), mass), dt), WorldScale))
      ensures rotation == old(rotation) + old(angularVelocity) * dt * WorldScale
      ensures angularMomentum == old(angularMomentum) + old(torque) * dt
      ensures angularVelocity == inverseInertia * angularMomentum
      ensures force == Zero && torque == 0.0
      ensures old(force) == Zero ==> velocity == old(velocity)
      ensures old(torque) == 0.0 ==> angularMomentum == old(angularMomentum)
    {
      position := Add(position, Scale(velocity, dt));
      velocity := Add(velocity, Scale(Scale(DivBy(force, mass), dt), WorldScale));
      rotation := rotation + angularVelocity * dt * WorldScale;
      angularMomentum := angularMomentum + torque * dt;
      angularVelocity := inverseInertia * angularMomentum;
      force := Zero;
      torque := 0.0;
    }
  }
}
