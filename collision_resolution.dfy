/** The two passes over the contact list (`collision_resolution` and
    `correct_positions`). Bodies live in an array and contacts name them by index.
    Each contact is turned into a short list of nudges (an impulse at an offset, or a
    translation) that depend only on the contact record and on the bodies' inverse
    masses and inertias, which neither pass changes; each pass applies the nudges of
    the contacts in list order. */
module CollisionResolution {
  import opened Vectors
  import opened ContactImpulse

  /** Penetration depth that position correction leaves alone. */
  const Slop: real := 0.05
  /** Fraction of the remaining penetration removed per pass. */
  const Percent: real := 0.3

  /** One contact from the detection stage. `lineOwner` contributes the edge and
      `pointOwner` the penetrating vertex; `normal` is the unit contact normal;
      `lineOffset` and `pointOffset` are the contact point's offsets from the two
      centres of mass; `relVelocity` is the point owner's contact-point velocity minus
      the line owner's, frozen when the contact was detected. `tangent` is the unit
      direction of `relVelocity` minus its normal component, which the solver would
      obtain with a square root. */
  datatype Contact = Contact(lineOwner: nat, pointOwner: nat, normal: Vec2, tangent: Vec2,
                             depth: real, lineOffset: Vec2, pointOffset: Vec2, relVelocity: Vec2)

  // ---------------------------------------------------------------------------
  // Contacts that share a body pair.

  /** `c` joins bodies `a` and `b`, in either role. */
  predicate SamePair(c: Contact, a: nat, b: nat) {
    (c.pointOwner == b && c.lineOwner == a) || (c.pointOwner == a && c.lineOwner == b)
  }

  /** How many contacts of `cs` join `a` and `b`. */
  function PairCount(cs: seq<Contact>, a: nat, b: nat): (k: nat)
    ensures k <= |cs|
  {
    if |cs| == 0 then 0
    else PairCount(cs[..|cs| - 1], a, b) + (if SamePair(cs[|cs| - 1], a, b) then 1 else 0)
  }

  /** A contact always counts itself, so the count of its own pair is at least one. */
  lemma {:induction false} PairCountCountsItself(cs: seq<Contact>, i: nat)
    requires i < |cs|
    ensures PairCount(cs, cs[i].lineOwner, cs[i].pointOwner) >= 1
  {
    if i < |cs| - 1 {
      PairCountCountsItself(cs[..|cs| - 1], i);
    }
  }

  lemma PairCountOfMember(cs: seq<Contact>, c: Contact)
    requires c in cs
    ensures PairCount(cs, c.lineOwner, c.pointOwner) >= 1
  {
    var i :| 0 <= i < |cs| && cs[i] == c;
    PairCountCountsItself(cs, i);
  }

  /** The pair is unordered: the roles of the two bodies do not matter. */
  lemma {:induction false} PairCountUnordered(cs: seq<Contact>, a: nat, b: nat)
    ensures PairCount(cs, a, b) == PairCount(cs, b, a)
  {
    if |cs| > 0 {
      PairCountUnordered(cs[..|cs| - 1], a, b);
    }
  }

  /** The `count_if` over the whole contact list. */
  method CountContactPoints(contacts: seq<Contact>, a: nat, b: nat) returns (k: nat)
    ensures k == PairCount(contacts, a, b)
  {
    k := 0;
    var i := 0;
    while i < |contacts|
      invariant 0 <= i <= |contacts|
      invariant k == PairCount(contacts[..i], a, b)
    {
      assert contacts[..i + 1][..i] == contacts[..i];
      if SamePair(contacts[i], a, b) {
        k := k + 1;
      }
      i := i + 1;
    }
    assert contacts[..|contacts|] == contacts;
  }

  // ---------------------------------------------------------------------------
  // Nudges: the additive changes the passes make to one body.

  datatype Nudge =
    | Impulse(body: nat, impulse: Vec2, offset: Vec2)
    | Shift(body: nat, delta: Vec2)

  function Nudged(b: Body, u: Nudge): Body {
    match u
    case Impulse(_, p, r) => Kicked(b, p, r)
    case Shift(_, d) => Shifted(b, d)
  }

  /** Two nudges of one body give the same body in either order. */
  lemma NudgedCommute(b: Body, u: Nudge, v: Nudge)
    ensures Nudged(Nudged(b, u), v) == Nudged(Nudged(b, v), u)
  {
  }

  predicate NudgesFit(us: seq<Nudge>, n: nat) {
    forall i :: 0 <= i < |us| ==> us[i].body < n
  }

  /** The two sequences have the same length and the same mass properties everywhere. */
  ghost predicate SameProps(bs: seq<Body>, bs': seq<Body>) {
    |bs| == |bs'| && forall i :: 0 <= i < |bs| ==> bs[i].props == bs'[i].props
  }

  function ApplyNudge(bs: seq<Body>, u: Nudge): seq<Body>
    requires u.body < |bs|
  {
    bs[u.body := Nudged(bs[u.body], u)]
  }

  /** The bodies after the nudges `us`, applied in order. No nudge changes a mass
      property. */
  function ApplyNudges(bs: seq<Body>, us: seq<Nudge>): (r: seq<Body>)
    requires NudgesFit(us, |bs|)
    ensures SameProps(bs, r)
    decreases |us|
  {
    if |us| == 0 then bs else ApplyNudges(ApplyNudge(bs, us[0]), us[1..])
  }

  lemma ApplyTwo(bs: seq<Body>, u: Nudge, v: Nudge)
    requires u.body < |bs| && v.body < |bs|
    ensures NudgesFit([u, v], |bs|)
    ensures ApplyNudges(bs, [u, v]) == ApplyNudge(ApplyNudge(bs, u), v)
  {
    assert [u, v][0] == u && [u, v][1..] == [v];
    var bs1 := ApplyNudge(bs, u);
    assert ApplyNudges(bs, [u, v]) == ApplyNudges(bs1, [v]);
    assert [v][0] == v && [v][1..] == [];
    assert ApplyNudges(bs1, [v]) == ApplyNudges(ApplyNudge(bs1, v), []);
  }

  lemma {:induction false} ApplyNudgesAppend(bs: seq<Body>, us: seq<Nudge>, vs: seq<Nudge>)
    requires NudgesFit(us, |bs|) && NudgesFit(vs, |bs|)
    ensures NudgesFit(us + vs, |bs|)
    ensures ApplyNudges(bs, us + vs) == ApplyNudges(ApplyNudges(bs, us), vs)
    decreases |us|
  {
    if |us| == 0 {
      assert us + vs == vs;
    } else {
      assert (us + vs)[0] == us[0];
      assert (us + vs)[1..] == us[1..] + vs;
      ApplyNudgesAppend(ApplyNudge(bs, us[0]), us[1..], vs);
    }
  }

  lemma NudgeCommute(bs: seq<Body>, u: Nudge, v: Nudge)
    requires u.body < |bs| && v.body < |bs|
    ensures ApplyNudge(ApplyNudge(bs, u), v) == ApplyNudge(ApplyNudge(bs, v), u)
  {
    if u.body == v.body {
      NudgedCommute(bs[u.body], u, v);
    } else {
      var l := ApplyNudge(ApplyNudge(bs, u), v);
      var r := ApplyNudge(ApplyNudge(bs, v), u);
      assert forall i :: 0 <= i < |bs| ==> l[i] == r[i];
    }
  }

  /** One nudge can be moved past a whole list of nudges. */
  lemma {:induction false} NudgeCommutesWithList(bs: seq<Body>, u: Nudge, vs: seq<Nudge>)
    requires u.body < |bs| && NudgesFit(vs, |bs|)
    ensures ApplyNudges(ApplyNudge(bs, u), vs) == ApplyNudge(ApplyNudges(bs, vs), u)
    decreases |vs|
  {
    if |vs| > 0 {
      NudgeCommute(bs, u, vs[0]);
      NudgeCommutesWithList(ApplyNudge(bs, vs[0]), u, vs[1..]);
    }
  }

  /** Two lists of nudges give the same bodies in either order. */
  lemma {:induction false} NudgeListsCommute(bs: seq<Body>, us: seq<Nudge>, vs: seq<Nudge>)
    requires NudgesFit(us, |bs|) && NudgesFit(vs, |bs|)
    ensures ApplyNudges(ApplyNudges(bs, us), vs) == ApplyNudges(ApplyNudges(bs, vs), us)
    decreases |us|
  {
    if |us| > 0 {
      var bs1 := ApplyNudge(bs, us[0]);
      NudgeListsCommute(bs1, us[1..], vs);
      NudgeCommutesWithList(bs, us[0], vs);
    }
  }

  // ---------------------------------------------------------------------------
  // The nudges of one contact.

  /** `apply_impulse`: `-impulse` to the line owner at its offset and `+impulse` to the
      point owner at its offset. */
  function ImpulsePair(a: nat, b: nat, offsetA: Vec2, offsetB: Vec2, impulse: Vec2): seq<Nudge> {
    [Impulse(a, Neg(impulse), offsetA), Impulse(b, impulse, offsetB)]
  }

  datatype Pass = Resolve(dt: real) | Correct

  /** What `collision_resolution` asserts of a contact: both bodies exist and, when
      they approach, both effective-mass denominators are non-zero and the normal
      impulse is within its sanity bound. */
  predicate ResolveAdmissible(bs: seq<Body>, all: seq<Contact>, c: Contact, dt: real) {
    c.lineOwner < |bs| && c.pointOwner < |bs| &&
    var ma := bs[c.lineOwner].props;
    var mb := bs[c.pointOwner].props;
    var k := PairCount(all, c.lineOwner, c.pointOwner);
    var relVn := Dot(c.relVelocity, c.normal);
    relVn <= 0.0 ==>
      Denominator(ma, mb, c.lineOffset, c.pointOffset, c.normal, k) != 0.0 &&
      Denominator(ma, mb, c.lineOffset, c.pointOffset, c.tangent, k) != 0.0 &&
      Abs(ImpulseNorm(ma, mb, c.lineOffset, c.pointOffset, c.normal, relVn,
                      Restitution(c.relVelocity, dt), k)) < ImpulseBound
  }

  /** What `correct_positions` needs of a contact: both bodies exist and their inverse
      masses do not sum to zero. */
  predicate CorrectAdmissible(bs: seq<Body>, c: Contact) {
    c.lineOwner < |bs| && c.pointOwner < |bs| &&
    bs[c.lineOwner].props.invMass + bs[c.pointOwner].props.invMass != 0.0
  }

  predicate Admissible(pass: Pass, bs: seq<Body>, all: seq<Contact>, c: Contact) {
    match pass
    case Resolve(dt) => ResolveAdmissible(bs, all, c, dt)
    case Correct => CorrectAdmissible(bs, c)
  }

  /** The impulses of one contact in `collision_resolution`: none when the bodies
      separate; otherwise the normal impulse `j * n` and then the friction impulse,
      each as an action/reaction pair on the line owner and the point owner. */
  function ResolutionNudges(bs: seq<Body>, all: seq<Contact>, c: Contact, dt: real): (us: seq<Nudge>)
    requires ResolveAdmissible(bs, all, c, dt)
    ensures NudgesFit(us, |bs|)
    ensures forall i :: 0 <= i < |us| ==> us[i].Impulse?
    ensures forall i :: 0 <= i < |us| ==> us[i].body == c.lineOwner || us[i].body == c.pointOwner
    ensures Dot(c.relVelocity, c.normal) > 0.0 ==> us == []
  {
    var n := c.normal;
    var relVn := Dot(c.relVelocity, n);
    if relVn > 0.0 then []
    else
      var a := c.lineOwner;
      var b := c.pointOwner;
      var k := PairCount(all, a, b);
      var e := Restitution(c.relVelocity, dt);
      var j := ImpulseNorm(bs[a].props, bs[b].props, c.lineOffset, c.pointOffset, n, relVn, e, k);
      var friction := FrictionImpulse(bs[a].props, bs[b].props, c.lineOffset, c.pointOffset,
                                      c.tangent, c.relVelocity, j, k);
      ImpulsePair(a, b, c.lineOffset, c.pointOffset, Scale(n, j))
        + ImpulsePair(a, b, c.lineOffset, c.pointOffset, friction)
  }

  /** The correction of one contact in `correct_positions`: with
      `corr = max(depth - Slop, 0) / (invMass_a + invMass_b) * Percent * n` and `k` the
      pair count, the line owner moves by `-invMass_a * corr / k` and the point owner
      by `invMass_b * corr / k`. */
  function CorrectionVector(c: Contact, ia: real, ib: real): Vec2
    requires ia + ib != 0.0
  {
    Scale(c.normal, Max(c.depth - Slop, 0.0) / (ia + ib) * Percent)
  }

  function CorrectionNudges(bs: seq<Body>, all: seq<Contact>, c: Contact): (us: seq<Nudge>)
    requires c in all && CorrectAdmissible(bs, c)
    ensures NudgesFit(us, |bs|)
    ensures forall i :: 0 <= i < |us| ==> us[i].Shift?
    ensures forall i :: 0 <= i < |us| ==> us[i].body == c.lineOwner || us[i].body == c.pointOwner
  {
    var a := c.lineOwner;
    var b := c.pointOwner;
    PairCountOfMember(all, c);
    var k := PairCount(all, a, b);
    var ia := bs[a].props.invMass;
    var ib := bs[b].props.invMass;
    var correction := CorrectionVector(c, ia, ib);
    [Shift(a, DivBy(Scale(correction, -ia), k as real)), Shift(b, DivBy(Scale(correction, ib), k as real))]
  }

  function PassNudges(pass: Pass, bs: seq<Body>, all: seq<Contact>, c: Contact): (us: seq<Nudge>)
    requires c in all && Admissible(pass, bs, all, c)
    ensures NudgesFit(us, |bs|)
  {
    match pass
    case Resolve(dt) => ResolutionNudges(bs, all, c, dt)
    case Correct => CorrectionNudges(bs, all, c)
  }

  /** A contact's admissibility and nudges depend on the bodies only through their
      mass properties. */
  lemma NudgesDependOnMassOnly(pass: Pass, bs: seq<Body>, bs': seq<Body>, all: seq<Contact>, c: Contact)
    requires SameProps(bs, bs')
    requires c in all && Admissible(pass, bs, all, c)
    ensures Admissible(pass, bs', all, c)
    ensures PassNudges(pass, bs', all, c) == PassNudges(pass, bs, all, c)
  {
    assert bs'[c.lineOwner].props == bs[c.lineOwner].props;
    assert bs'[c.pointOwner].props == bs[c.pointOwner].props;
  }

  // ---------------------------------------------------------------------------
  // A whole pass.

  ghost predicate AllAdmissible(pass: Pass, bs: seq<Body>, all: seq<Contact>, order: seq<Contact>) {
    forall c :: c in order ==> c in all && Admissible(pass, bs, all, c)
  }

  /** The bodies after a pass that handles the contacts of `order` in turn, counting
      pairs over `all`. */
  function Fold(pass: Pass, bs: seq<Body>, all: seq<Contact>, order: seq<Contact>): (r: seq<Body>)
    requires AllAdmissible(pass, bs, all, order)
    ensures SameProps(bs, r)
  {
    if |order| == 0 then bs
    else
      var init := order[..|order| - 1];
      var c := order[|order| - 1];
      assert forall x :: x in init ==> x in order;
      var prev := Fold(pass, bs, all, init);
      NudgesDependOnMassOnly(pass, bs, prev, all, c);
      ApplyNudges(prev, PassNudges(pass, prev, all, c))
  }

  lemma FoldStep(pass: Pass, bs: seq<Body>, all: seq<Contact>, order: seq<Contact>, c: Contact)
    requires AllAdmissible(pass, bs, all, order + [c])
    ensures AllAdmissible(pass, bs, all, order)
    ensures var prev := Fold(pass, bs, all, order);
            c in all && Admissible(pass, prev, all, c) &&
            Fold(pass, bs, all, order + [c]) == ApplyNudges(prev, PassNudges(pass, prev, all, c))
  {
    var s := order + [c];
    assert s[..|s| - 1] == order;
    assert c in s;
    NudgesDependOnMassOnly(pass, bs, Fold(pass, bs, all, order), all, c);
  }

  /** `bs` is what a pass over all of `all` leaves after its first `i` contacts. */
  ghost predicate PassedPrefix(pass: Pass, start: seq<Body>, all: seq<Contact>, i: nat, bs: seq<Body>) {
    i <= |all| && AllAdmissible(pass, start, all, all[..i]) && bs == Fold(pass, start, all, all[..i])
  }

  /** Handling contact `i` extends the prefix by one. */
  lemma PassStep(pass: Pass, start: seq<Body>, all: seq<Contact>, i: nat, bs: seq<Body>)
    requires AllAdmissible(pass, start, all, all) && i < |all| && PassedPrefix(pass, start, all, i, bs)
    ensures all[i] in all && Admissible(pass, bs, all, all[i])
    ensures PassedPrefix(pass, start, all, i + 1, ApplyNudges(bs, PassNudges(pass, bs, all, all[i])))
  {
    assert all[..i + 1] == all[..i] + [all[i]];
    FoldStep(pass, start, all, all[..i], all[i]);
  }

  /** Order does not matter: exchanging two neighbouring contacts anywhere in the
      processing order gives the same bodies. `FoldPermutation` extends this to
      every reordering. */
  lemma {:induction false} FoldOrderIndependent(pass: Pass, bs: seq<Body>, all: seq<Contact>,
                                                xs: seq<Contact>, c1: Contact, c2: Contact, ys: seq<Contact>)
    requires AllAdmissible(pass, bs, all, xs + [c1, c2] + ys)
    ensures AllAdmissible(pass, bs, all, xs + [c2, c1] + ys)
    ensures Fold(pass, bs, all, xs + [c1, c2] + ys) == Fold(pass, bs, all, xs + [c2, c1] + ys)
    decreases |ys|
  {
    var s1 := xs + [c1, c2] + ys;
    var s2 := xs + [c2, c1] + ys;
    assert forall x :: x in s2 ==> x in s1;
    if |ys| == 0 {
      assert s1 == (xs + [c1]) + [c2];
      assert s2 == (xs + [c2]) + [c1];
      FoldStep(pass, bs, all, xs + [c1], c2);
      FoldStep(pass, bs, all, xs, c1);
      FoldStep(pass, bs, all, xs + [c2], c1);
      FoldStep(pass, bs, all, xs, c2);
      var f := Fold(pass, bs, all, xs);
      var n1 := PassNudges(pass, f, all, c1);
      var n2 := PassNudges(pass, f, all, c2);
      NudgesDependOnMassOnly(pass, f, ApplyNudges(f, n1), all, c2);
      NudgesDependOnMassOnly(pass, f, ApplyNudges(f, n2), all, c1);
      NudgeListsCommute(f, n1, n2);
    } else {
      var ys' := ys[..|ys| - 1];
      var y := ys[|ys| - 1];
      assert s1 == (xs + [c1, c2] + ys') + [y];
      assert s2 == (xs + [c2, c1] + ys') + [y];
      FoldStep(pass, bs, all, xs + [c1, c2] + ys', y);
      FoldStep(pass, bs, all, xs + [c2, c1] + ys', y);
      FoldOrderIndependent(pass, bs, all, xs, c1, c2, ys');
    }
  }

  /** A contact can be moved past all the contacts after it. */
  lemma {:induction false} MoveToEnd(pass: Pass, bs: seq<Body>, all: seq<Contact>,
                                     xs: seq<Contact>, c: Contact, ys: seq<Contact>)
    requires AllAdmissible(pass, bs, all, xs + [c] + ys)
    ensures AllAdmissible(pass, bs, all, xs + ys + [c])
    ensures Fold(pass, bs, all, xs + [c] + ys) == Fold(pass, bs, all, xs + ys + [c])
    decreases |ys|
  {
    if |ys| == 0 {
      assert xs + [c] + ys == xs + ys + [c];
    } else {
      var y := ys[0];
      var ys' := ys[1..];
      assert ys == [y] + ys';
      MoveShapes(xs, c, y, ys');
      FoldOrderIndependent(pass, bs, all, xs, c, y, ys');
      MoveToEnd(pass, bs, all, xs + [y], c, ys');
    }
  }

  /** The sequence identities behind `MoveToEnd`. */
  lemma MoveShapes<T>(xs: seq<T>, c: T, y: T, ys': seq<T>)
    ensures xs + [c] + ([y] + ys') == xs + [c, y] + ys'
    ensures xs + [y, c] + ys' == (xs + [y]) + [c] + ys'
    ensures xs + ([y] + ys') + [c] == (xs + [y]) + ys' + [c]
  {
  }

  /** Order does not matter at all: a pass over any reordering of the same contacts
      gives the same bodies. */
  lemma {:induction false} FoldPermutation(pass: Pass, bs: seq<Body>, all: seq<Contact>,
                                           s: seq<Contact>, t: seq<Contact>)
    requires AllAdmissible(pass, bs, all, s)
    requires multiset(s) == multiset(t)
    ensures AllAdmissible(pass, bs, all, t)
    ensures Fold(pass, bs, all, s) == Fold(pass, bs, all, t)
    decreases |t|
  {
    if |t| == 0 {
      assert |s| == |multiset(s)| == 0;
    } else {
      var t' := t[..|t| - 1];
      var c := t[|t| - 1];
      assert t == t' + [c];
      var xs, ys := PickOut(s, t', c);
      MoveToEnd(pass, bs, all, xs, c, ys);
      FoldStep(pass, bs, all, xs + ys, c);
      FoldPermutation(pass, bs, all, xs + ys, t');
      assert c in s;
      FoldStep(pass, bs, all, t', c);
    }
  }

  /** Where `s` holds the elements of `t' + [c]`, `s` is `c` set between two parts
      that together hold the elements of `t'`. */
  lemma PickOut<T>(s: seq<T>, t': seq<T>, c: T) returns (xs: seq<T>, ys: seq<T>)
    requires multiset(s) == multiset(t' + [c])
    ensures s == xs + [c] + ys
    ensures multiset(xs + ys) == multiset(t')
  {
    assert c in multiset(s);
    var i :| 0 <= i < |s| && s[i] == c;
    xs, ys := s[..i], s[i + 1..];
    assert s == xs + [c] + ys;
    assert multiset(s) == multiset(xs + ys) + multiset{c};
    assert multiset(t' + [c]) == multiset(t') + multiset{c};
    assert forall x :: multiset(xs + ys)[x] == multiset(t')[x] by {
      forall x ensures multiset(xs + ys)[x] == multiset(t')[x] {
        assert (multiset(xs + ys) + multiset{c})[x] == (multiset(t') + multiset{c})[x];
      }
    }
  }

  // ---------------------------------------------------------------------------
  // What each pass changes.

  lemma {:induction false} ImpulsesKeepPositions(bs: seq<Body>, us: seq<Nudge>)
    requires NudgesFit(us, |bs|)
    requires forall i :: 0 <= i < |us| ==> us[i].Impulse?
    ensures forall i :: 0 <= i < |bs| ==> ApplyNudges(bs, us)[i].position == bs[i].position
    decreases |us|
  {
    if |us| > 0 {
      ImpulsesKeepPositions(ApplyNudge(bs, us[0]), us[1..]);
    }
  }

  lemma {:induction false} ShiftsKeepVelocities(bs: seq<Body>, us: seq<Nudge>)
    requires NudgesFit(us, |bs|)
    requires forall i :: 0 <= i < |us| ==> us[i].Shift?
    ensures forall i :: 0 <= i < |bs| ==>
              ApplyNudges(bs, us)[i].velocity == bs[i].velocity &&
              ApplyNudges(bs, us)[i].angularVelocity == bs[i].angularVelocity
    decreases |us|
  {
    if |us| > 0 {
      ShiftsKeepVelocities(ApplyNudge(bs, us[0]), us[1..]);
    }
  }

  /** Collision resolution changes velocities only: no body moves. */
  lemma {:induction false} ResolutionKeepsPositions(bs: seq<Body>, all: seq<Contact>, order: seq<Contact>, dt: real)
    requires AllAdmissible(Resolve(dt), bs, all, order)
    ensures forall i :: 0 <= i < |bs| ==> Fold(Resolve(dt), bs, all, order)[i].position == bs[i].position
  {
    if |order| > 0 {
      var init := order[..|order| - 1];
      var c := order[|order| - 1];
      assert order == init + [c];
      FoldStep(Resolve(dt), bs, all, init, c);
      ResolutionKeepsPositions(bs, all, init, dt);
      var prev := Fold(Resolve(dt), bs, all, init);
      ImpulsesKeepPositions(prev, ResolutionNudges(prev, all, c, dt));
    }
  }

  /** Position correction changes positions only: no velocity or angular velocity
      changes. */
  lemma {:induction false} CorrectionKeepsVelocities(bs: seq<Body>, all: seq<Contact>, order: seq<Contact>)
    requires AllAdmissible(Correct, bs, all, order)
    ensures forall i :: 0 <= i < |bs| ==>
              Fold(Correct, bs, all, order)[i].velocity == bs[i].velocity &&
              Fold(Correct, bs, all, order)[i].angularVelocity == bs[i].angularVelocity
  {
    if |order| > 0 {
      var init := order[..|order| - 1];
      var c := order[|order| - 1];
      assert order == init + [c];
      FoldStep(Correct, bs, all, init, c);
      CorrectionKeepsVelocities(bs, all, init);
      var prev := Fold(Correct, bs, all, init);
      ShiftsKeepVelocities(prev, CorrectionNudges(prev, all, c));
    }
  }

  /** The two shifts of one contact's correction, written out. */
  lemma CorrectionShape(bs: seq<Body>, all: seq<Contact>, c: Contact)
    requires c in all && CorrectAdmissible(bs, c)
    ensures PairCount(all, c.lineOwner, c.pointOwner) >= 1
    ensures var ia := bs[c.lineOwner].props.invMass;
            var ib := bs[c.pointOwner].props.invMass;
            var corr := CorrectionVector(c, ia, ib);
            var k := PairCount(all, c.lineOwner, c.pointOwner) as real;
            CorrectionNudges(bs, all, c)
              == [Shift(c.lineOwner, DivBy(Scale(corr, -ia), k)), Shift(c.pointOwner, DivBy(Scale(corr, ib), k))]
  {
    PairCountOfMember(all, c);
  }

  /** Where a shift leaves the position of body `i`. */
  lemma ShiftedPositionAt(bs: seq<Body>, u: Nudge, i: nat)
    requires u.Shift? && u.body < |bs| && i < |bs|
    ensures ApplyNudge(bs, u)[i].position == if u.body == i then Add(bs[i].position, u.delta) else bs[i].position
  {
  }

  /** A static body (inverse mass 0) is never moved by one contact's correction. */
  lemma StaticBodyNotShifted(bs: seq<Body>, all: seq<Contact>, c: Contact, i: nat)
    requires c in all && CorrectAdmissible(bs, c)
    requires i < |bs| && bs[i].props.invMass == 0.0
    ensures ApplyNudges(bs, CorrectionNudges(bs, all, c))[i].position == bs[i].position
  {
    CorrectionShape(bs, all, c);
    var us := CorrectionNudges(bs, all, c);
    var u := us[0];
    var v := us[1];
    ApplyTwo(bs, u, v);
    var bs1 := ApplyNudge(bs, u);
    ShiftedPositionAt(bs, u, i);
    ShiftedPositionAt(bs1, v, i);
    if u.body == i {
      StaticShiftIsZero(CorrectionVector(c, 0.0, bs[c.pointOwner].props.invMass), -0.0, PairCount(all, c.lineOwner, c.pointOwner) as real);
    }
    if v.body == i {
      StaticShiftIsZero(CorrectionVector(c, bs[c.lineOwner].props.invMass, 0.0), 0.0, PairCount(all, c.lineOwner, c.pointOwner) as real);
    }
  }

  /** A zero scale or a zero vector gives a zero shift. */
  lemma StaticShiftIsZero(corr: Vec2, w: real, k: real)
    requires (w == 0.0 || corr == Zero) && k != 0.0
    ensures DivBy(Scale(corr, w), k) == Zero
  {
  }

  /** Position correction never moves a static body. */
  lemma {:induction false} StaticBodyNeverMoves(bs: seq<Body>, all: seq<Contact>, order: seq<Contact>, i: nat)
    requires AllAdmissible(Correct, bs, all, order)
    requires i < |bs| && bs[i].props.invMass == 0.0
    ensures Fold(Correct, bs, all, order)[i].position == bs[i].position
  {
    if |order| > 0 {
      var init := order[..|order| - 1];
      var c := order[|order| - 1];
      assert order == init + [c];
      FoldStep(Correct, bs, all, init, c);
      StaticBodyNeverMoves(bs, all, init, i);
      var prev := Fold(Correct, bs, all, init);
      StaticBodyNotShifted(prev, all, c, i);
    }
  }

  /** A contact no deeper than the slop moves nothing. */
  lemma ShallowContactNotCorrected(bs: seq<Body>, all: seq<Contact>, c: Contact)
    requires c in all && CorrectAdmissible(bs, c)
    requires c.depth <= Slop
    ensures ApplyNudges(bs, CorrectionNudges(bs, all, c)) == bs
  {
    var us := CorrectionNudges(bs, all, c);
    assert us == [Shift(c.lineOwner, Zero), Shift(c.pointOwner, Zero)] by {
      CorrectionShape(bs, all, c);
      var ia := bs[c.lineOwner].props.invMass;
      var ib := bs[c.pointOwner].props.invMass;
      var k := PairCount(all, c.lineOwner, c.pointOwner) as real;
      assert CorrectionVector(c, ia, ib) == Zero;
      StaticShiftIsZero(Zero, -ia, k);
      StaticShiftIsZero(Zero, ib, k);
    }
    ApplyTwo(bs, us[0], us[1]);
    assert ApplyNudge(bs, us[0]) == bs;
    assert ApplyNudge(bs, us[1]) == bs;
  }

  /** The bodies after one contact's correction. */
  function Corrected(bs: seq<Body>, all: seq<Contact>, c: Contact): (r: seq<Body>)
    requires c in all && CorrectAdmissible(bs, c)
    ensures |r| == |bs|
  {
    ApplyNudges(bs, CorrectionNudges(bs, all, c))
  }

  /** How far body `i` moved from `bs` to `after`. */
  function Moved(bs: seq<Body>, after: seq<Body>, i: nat): Vec2
    requires i < |bs| && i < |after|
  {
    Sub(after[i].position, bs[i].position)
  }

  /** How far one contact's correction moves each of two different bodies. */
  lemma CorrectionDisplacements(bs: seq<Body>, all: seq<Contact>, c: Contact)
    requires c in all && CorrectAdmissible(bs, c) && c.lineOwner != c.pointOwner
    ensures PairCount(all, c.lineOwner, c.pointOwner) >= 1
    ensures Moved(bs, Corrected(bs, all, c), c.lineOwner)
              == DivBy(Scale(CorrectionVector(c, bs[c.lineOwner].props.invMass, bs[c.pointOwner].props.invMass),
                             -bs[c.lineOwner].props.invMass),
                       PairCount(all, c.lineOwner, c.pointOwner) as real)
    ensures Moved(bs, Corrected(bs, all, c), c.pointOwner)
              == DivBy(Scale(CorrectionVector(c, bs[c.lineOwner].props.invMass, bs[c.pointOwner].props.invMass),
                             bs[c.pointOwner].props.invMass),
                       PairCount(all, c.lineOwner, c.pointOwner) as real)
  {
    CorrectionShape(bs, all, c);
    var us := CorrectionNudges(bs, all, c);
    ApplyTwo(bs, us[0], us[1]);
    var bs1 := ApplyNudge(bs, us[0]);
    ShiftedPositionAt(bs, us[0], c.lineOwner);
    ShiftedPositionAt(bs1, us[1], c.lineOwner);
    ShiftedPositionAt(bs, us[0], c.pointOwner);
    ShiftedPositionAt(bs1, us[1], c.pointOwner);
    SubAdd(bs[c.lineOwner].position, us[0].delta);
    SubAdd(bs[c.pointOwner].position, us[1].delta);
  }

  lemma SubAdd(p: Vec2, d: Vec2)
    ensures Sub(Add(p, d), p) == d
  {
  }

  /** Displacements `da` of the line owner and `db` of the point owner that, over `k`
      contacts of the pair, separate the two bodies along `n` by `Percent * excess`. */
  predicate SeparateAlong(da: Vec2, db: Vec2, n: Vec2, k: real, excess: real) {
    Dot(Sub(db, da), n) * k == Percent * excess
  }

  /** One contact's correction between two different bodies, along a unit normal,
      separates them along the normal by `Percent * max(depth - Slop, 0) / k`, where
      `k` is the number of contacts of the pair. */
  lemma CorrectionSeparatesPair(bs: seq<Body>, all: seq<Contact>, c: Contact)
    requires c in all && CorrectAdmissible(bs, c)
    requires c.lineOwner != c.pointOwner && SquaredNorm(c.normal) == 1.0
    ensures SeparateAlong(Moved(bs, Corrected(bs, all, c), c.lineOwner), Moved(bs, Corrected(bs, all, c), c.pointOwner),
                          c.normal, PairCount(all, c.lineOwner, c.pointOwner) as real, Max(c.depth - Slop, 0.0))
  {
    CorrectionDisplacements(bs, all, c);
    var ia := bs[c.lineOwner].props.invMass;
    var ib := bs[c.pointOwner].props.invMass;
    SeparationAlongNormal(Moved(bs, Corrected(bs, all, c), c.lineOwner), Moved(bs, Corrected(bs, all, c), c.pointOwner),
                          c.normal, CorrectionVector(c, ia, ib), ia, ib,
                          PairCount(all, c.lineOwner, c.pointOwner) as real, Max(c.depth - Slop, 0.0));
  }

  /** When both bodies of a contact are dynamic, its correction moves them in inverse
      proportion to their masses: the mass-weighted displacements cancel. */
  lemma CorrectionBalancesPair(bs: seq<Body>, all: seq<Contact>, c: Contact)
    requires c in all && CorrectAdmissible(bs, c) && c.lineOwner != c.pointOwner
    requires bs[c.lineOwner].props.invMass > 0.0 && bs[c.pointOwner].props.invMass > 0.0
    ensures Add(Scale(Moved(bs, Corrected(bs, all, c), c.lineOwner), 1.0 / bs[c.lineOwner].props.invMass),
                Scale(Moved(bs, Corrected(bs, all, c), c.pointOwner), 1.0 / bs[c.pointOwner].props.invMass)) == Zero
  {
    CorrectionDisplacements(bs, all, c);
    var ia := bs[c.lineOwner].props.invMass;
    var ib := bs[c.pointOwner].props.invMass;
    BalancedShift(Moved(bs, Corrected(bs, all, c), c.lineOwner), Moved(bs, Corrected(bs, all, c), c.pointOwner),
                  CorrectionVector(c, ia, ib), ia, ib, PairCount(all, c.lineOwner, c.pointOwner) as real);
  }

  lemma SeparationAlongNormal(da: Vec2, db: Vec2, n: Vec2, corr: Vec2, ia: real, ib: real, k: real, excess: real)
    requires SquaredNorm(n) == 1.0 && k != 0.0 && ia + ib != 0.0
    requires corr == Scale(n, excess / (ia + ib) * Percent)
    requires da == DivBy(Scale(corr, -ia), k) && db == DivBy(Scale(corr, ib), k)
    ensures SeparateAlong(da, db, n, k, excess)
  {
    var m := excess / (ia + ib) * Percent;
    var s := (ia + ib) / k;
    ShiftDifference(corr, ia, ib, k);
    ScaleTwice(n, m, s);
    assert Sub(db, da) == Scale(n, m * s);
    DotScaled(n, m * s);
    assert Dot(Sub(db, da), n) == m * s;
    ProductCancels(m, ia + ib, k, excess);
  }

  lemma ShiftDifference(v: Vec2, ia: real, ib: real, k: real)
    requires k != 0.0
    ensures Sub(DivBy(Scale(v, ib), k), DivBy(Scale(v, -ia), k)) == Scale(v, (ia + ib) / k)
  {
  }

  lemma DotScaled(n: Vec2, s: real)
    ensures Dot(Scale(n, s), n) == s * SquaredNorm(n)
  {
  }

  lemma ProductCancels(m: real, w: real, k: real, excess: real)
    requires w != 0.0 && k != 0.0 && m == excess / w * Percent
    ensures m * (w / k) * k == Percent * excess
  {
    assert m * (w / k) * k == m * w;
  }

  lemma BalancedShift(da: Vec2, db: Vec2, v: Vec2, ia: real, ib: real, k: real)
    requires ia > 0.0 && ib > 0.0 && k != 0.0
    requires da == DivBy(Scale(v, -ia), k) && db == DivBy(Scale(v, ib), k)
    ensures Add(Scale(da, 1.0 / ia), Scale(db, 1.0 / ib)) == Zero
  {
    var sum := Add(Scale(da, 1.0 / ia), Scale(db, 1.0 / ib));
    assert sum.x == 0.0 by {
      BalancedComponent(v.x, ia, ib, k);
    }
    assert sum.y == 0.0 by {
      BalancedComponent(v.y, ia, ib, k);
    }
  }

  lemma BalancedComponent(x: real, ia: real, ib: real, k: real)
    requires ia != 0.0 && ib != 0.0 && k != 0.0
    ensures x * -ia / k * (1.0 / ia) + x * ib / k * (1.0 / ib) == 0.0
  {
    assert x * -ia / k * (1.0 / ia) == -(x / k) by {
      CancelInverse(x, ia, k);
      assert x * -ia / k == -(x * ia / k);
    }
    CancelInverse(x, ib, k);
  }

  lemma CancelInverse(x: real, w: real, k: real)
    requires w != 0.0 && k != 0.0
    ensures x * w / k * (1.0 / w) == x / k
  {
    assert w * (1.0 / w) == 1.0;
    assert x * w / k * (1.0 / w) == x * (w * (1.0 / w)) / k;
  }

  // ---------------------------------------------------------------------------
  // The passes, run in place on the bodies.

  /** `apply_impulse`: the action/reaction pair of one impulse. */
  method ApplyImpulse(bodies: array<Body>, a: nat, b: nat, offsetA: Vec2, offsetB: Vec2, impulse: Vec2)
    requires a < bodies.Length && b < bodies.Length
    modifies bodies
    ensures bodies[..] == ApplyNudges(old(bodies[..]), ImpulsePair(a, b, offsetA, offsetB, impulse))
  {
    ghost var before := bodies[..];
    bodies[a] := Kicked(bodies[a], Neg(impulse), offsetA);
    ghost var middle := bodies[..];
    assert middle == ApplyNudge(before, Impulse(a, Neg(impulse), offsetA));
    bodies[b] := Kicked(bodies[b], impulse, offsetB);
    assert bodies[..] == ApplyNudge(middle, Impulse(b, impulse, offsetB));
    ApplyTwo(before, Impulse(a, Neg(impulse), offsetA), Impulse(b, impulse, offsetB));
  }

  /** The body of the `collision_resolution` loop for one contact. */
  method ResolveContact(bodies: array<Body>, contacts: seq<Contact>, contact: Contact, dt: real)
    requires contact in contacts && ResolveAdmissible(bodies[..], contacts, contact, dt)
    modifies bodies
    ensures bodies[..] == ApplyNudges(old(bodies[..]), ResolutionNudges(old(bodies[..]), contacts, contact, dt))
  {
    var a := contact.lineOwner;
    var b := contact.pointOwner;
    var n := contact.normal;
    var contactPoints := CountContactPoints(contacts, a, b);
    PairCountOfMember(contacts, contact);
    assert contactPoints > 0;
    var relV := contact.relVelocity;
    var relVn := Dot(relV, n);
    if relVn > 0.0 {
      return;
    }
    var e := Restitution(relV, dt);
    var j := ImpulseNorm(bodies[a].props, bodies[b].props, contact.lineOffset, contact.pointOffset,
                         n, relVn, e, contactPoints);
    assert Abs(j) < ImpulseBound;
    var normalImpulse := Scale(n, j);
    var frictionImpulse := FrictionImpulse(bodies[a].props, bodies[b].props, contact.lineOffset,
                                           contact.pointOffset, contact.tangent, relV, j, contactPoints);
    ghost var before := bodies[..];
    ghost var normalPair := ImpulsePair(a, b, contact.lineOffset, contact.pointOffset, normalImpulse);
    ghost var frictionPair := ImpulsePair(a, b, contact.lineOffset, contact.pointOffset, frictionImpulse);
    assert ResolutionNudges(before, contacts, contact, dt) == normalPair + frictionPair;
    ApplyImpulse(bodies, a, b, contact.lineOffset, contact.pointOffset, normalImpulse);
    ApplyImpulse(bodies, a, b, contact.lineOffset, contact.pointOffset, frictionImpulse);
    ApplyNudgesAppend(before, normalPair, frictionPair);
  }

  /** `collision_resolution`: every approaching contact applies its normal and friction
      impulses to its two bodies, in list order. */
  method CollisionResolution(bodies: array<Body>, contacts: seq<Contact>, dt: real)
    requires AllAdmissible(Resolve(dt), bodies[..], contacts, contacts)
    modifies bodies
    ensures bodies[..] == Fold(Resolve(dt), old(bodies[..]), contacts, contacts)
    ensures contacts == [] ==> bodies[..] == old(bodies[..])
  {
    ghost var start := bodies[..];
    var i := 0;
    while i < |contacts|
      invariant 0 <= i <= |contacts|
      invariant PassedPrefix(Resolve(dt), start, contacts, i, bodies[..])
    {
      PassStep(Resolve(dt), start, contacts, i, bodies[..]);
      ResolveContact(bodies, contacts, contacts[i], dt);
      i := i + 1;
    }
    assert contacts[..|contacts|] == contacts;
  }

  /** The body of the `correct_positions` loop for one contact. */
  method CorrectContact(bodies: array<Body>, contacts: seq<Contact>, contact: Contact)
    requires contact in contacts && CorrectAdmissible(bodies[..], contact)
    modifies bodies
    ensures bodies[..] == ApplyNudges(old(bodies[..]), CorrectionNudges(old(bodies[..]), contacts, contact))
  {
    ghost var before := bodies[..];
    CorrectionShape(before, contacts, contact);
    ghost var nudges := CorrectionNudges(before, contacts, contact);
    var a := contact.lineOwner;
    var b := contact.pointOwner;
    var n := contact.normal;
    var contactPoints := CountContactPoints(contacts, a, b);
    var correction := Scale(n, Max(contact.depth - Slop, 0.0)
                                 / (bodies[a].props.invMass + bodies[b].props.invMass) * Percent);
    var deltaA := DivBy(Scale(correction, -bodies[a].props.invMass), contactPoints as real);
    var deltaB := DivBy(Scale(correction, bodies[b].props.invMass), contactPoints as real);
    assert nudges == [Shift(a, deltaA), Shift(b, deltaB)];
    bodies[a] := Shifted(bodies[a], deltaA);
    ghost var middle := bodies[..];
    assert middle == ApplyNudge(before, nudges[0]);
    bodies[b] := Shifted(bodies[b], deltaB);
    assert bodies[..] == ApplyNudge(middle, nudges[1]);
    ApplyTwo(before, nudges[0], nudges[1]);
  }

  /** `correct_positions`: every contact moves its two bodies apart along the normal,
      in list order, without touching any velocity. */
  method CorrectPositions(bodies: array<Body>, contacts: seq<Contact>)
    requires AllAdmissible(Correct, bodies[..], contacts, contacts)
    modifies bodies
    ensures bodies[..] == Fold(Correct, old(bodies[..]), contacts, contacts)
    ensures contacts == [] ==> bodies[..] == old(bodies[..])
  {
    ghost var start := bodies[..];
    var i := 0;
    while i < |contacts|
      invariant 0 <= i <= |contacts|
      invariant PassedPrefix(Correct, start, contacts, i, bodies[..])
    {
      PassStep(Correct, start, contacts, i, bodies[..]);
      CorrectContact(bodies, contacts, contacts[i]);
      i := i + 1;
    }
    assert contacts[..|contacts|] == contacts;
  }
}
