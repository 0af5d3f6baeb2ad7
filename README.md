# Rigid-body contacts, rigid-body state and a finite-element mesh, in Dafny

This project models three parts of a physically based simulation code base. All
arithmetic is on Dafny `real`, which stands in for `double`.

- **Contact resolution** (`Final/collision_resolution.h`) is an impulse-based 2D solver.
  For every contact it computes a normal impulse from the effective-mass denominator.
  The restitution is 0 for resting contacts and 0.3 otherwise. Friction is clamped in
  the Coulomb style, with static coefficient 0.61 and dynamic coefficient 0.47. Each
  impulse is applied as an action/reaction pair. A second pass corrects positions in
  the Baumgarte style, with slop 0.05 and percentage 0.3. Both the impulse and the
  correction are split evenly over all contacts of the same unordered body pair.
  - `ContactImpulse` (`contact_impulse.dfy`) holds the per-contact formulas.
  - `CollisionResolution` (`collision_resolution.dfy`) holds the two passes. Each pass
    is a loop over the contact list that updates an `array<Body>` in place. It is
    proved equal to `Fold`, a function that turns each contact into a list of
    *nudges* and applies them in order. A nudge is an impulse at an offset, or a
    translation.
- **Rigid-body state** (`Final/physical_object.cpp`) is the class
  `RigidBody.PhysicalObject`. Its constructor folds the (point, mass) samples into:
  - the total mass;
  - the centre of mass;
  - the centred offsets;
  - the inverse moment of inertia.

  `Accelerate` and `AccelerateAt` accumulate force and torque. `Update` takes one
  explicit Euler step and then clears both accumulators.
- **Finite-element bookkeeping** (`Assignment2/FEModel.cpp`) is the class
  `FiniteElements.FEModel`. It covers:
  - the exact solution and the source term of the Poisson problem;
  - the uniform triangle mesh of the unit square;
  - the Dirichlet boundary conditions;
  - the nodal error vectors.

`Vectors` (`vectors.dfy`) holds the 2D vector arithmetic that all of these share.

## Model

| member | source | states |
|---|---|---|
| RigidBody.TotalMass | Final/physical_object.cpp:12-16 | the mass is the sum of the sample masses, so it is never negative when no sample mass is |
| RigidBody.SampleFoldsSplit | Final/physical_object.cpp:12-23 | the total-mass and mass-moment accumulations (sum of m_i and sum of m_i p_i) split over any division of the sample list into two parts |
| RigidBody.CenterOfMass | Final/physical_object.cpp:18-23 | the centre of mass is the mass moment divided by the total mass: carrying the total mass, it has the samples' mass moment |
| RigidBody.SingleSampleHasNoInertia | Final/physical_object.cpp:18-37 | a body of one sample of non-zero mass has its centre of mass at that sample and a moment of inertia of 0 |
| RigidBody.OffsetsAt | Final/physical_object.cpp:26-35 | there is one stored offset per sample, in sample order, and offset i is sample point i minus the centre of mass |
| RigidBody.WeightedOffsets | Final/physical_object.cpp:19-35 | the mass-weighted sum of the offsets from any point c is the mass moment minus c times the total mass |
| RigidBody.CenterOfMassBalances | Final/physical_object.cpp:19-35 | the mass-weighted offsets sum to zero about c if and only if c is the centre of mass (sum of m_i p_i divided by the total mass) |
| RigidBody.BalancePoint | Final/physical_object.cpp:19-23 | c balances a mass moment mm of mass m (mm - c m = 0) exactly when c = mm / m |
| RigidBody.InertiaFromOffsets | Final/physical_object.cpp:26-37 | the inertia the constructor inverts is the sum of m_i times the squared length of the stored offset i |
| RigidBody.VertexVelocity | Final/physical_object.cpp:53-67 | the velocity of a body point, v + w x o, differs from v by a vector perpendicular to the offset whose squared length is w^2 times the squared offset length and whose cross product with the offset is w times the squared offset length, which fixes the direction of rotation (corrected form) |
| RigidBody.VertexVelocityAsWritten | Final/physical_object.cpp:58-66 | the per-vertex formula as written, \|o\| w (n.y, n.x) with n = o/\|o\|, reduces to v + w (o.y, o.x), whose part beyond v has dot product 2 w o.x o.y with the offset |
| RigidBody.VertexVelocityAsWrittenNotTangential | Final/physical_object.cpp:62-66 | the per-vertex velocity as written gives (4, 3) at offset (3, 4) under unit spin, which is not perpendicular to the offset; the rigid rotation gives (-4, 3) |
| RigidBody.OffsetsAndInertia | Final/physical_object.cpp:25-35 | the inertia accumulation returns the centred offsets in sample order and the sum of mass times squared offset length |
| RigidBody.PhysicalObject.constructor | Final/physical_object.cpp:6-41 | the mass is the sum of the sample masses, the centre of mass is their weighted mean, the offsets are the centred points in sample order, the inverse inertia is 1 over the inertia about the centre of mass, and the body starts at rest with empty accumulators |
| RigidBody.PhysicalObject.Accelerate | Final/physical_object.cpp:83-86 | adds acceleration times mass to the force and changes nothing else |
| RigidBody.PhysicalObject.AccelerateAt | Final/physical_object.cpp:73-81 | adds the same force, and adds the cross product of (point - centre of mass) with that force to the torque |
| RigidBody.PhysicalObject.Update | Final/physical_object.cpp:43-71 | the position advances by the old velocity times dt; the velocity gains force/mass times dt times 10; the angle advances by the old angular velocity times dt times 10; the angular momentum gains torque times dt; the angular velocity becomes inverse inertia times angular momentum; force and torque end at zero; with no force (no torque) the velocity (angular momentum) is unchanged |
| ContactImpulse.ImpulseNorm | Final/collision_resolution.h:6-26 | j times (t_a + t_b) times num_contacts equals -(1 + e) rel_v_n, with t = invMass + invInertia cross(r, n)^2; j >= 0 when rel_v_n <= 0, e >= 0, all inverse masses and inertias are non-negative and num_contacts >= 1 |
| ContactImpulse.DenominatorNonNegative | Final/collision_resolution.h:16-21 | with non-negative inverse masses and inertias and at least one contact, the effective-mass denominator is non-negative |
| ContactImpulse.ImpulseSplitEvenly | Final/collision_resolution.h:21-25 | with k contacts on the same pair, each contact's normal impulse is exactly 1/k of a sole contact's |
| ContactImpulse.Restitution | Final/collision_resolution.h:101-104 | restitution is 0 if and only if the squared relative velocity is below the squared gravity step plus 0.01; otherwise it is 0.3 |
| ContactImpulse.TangentImpulse | Final/collision_resolution.h:42-51 | jt times the tangential effective-mass denominator equals -(rel_v . tangent) |
| ContactImpulse.FrictionImpulse | Final/collision_resolution.h:51-60 | zero when jt is below 1e-6 in magnitude; tangent times jt while the magnitude is below 0.61 j; otherwise tangent times -0.47 j |
| ContactImpulse.FrictionWithinStaticCone | Final/collision_resolution.h:51-60 | for a unit tangent and j >= 0, the friction impulse is never longer than 0.61 j |
| ContactImpulse.KickAlong | Final/collision_resolution.h:70-71 | an impulse c d (d a unit vector) at an offset changes that point's velocity along d by c times the body's response invMass + invInertia cross(r, d)^2 |
| ContactImpulse.ImpulseResponse | Final/collision_resolution.h:63-72 | an action/reaction pair of impulse s d changes the relative contact velocity along d by s times t_a + t_b |
| ContactImpulse.NormalImpulseRestitution | Final/collision_resolution.h:106-129 | with one contact and a unit normal, applying j n as a pair makes the new relative normal velocity -e times the old one |
| ContactImpulse.StaticFrictionStopsSliding | Final/collision_resolution.h:118-135 | with one contact and a unit tangent, a friction impulse inside the static cone (tangent times jt) brings the relative tangential velocity to zero |
| ContactImpulse.ImpulsePairConservesMomentum | Final/collision_resolution.h:63-72 | for two dynamic bodies, m_a dv_a + m_b dv_b = 0 after an impulse pair |
| CollisionResolution.PairCountCountsItself | Final/collision_resolution.h:86-93 | the pair count of any contact in the list is at least one, because the contact matches itself |
| CollisionResolution.PairCountOfMember | Final/collision_resolution.h:155-160 | the same as the previous row, stated for a contact given by value |
| CollisionResolution.PairCountUnordered | Final/collision_resolution.h:86-91 | the count does not depend on which body is the line owner and which is the point owner |
| CollisionResolution.CountContactPoints | Final/collision_resolution.h:86-91 | the count_if loop returns the number of contacts joining the two bodies in either role |
| CollisionResolution.NudgedCommute | Final/collision_resolution.h:124-136 | two impulses or translations applied to one body give the same body in either order |
| CollisionResolution.ApplyNudges | Final/collision_resolution.h:63-72 | applying impulses and translations never changes a body's inverse mass or inverse inertia |
| CollisionResolution.NudgeListsCommute | Final/collision_resolution.h:124-136 | two lists of impulses and translations give the same bodies in either order |
| CollisionResolution.ResolutionNudges | Final/collision_resolution.h:95-135 | a contact whose bodies separate (rel_v_n > 0) applies nothing; otherwise every change it makes is an impulse on its line owner or its point owner |
| CollisionResolution.CorrectionNudges | Final/collision_resolution.h:162-168 | every change a contact's correction makes is a translation of its line owner or its point owner |
| CollisionResolution.NudgesDependOnMassOnly | Final/collision_resolution.h:74-137 | whether a contact can be handled, and what it does, depend on the bodies only through their inverse masses and inertias |
| CollisionResolution.Fold | Final/collision_resolution.h:74-137 | a whole pass leaves every inverse mass and inertia as it was |
| CollisionResolution.FoldOrderIndependent | Final/collision_resolution.h:74-137 | exchanging two neighbouring contacts anywhere in the list gives the same final bodies, for both passes |
| CollisionResolution.FoldPermutation | Final/collision_resolution.h:74-171 | a pass over any reordering of the same contacts (equal multisets) gives the same final bodies, for both passes |
| CollisionResolution.ResolutionKeepsPositions | Final/collision_resolution.h:126-135 | collision resolution moves no body |
| CollisionResolution.CorrectionKeepsVelocities | Final/collision_resolution.h:165-169 | position correction changes no linear or angular velocity |
| CollisionResolution.StaticBodyNotShifted | Final/collision_resolution.h:167-168 | one contact's correction leaves a body of inverse mass 0 where it was |
| CollisionResolution.StaticBodyNeverMoves | Final/collision_resolution.h:140-171 | a whole correction pass never moves a body of inverse mass 0 |
| CollisionResolution.ShallowContactNotCorrected | Final/collision_resolution.h:162-163 | a contact no deeper than the slop changes no body |
| CollisionResolution.CorrectionDisplacements | Final/collision_resolution.h:162-168 | for two different bodies, the line owner moves by -invMass_a c / k and the point owner by invMass_b c / k, with c = max(depth - 0.05, 0) / (invMass_a + invMass_b) 0.3 n and k >= 1 the pair count |
| CollisionResolution.CorrectionSeparatesPair | Final/collision_resolution.h:162-168 | for two different bodies and a unit normal, the correction separates them along the normal by 0.3 max(depth - 0.05, 0) / k |
| CollisionResolution.CorrectionBalancesPair | Final/collision_resolution.h:167-168 | for two dynamic bodies, the mass-weighted displacements of the correction cancel |
| CollisionResolution.ApplyImpulse | Final/collision_resolution.h:63-72 | the array afterwards is the line owner kicked by -impulse at its offset, then the point owner kicked by +impulse at its offset |
| CollisionResolution.ResolveContact | Final/collision_resolution.h:79-135 | the loop body for one contact applies exactly that contact's normal and friction impulse pairs |
| CollisionResolution.CollisionResolution | Final/collision_resolution.h:74-138 | the in-place pass over the array equals the fold over the contact list; an empty list changes nothing |
| CollisionResolution.CorrectContact | Final/collision_resolution.h:145-169 | the loop body for one contact applies exactly that contact's two translations |
| CollisionResolution.CorrectPositions | Final/collision_resolution.h:140-171 | the in-place pass over the array equals the fold over the contact list; an empty list changes nothing |
| FiniteElements.BoundaryU | Assignment2/FEModel.cpp:29-33 | the boundary data and exact solution 3x^2 + 2xy^3 (`Boundary_u`); it is 0 on the side x = 0 |
| FiniteElements.SourceTermF | Assignment2/FEModel.cpp:35-39 | the source term -6 - 12xy (`Source_Term_f`); it is -6 on the sides x = 0 and y = 0 |
| FiniteElements.ExactSolutionOnSides | Assignment2/FEModel.cpp:29-33 | the exact solution 3x^2 + 2xy^3 is 0 on x = 0, 3 + 2y^3 on x = 1, 3x^2 on y = 0 and 3x^2 + 2x on y = 1 |
| FiniteElements.SourceTermOnUnitSquare | Assignment2/FEModel.cpp:35-39 | the source term -6 - 12xy lies between -18 and -6 on the unit square, is -6 on the sides x = 0 and y = 0, and -18 at (1, 1) |
| FiniteElements.SourceTermIsNegativeLaplacian | Assignment2/FEModel.cpp:29-39 | for every step h, minus the five-point Laplacian of 3x^2 + 2xy^3 is exactly -6 - 12xy, the source term |
| FiniteElements.SecondDifferenceXIsConstant | Assignment2/FEModel.cpp:29-33 | the second difference of the exact solution in x is 6 |
| FiniteElements.SecondDifferenceYIsLinear | Assignment2/FEModel.cpp:29-33 | the second difference of the exact solution in y is 12xy |
| FiniteElements.MeshNodeLayout | Assignment2/FEModel.cpp:42-55 | for nx, ny >= 2 the mesh has nx ny nodes, and node y nx + x is at (x/(nx - 1), y/(ny - 1)) |
| FiniteElements.MeshElementLayout | Assignment2/FEModel.cpp:57-70 | the mesh has 2 (nx - 1)(ny - 1) triangles; cell (x, y) contributes (n00, n10, n11) and then (n00, n11, n01), with n00 = y nx + x |
| FiniteElements.MeshElementsInRange | Assignment2/FEModel.cpp:61-67 | every node id stored in a triangle names a node of the mesh |
| FiniteElements.BoundaryConditionsSound | Assignment2/FEModel.cpp:86-102 | every condition names a node with a coordinate <= 0 or >= 1, and fixes it to the exact solution there |
| FiniteElements.BoundaryConditionsOrdered | Assignment2/FEModel.cpp:86-102 | conditions come in strictly increasing order of node id, so no node gets two |
| FiniteElements.BoundaryConditionsComplete | Assignment2/FEModel.cpp:86-102 | every node with a coordinate <= 0 or >= 1 gets a condition |
| FiniteElements.GridCoordOnEdge | Assignment2/FEModel.cpp:51 | grid line i of n is at coordinate <= 0 exactly when i = 0, and at >= 1 exactly when i = n - 1 |
| FiniteElements.GridBoundaryIsOuterRing | Assignment2/FEModel.cpp:92 | on the uniform grid, a node gets a condition exactly when it is in the first or last row or column |
| FiniteElements.Resize | Assignment2/FEModel.cpp:72-75 | resizing keeps the first n values, pads with zeros and has length n |
| FiniteElements.FEModel.CreateUniformGridMesh | Assignment2/FEModel.cpp:42-78 | appends the mesh nodes and triangles, keeps the counters equal to the list lengths, and resizes solution, error, abserror and rhs to the new node count |
| FiniteElements.FEModel.AppendGridNodes | Assignment2/FEModel.cpp:47-55 | the node loops append exactly the grid nodes, row by row |
| FiniteElements.FEModel.AppendRowNodes | Assignment2/FEModel.cpp:49-54 | the inner node loop appends exactly the nodes of row y, left to right |
| FiniteElements.FEModel.AppendGridElements | Assignment2/FEModel.cpp:57-70 | the element loops append exactly the grid triangles, cell row by cell row |
| FiniteElements.FEModel.AppendRowElements | Assignment2/FEModel.cpp:59-69 | the inner element loop appends exactly the two triangles of each cell of cell row y, cell by cell |
| FiniteElements.FEModel.SetBoundaryConditions | Assignment2/FEModel.cpp:86-102 | appends exactly the conditions of the boundary nodes, in node order |
| FiniteElements.FEModel.ComputeError | Assignment2/FEModel.cpp:161-183 | error[i] is the exact solution minus solution[i] and abserror[i] is its absolute value (>= 0) at every node; entries past the node count are unchanged; the returned norm is 0 |

## Left out

- OpenMP (`#pragma omp parallel for` and `critical`, `Final/collision_resolution.h`:76, 124, 142, 165): both passes are sequential loops. `FoldPermutation` shows that the order of the contacts does not matter.
- The contact record (`ContactInfo.hpp`) is not part of this model. A contact is a record holding two body indices, the normal, the offsets, the penetration depth and the relative velocity. The relative velocity is taken as fixed when the contact is detected.
- The friction tangent is `(rel_v - n rel_v_n).normalized()`, which needs a square root. It is an input field of the contact. `FrictionWithinStaticCone` and `StaticFrictionStopsSliding` require a unit tangent.
- The contact normal is an input field of the contact. `NormalImpulseRestitution` and `CorrectionSeparatesPair` require it to have unit length, which the source's impulse and correction formulas also presuppose.
- `physical_object::apply_impulse`, `move` and the inverse-mass and inverse-inertia getters (`physical_object.h`) are not part of this model. They are modelled through their interfaces: `Kicked` adds impulse times invMass to the velocity and invInertia times cross(offset, impulse) to the angular velocity; `Shifted` adds the translation to the position.
- The contact passes work on `Body` records (position, velocity, angular velocity, inverse mass and inertia). They do not work on `PhysicalObject` instances, so the tie between `Body.props` and `PhysicalObject.inverseInertia` is not modelled.
- `gravity` (`Final/Polygon.h`:13) is the constant `ContactImpulse.Gravity`.
- The asserts at `Final/collision_resolution.h`:23, 49 and 114 are preconditions (`ResolveAdmissible`). The assert at line 93 is a checked `assert` in `ResolveContact`. `correct_positions` divides by invMass_a + invMass_b without a check; `CorrectAdmissible` requires that sum to be non-zero.
- The rotation is kept as an angle. `Rotation2D` and the rotation matrix are not modelled.
- The per-vertex velocity loop of `update` (`Final/physical_object.cpp`:53-67) is not modelled in `Update`: it needs the rotation matrix and a square root. Its formula is modelled by `VertexVelocityAsWritten`, and the corrected formula by `VertexVelocity`. `VertexVelocityAsWritten` requires a non-zero offset length; a vertex at the centre of mass, where `normalized()` gives the zero vector and the source's formula gives the body velocity, is not covered.
- `RigidBody.PhysicalObject.constructor` requires a non-zero total mass and a non-zero inertia. Without them the source stores infinities or NaN: with zero total mass the centre of mass is a quotient by zero (0/0 = NaN when the mass moment is zero too), and with zero inertia the inverse inertia is infinite and the angular velocity is inf times 0 = NaN. The requirement excludes every body of a single sample, whose inertia is always 0 (`SingleSampleHasNoInertia`).
- `FiniteElements.FEModel.CreateUniformGridMesh` requires that a side with exactly one node does not occur with a non-empty other side (`MeshArgsOk`). With `double`, the source would divide 0 by 0 and store NaN coordinates.
- `K_matrix.ClearResize` (`Assignment2/FEModel.cpp`:77) is not modelled. The sparse matrix class is not part of this model.
- `FEModel.h` is not part of this model. `FEModel` starts as an empty model. `GetNodePosition(i)` is read as `nodes[i]`.
- `AssembleStiffnessMatrix` (`Assignment2/FEModel.cpp`:80-84) and `ComputeRHS` (104-137) are not modelled. They depend on the `LinTriElement` methods `AssembleElement`, `getArea` and `getN`, and those are not part of this model.
- `Solve` (139-159) calls an external preconditioned conjugate-gradient solver. It is not modelled.
- `Render` (186-270) and all `printf` and `dump` output are not modelled. They are drawing and diagnostics.
- Floating-point rounding, overflow, infinities and NaN are not modelled. Every quantity is an exact real.

## Findings

| source | as written | input that shows it | evidently intended | confidence | as-written member | corrected member |
|---|---|---|---|---|---|---|
| Final/physical_object.cpp:62-66 | the vertex velocity is v + (\|o\| w)(o.y, o.x)/\|o\| = v + w (o.y, o.x) | v = 0, w = 1, rotated offset o = (3, 4): the result is (4, 3), and (4, 3) . (3, 4) = 24, which is not 0 | the rigid-body point velocity v + w x o = v + w (-o.y, o.x), here (-4, 3), perpendicular to the offset | high (algebraic; not executed) | RigidBody.VertexVelocityAsWritten, RigidBody.VertexVelocityAsWrittenNotTangential | RigidBody.VertexVelocity |
