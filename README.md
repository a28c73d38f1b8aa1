# roborig-js kinematics in Dafny

This project models the kinematic engine of roborig-js. It covers:

- 4×4 homogeneous transforms (`Pose`) and their se(3) differentials (`Twist`);
- a tree of frames whose `update()` pushes world poses and world twists from the spatial root down to the leaves;
- the chain-rule partial-derivative queries on that tree;
- the six joint primitives;
- the `KinematicTree` bookkeeping: the name registry, the coordinate list, and the world and body Jacobians;
- the `Body` accessors;
- the link-resolution part of the URDF loader, which picks the root joints and attaches the others in bounded passes.

## How the model is laid out

One module per source file:

| module | source file | file |
|---|---|---|
| `Pose` | `src/app/pose.js` | `pose.dfy` |
| `Twist` | `src/app/twist.js` | `twist.dfy` |
| `Joint` | `src/app/joint.js` | `joint.dfy` |
| `Frame` | `src/app/frame.js` | `frame.dfy` |
| `Body` | `src/app/body.js` | `body.dfy` |
| `Tree` | `src/app/kinematic_tree.js` | `kinematic_tree.dfy` |
| `Urdf` | `src/app/urdf_loader.js` | `urdf_loader.dfy` |

### Matrices

- A 4×4 matrix is the value type `Mat4`, with one `real` field per cell.
- The source clones every pose it stores or hands out. No two owners ever share a matrix, so value semantics is faithful.
- The in-place writers (`set`, `setTranslation`, `setRotationMatrix`) become functions that return the updated matrix.
- `Twist` uses the same `Mat4`. `Twist.Clone` is the one operation that behaves differently for a twist: it keeps the nine cells that `hat` writes and zeroes the rest.

### Frames

- Frames live in an arena `seq<FrameRec>`. The spatial root is index 0, and a parent always has a smaller index than its children.
- `FrameRec` holds:
  - the parent link and the ordered `children` list;
  - the joint kind (fixed, or rotation or translation about X, Y or Z);
  - `q` and `q_dot`;
  - the seven cached matrices (`Joint.Caches`);
  - the world pose and world twist.
- The derivative queries are recursive functions over the arena.
- `Frame.update()` is modelled twice:
  - as the recursive method `Tree.KinematicTree.UpdateFrame`, which walks the children lists;
  - as the function `Frame.SettledAll`, the state every frame reaches; the method is proved to reach it.

### Joints

- Each `updateLocal` override is a method that writes cells one by one, as the source does.
- Each method is proved equal to `Joint.Refreshed`, the value those writes produce.
- The closed forms of the caches are proved as lemmas about `Refreshed`.

### KinematicTree

`KinematicTree` is a class with three fields:

- `frames`, the arena;
- `names`, the registry;
- `coordinates`, the indices of the movable frames.

Its methods keep the invariant `Valid()`: a well-formed tree, with `coordinates` listing exactly the movable frames in the order they were added.

### URDF loader

- The XML document becomes a sequence of `JointElement` values: each holds its attributes and the first child element of each tag.
- `parseValue` returns either the attribute text or the number 0. This is the datatype `Value` (`Text(s)` or `Absent`).
- `link_map` is a `LinkMap`: insertion order plus entries, so that iteration order and `delete` are modelled.
- The tree `createKinematicTree` builds is stated as a fold, `JointsAttached`. It applies `JointStep`, the frames, names and coordinates one `addJointFrame` call adds, to each joint of the attach order in turn.
- The loops that attach joints take the origin pose as a function `origin` from joint elements to poses. `CreateKinematicTree` passes `Origins`, which is `JointPose`, the pose `addJointFrame` computes at src/app/urdf_loader.js:62.

### Parameters in place of library calls

Transcendental and library calls are parameters:

- `cos` and `sin` come from a `Trig` value. Results that need `cos² + sin² = 1` require `OnUnitCircle(trig)`.
- The Euclidean norm is a `norm` function, required to satisfy `NormFunction`: non-negative, with a square equal to the dot product.
- `Number(...)` on a string is a `toNumber` function.

## Model

| member | source | states |
|---|---|---|
| `Pose.Mat4.Set` | src/app/pose.js:27-29 | Writing cell (i, j) makes that cell read back the new value and leaves the other fifteen cells unchanged. |
| `Pose.Mat4.Get` | src/app/pose.js:35-37 | No contract of its own. `get([i, j])` reads cell (i, j). `Pose.Mat4.Set` states that a write reads back through it and that the other fifteen cells read as before. |
| `Pose.Multiply` | src/app/pose.js:43-47 | No contract of its own. Its partner lemmas `MultiplyAssoc`, `MultiplyIdentity`, `MultiplyZero`, `MultiplyBlocks` and `RigidMultiply` state that composition is associative, has the identity as unit and zero as absorber, composes rotation and translation blocks as R_a·R_b and R_a·t_b + t_a, and keeps poses rigid. |
| `Pose.MultiplyAssoc` | src/app/pose.js:43-47 | Pose composition is associative. |
| `Pose.MultiplyIdentity` | src/app/pose.js:43-47 | The identity pose is a left and right unit of composition. |
| `Pose.MultiplyZero` | src/app/pose.js:43-47 | Composing with the zero matrix (the value of `new Twist()`) gives zero on either side. |
| `Pose.MultiplyBlocks` | src/app/pose.js:43-47 | With an affine right operand, the product's rotation is R_a·R_b and its translation is R_a·t_b + t_a. |
| `Pose.MultiplyTranslationColumn` | src/app/pose.js:43-47 | When the right operand's bottom-right cell is 0, as in a twist, the product's translation column is R_a times the operand's translation column. |
| `Pose.RigidMultiply` | src/app/pose.js:43-47 | The product of two rigid transforms is rigid. |
| `Pose.Transform` | src/app/pose.js:53-58 | `transform` returns a vector of the same length as its argument, for 3-vectors and homogeneous 4-vectors. |
| `Pose.TransformHomogeneous` | src/app/pose.js:53-58 | On a 3-vector, `transform` gives R·v + t: the same result as the full product on (v, 1), with the trailing 1 dropped. |
| `Pose.Inv` | src/app/pose.js:63-70 | `inv` keeps the bottom row, its rotation is Rᵀ and its translation is −Rᵀ·t. |
| `Pose.InvIsInverse` | src/app/pose.js:63-70 | For a rigid pose P, inv(P)·P = P·inv(P) = I. |
| `Pose.InvRigid` | src/app/pose.js:63-70 | The inverse of a rigid pose is rigid, and inverting twice gives the pose back. |
| `Pose.InvIdentity` | src/app/pose.js:63-70 | The identity is its own inverse. |
| `Pose.InverseUnique` | src/app/pose.js:63-70 | For a rigid pose P, every C with C·P = I is inv(P). |
| `Pose.InvMultiply` | src/app/pose.js:63-70 | For rigid A and B, inv(A·B) = inv(B)·inv(A). |
| `Pose.ConjugateHat3` | src/app/twist.js:57-70 | For every 3×3 R, R·hat(ω)·Rᵀ = hat(adj(Rᵀ)·ω). |
| `Pose.ConjugateHat3Orthonormal` | src/app/twist.js:57-70 | For orthonormal R, R·hat(ω)·Rᵀ = hat(det(R)·R·ω). |
| `Pose.Translation` | src/app/pose.js:151-153 | No contract of its own. `getTranslation` reads rows 0-2 of column 3. `Pose.Location`, `Pose.SetTranslation` and `Pose.MultiplyBlocks` state what it returns after `getLocation`, `setTranslation` and `multiply`. |
| `Pose.Rotation` | src/app/pose.js:171-173 | No contract of its own. `getRotationMatrix` reads the upper-left 3×3 block. `Pose.SetRotation` states that `setRotationMatrix(r)` reads back as r, and `Pose.MultiplyBlocks` that the block of a product is R_a·R_b. |
| `Pose.Translate` | src/app/pose.js:76-80 | `translate(v)` adds v to the translation and keeps the rotation block and the bottom row. |
| `Pose.ElementaryX` | src/app/pose.js:87-96 | No contract of its own. The rotation that `rotateByX` builds from cos and sin. `Pose.ElementaryRigid` states that it is rigid with zero translation when c² + s² = 1, and `Pose.RotateByX` that `rotateByX` keeps the translation and maps rigid poses to rigid poses. |
| `Pose.ElementaryY` | src/app/pose.js:103-112 | No contract of its own. The same for `rotateByY`, stated by `Pose.ElementaryRigid` and `Pose.RotateByY`. |
| `Pose.ElementaryZ` | src/app/pose.js:119-128 | No contract of its own. The same for `rotateByZ`, stated by `Pose.ElementaryRigid` and `Pose.RotateByZ`. |
| `Pose.ElementaryRigid` | src/app/pose.js:87-128 | With c² + s² = 1, each of the three elementary rotations is rigid and has zero translation. |
| `Pose.RotateByX` | src/app/pose.js:87-96 | `rotateByX` keeps the translation column, and it maps a rigid pose to a rigid pose when c² + s² = 1. |
| `Pose.RotateByY` | src/app/pose.js:103-112 | The same for `rotateByY`, with the (0,2) sign convention. |
| `Pose.RotateByZ` | src/app/pose.js:119-128 | The same for `rotateByZ`. |
| `Pose.ChangeBasis` | src/app/pose.js:135-139 | No contract of its own. `changeBasis(B)` is inv(B)·P·B. `Pose.ChangeBasisIdentity`, `Pose.ChangeBasisRigid` and `Pose.ChangeBasisRoundTrip` state that the identity basis changes nothing, that rigidity is kept, and that changing back by inv(B) returns P. |
| `Pose.ChangeBasisIdentity` | src/app/pose.js:135-139 | `changeBasis(identity)` returns the pose unchanged. |
| `Pose.ChangeBasisRigid` | src/app/pose.js:135-139 | For a rigid basis B, the identity's change of basis is the identity, and a rigid pose stays rigid. |
| `Pose.ChangeBasisRoundTrip` | src/app/pose.js:135-139 | Changing basis by B and then by inv(B) gives the original pose back. |
| `Pose.Location` | src/app/pose.js:144-146 | `getLocation` has four entries: the translation followed by the bottom-right cell. |
| `Pose.SetTranslation` | src/app/pose.js:158-166 | `setTranslation` makes `getTranslation` read back exactly t, and writes no cell outside rows 0-2 of column 3. |
| `Pose.SetRotation` | src/app/pose.js:178-180 | `setRotationMatrix` makes `getRotationMatrix` read back exactly R, and keeps the translation and the bottom row. |
| `Pose.FromColumns` | src/app/pose.js:203-205 | Writing three columns into the identity gives the rotation block with those columns, zero translation and an affine bottom row. |
| `Pose.CreatePoseFromAxisAsWritten` | src/app/pose.js:188-208 | As written: identity when ‖axis‖ ≤ 1e-12. Otherwise column 2 is axis/‖axis‖, the three columns are pairwise orthogonal and the translation is zero. |
| `Pose.AsWrittenFallbackAlongX` | src/app/pose.js:198-202 | For an axis along ±x, the fallback branch gives a rigid pose with determinant 1. |
| `Pose.AsWrittenPrimary` | src/app/pose.js:193-197 | In the primary branch, column 1 is z × x̂, which is never normalised. |
| `Pose.AsWrittenNotUnit` | src/app/pose.js:195-197 | In the primary branch with a nonzero x component, column 1 has squared length 1 − z_x² ≠ 1, so the pose is not rigid. |
| `Pose.AsWrittenNotUnitWitness` | src/app/pose.js:195-197 | The axis (3, 4, 0) with norm 5 takes the primary branch: z = (0.6, 0.8, 0) and z × x̂ = (0, 0, −0.8). |
| `Pose.NonUnitColumnNotRigid` | src/app/pose.js:195-197 | A pose with a column of length other than 1 is not rigid. |
| `Pose.CreatePoseFromAxis` | src/app/pose.js:188-208 | Corrected: identity when ‖axis‖ ≤ 1e-12. Otherwise column 2 is axis/‖axis‖, the pose is rigid with determinant 1 and the translation is zero. |
| `Pose.ProperBasisFromSeed` | src/app/pose.js:193-202 | Normalising the seed vector of either branch and completing it with cross products gives a right-handed orthonormal basis. |
| `Pose.UnitBasis` | src/app/pose.js:203-205 | Three unit, pairwise orthogonal columns make a rigid pose whose determinant is the triple product. |
| `Pose.CreatePoseIdentity` | src/app/pose.js:214-216 | `createPoseIdentity` is rigid, has zero translation and is a two-sided unit of composition. |
| `Twist.HatInto` | src/app/twist.js:57-67 | `hat` puts v[0..2] in the translation column, and keeps the diagonal and the bottom row of the matrix it writes into. |
| `Twist.Unhat` | src/app/twist.js:72-81 | `unhat` returns a 6-vector. |
| `Twist.UnhatHat` | src/app/twist.js:57-81 | unhat(hat(v)) = v for every 6-vector, whatever matrix `hat` writes into. |
| `Twist.NewTwist` | src/app/twist.js:11-14 | No contract of its own. `new Twist(v)`: the hat of v. `Twist.NewTwistShape`, `Twist.NewTwistExplicit` and `Twist.NewTwistZero` state that it lies in se(3), that `unhat` gives v back, its sixteen cells, and that the default is zero. |
| `Twist.NewTwistShape` | src/app/twist.js:11-14 | `new Twist(v)` is in se(3) form (skew-symmetric block, zero diagonal, zero bottom row), with v[0..2] as translation; unhat gives v back. |
| `Twist.NewTwistExplicit` | src/app/twist.js:57-67 | `new Twist(v)` is the hat matrix of v, cell by cell. |
| `Twist.NewTwistZero` | src/app/twist.js:11-14 | `new Twist()` is the 4×4 zero matrix. |
| `Twist.HatUnhat` | src/app/twist.js:72-81 | hat(unhat(T)) = T exactly when T is in se(3) form (both directions). |
| `Twist.Clone` | src/app/twist.js:16 | No contract of its own. `clone()` rebuilds the twist from its unhat. `Twist.CloneProjects` states that the clone lies in se(3), has the same unhat, is idempotent, and equals the original on se(3). |
| `Twist.CloneProjects` | src/app/twist.js:16 | `clone` always yields an se(3) matrix with the same unhat. It is idempotent, and it is the identity on se(3) matrices. |
| `Twist.Add` | src/app/twist.js:28-32 | No contract of its own. Cell-wise sum. `Twist.UnhatLinear`, `Twist.Se3Closed`, `Twist.AddZero`, `Twist.AddCommutes` and `Twist.AddAssociates` state that unhat maps it to the vector sum, se(3) is closed under it, and it is a commutative monoid with zero. |
| `Twist.Subtract` | src/app/twist.js:38-42 | No contract of its own. Cell-wise difference. `Twist.UnhatLinear` and `Twist.Se3Closed` state that unhat maps it to the vector difference and that se(3) is closed under it. |
| `Twist.Scale` | src/app/twist.js:48-52 | No contract of its own. Cell-wise scaling. `Twist.UnhatLinear`, `Twist.Se3Closed`, `Twist.ScaleZero`, `Twist.ScaleIsScalarMultiply` and `Twist.MultiplyScale` state that unhat scales, se(3) is closed, scaling by 0 gives zero, and it is multiplication by k·I. |
| `Twist.UnhatLinear` | src/app/twist.js:28-52 | `unhat` is linear over `add`, `subtract` and `scale`. |
| `Twist.Se3Closed` | src/app/twist.js:28-52 | se(3) form is closed under `add`, `subtract` and `scale`, and contains zero. |
| `Twist.AddZero` | src/app/twist.js:28-32 | Zero is a two-sided unit of `add`. |
| `Twist.AddCommutes` | src/app/twist.js:28-32 | `add` is commutative. |
| `Twist.AddAssociates` | src/app/twist.js:28-32 | `add` is associative. |
| `Twist.ScaleZero` | src/app/twist.js:48-52 | Scaling by 0 gives the zero matrix. |
| `Twist.ScaleByZeroMatrix` | src/app/twist.js:48-52 | Scaling the zero matrix by any factor gives zero. |
| `Twist.ScaleIsScalarMultiply` | src/app/twist.js:48-52 | `scale(k)` equals multiplication by the scalar matrix kI. |
| `Twist.MultiplyScale` | src/app/twist.js:48-52 | A·(k·B) = k·(A·B). |
| `Twist.MultiplyDistributesRight` | src/app/twist.js:18-22 | A·(B + C) = A·B + A·C. |
| `Twist.MultiplyDistributesLeft` | src/app/twist.js:18-22 | (A + B)·C = A·C + B·C. |
| `Twist.ConjugateLinear` | src/app/twist.js:18-22 | A·M·B is linear in M: it distributes over sums and scaling, and is zero at zero. |
| `Joint.Refreshed` | src/app/joint.js:21-252 | No contract of its own. The seven caches each `updateLocal` writes. `Joint.UpdateLocal` and the four per-kind methods are proved to produce it; `Joint.RefreshOverwrites` states that a second refresh overwrites the first; `Joint.RotationJointCaches` and `Joint.TranslationJointCaches` state the matrices it yields from fresh caches. |
| `Joint.FreshCaches` | src/app/frame.js:33-57 | A new frame's caches: the given local pose, its inverse, and zero derivatives and local twist. |
| `Joint.FixedFrameChain` | src/app/frame.js:33-57 | The caches of a new frame on a rigid pose satisfy the derivative-chain identities, with every derivative zero. |
| `Joint.UpdateLocal` | src/app/joint.js:21-252 | `updateLocal` on any joint kind leaves exactly the caches that `Refreshed` describes for cos q and sin q. |
| `Joint.UpdateRotationX` | src/app/joint.js:21-54 | The twenty-four cell writes and the product of the x-rotation give `Refreshed(Rotation(X), …)`. |
| `Joint.UpdateRotationY` | src/app/joint.js:74-108 | The same for the y-rotation. |
| `Joint.UpdateRotationZ` | src/app/joint.js:128-162 | The same for the z-rotation. |
| `Joint.UpdateTranslation` | src/app/joint.js:182-252 | The five cell writes of each translation joint give `Refreshed(Translation(ax), …)`. |
| `Joint.RefreshOverwrites` | src/app/joint.js:21-252 | Running `updateLocal` again overwrites everything the previous run wrote, so two runs at the same q give identical caches. |
| `Joint.RotationOverwrites` | src/app/joint.js:21-162 | The rotation case of the above, with the cos/sin of the earlier run arbitrary. |
| `Joint.TranslationOverwrites` | src/app/joint.js:182-252 | The translation case of the above, with the earlier q arbitrary. |
| `Joint.JointCachesAreFresh` | src/app/joint.js:14-19 | A joint starts with the caches of a frame on the identity pose. |
| `Joint.RotationJointCaches` | src/app/joint.js:21-162 | With c² + s² = 1, a rotation joint's local pose is the elementary rotation, its local twist is hat of the unit angular velocity about the axis, and all caches satisfy the derivative-chain identities. |
| `Joint.RotationXCaches` | src/app/joint.js:21-53 | After the first `updateLocal`, the x-joint caches are the closed form written out, and the local pose is the elementary x-rotation. |
| `Joint.RotationXTwist` | src/app/joint.js:53 | With c² + s² = 1, `child_pose_parent · parent_dif1_child` is hat(0,0,0,1,0,0). |
| `Joint.RotationXProducts` | src/app/joint.js:24-52 | The x-joint caches are mutually inverse, dif1 = P·Ŵ, dif2 = dif1·Ŵ, and the child derivatives are the inverse's derivatives. |
| `Joint.RotationYCaches` | src/app/joint.js:77-107 | The same closed form for the y-joint. |
| `Joint.RotationYTwist` | src/app/joint.js:107 | The y-joint's local twist is hat(0,0,0,0,1,0). |
| `Joint.RotationYProducts` | src/app/joint.js:77-105 | The same identities for the y-joint. |
| `Joint.RotationZCaches` | src/app/joint.js:131-161 | The same closed form for the z-joint. |
| `Joint.RotationZTwist` | src/app/joint.js:161 | The z-joint's local twist is hat(0,0,0,0,0,1). |
| `Joint.RotationZProducts` | src/app/joint.js:131-159 | The same identities for the z-joint. |
| `Joint.TranslationJointCaches` | src/app/joint.js:182-252 | A translation joint's local pose is translation by q along its axis, its local twist is hat of the unit linear velocity, and the caches satisfy the derivative-chain identities. |
| `Joint.TranslationCaches` | src/app/joint.js:182-252 | After the first `updateLocal`, the caches are the closed form: q and −q in the axis cell, dif1 1, child dif1 −1, dif2 zero. |
| `Joint.TranslationChain` | src/app/joint.js:182-252 | The translation closed form has the unit twist and satisfies the derivative-chain identities. |
| `Joint.TranslationXChain` | src/app/joint.js:183-191 | The derivative-chain identities for the x-translation. |
| `Joint.TranslationXInverse` | src/app/joint.js:183-187 | −q in `child_pose_parent` exactly inverts q in `parent_pose_child`. |
| `Joint.TranslationXTwist` | src/app/joint.js:191 | The local twist is hat(1,0,0,0,0,0). |
| `Joint.TranslationXDerivatives` | src/app/joint.js:183-191 | dif1 = P·Ŵ and dif2 = dif1·Ŵ = 0. |
| `Joint.TranslationXInverseDerivatives` | src/app/joint.js:183-191 | The child derivatives are −Ŵ·inv(P) and −Ŵ·child dif1. |
| `Joint.TranslationXFirstInverseDerivative` | src/app/joint.js:189 | child dif1 = −Ŵ·inv(P). |
| `Joint.TranslationXSecondInverseDerivative` | src/app/joint.js:182-192 | child dif2 = −Ŵ·child dif1, which is zero. |
| `Joint.TranslationYChain` | src/app/joint.js:213-221 | As for x, along y. |
| `Joint.TranslationYInverse` | src/app/joint.js:213-217 | As for x, along y. |
| `Joint.TranslationYTwist` | src/app/joint.js:221 | The local twist is hat(0,1,0,0,0,0). |
| `Joint.TranslationYDerivatives` | src/app/joint.js:213-221 | As for x, along y. |
| `Joint.TranslationYInverseDerivatives` | src/app/joint.js:213-221 | As for x, along y. |
| `Joint.TranslationYFirstInverseDerivative` | src/app/joint.js:219 | As for x, along y. |
| `Joint.TranslationYSecondInverseDerivative` | src/app/joint.js:212-222 | As for x, along y. |
| `Joint.TranslationZChain` | src/app/joint.js:243-251 | As for x, along z. |
| `Joint.TranslationZInverse` | src/app/joint.js:243-247 | As for x, along z. |
| `Joint.TranslationZTwist` | src/app/joint.js:251 | The local twist is hat(0,0,1,0,0,0). |
| `Joint.TranslationZDerivatives` | src/app/joint.js:243-251 | As for x, along z. |
| `Joint.TranslationZInverseDerivatives` | src/app/joint.js:243-251 | As for x, along z. |
| `Joint.TranslationZFirstInverseDerivative` | src/app/joint.js:249 | As for x, along z. |
| `Joint.TranslationZSecondInverseDerivative` | src/app/joint.js:242-252 | As for x, along z. |
| `Frame.NewFrame` | src/app/frame.js:13-74 | A new frame is fixed, with no children and q = q_dot = 0. It stores the given local pose and its inverse, zero derivative caches and local twist, an identity world pose and a zero world twist. |
| `Frame.NewFrameInverse` | src/app/frame.js:45 | For a rigid local pose, the cached `child_pose_parent` is its two-sided inverse. |
| `Frame.NewJoint` | src/app/joint.js:14-19 | A joint constructor gives a movable frame of the given kind, holding the initial q and q_dot, with the joint's initial caches. |
| `Frame.NewJointIsNewFrame` | src/app/joint.js:14-19 | A joint is a base frame on the identity pose with only `is_fixed`, q and q_dot changed. |
| `Frame.FromTranslation` | src/app/frame.js:257-261 | `createFrameFromTranslation` gives a fixed frame whose local pose is rigid: identity rotation, translation t. |
| `Frame.AncestorBefore` | src/app/frame.js:71-73 | An ancestor always comes earlier in the arena than its descendants. |
| `Frame.AncestorsOnOneChain` | src/app/frame.js:107-119 | Two ancestors of the same frame lie on one chain: the earlier is an ancestor of the later. |
| `Frame.ConjugateZero` | src/app/frame.js:86 | Carrying a zero parent twist through a frame gives zero. |
| `Frame.MixedStepZero` | src/app/frame.js:184-186 | The once-differentiated carry of a zero twist is zero. |
| `Frame.ParPoseQ` | src/app/frame.js:107-119 | No contract of its own. `parPoseQ(i)`. `Frame.ParPoseQOffChain`, `Frame.ParPoseQProduct` and `Frame.ParPoseQInsertsTwist` state that it is zero off the chain, that it is W_p·dif1_i·(poses from i down to k) with p the parent of i, and that after `update()` it is W_i·ptc_i·(poses from i down to k), the world pose with joint i's twist inserted. |
| `Frame.Par2PoseQQ` | src/app/frame.js:126-144 | No contract of its own. `par2PoseQQ(i, j)`. `Frame.Par2PoseQQSymmetric` and `Frame.Par2PoseQQOffChain` state that it is symmetric in i and j and zero unless both are on the chain. |
| `Frame.ParTwistQ` | src/app/frame.js:150-164 | No contract of its own. `parTwistQ(i)`. `Frame.ParTwistQOffChain` states that it is zero unless i is on the chain. `Frame.ParTwistQIsMixedTimesSpeeds` states that after `update()` it is Σ_j par2TwistQQdot(i, j)·q_dot_j. |
| `Frame.Par2TwistQQ` | src/app/frame.js:171-197 | No contract of its own. `par2TwistQQ(i, j)`. `Frame.Par2TwistQQSymmetric` and `Frame.Par2TwistQQOffChain` state symmetry and that it vanishes off the chain. |
| `Frame.ParTwistQdot` | src/app/frame.js:203-215 | No contract of its own. `parTwistQdot(i)`. `Frame.ParTwistQdotOffChain` states that it is zero off the chain. `Frame.ParTwistQdotSe3` states that it lies in se(3). `Frame.BodyDerivativeIsParTwistQdot` states that after `update()` it is inv(W)·parPoseQ(i). `Frame.WorldTwistIsJacobianTimesSpeeds` states that the world twist is the sum of these columns times the speeds. |
| `Frame.Par2TwistQdotQdot` | src/app/frame.js:222-224 | No contract of its own. `par2TwistQdotQdot` is always the zero twist; `Body.Par2VelocityQdotQdot` states the zero 6-vector it gives. |
| `Frame.Par2TwistQQdot` | src/app/frame.js:231-248 | No contract of its own. `par2TwistQQdot(q, qd)`. `Frame.Par2TwistQQdotVanishes` states when it is zero. `Frame.ParTwistQIsMixedTimesSpeeds` states that its sum against the speeds is `parTwistQ`. |
| `Frame.ParPoseQOffChain` | src/app/frame.js:107-119 | `parPoseQ(i)` is zero at the root, and zero whenever i is not this frame or one of its ancestors. |
| `Frame.ParPoseQProduct` | src/app/frame.js:107-119 | For an ancestor i, `parPoseQ(i)` is (world pose of i's parent · dif1 of i) · (the local poses from i down to this frame). |
| `Frame.Par2PoseQQSymmetric` | src/app/frame.js:126-144 | par2PoseQQ(i, j) = par2PoseQQ(j, i). |
| `Frame.Par2PoseQQOffChain` | src/app/frame.js:126-144 | par2PoseQQ(i, j) is zero at the root, or when i or j is off the ancestor-or-self chain. |
| `Frame.ParTwistQOffChain` | src/app/frame.js:150-164 | `parTwistQ(i)` is zero at the root and for i off the chain. |
| `Frame.Par2TwistQQSymmetric` | src/app/frame.js:171-197 | par2TwistQQ(i, j) = par2TwistQQ(j, i). |
| `Frame.Par2TwistQQOffChain` | src/app/frame.js:171-197 | par2TwistQQ(i, j) is zero at the root, or when i or j is off the chain. |
| `Frame.ParTwistQdotOffChain` | src/app/frame.js:203-215 | `parTwistQdot(i)` is zero at the root and for i off the chain. |
| `Frame.Par2TwistQQdotVanishes` | src/app/frame.js:231-248 | par2TwistQQdot(q, qd) is zero unless q is on this frame's chain and qd is a strict ancestor of q. In particular it is zero when qd is this frame and q is not. |
| `Frame.LocalStep` | src/app/frame.js:78-93 | No contract of its own. One frame's part of `update()`: world pose W_p·ppc, and a world twist from the parent's twist and the joint speed. `Frame.UpdatePropagates` states that every frame of the settled arena is a fixed point of it, and `Frame.UpdateIdempotent` that a second `update()` changes nothing. |
| `Frame.Settled` | src/app/frame.js:78-97 | After `update()`, a frame differs from before only in its caches, world pose and world twist; parent, children, kind, q and q_dot are untouched. |
| `Frame.SettledAll` | src/app/frame.js:78-97 | `update()` from the root keeps the arena's length and settles every frame. |
| `Frame.SettledLinked` | src/app/frame.js:78-97 | `update()` keeps the parent links well formed. |
| `Frame.UpdatePropagates` | src/app/frame.js:78-97 | After `update()`, the root's world pose is its local pose and its twist is zero. Every other frame has world pose = parent world pose · local pose, and world twist = inv(P)·parent twist·P, plus q_dot·local twist for a joint. |
| `Frame.SettledTwice` | src/app/frame.js:78-97 | Updating an already-updated arena leaves each frame as one update left it. |
| `Frame.UpdateIdempotent` | src/app/frame.js:78-97 | `update()` is idempotent. |
| `Frame.WorldPoseRigid` | src/app/frame.js:85 | If every local pose is rigid, every world pose is rigid after `update()`. |
| `Frame.WorldPoseProduct` | src/app/frame.js:80-85 | After `update()`, a frame's world pose is an ancestor's world pose times the local poses between them. |
| `Frame.ParPoseQInsertsTwist` | src/app/frame.js:113 | After `update()`, `parPoseQ(i)` is i's world pose with i's local twist inserted, then carried down to this frame. |
| `Frame.ZeroSpeedsZeroTwist` | src/app/frame.js:80-93 | If every q_dot is zero, every world twist is zero after `update()`. |
| `Frame.JacobianTimesSpeedsAtRoot` | src/app/frame.js:203-215 | At the root, the sum over frames of `parTwistQdot(j)·q_dot_j` is zero. |
| `Frame.JacobianTimesSpeedsStep` | src/app/frame.js:203-215 | That sum satisfies the same recursion as the world twist: the parent's sum carried through the frame, plus the frame's own term. |
| `Frame.WorldTwistIsJacobianTimesSpeeds` | src/app/frame.js:86-91 | After `update()`, every world twist equals the sum over the movable frames of `parTwistQdot(j)·q_dot_j`. |
| `Frame.ChainInverse` | src/app/frame.js:42-45 | In a derivative chain, the cached child_pose_parent is inv(parent_pose_child). |
| `Frame.ConjugateSe3` | src/app/frame.js:86 | Carrying an se(3) twist through a frame with a rigid local pose, child_pose_parent·V·parent_pose_child, gives an se(3) twist. |
| `Frame.ParTwistQdotSe3` | src/app/frame.js:203-215 | When every frame's caches form a derivative chain, `parTwistQdot(i)` lies in se(3) for every i. |
| `Frame.BodyDerivativeIsParTwistQdot` | src/app/frame.js:203-215 | After `update()`, with derivative chains, inv(W)·parPoseQ(i) = parTwistQdot(i). The pose derivative in body coordinates is the twist column. |
| `Frame.QQdotTimesSpeeds` | src/app/frame.js:231-248 | No contract of its own. Σ_{j<n} par2TwistQQdot(i, j)·q_dot_j. `Frame.QQdotTimesSpeedsAtRoot`, `Frame.QQdotTimesSpeedsOwn` and `Frame.QQdotTimesSpeedsCarried` state its recursion. `Frame.ParTwistQIsMixedTimesSpeeds` states that it is `parTwistQ(i)`. |
| `Frame.MixedStepLinear` | src/app/frame.js:184-186 | The once-differentiated carry is linear: MixedStep(m + r·n) = MixedStep(m) + r·MixedStep(n). |
| `Frame.QQdotTimesSpeedsAtRoot` | src/app/frame.js:231-234 | At the root, the speeds-weighted sum of par2TwistQQdot is zero. |
| `Frame.QQdotTimesSpeedsOwn` | src/app/frame.js:236-240 | For q = this frame, the sum is the once-differentiated carry of the parent's sum of parTwistQdot(j)·q_dot_j. |
| `Frame.QQdotTimesSpeedsCarried` | src/app/frame.js:241-246 | For q ≠ this frame, the sum is the parent's sum carried through the frame. The term with qd = this frame drops out. |
| `Frame.ParTwistQIsMixedTimesSpeeds` | src/app/frame.js:150-164 | After `update()`, parTwistQ(i) = Σ_j par2TwistQQdot(i, j)·q_dot_j over all frames. The twist is linear in the speeds, so its q-derivative is the mixed derivative times the speeds. |
| `Frame.SettledDerivativeChains` | src/app/frame.js:78-97 | After `update()`, every frame's caches form a derivative chain, when every frame is joint-shaped and every fixed frame's own caches already do (as `Joint.FixedFrameChain` gives for a rigid offset). |
| `Frame.SettledJointCaches` | src/app/frame.js:79 | After `update()`, a joint's local pose is its joint transform and its local twist is its unit twist; its caches satisfy the derivative-chain identities. |
| `Body.NewBody` | src/app/body.js:16-22 | A body is a fixed frame on the given local pose whose inertia is exactly [m, m, m, i_xx, i_yy, i_zz]. |
| `Body.Position` | src/app/body.js:27-29 | No contract of its own. `position()`, column 3 of the world pose. `Body.PositionIsWorldTranslation` states that after `update()` it is the world translation followed by 1. |
| `Body.PositionIsWorldTranslation` | src/app/body.js:27-29 | After `update()` with rigid local poses, `position` is (world translation, 1). |
| `Body.ParPositionQ` | src/app/body.js:35-37 | No contract of its own. Column 3 of `parPoseQ(i)`. `Body.PositionDerivativesOffChain` states that it is zero off the chain. |
| `Body.Par2PositionQQ` | src/app/body.js:44-46 | No contract of its own. Column 3 of `par2PoseQQ(i, j)`. `Body.PositionDerivativesOffChain` states that it is zero unless both are on the chain. |
| `Body.Velocity` | src/app/body.js:51-53 | No contract of its own. `velocity()`, unhat of the world twist. `Body.VelocityAtRest` and `Body.VelocityIsJacobianTimesSpeeds` state that it is zero at rest and equals the speeds-weighted sum of `parVelocityQdot`. |
| `Body.PositionDerivativesOffChain` | src/app/body.js:35-46 | `parPositionQ` and `par2PositionQQ` are zero for a coordinate off the body's chain. |
| `Body.ParVelocityQ` | src/app/body.js:59-61 | No contract of its own. Unhat of `parTwistQ(i)`. `Body.VelocityDerivativesOffChain` states that it is zero off the chain. |
| `Body.Par2VelocityQQ` | src/app/body.js:68-70 | No contract of its own. Unhat of `par2TwistQQ(i, j)`. `Body.VelocityDerivativesOffChain` states that it is zero unless both are on the chain. |
| `Body.ParVelocityQdot` | src/app/body.js:76-78 | No contract of its own. Unhat of `parTwistQdot(i)`. `Body.VelocityDerivativesOffChain` states that it is zero off the chain. |
| `Body.VelocityDerivativesOffChain` | src/app/body.js:59-78 | `parVelocityQ`, `parVelocityQdot` and `par2VelocityQQ` are zero for a coordinate off the chain. |
| `Body.Par2VelocityQdotQdot` | src/app/body.js:85-87 | `par2VelocityQdotQdot` is always the zero 6-vector. |
| `Body.Par2VelocityQQdot` | src/app/body.js:94-96 | No contract of its own. Unhat of `par2TwistQQdot(q, qd)`, stated by `Body.Par2VelocityQQdotVanishes`. |
| `Body.Par2VelocityQQdotVanishes` | src/app/body.js:94-96 | `par2VelocityQQdot` is zero unless q is on the chain and qd is a strict ancestor of q. |
| `Body.VelocityFromSpeeds` | src/app/body.js:51-53 | The sum over the first n frames of `parVelocityQdot(j)` times j's speed: a 6-vector. `Body.UnhatJacobianTimesSpeeds` states that it is the unhat of the Jacobian-times-speeds twist, and `Body.VelocityIsJacobianTimesSpeeds` that after `update()` it is `velocity()`. |
| `Body.VelocityAtRest` | src/app/body.js:51-53 | With every q_dot zero, `velocity` is the zero 6-vector after `update()`. |
| `Body.UnhatJacobianTimesSpeeds` | src/app/body.js:51-53 | unhat of the Jacobian-times-speeds sum is the sum of the unhatted columns times the speeds. |
| `Body.VelocityIsJacobianTimesSpeeds` | src/app/body.js:51-53 | After `update()`, `velocity` = Σ_j parVelocityQdot(j)·q_dot_j. |
| `Tree.MovableIndices` | src/app/kinematic_tree.js:29-31 | No contract of its own. The coordinates list `addFrame` grows. `Tree.MovableIndicesExact` states that it lists exactly the movable frames, each once, in increasing order. |
| `Tree.MovableIndicesExact` | src/app/kinematic_tree.js:29-31 | The coordinate list holds exactly the movable frames, in increasing (insertion) order. |
| `Tree.MovableInArena` | src/app/kinematic_tree.js:29-31 | Every coordinate refers to a frame of the arena. |
| `Tree.MovableIndicesSameKinds` | src/app/kinematic_tree.js:29-31 | The coordinate list depends only on the frames' kinds. |
| `Tree.RootReachesAll` | src/app/kinematic_tree.js:27 | In a tree built by `addFrame`, the spatial root is an ancestor of every frame. |
| `Tree.ChildrenCoverSubtree` | src/app/frame.js:94-96 | The frames below k's children are exactly the frames strictly below k, so the recursion over children visits the whole subtree. |
| `Tree.NextChildFresh` | src/app/frame.js:94-96 | A frame below the n-th child is below none of the earlier children, so the loop over children visits each frame once. |
| `Tree.ChildSubtreesDisjoint` | src/app/frame.js:94-96 | The subtrees of two different children of one frame are disjoint. |
| `Tree.Build` | src/app/kinematic_tree.js:28 | The frame constructor gives a frame whose parent is the given frame, with no children. It is movable exactly for a joint constructor, and its caches are in closed form. |
| `Tree.Attached` | src/app/frame.js:71-73 | Construction appends the new frame at the end of the arena. |
| `Tree.AttachedChildren` | src/app/frame.js:71-73 | Appending the frame to its parent's `children` keeps every children list consistent with the parent links and in insertion order. |
| `Tree.AttachedListed` | src/app/frame.js:71-73 | After construction, every frame with a parent is listed among its parent's children. |
| `Tree.AttachedTree` | src/app/kinematic_tree.js:26-32 | Attaching keeps a tree, and appends the new index to the coordinates iff the frame is movable. |
| `Tree.AttachedInvariant` | src/app/kinematic_tree.js:26-32 | Attaching a built frame and registering its name keeps the tree invariant. |
| `Tree.AssignQ` | src/app/kinematic_tree.js:37-40 | The assignment loop keeps the arena's length. |
| `Tree.AssignQOnlyQ` | src/app/kinematic_tree.js:37-40 | The loop changes nothing but q. |
| `Tree.AssignQValues` | src/app/kinematic_tree.js:37-40 | Coordinate i receives v[i]; frames that are not coordinates keep their q. |
| `Tree.Coordinates` | src/app/kinematic_tree.js:47-53 | `getCoordinates` returns one value per coordinate. |
| `Tree.AssignCurrentCoordinates` | src/app/kinematic_tree.js:37-53 | Assigning the current coordinates changes nothing. |
| `Tree.SetThenGetCoordinates` | src/app/kinematic_tree.js:37-53 | After setCoordinates(v), getCoordinates() = the first \|coordinates\| entries of v (v itself when the lengths agree). |
| `Tree.SetCurrentCoordinatesKeepsState` | src/app/kinematic_tree.js:37-42 | On an updated tree, setCoordinates(getCoordinates()) leaves every q, pose and twist unchanged. |
| `Tree.SpatialColumn` | src/app/kinematic_tree.js:72 | A Jacobian column, unhat(parPoseQ(frame)), is a 6-vector. |
| `Tree.WorldColumn` | src/app/kinematic_tree.js:63-72 | Corrected column for coordinate i: a 6-vector whose linear rows 0-2 are those of the source's column unhat(parPoseQ(i)). Its angular rows 3-5 are the skew part of parPoseQ(i)·inv(W). `Tree.WorldColumnFromBody` states that it is the body column turned into world axes, which makes it the world-coordinate column of x_dot = J·q_dot. |
| `Tree.WorldColumnAngular` | src/app/kinematic_tree.js:63-72 | After `update()`, the angular rows of the corrected column for coordinate i are the same for every frame at or below joint i. They equal the skew part of W_i·ptc_i·inv(W_i), the joint's axis turned into world axes. |
| `Tree.JacobianDropsSpin` | src/app/kinematic_tree.js:63-72 | A z-revolute joint under the root, at cos q = 0 and sin q = 1, with a frame one unit along x below it. The source's column for that frame is (−1,0,0,0,0,0): it has no angular velocity. The corrected column is (−1,0,0,0,0,1). |
| `Tree.AsWrittenColumns` | src/app/kinematic_tree.js:68-80 | The source's columns, unhat(parPoseQ(coordinate)) with the as-written point shift: one per coordinate. |
| `Tree.ShiftToPoint` | src/app/kinematic_tree.js:74-80 | Corrected point correction: keeps the angular rows 3-5 and adds w × point to the linear rows. `point` is the point's offset from the frame's origin, in world axes. `Tree.PointColumnIsPointVelocity` shows that the shifted linear rows are then the velocity of that point. |
| `Tree.PointVelocity` | src/app/kinematic_tree.js:63-80 | For a rigid pose W whose derivative d has inv(W)·d in se(3), and a point fixed at b in the body's axes: d's translation plus (the world spin of d) × (R·b) equals R_d·b + t_d, the derivative of the point's world position W·b. |
| `Tree.PointColumnIsPointVelocity` | src/app/kinematic_tree.js:63-80 | After `update()`, for every coordinate i and every point b fixed in frame k, take the corrected world column of i shifted to R·b, where R is frame k's world rotation. Its linear rows equal `transform(parPoseQ(i), b)`, the q_i-derivative of the point's world position. So J·q_dot about the point is the point's velocity, as the `point` argument of `getJacobian` promises. |
| `Tree.ShiftAsWritten` | src/app/kinematic_tree.js:74-80 | As-written point correction: keeps the angular rows 3-5. |
| `Tree.ShiftAsWrittenMovesTranslation` | src/app/kinematic_tree.js:76 | For a pure translation column and a point not parallel to it, the corrected shift leaves the column alone, but the as-written one changes it. |
| `Tree.ShiftAsWrittenWitness` | src/app/kinematic_tree.js:76 | The column (1,0,0,0,0,0) with the point (0,1,0) satisfies the premises: (1,0,0) × (0,1,0) = (0,0,1). |
| `Tree.JacobianColumns` | src/app/kinematic_tree.js:68-80 | `getJacobian` builds one column per coordinate, using the corrected world column and the corrected point shift. |
| `Tree.JacobianColumnsProperties` | src/app/kinematic_tree.js:68-80 | A column is zero for a coordinate off the body's chain. Rows 3-5 always equal the corrected world column's angular rows. Without a 3-entry point, each column is exactly the corrected world column, and its linear rows 0-2 agree with the source's column. |
| `Tree.Transposed` | src/app/kinematic_tree.js:81 | The transposed columns form 6 rows of one entry per coordinate, with rows[r][c] = cols[c][r]. |
| `Tree.BodyColumn` | src/app/kinematic_tree.js:93 | A body-Jacobian column is a 6-vector. `Tree.BodyColumnIsParTwistQdot` states that after `update()` it is unhat(parTwistQdot(i)). |
| `Tree.BodyColumns` | src/app/kinematic_tree.js:91-94 | `getBodyJacobian` builds one column per coordinate. |
| `Tree.BodyColumnOffChain` | src/app/kinematic_tree.js:88-96 | A body-Jacobian column is zero for a coordinate off the body's chain. |
| `Tree.BodyColumnOfOwnJoint` | src/app/kinematic_tree.js:88-96 | The body-Jacobian column of a frame's own joint is unhat of its local twist. |
| `Tree.BodyColumnIsParTwistQdot` | src/app/kinematic_tree.js:93 | After `update()`, with derivative chains, the body column for coordinate i is unhat(parTwistQdot(i)). |
| `Tree.BodyJacobianTimesSpeeds` | src/app/kinematic_tree.js:84-96 | Body J·q_dot over a list of coordinates: Σ_c BodyColumn(c)·q_dot_c, a 6-vector. |
| `Tree.BodyJacobianTimesSpeedsPartial` | src/app/kinematic_tree.js:84-96 | Over the movable frames below n, body J·q_dot = unhat(Σ_{j<n} parTwistQdot(j)·speed_j). |
| `Tree.BodyJacobianTimesSpeedsIsVelocity` | src/app/kinematic_tree.js:84 | After `update()`, body J·q_dot over all movable frames is unhat of the frame's world twist. For a Body this is `velocity()`. |
| `Tree.UpdatedBodyJacobianTimesSpeeds` | src/app/kinematic_tree.js:84-96 | x_dot = J·q_dot in body coordinates. Consider a tree of joint-shaped frames whose fixed frames have rigid offsets. After `update()`, the body Jacobian over the coordinate list times the speeds equals the frame's world twist, unhatted. |
| `Tree.WorldFromBody` | src/app/kinematic_tree.js:63-72 | For rigid W and for d with inv(W)·d in se(3), there are two facts. First, d's translation is R·(the translation of inv(W)·d). Second, the skew part of d·inv(W) is det(R)·R·(the angular part of inv(W)·d). |
| `Tree.WorldColumnFromBody` | src/app/kinematic_tree.js:63-72 | After `update()`, the corrected world column is the body column turned into world axes. Its linear rows are R·(the body linear rows), and its angular rows are det(R)·R·(the body angular rows), with det(R) = 1 or −1. |
| `Tree.RootFrame` | src/app/kinematic_tree.js:8 | The spatial frame has no parent, no children and is fixed. |
| `Tree.RootFrameIsNewFrame` | src/app/kinematic_tree.js:8 | The spatial frame is `new Frame(null, new Pose())`. |
| `Tree.SameShapeTree` | src/app/kinematic_tree.js:17-19 | Changing nothing but caches, q, speeds and world state keeps the tree and its coordinate list. |
| `Tree.SettledKeepsTree` | src/app/kinematic_tree.js:17-19 | `update()` keeps the tree, its coordinates and the closed form of every joint's caches. |
| `Tree.AssignQKeepsTree` | src/app/kinematic_tree.js:37-40 | Writing the q's keeps the tree, its coordinates and the closed form of every joint's caches. |
| `Tree.KinematicTree.constructor` | src/app/kinematic_tree.js:6-13 | A new tree holds only the spatial root, no names and no coordinates, and satisfies the invariant. |
| `Tree.KinematicTree.UpdateFrame` | src/app/frame.js:78-97 | The recursive `update()` of frame k settles exactly the frames of k's subtree and touches no other frame. |
| `Tree.NextChildSettled` | src/app/frame.js:94-96 | One pass of `update()`'s child loop. Once child idx has settled its subtree and left every other frame alone, the frames under the first idx + 1 children are settled, and every other frame except this one is as before the loop. |
| `Tree.KinematicTree.Update` | src/app/kinematic_tree.js:17-19 | `update()` from the spatial frame leaves every frame settled, keeps names and coordinates, and keeps the invariant. |
| `Tree.KinematicTree.AddFrame` | src/app/kinematic_tree.js:26-32 | `addFrame` appends the built frame under the named parent (the spatial root when none is given) and registers the name. It appends the index to `coordinates` iff the frame is not fixed, and keeps the invariant. |
| `Tree.KinematicTree.SetCoordinates` | src/app/kinematic_tree.js:37-42 | `setCoordinates(v)` writes v[i] into coordinate i and then updates the whole tree; names and coordinates stay. |
| `Tree.KinematicTree.GetCoordinates` | src/app/kinematic_tree.js:47-53 | `getCoordinates` returns the q of each coordinate, in order. |
| `Tree.KinematicTree.GetWorldPose` | src/app/kinematic_tree.js:59-61 | `getWorldPose(name)` returns the named frame's world pose (a value, so a copy). |
| `Tree.KinematicTree.GetJacobian` | src/app/kinematic_tree.js:68-82 | `getJacobian` returns the transpose of the per-coordinate corrected world columns, each shifted to the point when it has three entries. The point is an offset from the frame's origin in world axes, and `Tree.PointColumnIsPointVelocity` shows the shifted column gives that point's velocity. |
| `Tree.KinematicTree.GetBodyJacobian` | src/app/kinematic_tree.js:88-96 | `getBodyJacobian` returns the transpose of the columns unhat(inv(world pose)·parPoseQ(coordinate)). `Tree.UpdatedBodyJacobianTimesSpeeds` states that these columns times the speeds give the frame's body twist. |
| `Urdf.ParseValue` | src/app/urdf_loader.js:17-26 | `parseValue` returns the attribute text exactly when the element exists and the attribute is present and non-empty, and 0 otherwise. |
| `Urdf.Split` | src/app/urdf_loader.js:39 | `split(" ")` returns at least one field, and no field contains a space. |
| `Urdf.JoinSplit` | src/app/urdf_loader.js:39 | Joining the fields of `split(" ")` with spaces gives the string back. |
| `Urdf.SplitJoin` | src/app/urdf_loader.js:39 | Splitting space-free fields joined with spaces gives the fields back. |
| `Urdf.ParseTriplet` | src/app/urdf_loader.js:34-48 | No contract of its own. `parseTriplet`. `Urdf.TripletRoundTrip` and `Urdf.TripletFallback` state that three or more space-separated numbers give the first three, and any other input gives (0, 0, 0). |
| `Urdf.TagTriplet` | src/app/urdf_loader.js:49-55 | No contract of its own. `parseTagTriplet`: `parseTriplet` on the first element of the tag. `Urdf.JointPose` states that the joint pose's translation is the origin's `xyz` triplet. |
| `Urdf.TripletRoundTrip` | src/app/urdf_loader.js:34-48 | An attribute of three or more space-separated fields parses to its first three fields as numbers. |
| `Urdf.TripletFallback` | src/app/urdf_loader.js:34-48 | A missing element, a missing or empty attribute, or at most two fields gives (0, 0, 0). |
| `Urdf.AxisPose` | src/app/urdf_loader.js:62 | The axis pose is rigid with zero translation (using the corrected `createPoseFromAxis`). |
| `Urdf.RpyPose` | src/app/urdf_loader.js:62 | Rz(yaw)·Ry(pitch)·Rx(roll) translated by xyz has translation xyz, and is rigid when cos and sin are on the unit circle. |
| `Urdf.OriginPose` | src/app/urdf_loader.js:62 | The origin pose times the axis pose keeps translation xyz, and is rigid when cos and sin are on the unit circle. |
| `Urdf.JointPose` | src/app/urdf_loader.js:58-62 | A joint's local pose has the parsed origin xyz as translation, and is rigid when cos and sin are on the unit circle. |
| `Urdf.JointKindOf` | src/app/urdf_loader.js:63-80 | The joint kind chosen for a type is never fixed. |
| `Urdf.JointKindOfCases` | src/app/urdf_loader.js:63-80 | revolute and continuous give a z-rotation, prismatic a z-translation, and every other type (fixed, floating, planar, unknown, missing) a single fixed frame, in both directions. |
| `Urdf.ChildLink` | src/app/urdf_loader.js:133 | No contract of its own. `parseTagValue(joint, "child", "link")`, the link-map key. `Urdf.LinkMapOfKeys` and `Urdf.LinkMapOfLast` state that the link map's keys are exactly the named joints' child links, the last joint winning. |
| `Urdf.ParentLink` | src/app/urdf_loader.js:159 | No contract of its own. `parseTagValue(joint, "parent", "link")`. `Urdf.RootsIn` and `Urdf.ResolvedStep` state that a root is a joint whose parent link is not a key, and that attaching a joint whose parent link is registered keeps the resolution invariant. |
| `Urdf.AddMovableJoint` | src/app/urdf_loader.js:64-72 | A movable joint adds the fixed frame child + "_f" on the origin pose under the parent, then the joint named child under it; the tree invariant is kept. |
| `Urdf.AddFixedJoint` | src/app/urdf_loader.js:73-79 | Any other type adds one fixed frame named child on the origin pose under the parent. |
| `Urdf.AddJointFrame` | src/app/urdf_loader.js:56-81 | `addJointFrame` adds the frames, names and coordinates of its type's layout, with the parsed origin pose, and keeps the invariant. |
| `Urdf.AddPosedJointFrame` | src/app/urdf_loader.js:63-80 | The type switch of `addJointFrame` on a given origin pose: the arena, names and coordinates after it are `JointStep` of those before it. |
| `Urdf.JointStep` | src/app/urdf_loader.js:63-80 | No contract of its own. The state one `addJointFrame` call leaves. `Urdf.JointStepLands` states where its frames land. |
| `Urdf.JointStepLands` | src/app/urdf_loader.js:63-80 | After one joint: the frame named child is the joint primitive of the type's kind at q = 0 with speed 0, under a fixed frame on the origin pose that hangs under the parent's frame (for a fixed joint, that fixed frame itself). The registry gains exactly the joint's names, a movable joint adds one coordinate, and earlier frames keep everything but their children lists. |
| `Urdf.JointAddedKeys` | src/app/urdf_loader.js:56-81 | `addJointFrame` registers child (and child + "_f" for a movable joint) and no other name. |
| `Urdf.MovableJointLayout` | src/app/urdf_loader.js:66-67 | A movable joint's two frames: "_f" is a fixed child of the parent on the origin pose, and the joint is its only child, at q = 0 with speed 0. |
| `Urdf.MapSet` | src/app/urdf_loader.js:134 | `link_map.set`: a new key goes last; an existing key keeps its place and takes the later joint. |
| `Urdf.Without` | src/app/urdf_loader.js:152 | Removing a key from the order removes exactly that key and keeps keys distinct. |
| `Urdf.Delete` | src/app/urdf_loader.js:152 | `link_map.delete(k)` removes exactly the entry for k. |
| `Urdf.DeleteAll` | src/app/urdf_loader.js:149-153 | Deleting a sequence of keys removes exactly those entries. |
| `Urdf.LinkMapOf` | src/app/urdf_loader.js:130-139 | The link map built from the joints is well formed: distinct keys, in order. |
| `Urdf.LinkMapOfHas` | src/app/urdf_loader.js:130-139 | Every named joint's child link is a key. |
| `Urdf.LinkMapOfFrom` | src/app/urdf_loader.js:130-139 | Every key is the child link of some named joint. |
| `Urdf.LinkMapOfKeys` | src/app/urdf_loader.js:130-139 | The keys are exactly the child links of the named joints (both directions). |
| `Urdf.LinkMapOfLast` | src/app/urdf_loader.js:130-139 | A key maps to the last named joint with that child link. |
| `Urdf.BuildLinkMap` | src/app/urdf_loader.js:128-139 | The loop over joints builds exactly that link map. |
| `Urdf.RootsIn` | src/app/urdf_loader.js:141-147 | The roots are exactly the keys whose parent link is not a key, in map order, without repeats. |
| `Urdf.FindRoots` | src/app/urdf_loader.js:141-147 | The loop over the link map collects exactly those roots. |
| `Urdf.ParentOf` | src/app/urdf_loader.js:148-161 | A joint's frames hang under the spatial root exactly when it is a root; otherwise under the frame named after its parent link. |
| `Urdf.JointsAttached` | src/app/urdf_loader.js:148-166 | No contract of its own. The state after `addJointFrame` for each joint of an attach order, each under `ParentOf`. `Urdf.JointsAttachedSnoc` gives its step, and `Urdf.CreateKinematicTree` states that the returned tree is this fold over its attach order. |
| `Urdf.JointsAttachedSnoc` | src/app/urdf_loader.js:148-166 | Attaching one more joint is one more `JointStep`, under the joint's `ParentOf`. |
| `Urdf.RootAttachedNext` | src/app/urdf_loader.js:149-153 | Attaching the next root under the spatial frame extends the fold by that root. |
| `Urdf.JointAttachedNext` | src/app/urdf_loader.js:159-163 | Attaching a non-root joint under its parent link's frame extends the fold by that joint. |
| `Urdf.AttachJoint` | src/app/urdf_loader.js:150-152 | Attaching a joint adds its frames, names and coordinate as `JointStep` does, under the given parent. It registers exactly its names and deletes the joint from the link map. |
| `Urdf.RootsStep` | src/app/urdf_loader.js:149-153 | Attaching one more root keeps the roots-attached invariant. |
| `Urdf.AttachRoots` | src/app/urdf_loader.js:149-153 | After the root loop, the tree is the fold over the roots, each under the spatial root. Every root is named in the tree and gone from the link map, and the tree holds no names but theirs. |
| `Urdf.RootsAttached` | src/app/urdf_loader.js:141-153 | After the root loop, the link map holds exactly the non-roots, and every joint no longer in it is named in the tree. |
| `Urdf.ParentsFirstAt` | src/app/urdf_loader.js:157-166 | Each joint attached by the loop had its parent link registered by a root or an earlier joint. |
| `Urdf.ResolvedStep` | src/app/urdf_loader.js:160-163 | Attaching a joint whose parent link is registered, and deleting it, keeps the resolution invariant. |
| `Urdf.Unreached` | src/app/urdf_loader.js:157-166 | A joint skipped in a pass because its parent is unregistered does not reach a root within passes + 1 steps. |
| `Urdf.TryAttach` | src/app/urdf_loader.js:159-163 | A joint is attached under its parent link's frame and deleted iff that link is registered, extending the fold by it; otherwise the arena, names, coordinates and link map are unchanged. Any joint reaching a root within passes + 1 steps is gone afterwards. |
| `Urdf.PassStep` | src/app/urdf_loader.js:158-164 | Visiting one more entry keeps the per-pass invariant. |
| `Urdf.ResolvePass` | src/app/urdf_loader.js:158-164 | After pass number passes + 1, every joint whose chain reaches a root within passes + 1 steps is attached, and the tree is the fold over the roots and the joints attached so far, in order. |
| `Urdf.PassDone` | src/app/urdf_loader.js:158-164 | At the end of a pass, every joint whose chain reaches a root within one more step is gone from the link map. |
| `Urdf.ResolveLinks` | src/app/urdf_loader.js:155-166 | After at most `size_of_joints` passes, every joint whose chain reaches a root within that many steps is attached, parents first, and the tree is the fold over the roots and then the attach order. |
| `Urdf.ReachesMonotone` | src/app/urdf_loader.js:155-166 | Reaching a root within d steps implies reaching it within any e ≥ d. |
| `Urdf.LevelGrows` | src/app/urdf_loader.js:155-157 | The joints reaching a root within m steps grow with m and stay among the non-roots. |
| `Urdf.LevelStable` | src/app/urdf_loader.js:155-157 | Once a level stops growing, it never grows again. |
| `Urdf.LevelCount` | src/app/urdf_loader.js:155-157 | Either some level stops growing before m, or level m has at least m joints. |
| `Urdf.ReachesWithinNonRoots` | src/app/urdf_loader.js:155-157 | A non-root that reaches a root at all does so within `size_of_joints` steps, so the pass bound is enough. |
| `Urdf.LeftoversOutcome` | src/app/urdf_loader.js:155-169 | The joints left in the link map are non-roots whose chains never reach a root; every other joint is named in the tree. |
| `Urdf.AttachOrderKeys` | src/app/urdf_loader.js:149-166 | The roots plus the attach order are exactly the joints that are not left over. |
| `Urdf.AttachOrderParentsFirst` | src/app/urdf_loader.js:149-166 | In the overall attach order, every joint is a root or has its parent link registered by an earlier joint. |
| `Urdf.ResolutionOutcome` | src/app/urdf_loader.js:149-169 | The leftovers are non-roots that never reach a root, every other joint is named in the tree, the attach order holds exactly the other joints, and each non-root in it comes after a joint that registered its parent link. |
| `Urdf.Origins` | src/app/urdf_loader.js:62 | The origin function gives each joint element its `JointPose`. |
| `Urdf.AttachLinkRoots` | src/app/urdf_loader.js:118-153 | The link map is built from the joints, its roots are found and attached, and the tree is the fold over the roots. What remains in the map is exactly the non-roots. |
| `Urdf.AttachJoints` | src/app/urdf_loader.js:118-169 | The link-resolution outcome of `Urdf.ResolutionOutcome`, and the tree is the fold over the attach order from the tree before. |
| `Urdf.CreateKinematicTree` | src/app/urdf_loader.js:118-186 | The tree built from the joints is valid. Its names and coordinates are those of the fold over the attach order from a tree holding only the spatial root, and its frames are that fold's arena after `update()`; a further update changes nothing. The leftovers are non-roots that never reach a root, every other joint is named in the tree, and the attach order never attaches a child before its parent. |

## Left out

- I/O: `console.log` and the `warn` calls are not modelled. The "failed to parse" report is the `leftovers` result of `Urdf.CreateKinematicTree`.
- `this.warn` in static methods: the static methods of `UrdfLoader` call `this.warn`, but `warn` is an instance method (src/app/urdf_loader.js:76, 137, 168, 190), so those calls would throw. The model takes the evident intent: the joint falls through to a fixed frame, the nameless joint is skipped, and the leftovers are reported.
- The scene: `VisualTree`, `addVisualObject`, mesh loading, index.js and the three.js cursor and arrow are not part of this model. They are rendering and asynchronous I/O.
- The XML DOM: it is replaced by `Urdf.JointElement` (attributes plus the first element of each tag).
- `Number(...)`: becomes the parameter `toNumber`. NaN for malformed text is whatever that function returns.
- Floating point, `math.cos`, `math.sin` and `math.norm`: these are the parameters `trig` and `norm`, over exact reals. Rounding is not modelled. Derivatives are stated as the recursive product-rule structure, not as limits.
- The Pose/Twist class tag: `Pose.multiply` returns the class of its right operand, and `Twist` overrides `clone` and `multiply`. Only `clone` on a twist changes any value (`Twist.Clone`), and it is applied exactly where the source clones a twist (`parTwistQdot`). The tag itself is not tracked.
- Aliasing: poses are values. The source clones every pose it stores or returns, so `getWorldPose` returning a copy holds by construction.
- Unbound names in `par2TwistQQ` and `par2TwistQQdot`: they read `parent_pose_child`, `parent_dif1_child`, `parent_dif2_child` and `qdot_frame` without `this.` or under the wrong name (src/app/frame.js:177-194, 237-245). Both are modelled on the frame's own caches and the `q_dot_frame` parameter.
- `math.add` on Twist objects: `parTwistQ` and `par2TwistQQdot` call it (src/app/frame.js:158, 239). This is modelled as `Twist.add`.
- Line 181 of src/app/frame.js: an unreachable second `return`, not modelled.
- `Tree.KinematicTree.SetCoordinates` requires `|v| >= |coordinates|`. The source has no length check; a shorter vector would write `undefined` into q.
- `Tree.KinematicTree.GetWorldPose`, `GetJacobian` and `GetBodyJacobian` require the name to be registered. The source does not check, and an unknown name throws.
- `Tree.KinematicTree.AddFrame` requires a registered parent name. Duplicate names are allowed: the registry entry is overwritten, and the earlier frame stays in the tree without a name, as in the source.
- The spatial root is not in the name registry, which the source keeps the same way. A parent name of `null` selects the root.
- Iterating `link_map` while deleting: the loop deletes only the entry it is visiting, which JavaScript's `Map` iteration tolerates. Every entry is then still present when its turn comes, so each pass is modelled as a loop over a snapshot of the keys taken at the start of the pass.
- Frame names from missing links: a missing child or parent link is the number 0. `Urdf.NameOf` turns it into the frame name "0" (and "0_f"). The source keys the registry by the number 0, so it keeps that entry apart from a real link literally named "0"; the model does not.
- `Urdf.CreateKinematicTree`: its contract mentions `fresh`, so each of its facts is also stated by the lemmas listed above (`ResolutionOutcome`, `LeftoversOutcome`, `AttachOrderKeys`, `AttachOrderParentsFirst`).
- `Urdf.AxisPose` uses the corrected `createPoseFromAxis` (see Findings). With the as-written version, an axis oblique to x gives a non-rigid joint pose.
- `Tree.WorldColumnFromBody`: the angular rows carry the factor det(R). That factor is 1 for a proper rotation. Rigid here means orthonormal, so the model proves only det(R) = 1 or −1 for world poses.
- `Tree.UpdatedBodyJacobianTimesSpeeds`, `Tree.WorldColumnFromBody` and the lemmas they rest on assume that every fixed frame's offset pose is rigid. The source takes this for granted and never checks it.
- `Tree.KinematicTree.GetJacobian` uses the corrected world column and the corrected point shift (see Findings). The as-written columns are `Tree.AsWrittenColumns`, and the as-written shift is `Tree.ShiftAsWritten`.
- `Urdf.CreateKinematicTree` and the lemmas about it prove one direction only: every leftover is a non-root joint whose parent chain never reaches a root. The converse does not hold. Frame names "<child>_f" share one registry with link names, and the attach test at src/app/urdf_loader.js:160 reads the live registry. So a joint whose parent link happens to be named like a "_f" frame attaches even if its own chain never reaches a root.

## Findings

| source | as written | input that shows it | evidently intended | confidence | as-written member | corrected member |
|---|---|---|---|---|---|---|
| src/app/pose.js:195-197 | In the primary branch, `y_axis = z × x̂` is used without normalising, and `x_axis = y × z`. Both have length √(1 − z_x²). | axis (3, 4, 0): norm 5, z = (0.6, 0.8, 0), y = (0, 0, −0.8) with length 0.8, so the pose is not rigid | Normalise y (and hence x) so that the basis is orthonormal with determinant 1 | not executed | `Pose.AsWrittenNotUnit` | `Pose.CreatePoseFromAxis` |
| src/app/kinematic_tree.js:63-72 | The comment asks for x_dot = J·q_dot in world coordinates, but the angular rows 3-5 of each column are read from the skew part of dW/dq itself, i.e. from dR/dq, not from dR/dq·Rᵀ | z-revolute joint under the root, cos q = 0, sin q = 1, frame at unit x offset below it: the column is (−1,0,0,0,0,0), with the joint's spin missing | Read the angular rows from the skew part of dW/dq·inv(W), the world angular velocity (0,0,1), giving (−1,0,0,0,0,1) | not executed | `Tree.JacobianDropsSpin` | `Tree.WorldColumn` |
| src/app/kinematic_tree.js:76 | The point correction crosses the linear rows 0-2 with the point: lin + lin × p | column (1,0,0,0,0,0), point (0,1,0): a pure translation becomes (1,0,1,0,0,0) | Cross the angular rows 3-5 with the point, so that the shifted linear rows are the point's velocity (`Tree.PointColumnIsPointVelocity`) and a pure translation is unchanged | not executed | `Tree.ShiftAsWrittenMovesTranslation` | `Tree.ShiftToPoint` |
