/**
 * The frames of src/app/frame.js, held in an arena.
 *
 * A Frame object points to its parent and lists its children; here the
 * frames of one tree live in a sequence and refer to each other by index.
 * A parent always exists before its child's constructor runs, so every
 * parent index is smaller than its child's. That ordering gives the
 * termination measure of every recursive query below.
 */
module Frame {
  import opened Pose
  import Twist
  import opened Joint

  datatype Option<T> = None | Some(value: T)

  /**
   * One Frame (or joint, or Body): its parent and children, its kind
   * (`is_fixed` and which `updateLocal` it runs), its cached local matrices,
   * the world pose and twist `update()` computes, its coordinate and speed,
   * and the inertia vector a Body carries.
   */
  datatype FrameRec = FrameRec(parent: Option<nat>, children: seq<nat>,
                               kind: JointKind, caches: Caches,
                               worldPose: Mat4, worldTwist: Mat4,
                               q: real, qDot: real,
                               inertia: Option<seq<real>>)

  /**
   * The Frame constructor: a fixed frame on a copy of `ppc` with q = q_dot = 0,
   * the identity as world pose, zero twists, and child_pose_parent = inv(ppc).
   * (Attaching it to its parent's `children` is done by the arena owner.)
   */
  function NewFrame(parent: Option<nat>, ppc: Mat4): (f: FrameRec)
    ensures f.parent == parent && f.children == []
    ensures f.kind.IsFixed() && f.q == 0.0 && f.qDot == 0.0
    ensures f.caches.ppc == ppc && f.caches.cpp == Inv(ppc)
    ensures f.caches.dif1 == Zero && f.caches.dif2 == Zero && f.caches.ptc == Zero
    ensures f.worldPose == Identity && f.worldTwist == Zero
  {
    FrameRec(parent, [], Fixed, FreshCaches(ppc), Identity, Zero, 0.0, 0.0, None)
  }

  /** For a rigid local pose, the fresh inverse cache undoes it from both sides. */
  lemma {:induction false} NewFrameInverse(parent: Option<nat>, ppc: Mat4)
    requires Rigid(ppc)
    ensures Multiply(NewFrame(parent, ppc).caches.cpp, ppc) == Identity
    ensures Multiply(ppc, NewFrame(parent, ppc).caches.cpp) == Identity
  {
    InvIsInverse(ppc);
  }

  /**
   * The constructor of every joint class: a Frame on the identity pose that
   * is not fixed and starts at the given coordinate and speed.
   */
  function NewJoint(parent: Option<nat>, kind: JointKind, q0: real, qd0: real): (f: FrameRec)
    requires !kind.IsFixed()
    ensures f.parent == parent && f.children == []
    ensures !f.kind.IsFixed() && f.kind == kind
    ensures f.q == q0 && f.qDot == qd0
    ensures f.caches == JointCaches()
  {
    FrameRec(parent, [], kind, JointCaches(), Identity, Zero, q0, qd0, None)
  }

  /** A joint is a Frame on the identity pose with its kind, q and q_dot set. */
  lemma NewJointIsNewFrame(parent: Option<nat>, kind: JointKind, q0: real, qd0: real)
    requires !kind.IsFixed()
    ensures NewJoint(parent, kind, q0, qd0) == NewFrame(parent, Identity).(kind := kind, q := q0, qDot := qd0)
  {
    JointCachesAreFresh();
  }

  /** `createFrameFromTranslation`: a fixed frame translated by t, unrotated. */
  function FromTranslation(parent: Option<nat>, t: Vec3): (f: FrameRec)
    ensures f.kind.IsFixed() && f.parent == parent
    ensures Rigid(f.caches.ppc)
    ensures Pose.Rotation(f.caches.ppc) == Identity3 && Pose.Translation(f.caches.ppc) == t
  {
    var f := NewFrame(parent, SetTranslation(Identity, t));
    assert Orthonormal(Identity3) by { Mul3Identity(Identity3); }
    f
  }

  // ---------------------------------------------------------------------
  // The arena
  // ---------------------------------------------------------------------

  /** Every parent is stored before its children. */
  predicate Linked(fs: seq<FrameRec>)
  {
    forall k :: 0 <= k < |fs| && fs[k].parent.Some? ==> fs[k].parent.value < k
  }

  /** `a` is frame k itself or one of its ancestors. */
  predicate AncestorOrSelf(fs: seq<FrameRec>, a: nat, k: nat)
    requires Linked(fs) && k < |fs|
    decreases k
  {
    a == k || (fs[k].parent.Some? && AncestorOrSelf(fs, a, fs[k].parent.value))
  }

  /** Ancestors come first in the arena. */
  lemma {:induction false} AncestorBefore(fs: seq<FrameRec>, a: nat, k: nat)
    requires Linked(fs) && k < |fs|
    requires AncestorOrSelf(fs, a, k)
    ensures a <= k
    decreases k
  {
    if a != k {
      AncestorBefore(fs, a, fs[k].parent.value);
    }
  }

  /** Two ancestors of the same frame lie on one chain: the earlier is an ancestor of the later. */
  lemma {:induction false} AncestorsOnOneChain(fs: seq<FrameRec>, a: nat, b: nat, k: nat)
    requires Linked(fs) && k < |fs|
    requires AncestorOrSelf(fs, a, k) && AncestorOrSelf(fs, b, k) && a <= b
    ensures b < |fs| && AncestorOrSelf(fs, a, b)
    decreases k
  {
    AncestorBefore(fs, b, k);
    if b != k {
      AncestorBefore(fs, a, k);
      if a == k {
        assert false;
      } else {
        AncestorsOnOneChain(fs, a, b, fs[k].parent.value);
      }
    }
  }

  /** The local matrices with the parent's product, conjugated: cpp (m ppc). */
  function Conjugate(cs: Caches, m: Mat4): Mat4
  {
    Multiply(cs.cpp, Multiply(m, cs.ppc))
  }

  // ---------------------------------------------------------------------
  // The partial-derivative queries
  // ---------------------------------------------------------------------
  // Each query of frame k with respect to frame i is zero at the root, has
  // a closed form when i is k itself, and otherwise is the parent's query
  // carried through k's local pose. They read the caches and world state
  // that the last `update()` left behind.

  /** `parPoseQ(i)`: the derivative of k's world pose with respect to q_i. */
  function ParPoseQ(fs: seq<FrameRec>, k: nat, i: nat): Mat4
    requires Linked(fs) && k < |fs|
    decreases k
  {
    match fs[k].parent
    case None => Zero
    case Some(p) =>
      if i == k then Multiply(fs[p].worldPose, fs[k].caches.dif1)
      else Multiply(ParPoseQ(fs, p, i), fs[k].caches.ppc)
  }

  /** `par2PoseQQ(i, j)`: the second derivative of k's world pose. */
  function Par2PoseQQ(fs: seq<FrameRec>, k: nat, i: nat, j: nat): Mat4
    requires Linked(fs) && k < |fs|
    decreases k
  {
    match fs[k].parent
    case None => Zero
    case Some(p) =>
      if i == k && j == k then Multiply(fs[p].worldPose, fs[k].caches.dif2)
      else if i == k then Multiply(ParPoseQ(fs, p, j), fs[k].caches.dif1)
      else if j == k then Multiply(ParPoseQ(fs, p, i), fs[k].caches.dif1)
      else Multiply(Par2PoseQQ(fs, p, i, j), fs[k].caches.ppc)
  }

  /** `parTwistQ(i)`: the derivative of k's world twist with respect to q_i. */
  function ParTwistQ(fs: seq<FrameRec>, k: nat, i: nat): Mat4
    requires Linked(fs) && k < |fs|
    decreases k
  {
    match fs[k].parent
    case None => Zero
    case Some(p) =>
      var cs, wt := fs[k].caches, fs[p].worldTwist;
      if i == k then Twist.Add(Multiply(cs.cdif1, Multiply(wt, cs.ppc)), Multiply(cs.cpp, Multiply(wt, cs.dif1)))
      else Conjugate(cs, ParTwistQ(fs, p, i))
  }

  /** `par2TwistQQ(i, j)`: the second derivative of k's world twist. */
  function Par2TwistQQ(fs: seq<FrameRec>, k: nat, i: nat, j: nat): Mat4
    requires Linked(fs) && k < |fs|
    decreases k
  {
    match fs[k].parent
    case None => Zero
    case Some(p) =>
      var cs, wt := fs[k].caches, fs[p].worldTwist;
      if i == k && j == k then
        var left := Multiply(cs.cdif2, Multiply(wt, cs.ppc));
        var mixed := Multiply(cs.cdif1, Multiply(wt, cs.dif1));
        var right := Multiply(cs.cpp, Multiply(wt, cs.dif2));
        Twist.Add(left, Twist.Add(right, Twist.Scale(mixed, 2.0)))
      else if i == k then MixedStep(cs, ParTwistQ(fs, p, j))
      else if j == k then MixedStep(cs, ParTwistQ(fs, p, i))
      else Conjugate(cs, Par2TwistQQ(fs, p, i, j))
  }

  /** The product rule on cpp (m ppc) when the local matrices are differentiated once. */
  function MixedStep(cs: Caches, m: Mat4): Mat4
  {
    Twist.Add(Multiply(cs.cdif1, Multiply(m, cs.ppc)), Multiply(cs.cpp, Multiply(m, cs.dif1)))
  }

  /** `parTwistQdot(i)`: the derivative of k's world twist with respect to q_dot_i. */
  function ParTwistQdot(fs: seq<FrameRec>, k: nat, i: nat): Mat4
    requires Linked(fs) && k < |fs|
    decreases k
  {
    match fs[k].parent
    case None => Zero
    case Some(p) =>
      if i == k then Twist.Clone(fs[k].caches.ptc)
      else Conjugate(fs[k].caches, ParTwistQdot(fs, p, i))
  }

  /** `par2TwistQdotQdot(i, j)`: the world twist is linear in the speeds. */
  function Par2TwistQdotQdot(fs: seq<FrameRec>, k: nat, i: nat, j: nat): Mat4
    requires Linked(fs) && k < |fs|
  {
    Zero
  }

  /** `par2TwistQQdot(q, qd)`: the mixed derivative of k's world twist. */
  function Par2TwistQQdot(fs: seq<FrameRec>, k: nat, q: nat, qd: nat): Mat4
    requires Linked(fs) && k < |fs|
    decreases k
  {
    match fs[k].parent
    case None => Zero
    case Some(p) =>
      if q == k then MixedStep(fs[k].caches, ParTwistQdot(fs, p, qd))
      else if qd == k then Zero
      else Conjugate(fs[k].caches, Par2TwistQQdot(fs, p, q, qd))
  }

  // ---------------------------------------------------------------------
  // Where the queries vanish
  // ---------------------------------------------------------------------

  lemma ConjugateZero(cs: Caches)
    ensures Conjugate(cs, Zero) == Zero
  {
    MultiplyZero(cs.ppc);
    MultiplyZero(cs.cpp);
  }

  lemma MixedStepZero(cs: Caches)
    ensures MixedStep(cs, Zero) == Zero
  {
    MultiplyZero(cs.ppc);
    MultiplyZero(cs.dif1);
    MultiplyZero(cs.cpp);
    MultiplyZero(cs.cdif1);
    Twist.AddZero(Zero);
  }

  /** `parPoseQ(i)` is zero at the root and for every i off k's ancestor chain. */
  lemma {:induction false} ParPoseQOffChain(fs: seq<FrameRec>, k: nat, i: nat)
    requires Linked(fs) && k < |fs|
    requires fs[k].parent.None? || !AncestorOrSelf(fs, i, k)
    ensures ParPoseQ(fs, k, i) == Zero
    decreases k
  {
    if fs[k].parent.Some? {
      ParPoseQOffChain(fs, fs[k].parent.value, i);
      MultiplyZero(fs[k].caches.ppc);
    }
  }

  /** `par2PoseQQ` does not depend on the order of differentiation. */
  lemma {:induction false} Par2PoseQQSymmetric(fs: seq<FrameRec>, k: nat, i: nat, j: nat)
    requires Linked(fs) && k < |fs|
    ensures Par2PoseQQ(fs, k, i, j) == Par2PoseQQ(fs, k, j, i)
    decreases k
  {
    if fs[k].parent.Some? && i != k && j != k {
      Par2PoseQQSymmetric(fs, fs[k].parent.value, i, j);
    }
  }

  /** `par2PoseQQ(i, j)` is zero at the root and whenever i or j is off k's ancestor chain. */
  lemma {:induction false} Par2PoseQQOffChain(fs: seq<FrameRec>, k: nat, i: nat, j: nat)
    requires Linked(fs) && k < |fs|
    requires fs[k].parent.None? || !AncestorOrSelf(fs, i, k) || !AncestorOrSelf(fs, j, k)
    ensures Par2PoseQQ(fs, k, i, j) == Zero
    decreases k
  {
    if fs[k].parent.Some? {
      var p := fs[k].parent.value;
      MultiplyZero(fs[k].caches.dif1);
      MultiplyZero(fs[k].caches.ppc);
      if i == k {
        ParPoseQOffChain(fs, p, j);
      } else if j == k {
        ParPoseQOffChain(fs, p, i);
      } else {
        Par2PoseQQOffChain(fs, p, i, j);
      }
    }
  }

  /** `parTwistQ(i)` is zero at the root and for every i off k's ancestor chain. */
  lemma {:induction false} ParTwistQOffChain(fs: seq<FrameRec>, k: nat, i: nat)
    requires Linked(fs) && k < |fs|
    requires fs[k].parent.None? || !AncestorOrSelf(fs, i, k)
    ensures ParTwistQ(fs, k, i) == Zero
    decreases k
  {
    if fs[k].parent.Some? {
      ParTwistQOffChain(fs, fs[k].parent.value, i);
      ConjugateZero(fs[k].caches);
    }
  }

  /** `par2TwistQQ` does not depend on the order of differentiation. */
  lemma {:induction false} Par2TwistQQSymmetric(fs: seq<FrameRec>, k: nat, i: nat, j: nat)
    requires Linked(fs) && k < |fs|
    ensures Par2TwistQQ(fs, k, i, j) == Par2TwistQQ(fs, k, j, i)
    decreases k
  {
    if fs[k].parent.Some? && i != k && j != k {
      Par2TwistQQSymmetric(fs, fs[k].parent.value, i, j);
    }
  }

  /** `par2TwistQQ(i, j)` is zero at the root and whenever i or j is off k's ancestor chain. */
  lemma {:induction false} Par2TwistQQOffChain(fs: seq<FrameRec>, k: nat, i: nat, j: nat)
    requires Linked(fs) && k < |fs|
    requires fs[k].parent.None? || !AncestorOrSelf(fs, i, k) || !AncestorOrSelf(fs, j, k)
    ensures Par2TwistQQ(fs, k, i, j) == Zero
    decreases k
  {
    if fs[k].parent.Some? {
      var p := fs[k].parent.value;
      MixedStepZero(fs[k].caches);
      ConjugateZero(fs[k].caches);
      if i == k {
        ParTwistQOffChain(fs, p, j);
      } else if j == k {
        ParTwistQOffChain(fs, p, i);
      } else {
        Par2TwistQQOffChain(fs, p, i, j);
      }
    }
  }

  /** `parTwistQdot(i)` is zero at the root and for every i off k's ancestor chain. */
  lemma {:induction false} ParTwistQdotOffChain(fs: seq<FrameRec>, k: nat, i: nat)
    requires Linked(fs) && k < |fs|
    requires fs[k].parent.None? || !AncestorOrSelf(fs, i, k)
    ensures ParTwistQdot(fs, k, i) == Zero
    decreases k
  {
    if fs[k].parent.Some? {
      ParTwistQdotOffChain(fs, fs[k].parent.value, i);
      ConjugateZero(fs[k].caches);
    }
  }

  /**
   * `par2TwistQQdot(q, qd)` is zero unless q is on k's ancestor chain and qd
   * is a proper ancestor of q: a speed only acts through the joints below it.
   */
  lemma {:induction false} Par2TwistQQdotVanishes(fs: seq<FrameRec>, k: nat, q: nat, qd: nat)
    requires Linked(fs) && k < |fs|
    requires !(AncestorOrSelf(fs, q, k) && q < |fs| && qd != q && AncestorOrSelf(fs, qd, q))
    ensures Par2TwistQQdot(fs, k, q, qd) == Zero
    decreases k
  {
    if fs[k].parent.Some? {
      var p := fs[k].parent.value;
      if q == k {
        MixedStepZero(fs[k].caches);
        if qd == k {
          if AncestorOrSelf(fs, qd, p) {
            AncestorBefore(fs, qd, p);
          }
        }
        ParTwistQdotOffChain(fs, p, qd);
      } else if qd != k {
        ConjugateZero(fs[k].caches);
        Par2TwistQQdotVanishes(fs, p, q, qd);
      }
    }
  }

  // ---------------------------------------------------------------------
  // The pose derivative as a product
  // ---------------------------------------------------------------------

  /** The product of the local poses on the path from ancestor i down to k (i excluded). */
  function Below(fs: seq<FrameRec>, i: nat, k: nat): Mat4
    requires Linked(fs) && k < |fs| && AncestorOrSelf(fs, i, k)
    decreases k
  {
    if k == i then Identity else Multiply(Below(fs, i, fs[k].parent.value), fs[k].caches.ppc)
  }

  /**
   * `parPoseQ(i)` for an ancestor-or-self i below the root: the world pose of
   * i's parent times i's dif1, carried down to k by the local poses below i.
   */
  lemma {:induction false} ParPoseQProduct(fs: seq<FrameRec>, k: nat, i: nat)
    requires Linked(fs) && k < |fs| && AncestorOrSelf(fs, i, k)
    requires i < |fs| && fs[i].parent.Some? && fs[i].parent.value < |fs|
    ensures ParPoseQ(fs, k, i) == Multiply(Multiply(fs[fs[i].parent.value].worldPose, fs[i].caches.dif1), Below(fs, i, k))
    decreases k
  {
    var x := Multiply(fs[fs[i].parent.value].worldPose, fs[i].caches.dif1);
    if k == i {
      MultiplyIdentity(x);
    } else {
      var p := fs[k].parent.value;
      ParPoseQProduct(fs, p, i);
      MultiplyAssoc(x, Below(fs, i, p), fs[k].caches.ppc);
    }
  }

  // ---------------------------------------------------------------------
  // update()
  // ---------------------------------------------------------------------

  /**
   * `update()` of one frame, given its refreshed caches and, below the root,
   * its parent after the parent's own update: the world pose is the parent's
   * times the local pose (the local pose itself at the root), and the world
   * twist is the parent's twist conjugated into this frame, plus q_dot times
   * the local twist for a frame that is not fixed (zero at the root).
   */
  function LocalStep(f: FrameRec, cs: Caches, parent: Option<FrameRec>): FrameRec
  {
    match parent
    case None => f.(caches := cs, worldPose := cs.ppc, worldTwist := Zero)
    case Some(pf) =>
      var carried := Conjugate(cs, pf.worldTwist);
      f.(caches := cs, worldPose := Multiply(pf.worldPose, cs.ppc),
         worldTwist := if f.kind.IsFixed() then carried else Twist.Add(carried, Twist.Scale(cs.ptc, f.qDot)))
  }

  /** The record of k's parent, if it has one. */
  function ParentRec(fs: seq<FrameRec>, k: nat): Option<FrameRec>
    requires Linked(fs) && k < |fs|
  {
    match fs[k].parent
    case None => None
    case Some(p) => Some(fs[p])
  }

  /**
   * The state `update()` leaves: every frame agrees with one update step of
   * its own caches from its parent's state.
   */
  predicate Propagated(gs: seq<FrameRec>)
  {
    Linked(gs) && forall k :: 0 <= k < |gs| ==> gs[k] == LocalStep(gs[k], gs[k].caches, ParentRec(gs, k))
  }

  /**
   * Frame k after `update()` runs from the root over the arena fs: its caches
   * refreshed by `updateLocal` (cos and sin from trig), its world state from
   * its parent's updated state.
   */
  function Settled(fs: seq<FrameRec>, trig: Trig, k: nat): (g: FrameRec)
    requires Linked(fs) && k < |fs|
    ensures g == fs[k].(caches := g.caches, worldPose := g.worldPose, worldTwist := g.worldTwist)
    decreases k
  {
    var f := fs[k];
    var cs := Refreshed(f.kind, f.caches, f.q, trig.cos(f.q), trig.sin(f.q));
    match f.parent
    case None => LocalStep(f, cs, None)
    case Some(p) => LocalStep(f, cs, Some(Settled(fs, trig, p)))
  }

  /** The whole arena after `update()` from the root. */
  function SettledAll(fs: seq<FrameRec>, trig: Trig): (gs: seq<FrameRec>)
    requires Linked(fs)
    ensures |gs| == |fs|
    ensures forall k :: 0 <= k < |gs| ==> gs[k] == Settled(fs, trig, k)
  {
    seq(|fs|, k requires 0 <= k < |fs| => Settled(fs, trig, k))
  }

  /** The update keeps the arena's links, so the settled arena is linked. */
  lemma SettledLinked(fs: seq<FrameRec>, trig: Trig)
    requires Linked(fs)
    ensures Linked(SettledAll(fs, trig))
  {
    var gs := SettledAll(fs, trig);
    forall k | 0 <= k < |gs| && gs[k].parent.Some?
      ensures gs[k].parent.value < k
    {
      assert gs[k].parent == fs[k].parent;
    }
  }

  /** After `update()`, every frame satisfies the update equations against its parent. */
  lemma {:induction false} UpdatePropagates(fs: seq<FrameRec>, trig: Trig)
    requires Linked(fs)
    ensures Propagated(SettledAll(fs, trig))
  {
    var gs := SettledAll(fs, trig);
    SettledLinked(fs, trig);
    forall k | 0 <= k < |gs|
      ensures gs[k] == LocalStep(gs[k], gs[k].caches, ParentRec(gs, k))
    {
      var f := fs[k];
      var cs := Refreshed(f.kind, f.caches, f.q, trig.cos(f.q), trig.sin(f.q));
      assert gs[k].caches == cs;
      match f.parent {
        case None =>
          assert LocalStep(gs[k], cs, None) == LocalStep(f, cs, None);
        case Some(p) =>
          assert ParentRec(gs, k) == Some(Settled(fs, trig, p));
          assert LocalStep(gs[k], cs, Some(Settled(fs, trig, p))) == LocalStep(f, cs, Some(Settled(fs, trig, p)));
      }
    }
  }

  /** Updating a second time changes nothing: the caches are rewritten with the same values. */
  lemma {:induction false} SettledTwice(fs: seq<FrameRec>, trig: Trig, k: nat)
    requires Linked(fs) && k < |fs|
    ensures Linked(SettledAll(fs, trig))
    ensures Settled(SettledAll(fs, trig), trig, k) == Settled(fs, trig, k)
    decreases k
  {
    SettledLinked(fs, trig);
    var gs := SettledAll(fs, trig);
    var f := fs[k];
    var c, s := trig.cos(f.q), trig.sin(f.q);
    var cs := Refreshed(f.kind, f.caches, f.q, c, s);
    assert gs[k].caches == cs && gs[k].q == f.q && gs[k].kind == f.kind;
    RefreshOverwrites(f.kind, f.caches, f.q, c, s, f.q, c, s);
    match f.parent {
      case None =>
        assert LocalStep(gs[k], cs, None) == LocalStep(f, cs, None);
      case Some(p) =>
        SettledTwice(fs, trig, p);
        assert LocalStep(gs[k], cs, Some(Settled(fs, trig, p))) == LocalStep(f, cs, Some(Settled(fs, trig, p)));
    }
  }

  /** `update()` is idempotent. */
  lemma {:induction false} UpdateIdempotent(fs: seq<FrameRec>, trig: Trig)
    requires Linked(fs)
    ensures Linked(SettledAll(fs, trig))
    ensures SettledAll(SettledAll(fs, trig), trig) == SettledAll(fs, trig)
  {
    SettledLinked(fs, trig);
    forall k | 0 <= k < |fs|
      ensures SettledAll(SettledAll(fs, trig), trig)[k] == SettledAll(fs, trig)[k]
    {
      SettledTwice(fs, trig, k);
    }
  }

  /** With every local pose rigid, every world pose the update computes is rigid. */
  lemma {:induction false} WorldPoseRigid(gs: seq<FrameRec>, k: nat)
    requires Propagated(gs) && k < |gs|
    requires forall j :: 0 <= j < |gs| ==> Rigid(gs[j].caches.ppc)
    ensures Rigid(gs[k].worldPose)
    decreases k
  {
    assert gs[k] == LocalStep(gs[k], gs[k].caches, ParentRec(gs, k));
    if gs[k].parent.Some? {
      var p := gs[k].parent.value;
      WorldPoseRigid(gs, p);
      RigidMultiply(gs[p].worldPose, gs[k].caches.ppc);
    }
  }

  /** The world pose of k is the world pose of any ancestor i times the local poses below i. */
  lemma {:induction false} WorldPoseProduct(gs: seq<FrameRec>, k: nat, i: nat)
    requires Propagated(gs) && k < |gs| && AncestorOrSelf(gs, i, k)
    ensures i < |gs| && gs[k].worldPose == Multiply(gs[i].worldPose, Below(gs, i, k))
    decreases k
  {
    AncestorBefore(gs, i, k);
    if k == i {
      MultiplyIdentity(gs[k].worldPose);
    } else {
      var p := gs[k].parent.value;
      assert gs[k] == LocalStep(gs[k], gs[k].caches, ParentRec(gs, k));
      WorldPoseProduct(gs, p, i);
      MultiplyAssoc(gs[i].worldPose, Below(gs, i, p), gs[k].caches.ppc);
    }
  }

  /**
   * After `update()`, `parPoseQ(i)` is k's world pose with the unit twist of
   * joint i inserted after frame i, when i's caches form a derivative chain
   * (dif1 = ppc xi): W_k = W_p ppc_i B and dPk/dq_i = W_p ppc_i xi_i B.
   */
  lemma {:induction false} ParPoseQInsertsTwist(gs: seq<FrameRec>, k: nat, i: nat)
    requires Propagated(gs) && k < |gs| && AncestorOrSelf(gs, i, k)
    requires i < |gs| && gs[i].parent.Some? && DerivativeChain(gs[i].caches)
    ensures ParPoseQ(gs, k, i) == Multiply(Multiply(gs[i].worldPose, gs[i].caches.ptc), Below(gs, i, k))
  {
    var p := gs[i].parent.value;
    var cs := gs[i].caches;
    assert gs[i] == LocalStep(gs[i], cs, ParentRec(gs, i));
    ParPoseQProduct(gs, k, i);
    MultiplyAssoc(gs[p].worldPose, cs.ppc, cs.ptc);
  }

  /** With every speed zero, every world twist is zero. */
  lemma {:induction false} ZeroSpeedsZeroTwist(gs: seq<FrameRec>, k: nat)
    requires Propagated(gs) && k < |gs|
    requires forall j :: 0 <= j < |gs| ==> gs[j].qDot == 0.0
    ensures gs[k].worldTwist == Zero
    decreases k
  {
    assert gs[k] == LocalStep(gs[k], gs[k].caches, ParentRec(gs, k));
    if gs[k].parent.Some? {
      ZeroSpeedsZeroTwist(gs, gs[k].parent.value);
      ConjugateZero(gs[k].caches);
      Twist.ScaleZero(gs[k].caches.ptc);
      Twist.AddZero(Zero);
    }
  }

  // ---------------------------------------------------------------------
  // The world twist is the Jacobian times the speeds
  // ---------------------------------------------------------------------

  /** The speed a frame contributes: q_dot for a joint, nothing for a fixed frame. */
  function Rate(f: FrameRec): real
  {
    if f.kind.IsFixed() then 0.0 else f.qDot
  }

  /** The sum over frames j < n of `parTwistQdot(j)` times j's speed. */
  function JacobianTimesSpeeds(fs: seq<FrameRec>, k: nat, n: nat): Mat4
    requires Linked(fs) && k < |fs| && n <= |fs|
    decreases n
  {
    if n == 0 then Zero
    else Twist.Add(JacobianTimesSpeeds(fs, k, n - 1), Twist.Scale(ParTwistQdot(fs, k, n - 1), Rate(fs[n - 1])))
  }

  /** At the root every term is zero. */
  lemma {:induction false} JacobianTimesSpeedsAtRoot(fs: seq<FrameRec>, k: nat, n: nat)
    requires Linked(fs) && k < |fs| && n <= |fs| && fs[k].parent.None?
    ensures JacobianTimesSpeeds(fs, k, n) == Zero
  {
    if n > 0 {
      JacobianTimesSpeedsAtRoot(fs, k, n - 1);
      ParTwistQdotOffChain(fs, k, n - 1);
      Twist.ScaleByZeroMatrix(Rate(fs[n - 1]));
      Twist.AddZero(Zero);
    }
  }

  /** Below the root, the sum is the parent's sum conjugated into k, plus k's own term once j reaches k. */
  lemma {:induction false} JacobianTimesSpeedsStep(fs: seq<FrameRec>, k: nat, n: nat)
    requires Linked(fs) && k < |fs| && n <= |fs| && fs[k].parent.Some?
    ensures JacobianTimesSpeeds(fs, k, n)
         == Twist.Add(Conjugate(fs[k].caches, JacobianTimesSpeeds(fs, fs[k].parent.value, n)),
                      if k < n then Twist.Scale(Twist.Clone(fs[k].caches.ptc), Rate(fs[k])) else Zero)
  {
    var p, cs := fs[k].parent.value, fs[k].caches;
    if n == 0 {
      ConjugateZero(cs);
      Twist.AddZero(Zero);
    } else {
      var j := n - 1;
      JacobianTimesSpeedsStep(fs, k, j);
      var a := Conjugate(cs, JacobianTimesSpeeds(fs, p, j));
      var e := if k < j then Twist.Scale(Twist.Clone(cs.ptc), Rate(fs[k])) else Zero;
      var x := ParTwistQdot(fs, p, j);
      var r := Rate(fs[j]);
      Twist.ConjugateLinear(cs.cpp, JacobianTimesSpeeds(fs, p, j), Twist.Scale(x, r), cs.ppc, r);
      Twist.ConjugateLinear(cs.cpp, x, x, cs.ppc, r);
      if j == k {
        if AncestorOrSelf(fs, k, p) {
          AncestorBefore(fs, k, p);
        }
        ParTwistQdotOffChain(fs, p, k);
        Twist.ScaleByZeroMatrix(r);
        Twist.AddZero(JacobianTimesSpeeds(fs, p, j));
        Twist.AddZero(a);
      } else {
        var t := Twist.Scale(Conjugate(cs, x), r);
        Twist.AddAssociates(a, e, t);
        Twist.AddCommutes(e, t);
        Twist.AddAssociates(a, t, e);
      }
    }
  }

  /**
   * V = J q_dot: after `update()`, the world twist of every frame is the sum
   * over all frames j of `parTwistQdot(j)` times j's speed, provided every
   * joint's local twist has the se(3) shape (which `updateLocal` gives it).
   */
  lemma {:induction false} WorldTwistIsJacobianTimesSpeeds(gs: seq<FrameRec>, k: nat)
    requires Propagated(gs) && k < |gs|
    requires forall j :: 0 <= j < |gs| && !gs[j].kind.IsFixed() ==> Twist.Se3(gs[j].caches.ptc)
    ensures gs[k].worldTwist == JacobianTimesSpeeds(gs, k, |gs|)
    decreases k
  {
    var cs := gs[k].caches;
    assert gs[k] == LocalStep(gs[k], cs, ParentRec(gs, k));
    match gs[k].parent {
      case None =>
        JacobianTimesSpeedsAtRoot(gs, k, |gs|);
      case Some(p) =>
        WorldTwistIsJacobianTimesSpeeds(gs, p);
        JacobianTimesSpeedsStep(gs, k, |gs|);
        Twist.CloneProjects(cs.ptc);
        if gs[k].kind.IsFixed() {
          Twist.ScaleZero(Twist.Clone(cs.ptc));
          Twist.AddZero(Conjugate(cs, gs[p].worldTwist));
        }
    }
  }

  // ---------------------------------------------------------------------
  // The body Jacobian columns
  // ---------------------------------------------------------------------

  /** Every frame's caches hang together as `DerivativeChain` says. */
  predicate DerivativeChains(gs: seq<FrameRec>)
  {
    forall j :: 0 <= j < |gs| ==> DerivativeChain(gs[j].caches)
  }

  /** In a derivative chain, child_pose_parent is `inv()` of the local pose. */
  lemma {:induction false} ChainInverse(cs: Caches)
    requires DerivativeChain(cs)
    ensures cs.cpp == Inv(cs.ppc)
  {
    InverseUnique(cs.ppc, cs.cpp);
  }

  /** Carrying an se(3) matrix through a rigid local pose keeps the se(3) shape. */
  lemma {:induction false} ConjugateSe3(cs: Caches, m: Mat4)
    requires Rigid(cs.ppc) && cs.cpp == Inv(cs.ppc) && Twist.Se3(m)
    ensures Twist.Se3(Conjugate(cs, m))
  {
    var r, w := Pose.Rotation(cs.ppc), Vec3(m.m21, m.m02, m.m10);
    var x := Multiply(m, cs.ppc);
    Twist.Se3RotationIsHat(m);
    MultiplyRotationBlock(m, cs.ppc);
    assert x.m30 == 0.0 && x.m31 == 0.0 && x.m32 == 0.0 && x.m33 == 0.0;
    MultiplyRotationBlock(cs.cpp, x);
    Mul3Assoc(Transpose3(r), Hat3(w), r);
    ConjugateHat3(Transpose3(r), w);
  }

  /** Every `parTwistQdot(i)` has the se(3) shape when the caches form derivative chains. */
  lemma {:induction false} ParTwistQdotSe3(fs: seq<FrameRec>, k: nat, i: nat)
    requires Linked(fs) && k < |fs| && DerivativeChains(fs)
    ensures Twist.Se3(ParTwistQdot(fs, k, i))
    decreases k
  {
    match fs[k].parent {
      case None =>
      case Some(p) =>
        if i == k {
          Twist.CloneProjects(fs[k].caches.ptc);
        } else {
          ParTwistQdotSe3(fs, p, i);
          assert DerivativeChain(fs[k].caches);
          ParTwistQdotCarriedSe3(fs, k, i);
        }
    }
  }

  /** The step of `ParTwistQdotSe3` through a frame other than i. */
  lemma {:induction false} ParTwistQdotCarriedSe3(fs: seq<FrameRec>, k: nat, i: nat)
    requires Linked(fs) && k < |fs| && fs[k].parent.Some? && i != k
    requires DerivativeChain(fs[k].caches) && Twist.Se3(ParTwistQdot(fs, fs[k].parent.value, i))
    ensures Twist.Se3(ParTwistQdot(fs, k, i))
  {
    var cs := fs[k].caches;
    ChainInverse(cs);
    ConjugateSe3(cs, ParTwistQdot(fs, fs[k].parent.value, i));
  }

  /**
   * After `update()`, `parTwistQdot(i)` is `parPoseQ(i)` seen from frame k:
   * inv(W_k) dW_k/dq_i. So `parTwistQdot(i)` is the body-frame twist of k
   * per unit q_dot_i, the column of the body Jacobian.
   */
  lemma {:induction false} BodyDerivativeIsParTwistQdot(gs: seq<FrameRec>, k: nat, i: nat)
    requires Propagated(gs) && k < |gs| && DerivativeChains(gs)
    ensures Multiply(Inv(gs[k].worldPose), ParPoseQ(gs, k, i)) == ParTwistQdot(gs, k, i)
    decreases k
  {
    var cs := gs[k].caches;
    assert gs[k] == LocalStep(gs[k], cs, ParentRec(gs, k));
    match gs[k].parent {
      case None =>
        MultiplyZero(Inv(gs[k].worldPose));
      case Some(p) =>
        var wp := gs[p].worldPose;
        assert forall j :: 0 <= j < |gs| ==> Rigid(gs[j].caches.ppc);
        WorldPoseRigid(gs, p);
        ChainInverse(cs);
        if i == k {
          var wk := gs[k].worldPose;
          MultiplyAssoc(wp, cs.ppc, cs.ptc);
          RigidMultiply(wp, cs.ppc);
          InvIsInverse(wk);
          MultiplyAssoc(Inv(wk), wk, cs.ptc);
          MultiplyIdentity(cs.ptc);
          Twist.CloneProjects(cs.ptc);
        } else {
          var x := ParPoseQ(gs, p, i);
          BodyDerivativeIsParTwistQdot(gs, p, i);
          InvMultiply(wp, cs.ppc);
          MultiplyAssoc(cs.cpp, Inv(wp), Multiply(x, cs.ppc));
          MultiplyAssoc(Inv(wp), x, cs.ppc);
        }
    }
  }

  // ---------------------------------------------------------------------
  // parTwistQ is the mixed derivative times the speeds
  // ---------------------------------------------------------------------

  /** The sum over frames j < n of `par2TwistQQdot(i, j)` times j's speed. */
  function QQdotTimesSpeeds(fs: seq<FrameRec>, k: nat, i: nat, n: nat): Mat4
    requires Linked(fs) && k < |fs| && n <= |fs|
    decreases n
  {
    if n == 0 then Zero
    else Twist.Add(QQdotTimesSpeeds(fs, k, i, n - 1), Twist.Scale(Par2TwistQQdot(fs, k, i, n - 1), Rate(fs[n - 1])))
  }

  /** The product rule step is linear in the twist it differentiates. */
  lemma {:induction false} MixedStepLinear(cs: Caches, m: Mat4, n: Mat4, r: real)
    ensures MixedStep(cs, Twist.Add(m, Twist.Scale(n, r)))
         == Twist.Add(MixedStep(cs, m), Twist.Scale(MixedStep(cs, n), r))
  {
    var s := Twist.Scale(n, r);
    Twist.ConjugateLinear(cs.cdif1, m, s, cs.ppc, r);
    Twist.ConjugateLinear(cs.cdif1, n, n, cs.ppc, r);
    Twist.ConjugateLinear(cs.cpp, m, s, cs.dif1, r);
    Twist.ConjugateLinear(cs.cpp, n, n, cs.dif1, r);
    Twist.ScaleAdd(Multiply(cs.cdif1, Multiply(n, cs.ppc)), Multiply(cs.cpp, Multiply(n, cs.dif1)), r);
  }

  /** At the root every term is zero. */
  lemma {:induction false} QQdotTimesSpeedsAtRoot(fs: seq<FrameRec>, k: nat, i: nat, n: nat)
    requires Linked(fs) && k < |fs| && n <= |fs| && fs[k].parent.None?
    ensures QQdotTimesSpeeds(fs, k, i, n) == Zero
  {
    if n > 0 {
      QQdotTimesSpeedsAtRoot(fs, k, i, n - 1);
      Twist.ScaleByZeroMatrix(Rate(fs[n - 1]));
      Twist.AddZero(Zero);
    }
  }

  /** For k's own joint, the sum is the product rule step applied to the parent's Jacobian times the speeds. */
  lemma {:induction false} QQdotTimesSpeedsOwn(fs: seq<FrameRec>, k: nat, n: nat)
    requires Linked(fs) && k < |fs| && n <= |fs| && fs[k].parent.Some?
    ensures QQdotTimesSpeeds(fs, k, k, n) == MixedStep(fs[k].caches, JacobianTimesSpeeds(fs, fs[k].parent.value, n))
  {
    var p, cs := fs[k].parent.value, fs[k].caches;
    if n == 0 {
      MixedStepZero(cs);
    } else {
      QQdotTimesSpeedsOwn(fs, k, n - 1);
      MixedStepLinear(cs, JacobianTimesSpeeds(fs, p, n - 1), ParTwistQdot(fs, p, n - 1), Rate(fs[n - 1]));
    }
  }

  /** For a joint i other than k, the sum is the parent's sum carried into k. */
  lemma {:induction false} QQdotTimesSpeedsCarried(fs: seq<FrameRec>, k: nat, i: nat, n: nat)
    requires Linked(fs) && k < |fs| && n <= |fs| && fs[k].parent.Some? && i != k
    ensures QQdotTimesSpeeds(fs, k, i, n) == Conjugate(fs[k].caches, QQdotTimesSpeeds(fs, fs[k].parent.value, i, n))
  {
    var p, cs := fs[k].parent.value, fs[k].caches;
    if n == 0 {
      ConjugateZero(cs);
    } else {
      var j := n - 1;
      QQdotTimesSpeedsCarried(fs, k, i, j);
      var s, y, r := QQdotTimesSpeeds(fs, p, i, j), Par2TwistQQdot(fs, p, i, j), Rate(fs[j]);
      Twist.ConjugateLinear(cs.cpp, s, Twist.Scale(y, r), cs.ppc, r);
      Twist.ConjugateLinear(cs.cpp, y, y, cs.ppc, r);
      if j == k {
        // Speed k acts only on the frames below joint k, and i is not below it here.
        if AncestorOrSelf(fs, i, p) && i < |fs| && AncestorOrSelf(fs, k, i) {
          AncestorBefore(fs, i, p);
          AncestorBefore(fs, k, i);
        }
        Par2TwistQQdotVanishes(fs, p, i, k);
        Twist.ScaleByZeroMatrix(r);
        Twist.AddZero(s);
        Twist.AddZero(Conjugate(cs, s));
      }
    }
  }

  /**
   * After `update()`, `parTwistQ(i)` is the sum over all frames j of
   * `par2TwistQQdot(i, j)` times j's speed: the world twist is linear in the
   * speeds, so its derivative in q_i is the mixed derivative times the speeds.
   */
  lemma {:induction false} ParTwistQIsMixedTimesSpeeds(gs: seq<FrameRec>, k: nat, i: nat)
    requires Propagated(gs) && k < |gs|
    requires forall j :: 0 <= j < |gs| && !gs[j].kind.IsFixed() ==> Twist.Se3(gs[j].caches.ptc)
    ensures ParTwistQ(gs, k, i) == QQdotTimesSpeeds(gs, k, i, |gs|)
    decreases k
  {
    match gs[k].parent {
      case None =>
        QQdotTimesSpeedsAtRoot(gs, k, i, |gs|);
      case Some(p) =>
        if i == k {
          WorldTwistIsJacobianTimesSpeeds(gs, p);
          QQdotTimesSpeedsOwn(gs, k, |gs|);
        } else {
          ParTwistQIsMixedTimesSpeeds(gs, p, i);
          QQdotTimesSpeedsCarried(gs, k, i, |gs|);
        }
    }
  }

  // ---------------------------------------------------------------------
  // The caches of a joint stay in closed form
  // ---------------------------------------------------------------------

  /**
   * A frame whose caches are those of a joint's constructor, possibly
   * refreshed since (fixed frames never change theirs).
   */
  ghost predicate JointShaped(f: FrameRec)
  {
    f.kind.IsFixed() || f.caches == JointCaches()
    || exists q0: real, c0: real, s0: real :: f.caches == Refreshed(f.kind, JointCaches(), q0, c0, s0)
  }

  /**
   * After `update()`, a joint-shaped frame that is not fixed holds the
   * caches of `updateLocal` on a fresh joint at its current q, whatever it
   * held before: its local pose is the joint's elementary transform, its
   * local twist the joint's unit twist, and the caches form a derivative
   * chain. It stays joint-shaped.
   */
  lemma {:induction false} SettledJointCaches(fs: seq<FrameRec>, trig: Trig, k: nat)
    requires Linked(fs) && k < |fs| && JointShaped(fs[k]) && !fs[k].kind.IsFixed()
    requires OnUnitCircle(trig)
    ensures JointShaped(Settled(fs, trig, k))
    ensures Settled(fs, trig, k).caches.ppc == JointTransform(fs[k].kind, fs[k].q, trig.cos(fs[k].q), trig.sin(fs[k].q))
    ensures Settled(fs, trig, k).caches.ptc == Twist.NewTwist(UnitTwist(fs[k].kind))
    ensures DerivativeChain(Settled(fs, trig, k).caches)
  {
    var f := fs[k];
    var c, s := trig.cos(f.q), trig.sin(f.q);
    var g := Settled(fs, trig, k);
    assert g.caches == Refreshed(f.kind, f.caches, f.q, c, s);
    if f.caches != JointCaches() {
      var q0: real, c0: real, s0: real :| f.caches == Refreshed(f.kind, JointCaches(), q0, c0, s0);
      RefreshOverwrites(f.kind, JointCaches(), q0, c0, s0, f.q, c, s);
    }
    assert g.caches == Refreshed(f.kind, JointCaches(), f.q, c, s);
    assert c * c + s * s == 1.0;
    match f.kind {
      case Rotation(ax) => RotationJointCaches(ax, f.q, c, s);
      case Translation(ax) => TranslationJointCaches(ax, f.q, c, s);
    }
  }

  /**
   * After `update()`, every frame's caches form a derivative chain, provided
   * every frame is joint-shaped and every fixed frame sits on a chain of its
   * own (a rigid offset pose, as `FixedFrameChain` gives).
   */
  lemma {:induction false} SettledDerivativeChains(fs: seq<FrameRec>, trig: Trig)
    requires Linked(fs) && OnUnitCircle(trig)
    requires forall j :: 0 <= j < |fs| ==> JointShaped(fs[j])
    requires forall j :: 0 <= j < |fs| && fs[j].kind.IsFixed() ==> DerivativeChain(fs[j].caches)
    ensures DerivativeChains(SettledAll(fs, trig))
  {
    var gs := SettledAll(fs, trig);
    forall j | 0 <= j < |gs|
      ensures DerivativeChain(gs[j].caches)
    {
      if fs[j].kind.IsFixed() {
        assert gs[j].caches == fs[j].caches;
      } else {
        SettledJointCaches(fs, trig, j);
      }
    }
  }
}
