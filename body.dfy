/**
 * Body (src/app/body.js): a Frame that carries a principal inertia vector
 * and reads its position and velocity, and their partial derivatives, off
 * the Frame queries as vectors.
 */
module Body {
  import opened Pose
  import Twist
  import opened Joint
  import opened Frame

  /**
   * The Body constructor: a Frame on `ppc` whose inertia is
   * [m, m, m, i_xx, i_yy, i_zz].
   */
  function NewBody(parent: Option<nat>, ppc: Mat4, mass: real, ixx: real, iyy: real, izz: real): (f: FrameRec)
    ensures f.kind.IsFixed() && f.parent == parent && f.caches.ppc == ppc
    ensures f.inertia.Some? && |f.inertia.value| == 6
    ensures forall i :: 0 <= i < 3 ==> f.inertia.value[i] == mass
    ensures f.inertia.value[3] == ixx && f.inertia.value[4] == iyy && f.inertia.value[5] == izz
  {
    NewFrame(parent, ppc).(inertia := Some([mass, mass, mass, ixx, iyy, izz]))
  }

  /** Frame k is a Body: only Bodies have these accessors. */
  predicate IsBody(fs: seq<FrameRec>, k: nat)
  {
    Linked(fs) && k < |fs| && fs[k].inertia.Some?
  }

  /** `position()`: column 3 of the world pose. */
  function Position(fs: seq<FrameRec>, k: nat): (r: seq<real>)
    requires IsBody(fs, k)
  {
    Location(fs[k].worldPose)
  }

  /** `parPositionQ(i)`: column 3 of `parPoseQ(i)`. */
  function ParPositionQ(fs: seq<FrameRec>, k: nat, i: nat): (r: seq<real>)
    requires IsBody(fs, k)
  {
    Location(ParPoseQ(fs, k, i))
  }

  /** `par2PositionQQ(i, j)`: column 3 of `par2PoseQQ(i, j)`. */
  function Par2PositionQQ(fs: seq<FrameRec>, k: nat, i: nat, j: nat): (r: seq<real>)
    requires IsBody(fs, k)
  {
    Location(Par2PoseQQ(fs, k, i, j))
  }

  /** `velocity()`: the world twist as a 6-vector. */
  function Velocity(fs: seq<FrameRec>, k: nat): (r: seq<real>)
    requires IsBody(fs, k)
  {
    Twist.Unhat(fs[k].worldTwist)
  }

  /** `parVelocityQ(i)`. */
  function ParVelocityQ(fs: seq<FrameRec>, k: nat, i: nat): (r: seq<real>)
    requires IsBody(fs, k)
  {
    Twist.Unhat(ParTwistQ(fs, k, i))
  }

  /** `par2VelocityQQ(i, j)`. */
  function Par2VelocityQQ(fs: seq<FrameRec>, k: nat, i: nat, j: nat): (r: seq<real>)
    requires IsBody(fs, k)
  {
    Twist.Unhat(Par2TwistQQ(fs, k, i, j))
  }

  /** `parVelocityQdot(i)`. */
  function ParVelocityQdot(fs: seq<FrameRec>, k: nat, i: nat): (r: seq<real>)
    requires IsBody(fs, k)
  {
    Twist.Unhat(ParTwistQdot(fs, k, i))
  }

  /** `par2VelocityQdotQdot(i, j)`: the velocity is linear in the speeds, so this is always zero. */
  function Par2VelocityQdotQdot(fs: seq<FrameRec>, k: nat, i: nat, j: nat): (r: seq<real>)
    requires IsBody(fs, k)
    ensures r == Twist.ZeroVector
  {
    Twist.Unhat(Par2TwistQdotQdot(fs, k, i, j))
  }

  /** `par2VelocityQQdot(q, qd)`. */
  function Par2VelocityQQdot(fs: seq<FrameRec>, k: nat, q: nat, qd: nat): (r: seq<real>)
    requires IsBody(fs, k)
  {
    Twist.Unhat(Par2TwistQQdot(fs, k, q, qd))
  }

  // ---------------------------------------------------------------------
  // Properties
  // ---------------------------------------------------------------------

  /** After `update()` with rigid local poses, the position is the world translation followed by 1. */
  lemma {:induction false} PositionIsWorldTranslation(gs: seq<FrameRec>, k: nat)
    requires IsBody(gs, k) && Propagated(gs)
    requires forall j :: 0 <= j < |gs| ==> Rigid(gs[j].caches.ppc)
    ensures Position(gs, k) == [Pose.Translation(gs[k].worldPose).x, Pose.Translation(gs[k].worldPose).y,
                                Pose.Translation(gs[k].worldPose).z, 1.0]
  {
    WorldPoseRigid(gs, k);
  }

  /** The position derivatives vanish for coordinates off the body's ancestor chain. */
  lemma {:induction false} PositionDerivativesOffChain(fs: seq<FrameRec>, k: nat, i: nat, j: nat)
    requires IsBody(fs, k) && !AncestorOrSelf(fs, i, k)
    ensures ParPositionQ(fs, k, i) == [0.0, 0.0, 0.0, 0.0]
    ensures Par2PositionQQ(fs, k, i, j) == [0.0, 0.0, 0.0, 0.0]
    ensures Par2PositionQQ(fs, k, j, i) == [0.0, 0.0, 0.0, 0.0]
  {
    ParPoseQOffChain(fs, k, i);
    Par2PoseQQOffChain(fs, k, i, j);
    Par2PoseQQOffChain(fs, k, j, i);
  }

  /** The velocity derivatives vanish for coordinates off the body's ancestor chain. */
  lemma {:induction false} VelocityDerivativesOffChain(fs: seq<FrameRec>, k: nat, i: nat, j: nat)
    requires IsBody(fs, k) && !AncestorOrSelf(fs, i, k)
    ensures ParVelocityQ(fs, k, i) == Twist.ZeroVector
    ensures ParVelocityQdot(fs, k, i) == Twist.ZeroVector
    ensures Par2VelocityQQ(fs, k, i, j) == Twist.ZeroVector
    ensures Par2VelocityQQ(fs, k, j, i) == Twist.ZeroVector
  {
    ParTwistQOffChain(fs, k, i);
    ParTwistQdotOffChain(fs, k, i);
    Par2TwistQQOffChain(fs, k, i, j);
    Par2TwistQQOffChain(fs, k, j, i);
  }

  /** The mixed velocity derivative is zero unless qd is a proper ancestor of q on the body's chain. */
  lemma {:induction false} Par2VelocityQQdotVanishes(fs: seq<FrameRec>, k: nat, q: nat, qd: nat)
    requires IsBody(fs, k)
    requires !(AncestorOrSelf(fs, q, k) && q < |fs| && qd != q && AncestorOrSelf(fs, qd, q))
    ensures Par2VelocityQQdot(fs, k, q, qd) == Twist.ZeroVector
  {
    Par2TwistQQdotVanishes(fs, k, q, qd);
  }

  /** After `update()` with every speed zero, the velocity is zero. */
  lemma {:induction false} VelocityAtRest(gs: seq<FrameRec>, k: nat)
    requires IsBody(gs, k) && Propagated(gs)
    requires forall j :: 0 <= j < |gs| ==> gs[j].qDot == 0.0
    ensures Velocity(gs, k) == Twist.ZeroVector
  {
    ZeroSpeedsZeroTwist(gs, k);
  }

  /** The sum over frames j < n of `parVelocityQdot(j)` times j's speed. */
  function VelocityFromSpeeds(fs: seq<FrameRec>, k: nat, n: nat): (r: seq<real>)
    requires IsBody(fs, k) && n <= |fs|
    ensures |r| == 6
  {
    if n == 0 then Twist.ZeroVector
    else Twist.AddVector(VelocityFromSpeeds(fs, k, n - 1), Twist.ScaleVector(ParVelocityQdot(fs, k, n - 1), Rate(fs[n - 1])))
  }

  lemma {:induction false} UnhatJacobianTimesSpeeds(fs: seq<FrameRec>, k: nat, n: nat)
    requires IsBody(fs, k) && n <= |fs|
    ensures Twist.Unhat(JacobianTimesSpeeds(fs, k, n)) == VelocityFromSpeeds(fs, k, n)
  {
    if n > 0 {
      var x, r := ParTwistQdot(fs, k, n - 1), Rate(fs[n - 1]);
      var prev, term := JacobianTimesSpeeds(fs, k, n - 1), Twist.Scale(x, r);
      var u, w := Twist.Unhat(prev), Twist.Unhat(term);
      UnhatJacobianTimesSpeeds(fs, k, n - 1);
      assert u == VelocityFromSpeeds(fs, k, n - 1);
      Twist.UnhatLinear(x, x, r);
      assert w == Twist.ScaleVector(ParVelocityQdot(fs, k, n - 1), r);
      Twist.UnhatLinear(prev, term, r);
      assert Twist.Unhat(JacobianTimesSpeeds(fs, k, n)) == Twist.AddVector(u, w);
    } else {
      assert Twist.Unhat(Zero) == Twist.ZeroVector;
    }
  }

  /**
   * After `update()`, a body's velocity is the sum of its `parVelocityQdot`
   * columns weighted by the speeds: velocity = J q_dot.
   */
  lemma {:induction false} VelocityIsJacobianTimesSpeeds(gs: seq<FrameRec>, k: nat)
    requires IsBody(gs, k) && Propagated(gs)
    requires forall j :: 0 <= j < |gs| && !gs[j].kind.IsFixed() ==> Twist.Se3(gs[j].caches.ptc)
    ensures Velocity(gs, k) == VelocityFromSpeeds(gs, k, |gs|)
  {
    WorldTwistIsJacobianTimesSpeeds(gs, k);
    UnhatJacobianTimesSpeeds(gs, k, |gs|);
  }
}
