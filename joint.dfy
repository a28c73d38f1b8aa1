/**
 * The one-degree-of-freedom joints of src/app/joint.js and the cached
 * matrices every frame carries (src/app/frame.js).
 *
 * A joint is a Frame whose `updateLocal` rewrites a few cells of its cached
 * matrices from its coordinate q. The six joint classes differ only in the
 * axis and in whether they rotate about it or slide along it, so they are one
 * `JointKind` here; a plain Frame is `Fixed`, whose `updateLocal` does nothing.
 */
module Joint {
  import opened Pose
  import Twist

  datatype Axis = X | Y | Z

  datatype JointKind = Fixed | Rotation(axis: Axis) | Translation(axis: Axis)
  {
    /** `is_fixed`: a plain Frame is fixed, every joint class clears the flag. */
    predicate IsFixed()
    {
      this == Fixed
    }
  }

  /** The row/column index of an axis. */
  function AxisIndex(ax: Axis): (i: nat)
    ensures i < 3
  {
    match ax
    case X => 0
    case Y => 1
    case Z => 2
  }

  /**
   * The cached matrices of a frame, in the source's names:
   * parent_pose_child, parent_dif1_child, parent_dif2_child,
   * child_pose_parent, child_dif1_parent, child_dif2_parent and
   * parent_twist_child.
   */
  datatype Caches = Caches(ppc: Mat4, dif1: Mat4, dif2: Mat4,
                           cpp: Mat4, cdif1: Mat4, cdif2: Mat4,
                           ptc: Mat4)

  /**
   * The caches set by the Frame constructor: a copy of the given pose, its
   * `inv()`, and fresh (zero) Twists for everything else.
   */
  function FreshCaches(ppc: Mat4): (c: Caches)
    ensures c.ppc == ppc && c.cpp == Inv(ppc)
    ensures c.dif1 == Zero && c.dif2 == Zero && c.cdif1 == Zero && c.cdif2 == Zero && c.ptc == Zero
  {
    Caches(ppc, Zero, Zero, Inv(ppc), Zero, Zero, Zero)
  }

  /** The cosine and sine that `updateLocal` takes from `math.cos` and `math.sin`. */
  datatype Trig = Trig(cos: real -> real, sin: real -> real)

  /** The one fact about cos and sin that the joint algebra needs. */
  ghost predicate OnUnitCircle(t: Trig)
  {
    forall q :: t.cos(q) * t.cos(q) + t.sin(q) * t.sin(q) == 1.0
  }

  // ---------------------------------------------------------------------
  // What `updateLocal` writes
  // ---------------------------------------------------------------------

  /**
   * Writes the 2x2 block of a rotation by (c, s) about `ax` into m, in the
   * plane the source uses for that axis: rows/columns (1, 2) for x, (0, 2)
   * for y (where the orientation of the plane flips the sign of s) and
   * (0, 1) for z. Every other cell of m is kept.
   */
  function RotBlock(m: Mat4, ax: Axis, c: real, s: real): Mat4
  {
    match ax
    case X => m.(m11 := c, m12 := -s, m21 := s, m22 := c)
    case Y => m.(m00 := c, m02 := s, m20 := -s, m22 := c)
    case Z => m.(m00 := c, m01 := -s, m10 := s, m11 := c)
  }

  /**
   * The caches after `updateLocal` with c = cos q and s = sin q.
   *
   * A rotation joint writes the rotation block of each matrix: the pose at
   * angle q, its first and second derivatives (the block at angles q + pi/2
   * and q + pi), the inverse pose (angle -q) and its two derivatives; the
   * local twist is then child_pose_parent * parent_dif1_child. A translation
   * joint writes one cell of column 3 in four of the matrices and in the local
   * twist. A fixed frame changes nothing.
   */
  function Refreshed(kind: JointKind, old_: Caches, q: real, c: real, s: real): Caches
  {
    match kind
    case Fixed => old_
    case Rotation(ax) =>
      var cpp := RotBlock(old_.cpp, ax, c, -s);
      var dif1 := RotBlock(old_.dif1, ax, -s, c);
      Caches(RotBlock(old_.ppc, ax, c, s), dif1, RotBlock(old_.dif2, ax, -c, -s),
             cpp, RotBlock(old_.cdif1, ax, -s, -c), RotBlock(old_.cdif2, ax, -c, s),
             Multiply(cpp, dif1))
    case Translation(ax) =>
      var a := AxisIndex(ax);
      old_.(ppc := old_.ppc.Set(a, 3, q), dif1 := old_.dif1.Set(a, 3, 1.0),
            cpp := old_.cpp.Set(a, 3, -q), cdif1 := old_.cdif1.Set(a, 3, -1.0),
            ptc := old_.ptc.Set(a, 3, 1.0))
  }

  /**
   * `updateLocal()` of the six joint classes and of a plain Frame: the
   * cell-by-cell writes of the source, in its order.
   */
  method UpdateLocal(kind: JointKind, caches: Caches, q: real, trig: Trig) returns (r: Caches)
    ensures r == Refreshed(kind, caches, q, trig.cos(q), trig.sin(q))
  {
    match kind {
      case Fixed => r := caches;
      case Rotation(X) => r := UpdateRotationX(caches, q, trig.cos(q), trig.sin(q));
      case Rotation(Y) => r := UpdateRotationY(caches, q, trig.cos(q), trig.sin(q));
      case Rotation(Z) => r := UpdateRotationZ(caches, q, trig.cos(q), trig.sin(q));
      case Translation(ax) => r := UpdateTranslation(ax, caches, q);
    }
  }

  /** `updateLocal()` of JointRotationX, with cq = cos q and sq = sin q. */
  method UpdateRotationX(caches: Caches, q: real, cq: real, sq: real) returns (r: Caches)
    ensures r == Refreshed(Rotation(X), caches, q, cq, sq)
  {
    var ppc, dif1, dif2 := caches.ppc, caches.dif1, caches.dif2;
    var cpp, cdif1, cdif2 := caches.cpp, caches.cdif1, caches.cdif2;
    var ptc := caches.ptc;
    ppc := ppc.Set(1, 1, cq); ppc := ppc.Set(1, 2, -sq); ppc := ppc.Set(2, 1, sq); ppc := ppc.Set(2, 2, cq);
    dif1 := dif1.Set(1, 1, -sq); dif1 := dif1.Set(1, 2, -cq); dif1 := dif1.Set(2, 1, cq); dif1 := dif1.Set(2, 2, -sq);
    dif2 := dif2.Set(1, 1, -cq); dif2 := dif2.Set(1, 2, sq); dif2 := dif2.Set(2, 1, -sq); dif2 := dif2.Set(2, 2, -cq);
    cpp := cpp.Set(1, 1, cq); cpp := cpp.Set(1, 2, sq); cpp := cpp.Set(2, 1, -sq); cpp := cpp.Set(2, 2, cq);
    cdif1 := cdif1.Set(1, 1, -sq); cdif1 := cdif1.Set(1, 2, cq); cdif1 := cdif1.Set(2, 1, -cq); cdif1 := cdif1.Set(2, 2, -sq);
    cdif2 := cdif2.Set(1, 1, -cq); cdif2 := cdif2.Set(1, 2, -sq); cdif2 := cdif2.Set(2, 1, sq); cdif2 := cdif2.Set(2, 2, -cq);
    ptc := Multiply(cpp, dif1);
    r := Caches(ppc, dif1, dif2, cpp, cdif1, cdif2, ptc);
  }

  /** `updateLocal()` of JointRotationY, with cq = cos q and sq = sin q. */
  method UpdateRotationY(caches: Caches, q: real, cq: real, sq: real) returns (r: Caches)
    ensures r == Refreshed(Rotation(Y), caches, q, cq, sq)
  {
    var ppc, dif1, dif2 := caches.ppc, caches.dif1, caches.dif2;
    var cpp, cdif1, cdif2 := caches.cpp, caches.cdif1, caches.cdif2;
    var ptc := caches.ptc;
    ppc := ppc.Set(0, 0, cq); ppc := ppc.Set(0, 2, sq); ppc := ppc.Set(2, 0, -sq); ppc := ppc.Set(2, 2, cq);
    dif1 := dif1.Set(0, 0, -sq); dif1 := dif1.Set(0, 2, cq); dif1 := dif1.Set(2, 0, -cq); dif1 := dif1.Set(2, 2, -sq);
    dif2 := dif2.Set(0, 0, -cq); dif2 := dif2.Set(0, 2, -sq); dif2 := dif2.Set(2, 0, sq); dif2 := dif2.Set(2, 2, -cq);
    cpp := cpp.Set(0, 0, cq); cpp := cpp.Set(0, 2, -sq); cpp := cpp.Set(2, 0, sq); cpp := cpp.Set(2, 2, cq);
    cdif1 := cdif1.Set(0, 0, -sq); cdif1 := cdif1.Set(0, 2, -cq); cdif1 := cdif1.Set(2, 0, cq); cdif1 := cdif1.Set(2, 2, -sq);
    cdif2 := cdif2.Set(0, 0, -cq); cdif2 := cdif2.Set(0, 2, sq); cdif2 := cdif2.Set(2, 0, -sq); cdif2 := cdif2.Set(2, 2, -cq);
    ptc := Multiply(cpp, dif1);
    r := Caches(ppc, dif1, dif2, cpp, cdif1, cdif2, ptc);
  }

  /** `updateLocal()` of JointRotationZ, with cq = cos q and sq = sin q. */
  method UpdateRotationZ(caches: Caches, q: real, cq: real, sq: real) returns (r: Caches)
    ensures r == Refreshed(Rotation(Z), caches, q, cq, sq)
  {
    var ppc, dif1, dif2 := caches.ppc, caches.dif1, caches.dif2;
    var cpp, cdif1, cdif2 := caches.cpp, caches.cdif1, caches.cdif2;
    var ptc := caches.ptc;
    ppc := ppc.Set(0, 0, cq); ppc := ppc.Set(0, 1, -sq); ppc := ppc.Set(1, 0, sq); ppc := ppc.Set(1, 1, cq);
    dif1 := dif1.Set(0, 0, -sq); dif1 := dif1.Set(0, 1, -cq); dif1 := dif1.Set(1, 0, cq); dif1 := dif1.Set(1, 1, -sq);
    dif2 := dif2.Set(0, 0, -cq); dif2 := dif2.Set(0, 1, sq); dif2 := dif2.Set(1, 0, -sq); dif2 := dif2.Set(1, 1, -cq);
    cpp := cpp.Set(0, 0, cq); cpp := cpp.Set(0, 1, sq); cpp := cpp.Set(1, 0, -sq); cpp := cpp.Set(1, 1, cq);
    cdif1 := cdif1.Set(0, 0, -sq); cdif1 := cdif1.Set(0, 1, cq); cdif1 := cdif1.Set(1, 0, -cq); cdif1 := cdif1.Set(1, 1, -sq);
    cdif2 := cdif2.Set(0, 0, -cq); cdif2 := cdif2.Set(0, 1, -sq); cdif2 := cdif2.Set(1, 0, sq); cdif2 := cdif2.Set(1, 1, -cq);
    ptc := Multiply(cpp, dif1);
    r := Caches(ppc, dif1, dif2, cpp, cdif1, cdif2, ptc);
  }

  /** `updateLocal()` of JointTranslationX, Y and Z: one cell of column 3 in five matrices. */
  method UpdateTranslation(ax: Axis, caches: Caches, q: real) returns (r: Caches)
    ensures r == Refreshed(Translation(ax), caches, q, 0.0, 0.0)
  {
    var ppc, dif1, dif2 := caches.ppc, caches.dif1, caches.dif2;
    var cpp, cdif1, cdif2 := caches.cpp, caches.cdif1, caches.cdif2;
    var ptc := caches.ptc;
    var a := AxisIndex(ax);
    ppc := ppc.Set(a, 3, q);
    dif1 := dif1.Set(a, 3, 1.0);
    cpp := cpp.Set(a, 3, -q);
    cdif1 := cdif1.Set(a, 3, -1.0);
    ptc := ptc.Set(a, 3, 1.0);
    r := Caches(ppc, dif1, dif2, cpp, cdif1, cdif2, ptc);
  }

  // ---------------------------------------------------------------------
  // Properties of the refreshed caches
  // ---------------------------------------------------------------------

  /**
   * `updateLocal` writes the same cells whatever q is, so a second update
   * overwrites everything the first one wrote: only the last q matters, and
   * repeating an update with the same q changes nothing.
   */
  lemma {:induction false} RefreshOverwrites(kind: JointKind, cs: Caches, q0: real, c0: real, s0: real,
                                             q: real, c: real, s: real)
    ensures Refreshed(kind, Refreshed(kind, cs, q0, c0, s0), q, c, s) == Refreshed(kind, cs, q, c, s)
  {
    match kind {
      case Fixed =>
      case Rotation(ax) => RotationOverwrites(ax, cs, c0, s0, c, s);
      case Translation(ax) => TranslationOverwrites(ax, cs, q0, q);
    }
  }

  lemma {:induction false} RotationOverwrites(ax: Axis, cs: Caches, c0: real, s0: real, c: real, s: real)
    ensures Refreshed(Rotation(ax), Refreshed(Rotation(ax), cs, 0.0, c0, s0), 0.0, c, s) == Refreshed(Rotation(ax), cs, 0.0, c, s)
  {
    var once := Refreshed(Rotation(ax), cs, 0.0, c0, s0);
    RotBlockTwice(cs.ppc, ax, c0, s0, c, s);
    RotBlockTwice(cs.dif1, ax, -s0, c0, -s, c);
    RotBlockTwice(cs.dif2, ax, -c0, -s0, -c, -s);
    RotBlockTwice(cs.cpp, ax, c0, -s0, c, -s);
    RotBlockTwice(cs.cdif1, ax, -s0, -c0, -s, -c);
    RotBlockTwice(cs.cdif2, ax, -c0, s0, -c, s);
    var cpp, dif1 := RotBlock(once.cpp, ax, c, -s), RotBlock(once.dif1, ax, -s, c);
    assert cpp == RotBlock(cs.cpp, ax, c, -s);
    assert dif1 == RotBlock(cs.dif1, ax, -s, c);
  }

  lemma {:induction false} TranslationOverwrites(ax: Axis, cs: Caches, q0: real, q: real)
    ensures Refreshed(Translation(ax), Refreshed(Translation(ax), cs, q0, 0.0, 0.0), q, 0.0, 0.0)
         == Refreshed(Translation(ax), cs, q, 0.0, 0.0)
  {
    var a := AxisIndex(ax);
    SetTwice(cs.ppc, a, 3, q0, q);
    SetTwice(cs.dif1, a, 3, 1.0, 1.0);
    SetTwice(cs.cpp, a, 3, -q0, -q);
    SetTwice(cs.cdif1, a, 3, -1.0, -1.0);
    SetTwice(cs.ptc, a, 3, 1.0, 1.0);
  }

  lemma SetTwice(m: Mat4, i: nat, j: nat, u: real, v: real)
    requires i < 4 && j < 4
    ensures m.Set(i, j, u).Set(i, j, v) == m.Set(i, j, v)
  {
  }

  lemma RotBlockTwice(m: Mat4, ax: Axis, c0: real, s0: real, c: real, s: real)
    ensures RotBlock(RotBlock(m, ax, c0, s0), ax, c, s) == RotBlock(m, ax, c, s)
  {
  }

  /** The elementary transform of a joint: what `rotateByX/Y/Z` or a translation along the axis build. */
  function JointTransform(kind: JointKind, q: real, c: real, s: real): Mat4
  {
    match kind
    case Fixed => Identity
    case Rotation(X) => ElementaryX(c, s)
    case Rotation(Y) => ElementaryY(c, s)
    case Rotation(Z) => ElementaryZ(c, s)
    case Translation(ax) => SetTranslation(Identity, AxisVector(ax, q))
  }

  /** q times the unit vector of an axis. */
  function AxisVector(ax: Axis, q: real): (v: Vec3)
    ensures Dot(v, UnitAxis(ax)) == q
  {
    match ax
    case X => Vec3(q, 0.0, 0.0)
    case Y => Vec3(0.0, q, 0.0)
    case Z => Vec3(0.0, 0.0, q)
  }

  function UnitAxis(ax: Axis): Vec3
  {
    match ax
    case X => Vec3(1.0, 0.0, 0.0)
    case Y => Vec3(0.0, 1.0, 0.0)
    case Z => Vec3(0.0, 0.0, 1.0)
  }

  /**
   * The body-frame unit twist of a joint: a unit angular velocity about the
   * axis for a rotation joint, a unit linear velocity along it for a
   * translation joint, and zero for a fixed frame.
   */
  function UnitTwist(kind: JointKind): (v: seq<real>)
    ensures Twist.IsTwistVector(v)
  {
    match kind
    case Fixed => Twist.ZeroVector
    case Rotation(X) => [0.0, 0.0, 0.0, 1.0, 0.0, 0.0]
    case Rotation(Y) => [0.0, 0.0, 0.0, 0.0, 1.0, 0.0]
    case Rotation(Z) => [0.0, 0.0, 0.0, 0.0, 0.0, 1.0]
    case Translation(X) => [1.0, 0.0, 0.0, 0.0, 0.0, 0.0]
    case Translation(Y) => [0.0, 1.0, 0.0, 0.0, 0.0, 0.0]
    case Translation(Z) => [0.0, 0.0, 1.0, 0.0, 0.0, 0.0]
  }

  /**
   * How the caches of a joint hang together, with xi = parent_twist_child:
   * the pose is rigid and child_pose_parent is its two-sided inverse; the local twist
   * has the se(3) shape; dif1 = P xi and dif2 = dif1 xi (the derivatives of
   * P = exp(q xi)); and the derivatives of the inverse are cdif1 = -xi cpp and
   * cdif2 = -xi cdif1.
   */
  predicate DerivativeChain(cs: Caches)
  {
    Rigid(cs.ppc)
    && Multiply(cs.cpp, cs.ppc) == Identity && Multiply(cs.ppc, cs.cpp) == Identity
    && Twist.Se3(cs.ptc)
    && Multiply(cs.ppc, cs.ptc) == cs.dif1
    && Multiply(cs.dif1, cs.ptc) == cs.dif2
    && cs.cdif1 == Twist.Scale(Multiply(cs.ptc, cs.cpp), -1.0)
    && cs.cdif2 == Twist.Scale(Multiply(cs.ptc, cs.cdif1), -1.0)
  }

  /** A fixed frame on a rigid pose holds a derivative chain: its twist and its derivatives are all zero. */
  lemma {:induction false} FixedFrameChain(p: Mat4)
    requires Rigid(p)
    ensures DerivativeChain(FreshCaches(p))
  {
    InvIsInverse(p);
    MultiplyZero(p);
    MultiplyZero(Inv(p));
    MultiplyZero(Zero);
    Twist.ScaleByZeroMatrix(-1.0);
  }

  /** The caches of a newly constructed joint, written out. */
  function JointCaches(): Caches
  {
    Caches(Identity, Zero, Zero, Identity, Zero, Zero, Zero)
  }

  /** A joint's constructor builds a Frame on the identity pose, whose inverse is the identity. */
  lemma JointCachesAreFresh()
    ensures JointCaches() == FreshCaches(Identity)
  {
    InvIdentity();
  }

  /**
   * After `updateLocal` on a joint built by its constructor, with (c, s) on
   * the unit circle: the pose is the elementary transform of the joint, the
   * local twist is the joint's unit twist, and the caches form a derivative
   * chain.
   */
  lemma {:induction false} RotationJointCaches(ax: Axis, q: real, c: real, s: real)
    requires c * c + s * s == 1.0
    ensures Refreshed(Rotation(ax), JointCaches(), q, c, s).ppc == JointTransform(Rotation(ax), q, c, s)
    ensures Refreshed(Rotation(ax), JointCaches(), q, c, s).ptc == Twist.NewTwist(UnitTwist(Rotation(ax)))
    ensures DerivativeChain(Refreshed(Rotation(ax), JointCaches(), q, c, s))
  {
    ElementaryRigid(c, s);
    match ax {
      case X => RotationXCaches(q, c, s); RotationXTwist(c, s); RotationXProducts(c, s);
      case Y => RotationYCaches(q, c, s); RotationYTwist(c, s); RotationYProducts(c, s);
      case Z => RotationZCaches(q, c, s); RotationZTwist(c, s); RotationZProducts(c, s);
    }
  }

  /** The caches of a rotation joint about x after `updateLocal`, written out. */
  function RotationXExplicit(c: real, s: real, ptc: Mat4): Caches
  {
    Caches(Mat4(1.0, 0.0, 0.0, 0.0, 0.0, c, -s, 0.0, 0.0, s, c, 0.0, 0.0, 0.0, 0.0, 1.0),
           Mat4(0.0, 0.0, 0.0, 0.0, 0.0, -s, -c, 0.0, 0.0, c, -s, 0.0, 0.0, 0.0, 0.0, 0.0),
           Mat4(0.0, 0.0, 0.0, 0.0, 0.0, -c, s, 0.0, 0.0, -s, -c, 0.0, 0.0, 0.0, 0.0, 0.0),
           Mat4(1.0, 0.0, 0.0, 0.0, 0.0, c, s, 0.0, 0.0, -s, c, 0.0, 0.0, 0.0, 0.0, 1.0),
           Mat4(0.0, 0.0, 0.0, 0.0, 0.0, -s, c, 0.0, 0.0, -c, -s, 0.0, 0.0, 0.0, 0.0, 0.0),
           Mat4(0.0, 0.0, 0.0, 0.0, 0.0, -c, -s, 0.0, 0.0, s, -c, 0.0, 0.0, 0.0, 0.0, 0.0),
           ptc)
  }

  /** The unit angular twist about x, as a matrix. */
  const SpinX: Mat4 := Mat4(0.0, 0.0, 0.0, 0.0, 0.0, 0.0, -1.0, 0.0, 0.0, 1.0, 0.0, 0.0, 0.0, 0.0, 0.0, 0.0)

  lemma {:induction false} RotationXCaches(q: real, c: real, s: real)
    ensures Refreshed(Rotation(X), JointCaches(), q, c, s)
         == RotationXExplicit(c, s, Multiply(RotationXExplicit(c, s, Zero).cpp, RotationXExplicit(c, s, Zero).dif1))
    ensures RotationXExplicit(c, s, Zero).ppc == ElementaryX(c, s)
  {
    var cs := Refreshed(Rotation(X), JointCaches(), q, c, s);
    var e := RotationXExplicit(c, s, Zero);
    assert cs.ppc == e.ppc && cs.dif1 == e.dif1 && cs.dif2 == e.dif2;
    assert cs.cpp == e.cpp;
    assert cs.cdif1 == e.cdif1 && cs.cdif2 == e.cdif2;
    assert cs.ptc == Multiply(e.cpp, e.dif1);
  }

  /** On the unit circle, child_pose_parent * parent_dif1_child is the unit angular twist about x. */
  lemma {:induction false} RotationXTwist(c: real, s: real)
    requires c * c + s * s == 1.0
    ensures Multiply(RotationXExplicit(c, s, Zero).cpp, RotationXExplicit(c, s, Zero).dif1) == SpinX
    ensures SpinX == Twist.NewTwist(UnitTwist(Rotation(X)))
  {
    Twist.NewTwistExplicit(UnitTwist(Rotation(X)));
  }

  /** The product relations of the chain. */
  lemma {:induction false} RotationXProducts(c: real, s: real)
    requires c * c + s * s == 1.0
    ensures Multiply(RotationXExplicit(c, s, SpinX).cpp, RotationXExplicit(c, s, SpinX).ppc) == Identity
    ensures Multiply(RotationXExplicit(c, s, SpinX).ppc, RotationXExplicit(c, s, SpinX).cpp) == Identity
    ensures Multiply(RotationXExplicit(c, s, SpinX).ppc, SpinX) == RotationXExplicit(c, s, SpinX).dif1
    ensures Multiply(RotationXExplicit(c, s, SpinX).dif1, SpinX) == RotationXExplicit(c, s, SpinX).dif2
    ensures RotationXExplicit(c, s, SpinX).cdif1 == Twist.Scale(Multiply(SpinX, RotationXExplicit(c, s, SpinX).cpp), -1.0)
    ensures RotationXExplicit(c, s, SpinX).cdif2 == Twist.Scale(Multiply(SpinX, RotationXExplicit(c, s, SpinX).cdif1), -1.0)
  {
  }

  /** The caches of a rotation joint about y after `updateLocal`, written out. */
  function RotationYExplicit(c: real, s: real, ptc: Mat4): Caches
  {
    Caches(Mat4(c, 0.0, s, 0.0, 0.0, 1.0, 0.0, 0.0, -s, 0.0, c, 0.0, 0.0, 0.0, 0.0, 1.0),
           Mat4(-s, 0.0, c, 0.0, 0.0, 0.0, 0.0, 0.0, -c, 0.0, -s, 0.0, 0.0, 0.0, 0.0, 0.0),
           Mat4(-c, 0.0, -s, 0.0, 0.0, 0.0, 0.0, 0.0, s, 0.0, -c, 0.0, 0.0, 0.0, 0.0, 0.0),
           Mat4(c, 0.0, -s, 0.0, 0.0, 1.0, 0.0, 0.0, s, 0.0, c, 0.0, 0.0, 0.0, 0.0, 1.0),
           Mat4(-s, 0.0, -c, 0.0, 0.0, 0.0, 0.0, 0.0, c, 0.0, -s, 0.0, 0.0, 0.0, 0.0, 0.0),
           Mat4(-c, 0.0, s, 0.0, 0.0, 0.0, 0.0, 0.0, -s, 0.0, -c, 0.0, 0.0, 0.0, 0.0, 0.0),
           ptc)
  }

  /** The unit angular twist about y, as a matrix. */
  const SpinY: Mat4 := Mat4(0.0, 0.0, 1.0, 0.0, 0.0, 0.0, 0.0, 0.0, -1.0, 0.0, 0.0, 0.0, 0.0, 0.0, 0.0, 0.0)

  lemma {:induction false} RotationYCaches(q: real, c: real, s: real)
    ensures Refreshed(Rotation(Y), JointCaches(), q, c, s)
         == RotationYExplicit(c, s, Multiply(RotationYExplicit(c, s, Zero).cpp, RotationYExplicit(c, s, Zero).dif1))
    ensures RotationYExplicit(c, s, Zero).ppc == ElementaryY(c, s)
  {
    var cs := Refreshed(Rotation(Y), JointCaches(), q, c, s);
    var e := RotationYExplicit(c, s, Zero);
    assert cs.ppc == e.ppc && cs.dif1 == e.dif1 && cs.dif2 == e.dif2;
    assert cs.cpp == e.cpp;
    assert cs.cdif1 == e.cdif1 && cs.cdif2 == e.cdif2;
    assert cs.ptc == Multiply(e.cpp, e.dif1);
  }

  /** On the unit circle, child_pose_parent * parent_dif1_child is the unit angular twist about y. */
  lemma {:induction false} RotationYTwist(c: real, s: real)
    requires c * c + s * s == 1.0
    ensures Multiply(RotationYExplicit(c, s, Zero).cpp, RotationYExplicit(c, s, Zero).dif1) == SpinY
    ensures SpinY == Twist.NewTwist(UnitTwist(Rotation(Y)))
  {
    Twist.NewTwistExplicit(UnitTwist(Rotation(Y)));
  }

  /** The product relations of the chain. */
  lemma {:induction false} RotationYProducts(c: real, s: real)
    requires c * c + s * s == 1.0
    ensures Multiply(RotationYExplicit(c, s, SpinY).cpp, RotationYExplicit(c, s, SpinY).ppc) == Identity
    ensures Multiply(RotationYExplicit(c, s, SpinY).ppc, RotationYExplicit(c, s, SpinY).cpp) == Identity
    ensures Multiply(RotationYExplicit(c, s, SpinY).ppc, SpinY) == RotationYExplicit(c, s, SpinY).dif1
    ensures Multiply(RotationYExplicit(c, s, SpinY).dif1, SpinY) == RotationYExplicit(c, s, SpinY).dif2
    ensures RotationYExplicit(c, s, SpinY).cdif1 == Twist.Scale(Multiply(SpinY, RotationYExplicit(c, s, SpinY).cpp), -1.0)
    ensures RotationYExplicit(c, s, SpinY).cdif2 == Twist.Scale(Multiply(SpinY, RotationYExplicit(c, s, SpinY).cdif1), -1.0)
  {
    assert (-s) * (-s) == s * s;
  }

  /** The caches of a rotation joint about z after `updateLocal`, written out. */
  function RotationZExplicit(c: real, s: real, ptc: Mat4): Caches
  {
    Caches(Mat4(c, -s, 0.0, 0.0, s, c, 0.0, 0.0, 0.0, 0.0, 1.0, 0.0, 0.0, 0.0, 0.0, 1.0),
           Mat4(-s, -c, 0.0, 0.0, c, -s, 0.0, 0.0, 0.0, 0.0, 0.0, 0.0, 0.0, 0.0, 0.0, 0.0),
           Mat4(-c, s, 0.0, 0.0, -s, -c, 0.0, 0.0, 0.0, 0.0, 0.0, 0.0, 0.0, 0.0, 0.0, 0.0),
           Mat4(c, s, 0.0, 0.0, -s, c, 0.0, 0.0, 0.0, 0.0, 1.0, 0.0, 0.0, 0.0, 0.0, 1.0),
           Mat4(-s, c, 0.0, 0.0, -c, -s, 0.0, 0.0, 0.0, 0.0, 0.0, 0.0, 0.0, 0.0, 0.0, 0.0),
           Mat4(-c, -s, 0.0, 0.0, s, -c, 0.0, 0.0, 0.0, 0.0, 0.0, 0.0, 0.0, 0.0, 0.0, 0.0),
           ptc)
  }

  /** The unit angular twist about z, as a matrix. */
  const SpinZ: Mat4 := Mat4(0.0, -1.0, 0.0, 0.0, 1.0, 0.0, 0.0, 0.0, 0.0, 0.0, 0.0, 0.0, 0.0, 0.0, 0.0, 0.0)

  lemma {:induction false} RotationZCaches(q: real, c: real, s: real)
    ensures Refreshed(Rotation(Z), JointCaches(), q, c, s)
         == RotationZExplicit(c, s, Multiply(RotationZExplicit(c, s, Zero).cpp, RotationZExplicit(c, s, Zero).dif1))
    ensures RotationZExplicit(c, s, Zero).ppc == ElementaryZ(c, s)
  {
    var cs := Refreshed(Rotation(Z), JointCaches(), q, c, s);
    var e := RotationZExplicit(c, s, Zero);
    assert cs.ppc == e.ppc && cs.dif1 == e.dif1 && cs.dif2 == e.dif2;
    assert cs.cpp == e.cpp;
    assert cs.cdif1 == e.cdif1 && cs.cdif2 == e.cdif2;
    assert cs.ptc == Multiply(e.cpp, e.dif1);
  }

  /** On the unit circle, child_pose_parent * parent_dif1_child is the unit angular twist about z. */
  lemma {:induction false} RotationZTwist(c: real, s: real)
    requires c * c + s * s == 1.0
    ensures Multiply(RotationZExplicit(c, s, Zero).cpp, RotationZExplicit(c, s, Zero).dif1) == SpinZ
    ensures SpinZ == Twist.NewTwist(UnitTwist(Rotation(Z)))
  {
    Twist.NewTwistExplicit(UnitTwist(Rotation(Z)));
  }

  /** The product relations of the chain. */
  lemma {:induction false} RotationZProducts(c: real, s: real)
    requires c * c + s * s == 1.0
    ensures Multiply(RotationZExplicit(c, s, SpinZ).cpp, RotationZExplicit(c, s, SpinZ).ppc) == Identity
    ensures Multiply(RotationZExplicit(c, s, SpinZ).ppc, RotationZExplicit(c, s, SpinZ).cpp) == Identity
    ensures Multiply(RotationZExplicit(c, s, SpinZ).ppc, SpinZ) == RotationZExplicit(c, s, SpinZ).dif1
    ensures Multiply(RotationZExplicit(c, s, SpinZ).dif1, SpinZ) == RotationZExplicit(c, s, SpinZ).dif2
    ensures RotationZExplicit(c, s, SpinZ).cdif1 == Twist.Scale(Multiply(SpinZ, RotationZExplicit(c, s, SpinZ).cpp), -1.0)
    ensures RotationZExplicit(c, s, SpinZ).cdif2 == Twist.Scale(Multiply(SpinZ, RotationZExplicit(c, s, SpinZ).cdif1), -1.0)
  {
  }

  /** The caches of a translation joint after `updateLocal`, written out. */
  function TranslationExplicit(ax: Axis, q: real): Caches
  {
    match ax
    case X => Caches(Mat4(1.0, 0.0, 0.0, q, 0.0, 1.0, 0.0, 0.0, 0.0, 0.0, 1.0, 0.0, 0.0, 0.0, 0.0, 1.0),
                     Mat4(0.0, 0.0, 0.0, 1.0, 0.0, 0.0, 0.0, 0.0, 0.0, 0.0, 0.0, 0.0, 0.0, 0.0, 0.0, 0.0), Zero,
                     Mat4(1.0, 0.0, 0.0, -q, 0.0, 1.0, 0.0, 0.0, 0.0, 0.0, 1.0, 0.0, 0.0, 0.0, 0.0, 1.0),
                     Mat4(0.0, 0.0, 0.0, -1.0, 0.0, 0.0, 0.0, 0.0, 0.0, 0.0, 0.0, 0.0, 0.0, 0.0, 0.0, 0.0), Zero,
                     Mat4(0.0, 0.0, 0.0, 1.0, 0.0, 0.0, 0.0, 0.0, 0.0, 0.0, 0.0, 0.0, 0.0, 0.0, 0.0, 0.0))
    case Y => Caches(Mat4(1.0, 0.0, 0.0, 0.0, 0.0, 1.0, 0.0, q, 0.0, 0.0, 1.0, 0.0, 0.0, 0.0, 0.0, 1.0),
                     Mat4(0.0, 0.0, 0.0, 0.0, 0.0, 0.0, 0.0, 1.0, 0.0, 0.0, 0.0, 0.0, 0.0, 0.0, 0.0, 0.0), Zero,
                     Mat4(1.0, 0.0, 0.0, 0.0, 0.0, 1.0, 0.0, -q, 0.0, 0.0, 1.0, 0.0, 0.0, 0.0, 0.0, 1.0),
                     Mat4(0.0, 0.0, 0.0, 0.0, 0.0, 0.0, 0.0, -1.0, 0.0, 0.0, 0.0, 0.0, 0.0, 0.0, 0.0, 0.0), Zero,
                     Mat4(0.0, 0.0, 0.0, 0.0, 0.0, 0.0, 0.0, 1.0, 0.0, 0.0, 0.0, 0.0, 0.0, 0.0, 0.0, 0.0))
    case Z => Caches(Mat4(1.0, 0.0, 0.0, 0.0, 0.0, 1.0, 0.0, 0.0, 0.0, 0.0, 1.0, q, 0.0, 0.0, 0.0, 1.0),
                     Mat4(0.0, 0.0, 0.0, 0.0, 0.0, 0.0, 0.0, 0.0, 0.0, 0.0, 0.0, 1.0, 0.0, 0.0, 0.0, 0.0), Zero,
                     Mat4(1.0, 0.0, 0.0, 0.0, 0.0, 1.0, 0.0, 0.0, 0.0, 0.0, 1.0, -q, 0.0, 0.0, 0.0, 1.0),
                     Mat4(0.0, 0.0, 0.0, 0.0, 0.0, 0.0, 0.0, 0.0, 0.0, 0.0, 0.0, -1.0, 0.0, 0.0, 0.0, 0.0), Zero,
                     Mat4(0.0, 0.0, 0.0, 0.0, 0.0, 0.0, 0.0, 0.0, 0.0, 0.0, 0.0, 1.0, 0.0, 0.0, 0.0, 0.0))
  }

  lemma {:induction false} TranslationJointCaches(ax: Axis, q: real, c: real, s: real)
    ensures Refreshed(Translation(ax), JointCaches(), q, c, s).ppc == JointTransform(Translation(ax), q, c, s)
    ensures Refreshed(Translation(ax), JointCaches(), q, c, s).ptc == Twist.NewTwist(UnitTwist(Translation(ax)))
    ensures DerivativeChain(Refreshed(Translation(ax), JointCaches(), q, c, s))
  {
    TranslationCaches(ax, q, c, s);
    TranslationChain(ax, q);
  }

  lemma {:induction false} TranslationCaches(ax: Axis, q: real, c: real, s: real)
    ensures Refreshed(Translation(ax), JointCaches(), q, c, s) == TranslationExplicit(ax, q)
    ensures TranslationExplicit(ax, q).ppc == JointTransform(Translation(ax), q, c, s)
  {
    match ax {
      case X =>
      case Y =>
      case Z =>
    }
  }

  lemma {:induction false} TranslationChain(ax: Axis, q: real)
    ensures TranslationExplicit(ax, q).ptc == Twist.NewTwist(UnitTwist(Translation(ax)))
    ensures DerivativeChain(TranslationExplicit(ax, q))
  {
    match ax {
      case X => TranslationXTwist(q); TranslationXChain(q);
      case Y => TranslationYTwist(q); TranslationYChain(q);
      case Z => TranslationZTwist(q); TranslationZChain(q);
    }
  }

  lemma {:induction false} TranslationXChain(q: real)
    ensures DerivativeChain(TranslationExplicit(X, q))
  {
    TranslationXInverse(q);
    TranslationXDerivatives(q);
    TranslationXInverseDerivatives(q);
  }

  lemma TranslationXInverse(q: real)
    ensures Rigid(TranslationExplicit(X, q).ppc)
    ensures Multiply(TranslationExplicit(X, q).cpp, TranslationExplicit(X, q).ppc) == Identity
    ensures Multiply(TranslationExplicit(X, q).ppc, TranslationExplicit(X, q).cpp) == Identity
  {
  }

  lemma TranslationXTwist(q: real)
    ensures TranslationExplicit(X, q).ptc == Twist.NewTwist(UnitTwist(Translation(X)))
  {
    Twist.NewTwistExplicit(UnitTwist(Translation(X)));
  }

  lemma TranslationXDerivatives(q: real)
    ensures Twist.Se3(TranslationExplicit(X, q).ptc)
    ensures Multiply(TranslationExplicit(X, q).ppc, TranslationExplicit(X, q).ptc) == TranslationExplicit(X, q).dif1
    ensures Multiply(TranslationExplicit(X, q).dif1, TranslationExplicit(X, q).ptc) == TranslationExplicit(X, q).dif2
  {
  }

  lemma TranslationXInverseDerivatives(q: real)
    ensures TranslationExplicit(X, q).cdif1 == Twist.Scale(Multiply(TranslationExplicit(X, q).ptc, TranslationExplicit(X, q).cpp), -1.0)
    ensures TranslationExplicit(X, q).cdif2 == Twist.Scale(Multiply(TranslationExplicit(X, q).ptc, TranslationExplicit(X, q).cdif1), -1.0)
  {
    TranslationXFirstInverseDerivative(q);
    TranslationXSecondInverseDerivative(q);
  }

  lemma TranslationXFirstInverseDerivative(q: real)
    ensures TranslationExplicit(X, q).cdif1 == Twist.Scale(Multiply(TranslationExplicit(X, q).ptc, TranslationExplicit(X, q).cpp), -1.0)
  {
  }

  lemma TranslationXSecondInverseDerivative(q: real)
    ensures TranslationExplicit(X, q).cdif2 == Twist.Scale(Multiply(TranslationExplicit(X, q).ptc, TranslationExplicit(X, q).cdif1), -1.0)
  {
  }

  lemma {:induction false} TranslationYChain(q: real)
    ensures DerivativeChain(TranslationExplicit(Y, q))
  {
    TranslationYInverse(q);
    TranslationYDerivatives(q);
    TranslationYInverseDerivatives(q);
  }

  lemma TranslationYInverse(q: real)
    ensures Rigid(TranslationExplicit(Y, q).ppc)
    ensures Multiply(TranslationExplicit(Y, q).cpp, TranslationExplicit(Y, q).ppc) == Identity
    ensures Multiply(TranslationExplicit(Y, q).ppc, TranslationExplicit(Y, q).cpp) == Identity
  {
  }

  lemma TranslationYTwist(q: real)
    ensures TranslationExplicit(Y, q).ptc == Twist.NewTwist(UnitTwist(Translation(Y)))
  {
    Twist.NewTwistExplicit(UnitTwist(Translation(Y)));
  }

  lemma TranslationYDerivatives(q: real)
    ensures Twist.Se3(TranslationExplicit(Y, q).ptc)
    ensures Multiply(TranslationExplicit(Y, q).ppc, TranslationExplicit(Y, q).ptc) == TranslationExplicit(Y, q).dif1
    ensures Multiply(TranslationExplicit(Y, q).dif1, TranslationExplicit(Y, q).ptc) == TranslationExplicit(Y, q).dif2
  {
  }

  lemma TranslationYInverseDerivatives(q: real)
    ensures TranslationExplicit(Y, q).cdif1 == Twist.Scale(Multiply(TranslationExplicit(Y, q).ptc, TranslationExplicit(Y, q).cpp), -1.0)
    ensures TranslationExplicit(Y, q).cdif2 == Twist.Scale(Multiply(TranslationExplicit(Y, q).ptc, TranslationExplicit(Y, q).cdif1), -1.0)
  {
    TranslationYFirstInverseDerivative(q);
    TranslationYSecondInverseDerivative(q);
  }

  lemma TranslationYFirstInverseDerivative(q: real)
    ensures TranslationExplicit(Y, q).cdif1 == Twist.Scale(Multiply(TranslationExplicit(Y, q).ptc, TranslationExplicit(Y, q).cpp), -1.0)
  {
  }

  lemma TranslationYSecondInverseDerivative(q: real)
    ensures TranslationExplicit(Y, q).cdif2 == Twist.Scale(Multiply(TranslationExplicit(Y, q).ptc, TranslationExplicit(Y, q).cdif1), -1.0)
  {
  }

  lemma {:induction false} TranslationZChain(q: real)
    ensures DerivativeChain(TranslationExplicit(Z, q))
  {
    TranslationZInverse(q);
    TranslationZDerivatives(q);
    TranslationZInverseDerivatives(q);
  }

  lemma TranslationZInverse(q: real)
    ensures Rigid(TranslationExplicit(Z, q).ppc)
    ensures Multiply(TranslationExplicit(Z, q).cpp, TranslationExplicit(Z, q).ppc) == Identity
    ensures Multiply(TranslationExplicit(Z, q).ppc, TranslationExplicit(Z, q).cpp) == Identity
  {
  }

  lemma TranslationZTwist(q: real)
    ensures TranslationExplicit(Z, q).ptc == Twist.NewTwist(UnitTwist(Translation(Z)))
  {
    Twist.NewTwistExplicit(UnitTwist(Translation(Z)));
  }

  lemma TranslationZDerivatives(q: real)
    ensures Twist.Se3(TranslationExplicit(Z, q).ptc)
    ensures Multiply(TranslationExplicit(Z, q).ppc, TranslationExplicit(Z, q).ptc) == TranslationExplicit(Z, q).dif1
    ensures Multiply(TranslationExplicit(Z, q).dif1, TranslationExplicit(Z, q).ptc) == TranslationExplicit(Z, q).dif2
  {
  }

  lemma TranslationZInverseDerivatives(q: real)
    ensures TranslationExplicit(Z, q).cdif1 == Twist.Scale(Multiply(TranslationExplicit(Z, q).ptc, TranslationExplicit(Z, q).cpp), -1.0)
    ensures TranslationExplicit(Z, q).cdif2 == Twist.Scale(Multiply(TranslationExplicit(Z, q).ptc, TranslationExplicit(Z, q).cdif1), -1.0)
  {
    TranslationZFirstInverseDerivative(q);
    TranslationZSecondInverseDerivative(q);
  }

  lemma TranslationZFirstInverseDerivative(q: real)
    ensures TranslationExplicit(Z, q).cdif1 == Twist.Scale(Multiply(TranslationExplicit(Z, q).ptc, TranslationExplicit(Z, q).cpp), -1.0)
  {
  }

  lemma TranslationZSecondInverseDerivative(q: real)
    ensures TranslationExplicit(Z, q).cdif2 == Twist.Scale(Multiply(TranslationExplicit(Z, q).ptc, TranslationExplicit(Z, q).cdif1), -1.0)
  {
  }
}
