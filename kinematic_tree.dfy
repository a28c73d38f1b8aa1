/**
 * KinematicTree (src/app/kinematic_tree.js) together with the recursive
 * `update()` of src/app/frame.js, which walks the tree the class owns.
 *
 * The tree owns the spatial root (index 0 of the arena), a registry from
 * names to frames and the ordered list of the frames that are degrees of
 * freedom. cos and sin are the `trig` the tree is built with.
 */
module Tree {
  import opened Pose
  import Twist
  import opened Joint
  import opened Frame
  import Body

  // ---------------------------------------------------------------------
  // The shape of the arena
  // ---------------------------------------------------------------------

  /**
   * The children lists mirror the parent links: every listed child has this
   * frame as parent, every frame with a parent is listed there, and each
   * list is in increasing order (children are appended as they are built).
   */
  predicate Structured(fs: seq<FrameRec>)
  {
    Linked(fs)
    && (forall k, n :: 0 <= k < |fs| && 0 <= n < |fs[k].children| ==>
          fs[k].children[n] < |fs| && fs[fs[k].children[n]].parent == Some(k))
    && (forall j :: 0 <= j < |fs| ==> ListedByParent(fs, j))
    && (forall k, a, b :: 0 <= k < |fs| && 0 <= a < b < |fs[k].children| ==>
          fs[k].children[a] < fs[k].children[b])
  }

  /** Frame j, when it has a parent in the arena, appears in that parent's children. */
  predicate ListedByParent(fs: seq<FrameRec>, j: nat)
    requires j < |fs|
  {
    fs[j].parent.Some? && fs[j].parent.value < |fs| ==> j in fs[fs[j].parent.value].children
  }

  /** A tree: structured, with the spatial root at index 0 and every other frame under a parent. */
  predicate TreeShaped(fs: seq<FrameRec>)
  {
    Structured(fs) && |fs| > 0 && fs[0].parent.None?
    && forall j :: 0 < j < |fs| ==> fs[j].parent.Some?
  }

  /** The indices below n of the frames that are not fixed, in increasing order. */
  function MovableIndices(fs: seq<FrameRec>, n: nat): (r: seq<nat>)
    requires n <= |fs|
    ensures forall j :: 0 <= j < |r| ==> r[j] < n
  {
    if n == 0 then []
    else MovableIndices(fs, n - 1) + (if fs[n - 1].kind.IsFixed() then [] else [n - 1])
  }

  /** MovableIndices lists exactly the movable frames below n, each once, in increasing order. */
  lemma {:induction false} MovableIndicesExact(fs: seq<FrameRec>, n: nat)
    requires n <= |fs|
    ensures forall i :: 0 <= i < |MovableIndices(fs, n)| ==>
              MovableIndices(fs, n)[i] < n && !fs[MovableIndices(fs, n)[i]].kind.IsFixed()
    ensures forall a, b :: 0 <= a < b < |MovableIndices(fs, n)| ==> MovableIndices(fs, n)[a] < MovableIndices(fs, n)[b]
    ensures forall j :: 0 <= j < n && !fs[j].kind.IsFixed() ==> j in MovableIndices(fs, n)
  {
    if n > 0 {
      MovableIndicesExact(fs, n - 1);
    }
  }

  /** The movable indices below n lie in the arena. */
  lemma {:induction false} MovableInArena(fs: seq<FrameRec>, n: nat)
    requires n <= |fs|
    ensures InArena(fs, MovableIndices(fs, n))
  {
    MovableIndicesExact(fs, n);
  }

  /** MovableIndices reads only the kinds. */
  lemma {:induction false} MovableIndicesSameKinds(fs: seq<FrameRec>, gs: seq<FrameRec>, n: nat)
    requires n <= |fs| && n <= |gs|
    requires forall j :: 0 <= j < n ==> fs[j].kind == gs[j].kind
    ensures MovableIndices(fs, n) == MovableIndices(gs, n)
  {
    if n > 0 {
      MovableIndicesSameKinds(fs, gs, n - 1);
    }
  }

  /** Some frame of cs is an ancestor-or-self of j. */
  predicate UnderSome(fs: seq<FrameRec>, cs: seq<nat>, j: nat)
    requires Linked(fs) && j < |fs|
    decreases |cs|
  {
    |cs| > 0 && (UnderSome(fs, cs[..|cs| - 1], j) || AncestorOrSelf(fs, cs[|cs| - 1], j))
  }

  lemma UnderSomeSnoc(fs: seq<FrameRec>, cs: seq<nat>, c: nat, j: nat)
    requires Linked(fs) && j < |fs|
    ensures UnderSome(fs, cs + [c], j) <==> UnderSome(fs, cs, j) || AncestorOrSelf(fs, c, j)
  {
    assert (cs + [c])[..|cs|] == cs;
  }

  /** Growing a prefix of cs by its next element adds that element's subtree. */
  lemma UnderSomeNext(fs: seq<FrameRec>, cs: seq<nat>, idx: nat, j: nat)
    requires Linked(fs) && j < |fs| && idx < |cs|
    ensures UnderSome(fs, cs[..idx + 1], j) <==> UnderSome(fs, cs[..idx], j) || AncestorOrSelf(fs, cs[idx], j)
  {
    assert cs[..idx + 1] == cs[..idx] + [cs[idx]];
    UnderSomeSnoc(fs, cs[..idx], cs[idx], j);
  }

  lemma {:induction false} UnderSomeMember(fs: seq<FrameRec>, cs: seq<nat>, idx: nat, j: nat)
    requires Linked(fs) && j < |fs| && idx < |cs| && AncestorOrSelf(fs, cs[idx], j)
    ensures UnderSome(fs, cs, j)
    decreases |cs|
  {
    if idx < |cs| - 1 {
      UnderSomeMember(fs, cs[..|cs| - 1], idx, j);
    }
  }

  lemma {:induction false} UnderSomeWitness(fs: seq<FrameRec>, cs: seq<nat>, j: nat) returns (idx: nat)
    requires Linked(fs) && j < |fs| && UnderSome(fs, cs, j)
    ensures idx < |cs| && AncestorOrSelf(fs, cs[idx], j)
    decreases |cs|
  {
    if AncestorOrSelf(fs, cs[|cs| - 1], j) {
      idx := |cs| - 1;
    } else {
      idx := UnderSomeWitness(fs, cs[..|cs| - 1], j);
    }
  }

  /** The subtree of a child of k lies inside k's subtree, strictly below k. */
  lemma {:induction false} ChildSubtree(fs: seq<FrameRec>, k: nat, c: nat, j: nat)
    requires Linked(fs) && c < |fs| && j < |fs| && fs[c].parent == Some(k)
    requires AncestorOrSelf(fs, c, j)
    ensures k < j && AncestorOrSelf(fs, k, j)
    decreases j
  {
    if j == c {
      assert AncestorOrSelf(fs, k, k);
    } else {
      ChildSubtree(fs, k, c, fs[j].parent.value);
    }
  }

  /** The subtrees of two different children of one frame do not meet. */
  lemma {:induction false} ChildSubtreesDisjoint(fs: seq<FrameRec>, k: nat, c1: nat, c2: nat, j: nat)
    requires Linked(fs) && c1 < c2 < |fs| && j < |fs|
    requires fs[c1].parent == Some(k) && fs[c2].parent == Some(k)
    ensures !(AncestorOrSelf(fs, c1, j) && AncestorOrSelf(fs, c2, j))
  {
    if AncestorOrSelf(fs, c1, j) && AncestorOrSelf(fs, c2, j) {
      AncestorsOnOneChain(fs, c1, c2, j);
      AncestorBefore(fs, c1, k);
      assert false;
    }
  }

  /** Every proper descendant of k lies under one of k's listed children. */
  lemma {:induction false} ChildOnPath(fs: seq<FrameRec>, k: nat, j: nat) returns (idx: nat)
    requires Structured(fs) && k < |fs| && j < |fs| && AncestorOrSelf(fs, k, j) && j != k
    ensures idx < |fs[k].children| && AncestorOrSelf(fs, fs[k].children[idx], j)
    decreases j
  {
    var p := fs[j].parent.value;
    var cs := fs[k].children;
    if p == k {
      assert ListedByParent(fs, j);
      idx :| 0 <= idx < |cs| && cs[idx] == j;
    } else {
      idx := ChildOnPath(fs, k, p);
    }
  }

  /** From the root every frame is reachable. */
  lemma {:induction false} RootReachesAll(fs: seq<FrameRec>, j: nat)
    requires TreeShaped(fs) && j < |fs|
    ensures AncestorOrSelf(fs, 0, j)
    decreases j
  {
    if j > 0 {
      RootReachesAll(fs, fs[j].parent.value);
    }
  }

  // ---------------------------------------------------------------------
  // Building frames
  // ---------------------------------------------------------------------

  /** What a `frame_constructor` callback builds under the parent it is given. */
  datatype Factory =
    | FixedFrame(ppc: Mat4)
    | TranslatedFrame(t: Vec3)
    | JointFrame(kind: JointKind, q0: real, qd0: real)
    | BodyFrame(bodyPose: Mat4, mass: real, ixx: real, iyy: real, izz: real)

  /** Only the joint classes build joints, and each builds a movable one. */
  predicate Buildable(f: Factory)
  {
    f.JointFrame? ==> !f.kind.IsFixed()
  }

  /** The new frame a factory builds under parent p. */
  function Build(f: Factory, p: nat): (r: FrameRec)
    requires Buildable(f)
    ensures r.parent == Some(p) && r.children == []
    ensures r.kind.IsFixed() <==> !f.JointFrame?
    ensures JointShaped(r)
  {
    match f
    case FixedFrame(ppc) => NewFrame(Some(p), ppc)
    case TranslatedFrame(t) => FromTranslation(Some(p), t)
    case JointFrame(kind, q0, qd0) => NewJoint(Some(p), kind, q0, qd0)
    case BodyFrame(ppc, m, ixx, iyy, izz) => Body.NewBody(Some(p), ppc, m, ixx, iyy, izz)
  }

  /** The frame `addFrame` attaches under: the spatial root when no parent name is given. */
  function ParentIndex(names: map<string, nat>, parentName: Option<string>): nat
    requires parentName.Some? ==> parentName.value in names
  {
    if parentName.None? then 0 else names[parentName.value]
  }

  /** The arena after the Frame constructor appends f and lists it last among p's children. */
  function Attached(fs: seq<FrameRec>, p: nat, f: FrameRec): (gs: seq<FrameRec>)
    requires p < |fs|
    ensures |gs| == |fs| + 1 && gs[|fs|] == f
  {
    fs[p := fs[p].(children := fs[p].children + [|fs|])] + [f]
  }

  /** After attaching, every child index points back at its parent, in increasing order. */
  lemma {:induction false} AttachedChildren(fs: seq<FrameRec>, p: nat, f: FrameRec)
    requires TreeShaped(fs) && p < |fs| && f.parent == Some(p) && f.children == []
    ensures var gs := Attached(fs, p, f);
            && (forall k, m :: 0 <= k < |gs| && 0 <= m < |gs[k].children| ==>
                  gs[k].children[m] < |gs| && gs[gs[k].children[m]].parent == Some(k))
            && (forall k, a, b :: 0 <= k < |gs| && 0 <= a < b < |gs[k].children| ==>
                  gs[k].children[a] < gs[k].children[b])
  {
    var gs := Attached(fs, p, f);
    var n := |fs|;
    assert gs[p].children == fs[p].children + [n];
    forall k, m | 0 <= k < |gs| && 0 <= m < |gs[k].children|
      ensures gs[k].children[m] < |gs| && gs[gs[k].children[m]].parent == Some(k)
    {
      if k == p && m == |fs[p].children| {
        assert gs[k].children[m] == n;
      } else {
        assert gs[k].children[m] == fs[k].children[m];
      }
    }
    forall k, a, b | 0 <= k < |gs| && 0 <= a < b < |gs[k].children|
      ensures gs[k].children[a] < gs[k].children[b]
    {
      assert gs[k].children[a] == fs[k].children[a];
    }
  }

  /** After attaching, every frame with a parent is listed by it. */
  lemma {:induction false} AttachedListed(fs: seq<FrameRec>, p: nat, f: FrameRec)
    requires TreeShaped(fs) && p < |fs| && f.parent == Some(p) && f.children == []
    ensures var gs := Attached(fs, p, f); forall j :: 0 <= j < |gs| ==> ListedByParent(gs, j)
  {
    var gs := Attached(fs, p, f);
    var n := |fs|;
    assert gs[p].children == fs[p].children + [n];
    forall j | 0 <= j < |gs|
      ensures ListedByParent(gs, j)
    {
      if j < n {
        assert ListedByParent(fs, j);
        assert gs[j].parent == fs[j].parent;
      }
    }
  }

  /** Attaching a new frame keeps a tree a tree, and extends the movable list by the new frame iff it is movable. */
  lemma {:induction false} AttachedTree(fs: seq<FrameRec>, p: nat, f: FrameRec)
    requires TreeShaped(fs) && p < |fs| && f.parent == Some(p) && f.children == []
    ensures TreeShaped(Attached(fs, p, f))
    ensures MovableIndices(Attached(fs, p, f), |fs| + 1)
         == MovableIndices(fs, |fs|) + (if f.kind.IsFixed() then [] else [|fs|])
  {
    var gs := Attached(fs, p, f);
    var n := |fs|;
    assert gs[n] == f;
    assert forall j :: 0 <= j < n ==> gs[j].parent == fs[j].parent && gs[j].kind == fs[j].kind;
    assert Linked(gs);
    AttachedChildren(fs, p, f);
    AttachedListed(fs, p, f);
    MovableIndicesSameKinds(fs, gs, n);
  }

  // ---------------------------------------------------------------------
  // Coordinates
  // ---------------------------------------------------------------------

  /** All indices of cs lie in the arena. */
  predicate InArena(fs: seq<FrameRec>, cs: seq<nat>)
  {
    forall i :: 0 <= i < |cs| ==> cs[i] < |fs|
  }

  /** The arena after `setCoordinates`' loop: q of frame cs[i] set to v[i], in order. */
  function AssignQ(fs: seq<FrameRec>, cs: seq<nat>, v: seq<real>): (gs: seq<FrameRec>)
    requires InArena(fs, cs) && |cs| <= |v|
    ensures |gs| == |fs|
    decreases |cs|
  {
    if |cs| == 0 then fs
    else
      var prev := AssignQ(fs, cs[..|cs| - 1], v);
      var j := cs[|cs| - 1];
      prev[j := prev[j].(q := v[|cs| - 1])]
  }

  /** Assigning coordinates changes q and nothing else. */
  lemma {:induction false} AssignQOnlyQ(fs: seq<FrameRec>, cs: seq<nat>, v: seq<real>)
    requires InArena(fs, cs) && |cs| <= |v|
    ensures forall j :: 0 <= j < |fs| ==> AssignQ(fs, cs, v)[j] == fs[j].(q := AssignQ(fs, cs, v)[j].q)
    decreases |cs|
  {
    if |cs| > 0 {
      AssignQOnlyQ(fs, cs[..|cs| - 1], v);
    }
  }

  /** With distinct targets, frame cs[i] ends with q = v[i], and every other frame keeps its q. */
  lemma {:induction false} AssignQValues(fs: seq<FrameRec>, cs: seq<nat>, v: seq<real>)
    requires InArena(fs, cs) && |cs| <= |v|
    requires forall a, b :: 0 <= a < b < |cs| ==> cs[a] < cs[b]
    ensures forall i :: 0 <= i < |cs| ==> AssignQ(fs, cs, v)[cs[i]].q == v[i]
    ensures forall j :: 0 <= j < |fs| && j !in cs ==> AssignQ(fs, cs, v)[j].q == fs[j].q
    decreases |cs|
  {
    if |cs| > 0 {
      var init := cs[..|cs| - 1];
      AssignQValues(fs, init, v);
      forall j | 0 <= j < |fs| && j !in cs
        ensures AssignQ(fs, cs, v)[j].q == fs[j].q
      {
        assert j !in init;
      }
    }
  }

  /** The coordinate vector: q of each frame of cs. */
  function Coordinates(fs: seq<FrameRec>, cs: seq<nat>): (r: seq<real>)
    requires InArena(fs, cs)
    ensures |r| == |cs|
  {
    seq(|cs|, i requires 0 <= i < |cs| => fs[cs[i]].q)
  }

  /** Setting the current coordinates back changes nothing. */
  lemma {:induction false} AssignCurrentCoordinates(fs: seq<FrameRec>, cs: seq<nat>)
    requires InArena(fs, cs)
    requires forall a, b :: 0 <= a < b < |cs| ==> cs[a] < cs[b]
    ensures AssignQ(fs, cs, Coordinates(fs, cs)) == fs
  {
    var v := Coordinates(fs, cs);
    var gs := AssignQ(fs, cs, v);
    AssignQOnlyQ(fs, cs, v);
    AssignQValues(fs, cs, v);
    forall j | 0 <= j < |fs|
      ensures gs[j] == fs[j]
    {
      if j in cs {
        var i :| 0 <= i < |cs| && cs[i] == j;
        assert gs[j].q == v[i];
      }
    }
  }

  /**
   * getCoordinates after setCoordinates(v) returns v: the update that
   * follows the assignment leaves every q alone. (A longer v has its extra
   * entries ignored.)
   */
  lemma {:induction false} SetThenGetCoordinates(fs: seq<FrameRec>, cs: seq<nat>, v: seq<real>, trig: Trig)
    requires Linked(fs) && InArena(fs, cs) && |cs| <= |v|
    requires forall a, b :: 0 <= a < b < |cs| ==> cs[a] < cs[b]
    ensures Linked(AssignQ(fs, cs, v))
    ensures Coordinates(SettledAll(AssignQ(fs, cs, v), trig), cs) == v[..|cs|]
  {
    var gs := AssignQ(fs, cs, v);
    AssignQOnlyQ(fs, cs, v);
    AssignQValues(fs, cs, v);
    assert Linked(gs) by {
      forall k | 0 <= k < |gs| && gs[k].parent.Some?
        ensures gs[k].parent.value < k
      {
        assert gs[k].parent == fs[k].parent;
      }
    }
  }

  /**
   * setCoordinates(getCoordinates()) on a tree that has been updated leaves
   * every frame, world poses included, as it was.
   */
  lemma {:induction false} SetCurrentCoordinatesKeepsState(fs0: seq<FrameRec>, cs: seq<nat>, trig: Trig)
    requires Linked(fs0) && InArena(fs0, cs)
    requires forall a, b :: 0 <= a < b < |cs| ==> cs[a] < cs[b]
    ensures Linked(SettledAll(fs0, trig))
    ensures Linked(AssignQ(SettledAll(fs0, trig), cs, Coordinates(SettledAll(fs0, trig), cs)))
    ensures SettledAll(AssignQ(SettledAll(fs0, trig), cs, Coordinates(SettledAll(fs0, trig), cs)), trig)
         == SettledAll(fs0, trig)
  {
    var fs := SettledAll(fs0, trig);
    UpdateIdempotent(fs0, trig);
    AssignCurrentCoordinates(fs, cs);
  }

  // ---------------------------------------------------------------------
  // Jacobians
  // ---------------------------------------------------------------------

  /** `unhat(parPoseQ(i))` of frame `body`: a Jacobian column before any point correction. */
  function SpatialColumn(fs: seq<FrameRec>, body: nat, i: nat): (col: seq<real>)
    requires Linked(fs) && body < |fs|
    ensures |col| == 6
  {
    Twist.Unhat(ParPoseQ(fs, body, i))
  }

  /**
   * The velocity of `point` from a column (v, w): v + w x point, with the
   * angular rows kept. `point` is the point's offset from the frame's
   * origin, in world axes; `PointColumnIsPointVelocity` shows the linear
   * rows are then the derivative of the point's world position.
   */
  function ShiftToPoint(col: seq<real>, point: seq<real>): (r: seq<real>)
    requires |col| == 6 && |point| == 3
    ensures |r| == 6 && r[3..] == col[3..]
  {
    var v := Plus(Vec3(col[0], col[1], col[2]), Cross(Vec3(col[3], col[4], col[5]), Vec3(point[0], point[1], point[2])));
    [v.x, v.y, v.z, col[3], col[4], col[5]]
  }

  /** The point correction as src/app/kinematic_tree.js writes it: v + v x point. */
  function ShiftAsWritten(col: seq<real>, point: seq<real>): (r: seq<real>)
    requires |col| == 6 && |point| == 3
    ensures |r| == 6 && r[3..] == col[3..]
  {
    var v := Plus(Vec3(col[0], col[1], col[2]), Cross(Vec3(col[0], col[1], col[2]), Vec3(point[0], point[1], point[2])));
    [v.x, v.y, v.z, col[3], col[4], col[5]]
  }

  /**
   * A purely translational column (w = 0) moves every point alike, so the
   * corrected shift leaves it as it is. The shift as written changes it
   * whenever v x point is not zero: the column (1, 0, 0, 0, 0, 0) about the
   * point (0, 1, 0) becomes (1, 0, 1, 0, 0, 0).
   */
  lemma ShiftAsWrittenMovesTranslation(col: seq<real>, point: seq<real>)
    requires |col| == 6 && |point| == 3 && col[3] == 0.0 && col[4] == 0.0 && col[5] == 0.0
    requires Cross(Vec3(col[0], col[1], col[2]), Vec3(point[0], point[1], point[2])) != Vec3(0.0, 0.0, 0.0)
    ensures ShiftToPoint(col, point) == col
    ensures ShiftAsWritten(col, point) != col
  {
    var r := ShiftAsWritten(col, point);
    var c := Cross(Vec3(col[0], col[1], col[2]), Vec3(point[0], point[1], point[2]));
    if c.x != 0.0 {
      assert r[0] == col[0] + c.x;
    } else if c.y != 0.0 {
      assert r[1] == col[1] + c.y;
    } else {
      assert r[2] == col[2] + c.z;
    }
  }

  /** The input that exhibits it: a unit translation along x, seen from the point (0, 1, 0). */
  lemma ShiftAsWrittenWitness()
    ensures Cross(Vec3(1.0, 0.0, 0.0), Vec3(0.0, 1.0, 0.0)) == Vec3(0.0, 0.0, 1.0)
  {
  }

  /**
   * The column that x_dot = J q_dot in world coordinates calls for: the
   * velocity of the frame's origin (column 3 of dW/dq_i, which the source
   * reads correctly) over the angular velocity in world axes, read from the
   * skew part of dW/dq_i inv(W) rather than from dW/dq_i itself.
   */
  function WorldColumn(fs: seq<FrameRec>, body: nat, i: nat): (col: seq<real>)
    requires Linked(fs) && body < |fs|
    ensures |col| == 6 && col[..3] == SpatialColumn(fs, body, i)[..3]
  {
    var d := ParPoseQ(fs, body, i);
    var a := WorldSpin(d, fs[body].worldPose);
    [d.m03, d.m13, d.m23, a.x, a.y, a.z]
  }

  /** The angular velocity in world axes for a pose w with derivative d: the skew part of d inv(w). */
  function WorldSpin(d: Mat4, w: Mat4): Vec3
  {
    var m := Multiply(d, Inv(w));
    Vec3(m.m21, m.m02, m.m10)
  }

  /**
   * After `update()`, the angular rows of the corrected column of any frame
   * k below joint i are the skew part of W_i xi_i inv(W_i): the joint's unit
   * twist turned into world axes, the same for every frame the joint carries.
   */
  lemma {:induction false} WorldColumnAngular(gs: seq<FrameRec>, k: nat, i: nat)
    requires Propagated(gs) && k < |gs| && AncestorOrSelf(gs, i, k)
    requires i < |gs| && gs[i].parent.Some? && DerivativeChain(gs[i].caches)
    requires forall j :: 0 <= j < |gs| ==> Rigid(gs[j].caches.ppc)
    ensures WorldSpin(ParPoseQ(gs, k, i), gs[k].worldPose)
         == WorldSpin(Multiply(gs[i].worldPose, gs[i].caches.ptc), gs[i].worldPose)
    ensures WorldColumn(gs, k, i)[3..] == WorldColumn(gs, i, i)[3..]
  {
    var wi, wk, xi := gs[i].worldPose, gs[k].worldPose, gs[i].caches.ptc;
    var b := Below(gs, i, k);
    var a := Multiply(Multiply(wi, xi), Inv(wi));
    ParPoseQInsertsTwist(gs, k, i);
    WorldPoseProduct(gs, k, i);
    WorldPoseRigid(gs, i);
    WorldPoseRigid(gs, k);
    InvIsInverse(wi);
    InvIsInverse(wk);
    calc {
      Multiply(a, wk);
      == { MultiplyAssoc(a, wi, b); }
      Multiply(Multiply(a, wi), b);
      == { MultiplyAssoc(Multiply(wi, xi), Inv(wi), wi); }
      Multiply(Multiply(Multiply(wi, xi), Multiply(Inv(wi), wi)), b);
      == { MultiplyIdentity(Multiply(wi, xi)); }
      ParPoseQ(gs, k, i);
    }
    calc {
      Multiply(ParPoseQ(gs, k, i), Inv(wk));
      == { MultiplyAssoc(a, wk, Inv(wk)); }
      Multiply(a, Multiply(wk, Inv(wk)));
      == { MultiplyIdentity(a); }
      a;
    }
    ParPoseQInsertsTwist(gs, i, i);
    MultiplyIdentity(Multiply(wi, xi));
    assert ParPoseQ(gs, i, i) == Multiply(wi, xi);
  }

  /**
   * An arena of three frames as `addFrame` leaves them: the spatial root, a
   * z-revolute joint under it, and a fixed frame one unit along the joint's
   * x axis under the joint.
   */
  predicate SingleJointArena(fs: seq<FrameRec>)
  {
    && |fs| == 3
    && fs[0].parent.None? && fs[0].kind.IsFixed() && fs[0].caches.ppc == Identity
    && fs[1].parent == Some(0) && fs[1].kind == Rotation(Z) && fs[1].caches == JointCaches()
    && fs[2].parent == Some(1) && fs[2].kind.IsFixed()
    && fs[2].caches.ppc == SetTranslation(Identity, Vec3(1.0, 0.0, 0.0))
  }

  /**
   * With cos q = 0 and sin q = 1 the joint turns the frame to (0, 1, 0),
   * where it moves along -x at unit speed while spinning about z. The
   * column `getJacobian` builds drops the spin, because the rotation block of
   * dW/dq is dR/dq = [[-1, 0, 0], [0, -1, 0], [0, 0, 0]], whose skew part is
   * zero; the corrected column carries the world angular velocity (0, 0, 1).
   */
  lemma {:induction false} JacobianDropsSpin(fs: seq<FrameRec>, trig: Trig, gs: seq<FrameRec>)
    requires SingleJointArena(fs)
    requires trig.cos(fs[1].q) == 0.0 && trig.sin(fs[1].q) == 1.0
    requires gs == SettledAll(fs, trig)
    ensures Linked(gs) && |gs| == 3
    ensures |AsWrittenColumns(gs, 2, [1], [])| == 1
    ensures AsWrittenColumns(gs, 2, [1], [])[0] == [-1.0, 0.0, 0.0, 0.0, 0.0, 0.0]
    ensures WorldColumn(gs, 2, 1) == [-1.0, 0.0, 0.0, 0.0, 0.0, 1.0]
  {
    SingleJointTurned(fs, trig, gs);
    TurnedArenaAsWritten(gs);
    TurnedArenaWorld(gs);
  }

  /** After `update()` at cos q = 0 and sin q = 1, the example's frames are turned a quarter about z. */
  lemma {:induction false} SingleJointTurned(fs: seq<FrameRec>, trig: Trig, gs: seq<FrameRec>)
    requires SingleJointArena(fs)
    requires trig.cos(fs[1].q) == 0.0 && trig.sin(fs[1].q) == 1.0
    requires gs == SettledAll(fs, trig)
    ensures TurnedArena(gs)
  {
    SettledLinked(fs, trig);
    SingleJointSettled(fs, trig, gs);
    TurnedWorldPose(gs[1].worldPose, gs[2].caches.ppc, gs[2].worldPose);
  }

  /** The example's last world pose: the joint's quarter turn, then the unit offset along x. */
  lemma TurnedWorldPose(w1: Mat4, ppc: Mat4, w2: Mat4)
    requires w1 == Multiply(Identity, ElementaryZ(0.0, 1.0))
    requires ppc == SetTranslation(Identity, Vec3(1.0, 0.0, 0.0))
    requires w2 == Multiply(w1, ppc)
    ensures w2 == TurnedPose
  {
    MultiplyIdentity(ElementaryZ(0.0, 1.0));
    SingleJointFactors();
  }

  /** The example's frames after `update()`, as far as the Jacobian reads them. */
  predicate TurnedArena(gs: seq<FrameRec>)
  {
    && Linked(gs) && |gs| == 3 && gs[1].parent == Some(0) && gs[2].parent == Some(1)
    && gs[0].worldPose == Identity && gs[1].caches.dif1 == RotationZExplicit(0.0, 1.0, Zero).dif1
    && gs[2].caches.ppc == SetTranslation(Identity, Vec3(1.0, 0.0, 0.0)) && gs[2].worldPose == TurnedPose
  }

  /** The derivative of the example's last pose with respect to the joint. */
  lemma {:induction false} TurnedArenaDerivative(gs: seq<FrameRec>)
    requires TurnedArena(gs)
    ensures ParPoseQ(gs, 2, 1) == TurnedDerivative
  {
    SingleJointFactors();
    var dr := gs[1].caches.dif1;
    MultiplyIdentity(dr);
    assert ParPoseQ(gs, 1, 1) == Multiply(Identity, dr);
  }

  /** The example's column as the source builds it. */
  lemma {:induction false} TurnedArenaAsWritten(gs: seq<FrameRec>)
    requires TurnedArena(gs)
    ensures |AsWrittenColumns(gs, 2, [1], [])| == 1
    ensures AsWrittenColumns(gs, 2, [1], [])[0] == [-1.0, 0.0, 0.0, 0.0, 0.0, 0.0]
  {
    TurnedArenaDerivative(gs);
    TurnedUnhat();
    assert AsWrittenColumns(gs, 2, [1], [])[0] == SpatialColumn(gs, 2, 1);
  }

  /** The example's corrected column. */
  lemma {:induction false} TurnedArenaWorld(gs: seq<FrameRec>)
    requires TurnedArena(gs)
    ensures WorldColumn(gs, 2, 1) == [-1.0, 0.0, 0.0, 0.0, 0.0, 1.0]
  {
    TurnedArenaDerivative(gs);
    TurnedColumns(ParPoseQ(gs, 2, 1), gs[2].worldPose);
  }

  /** The three frames after `update()`: the world poses and local matrices the Jacobian reads. */
  lemma {:induction false} SingleJointSettled(fs: seq<FrameRec>, trig: Trig, gs: seq<FrameRec>)
    requires SingleJointArena(fs)
    requires trig.cos(fs[1].q) == 0.0 && trig.sin(fs[1].q) == 1.0
    requires gs == SettledAll(fs, trig)
    ensures |gs| == 3 && gs[1].parent == Some(0) && gs[2].parent == Some(1)
    ensures gs[0].worldPose == Identity
    ensures gs[1].caches.dif1 == RotationZExplicit(0.0, 1.0, Zero).dif1
    ensures gs[1].worldPose == Multiply(Identity, ElementaryZ(0.0, 1.0))
    ensures gs[2].caches.ppc == SetTranslation(Identity, Vec3(1.0, 0.0, 0.0))
    ensures gs[2].worldPose == Multiply(gs[1].worldPose, gs[2].caches.ppc)
  {
    var q := fs[1].q;
    var g0 := Settled(fs, trig, 0);
    assert g0.worldPose == Identity;
    var cs := Refreshed(Rotation(Z), JointCaches(), q, 0.0, 1.0);
    RotationZCaches(q, 0.0, 1.0);
    assert cs.dif1 == RotationZExplicit(0.0, 1.0, Zero).dif1 && cs.ppc == ElementaryZ(0.0, 1.0);
    var g1 := Settled(fs, trig, 1);
    assert g1 == LocalStep(fs[1], cs, Some(g0));
  }

  /** dW/dq of the example's last frame: the rotation block dR/dq, and the origin moving along -x. */
  const TurnedDerivative: Mat4 := Mat4(-1.0, 0.0, 0.0, -1.0, 0.0, -1.0, 0.0, 0.0, 0.0, 0.0, 0.0, 0.0, 0.0, 0.0, 0.0, 0.0)

  /** The example's last frame: turned a quarter about z, its origin at (0, 1, 0). */
  const TurnedPose: Mat4 := Mat4(0.0, -1.0, 0.0, 0.0, 1.0, 0.0, 0.0, 1.0, 0.0, 0.0, 1.0, 0.0, 0.0, 0.0, 0.0, 1.0)

  /** The example's local matrices multiplied out. */
  lemma SingleJointFactors()
    ensures Multiply(RotationZExplicit(0.0, 1.0, Zero).dif1, SetTranslation(Identity, Vec3(1.0, 0.0, 0.0))) == TurnedDerivative
    ensures Multiply(ElementaryZ(0.0, 1.0), SetTranslation(Identity, Vec3(1.0, 0.0, 0.0))) == TurnedPose
  {
    assert SetTranslation(Identity, Vec3(1.0, 0.0, 0.0)) == Mat4(1.0, 0.0, 0.0, 1.0, 0.0, 1.0, 0.0, 0.0, 0.0, 0.0, 1.0, 0.0, 0.0, 0.0, 0.0, 1.0);
    assert RotationZExplicit(0.0, 1.0, Zero).dif1 == Mat4(-1.0, 0.0, 0.0, 0.0, 0.0, -1.0, 0.0, 0.0, 0.0, 0.0, 0.0, 0.0, 0.0, 0.0, 0.0, 0.0);
    assert ElementaryZ(0.0, 1.0) == Mat4(0.0, -1.0, 0.0, 0.0, 1.0, 0.0, 0.0, 0.0, 0.0, 0.0, 1.0, 0.0, 0.0, 0.0, 0.0, 1.0);
  }

  /** The example's column as the source reads it. */
  lemma TurnedUnhat()
    ensures Twist.Unhat(TurnedDerivative) == [-1.0, 0.0, 0.0, 0.0, 0.0, 0.0]
  {
  }

  /** The spin of dW/dq inv(W) in the example. */
  lemma TurnedColumns(d: Mat4, w: Mat4)
    requires d == TurnedDerivative && w == TurnedPose
    ensures WorldSpin(d, w) == Vec3(0.0, 0.0, 1.0)
  {
    TurnedProduct(d, w);
    TurnedSpin();
  }

  /** dW/dq inv(W) of the example, with the inverse multiplied out. */
  lemma TurnedProduct(d: Mat4, w: Mat4)
    requires d == TurnedDerivative && w == TurnedPose
    ensures Multiply(d, Inv(w)) == Multiply(TurnedDerivative, Mat4(0.0, 1.0, 0.0, -1.0, -1.0, 0.0, 0.0, 0.0, 0.0, 0.0, 1.0, 0.0, 0.0, 0.0, 0.0, 1.0))
  {
    TurnedInverse();
  }

  /** The inverse of the example's last pose, multiplied out. */
  lemma TurnedInverse()
    ensures Inv(TurnedPose) == Mat4(0.0, 1.0, 0.0, -1.0, -1.0, 0.0, 0.0, 0.0, 0.0, 0.0, 1.0, 0.0, 0.0, 0.0, 0.0, 1.0)
  {
  }

  /** dW/dq inv(W) of the example spins about z at unit rate. */
  lemma TurnedSpin()
    ensures var m := Multiply(TurnedDerivative, Mat4(0.0, 1.0, 0.0, -1.0, -1.0, 0.0, 0.0, 0.0, 0.0, 0.0, 1.0, 0.0, 0.0, 0.0, 0.0, 1.0));
            m.m21 == 0.0 && m.m02 == 0.0 && m.m10 == 1.0
  {
  }

  /** The columns as src/app/kinematic_tree.js:68-80 builds them: unhat(parPoseQ), with the as-written shift. */
  function AsWrittenColumns(fs: seq<FrameRec>, body: nat, cs: seq<nat>, point: seq<real>): (cols: seq<seq<real>>)
    requires Linked(fs) && body < |fs|
    ensures |cols| == |cs|
  {
    seq(|cs|, i requires 0 <= i < |cs| =>
      if |point| == 3 then ShiftAsWritten(SpatialColumn(fs, body, cs[i]), point) else SpatialColumn(fs, body, cs[i]))
  }

  /**
   * The Jacobian's columns: one per coordinate, the world-axes column,
   * shifted to `point` when it has three entries.
   */
  function JacobianColumns(fs: seq<FrameRec>, body: nat, cs: seq<nat>, point: seq<real>): (cols: seq<seq<real>>)
    requires Linked(fs) && body < |fs|
    ensures |cols| == |cs|
  {
    seq(|cs|, i requires 0 <= i < |cs| =>
      if |point| == 3 then ShiftToPoint(WorldColumn(fs, body, cs[i]), point) else WorldColumn(fs, body, cs[i]))
  }

  /** `math.transpose`: 6 rows of one entry per column; an empty column list stays empty. */
  function Transposed(cols: seq<seq<real>>): (rows: seq<seq<real>>)
    requires forall c :: 0 <= c < |cols| ==> |cols[c]| == 6
    ensures |cols| == 0 ==> rows == []
    ensures |cols| > 0 ==> |rows| == 6 && forall r :: 0 <= r < 6 ==> |rows[r]| == |cols|
    ensures |cols| > 0 ==> forall r, c :: 0 <= r < 6 && 0 <= c < |cols| ==> rows[r][c] == cols[c][r]
  {
    if |cols| == 0 then []
    else seq(6, r requires 0 <= r < 6 => seq(|cols|, c requires 0 <= c < |cols| => cols[c][r]))
  }

  /**
   * The Jacobian columns: a coordinate off the body's ancestor chain gives a
   * zero column, with or without a point; the angular rows never depend on
   * the point; without a 3-entry point the columns are the unhatted
   * derivatives themselves.
   */
  lemma {:induction false} JacobianColumnsProperties(fs: seq<FrameRec>, body: nat, cs: seq<nat>, point: seq<real>)
    requires Linked(fs) && body < |fs|
    ensures forall i :: 0 <= i < |cs| && !AncestorOrSelf(fs, cs[i], body) ==>
              JacobianColumns(fs, body, cs, point)[i] == Twist.ZeroVector
    ensures forall i :: 0 <= i < |cs| ==>
              JacobianColumns(fs, body, cs, point)[i][3..] == WorldColumn(fs, body, cs[i])[3..]
    ensures |point| != 3 ==> forall i :: 0 <= i < |cs| ==>
              JacobianColumns(fs, body, cs, point)[i] == WorldColumn(fs, body, cs[i])
              && JacobianColumns(fs, body, cs, point)[i][..3] == AsWrittenColumns(fs, body, cs, point)[i][..3]
  {
    var cols := JacobianColumns(fs, body, cs, point);
    forall i | 0 <= i < |cs| && !AncestorOrSelf(fs, cs[i], body)
      ensures cols[i] == Twist.ZeroVector
    {
      ParPoseQOffChain(fs, body, cs[i]);
      MultiplyZero(Inv(fs[body].worldPose));
      assert WorldColumn(fs, body, cs[i]) == Twist.ZeroVector;
    }
  }

  /** `unhat(inv(world_pose) parPoseQ(i))` of frame `body`: a body Jacobian column. */
  function BodyColumn(fs: seq<FrameRec>, body: nat, i: nat): (col: seq<real>)
    requires Linked(fs) && body < |fs|
    ensures |col| == 6
  {
    Twist.Unhat(Multiply(Inv(fs[body].worldPose), ParPoseQ(fs, body, i)))
  }

  function BodyColumns(fs: seq<FrameRec>, body: nat, cs: seq<nat>): (cols: seq<seq<real>>)
    requires Linked(fs) && body < |fs|
    ensures |cols| == |cs|
  {
    seq(|cs|, i requires 0 <= i < |cs| => BodyColumn(fs, body, cs[i]))
  }

  /** A coordinate off the body's ancestor chain gives a zero body Jacobian column. */
  lemma {:induction false} BodyColumnOffChain(fs: seq<FrameRec>, body: nat, i: nat)
    requires Linked(fs) && body < |fs| && !AncestorOrSelf(fs, i, body)
    ensures BodyColumn(fs, body, i) == Twist.ZeroVector
  {
    ParPoseQOffChain(fs, body, i);
    MultiplyZero(Inv(fs[body].worldPose));
  }

  /**
   * After `update()`, the body Jacobian column of a joint taken at the
   * joint's own frame is the joint's local twist: inv(W) W xi = xi.
   */
  lemma {:induction false} BodyColumnOfOwnJoint(gs: seq<FrameRec>, i: nat)
    requires Propagated(gs) && i < |gs| && gs[i].parent.Some?
    requires Rigid(gs[i].worldPose) && DerivativeChain(gs[i].caches)
    ensures BodyColumn(gs, i, i) == Twist.Unhat(gs[i].caches.ptc)
  {
    var w, xi := gs[i].worldPose, gs[i].caches.ptc;
    ParPoseQInsertsTwist(gs, i, i);
    MultiplyIdentity(Multiply(w, xi));
    MultiplyAssoc(Inv(w), w, xi);
    InvIsInverse(w);
    MultiplyIdentity(xi);
  }

  /**
   * After `update()`, with every frame's caches in a derivative chain, the
   * body Jacobian column of joint i is `parTwistQdot(i)` unhatted: the
   * body-frame twist of frame k per unit speed of joint i.
   */
  lemma {:induction false} BodyColumnIsParTwistQdot(gs: seq<FrameRec>, k: nat, i: nat)
    requires Propagated(gs) && k < |gs| && DerivativeChains(gs)
    ensures BodyColumn(gs, k, i) == Twist.Unhat(ParTwistQdot(gs, k, i))
  {
    BodyDerivativeIsParTwistQdot(gs, k, i);
  }

  /** J q_dot for the body Jacobian: the sum over the coordinates c in cs of column c times q_dot_c. */
  function BodyJacobianTimesSpeeds(fs: seq<FrameRec>, body: nat, cs: seq<nat>): (v: seq<real>)
    requires Linked(fs) && body < |fs| && InArena(fs, cs)
    ensures |v| == 6
    decreases |cs|
  {
    if cs == [] then Twist.ZeroVector
    else
      var c := cs[|cs| - 1];
      Twist.AddVector(BodyJacobianTimesSpeeds(fs, body, cs[..|cs| - 1]), Twist.ScaleVector(BodyColumn(fs, body, c), fs[c].qDot))
  }

  /** Over the movable frames below n, J q_dot is the unhatted sum of `parTwistQdot(j)` times j's speed. */
  lemma {:induction false} BodyJacobianTimesSpeedsPartial(gs: seq<FrameRec>, k: nat, n: nat)
    requires Propagated(gs) && k < |gs| && n <= |gs| && DerivativeChains(gs)
    ensures BodyJacobianTimesSpeeds(gs, k, MovableIndices(gs, n)) == Twist.Unhat(JacobianTimesSpeeds(gs, k, n))
  {
    if n > 0 {
      var j := n - 1;
      BodyJacobianTimesSpeedsPartial(gs, k, j);
      FrameAddsItsTerm(gs, k, j, n);
    }
  }

  /** Frame j extends both sums, from j to n = j + 1 frames, by the same term. */
  lemma {:induction false} FrameAddsItsTerm(gs: seq<FrameRec>, k: nat, j: nat, n: nat)
    requires Propagated(gs) && k < |gs| && n == j + 1 && n <= |gs| && DerivativeChains(gs)
    requires BodyJacobianTimesSpeeds(gs, k, MovableIndices(gs, j)) == Twist.Unhat(JacobianTimesSpeeds(gs, k, j))
    ensures BodyJacobianTimesSpeeds(gs, k, MovableIndices(gs, n)) == Twist.Unhat(JacobianTimesSpeeds(gs, k, n))
  {
    if gs[j].kind.IsFixed() {
      FixedFrameAddsNothing(gs, k, j);
    } else {
      MovableFrameAddsColumn(gs, k, j);
    }
  }

  /** A fixed frame adds no coordinate, and its term of the sum is zero. */
  lemma {:induction false} FixedFrameAddsNothing(gs: seq<FrameRec>, k: nat, j: nat)
    requires Linked(gs) && k < |gs| && j < |gs| && gs[j].kind.IsFixed()
    requires BodyJacobianTimesSpeeds(gs, k, MovableIndices(gs, j)) == Twist.Unhat(JacobianTimesSpeeds(gs, k, j))
    ensures BodyJacobianTimesSpeeds(gs, k, MovableIndices(gs, j + 1)) == Twist.Unhat(JacobianTimesSpeeds(gs, k, j + 1))
  {
    MovableIndicesFixedStep(gs, j + 1);
    Twist.ScaleZero(ParTwistQdot(gs, k, j));
    Twist.AddZero(JacobianTimesSpeeds(gs, k, j));
  }

  /** A movable frame adds its coordinate, whose column times its speed is its term of the sum. */
  lemma {:induction false} MovableFrameAddsColumn(gs: seq<FrameRec>, k: nat, j: nat)
    requires Propagated(gs) && k < |gs| && j < |gs| && !gs[j].kind.IsFixed() && DerivativeChains(gs)
    requires BodyJacobianTimesSpeeds(gs, k, MovableIndices(gs, j)) == Twist.Unhat(JacobianTimesSpeeds(gs, k, j))
    ensures BodyJacobianTimesSpeeds(gs, k, MovableIndices(gs, j + 1)) == Twist.Unhat(JacobianTimesSpeeds(gs, k, j + 1))
  {
    var ms := MovableIndices(gs, j);
    var a, x, r := JacobianTimesSpeeds(gs, k, j), ParTwistQdot(gs, k, j), Rate(gs[j]);
    MovableIndicesMovableStep(gs, j + 1);
    BodyJacobianTimesSpeedsSnoc(gs, k, ms, j);
    BodyColumnIsParTwistQdot(gs, k, j);
    Twist.UnhatLinear(a, Twist.Scale(x, r), r);
    Twist.UnhatLinear(x, x, r);
  }

  /** A fixed frame n - 1 adds no movable index. */
  lemma MovableIndicesFixedStep(fs: seq<FrameRec>, n: nat)
    requires 0 < n <= |fs| && fs[n - 1].kind.IsFixed()
    ensures MovableIndices(fs, n) == MovableIndices(fs, n - 1)
  {
    assert MovableIndices(fs, n - 1) + [] == MovableIndices(fs, n - 1);
  }

  /** A movable frame n - 1 appends its own index. */
  lemma MovableIndicesMovableStep(fs: seq<FrameRec>, n: nat)
    requires 0 < n <= |fs| && !fs[n - 1].kind.IsFixed()
    ensures MovableIndices(fs, n) == MovableIndices(fs, n - 1) + [n - 1]
  {
  }

  /** Appending a coordinate adds its column times its speed. */
  lemma {:induction false} BodyJacobianTimesSpeedsSnoc(fs: seq<FrameRec>, body: nat, cs: seq<nat>, c: nat)
    requires Linked(fs) && body < |fs| && InArena(fs, cs) && c < |fs|
    ensures BodyJacobianTimesSpeeds(fs, body, cs + [c])
         == Twist.AddVector(BodyJacobianTimesSpeeds(fs, body, cs), Twist.ScaleVector(BodyColumn(fs, body, c), fs[c].qDot))
  {
    var ds := cs + [c];
    assert ds[..|ds| - 1] == cs;
  }

  /**
   * x_dot = J q_dot in body coordinates: after `update()`, the body Jacobian
   * times the speeds of the coordinates (the movable frames) is the frame's
   * world twist unhatted, which for a Body is its `velocity()`.
   */
  lemma {:induction false} BodyJacobianTimesSpeedsIsVelocity(gs: seq<FrameRec>, k: nat)
    requires Propagated(gs) && k < |gs| && DerivativeChains(gs)
    ensures BodyJacobianTimesSpeeds(gs, k, MovableIndices(gs, |gs|)) == Twist.Unhat(gs[k].worldTwist)
    ensures Body.IsBody(gs, k) ==> Body.Velocity(gs, k) == BodyJacobianTimesSpeeds(gs, k, MovableIndices(gs, |gs|))
  {
    BodyJacobianTimesSpeedsPartial(gs, k, |gs|);
    WorldTwistIsJacobianTimesSpeeds(gs, k);
  }

  /**
   * The same for a whole `update()`: on a tree of joint-shaped frames whose
   * fixed frames sit on rigid offsets, the updated body Jacobian over the
   * coordinate list (the movable frames, in order) times their speeds is the
   * updated frame's world twist unhatted.
   */
  lemma {:induction false} UpdatedBodyJacobianTimesSpeeds(fs: seq<FrameRec>, trig: Trig, k: nat)
    requires TreeShaped(fs) && OnUnitCircle(trig) && k < |fs|
    requires forall j :: 0 <= j < |fs| ==> JointShaped(fs[j])
    requires forall j :: 0 <= j < |fs| && fs[j].kind.IsFixed() ==> DerivativeChain(fs[j].caches)
    ensures var gs := SettledAll(fs, trig);
            Linked(gs) && BodyJacobianTimesSpeeds(gs, k, MovableIndices(fs, |fs|)) == Twist.Unhat(gs[k].worldTwist)
  {
    var gs := SettledAll(fs, trig);
    UpdatePropagates(fs, trig);
    SettledDerivativeChains(fs, trig);
    SettledKeepsTree(fs, trig);
    BodyJacobianTimesSpeedsIsVelocity(gs, k);
  }

  /**
   * The rotation block of the frame's pose turns a body column into the
   * corrected world column: for d = w n with n in se(3), the origin's
   * velocity is R times n's translation and the world spin is det(R) R
   * times n's angular part. Rigid poses have det(R) = 1 or -1; for a proper
   * rotation both halves are R times the body column's halves.
   */
  lemma {:induction false} WorldFromBody(d: Mat4, w: Mat4)
    requires Rigid(w) && Twist.Se3(Multiply(Inv(w), d))
    ensures var n, r := Multiply(Inv(w), d), Pose.Rotation(w);
            Pose.Translation(d) == Apply3(r, Pose.Translation(n))
            && WorldSpin(d, w) == Scaled(Apply3(r, Vec3(n.m21, n.m02, n.m10)), Det3(r))
  {
    var n, r, iw := Multiply(Inv(w), d), Pose.Rotation(w), Inv(w);
    var om := Vec3(n.m21, n.m02, n.m10);
    InvIsInverse(w);
    MultiplyAssoc(w, iw, d);
    MultiplyIdentity(d);
    assert d == Multiply(w, n);
    MultiplyTranslationColumn(w, n);
    MultiplyAssoc(w, n, iw);
    var m := Multiply(n, iw);
    Twist.Se3RotationIsHat(n);
    MultiplyRotationBlock(n, iw);
    assert m.m30 == 0.0 && m.m31 == 0.0 && m.m32 == 0.0;
    MultiplyRotationBlock(w, m);
    Mul3Assoc(r, Hat3(om), Transpose3(r));
    ConjugateHat3Orthonormal(r, om);
  }

  /**
   * For rigid w with inv(w) d in se(3), the velocity of a point fixed in the
   * body at b, taken about its world offset R b from w's origin, is the
   * derivative d applied to b: t_d + spin x (R b) = R_d b + t_d.
   */
  lemma {:induction false} PointVelocity(d: Mat4, w: Mat4, b: Vec3)
    requires Rigid(w) && Twist.Se3(Multiply(Inv(w), d))
    ensures Plus(Pose.Translation(d), Cross(WorldSpin(d, w), Apply3(Pose.Rotation(w), b)))
         == Plus(Apply3(Pose.Rotation(d), b), Pose.Translation(d))
  {
    var n, r, iw := Multiply(Inv(w), d), Pose.Rotation(w), Inv(w);
    var om := Vec3(n.m21, n.m02, n.m10);
    InvIsInverse(w);
    MultiplyAssoc(w, iw, d);
    MultiplyIdentity(d);
    assert d == Multiply(w, n);
    Twist.Se3RotationIsHat(n);
    MultiplyRotationBlock(w, n);
    var rd := Pose.Rotation(d);
    assert rd == Mul3(r, Hat3(om));
    var m := Multiply(d, iw);
    MultiplyRotationBlock(d, iw);
    var rm := Pose.Rotation(m);
    assert rm == Mul3(rd, Transpose3(r));
    ConjugateHat3Orthonormal(r, om);
    assert Hat3(WorldSpin(d, w)) == rm;
    HatIsCross(WorldSpin(d, w), Apply3(r, b));
    Apply3Mul3(rm, r, b);
    Mul3Assoc(rd, Transpose3(r), r);
    Mul3Identity(rd);
  }

  /**
   * After `update()`, the corrected world column of joint i is the body
   * column turned into world axes by frame k's rotation R: the linear rows
   * are R times the body column's, the angular rows det(R) R times the
   * body column's, with det(R) = 1 or -1.
   */
  lemma {:induction false} WorldColumnFromBody(gs: seq<FrameRec>, k: nat, i: nat)
    requires Propagated(gs) && k < |gs| && DerivativeChains(gs)
    ensures var c, b, r := WorldColumn(gs, k, i), BodyColumn(gs, k, i), Pose.Rotation(gs[k].worldPose);
            Vec3(c[0], c[1], c[2]) == Apply3(r, Vec3(b[0], b[1], b[2]))
            && Vec3(c[3], c[4], c[5]) == Scaled(Apply3(r, Vec3(b[3], b[4], b[5])), Det3(r))
    ensures Det3(Pose.Rotation(gs[k].worldPose)) == 1.0 || Det3(Pose.Rotation(gs[k].worldPose)) == -1.0
  {
    var w, d := gs[k].worldPose, ParPoseQ(gs, k, i);
    var n := Multiply(Inv(w), d);
    var c, b := WorldColumn(gs, k, i), BodyColumn(gs, k, i);
    assert Vec3(c[0], c[1], c[2]) == Pose.Translation(d) && Vec3(c[3], c[4], c[5]) == WorldSpin(d, w);
    assert Vec3(b[0], b[1], b[2]) == Pose.Translation(n) && Vec3(b[3], b[4], b[5]) == Vec3(n.m21, n.m02, n.m10);
    assert forall j :: 0 <= j < |gs| ==> Rigid(gs[j].caches.ppc);
    WorldPoseRigid(gs, k);
    BodyDerivativeIsParTwistQdot(gs, k, i);
    ParTwistQdotSe3(gs, k, i);
    WorldFromBody(d, w);
    DetOfOrthonormal(Pose.Rotation(w));
  }

  /**
   * After `update()`, shifting the corrected column of joint i to a point
   * fixed in frame k gives that point's velocity: for the point at b in
   * frame k's axes, whose offset from k's origin in world axes is R b, the
   * linear rows are the q_i-derivative parPoseQ(i) b of its world position
   * W_k b, so J q_dot about the point is the point's velocity.
   */
  lemma {:induction false} PointColumnIsPointVelocity(gs: seq<FrameRec>, k: nat, i: nat, b: Vec3)
    requires Propagated(gs) && k < |gs| && DerivativeChains(gs)
    ensures var p := Apply3(Pose.Rotation(gs[k].worldPose), b);
            ShiftToPoint(WorldColumn(gs, k, i), [p.x, p.y, p.z])[..3] == Transform(ParPoseQ(gs, k, i), [b.x, b.y, b.z])
  {
    var w, d := gs[k].worldPose, ParPoseQ(gs, k, i);
    var c := WorldColumn(gs, k, i);
    assert Vec3(c[0], c[1], c[2]) == Pose.Translation(d) && Vec3(c[3], c[4], c[5]) == WorldSpin(d, w);
    assert forall j :: 0 <= j < |gs| ==> Rigid(gs[j].caches.ppc);
    WorldPoseRigid(gs, k);
    BodyDerivativeIsParTwistQdot(gs, k, i);
    ParTwistQdotSe3(gs, k, i);
    PointVelocity(d, w, b);
    ShiftedPointVelocity(c, d, w, b);
  }

  /** `PointVelocity` read on a column whose rows are d's translation over its world spin. */
  lemma ShiftedPointVelocity(c: seq<real>, d: Mat4, w: Mat4, b: Vec3)
    requires |c| == 6 && Vec3(c[0], c[1], c[2]) == Pose.Translation(d) && Vec3(c[3], c[4], c[5]) == WorldSpin(d, w)
    requires Plus(Pose.Translation(d), Cross(WorldSpin(d, w), Apply3(Pose.Rotation(w), b)))
          == Plus(Apply3(Pose.Rotation(d), b), Pose.Translation(d))
    ensures var p := Apply3(Pose.Rotation(w), b);
            ShiftToPoint(c, [p.x, p.y, p.z])[..3] == Transform(d, [b.x, b.y, b.z])
  {
  }

  // ---------------------------------------------------------------------
  // The tree
  // ---------------------------------------------------------------------

  /** The spatial root: a fixed frame on the identity pose, with no parent. */
  function RootFrame(): (f: FrameRec)
    ensures f.parent.None? && f.children == [] && f.kind.IsFixed()
  {
    FrameRec(None, [], Fixed, JointCaches(), Identity, Zero, 0.0, 0.0, None)
  }

  /** The root is the Frame the tree constructor builds: `new Frame(null, identity)`. */
  lemma RootFrameIsNewFrame()
    ensures RootFrame() == NewFrame(None, Identity)
  {
    JointCachesAreFresh();
  }

  /**
   * What a KinematicTree keeps: a tree of frames, names that refer to
   * non-root frames, the coordinates listing exactly the movable frames in
   * the order they were added, every joint's caches in their closed form,
   * and cos and sin on the unit circle.
   */
  ghost predicate Invariant(fs: seq<FrameRec>, names: map<string, nat>, cs: seq<nat>, trig: Trig)
  {
    TreeShaped(fs)
    && (forall n :: n in names ==> 0 < names[n] < |fs|)
    && cs == MovableIndices(fs, |fs|)
    && (forall j :: 0 <= j < |fs| ==> JointShaped(fs[j]))
    && OnUnitCircle(trig)
  }

  /** Attaching a built frame and registering it keeps the invariant. */
  lemma {:induction false} AttachedInvariant(fs: seq<FrameRec>, names: map<string, nat>, cs: seq<nat>, trig: Trig,
                                             p: nat, f: FrameRec, name: string)
    requires Invariant(fs, names, cs, trig) && p < |fs|
    requires f.parent == Some(p) && f.children == [] && JointShaped(f)
    ensures Invariant(Attached(fs, p, f), names[name := |fs|], cs + (if f.kind.IsFixed() then [] else [|fs|]), trig)
  {
    var gs := Attached(fs, p, f);
    AttachedTree(fs, p, f);
    forall j | 0 <= j < |gs|
      ensures JointShaped(gs[j])
    {
      if j < |fs| {
        assert gs[j].kind == fs[j].kind && gs[j].caches == fs[j].caches;
      }
    }
  }

  /**
   * A frame below the child at position idx of k's children lies strictly
   * below k and below none of the children before it.
   */
  lemma {:induction false} NextChildFresh(fs: seq<FrameRec>, k: nat, idx: nat, j: nat)
    requires Structured(fs) && k < |fs| && idx < |fs[k].children| && j < |fs|
    requires AncestorOrSelf(fs, fs[k].children[idx], j)
    ensures AncestorOrSelf(fs, k, j) && j != k
    ensures !UnderSome(fs, fs[k].children[..idx], j)
  {
    var children := fs[k].children;
    var c := children[idx];
    ChildSubtree(fs, k, c, j);
    if UnderSome(fs, children[..idx], j) {
      var i := UnderSomeWitness(fs, children[..idx], j);
      ChildSubtreesDisjoint(fs, k, children[i], c, j);
    }
  }

  /** The frames below some child of k are exactly the frames strictly below k. */
  lemma {:induction false} ChildrenCoverSubtree(fs: seq<FrameRec>, k: nat)
    requires Structured(fs) && k < |fs|
    ensures forall j :: 0 <= j < |fs| ==> (UnderSome(fs, fs[k].children, j) <==> AncestorOrSelf(fs, k, j) && j != k)
  {
    var children := fs[k].children;
    forall j | 0 <= j < |fs| && AncestorOrSelf(fs, k, j) && j != k
      ensures UnderSome(fs, children, j)
    {
      var i := ChildOnPath(fs, k, j);
      UnderSomeMember(fs, children, i, j);
    }
    forall j | 0 <= j < |fs| && UnderSome(fs, children, j)
      ensures AncestorOrSelf(fs, k, j) && j != k
    {
      var i := UnderSomeWitness(fs, children, j);
      ChildSubtree(fs, k, children[i], j);
    }
  }

  /**
   * One pass of the child loop of `update()`: after child children[idx]
   * has updated its subtree (and left every other frame alone), the frames
   * under the first idx + 1 children are settled and every other frame
   * except k still holds its value from before the loop.
   */
  lemma NextChildSettled(fs0: seq<FrameRec>, trig: Trig, k: nat, children: seq<nat>, idx: nat,
                         orig: seq<FrameRec>, before: seq<FrameRec>, after: seq<FrameRec>)
    requires Linked(fs0) && idx < |children| && children[idx] < |fs0|
    requires |orig| == |fs0| && |before| == |fs0| && |after| == |fs0|
    requires forall j :: 0 <= j < |fs0| && UnderSome(fs0, children[..idx], j) ==> before[j] == Settled(fs0, trig, j)
    requires forall j :: 0 <= j < |fs0| && j != k && !UnderSome(fs0, children[..idx], j) ==> before[j] == orig[j]
    requires forall j :: 0 <= j < |fs0| && AncestorOrSelf(fs0, children[idx], j) ==> after[j] == Settled(fs0, trig, j)
    requires forall j :: 0 <= j < |fs0| && !AncestorOrSelf(fs0, children[idx], j) ==> after[j] == before[j]
    ensures forall j :: 0 <= j < |fs0| && UnderSome(fs0, children[..idx + 1], j) ==> after[j] == Settled(fs0, trig, j)
    ensures forall j :: 0 <= j < |fs0| && j != k && !UnderSome(fs0, children[..idx + 1], j) ==> after[j] == orig[j]
  {
    forall j | 0 <= j < |fs0|
      ensures UnderSome(fs0, children[..idx + 1], j) <==> UnderSome(fs0, children[..idx], j) || AncestorOrSelf(fs0, children[idx], j)
    {
      UnderSomeNext(fs0, children, idx, j);
    }
  }

  class KinematicTree {
    /** The frames; index 0 is the spatial root. */
    var frames: seq<FrameRec>
    /** The name registry (`frames` in the source); the root has no name. */
    var names: map<string, nat>
    /** The degrees of freedom, in the order they were added. */
    var coordinates: seq<nat>
    /** cos and sin for `updateLocal`. */
    const trig: Trig

    ghost predicate Valid()
      reads this
    {
      Invariant(frames, names, coordinates, trig)
    }

    /** A tree holding only the spatial root, an identity fixed frame. */
    constructor (trig: Trig)
      requires OnUnitCircle(trig)
      ensures Valid() && this.trig == trig
      ensures frames == [RootFrame()] && names == map[] && coordinates == []
    {
      this.trig := trig;
      frames := [RootFrame()];
      names := map[];
      coordinates := [];
    }

    /**
     * `update()` of frame k (src/app/frame.js): refresh k's caches, set its
     * world pose and twist from its parent's, then update its children in
     * order. fs0 is the arena as the update from the root found it.
     */
    method UpdateFrame(k: nat, ghost fs0: seq<FrameRec>)
      requires Structured(fs0) && k < |fs0| && |frames| == |fs0|
      requires forall j :: 0 <= j < |fs0| && AncestorOrSelf(fs0, k, j) ==> frames[j] == fs0[j]
      requires fs0[k].parent.Some? ==> frames[fs0[k].parent.value] == Settled(fs0, trig, fs0[k].parent.value)
      modifies this
      ensures |frames| == |fs0| && names == old(names) && coordinates == old(coordinates)
      ensures forall j :: 0 <= j < |fs0| && AncestorOrSelf(fs0, k, j) ==> frames[j] == Settled(fs0, trig, j)
      ensures forall j :: 0 <= j < |fs0| && !AncestorOrSelf(fs0, k, j) ==> frames[j] == old(frames[j])
      decreases |fs0| - k
    {
      var f := frames[k];
      assert f == fs0[k];
      var cs := UpdateLocal(f.kind, f.caches, f.q, trig);
      if f.parent.None? {
        frames := frames[k := LocalStep(f, cs, None)];
      } else {
        frames := frames[k := LocalStep(f, cs, Some(frames[f.parent.value]))];
      }
      assert frames[k] == Settled(fs0, trig, k);
      var children := f.children;
      var idx := 0;
      assert children[..0] == [];
      while idx < |children|
        invariant 0 <= idx <= |children| && |frames| == |fs0|
        invariant names == old(names) && coordinates == old(coordinates)
        invariant frames[k] == Settled(fs0, trig, k)
        invariant forall j :: 0 <= j < |fs0| && UnderSome(fs0, children[..idx], j) ==> frames[j] == Settled(fs0, trig, j)
        invariant forall j :: 0 <= j < |fs0| && j != k && !UnderSome(fs0, children[..idx], j) ==> frames[j] == old(frames[j])
      {
        var c := children[idx];
        forall j | 0 <= j < |fs0| && AncestorOrSelf(fs0, c, j)
          ensures frames[j] == fs0[j]
        {
          NextChildFresh(fs0, k, idx, j);
        }
        ghost var before := frames;
        UpdateFrame(c, fs0);
        if AncestorOrSelf(fs0, c, k) {
          AncestorBefore(fs0, c, k);
        }
        NextChildSettled(fs0, trig, k, children, idx, old(frames), before, frames);
        idx := idx + 1;
      }
      assert children[..|children|] == children;
      ChildrenCoverSubtree(fs0, k);
      forall j | 0 <= j < |fs0| && AncestorOrSelf(fs0, k, j)
        ensures frames[j] == Settled(fs0, trig, j)
      {
        assert j == k || UnderSome(fs0, children, j);
      }
      forall j | 0 <= j < |fs0| && !AncestorOrSelf(fs0, k, j)
        ensures frames[j] == old(frames[j])
      {
        assert j != k && !UnderSome(fs0, children, j);
      }
    }

    /** `update()`: updates every frame from the spatial root down. */
    method Update()
      requires Valid()
      modifies this
      ensures Valid()
      ensures frames == SettledAll(old(frames), trig)
      ensures names == old(names) && coordinates == old(coordinates)
    {
      ghost var fs0 := frames;
      forall j | 0 <= j < |fs0|
        ensures AncestorOrSelf(fs0, 0, j)
      {
        RootReachesAll(fs0, j);
      }
      UpdateFrame(0, fs0);
      assert frames == SettledAll(fs0, trig);
      SettledKeepsTree(fs0, trig);
    }

    /**
     * `addFrame(name, frame_constructor, parent_name)`: builds the frame under
     * the named parent (the root when no name is given), registers it under
     * `name` (replacing an earlier frame of that name in the registry), and
     * appends it to the coordinates when it is not fixed.
     */
    method AddFrame(name: string, factory: Factory, parentName: Option<string>)
      requires Valid() && Buildable(factory)
      requires parentName.Some? ==> parentName.value in names
      modifies this
      ensures Valid()
      ensures var p := ParentIndex(old(names), parentName);
              frames == Attached(old(frames), p, Build(factory, p))
      ensures names == old(names)[name := |old(frames)|]
      ensures coordinates == old(coordinates) + (if factory.JointFrame? then [|old(frames)|] else [])
    {
      var p := ParentIndex(names, parentName);
      var f := Build(factory, p);
      var n := |frames|;
      AttachedInvariant(frames, names, coordinates, trig, p, f, name);
      frames := Attached(frames, p, f);
      names := names[name := n];
      if !f.kind.IsFixed() {
        coordinates := coordinates + [n];
      }
    }

    /** `setCoordinates(vector)`: q of the i-th coordinate frame := vector[i], then `update()`. */
    method SetCoordinates(v: seq<real>)
      requires Valid() && |v| >= |coordinates|
      modifies this
      ensures Valid()
      ensures InArena(old(frames), old(coordinates)) && Linked(AssignQ(old(frames), old(coordinates), v))
      ensures frames == SettledAll(AssignQ(old(frames), old(coordinates), v), trig)
      ensures names == old(names) && coordinates == old(coordinates)
    {
      MovableInArena(frames, |frames|);
      var idx := 0;
      while idx < |coordinates|
        invariant 0 <= idx <= |coordinates|
        invariant names == old(names) && coordinates == old(coordinates)
        invariant InArena(old(frames), coordinates)
        invariant InArena(old(frames), coordinates[..idx])
        invariant frames == AssignQ(old(frames), coordinates[..idx], v)
      {
        var j := coordinates[idx];
        assert coordinates[..idx + 1][..idx] == coordinates[..idx];
        assert InArena(old(frames), coordinates[..idx + 1]);
        frames := frames[j := frames[j].(q := v[idx])];
        idx := idx + 1;
      }
      assert coordinates[..idx] == coordinates;
      AssignQKeepsTree(old(frames), coordinates, v, trig);
      Update();
    }

    /** `getCoordinates()`: q of each coordinate frame, in order. */
    method GetCoordinates() returns (r: seq<real>)
      requires Valid()
      ensures InArena(frames, coordinates) && r == Coordinates(frames, coordinates)
    {
      MovableIndicesExact(frames, |frames|);
      r := [];
      var idx := 0;
      while idx < |coordinates|
        invariant 0 <= idx <= |coordinates|
        invariant |r| == idx && forall i :: 0 <= i < idx ==> r[i] == frames[coordinates[i]].q
      {
        r := r + [frames[coordinates[idx]].q];
        idx := idx + 1;
      }
    }

    /** `getWorldPose(name)`: the world pose of the named frame, as a value. */
    method GetWorldPose(name: string) returns (r: Mat4)
      requires Valid() && name in names
      ensures r == frames[names[name]].worldPose
    {
      r := frames[names[name]].worldPose;
    }

    /**
     * `getJacobian(name, point)`: one column per coordinate, shifted to the
     * point when it has three entries, then transposed. The columns are the
     * corrected world-axes columns with the corrected shift; the source's own
     * are `AsWrittenColumns`.
     */
    method GetJacobian(name: string, point: seq<real>) returns (rows: seq<seq<real>>)
      requires Valid() && name in names
      ensures rows == Transposed(JacobianColumns(frames, names[name], coordinates, point))
    {
      var body := names[name];
      var cols: seq<seq<real>> := [];
      var idx := 0;
      while idx < |coordinates|
        invariant 0 <= idx <= |coordinates| && |cols| == idx
        invariant forall i :: 0 <= i < idx ==> cols[i] == WorldColumn(frames, body, coordinates[i])
      {
        cols := cols + [WorldColumn(frames, body, coordinates[idx])];
        idx := idx + 1;
      }
      if |point| == 3 {
        idx := 0;
        while idx < |cols|
          invariant 0 <= idx <= |cols| && |cols| == |coordinates|
          invariant forall i :: 0 <= i < idx ==> cols[i] == ShiftToPoint(WorldColumn(frames, body, coordinates[i]), point)
          invariant forall i :: idx <= i < |cols| ==> cols[i] == WorldColumn(frames, body, coordinates[i])
        {
          cols := cols[idx := ShiftToPoint(cols[idx], point)];
          idx := idx + 1;
        }
      }
      assert cols == JacobianColumns(frames, body, coordinates, point);
      rows := Transposed(cols);
    }

    /** `getBodyJacobian(name)`: one column per coordinate, unhat(inv(world_pose) parPoseQ), transposed. */
    method GetBodyJacobian(name: string) returns (rows: seq<seq<real>>)
      requires Valid() && name in names
      ensures rows == Transposed(BodyColumns(frames, names[name], coordinates))
    {
      var body := names[name];
      var childPoseWorld := Inv(frames[body].worldPose);
      var cols: seq<seq<real>> := [];
      var idx := 0;
      while idx < |coordinates|
        invariant 0 <= idx <= |coordinates| && |cols| == idx
        invariant forall i :: 0 <= i < idx ==> cols[i] == BodyColumn(frames, body, coordinates[i])
      {
        cols := cols + [Twist.Unhat(Multiply(childPoseWorld, ParPoseQ(frames, body, coordinates[idx])))];
        idx := idx + 1;
      }
      assert cols == BodyColumns(frames, body, coordinates);
      rows := Transposed(cols);
    }
  }

  /** The links and kinds of two arenas agree frame by frame. */
  predicate SameShape(fs: seq<FrameRec>, gs: seq<FrameRec>)
  {
    |fs| == |gs|
    && forall j :: 0 <= j < |fs| ==>
         (gs[j].parent == fs[j].parent && gs[j].children == fs[j].children && gs[j].kind == fs[j].kind)
  }

  /** Tree shape and the movable list depend only on links and kinds. */
  lemma {:induction false} SameShapeTree(fs: seq<FrameRec>, gs: seq<FrameRec>)
    requires TreeShaped(fs) && SameShape(fs, gs)
    ensures TreeShaped(gs) && MovableIndices(gs, |gs|) == MovableIndices(fs, |fs|)
  {
    forall j | 0 <= j < |gs|
      ensures ListedByParent(gs, j)
    {
      assert ListedByParent(fs, j);
    }
    MovableIndicesSameKinds(fs, gs, |fs|);
  }

  /** `update()` keeps the tree, the movable list and the closed form of every joint's caches. */
  lemma {:induction false} SettledKeepsTree(fs: seq<FrameRec>, trig: Trig)
    requires TreeShaped(fs) && OnUnitCircle(trig)
    requires forall j :: 0 <= j < |fs| ==> JointShaped(fs[j])
    ensures TreeShaped(SettledAll(fs, trig))
    ensures MovableIndices(SettledAll(fs, trig), |fs|) == MovableIndices(fs, |fs|)
    ensures forall j :: 0 <= j < |fs| ==> JointShaped(SettledAll(fs, trig)[j])
  {
    var gs := SettledAll(fs, trig);
    assert SameShape(fs, gs);
    SameShapeTree(fs, gs);
    forall j | 0 <= j < |fs|
      ensures JointShaped(gs[j])
    {
      if !fs[j].kind.IsFixed() {
        SettledJointCaches(fs, trig, j);
      }
    }
  }

  /** Assigning coordinates keeps the tree, the movable list and every joint's cache shape. */
  lemma {:induction false} AssignQKeepsTree(fs: seq<FrameRec>, cs: seq<nat>, v: seq<real>, trig: Trig)
    requires TreeShaped(fs) && InArena(fs, cs) && |cs| <= |v|
    requires forall j :: 0 <= j < |fs| ==> JointShaped(fs[j])
    ensures TreeShaped(AssignQ(fs, cs, v))
    ensures MovableIndices(AssignQ(fs, cs, v), |fs|) == MovableIndices(fs, |fs|)
    ensures forall j :: 0 <= j < |fs| ==> JointShaped(AssignQ(fs, cs, v)[j])
  {
    var gs := AssignQ(fs, cs, v);
    AssignQOnlyQ(fs, cs, v);
    assert SameShape(fs, gs);
    SameShapeTree(fs, gs);
    forall j | 0 <= j < |fs|
      ensures JointShaped(gs[j])
    {
      assert gs[j].kind == fs[j].kind && gs[j].caches == fs[j].caches;
    }
  }
}
