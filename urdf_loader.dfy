/**
 * The link-resolution part of UrdfLoader (src/app/urdf_loader.js): reading
 * attribute values and triplets, the frames a joint element adds to a tree,
 * and the order in which `createKinematicTree` attaches joints.
 *
 * The XML document is replaced by joint elements: their own attributes and
 * the first child element of each tag. `Number(...)` on a field is the
 * parameter `toNumber`, the Euclidean norm the parameter `norm`.
 */
module Urdf {
  import opened Pose
  import opened Joint
  import opened Frame
  import Tree

  // ---------------------------------------------------------------------
  // Elements and attribute values
  // ---------------------------------------------------------------------

  /** An XML element as far as the loader reads it: its attributes. */
  datatype Element = Element(attributes: map<string, string>)

  /** A `<joint>` element: its attributes and the first child element of each tag. */
  datatype JointElement = JointElement(attributes: map<string, string>, tags: map<string, Element>)

  /** What `parseValue` returns: the number 0 when nothing is there, else the attribute text. */
  datatype Value = Absent | Text(text: string)

  /** The name a value gets as a frame name: `0` converts to "0". */
  function NameOf(v: Value): string
  {
    match v
    case Absent => "0"
    case Text(s) => s
  }

  /** `element.getElementsByTagName(tag)[0]`. */
  function Tag(joint: JointElement, tag: string): Option<Element>
  {
    if tag in joint.tags then Some(joint.tags[tag]) else None
  }

  /** `parseValue(element, attribute)`: a present, non-empty attribute as is; otherwise 0. */
  function ParseValue(element: Option<Element>, attribute: string): (r: Value)
    ensures r.Text? <==> element.Some? && attribute in element.value.attributes && element.value.attributes[attribute] != ""
    ensures r.Text? ==> r.text == element.value.attributes[attribute]
  {
    if element.Some? && attribute in element.value.attributes && element.value.attributes[attribute] != "" then
      Text(element.value.attributes[attribute])
    else
      Absent
  }

  /** `parseName`, read for its truth value: a joint counts only with a non-empty name. */
  predicate Named(joint: JointElement)
  {
    ParseValue(Some(Element(joint.attributes)), "name").Text?
  }

  function JointType(joint: JointElement): Value
  {
    ParseValue(Some(Element(joint.attributes)), "type")
  }

  /** `parseTagValue(joint, "child", "link")`. */
  function ChildLink(joint: JointElement): Value
  {
    ParseValue(Tag(joint, "child"), "link")
  }

  /** `parseTagValue(joint, "parent", "link")`. */
  function ParentLink(joint: JointElement): Value
  {
    ParseValue(Tag(joint, "parent"), "link")
  }

  // ---------------------------------------------------------------------
  // Triplets
  // ---------------------------------------------------------------------

  /** `string.split(" ")`: every space ends a field, so n spaces give n + 1 fields. */
  function Split(s: string): (fields: seq<string>)
    ensures |fields| > 0
    ensures forall i :: 0 <= i < |fields| ==> ' ' !in fields[i]
    decreases |s|
  {
    if |s| == 0 then [""]
    else
      var rest := Split(s[1..]);
      if s[0] == ' ' then [""] + rest else [[s[0]] + rest[0]] + rest[1..]
  }

  /** The fields joined with single spaces. */
  function Join(fields: seq<string>): string
    requires |fields| > 0
  {
    if |fields| == 1 then fields[0] else fields[0] + " " + Join(fields[1..])
  }

  /** Splitting and joining give the text back. */
  lemma {:induction false} JoinSplit(s: string)
    ensures Join(Split(s)) == s
    decreases |s|
  {
    if |s| > 0 {
      var rest := Split(s[1..]);
      JoinSplit(s[1..]);
      if s[0] != ' ' && |rest| > 1 {
        assert Join(rest) == rest[0] + " " + Join(rest[1..]);
        assert [s[0]] + rest[0] + " " + Join(rest[1..]) == [s[0]] + Join(rest);
      }
      assert [s[0]] + s[1..] == s;
    }
  }

  /** A word without spaces in front of s joins s's first field. */
  lemma {:induction false} SplitWordPrefix(w: string, s: string)
    requires ' ' !in w
    ensures Split(w + s) == [w + Split(s)[0]] + Split(s)[1..]
    decreases |w|
  {
    if |w| == 0 {
      assert w + s == s;
      assert w + Split(s)[0] == Split(s)[0];
      assert [Split(s)[0]] + Split(s)[1..] == Split(s);
    } else {
      assert (w + s)[1..] == w[1..] + s;
      assert ' ' !in w[1..] by { assert forall i :: 0 <= i < |w[1..]| ==> w[1..][i] == w[i + 1]; }
      SplitWordPrefix(w[1..], s);
      assert [w[0]] + (w[1..] + Split(s)[0]) == w + Split(s)[0];
    }
  }

  /** Joining fields without spaces and splitting gives the fields back. */
  lemma {:induction false} SplitJoin(fields: seq<string>)
    requires |fields| > 0 && forall i :: 0 <= i < |fields| ==> ' ' !in fields[i]
    ensures Split(Join(fields)) == fields
  {
    if |fields| == 1 {
      SplitWordPrefix(fields[0], "");
      assert fields[0] + "" == fields[0];
    } else {
      var rest := Join(fields[1..]);
      SplitJoin(fields[1..]);
      assert fields[0] + " " + rest == fields[0] + (" " + rest);
      SplitWordPrefix(fields[0], " " + rest);
      assert (" " + rest)[1..] == rest;
      assert Split(" " + rest) == [""] + fields[1..];
      assert fields[0] + "" == fields[0];
      assert Split(Join(fields)) == [fields[0]] + fields[1..];
      assert [fields[0]] + fields[1..] == fields;
    }
  }

  /**
   * `parseTriplet(element, attribute)`: the first three space-separated
   * fields as numbers when there are more than two; (0, 0, 0) otherwise.
   */
  function ParseTriplet(element: Option<Element>, attribute: string, toNumber: string -> real): (r: Vec3)
  {
    if element.Some? && attribute in element.value.attributes && element.value.attributes[attribute] != "" then
      var fields := Split(element.value.attributes[attribute]);
      if |fields| > 2 then Vec3(toNumber(fields[0]), toNumber(fields[1]), toNumber(fields[2])) else Origin
    else
      Origin
  }

  /** Writing three or more fields and parsing them back gives the first three as numbers. */
  lemma {:induction false} TripletRoundTrip(fields: seq<string>, attribute: string, others: map<string, string>,
                                            toNumber: string -> real)
    requires |fields| >= 3 && forall i :: 0 <= i < |fields| ==> ' ' !in fields[i]
    ensures ParseTriplet(Some(Element(others[attribute := Join(fields)])), attribute, toNumber)
         == Vec3(toNumber(fields[0]), toNumber(fields[1]), toNumber(fields[2]))
  {
    SplitJoin(fields);
  }

  /** With fewer than three fields, or no attribute at all, the triplet is (0, 0, 0). */
  lemma {:induction false} TripletFallback(element: Option<Element>, attribute: string, toNumber: string -> real)
    requires element.Some? && attribute in element.value.attributes ==> |Split(element.value.attributes[attribute])| <= 2
    ensures ParseTriplet(element, attribute, toNumber) == Origin
  {
  }

  /** `parseTagTriplet(joint, tag, attribute)`. */
  function TagTriplet(joint: JointElement, tag: string, attribute: string, toNumber: string -> real): Vec3
  {
    ParseTriplet(Tag(joint, tag), attribute, toNumber)
  }

  // ---------------------------------------------------------------------
  // The frames of one joint element
  // ---------------------------------------------------------------------

  /** `norm` is the Euclidean norm. */
  ghost predicate NormFunction(norm: Vec3 -> real)
  {
    forall v {:trigger IsNorm(v, norm(v))} :: IsNorm(v, norm(v))
  }

  /** `createPoseFromAxis(axis)` with its norms taken from `norm`. */
  function AxisPose(axis: Vec3, norm: Vec3 -> real): (r: Mat4)
    requires NormFunction(norm)
    ensures Rigid(r) && Pose.Translation(r) == Origin
  {
    var n := norm(axis);
    var seedNorm := if n > EPSILON then norm(SeedCross(Divided(axis, n))) else 0.0;
    CreatePoseFromAxis(axis, n, seedNorm)
  }

  /**
   * The origin pose of a joint: Rz(yaw) Ry(pitch) Rx(roll), translated by
   * xyz, times the pose whose z-axis is the joint axis. It is rigid and sits
   * at xyz.
   */
  function OriginPose(xyz: Vec3, rpy: Vec3, axis: Vec3, trig: Trig, norm: Vec3 -> real): (r: Mat4)
    requires NormFunction(norm)
    ensures OnUnitCircle(trig) ==> Rigid(r)
    ensures Pose.Translation(r) == xyz
  {
    var t := RpyPose(xyz, rpy, trig);
    var a := AxisPose(axis, norm);
    MultiplyBlocks(t, a);
    assert OnUnitCircle(trig) ==> Rigid(Multiply(t, a)) by {
      if OnUnitCircle(trig) {
        RigidMultiply(t, a);
      }
    }
    Multiply(t, a)
  }

  /** Rz(yaw) Ry(pitch) Rx(roll) applied to the identity, then translated by xyz. */
  function RpyPose(xyz: Vec3, rpy: Vec3, trig: Trig): (r: Mat4)
    ensures OnUnitCircle(trig) ==> Rigid(r)
    ensures Pose.Translation(r) == xyz
  {
    var rz := RotateByZ(CreatePoseIdentity(), trig.cos(rpy.z), trig.sin(rpy.z));
    var ry := RotateByY(rz, trig.cos(rpy.y), trig.sin(rpy.y));
    var rx := RotateByX(ry, trig.cos(rpy.x), trig.sin(rpy.x));
    Translate(rx, xyz)
  }

  /** The origin pose of a joint element. */
  function JointPose(joint: JointElement, trig: Trig, toNumber: string -> real, norm: Vec3 -> real): (r: Mat4)
    requires NormFunction(norm)
    ensures OnUnitCircle(trig) ==> Rigid(r)
    ensures Pose.Translation(r) == TagTriplet(joint, "origin", "xyz", toNumber)
  {
    OriginPose(TagTriplet(joint, "origin", "xyz", toNumber), TagTriplet(joint, "origin", "rpy", toNumber),
               TagTriplet(joint, "axis", "xyz", toNumber), trig, norm)
  }

  /**
   * The joint primitive a URDF joint type becomes: revolute and continuous
   * rotate about z, prismatic translates along z, every other type is fixed.
   */
  function JointKindOf(jointType: Value): (r: Option<JointKind>)
    ensures r.Some? ==> !r.value.IsFixed()
  {
    if jointType == Text("revolute") || jointType == Text("continuous") then Some(Rotation(Z))
    else if jointType == Text("prismatic") then Some(Translation(Z))
    else None
  }

  /** The switch of `addJointFrame`, case by case: every type but the three movable ones is fixed. */
  lemma JointKindOfCases(jointType: Value)
    ensures JointKindOf(jointType) == Some(Rotation(Z)) <==> jointType == Text("revolute") || jointType == Text("continuous")
    ensures JointKindOf(jointType) == Some(Translation(Z)) <==> jointType == Text("prismatic")
    ensures JointKindOf(jointType).None?
        <==> jointType != Text("revolute") && jointType != Text("continuous") && jointType != Text("prismatic")
  {
  }

  /** The names a joint element registers for its child: the child and, for a movable joint, child + "_f". */
  function JointNames(childName: string, kind: Option<JointKind>): set<string>
  {
    if kind.None? then {childName} else {childName + "_f", childName}
  }

  /** A tree's arena, its name registry and its coordinates. */
  datatype TreeState = TreeState(frames: seq<FrameRec>, names: map<string, nat>, coordinates: seq<nat>)

  /** A joint can be attached to st under parentName: the arena has its root, and the parent names one of its frames. */
  predicate CanAttach(st: TreeState, parentName: Option<string>)
  {
    0 < |st.frames| && (parentName.Some? ==> parentName.value in st.names && st.names[parentName.value] < |st.frames|)
  }

  /**
   * The state `addJointFrame` leaves behind from st. A fixed joint appends
   * one fixed frame named child on the origin pose under the parent. A
   * movable one appends a fixed frame child + "_f" on the origin pose under
   * the parent, then the joint primitive, named child, under that frame at
   * q = 0 with speed 0, and lists the primitive as a new coordinate. Where
   * the parent names no frame, st is returned as it is; the loader never
   * attaches there.
   */
  function JointStep(st: TreeState, pose: Mat4, kind: Option<JointKind>, childName: string,
                     parentName: Option<string>): TreeState
  {
    if !CanAttach(st, parentName) || (kind.Some? && kind.value.IsFixed()) then st
    else
      var n := |st.frames|;
      var p := Tree.ParentIndex(st.names, parentName);
      var origin := Tree.Attached(st.frames, p, Tree.Build(Tree.FixedFrame(pose), p));
      if kind.None? then
        TreeState(origin, st.names[childName := n], st.coordinates)
      else
        TreeState(Tree.Attached(origin, n, Tree.Build(Tree.JointFrame(kind.value, 0.0, 0.0), n)),
                  st.names[childName + "_f" := n][childName := n + 1], st.coordinates + [n + 1])
  }

  /** The arena, names and coordinates `addJointFrame` leaves behind, from those before it. */
  ghost predicate JointAdded(fs0: seq<FrameRec>, names0: map<string, nat>, cs0: seq<nat>,
                             fs: seq<FrameRec>, names: map<string, nat>, cs: seq<nat>,
                             pose: Mat4, kind: Option<JointKind>, childName: string, parentName: Option<string>)
  {
    TreeState(fs, names, cs) == JointStep(TreeState(fs0, names0, cs0), pose, kind, childName, parentName)
  }

  /**
   * Where a joint lands: the frame registered under child is the joint
   * primitive of its kind, at q = 0 with speed 0, under a fixed frame on the
   * origin pose that hangs under the parent's frame; for a fixed joint it is
   * that fixed frame itself. The frames before keep everything but their
   * children lists.
   */
  lemma {:induction false} JointStepLands(st: TreeState, pose: Mat4, kind: Option<JointKind>, childName: string,
                                          parentName: Option<string>)
    requires CanAttach(st, parentName) && (kind.Some? ==> !kind.value.IsFixed())
    ensures var r := JointStep(st, pose, kind, childName, parentName);
            var n := |st.frames|;
            var p := Tree.ParentIndex(st.names, parentName);
            && r.names.Keys == st.names.Keys + JointNames(childName, kind)
            && |r.frames| == n + (if kind.None? then 1 else 2)
            && r.frames[n].parent == Some(p) && r.frames[n].kind.IsFixed() && r.frames[n].caches.ppc == pose
            && (kind.None? ==> r.names[childName] == n && r.coordinates == st.coordinates)
            && (kind.Some? ==> r.names[childName + "_f"] == n && r.names[childName] == n + 1
                               && r.frames[n + 1].parent == Some(n) && r.frames[n + 1].kind == kind.value
                               && r.frames[n + 1].q == 0.0 && r.frames[n + 1].qDot == 0.0
                               && r.coordinates == st.coordinates + [n + 1])
            && (forall j :: 0 <= j < n ==> r.frames[j] == st.frames[j].(children := r.frames[j].children))
  {
    var p := Tree.ParentIndex(st.names, parentName);
    if kind.Some? {
      MovableJointLayout(st.frames, p, pose, kind.value);
    }
  }

  /** The revolute, continuous and prismatic branch of `addJointFrame`. */
  method AddMovableJoint(tree: Tree.KinematicTree, pose: Mat4, kind: JointKind, childName: string, parentName: Option<string>)
    requires tree.Valid() && !kind.IsFixed()
    requires parentName.Some? ==> parentName.value in tree.names
    modifies tree
    ensures tree.Valid()
    ensures JointAdded(old(tree.frames), old(tree.names), old(tree.coordinates), tree.frames, tree.names, tree.coordinates,
                       pose, Some(kind), childName, parentName)
  {
    var n := |tree.frames|;
    tree.AddFrame(childName + "_f", Tree.FixedFrame(pose), parentName);
    assert |tree.frames| == n + 1 && tree.names[childName + "_f"] == n;
    tree.AddFrame(childName, Tree.JointFrame(kind, 0.0, 0.0), Some(childName + "_f"));
  }

  /** The default branch of `addJointFrame`. */
  method AddFixedJoint(tree: Tree.KinematicTree, pose: Mat4, childName: string, parentName: Option<string>)
    requires tree.Valid()
    requires parentName.Some? ==> parentName.value in tree.names
    modifies tree
    ensures tree.Valid()
    ensures JointAdded(old(tree.frames), old(tree.names), old(tree.coordinates), tree.frames, tree.names, tree.coordinates,
                       pose, None, childName, parentName)
  {
    tree.AddFrame(childName, Tree.FixedFrame(pose), parentName);
  }

  /**
   * `addJointFrame(tree, joint, child_name, parent_name)`: the frames of
   * JointAdded, on the joint's origin pose and for the kind its type maps to.
   */
  method AddJointFrame(tree: Tree.KinematicTree, joint: JointElement, childName: string, parentName: Option<string>,
                       toNumber: string -> real, norm: Vec3 -> real)
    requires tree.Valid() && NormFunction(norm)
    requires parentName.Some? ==> parentName.value in tree.names
    modifies tree
    ensures tree.Valid()
    ensures JointAdded(old(tree.frames), old(tree.names), old(tree.coordinates), tree.frames, tree.names, tree.coordinates,
                       JointPose(joint, tree.trig, toNumber, norm), JointKindOf(JointType(joint)), childName, parentName)
  {
    var pose := JointPose(joint, tree.trig, toNumber, norm);
    AddPosedJointFrame(tree, joint, pose, childName, parentName);
  }

  /** The switch of `addJointFrame` on the joint's type, its origin pose already computed. */
  method AddPosedJointFrame(tree: Tree.KinematicTree, joint: JointElement, pose: Mat4, childName: string,
                            parentName: Option<string>)
    requires tree.Valid()
    requires parentName.Some? ==> parentName.value in tree.names
    modifies tree
    ensures tree.Valid()
    ensures JointAdded(old(tree.frames), old(tree.names), old(tree.coordinates), tree.frames, tree.names, tree.coordinates,
                       pose, JointKindOf(JointType(joint)), childName, parentName)
  {
    var kind := JointKindOf(JointType(joint));
    if kind.Some? {
      AddMovableJoint(tree, pose, kind.value, childName, parentName);
    } else {
      AddFixedJoint(tree, pose, childName, parentName);
    }
  }

  /** Adding a joint element registers exactly JointNames: the names before it keep their keys. */
  lemma JointAddedKeys(fs0: seq<FrameRec>, names0: map<string, nat>, cs0: seq<nat>,
                       fs: seq<FrameRec>, names: map<string, nat>, cs: seq<nat>,
                       pose: Mat4, kind: Option<JointKind>, childName: string, parentName: Option<string>)
    requires 0 < |fs0|
    requires parentName.Some? ==> parentName.value in names0 && names0[parentName.value] < |fs0|
    requires kind.Some? ==> !kind.value.IsFixed()
    requires JointAdded(fs0, names0, cs0, fs, names, cs, pose, kind, childName, parentName)
    ensures names.Keys == names0.Keys + JointNames(childName, kind)
  {
  }

  /**
   * The frames a movable joint element adds: the origin frame n under the
   * parent, fixed, on the origin pose; the joint n + 1 under it, of the
   * joint's kind, at q = 0 with speed 0.
   */
  lemma {:induction false} MovableJointLayout(fs: seq<FrameRec>, p: nat, pose: Mat4, kind: JointKind)
    requires p < |fs| && !kind.IsFixed()
    ensures var gs := Tree.Attached(Tree.Attached(fs, p, Tree.Build(Tree.FixedFrame(pose), p)),
                                    |fs|, Tree.Build(Tree.JointFrame(kind, 0.0, 0.0), |fs|));
            |gs| == |fs| + 2
            && gs[|fs|].parent == Some(p) && gs[|fs|].kind.IsFixed() && gs[|fs|].caches.ppc == pose
            && gs[|fs|].children == [|fs| + 1]
            && gs[|fs| + 1].parent == Some(|fs|) && gs[|fs| + 1].kind == kind
            && gs[|fs| + 1].q == 0.0 && gs[|fs| + 1].qDot == 0.0
            && gs[p].children == fs[p].children + [|fs|]
  {
  }

  // ---------------------------------------------------------------------
  // The link map
  // ---------------------------------------------------------------------

  /** A JavaScript Map from child links to joints: its keys in insertion order and its entries. */
  datatype LinkMap = LinkMap(order: seq<Value>, joints: map<Value, JointElement>)

  /** The keys a sequence holds. */
  function Keys(s: seq<Value>): set<Value>
    decreases |s|
  {
    if |s| == 0 then {} else Keys(s[..|s| - 1]) + {s[|s| - 1]}
  }

  /** Keys(s) holds exactly the members of s. */
  lemma {:induction false} KeysMembers(s: seq<Value>)
    ensures forall x :: x in Keys(s) <==> x in s
    decreases |s|
  {
    if |s| > 0 {
      var init := s[..|s| - 1];
      KeysMembers(init);
      assert s == init + [s[|s| - 1]];
    }
  }

  /** Each position of a sequence holds one of its keys. */
  lemma {:induction false} KeysAt(s: seq<Value>)
    ensures forall j :: 0 <= j < |s| ==> s[j] in Keys(s)
  {
    KeysMembers(s);
  }

  /** A key of a sequence sits at some position of it. */
  lemma {:induction false} KeyIndex(s: seq<Value>, x: Value) returns (j: nat)
    requires x in Keys(s)
    ensures j < |s| && s[j] == x
  {
    KeysMembers(s);
    j :| j < |s| && s[j] == x;
  }

  /** A sequence holds no more keys than it has positions. */
  lemma {:induction false} KeysCount(s: seq<Value>)
    ensures |Keys(s)| <= |s|
    decreases |s|
  {
    if |s| > 0 {
      KeysCount(s[..|s| - 1]);
    }
  }

  /** No key occurs twice: each key is absent from the keys before it. */
  predicate Distinct(s: seq<Value>)
    decreases |s|
  {
    |s| == 0 || (Distinct(s[..|s| - 1]) && s[|s| - 1] !in Keys(s[..|s| - 1]))
  }

  /**
   * The key at position i of a distinct sequence is one of its keys, is not
   * among the keys before it, and occurs at no later position.
   */
  lemma {:induction false} DistinctAt(s: seq<Value>, i: nat)
    requires Distinct(s) && i < |s|
    ensures s[i] in Keys(s) && s[i] !in Keys(s[..i])
    ensures forall j :: i < j < |s| ==> s[j] != s[i]
    decreases |s|
  {
    var init := s[..|s| - 1];
    if i < |init| {
      DistinctAt(init, i);
      assert init[..i] == s[..i];
      assert init[i] == s[i];
      forall j | i < j < |s|
        ensures s[j] != s[i]
      {
        if j < |init| {
          assert init[j] == s[j];
        }
      }
    } else {
      assert init == s[..i];
    }
  }

  /** Each key once, in order, and exactly the keys of the entries. */
  predicate WellFormed(lm: LinkMap)
  {
    Distinct(lm.order) && lm.joints.Keys == Keys(lm.order)
  }

  /** Every entry of `small` is an entry of `big`. */
  predicate SubMap(small: LinkMap, big: LinkMap)
  {
    forall k :: k in small.joints ==> k in big.joints && small.joints[k] == big.joints[k]
  }

  /** `link_map.set(k, joint)`: a new key goes last; an existing key keeps its place and takes the new joint. */
  function MapSet(lm: LinkMap, k: Value, joint: JointElement): (r: LinkMap)
    requires WellFormed(lm)
    ensures WellFormed(r) && r.joints == lm.joints[k := joint]
    ensures k in lm.joints ==> r.order == lm.order
    ensures k !in lm.joints ==> r.order == lm.order + [k]
  {
    if k in lm.joints then LinkMap(lm.order, lm.joints[k := joint])
    else
      assert (lm.order + [k])[..|lm.order|] == lm.order;
      LinkMap(lm.order + [k], lm.joints[k := joint])
  }

  /** s without k, in order. */
  function Without(s: seq<Value>, k: Value): (r: seq<Value>)
    ensures Keys(r) == Keys(s) - {k}
    ensures Distinct(s) ==> Distinct(r)
    decreases |s|
  {
    if |s| == 0 then []
    else
      var prev := Without(s[..|s| - 1], k);
      if s[|s| - 1] == k then prev
      else
        assert (prev + [s[|s| - 1]])[..|prev|] == prev;
        prev + [s[|s| - 1]]
  }

  /** `link_map.delete(k)`: the entry for k is gone; every other entry keeps its joint and its place. */
  function Delete(lm: LinkMap, k: Value): (r: LinkMap)
    requires WellFormed(lm)
    ensures WellFormed(r) && r.joints == lm.joints - {k}
  {
    LinkMap(Without(lm.order, k), lm.joints - {k})
  }

  /** `link_map.delete(c)` for each c of cs in turn: the entries of cs are gone, the others stay. */
  function DeleteAll(lm: LinkMap, cs: seq<Value>): (r: LinkMap)
    requires WellFormed(lm)
    ensures WellFormed(r) && r.joints == lm.joints - Keys(cs)
    decreases |cs|
  {
    if |cs| == 0 then lm
    else
      var prev := DeleteAll(lm, cs[..|cs| - 1]);
      assert prev.joints - {cs[|cs| - 1]} == lm.joints - Keys(cs);
      Delete(prev, cs[|cs| - 1])
  }

  /** The link map after lines 130-139: each named joint stored under its child link. */
  function LinkMapOf(joints: seq<JointElement>): (lm: LinkMap)
    ensures WellFormed(lm)
  {
    if |joints| == 0 then LinkMap([], map[])
    else
      var prev := LinkMapOf(joints[..|joints| - 1]);
      var j := joints[|joints| - 1];
      if Named(j) then MapSet(prev, ChildLink(j), j) else prev
  }

  /** Every named joint's child link is a key. */
  lemma {:induction false} LinkMapOfHas(joints: seq<JointElement>, i: nat)
    requires i < |joints| && Named(joints[i])
    ensures ChildLink(joints[i]) in LinkMapOf(joints).joints
  {
    var init := joints[..|joints| - 1];
    if i < |init| {
      assert init[i] == joints[i];
      LinkMapOfHas(init, i);
    }
  }

  /** Every key is the child link of some named joint. */
  lemma {:induction false} LinkMapOfFrom(joints: seq<JointElement>, k: Value) returns (i: nat)
    requires k in LinkMapOf(joints).joints
    ensures i < |joints| && Named(joints[i]) && ChildLink(joints[i]) == k
  {
    var init := joints[..|joints| - 1];
    if k in LinkMapOf(init).joints {
      i := LinkMapOfFrom(init, k);
      assert init[i] == joints[i];
    } else {
      i := |joints| - 1;
    }
  }

  /** The keys are the child links of the named joints. */
  lemma {:induction false} LinkMapOfKeys(joints: seq<JointElement>, k: Value)
    ensures k in LinkMapOf(joints).joints <==> exists i :: 0 <= i < |joints| && Named(joints[i]) && ChildLink(joints[i]) == k
  {
    if k in LinkMapOf(joints).joints {
      var i := LinkMapOfFrom(joints, k);
    }
    if exists i :: 0 <= i < |joints| && Named(joints[i]) && ChildLink(joints[i]) == k {
      var i :| 0 <= i < |joints| && Named(joints[i]) && ChildLink(joints[i]) == k;
      LinkMapOfHas(joints, i);
    }
  }

  /** A later named joint with the same child link replaces an earlier one: the entry is the last such joint. */
  lemma {:induction false} LinkMapOfLast(joints: seq<JointElement>, i: nat)
    requires i < |joints| && Named(joints[i])
    requires forall j :: i < j < |joints| && Named(joints[j]) ==> ChildLink(joints[j]) != ChildLink(joints[i])
    ensures ChildLink(joints[i]) in LinkMapOf(joints).joints
    ensures LinkMapOf(joints).joints[ChildLink(joints[i])] == joints[i]
  {
    var init := joints[..|joints| - 1];
    if i < |init| {
      assert init[i] == joints[i];
      LinkMapOfLast(init, i);
    }
  }

  /** `link_map.set` loop (lines 130-139): every named joint, stored under its child link; unnamed ones skipped. */
  method BuildLinkMap(joints: seq<JointElement>) returns (lm: LinkMap)
    ensures lm == LinkMapOf(joints)
  {
    lm := LinkMap([], map[]);
    var i := 0;
    while i < |joints|
      invariant 0 <= i <= |joints|
      invariant lm == LinkMapOf(joints[..i])
    {
      assert joints[..i + 1][..i] == joints[..i];
      if Named(joints[i]) {
        lm := MapSet(lm, ChildLink(joints[i]), joints[i]);
      }
      i := i + 1;
    }
    assert joints[..|joints|] == joints;
  }

  // ---------------------------------------------------------------------
  // Roots
  // ---------------------------------------------------------------------

  /** A root joint: its parent link is no joint's child link. */
  predicate IsRoot(lm: LinkMap, c: Value)
  {
    c in lm.joints && ParentLink(lm.joints[c]) !in lm.joints
  }

  /** The roots among the keys of `order`, in order. */
  function RootsIn(lm: LinkMap, order: seq<Value>): (r: seq<Value>)
    ensures forall c :: c in Keys(r) <==> c in Keys(order) && IsRoot(lm, c)
    ensures Distinct(order) ==> Distinct(r)
    decreases |order|
  {
    if |order| == 0 then []
    else
      var prev := RootsIn(lm, order[..|order| - 1]);
      var c := order[|order| - 1];
      if IsRoot(lm, c) then
        assert (prev + [c])[..|prev|] == prev;
        prev + [c]
      else prev
  }

  /** Lines 141-147: the roots, in link-map order. */
  method FindRoots(lm: LinkMap) returns (roots: seq<Value>)
    requires WellFormed(lm)
    ensures roots == RootsIn(lm, lm.order)
  {
    roots := [];
    var i := 0;
    while i < |lm.order|
      invariant 0 <= i <= |lm.order|
      invariant roots == RootsIn(lm, lm.order[..i])
    {
      var c := lm.order[i];
      DistinctAt(lm.order, i);
      assert lm.order[..i + 1][..i] == lm.order[..i];
      if ParentLink(lm.joints[c]) !in lm.joints {
        roots := roots + [c];
      }
      i := i + 1;
    }
    assert lm.order[..|lm.order|] == lm.order;
  }

  /** The frame names joints in cs can register. */
  function FrameNames(cs: seq<Value>): set<string>
  {
    if |cs| == 0 then {}
    else FrameNames(cs[..|cs| - 1]) + {NameOf(cs[|cs| - 1]) + "_f", NameOf(cs[|cs| - 1])}
  }

  lemma FrameNamesSnoc(cs: seq<Value>, c: Value)
    ensures FrameNames(cs + [c]) == FrameNames(cs) + {NameOf(c) + "_f", NameOf(c)}
  {
    assert (cs + [c])[..|cs|] == cs;
  }

  /** The frame name a joint's frames hang under: none (the spatial root) for a root, else its parent link. */
  function ParentOf(lm: LinkMap, c: Value): (r: Option<string>)
    requires c in lm.joints
    ensures r.None? <==> IsRoot(lm, c)
  {
    if IsRoot(lm, c) then None else Some(NameOf(ParentLink(lm.joints[c])))
  }

  /**
   * The state after `addJointFrame` for each joint of `order` in turn, from
   * st: the joint stored under c in lm, its frames named after c, hung under
   * ParentOf(lm, c) on the joint's origin pose.
   */
  function JointsAttached(st: TreeState, lm: LinkMap, order: seq<Value>, origin: JointElement -> Mat4): TreeState
    decreases |order|, 1
  {
    if |order| == 0 then st else LastAttached(st, lm, order, origin)
  }

  /** JointsAttached for a non-empty order: its last joint attached after the others. */
  function LastAttached(st: TreeState, lm: LinkMap, order: seq<Value>, origin: JointElement -> Mat4): TreeState
    requires |order| > 0
    decreases |order|, 0
  {
    var prev := JointsAttached(st, lm, order[..|order| - 1], origin);
    var c := order[|order| - 1];
    if c in lm.joints then
      JointStep(prev, origin(lm.joints[c]), JointKindOf(JointType(lm.joints[c])),
                NameOf(c), ParentOf(lm, c))
    else prev
  }

  lemma JointsAttachedSnoc(st: TreeState, lm: LinkMap, order: seq<Value>, c: Value, origin: JointElement -> Mat4)
    requires c in lm.joints
    ensures JointsAttached(st, lm, order + [c], origin)
         == JointStep(JointsAttached(st, lm, order, origin), origin(lm.joints[c]),
                      JointKindOf(JointType(lm.joints[c])), NameOf(c), ParentOf(lm, c))
  {
    assert (order + [c])[..|order|] == order;
  }

  /** Root i of a distinct list of roots, still in the link map rest, is attached under the spatial root. */
  lemma {:induction false} RootAttachedNext(st0: TreeState, lm: LinkMap, roots: seq<Value>, i: nat, rest: LinkMap,
                                            origin: JointElement -> Mat4)
    requires WellFormed(lm) && Distinct(roots) && i < |roots|
    requires forall c :: c in Keys(roots) ==> IsRoot(lm, c)
    requires rest.joints == lm.joints - Keys(roots[..i])
    ensures roots[i] in rest.joints
    ensures JointsAttached(st0, lm, roots[..i + 1], origin)
         == JointStep(JointsAttached(st0, lm, roots[..i], origin),
                      origin(rest.joints[roots[i]]), JointKindOf(JointType(rest.joints[roots[i]])),
                      NameOf(roots[i]), None)
  {
    var c, before := roots[i], roots[..i];
    assert roots[..i + 1] == before + [c];
    DistinctAt(roots, i);
    assert rest.joints[c] == lm.joints[c] && ParentOf(lm, c) == None;
    JointsAttachedSnoc(st0, lm, before, c, origin);
  }

  /**
   * A non-root joint c still in the link map rest, attached after the roots
   * and order, hangs under the frame named after its parent link.
   */
  lemma {:induction false} JointAttachedNext(st0: TreeState, full: LinkMap, lm: LinkMap, roots: seq<Value>,
                                             order: seq<Value>, rest: LinkMap, c: Value, before: TreeState, after: TreeState,
                                             origin: JointElement -> Mat4)
    requires WellFormed(lm) && SubMap(lm, full) && forall x :: IsRoot(full, x) ==> x !in lm.joints
    requires rest == DeleteAll(lm, order) && c in rest.joints
    requires before == JointsAttached(st0, full, roots + order, origin)
    requires after == JointStep(before, origin(rest.joints[c]), JointKindOf(JointType(rest.joints[c])),
                                NameOf(c), Some(NameOf(ParentLink(rest.joints[c]))))
    ensures after == JointsAttached(st0, full, roots + (order + [c]), origin)
  {
    AppendOne(roots, order, c);
    assert rest.joints[c] == full.joints[c];
    assert ParentOf(full, c) == Some(NameOf(ParentLink(rest.joints[c])));
    JointsAttachedSnoc(st0, full, roots + order, c, origin);
  }

  lemma AppendOne(s: seq<Value>, t: seq<Value>, c: Value)
    ensures s + (t + [c]) == (s + t) + [c]
  {
  }

  /**
   * The step both attaching loops take: `addJointFrame` for the joint stored
   * under c, named after c, on the pose `origin` gives it (Origins, once
   * CreateKinematicTree fixes the conversions), then `link_map.delete(c)`.
   */
  method AttachJoint(tree: Tree.KinematicTree, lm: LinkMap, c: Value, parentName: Option<string>,
                     origin: JointElement -> Mat4)
    returns (rest: LinkMap)
    requires tree.Valid() && WellFormed(lm) && c in lm.joints
    requires parentName.Some? ==> parentName.value in tree.names
    modifies tree
    ensures tree.Valid()
    ensures JointAdded(old(tree.frames), old(tree.names), old(tree.coordinates), tree.frames, tree.names, tree.coordinates,
                       origin(lm.joints[c]), JointKindOf(JointType(lm.joints[c])),
                       NameOf(c), parentName)
    ensures tree.names.Keys == old(tree.names).Keys + JointNames(NameOf(c), JointKindOf(JointType(lm.joints[c])))
    ensures rest == Delete(lm, c)
  {
    ghost var fs0, names0, cs0 := tree.frames, tree.names, tree.coordinates;
    AddPosedJointFrame(tree, lm.joints[c], origin(lm.joints[c]), NameOf(c), parentName);
    JointAddedKeys(fs0, names0, cs0, tree.frames, tree.names, tree.coordinates,
                   origin(lm.joints[c]), JointKindOf(JointType(lm.joints[c])),
                   NameOf(c), parentName);
    rest := Delete(lm, c);
  }

  /**
   * The first i roots are attached: they are gone from the link map, each
   * is named in the tree, and the tree holds no names but theirs.
   */
  ghost predicate RootsUpTo(lm: LinkMap, roots: seq<Value>, i: nat, rest: LinkMap, names: set<string>)
    requires WellFormed(lm) && i <= |roots|
  {
    rest == DeleteAll(lm, roots[..i])
    && (forall j :: 0 <= j < i ==> NameOf(roots[j]) in names)
    && names <= FrameNames(roots[..i])
  }

  /** Attaching root i and deleting it extends RootsUpTo by one. */
  lemma {:induction false} RootsStep(lm: LinkMap, roots: seq<Value>, i: nat, rest: LinkMap, names: set<string>,
                                     kind: Option<JointKind>)
    requires WellFormed(lm) && i < |roots| && RootsUpTo(lm, roots, i, rest, names)
    ensures RootsUpTo(lm, roots, i + 1, Delete(rest, roots[i]), names + JointNames(NameOf(roots[i]), kind))
  {
    var c := roots[i];
    assert roots[..i + 1][..i] == roots[..i];
    assert roots[..i + 1] == roots[..i] + [c];
    FrameNamesSnoc(roots[..i], c);
  }

  /** Lines 148-153: each root attached under the spatial frame, then removed from the link map. */
  method AttachRoots(tree: Tree.KinematicTree, lm: LinkMap, roots: seq<Value>, origin: JointElement -> Mat4)
    returns (rest: LinkMap)
    requires tree.Valid() && tree.names == map[]
    requires WellFormed(lm) && Distinct(roots) && forall c :: c in Keys(roots) ==> IsRoot(lm, c)
    modifies tree
    ensures tree.Valid()
    ensures TreeState(tree.frames, tree.names, tree.coordinates)
         == JointsAttached(TreeState(old(tree.frames), old(tree.names), old(tree.coordinates)), lm, roots,
                           origin)
    ensures rest == DeleteAll(lm, roots)
    ensures forall j :: 0 <= j < |roots| ==> NameOf(roots[j]) in tree.names
    ensures tree.names.Keys <= FrameNames(roots)
  {
    ghost var st0 := TreeState(tree.frames, tree.names, tree.coordinates);
    rest := lm;
    var i := 0;
    assert roots[..0] == [];
    while i < |roots|
      invariant 0 <= i <= |roots|
      invariant tree.Valid()
      invariant RootsUpTo(lm, roots, i, rest, tree.names.Keys)
      invariant TreeState(tree.frames, tree.names, tree.coordinates)
             == JointsAttached(st0, lm, roots[..i], origin)
    {
      var c := roots[i];
      DistinctAt(roots, i);
      RootsStep(lm, roots, i, rest, tree.names.Keys, JointKindOf(JointType(rest.joints[c])));
      RootAttachedNext(st0, lm, roots, i, rest, origin);
      rest := AttachJoint(tree, rest, c, None, origin);
      i := i + 1;
    }
    assert roots[..|roots|] == roots;
  }

  // ---------------------------------------------------------------------
  // The resolution loop
  // ---------------------------------------------------------------------

  /** c's chain of parent links reaches a root in at most d steps. */
  ghost predicate Reaches(lm: LinkMap, c: Value, d: nat)
    decreases d
  {
    c in lm.joints
    && (ParentLink(lm.joints[c]) !in lm.joints || (d > 0 && Reaches(lm, ParentLink(lm.joints[c]), d - 1)))
  }

  /**
   * Each joint of `order` is a non-root entry whose parent link is among the
   * names the roots and the joints before it register.
   */
  ghost predicate ParentsFirst(full: LinkMap, lm: LinkMap, roots: seq<Value>, order: seq<Value>)
    decreases |order|
  {
    |order| == 0
    || (var init, c := order[..|order| - 1], order[|order| - 1];
        ParentsFirst(full, lm, roots, init) && c in lm.joints && c in full.joints
        && NameOf(ParentLink(full.joints[c])) in FrameNames(roots + init))
  }

  /** ParentsFirst, read at one position of the order. */
  lemma {:induction false} ParentsFirstAt(full: LinkMap, lm: LinkMap, roots: seq<Value>, order: seq<Value>, i: nat)
    requires ParentsFirst(full, lm, roots, order) && i < |order|
    ensures order[i] in lm.joints && order[i] in full.joints
    ensures NameOf(ParentLink(full.joints[order[i]])) in FrameNames(roots + order[..i])
    decreases |order|
  {
    var init := order[..|order| - 1];
    if i < |init| {
      ParentsFirstAt(full, lm, roots, init, i);
      assert init[..i] == order[..i];
    }
  }

  /**
   * What the resolution loop keeps: the joints attached so far, in order,
   * are gone from the link map; each found its parent link among the names
   * registered before it; every joint no longer in the map is named in the
   * tree; and the tree holds no other names.
   */
  ghost predicate Resolved(full: LinkMap, lm: LinkMap, roots: seq<Value>, rest: LinkMap, order: seq<Value>,
                           names: set<string>)
    requires WellFormed(lm)
  {
    rest == DeleteAll(lm, order)
    && ParentsFirst(full, lm, roots, order)
    && (forall c {:trigger NameOf(c)} :: c in full.joints && c !in rest.joints ==> NameOf(c) in names)
    && names <= FrameNames(roots + order)
  }

  /** Attaching joint c, whose parent link is registered, and deleting it keeps Resolved. */
  lemma {:induction false} ResolvedStep(full: LinkMap, lm: LinkMap, roots: seq<Value>, rest: LinkMap, order: seq<Value>,
                                        names: set<string>, c: Value, kind: Option<JointKind>)
    requires WellFormed(lm) && SubMap(lm, full) && Resolved(full, lm, roots, rest, order, names)
    requires c in rest.joints && NameOf(ParentLink(rest.joints[c])) in names
    ensures Resolved(full, lm, roots, Delete(rest, c), order + [c], names + JointNames(NameOf(c), kind))
  {
    var order' := order + [c];
    assert order'[..|order|] == order;
    assert roots + order' == (roots + order) + [c];
    FrameNamesSnoc(roots + order, c);
    assert DeleteAll(lm, order') == Delete(DeleteAll(lm, order), c);
  }

  /**
   * A joint still in the link map whose parent link names no frame yet does
   * not reach a root within one more step than the passes made so far.
   */
  lemma {:induction false} Unreached(full: LinkMap, lm: LinkMap, roots: seq<Value>, rest: LinkMap, order: seq<Value>,
                                     names: set<string>, c: Value, passes: nat)
    requires WellFormed(lm) && SubMap(lm, full) && Resolved(full, lm, roots, rest, order, names)
    requires forall x :: Reaches(full, x, passes) ==> x !in rest.joints
    requires c in rest.joints && NameOf(ParentLink(rest.joints[c])) !in names
    ensures !Reaches(full, c, passes + 1)
  {
    assert rest.joints[c] == full.joints[c];
    var p := ParentLink(full.joints[c]);
    assert !Reaches(full, c, passes);
    assert p in full.joints && p !in rest.joints ==> NameOf(p) in names;
  }

  /**
   * Lines 159-163 for the entry under c: when its parent link names a frame
   * of the tree, the joint is attached and deleted from the link map;
   * otherwise nothing changes, and then its chain does not reach a root
   * within one more step than the passes made so far.
   */
  method TryAttach(tree: Tree.KinematicTree, lm: LinkMap, ghost full: LinkMap, ghost roots: seq<Value>,
                   rest: LinkMap, ghost order: seq<Value>, c: Value, ghost passes: nat, ghost st0: TreeState,
                   origin: JointElement -> Mat4)
    returns (rest': LinkMap, ghost order': seq<Value>)
    requires tree.Valid()
    requires WellFormed(lm) && SubMap(lm, full) && forall x :: IsRoot(full, x) ==> x !in lm.joints
    requires Resolved(full, lm, roots, rest, order, tree.names.Keys)
    requires TreeState(tree.frames, tree.names, tree.coordinates)
          == JointsAttached(st0, full, roots + order, origin)
    requires forall x :: Reaches(full, x, passes) ==> x !in rest.joints
    requires c in rest.joints
    modifies tree
    ensures tree.Valid()
    ensures Resolved(full, lm, roots, rest', order', tree.names.Keys)
    ensures TreeState(tree.frames, tree.names, tree.coordinates)
         == JointsAttached(st0, full, roots + order', origin)
    ensures if NameOf(ParentLink(rest.joints[c])) in old(tree.names)
            then rest' == Delete(rest, c) && order' == order + [c]
                 && JointAdded(old(tree.frames), old(tree.names), old(tree.coordinates),
                               tree.frames, tree.names, tree.coordinates,
                               origin(rest.joints[c]), JointKindOf(JointType(rest.joints[c])),
                               NameOf(c), Some(NameOf(ParentLink(rest.joints[c]))))
            else rest' == rest && order' == order
                 && tree.frames == old(tree.frames) && tree.names == old(tree.names)
                 && tree.coordinates == old(tree.coordinates)
    ensures Reaches(full, c, passes + 1) ==> c !in rest'.joints
    ensures rest'.joints.Keys <= rest.joints.Keys && rest.joints.Keys - {c} <= rest'.joints.Keys
  {
    var parentName := NameOf(ParentLink(rest.joints[c]));
    if parentName in tree.names {
      ghost var before := TreeState(tree.frames, tree.names, tree.coordinates);
      ResolvedStep(full, lm, roots, rest, order, tree.names.Keys, c, JointKindOf(JointType(rest.joints[c])));
      rest' := AttachJoint(tree, rest, c, Some(parentName), origin);
      order' := order + [c];
      JointAttachedNext(st0, full, lm, roots, order, rest, c, before,
                        TreeState(tree.frames, tree.names, tree.coordinates), origin);
    } else {
      Unreached(full, lm, roots, rest, order, tree.names.Keys, c, passes);
      rest', order' := rest, order;
    }
  }

  /**
   * Within a pass over `keys`, the snapshot of the link map's keys taken at
   * its start, after i entries: the entries from i on are still in the map,
   * the map holds nothing else, and of the first i entries those whose chain
   * reaches a root within passes + 1 steps are gone, as is every joint
   * reaching one within passes steps.
   */
  ghost predicate PassUpTo(full: LinkMap, keys: seq<Value>, i: nat, passes: nat, rest: LinkMap)
    requires i <= |keys|
  {
    (forall c :: Reaches(full, c, passes) ==> c !in rest.joints)
    && (forall j :: i <= j < |keys| ==> keys[j] in rest.joints)
    && rest.joints.Keys <= Keys(keys)
    && (forall j :: 0 <= j < i && Reaches(full, keys[j], passes + 1) ==> keys[j] !in rest.joints)
  }

  /** One more entry visited keeps PassUpTo. */
  lemma {:induction false} PassStep(full: LinkMap, keys: seq<Value>, i: nat, passes: nat, rest: LinkMap, rest': LinkMap)
    requires i < |keys| && Distinct(keys) && PassUpTo(full, keys, i, passes, rest)
    requires rest'.joints.Keys <= rest.joints.Keys && rest.joints.Keys - {keys[i]} <= rest'.joints.Keys
    requires Reaches(full, keys[i], passes + 1) ==> keys[i] !in rest'.joints
    ensures PassUpTo(full, keys, i + 1, passes, rest')
  {
    DistinctAt(keys, i);
  }

  /**
   * One pass of lines 158-164 over the link map as it stands at the start of
   * the pass, each entry in order. Afterwards every joint whose chain
   * reaches a root within one more step is gone.
   */
  method ResolvePass(tree: Tree.KinematicTree, lm: LinkMap, ghost full: LinkMap, ghost roots: seq<Value>,
                     rest0: LinkMap, ghost order0: seq<Value>, ghost passes: nat, ghost st0: TreeState,
                     origin: JointElement -> Mat4)
    returns (rest: LinkMap, ghost order: seq<Value>)
    requires tree.Valid()
    requires WellFormed(lm) && SubMap(lm, full) && forall x :: IsRoot(full, x) ==> x !in lm.joints
    requires Resolved(full, lm, roots, rest0, order0, tree.names.Keys)
    requires forall c :: Reaches(full, c, passes) ==> c !in rest0.joints
    requires TreeState(tree.frames, tree.names, tree.coordinates)
          == JointsAttached(st0, full, roots + order0, origin)
    modifies tree
    ensures tree.Valid()
    ensures Resolved(full, lm, roots, rest, order, tree.names.Keys)
    ensures TreeState(tree.frames, tree.names, tree.coordinates)
         == JointsAttached(st0, full, roots + order, origin)
    ensures forall c :: Reaches(full, c, passes + 1) ==> c !in rest.joints
  {
    rest, order := rest0, order0;
    var keys := rest0.order;
    KeysAt(keys);
    var i := 0;
    while i < |keys|
      invariant 0 <= i <= |keys| && keys == rest0.order && Distinct(keys)
      invariant tree.Valid()
      invariant Resolved(full, lm, roots, rest, order, tree.names.Keys)
      invariant PassUpTo(full, keys, i, passes, rest)
      invariant TreeState(tree.frames, tree.names, tree.coordinates)
             == JointsAttached(st0, full, roots + order, origin)
    {
      ghost var before := rest;
      rest, order := TryAttach(tree, lm, full, roots, rest, order, keys[i], passes, st0, origin);
      PassStep(full, keys, i, passes, before, rest);
      i := i + 1;
    }
    PassDone(full, keys, passes, rest);
  }

  /** At the end of a pass, every joint whose chain reaches a root within one more step is gone. */
  lemma {:induction false} PassDone(full: LinkMap, keys: seq<Value>, passes: nat, rest: LinkMap)
    requires PassUpTo(full, keys, |keys|, passes, rest)
    ensures forall c :: Reaches(full, c, passes + 1) ==> c !in rest.joints
  {
    forall c | c in rest.joints
      ensures !Reaches(full, c, passes + 1)
    {
      var j := KeyIndex(keys, c);
    }
  }

  /**
   * Lines 155-166: at most `size_of_joints` passes over the link map, while
   * it is not empty. Every joint whose chain reaches a root within that many
   * steps is attached; every attached joint found its parent frame already
   * registered.
   */
  method ResolveLinks(tree: Tree.KinematicTree, lm: LinkMap, ghost full: LinkMap, ghost roots: seq<Value>,
                      ghost st0: TreeState, origin: JointElement -> Mat4)
    returns (rest: LinkMap, ghost order: seq<Value>)
    requires tree.Valid()
    requires WellFormed(lm) && SubMap(lm, full)
    requires forall c :: c in full.joints && c !in lm.joints ==> NameOf(c) in tree.names
    requires forall c :: IsRoot(full, c) ==> c !in lm.joints
    requires tree.names.Keys <= FrameNames(roots)
    requires TreeState(tree.frames, tree.names, tree.coordinates)
          == JointsAttached(st0, full, roots, origin)
    modifies tree
    ensures tree.Valid()
    ensures forall c :: Reaches(full, c, |lm.order|) ==> c !in rest.joints
    ensures Resolved(full, lm, roots, rest, order, tree.names.Keys)
    ensures TreeState(tree.frames, tree.names, tree.coordinates)
         == JointsAttached(st0, full, roots + order, origin)
  {
    var size := |lm.order|;
    var passes := 0;
    rest := lm;
    order := [];
    assert roots + [] == roots;
    while |rest.order| > 0 && passes < size
      invariant 0 <= passes <= size
      invariant tree.Valid()
      invariant Resolved(full, lm, roots, rest, order, tree.names.Keys)
      invariant forall c :: Reaches(full, c, passes) ==> c !in rest.joints
      invariant TreeState(tree.frames, tree.names, tree.coordinates)
             == JointsAttached(st0, full, roots + order, origin)
      decreases size - passes
    {
      rest, order := ResolvePass(tree, lm, full, roots, rest, order, passes, st0, origin);
      passes := passes + 1;
    }
    if passes < size {
      assert forall c :: Reaches(full, c, size) ==> c !in rest.joints;
    }
  }

  /** A longer bound keeps a chain that reaches a root. */
  lemma {:induction false} ReachesMonotone(lm: LinkMap, c: Value, d: nat, e: nat)
    requires Reaches(lm, c, d) && d <= e
    ensures Reaches(lm, c, e)
    decreases d
  {
    if ParentLink(lm.joints[c]) in lm.joints {
      ReachesMonotone(lm, ParentLink(lm.joints[c]), d - 1, e - 1);
    }
  }

  /** The non-root joints whose chain reaches a root within m steps. */
  ghost function Level(full: LinkMap, nonRoots: set<Value>, m: nat): set<Value>
  {
    set c | c in nonRoots && Reaches(full, c, m)
  }

  lemma LevelGrows(full: LinkMap, nonRoots: set<Value>, m: nat)
    ensures Level(full, nonRoots, m) <= Level(full, nonRoots, m + 1) <= nonRoots
  {
    forall c | c in Level(full, nonRoots, m)
      ensures c in Level(full, nonRoots, m + 1)
    {
      ReachesMonotone(full, c, m, m + 1);
    }
  }

  /** Once a level adds nothing, no later level does. */
  lemma {:induction false} LevelStable(full: LinkMap, nonRoots: set<Value>, m: nat, e: nat)
    requires forall c :: c in full.joints ==> (c in nonRoots <==> !IsRoot(full, c))
    requires Level(full, nonRoots, m) == Level(full, nonRoots, m + 1) && m <= e
    ensures Level(full, nonRoots, e) == Level(full, nonRoots, m)
    decreases e - m
  {
    if m < e {
      forall c | c in nonRoots && Reaches(full, c, m + 2)
        ensures Reaches(full, c, m + 1)
      {
        var p := ParentLink(full.joints[c]);
        if p in nonRoots {
          assert p in Level(full, nonRoots, m + 1);
        } else {
          ReachesMonotone(full, p, 0, m);
        }
      }
      LevelGrows(full, nonRoots, m + 1);
      assert Level(full, nonRoots, m + 2) <= Level(full, nonRoots, m + 1);
      LevelStable(full, nonRoots, m + 1, e);
    }
  }

  /** A proper subset is smaller. */
  lemma ProperSubsetSmaller(a: set<Value>, b: set<Value>)
    requires a < b
    ensures |a| < |b|
  {
    assert b - a != {};
    var x :| x in b - a;
    assert b == a + (b - a);
    assert {x} <= b - a;
  }

  /** Before the levels stop growing, level m holds at least m joints. */
  lemma {:induction false} LevelCount(full: LinkMap, nonRoots: set<Value>, m: nat)
    ensures (exists k :: 0 <= k < m && Level(full, nonRoots, k) == Level(full, nonRoots, k + 1))
            || |Level(full, nonRoots, m)| >= m
  {
    if m > 0 {
      LevelCount(full, nonRoots, m - 1);
      LevelGrows(full, nonRoots, m - 1);
      if Level(full, nonRoots, m - 1) != Level(full, nonRoots, m) {
        ProperSubsetSmaller(Level(full, nonRoots, m - 1), Level(full, nonRoots, m));
      }
    }
  }

  /**
   * A non-root joint whose chain reaches a root at all reaches it within as
   * many steps as there are non-root joints.
   */
  lemma {:induction false} ReachesWithinNonRoots(full: LinkMap, lm: LinkMap)
    requires WellFormed(lm) && forall c :: c in full.joints ==> (c in lm.joints <==> !IsRoot(full, c))
    requires lm.joints.Keys <= full.joints.Keys
    ensures forall c, d :: c in lm.joints && Reaches(full, c, d) ==> Reaches(full, c, |lm.order|)
  {
    var nonRoots := lm.joints.Keys;
    var n := |nonRoots|;
    KeysCount(lm.order);
    forall c, d: nat | c in lm.joints && Reaches(full, c, d)
      ensures Reaches(full, c, |lm.order|)
    {
      if d <= n {
        ReachesMonotone(full, c, d, |lm.order|);
      } else {
        LevelCount(full, nonRoots, n);
        assert c in Level(full, nonRoots, d);
        if exists k :: 0 <= k < n && Level(full, nonRoots, k) == Level(full, nonRoots, k + 1) {
          var k :| 0 <= k < n && Level(full, nonRoots, k) == Level(full, nonRoots, k + 1);
          LevelStable(full, nonRoots, k, d);
          LevelStable(full, nonRoots, k, n);
        } else {
          assert Level(full, nonRoots, n) <= nonRoots;
          if Level(full, nonRoots, n) != nonRoots {
            ProperSubsetSmaller(Level(full, nonRoots, n), nonRoots);
          }
        }
        assert c in Level(full, nonRoots, n);
        ReachesMonotone(full, c, n, |lm.order|);
      }
    }
  }

  /**
   * After the roots are attached and deleted, the link map holds exactly the
   * non-root joints, and every joint gone from it is named in the tree.
   */
  lemma {:induction false} RootsAttached(full: LinkMap, roots: seq<Value>, lm: LinkMap, names: set<string>)
    requires WellFormed(full) && roots == RootsIn(full, full.order) && lm == DeleteAll(full, roots)
    requires forall j :: 0 <= j < |roots| ==> NameOf(roots[j]) in names
    ensures SubMap(lm, full)
    ensures forall c :: c in full.joints ==> (c in lm.joints <==> !IsRoot(full, c))
    ensures forall c :: c in full.joints && c !in lm.joints ==> NameOf(c) in names
  {
    KeysMembers(roots);
    forall c | c in full.joints && c !in lm.joints
      ensures NameOf(c) in names
    {
      var j :| 0 <= j < |roots| && roots[j] == c;
    }
  }

  lemma {:induction false} KeysAppend(s: seq<Value>, t: seq<Value>)
    ensures Keys(s + t) == Keys(s) + Keys(t)
    decreases |t|
  {
    if |t| == 0 {
      assert s + t == s;
    } else {
      var init := t[..|t| - 1];
      KeysAppend(s, init);
      assert (s + t)[..|s + t| - 1] == s + init;
    }
  }

  /** The joints a ParentsFirst order lists are entries of the link map. */
  lemma {:induction false} ParentsFirstKeys(full: LinkMap, lm: LinkMap, roots: seq<Value>, order: seq<Value>)
    requires ParentsFirst(full, lm, roots, order)
    ensures Keys(order) <= lm.joints.Keys
    decreases |order|
  {
    if |order| > 0 {
      ParentsFirstKeys(full, lm, roots, order[..|order| - 1]);
    }
  }

  /**
   * The joints the resolution loop leaves in the link map are non-root
   * entries no chain to a root passes through; every other entry is named
   * in the tree.
   */
  lemma {:induction false} LeftoversOutcome(full: LinkMap, lm: LinkMap, rest: LinkMap, names: set<string>)
    requires WellFormed(lm) && WellFormed(rest) && SubMap(lm, full)
    requires forall c :: c in full.joints ==> (c in lm.joints <==> !IsRoot(full, c))
    requires rest.joints.Keys <= lm.joints.Keys
    requires forall c {:trigger NameOf(c)} :: c in full.joints && c !in rest.joints ==> NameOf(c) in names
    requires forall c :: Reaches(full, c, |lm.order|) ==> c !in rest.joints
    ensures forall c :: c in Keys(rest.order) ==> c in full.joints && !IsRoot(full, c)
    ensures forall c :: c in full.joints && c !in Keys(rest.order) ==> NameOf(c) in names
    ensures forall c, d :: Reaches(full, c, d) ==> c !in Keys(rest.order)
  {
    ReachesWithinNonRoots(full, lm);
    forall c, d: nat | Reaches(full, c, d)
      ensures c !in rest.joints
    {
      if c in lm.joints {
        assert Reaches(full, c, |lm.order|);
      }
    }
  }

  /** The attach order, roots first, holds exactly the entries the loop took out of the link map. */
  lemma {:induction false} AttachOrderKeys(full: LinkMap, roots: seq<Value>, lm: LinkMap, rest: LinkMap,
                                           order: seq<Value>)
    requires WellFormed(full) && roots == RootsIn(full, full.order) && lm == DeleteAll(full, roots)
    requires rest == DeleteAll(lm, order) && Keys(order) <= lm.joints.Keys
    ensures Keys(roots + order) == full.joints.Keys - Keys(rest.order)
  {
    KeysAppend(roots, order);
  }

  /**
   * Each joint of the attach order, roots first, is an entry of the link
   * map, and each one that is not a root comes after a joint that
   * registered its parent link.
   */
  lemma {:induction false} AttachOrderParentsFirst(full: LinkMap, roots: seq<Value>, lm: LinkMap, order: seq<Value>)
    requires WellFormed(full) && roots == RootsIn(full, full.order) && ParentsFirst(full, lm, roots, order)
    ensures forall i :: 0 <= i < |roots + order| ==>
              (roots + order)[i] in full.joints
              && (IsRoot(full, (roots + order)[i])
                  || NameOf(ParentLink(full.joints[(roots + order)[i]])) in FrameNames((roots + order)[..i]))
  {
    var all := roots + order;
    forall i | 0 <= i < |all|
      ensures all[i] in full.joints
      ensures IsRoot(full, all[i]) || NameOf(ParentLink(full.joints[all[i]])) in FrameNames(all[..i])
    {
      if i < |roots| {
        DistinctAt(roots, i);
      } else {
        ParentsFirstAt(full, lm, roots, order, i - |roots|);
        assert all[..i] == roots + order[..i - |roots|];
      }
    }
  }

  /** The origin pose `addJointFrame` computes for each joint element (line 62). */
  function Origins(trig: Trig, toNumber: string -> real, norm: Vec3 -> real): (origin: JointElement -> Mat4)
    requires NormFunction(norm)
    ensures forall joint :: origin(joint) == JointPose(joint, trig, toNumber, norm)
  {
    joint => JointPose(joint, trig, toNumber, norm)
  }

  /**
   * Lines 118-153 of `createKinematicTree(joints)`: build the link map, find
   * its roots and attach them under the spatial frame. What is left in the
   * link map are the non-root joints.
   */
  method AttachLinkRoots(tree: Tree.KinematicTree, joints: seq<JointElement>, origin: JointElement -> Mat4)
    returns (full: LinkMap, roots: seq<Value>, lm: LinkMap)
    requires tree.Valid()
    requires tree.names == map[]
    modifies tree
    ensures tree.Valid()
    ensures full == LinkMapOf(joints) && WellFormed(full) && roots == RootsIn(full, full.order)
    ensures lm == DeleteAll(full, roots) && SubMap(lm, full)
    ensures forall c :: c in full.joints ==> (c in lm.joints <==> !IsRoot(full, c))
    ensures forall c :: c in full.joints && c !in lm.joints ==> NameOf(c) in tree.names
    ensures tree.names.Keys <= FrameNames(roots)
    ensures TreeState(tree.frames, tree.names, tree.coordinates)
         == JointsAttached(TreeState(old(tree.frames), old(tree.names), old(tree.coordinates)), full, roots, origin)
  {
    full := BuildLinkMap(joints);
    roots := FindRoots(full);
    lm := AttachRoots(tree, full, roots, origin);
    RootsAttached(full, roots, lm, tree.names.Keys);
  }

  /**
   * Lines 118-166 of `createKinematicTree(joints)`, before the final update:
   * build the link map, attach the roots under the spatial frame, resolve
   * the rest in bounded passes. The joints left over are those the source
   * reports as failed to parse. Each of them is a non-root joint whose
   * parent chain never reaches a root; the converse need not hold, since a
   * parent link named like a "<child>_f" frame is found in the same
   * registry. Every joint other than a root is attached after a joint that
   * registered its parent link, and the tree is the one `addJointFrame`
   * builds for the joints in that order.
   */
  method AttachJoints(tree: Tree.KinematicTree, joints: seq<JointElement>, origin: JointElement -> Mat4)
    returns (leftovers: seq<Value>, ghost attachOrder: seq<Value>)
    requires tree.Valid()
    requires tree.names == map[]
    modifies tree
    ensures tree.Valid()
    ensures var lm := LinkMapOf(joints);
            && (forall c :: c in leftovers ==> c in lm.joints && !IsRoot(lm, c))
            && (forall c :: c in lm.joints && c !in leftovers ==> NameOf(c) in tree.names)
            && (forall c, d :: Reaches(lm, c, d) ==> c !in leftovers)
            && (forall c :: c in attachOrder <==> c in lm.joints && c !in leftovers)
            && (forall i :: 0 <= i < |attachOrder| ==>
                  IsRoot(lm, attachOrder[i]) || NameOf(ParentLink(lm.joints[attachOrder[i]])) in FrameNames(attachOrder[..i]))
    ensures TreeState(tree.frames, tree.names, tree.coordinates)
         == JointsAttached(TreeState(old(tree.frames), old(tree.names), old(tree.coordinates)), LinkMapOf(joints), attachOrder,
                           origin)
  {
    ghost var st0 := TreeState(tree.frames, tree.names, tree.coordinates);
    var full, roots, lm := AttachLinkRoots(tree, joints, origin);
    var rest, order := ResolveLinks(tree, lm, full, roots, st0, origin);
    leftovers := rest.order;
    attachOrder := roots + order;
    ResolutionOutcome(full, roots, lm, rest, order, tree.names.Keys);
  }

  /**
   * What the loader's loops leave: the leftovers are non-root entries no
   * chain to a root passes through, every other entry is named in the tree,
   * the attach order holds exactly those other entries, and each non-root
   * in it comes after a joint that registered its parent link.
   */
  lemma {:induction false} ResolutionOutcome(full: LinkMap, roots: seq<Value>, lm: LinkMap, rest: LinkMap,
                                             order: seq<Value>, names: set<string>)
    requires WellFormed(full) && roots == RootsIn(full, full.order) && lm == DeleteAll(full, roots)
    requires WellFormed(lm) && SubMap(lm, full)
    requires forall c :: c in full.joints ==> (c in lm.joints <==> !IsRoot(full, c))
    requires forall c :: Reaches(full, c, |lm.order|) ==> c !in rest.joints
    requires Resolved(full, lm, roots, rest, order, names)
    ensures (forall c :: c in rest.order ==> c in full.joints && !IsRoot(full, c))
            && (forall c :: c in full.joints && c !in rest.order ==> NameOf(c) in names)
            && (forall c, d :: Reaches(full, c, d) ==> c !in rest.order)
            && (forall c :: c in roots + order <==> c in full.joints && c !in rest.order)
            && (forall i :: 0 <= i < |roots + order| ==>
                  (roots + order)[i] in full.joints
                  && (IsRoot(full, (roots + order)[i])
                      || NameOf(ParentLink(full.joints[(roots + order)[i]])) in FrameNames((roots + order)[..i])))
  {
    LeftoversOutcome(full, lm, rest, names);
    ParentsFirstKeys(full, lm, roots, order);
    AttachOrderKeys(full, roots, lm, rest, order);
    AttachOrderParentsFirst(full, roots, lm, order);
    KeysMembers(rest.order);
    KeysMembers(roots + order);
  }

  /**
   * `createKinematicTree(joints)` without a scene: AttachJoints, then the
   * final `tree.update()` (line 186), so that every frame holds its settled
   * world pose and twist.
   */
  method CreateKinematicTree(joints: seq<JointElement>, trig: Trig, toNumber: string -> real, norm: Vec3 -> real)
    returns (tree: Tree.KinematicTree, leftovers: seq<Value>, ghost attachOrder: seq<Value>)
    requires OnUnitCircle(trig) && NormFunction(norm)
    ensures fresh(tree) && tree.Valid() && tree.trig == trig
    ensures var lm := LinkMapOf(joints);
            && (forall c :: c in leftovers ==> c in lm.joints && !IsRoot(lm, c))
            && (forall c :: c in lm.joints && c !in leftovers ==> NameOf(c) in tree.names)
            && (forall c, d :: Reaches(lm, c, d) ==> c !in leftovers)
            && (forall c :: c in attachOrder <==> c in lm.joints && c !in leftovers)
            && (forall i :: 0 <= i < |attachOrder| ==>
                  IsRoot(lm, attachOrder[i]) || NameOf(ParentLink(lm.joints[attachOrder[i]])) in FrameNames(attachOrder[..i]))
    ensures var st := JointsAttached(TreeState([Tree.RootFrame()], map[], []), LinkMapOf(joints), attachOrder,
                                     Origins(trig, toNumber, norm));
            && tree.names == st.names && tree.coordinates == st.coordinates
            && Linked(st.frames) && tree.frames == SettledAll(st.frames, trig)
    ensures SettledAll(tree.frames, trig) == tree.frames
  {
    tree := new Tree.KinematicTree(trig);
    leftovers, attachOrder := AttachJoints(tree, joints, Origins(trig, toNumber, norm));
    ghost var before := tree.frames;
    assert Linked(before);
    tree.Update();
    UpdateIdempotent(before, trig);
  }
}
