/**
 * The se(3) "hat" form of a spatial velocity, stored in the same 4x4 shape
 * as a pose (src/app/twist.js).
 *
 * A twist vector is [tx, ty, tz, rx, ry, rz]: linear part first, angular
 * part second. `hat` writes nine cells of an existing matrix; a fresh
 * Twist is `hat` applied to the zero matrix.
 */
module Twist {
  import opened Pose

  /** The six entries of a twist vector. */
  predicate IsTwistVector(v: seq<real>)
  {
    |v| == 6
  }

  const ZeroVector: seq<real> := [0.0, 0.0, 0.0, 0.0, 0.0, 0.0]

  /**
   * `hat(twist)`: writes the translation column and the six off-diagonal
   * cells of the rotation block, in the order of the source, and nothing else.
   */
  function HatInto(m: Mat4, v: seq<real>): (r: Mat4)
    requires IsTwistVector(v)
    ensures r.m00 == m.m00 && r.m11 == m.m11 && r.m22 == m.m22
    ensures r.m30 == m.m30 && r.m31 == m.m31 && r.m32 == m.m32 && r.m33 == m.m33
    ensures Translation(r) == Vec3(v[0], v[1], v[2])
  {
    // The nine cells are distinct, so the source's nine `set` calls amount to one update.
    m.(m03 := v[0], m13 := v[1], m23 := v[2],
       m12 := -v[3], m02 := v[4], m01 := -v[5],
       m21 := v[3], m20 := -v[4], m10 := v[5])
  }

  /** `unhat()`: reads the translation column and three cells of the rotation block. */
  function Unhat(m: Mat4): (v: seq<real>)
    ensures IsTwistVector(v)
  {
    [m.m03, m.m13, m.m23, m.m21, m.m02, m.m10]
  }

  /** The Twist constructor: the zero matrix with `v` hatted into it. */
  function NewTwist(v: seq<real>): Mat4
    requires IsTwistVector(v)
  {
    HatInto(Zero, v)
  }

  /**
   * The se(3) shape: a skew-symmetric rotation block (zero diagonal) over a
   * zero bottom row; the translation column is free.
   */
  predicate Se3(m: Mat4)
  {
    m.m00 == 0.0 && m.m11 == 0.0 && m.m22 == 0.0
    && m.m01 == -m.m10 && m.m02 == -m.m20 && m.m12 == -m.m21
    && m.m30 == 0.0 && m.m31 == 0.0 && m.m32 == 0.0 && m.m33 == 0.0
  }

  /** `clone()`: a new Twist built from the unhatted vector of `m`. */
  function Clone(m: Mat4): Mat4
  {
    NewTwist(Unhat(m))
  }

  /** Elementwise sum (`Twist.add`). */
  function Add(a: Mat4, b: Mat4): Mat4
  {
    Mat4(a.m00 + b.m00, a.m01 + b.m01, a.m02 + b.m02, a.m03 + b.m03,
         a.m10 + b.m10, a.m11 + b.m11, a.m12 + b.m12, a.m13 + b.m13,
         a.m20 + b.m20, a.m21 + b.m21, a.m22 + b.m22, a.m23 + b.m23,
         a.m30 + b.m30, a.m31 + b.m31, a.m32 + b.m32, a.m33 + b.m33)
  }

  /** Elementwise difference (`Twist.subtract`). */
  function Subtract(a: Mat4, b: Mat4): Mat4
  {
    Mat4(a.m00 - b.m00, a.m01 - b.m01, a.m02 - b.m02, a.m03 - b.m03,
         a.m10 - b.m10, a.m11 - b.m11, a.m12 - b.m12, a.m13 - b.m13,
         a.m20 - b.m20, a.m21 - b.m21, a.m22 - b.m22, a.m23 - b.m23,
         a.m30 - b.m30, a.m31 - b.m31, a.m32 - b.m32, a.m33 - b.m33)
  }

  /** Elementwise scaling (`Twist.scale`). */
  function Scale(a: Mat4, k: real): Mat4
  {
    Mat4(a.m00 * k, a.m01 * k, a.m02 * k, a.m03 * k,
         a.m10 * k, a.m11 * k, a.m12 * k, a.m13 * k,
         a.m20 * k, a.m21 * k, a.m22 * k, a.m23 * k,
         a.m30 * k, a.m31 * k, a.m32 * k, a.m33 * k)
  }

  // ---------------------------------------------------------------------
  // hat and unhat
  // ---------------------------------------------------------------------

  /** unhat(hat(v)) = v, whatever matrix `v` is hatted into. */
  lemma UnhatHat(m: Mat4, v: seq<real>)
    requires IsTwistVector(v)
    ensures Unhat(HatInto(m, v)) == v
  {
  }

  /** A fresh Twist has the se(3) shape and carries v[0..2] in its translation column. */
  lemma NewTwistShape(v: seq<real>)
    requires IsTwistVector(v)
    ensures Se3(NewTwist(v))
    ensures Translation(NewTwist(v)) == Vec3(v[0], v[1], v[2])
    ensures Unhat(NewTwist(v)) == v
  {
  }

  /** The matrix `hat` builds from a twist vector, written out. */
  lemma NewTwistExplicit(v: seq<real>)
    requires IsTwistVector(v)
    ensures NewTwist(v) == Mat4(0.0, -v[5], v[4], v[0],
                                v[5], 0.0, -v[3], v[1],
                                -v[4], v[3], 0.0, v[2],
                                0.0, 0.0, 0.0, 0.0)
  {
  }

  /** `new Twist()` is the zero matrix. */
  lemma NewTwistZero()
    ensures NewTwist(ZeroVector) == Zero
  {
  }

  /** A matrix is rebuilt exactly by hat(unhat(.)) if and only if it has the se(3) shape. */
  lemma {:induction false} HatUnhat(m: Mat4)
    ensures NewTwist(Unhat(m)) == m <==> Se3(m)
  {
    NewTwistShape(Unhat(m));
  }

  /** `clone` is a projection: it keeps se(3) matrices and the twist vector of every matrix. */
  lemma {:induction false} CloneProjects(m: Mat4)
    ensures Se3(Clone(m))
    ensures Unhat(Clone(m)) == Unhat(m)
    ensures Clone(Clone(m)) == Clone(m)
    ensures Se3(m) ==> Clone(m) == m
  {
    NewTwistShape(Unhat(m));
    HatUnhat(m);
    HatUnhat(Clone(m));
  }

  // ---------------------------------------------------------------------
  // Linear structure
  // ---------------------------------------------------------------------

  function AddVector(a: seq<real>, b: seq<real>): (r: seq<real>)
    requires |a| == |b|
    ensures |r| == |a| && forall i :: 0 <= i < |r| ==> r[i] == a[i] + b[i]
  {
    seq(|a|, i requires 0 <= i < |a| => a[i] + b[i])
  }

  function SubtractVector(a: seq<real>, b: seq<real>): (r: seq<real>)
    requires |a| == |b|
    ensures |r| == |a| && forall i :: 0 <= i < |r| ==> r[i] == a[i] - b[i]
  {
    seq(|a|, i requires 0 <= i < |a| => a[i] - b[i])
  }

  function ScaleVector(a: seq<real>, k: real): (r: seq<real>)
    ensures |r| == |a| && forall i :: 0 <= i < |r| ==> r[i] == a[i] * k
  {
    seq(|a|, i requires 0 <= i < |a| => a[i] * k)
  }

  /** `unhat` is linear over `add`, `subtract` and `scale`. */
  lemma UnhatLinear(a: Mat4, b: Mat4, k: real)
    ensures Unhat(Add(a, b)) == AddVector(Unhat(a), Unhat(b))
    ensures Unhat(Subtract(a, b)) == SubtractVector(Unhat(a), Unhat(b))
    ensures Unhat(Scale(a, k)) == ScaleVector(Unhat(a), k)
  {
    var u, w := Unhat(Scale(a, k)), ScaleVector(Unhat(a), k);
    assert forall i :: 0 <= i < 6 ==> u[i] == w[i];
  }

  /** The se(3) matrices form a vector space. */
  lemma Se3Closed(a: Mat4, b: Mat4, k: real)
    requires Se3(a) && Se3(b)
    ensures Se3(Add(a, b)) && Se3(Subtract(a, b)) && Se3(Scale(a, k))
    ensures Se3(Zero)
  {
  }

  /** The rotation block of an se(3) matrix is the skew matrix of its angular part. */
  lemma Se3RotationIsHat(m: Mat4)
    requires Se3(m)
    ensures Rotation(m) == Hat3(Vec3(m.m21, m.m02, m.m10))
  {
  }

  /** Scaling distributes over a sum. */
  lemma ScaleAdd(a: Mat4, b: Mat4, k: real)
    ensures Scale(Add(a, b), k) == Add(Scale(a, k), Scale(b, k))
  {
    ScaleIsScalarMultiply(Add(a, b), k);
    MultiplyDistributesLeft(a, b, ScalarMatrix(k));
    ScaleIsScalarMultiply(a, k);
    ScaleIsScalarMultiply(b, k);
  }

  lemma AddZero(a: Mat4)
    ensures Add(a, Zero) == a && Add(Zero, a) == a
  {
  }

  lemma AddCommutes(a: Mat4, b: Mat4)
    ensures Add(a, b) == Add(b, a)
  {
  }

  lemma AddAssociates(a: Mat4, b: Mat4, c: Mat4)
    ensures Add(Add(a, b), c) == Add(a, Add(b, c))
  {
  }

  lemma ScaleZero(a: Mat4)
    ensures Scale(a, 0.0) == Zero && Scale(Zero, 0.0) == Zero
  {
  }

  lemma ScaleByZeroMatrix(k: real)
    ensures Scale(Zero, k) == Zero
  {
  }

  /** One entry of a (b + c), expanded. */
  lemma Dot4AddRight(x0: real, x1: real, x2: real, x3: real, y0: real, y1: real, y2: real, y3: real,
                     z0: real, z1: real, z2: real, z3: real)
    ensures Dot4(x0, x1, x2, x3, y0 + z0, y1 + z1, y2 + z2, y3 + z3)
         == Dot4(x0, x1, x2, x3, y0, y1, y2, y3) + Dot4(x0, x1, x2, x3, z0, z1, z2, z3)
    ensures Dot4(y0 + z0, y1 + z1, y2 + z2, y3 + z3, x0, x1, x2, x3)
         == Dot4(y0, y1, y2, y3, x0, x1, x2, x3) + Dot4(z0, z1, z2, z3, x0, x1, x2, x3)
  {
  }

  /** Multiplication distributes over `add` on the right factor. */
  lemma {:induction false} MultiplyDistributesRight(a: Mat4, b: Mat4, c: Mat4)
    ensures Multiply(a, Add(b, c)) == Add(Multiply(a, b), Multiply(a, c))
  {
    Dot4AddRight(a.m00, a.m01, a.m02, a.m03, b.m00, b.m10, b.m20, b.m30, c.m00, c.m10, c.m20, c.m30);
    Dot4AddRight(a.m00, a.m01, a.m02, a.m03, b.m01, b.m11, b.m21, b.m31, c.m01, c.m11, c.m21, c.m31);
    Dot4AddRight(a.m00, a.m01, a.m02, a.m03, b.m02, b.m12, b.m22, b.m32, c.m02, c.m12, c.m22, c.m32);
    Dot4AddRight(a.m00, a.m01, a.m02, a.m03, b.m03, b.m13, b.m23, b.m33, c.m03, c.m13, c.m23, c.m33);
    Dot4AddRight(a.m10, a.m11, a.m12, a.m13, b.m00, b.m10, b.m20, b.m30, c.m00, c.m10, c.m20, c.m30);
    Dot4AddRight(a.m10, a.m11, a.m12, a.m13, b.m01, b.m11, b.m21, b.m31, c.m01, c.m11, c.m21, c.m31);
    Dot4AddRight(a.m10, a.m11, a.m12, a.m13, b.m02, b.m12, b.m22, b.m32, c.m02, c.m12, c.m22, c.m32);
    Dot4AddRight(a.m10, a.m11, a.m12, a.m13, b.m03, b.m13, b.m23, b.m33, c.m03, c.m13, c.m23, c.m33);
    Dot4AddRight(a.m20, a.m21, a.m22, a.m23, b.m00, b.m10, b.m20, b.m30, c.m00, c.m10, c.m20, c.m30);
    Dot4AddRight(a.m20, a.m21, a.m22, a.m23, b.m01, b.m11, b.m21, b.m31, c.m01, c.m11, c.m21, c.m31);
    Dot4AddRight(a.m20, a.m21, a.m22, a.m23, b.m02, b.m12, b.m22, b.m32, c.m02, c.m12, c.m22, c.m32);
    Dot4AddRight(a.m20, a.m21, a.m22, a.m23, b.m03, b.m13, b.m23, b.m33, c.m03, c.m13, c.m23, c.m33);
    Dot4AddRight(a.m30, a.m31, a.m32, a.m33, b.m00, b.m10, b.m20, b.m30, c.m00, c.m10, c.m20, c.m30);
    Dot4AddRight(a.m30, a.m31, a.m32, a.m33, b.m01, b.m11, b.m21, b.m31, c.m01, c.m11, c.m21, c.m31);
    Dot4AddRight(a.m30, a.m31, a.m32, a.m33, b.m02, b.m12, b.m22, b.m32, c.m02, c.m12, c.m22, c.m32);
    Dot4AddRight(a.m30, a.m31, a.m32, a.m33, b.m03, b.m13, b.m23, b.m33, c.m03, c.m13, c.m23, c.m33);
  }

  /** Multiplication distributes over `add` on the left factor. */
  lemma {:induction false} MultiplyDistributesLeft(a: Mat4, b: Mat4, c: Mat4)
    ensures Multiply(Add(a, b), c) == Add(Multiply(a, c), Multiply(b, c))
  {
    Dot4AddRight(c.m00, c.m10, c.m20, c.m30, a.m00, a.m01, a.m02, a.m03, b.m00, b.m01, b.m02, b.m03);
    Dot4AddRight(c.m01, c.m11, c.m21, c.m31, a.m00, a.m01, a.m02, a.m03, b.m00, b.m01, b.m02, b.m03);
    Dot4AddRight(c.m02, c.m12, c.m22, c.m32, a.m00, a.m01, a.m02, a.m03, b.m00, b.m01, b.m02, b.m03);
    Dot4AddRight(c.m03, c.m13, c.m23, c.m33, a.m00, a.m01, a.m02, a.m03, b.m00, b.m01, b.m02, b.m03);
    Dot4AddRight(c.m00, c.m10, c.m20, c.m30, a.m10, a.m11, a.m12, a.m13, b.m10, b.m11, b.m12, b.m13);
    Dot4AddRight(c.m01, c.m11, c.m21, c.m31, a.m10, a.m11, a.m12, a.m13, b.m10, b.m11, b.m12, b.m13);
    Dot4AddRight(c.m02, c.m12, c.m22, c.m32, a.m10, a.m11, a.m12, a.m13, b.m10, b.m11, b.m12, b.m13);
    Dot4AddRight(c.m03, c.m13, c.m23, c.m33, a.m10, a.m11, a.m12, a.m13, b.m10, b.m11, b.m12, b.m13);
    Dot4AddRight(c.m00, c.m10, c.m20, c.m30, a.m20, a.m21, a.m22, a.m23, b.m20, b.m21, b.m22, b.m23);
    Dot4AddRight(c.m01, c.m11, c.m21, c.m31, a.m20, a.m21, a.m22, a.m23, b.m20, b.m21, b.m22, b.m23);
    Dot4AddRight(c.m02, c.m12, c.m22, c.m32, a.m20, a.m21, a.m22, a.m23, b.m20, b.m21, b.m22, b.m23);
    Dot4AddRight(c.m03, c.m13, c.m23, c.m33, a.m20, a.m21, a.m22, a.m23, b.m20, b.m21, b.m22, b.m23);
    Dot4AddRight(c.m00, c.m10, c.m20, c.m30, a.m30, a.m31, a.m32, a.m33, b.m30, b.m31, b.m32, b.m33);
    Dot4AddRight(c.m01, c.m11, c.m21, c.m31, a.m30, a.m31, a.m32, a.m33, b.m30, b.m31, b.m32, b.m33);
    Dot4AddRight(c.m02, c.m12, c.m22, c.m32, a.m30, a.m31, a.m32, a.m33, b.m30, b.m31, b.m32, b.m33);
    Dot4AddRight(c.m03, c.m13, c.m23, c.m33, a.m30, a.m31, a.m32, a.m33, b.m30, b.m31, b.m32, b.m33);
  }

  /** The matrix k I. */
  function ScalarMatrix(k: real): Mat4
  {
    Mat4(k, 0.0, 0.0, 0.0, 0.0, k, 0.0, 0.0, 0.0, 0.0, k, 0.0, 0.0, 0.0, 0.0, k)
  }

  /** A row times the scalar matrix is the row scaled. */
  lemma RowTimesScalarMatrix(x0: real, x1: real, x2: real, x3: real, k: real)
    ensures Dot4(x0, x1, x2, x3, k, 0.0, 0.0, 0.0) == x0 * k
    ensures Dot4(x0, x1, x2, x3, 0.0, k, 0.0, 0.0) == x1 * k
    ensures Dot4(x0, x1, x2, x3, 0.0, 0.0, k, 0.0) == x2 * k
    ensures Dot4(x0, x1, x2, x3, 0.0, 0.0, 0.0, k) == x3 * k
  {
  }

  /** Row 0 of a times the scalar matrix is row 0 of a, scaled. */
  lemma ScalarMultiplyRow0(a: Mat4, k: real)
    ensures var m, s := Multiply(a, ScalarMatrix(k)), Scale(a, k);
            m.m00 == s.m00 && m.m01 == s.m01 && m.m02 == s.m02 && m.m03 == s.m03
  {
    RowTimesScalarMatrix(a.m00, a.m01, a.m02, a.m03, k);
    var m := Multiply(a, ScalarMatrix(k));
    assert m.m00 == Dot4(a.m00, a.m01, a.m02, a.m03, k, 0.0, 0.0, 0.0);
    assert m.m01 == Dot4(a.m00, a.m01, a.m02, a.m03, 0.0, k, 0.0, 0.0);
    assert m.m02 == Dot4(a.m00, a.m01, a.m02, a.m03, 0.0, 0.0, k, 0.0);
    assert m.m03 == Dot4(a.m00, a.m01, a.m02, a.m03, 0.0, 0.0, 0.0, k);
  }

  /** Row 1 of a times the scalar matrix is row 1 of a, scaled. */
  lemma ScalarMultiplyRow1(a: Mat4, k: real)
    ensures var m, s := Multiply(a, ScalarMatrix(k)), Scale(a, k);
            m.m10 == s.m10 && m.m11 == s.m11 && m.m12 == s.m12 && m.m13 == s.m13
  {
    RowTimesScalarMatrix(a.m10, a.m11, a.m12, a.m13, k);
    var m := Multiply(a, ScalarMatrix(k));
    assert m.m10 == Dot4(a.m10, a.m11, a.m12, a.m13, k, 0.0, 0.0, 0.0);
    assert m.m11 == Dot4(a.m10, a.m11, a.m12, a.m13, 0.0, k, 0.0, 0.0);
    assert m.m12 == Dot4(a.m10, a.m11, a.m12, a.m13, 0.0, 0.0, k, 0.0);
    assert m.m13 == Dot4(a.m10, a.m11, a.m12, a.m13, 0.0, 0.0, 0.0, k);
  }

  /** Row 2 of a times the scalar matrix is row 2 of a, scaled. */
  lemma ScalarMultiplyRow2(a: Mat4, k: real)
    ensures var m, s := Multiply(a, ScalarMatrix(k)), Scale(a, k);
            m.m20 == s.m20 && m.m21 == s.m21 && m.m22 == s.m22 && m.m23 == s.m23
  {
    RowTimesScalarMatrix(a.m20, a.m21, a.m22, a.m23, k);
    var m := Multiply(a, ScalarMatrix(k));
    assert m.m20 == Dot4(a.m20, a.m21, a.m22, a.m23, k, 0.0, 0.0, 0.0);
    assert m.m21 == Dot4(a.m20, a.m21, a.m22, a.m23, 0.0, k, 0.0, 0.0);
    assert m.m22 == Dot4(a.m20, a.m21, a.m22, a.m23, 0.0, 0.0, k, 0.0);
    assert m.m23 == Dot4(a.m20, a.m21, a.m22, a.m23, 0.0, 0.0, 0.0, k);
  }

  /** Row 3 of a times the scalar matrix is row 3 of a, scaled. */
  lemma ScalarMultiplyRow3(a: Mat4, k: real)
    ensures var m, s := Multiply(a, ScalarMatrix(k)), Scale(a, k);
            m.m30 == s.m30 && m.m31 == s.m31 && m.m32 == s.m32 && m.m33 == s.m33
  {
    RowTimesScalarMatrix(a.m30, a.m31, a.m32, a.m33, k);
    var m := Multiply(a, ScalarMatrix(k));
    assert m.m30 == Dot4(a.m30, a.m31, a.m32, a.m33, k, 0.0, 0.0, 0.0);
    assert m.m31 == Dot4(a.m30, a.m31, a.m32, a.m33, 0.0, k, 0.0, 0.0);
    assert m.m32 == Dot4(a.m30, a.m31, a.m32, a.m33, 0.0, 0.0, k, 0.0);
    assert m.m33 == Dot4(a.m30, a.m31, a.m32, a.m33, 0.0, 0.0, 0.0, k);
  }

  lemma {:induction false} ScaleIsScalarMultiply(a: Mat4, k: real)
    ensures Multiply(a, ScalarMatrix(k)) == Scale(a, k)
  {
    ScalarMultiplyRow0(a, k);
    ScalarMultiplyRow1(a, k);
    ScalarMultiplyRow2(a, k);
    ScalarMultiplyRow3(a, k);
  }

  /** Scaling commutes with multiplication on the right factor. */
  lemma {:induction false} MultiplyScale(a: Mat4, b: Mat4, k: real)
    ensures Multiply(a, Scale(b, k)) == Scale(Multiply(a, b), k)
  {
    ScaleIsScalarMultiply(b, k);
    ScaleIsScalarMultiply(Multiply(a, b), k);
    MultiplyAssoc(a, b, ScalarMatrix(k));
  }

  /**
   * Conjugation a * (m * b), the form in which the source carries a parent
   * twist into a child frame, is linear in m.
   */
  lemma {:induction false} ConjugateLinear(a: Mat4, m: Mat4, n: Mat4, b: Mat4, k: real)
    ensures Multiply(a, Multiply(Add(m, n), b)) == Add(Multiply(a, Multiply(m, b)), Multiply(a, Multiply(n, b)))
    ensures Multiply(a, Multiply(Scale(m, k), b)) == Scale(Multiply(a, Multiply(m, b)), k)
    ensures Multiply(a, Multiply(Zero, b)) == Zero
  {
    MultiplyDistributesLeft(m, n, b);
    MultiplyDistributesRight(a, Multiply(m, b), Multiply(n, b));
    // (k m) b = (m b) k, through the scalar matrix and associativity.
    ScaleIsScalarMultiply(m, k);
    MultiplyAssoc(m, ScalarMatrix(k), b);
    assert Multiply(ScalarMatrix(k), b) == Multiply(b, ScalarMatrix(k));
    MultiplyAssoc(m, b, ScalarMatrix(k));
    ScaleIsScalarMultiply(Multiply(m, b), k);
    MultiplyScale(a, Multiply(m, b), k);
    MultiplyZero(b);
    MultiplyZero(a);
  }
}
