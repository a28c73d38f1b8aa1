/**
 * Rigid transforms as 4x4 homogeneous matrices over the reals
 * (src/app/pose.js).
 *
 * Every Pose operation of the source builds a fresh object (`clone`,
 * `multiply`, `inv`, `translate`, ...), and no Pose is ever shared between
 * two owners, so a pose is modelled as an immutable value of type `Mat4`.
 * The in-place writers `set`, `setTranslation` and `setRotationMatrix`
 * become functions that return the updated matrix.
 */
module Pose {

  /** The length below which `createPoseFromAxis` treats a vector as zero (1.0e-12). */
  const EPSILON: real := 0.000000000001

  // ---------------------------------------------------------------------
  // Scalar building blocks. Every matrix product goes through these two
  // functions so that the solver can treat an entry as one term.
  // ---------------------------------------------------------------------

  function Dot3(x0: real, x1: real, x2: real, y0: real, y1: real, y2: real): real
  {
    x0 * y0 + x1 * y1 + x2 * y2
  }

  function Dot4(x0: real, x1: real, x2: real, x3: real, y0: real, y1: real, y2: real, y3: real): real
  {
    x0 * y0 + x1 * y1 + x2 * y2 + x3 * y3
  }

  /** One entry of (a b) c equals the same entry of a (b c), for 3x3 matrices. */
  lemma Dot3Assoc(a0: real, a1: real, a2: real,
                  b00: real, b01: real, b02: real,
                  b10: real, b11: real, b12: real,
                  b20: real, b21: real, b22: real,
                  c0: real, c1: real, c2: real)
    ensures Dot3(Dot3(a0, a1, a2, b00, b10, b20), Dot3(a0, a1, a2, b01, b11, b21), Dot3(a0, a1, a2, b02, b12, b22), c0, c1, c2)
         == Dot3(a0, a1, a2, Dot3(b00, b01, b02, c0, c1, c2), Dot3(b10, b11, b12, c0, c1, c2), Dot3(b20, b21, b22, c0, c1, c2))
  {
  }

  lemma Dot4TimesScalar(x0: real, x1: real, x2: real, x3: real, y0: real, y1: real, y2: real, y3: real, k: real)
    ensures Dot4(x0, x1, x2, x3, y0, y1, y2, y3) * k == x0 * (y0 * k) + x1 * (y1 * k) + x2 * (y2 * k) + x3 * (y3 * k)
  {
  }

  lemma ScalarTimesDot4(k: real, x0: real, x1: real, x2: real, x3: real, y0: real, y1: real, y2: real, y3: real)
    ensures k * Dot4(x0, x1, x2, x3, y0, y1, y2, y3) == k * (x0 * y0) + k * (x1 * y1) + k * (x2 * y2) + k * (x3 * y3)
  {
  }

  /** One entry of (a b) c equals the same entry of a (b c), for 4x4 matrices. */
  lemma Dot4Assoc(a0: real, a1: real, a2: real, a3: real,
                  b00: real, b01: real, b02: real, b03: real,
                  b10: real, b11: real, b12: real, b13: real,
                  b20: real, b21: real, b22: real, b23: real,
                  b30: real, b31: real, b32: real, b33: real,
                  c0: real, c1: real, c2: real, c3: real)
    ensures Dot4(Dot4(a0, a1, a2, a3, b00, b10, b20, b30), Dot4(a0, a1, a2, a3, b01, b11, b21, b31),
                 Dot4(a0, a1, a2, a3, b02, b12, b22, b32), Dot4(a0, a1, a2, a3, b03, b13, b23, b33), c0, c1, c2, c3)
         == Dot4(a0, a1, a2, a3, Dot4(b00, b01, b02, b03, c0, c1, c2, c3), Dot4(b10, b11, b12, b13, c0, c1, c2, c3),
                 Dot4(b20, b21, b22, b23, c0, c1, c2, c3), Dot4(b30, b31, b32, b33, c0, c1, c2, c3))
  {
    // Both sides are the sum of the 16 products a_i (b_ij c_j).
    Dot4TimesScalar(a0, a1, a2, a3, b00, b10, b20, b30, c0);
    Dot4TimesScalar(a0, a1, a2, a3, b01, b11, b21, b31, c1);
    Dot4TimesScalar(a0, a1, a2, a3, b02, b12, b22, b32, c2);
    Dot4TimesScalar(a0, a1, a2, a3, b03, b13, b23, b33, c3);
    ScalarTimesDot4(a0, b00, b01, b02, b03, c0, c1, c2, c3);
    ScalarTimesDot4(a1, b10, b11, b12, b13, c0, c1, c2, c3);
    ScalarTimesDot4(a2, b20, b21, b22, b23, c0, c1, c2, c3);
    ScalarTimesDot4(a3, b30, b31, b32, b33, c0, c1, c2, c3);
  }

  // ---------------------------------------------------------------------
  // 3-vectors
  // ---------------------------------------------------------------------

  datatype Vec3 = Vec3(x: real, y: real, z: real)

  const Origin: Vec3 := Vec3(0.0, 0.0, 0.0)
  const UnitX: Vec3 := Vec3(1.0, 0.0, 0.0)
  const UnitY: Vec3 := Vec3(0.0, 1.0, 0.0)

  function Dot(a: Vec3, b: Vec3): real
  {
    Dot3(a.x, a.y, a.z, b.x, b.y, b.z)
  }

  function Cross(a: Vec3, b: Vec3): Vec3
  {
    Vec3(a.y * b.z - a.z * b.y, a.z * b.x - a.x * b.z, a.x * b.y - a.y * b.x)
  }

  function Plus(a: Vec3, b: Vec3): Vec3
  {
    Vec3(a.x + b.x, a.y + b.y, a.z + b.z)
  }

  function Scaled(a: Vec3, k: real): Vec3
  {
    Vec3(a.x * k, a.y * k, a.z * k)
  }

  function Divided(a: Vec3, k: real): Vec3
    requires k != 0.0
  {
    Vec3(a.x / k, a.y / k, a.z / k)
  }

  /** `n` is the Euclidean length of `v` (the model's stand-in for `math.norm`). */
  predicate IsNorm(v: Vec3, n: real)
  {
    n >= 0.0 && n * n == Dot(v, v)
  }

  /** A cross product is orthogonal to both of its factors. */
  lemma CrossOrthogonal(a: Vec3, b: Vec3)
    ensures Dot(Cross(a, b), a) == 0.0 && Dot(Cross(a, b), b) == 0.0
  {
  }

  /** Lagrange's identity: |a x b|^2 = |a|^2 |b|^2 - (a . b)^2. */
  lemma Lagrange(a: Vec3, b: Vec3)
    ensures Dot(Cross(a, b), Cross(a, b)) == Dot(a, a) * Dot(b, b) - Dot(a, b) * Dot(a, b)
  {
  }

  /** The scalar triple product is invariant under cyclic permutation. */
  lemma TripleCyclic(a: Vec3, b: Vec3, c: Vec3)
    ensures Dot(a, Cross(b, c)) == Dot(b, Cross(c, a))
  {
  }

  lemma DotSymmetric(a: Vec3, b: Vec3)
    ensures Dot(a, b) == Dot(b, a)
  {
  }

  /** Dividing a vector by its length gives a unit vector. */
  lemma {:induction false} DividedByNormIsUnit(v: Vec3, n: real)
    requires IsNorm(v, n) && n > 0.0
    ensures Dot(Divided(v, n), Divided(v, n)) == 1.0
  {
    var u := Divided(v, n);
    assert Scaled(u, n) == v;
    ScaledUnit(v, u, n);
  }

  lemma {:induction false} ScaledUnit(v: Vec3, u: Vec3, n: real)
    requires IsNorm(v, n) && n > 0.0 && Scaled(u, n) == v
    ensures Dot(u, u) == 1.0
  {
    ScaledDot(u, n);
    CancelSquare(n, n, Dot(u, u), Dot(v, v));
  }

  /**
   * Cancels a positive square. The square is written n * m with n == m:
   * the solver handles a product of two names more reliably than n * n.
   */
  lemma CancelSquare(n: real, m: real, x: real, a: real)
    requires n > 0.0 && n == m && a == n * m * x && n * m == a
    ensures x == 1.0
  {
    assert n * m * (x - 1.0) == 0.0;
    assert n * m != 0.0;
  }

  lemma ScaledDot(v: Vec3, k: real)
    ensures Dot(Scaled(v, k), Scaled(v, k)) == k * k * Dot(v, v)
  {
  }

  /** Dividing either factor by a non-zero scalar divides a dot product by it. */
  lemma DotDivided(a: Vec3, b: Vec3, k: real)
    requires k != 0.0
    ensures Dot(Divided(a, k), b) == Dot(a, b) / k
    ensures Dot(a, Divided(b, k)) == Dot(a, b) / k
  {
  }

  // ---------------------------------------------------------------------
  // 3x3 matrices (the rotation block of a pose)
  // ---------------------------------------------------------------------

  datatype Mat3 = Mat3(
    r00: real, r01: real, r02: real,
    r10: real, r11: real, r12: real,
    r20: real, r21: real, r22: real)

  const Identity3: Mat3 := Mat3(1.0, 0.0, 0.0, 0.0, 1.0, 0.0, 0.0, 0.0, 1.0)

  function Mul3(a: Mat3, b: Mat3): Mat3
  {
    Mat3(
      Dot3(a.r00, a.r01, a.r02, b.r00, b.r10, b.r20),
      Dot3(a.r00, a.r01, a.r02, b.r01, b.r11, b.r21),
      Dot3(a.r00, a.r01, a.r02, b.r02, b.r12, b.r22),
      Dot3(a.r10, a.r11, a.r12, b.r00, b.r10, b.r20),
      Dot3(a.r10, a.r11, a.r12, b.r01, b.r11, b.r21),
      Dot3(a.r10, a.r11, a.r12, b.r02, b.r12, b.r22),
      Dot3(a.r20, a.r21, a.r22, b.r00, b.r10, b.r20),
      Dot3(a.r20, a.r21, a.r22, b.r01, b.r11, b.r21),
      Dot3(a.r20, a.r21, a.r22, b.r02, b.r12, b.r22))
  }

  function Transpose3(a: Mat3): Mat3
  {
    Mat3(a.r00, a.r10, a.r20, a.r01, a.r11, a.r21, a.r02, a.r12, a.r22)
  }

  function Scale3(a: Mat3, k: real): Mat3
  {
    Mat3(a.r00 * k, a.r01 * k, a.r02 * k, a.r10 * k, a.r11 * k, a.r12 * k, a.r20 * k, a.r21 * k, a.r22 * k)
  }

  /** The matrix whose columns are x, y and z. */
  function Columns3(x: Vec3, y: Vec3, z: Vec3): Mat3
  {
    Mat3(x.x, y.x, z.x, x.y, y.y, z.y, x.z, y.z, z.z)
  }

  function Column3(a: Mat3, j: nat): Vec3
    requires j < 3
  {
    if j == 0 then Vec3(a.r00, a.r10, a.r20)
    else if j == 1 then Vec3(a.r01, a.r11, a.r21)
    else Vec3(a.r02, a.r12, a.r22)
  }

  /** The matrix-vector product a v. */
  function Apply3(a: Mat3, v: Vec3): Vec3
  {
    Vec3(Dot3(a.r00, a.r01, a.r02, v.x, v.y, v.z),
         Dot3(a.r10, a.r11, a.r12, v.x, v.y, v.z),
         Dot3(a.r20, a.r21, a.r22, v.x, v.y, v.z))
  }

  /** The determinant, as the triple product of the columns. */
  function Det3(a: Mat3): real
  {
    Dot(Column3(a, 0), Cross(Column3(a, 1), Column3(a, 2)))
  }

  /** The adjugate: its rows are the cross products of pairs of columns. */
  function Adjugate3(a: Mat3): Mat3
  {
    var c0, c1, c2 := Column3(a, 0), Column3(a, 1), Column3(a, 2);
    var u, v, w := Cross(c1, c2), Cross(c2, c0), Cross(c0, c1);
    Mat3(u.x, u.y, u.z, v.x, v.y, v.z, w.x, w.y, w.z)
  }

  /** The skew matrix of w: Hat3(w) v is the cross product w x v. */
  function Hat3(w: Vec3): Mat3
  {
    Mat3(0.0, -w.z, w.y, w.z, 0.0, -w.x, -w.y, w.x, 0.0)
  }

  lemma HatIsCross(w: Vec3, v: Vec3)
    ensures Apply3(Hat3(w), v) == Cross(w, v)
  {
  }

  /** Columns of unit length, pairwise orthogonal: a^T a = I. */
  predicate Orthonormal(a: Mat3)
  {
    Mul3(Transpose3(a), a) == Identity3
  }

  lemma Mul3Assoc(a: Mat3, b: Mat3, c: Mat3)
    ensures Mul3(Mul3(a, b), c) == Mul3(a, Mul3(b, c))
  {
    Dot3Assoc(a.r00, a.r01, a.r02, b.r00, b.r01, b.r02, b.r10, b.r11, b.r12, b.r20, b.r21, b.r22, c.r00, c.r10, c.r20);
    Dot3Assoc(a.r00, a.r01, a.r02, b.r00, b.r01, b.r02, b.r10, b.r11, b.r12, b.r20, b.r21, b.r22, c.r01, c.r11, c.r21);
    Dot3Assoc(a.r00, a.r01, a.r02, b.r00, b.r01, b.r02, b.r10, b.r11, b.r12, b.r20, b.r21, b.r22, c.r02, c.r12, c.r22);
    Dot3Assoc(a.r10, a.r11, a.r12, b.r00, b.r01, b.r02, b.r10, b.r11, b.r12, b.r20, b.r21, b.r22, c.r00, c.r10, c.r20);
    Dot3Assoc(a.r10, a.r11, a.r12, b.r00, b.r01, b.r02, b.r10, b.r11, b.r12, b.r20, b.r21, b.r22, c.r01, c.r11, c.r21);
    Dot3Assoc(a.r10, a.r11, a.r12, b.r00, b.r01, b.r02, b.r10, b.r11, b.r12, b.r20, b.r21, b.r22, c.r02, c.r12, c.r22);
    Dot3Assoc(a.r20, a.r21, a.r22, b.r00, b.r01, b.r02, b.r10, b.r11, b.r12, b.r20, b.r21, b.r22, c.r00, c.r10, c.r20);
    Dot3Assoc(a.r20, a.r21, a.r22, b.r00, b.r01, b.r02, b.r10, b.r11, b.r12, b.r20, b.r21, b.r22, c.r01, c.r11, c.r21);
    Dot3Assoc(a.r20, a.r21, a.r22, b.r00, b.r01, b.r02, b.r10, b.r11, b.r12, b.r20, b.r21, b.r22, c.r02, c.r12, c.r22);
  }

  /** Applying b and then a is applying a b. */
  lemma Apply3Mul3(a: Mat3, b: Mat3, v: Vec3)
    ensures Apply3(a, Apply3(b, v)) == Apply3(Mul3(a, b), v)
  {
    Dot3Assoc(a.r00, a.r01, a.r02, b.r00, b.r01, b.r02, b.r10, b.r11, b.r12, b.r20, b.r21, b.r22, v.x, v.y, v.z);
    Dot3Assoc(a.r10, a.r11, a.r12, b.r00, b.r01, b.r02, b.r10, b.r11, b.r12, b.r20, b.r21, b.r22, v.x, v.y, v.z);
    Dot3Assoc(a.r20, a.r21, a.r22, b.r00, b.r01, b.r02, b.r10, b.r11, b.r12, b.r20, b.r21, b.r22, v.x, v.y, v.z);
  }

  lemma Mul3Identity(a: Mat3)
    ensures Mul3(Identity3, a) == a && Mul3(a, Identity3) == a
  {
  }

  lemma Transpose3Mul3(a: Mat3, b: Mat3)
    ensures Transpose3(Mul3(a, b)) == Mul3(Transpose3(b), Transpose3(a))
  {
  }

  /** Row 0 of a adj(a): det(a) on the diagonal, zero elsewhere. */
  lemma MulAdjugate3Row0(a: Mat3)
    ensures var m := Mul3(a, Adjugate3(a)); m.r00 == Det3(a) && m.r01 == 0.0 && m.r02 == 0.0
  {
  }

  /** Row 1 of a adj(a). */
  lemma MulAdjugate3Row1(a: Mat3)
    ensures var m := Mul3(a, Adjugate3(a)); m.r10 == 0.0 && m.r11 == Det3(a) && m.r12 == 0.0
  {
  }

  /** Row 2 of a adj(a). */
  lemma MulAdjugate3Row2(a: Mat3)
    ensures var m := Mul3(a, Adjugate3(a)); m.r20 == 0.0 && m.r21 == 0.0 && m.r22 == Det3(a)
  {
  }

  /** a adj(a) = det(a) I for every 3x3 matrix. */
  lemma {:induction false} MulAdjugate3(a: Mat3)
    ensures Mul3(a, Adjugate3(a)) == Scale3(Identity3, Det3(a))
  {
    MulAdjugate3Row0(a);
    MulAdjugate3Row1(a);
    MulAdjugate3Row2(a);
  }

  /** Scaling a matrix is multiplying it by a scalar matrix, on either side. */
  lemma ScaleIsScalarMul(m: Mat3, k: real)
    ensures Mul3(m, Scale3(Identity3, k)) == Scale3(m, k)
    ensures Mul3(Scale3(Identity3, k), m) == Scale3(m, k)
  {
  }

  lemma {:induction false} Mul3Scale(a: Mat3, b: Mat3, k: real)
    ensures Mul3(a, Scale3(b, k)) == Scale3(Mul3(a, b), k)
  {
    var d := Scale3(Identity3, k);
    ScaleIsScalarMul(b, k);
    ScaleIsScalarMul(Mul3(a, b), k);
    Mul3Assoc(a, b, d);
  }

  /** For an orthonormal matrix the adjugate is det(a) a^T. */
  lemma {:induction false} AdjugateOfOrthonormal(a: Mat3)
    requires Orthonormal(a)
    ensures Adjugate3(a) == Scale3(Transpose3(a), Det3(a))
  {
    var t, adj, d := Transpose3(a), Adjugate3(a), Det3(a);
    MulAdjugate3(a);
    Mul3Assoc(t, a, adj);
    Mul3Identity(adj);
    Mul3Scale(t, Identity3, d);
    Mul3Identity(t);
  }

  /** The determinant of an orthonormal matrix is 1 or -1. */
  lemma {:induction false} DetOfOrthonormal(a: Mat3)
    requires Orthonormal(a)
    ensures Det3(a) == 1.0 || Det3(a) == -1.0
  {
    var d := Det3(a);
    var c0, c1, c2 := Column3(a, 0), Column3(a, 1), Column3(a, 2);
    assert Dot(c0, c0) == 1.0 && Dot(c1, c1) == 1.0 && Dot(c0, c1) == 0.0 && Dot(c2, c2) == 1.0;
    AdjugateOfOrthonormal(a);
    assert Cross(c0, c1) == Scaled(c2, d);
    Lagrange(c0, c1);
    assert Dot(Cross(c0, c1), Cross(c0, c1)) == 1.0;
    ScaledDot(c2, d);
    assert Dot(Scaled(c2, d), Scaled(c2, d)) == d * d;
    assert Dot(Cross(c0, c1), Cross(c0, c1)) == Dot(Scaled(c2, d), Scaled(c2, d));
    UnitSquare(d);
  }

  lemma UnitSquare(d: real)
    requires d * d == 1.0
    ensures d == 1.0 || d == -1.0
  {
    assert (d - 1.0) * (d + 1.0) == 0.0;
  }

  /** An orthonormal matrix is also a right inverse of its transpose: a a^T = I. */
  lemma {:induction false} OrthonormalRightInverse(a: Mat3)
    requires Orthonormal(a)
    ensures Mul3(a, Transpose3(a)) == Identity3
  {
    var t, d := Transpose3(a), Det3(a);
    MulAdjugate3(a);
    AdjugateOfOrthonormal(a);
    DetOfOrthonormal(a);
    Mul3Scale(a, t, d);
    var p := Mul3(a, t);
    assert Scale3(p, d) == Scale3(Identity3, d);
    CancelScale3(p, Identity3, d);
  }

  lemma CancelScale3(p: Mat3, q: Mat3, d: real)
    requires d == 1.0 || d == -1.0
    requires Scale3(p, d) == Scale3(q, d)
    ensures p == q
  {
  }

  /** The product of orthonormal matrices is orthonormal. */
  lemma {:induction false} OrthonormalMul(a: Mat3, b: Mat3)
    requires Orthonormal(a) && Orthonormal(b)
    ensures Orthonormal(Mul3(a, b))
  {
    var ta, tb := Transpose3(a), Transpose3(b);
    Transpose3Mul3(a, b);
    Mul3Assoc(tb, ta, Mul3(a, b));
    Mul3Assoc(ta, a, b);
    Mul3Identity(b);
  }

  /** Entry (i, j) of r [w]x r^T is row_i . (w x row_j). */
  lemma ConjugateHat3Entries(r: Mat3, w: Vec3)
    ensures var m, a, b, c := Mul3(Mul3(r, Hat3(w)), Transpose3(r)), Column3(Transpose3(r), 0), Column3(Transpose3(r), 1), Column3(Transpose3(r), 2);
            m.r00 == Dot(a, Cross(w, a)) && m.r01 == Dot(a, Cross(w, b)) && m.r02 == Dot(a, Cross(w, c))
            && m.r10 == Dot(b, Cross(w, a)) && m.r11 == Dot(b, Cross(w, b)) && m.r12 == Dot(b, Cross(w, c))
            && m.r20 == Dot(c, Cross(w, a)) && m.r21 == Dot(c, Cross(w, b)) && m.r22 == Dot(c, Cross(w, c))
  {
    var h, t := Hat3(w), Transpose3(r);
    Mul3Assoc(r, h, t);
    var n := Mul3(h, t);
    HatIsCross(w, Column3(t, 0));
    HatIsCross(w, Column3(t, 1));
    HatIsCross(w, Column3(t, 2));
    assert Column3(n, 0) == Apply3(h, Column3(t, 0));
    assert Column3(n, 1) == Apply3(h, Column3(t, 1));
    assert Column3(n, 2) == Apply3(h, Column3(t, 2));
  }

  /** u . (w x v) = w . (v x u), and it vanishes when u = v. */
  lemma {:induction false} TripleSwap(u: Vec3, v: Vec3, w: Vec3)
    ensures Dot(u, Cross(w, v)) == Dot(w, Cross(v, u))
    ensures Dot(u, Cross(w, u)) == 0.0
  {
    TripleCyclic(u, w, v);
    CrossOrthogonal(w, u);
    DotSymmetric(Cross(w, u), u);
  }

  /**
   * Conjugating a skew matrix gives a skew matrix: r [w]x r^T = [v]x, where
   * v is the adjugate of r^T (whose rows are the cross products of pairs of
   * rows of r) applied to w.
   */
  lemma {:induction false} ConjugateHat3(r: Mat3, w: Vec3)
    ensures Mul3(Mul3(r, Hat3(w)), Transpose3(r)) == Hat3(Apply3(Adjugate3(Transpose3(r)), w))
  {
    var t := Transpose3(r);
    var a, b, c := Column3(t, 0), Column3(t, 1), Column3(t, 2);
    ConjugateHat3Entries(r, w);
    TripleSwap(a, a, w);
    TripleSwap(b, b, w);
    TripleSwap(c, c, w);
    TripleSwap(a, b, w);
    TripleSwap(b, a, w);
    TripleSwap(a, c, w);
    TripleSwap(c, a, w);
    TripleSwap(b, c, w);
    TripleSwap(c, b, w);
    var v := Apply3(Adjugate3(t), w);
    assert v == Vec3(Dot(Cross(b, c), w), Dot(Cross(c, a), w), Dot(Cross(a, b), w));
    DotSymmetric(Cross(b, c), w);
    DotSymmetric(Cross(c, a), w);
    DotSymmetric(Cross(a, b), w);
  }

  /** For an orthonormal r the rows' cross products are det(r) times the rows, so r [w]x r^T = [det(r) r w]x. */
  lemma {:induction false} ConjugateHat3Orthonormal(r: Mat3, w: Vec3)
    requires Orthonormal(r)
    ensures Mul3(Mul3(r, Hat3(w)), Transpose3(r)) == Hat3(Scaled(Apply3(r, w), Det3(r)))
  {
    var t, d := Transpose3(r), Det3(r);
    ConjugateHat3(r, w);
    OrthonormalRightInverse(r);
    assert Orthonormal(t);
    AdjugateOfOrthonormal(t);
    Det3Transpose(r);
    assert Adjugate3(t) == Scale3(r, d);
    ScaledApply3(r, w, d);
  }

  lemma {:induction false} ScaledApply3(r: Mat3, w: Vec3, d: real)
    ensures Apply3(Scale3(r, d), w) == Scaled(Apply3(r, w), d)
  {
    ScaleIsScalarMul(r, d);
    Apply3Mul3(Scale3(Identity3, d), r, w);
    ApplyScalar3(Apply3(r, w), d);
  }

  lemma ApplyScalar3(v: Vec3, d: real)
    ensures Apply3(Scale3(Identity3, d), v) == Scaled(v, d)
  {
  }

  /** Transposing keeps the determinant. */
  lemma Det3Transpose(a: Mat3)
    ensures Det3(Transpose3(a)) == Det3(a)
  {
  }

  // ---------------------------------------------------------------------
  // 4x4 homogeneous matrices
  // ---------------------------------------------------------------------

  /** The `homogeneous_transform` of a Pose (and of a Twist). */
  datatype Mat4 = Mat4(
    m00: real, m01: real, m02: real, m03: real,
    m10: real, m11: real, m12: real, m13: real,
    m20: real, m21: real, m22: real, m23: real,
    m30: real, m31: real, m32: real, m33: real)
  {
    /** Reads one cell (`Pose.get`). */
    function Get(i: nat, j: nat): real
      requires i < 4 && j < 4
    {
      if i == 0 then (if j == 0 then m00 else if j == 1 then m01 else if j == 2 then m02 else m03)
      else if i == 1 then (if j == 0 then m10 else if j == 1 then m11 else if j == 2 then m12 else m13)
      else if i == 2 then (if j == 0 then m20 else if j == 1 then m21 else if j == 2 then m22 else m23)
      else (if j == 0 then m30 else if j == 1 then m31 else if j == 2 then m32 else m33)
    }

    /** Overwrites one cell (`Pose.set`): the cell reads back `v`, every other cell is unchanged. */
    function Set(i: nat, j: nat, v: real): (r: Mat4)
      requires i < 4 && j < 4
      ensures r.Get(i, j) == v
      ensures forall a: nat, b: nat :: a < 4 && b < 4 && (a != i || b != j) ==> r.Get(a, b) == Get(a, b)
    {
      if i == 0 then (if j == 0 then this.(m00 := v) else if j == 1 then this.(m01 := v) else if j == 2 then this.(m02 := v) else this.(m03 := v))
      else if i == 1 then (if j == 0 then this.(m10 := v) else if j == 1 then this.(m11 := v) else if j == 2 then this.(m12 := v) else this.(m13 := v))
      else if i == 2 then (if j == 0 then this.(m20 := v) else if j == 1 then this.(m21 := v) else if j == 2 then this.(m22 := v) else this.(m23 := v))
      else (if j == 0 then this.(m30 := v) else if j == 1 then this.(m31 := v) else if j == 2 then this.(m32 := v) else this.(m33 := v))
    }
  }

  /** `math.identity(4)`, the default Pose (`createPoseIdentity`). */
  const Identity: Mat4 := Mat4(1.0, 0.0, 0.0, 0.0, 0.0, 1.0, 0.0, 0.0, 0.0, 0.0, 1.0, 0.0, 0.0, 0.0, 0.0, 1.0)

  /** `math.zeros(4, 4)`, the matrix of the zero Twist. */
  const Zero: Mat4 := Mat4(0.0, 0.0, 0.0, 0.0, 0.0, 0.0, 0.0, 0.0, 0.0, 0.0, 0.0, 0.0, 0.0, 0.0, 0.0, 0.0)

  /** The matrix product a b (`Pose.multiply`, and also `Twist.multiply`). */
  function Multiply(a: Mat4, b: Mat4): Mat4
  {
    Mat4(
      Dot4(a.m00, a.m01, a.m02, a.m03, b.m00, b.m10, b.m20, b.m30),
      Dot4(a.m00, a.m01, a.m02, a.m03, b.m01, b.m11, b.m21, b.m31),
      Dot4(a.m00, a.m01, a.m02, a.m03, b.m02, b.m12, b.m22, b.m32),
      Dot4(a.m00, a.m01, a.m02, a.m03, b.m03, b.m13, b.m23, b.m33),
      Dot4(a.m10, a.m11, a.m12, a.m13, b.m00, b.m10, b.m20, b.m30),
      Dot4(a.m10, a.m11, a.m12, a.m13, b.m01, b.m11, b.m21, b.m31),
      Dot4(a.m10, a.m11, a.m12, a.m13, b.m02, b.m12, b.m22, b.m32),
      Dot4(a.m10, a.m11, a.m12, a.m13, b.m03, b.m13, b.m23, b.m33),
      Dot4(a.m20, a.m21, a.m22, a.m23, b.m00, b.m10, b.m20, b.m30),
      Dot4(a.m20, a.m21, a.m22, a.m23, b.m01, b.m11, b.m21, b.m31),
      Dot4(a.m20, a.m21, a.m22, a.m23, b.m02, b.m12, b.m22, b.m32),
      Dot4(a.m20, a.m21, a.m22, a.m23, b.m03, b.m13, b.m23, b.m33),
      Dot4(a.m30, a.m31, a.m32, a.m33, b.m00, b.m10, b.m20, b.m30),
      Dot4(a.m30, a.m31, a.m32, a.m33, b.m01, b.m11, b.m21, b.m31),
      Dot4(a.m30, a.m31, a.m32, a.m33, b.m02, b.m12, b.m22, b.m32),
      Dot4(a.m30, a.m31, a.m32, a.m33, b.m03, b.m13, b.m23, b.m33))
  }

  lemma MultiplyAssoc(a: Mat4, b: Mat4, c: Mat4)
    ensures Multiply(Multiply(a, b), c) == Multiply(a, Multiply(b, c))
  {
    Dot4Assoc(a.m00, a.m01, a.m02, a.m03, b.m00, b.m01, b.m02, b.m03, b.m10, b.m11, b.m12, b.m13, b.m20, b.m21, b.m22, b.m23, b.m30, b.m31, b.m32, b.m33, c.m00, c.m10, c.m20, c.m30);
    Dot4Assoc(a.m00, a.m01, a.m02, a.m03, b.m00, b.m01, b.m02, b.m03, b.m10, b.m11, b.m12, b.m13, b.m20, b.m21, b.m22, b.m23, b.m30, b.m31, b.m32, b.m33, c.m01, c.m11, c.m21, c.m31);
    Dot4Assoc(a.m00, a.m01, a.m02, a.m03, b.m00, b.m01, b.m02, b.m03, b.m10, b.m11, b.m12, b.m13, b.m20, b.m21, b.m22, b.m23, b.m30, b.m31, b.m32, b.m33, c.m02, c.m12, c.m22, c.m32);
    Dot4Assoc(a.m00, a.m01, a.m02, a.m03, b.m00, b.m01, b.m02, b.m03, b.m10, b.m11, b.m12, b.m13, b.m20, b.m21, b.m22, b.m23, b.m30, b.m31, b.m32, b.m33, c.m03, c.m13, c.m23, c.m33);
    Dot4Assoc(a.m10, a.m11, a.m12, a.m13, b.m00, b.m01, b.m02, b.m03, b.m10, b.m11, b.m12, b.m13, b.m20, b.m21, b.m22, b.m23, b.m30, b.m31, b.m32, b.m33, c.m00, c.m10, c.m20, c.m30);
    Dot4Assoc(a.m10, a.m11, a.m12, a.m13, b.m00, b.m01, b.m02, b.m03, b.m10, b.m11, b.m12, b.m13, b.m20, b.m21, b.m22, b.m23, b.m30, b.m31, b.m32, b.m33, c.m01, c.m11, c.m21, c.m31);
    Dot4Assoc(a.m10, a.m11, a.m12, a.m13, b.m00, b.m01, b.m02, b.m03, b.m10, b.m11, b.m12, b.m13, b.m20, b.m21, b.m22, b.m23, b.m30, b.m31, b.m32, b.m33, c.m02, c.m12, c.m22, c.m32);
    Dot4Assoc(a.m10, a.m11, a.m12, a.m13, b.m00, b.m01, b.m02, b.m03, b.m10, b.m11, b.m12, b.m13, b.m20, b.m21, b.m22, b.m23, b.m30, b.m31, b.m32, b.m33, c.m03, c.m13, c.m23, c.m33);
    Dot4Assoc(a.m20, a.m21, a.m22, a.m23, b.m00, b.m01, b.m02, b.m03, b.m10, b.m11, b.m12, b.m13, b.m20, b.m21, b.m22, b.m23, b.m30, b.m31, b.m32, b.m33, c.m00, c.m10, c.m20, c.m30);
    Dot4Assoc(a.m20, a.m21, a.m22, a.m23, b.m00, b.m01, b.m02, b.m03, b.m10, b.m11, b.m12, b.m13, b.m20, b.m21, b.m22, b.m23, b.m30, b.m31, b.m32, b.m33, c.m01, c.m11, c.m21, c.m31);
    Dot4Assoc(a.m20, a.m21, a.m22, a.m23, b.m00, b.m01, b.m02, b.m03, b.m10, b.m11, b.m12, b.m13, b.m20, b.m21, b.m22, b.m23, b.m30, b.m31, b.m32, b.m33, c.m02, c.m12, c.m22, c.m32);
    Dot4Assoc(a.m20, a.m21, a.m22, a.m23, b.m00, b.m01, b.m02, b.m03, b.m10, b.m11, b.m12, b.m13, b.m20, b.m21, b.m22, b.m23, b.m30, b.m31, b.m32, b.m33, c.m03, c.m13, c.m23, c.m33);
    Dot4Assoc(a.m30, a.m31, a.m32, a.m33, b.m00, b.m01, b.m02, b.m03, b.m10, b.m11, b.m12, b.m13, b.m20, b.m21, b.m22, b.m23, b.m30, b.m31, b.m32, b.m33, c.m00, c.m10, c.m20, c.m30);
    Dot4Assoc(a.m30, a.m31, a.m32, a.m33, b.m00, b.m01, b.m02, b.m03, b.m10, b.m11, b.m12, b.m13, b.m20, b.m21, b.m22, b.m23, b.m30, b.m31, b.m32, b.m33, c.m01, c.m11, c.m21, c.m31);
    Dot4Assoc(a.m30, a.m31, a.m32, a.m33, b.m00, b.m01, b.m02, b.m03, b.m10, b.m11, b.m12, b.m13, b.m20, b.m21, b.m22, b.m23, b.m30, b.m31, b.m32, b.m33, c.m02, c.m12, c.m22, c.m32);
    Dot4Assoc(a.m30, a.m31, a.m32, a.m33, b.m00, b.m01, b.m02, b.m03, b.m10, b.m11, b.m12, b.m13, b.m20, b.m21, b.m22, b.m23, b.m30, b.m31, b.m32, b.m33, c.m03, c.m13, c.m23, c.m33);
  }

  lemma MultiplyIdentity(a: Mat4)
    ensures Multiply(Identity, a) == a && Multiply(a, Identity) == a
  {
  }

  lemma MultiplyZero(a: Mat4)
    ensures Multiply(Zero, a) == Zero && Multiply(a, Zero) == Zero
  {
  }

  // ---------------------------------------------------------------------
  // Blocks of a pose
  // ---------------------------------------------------------------------

  /** `getRotationMatrix`: the top-left 3x3 block. */
  function Rotation(p: Mat4): Mat3
  {
    Mat3(p.m00, p.m01, p.m02, p.m10, p.m11, p.m12, p.m20, p.m21, p.m22)
  }

  /** `getTranslation`: rows 0-2 of column 3. */
  function Translation(p: Mat4): Vec3
  {
    Vec3(p.m03, p.m13, p.m23)
  }

  /** `getLocation`: all four entries of column 3. */
  function Location(p: Mat4): (r: seq<real>)
    ensures |r| == 4
    ensures r[..3] == [Translation(p).x, Translation(p).y, Translation(p).z]
    ensures r[3] == p.Get(3, 3)
  {
    [p.m03, p.m13, p.m23, p.m33]
  }

  /** `setRotationMatrix`: overwrites the top-left 3x3 block and nothing else. */
  function SetRotation(p: Mat4, r: Mat3): (q: Mat4)
    ensures Rotation(q) == r
    ensures Translation(q) == Translation(p)
    ensures q.m30 == p.m30 && q.m31 == p.m31 && q.m32 == p.m32 && q.m33 == p.m33
  {
    p.(m00 := r.r00, m01 := r.r01, m02 := r.r02,
       m10 := r.r10, m11 := r.r11, m12 := r.r12,
       m20 := r.r20, m21 := r.r21, m22 := r.r22)
  }

  /** `setTranslation`: overwrites rows 0-2 of column 3 and nothing else. */
  function SetTranslation(p: Mat4, t: Vec3): (q: Mat4)
    ensures Translation(q) == t
    ensures forall i: nat, j: nat :: i < 4 && j < 4 && (j != 3 || i == 3) ==> q.Get(i, j) == p.Get(i, j)
  {
    p.(m03 := t.x, m13 := t.y, m23 := t.z)
  }

  /** The bottom row is (0, 0, 0, 1). */
  predicate AffineBottom(p: Mat4)
  {
    p.m30 == 0.0 && p.m31 == 0.0 && p.m32 == 0.0 && p.m33 == 1.0
  }

  /** The invariant of a Pose: an orthonormal rotation block above the bottom row (0, 0, 0, 1). */
  predicate Rigid(p: Mat4)
  {
    AffineBottom(p) && Orthonormal(Rotation(p))
  }

  /** The rotation block and translation of a product whose right factor has an affine bottom row. */
  lemma MultiplyBlocks(a: Mat4, b: Mat4)
    requires AffineBottom(b)
    ensures Rotation(Multiply(a, b)) == Mul3(Rotation(a), Rotation(b))
    ensures Translation(Multiply(a, b)) == Plus(Apply3(Rotation(a), Translation(b)), Translation(a))
  {
    MultiplyRotationBlock(a, b);
    MultiplyTranslationBlock(a, b);
  }

  /** The rotation block of a b needs only the first three cells of b's bottom row to vanish. */
  lemma MultiplyRotationBlock(a: Mat4, b: Mat4)
    requires b.m30 == 0.0 && b.m31 == 0.0 && b.m32 == 0.0
    ensures Rotation(Multiply(a, b)) == Mul3(Rotation(a), Rotation(b))
  {
    MultiplyRotationRow0(a, b);
    MultiplyRotationRow1(a, b);
    MultiplyRotationRow2(a, b);
  }

  /** A product whose right factor has a zero bottom row moves its translation column by the left rotation block only. */
  lemma MultiplyTranslationColumn(a: Mat4, b: Mat4)
    requires b.m33 == 0.0
    ensures Translation(Multiply(a, b)) == Apply3(Rotation(a), Translation(b))
  {
    var m, t := Multiply(a, b), Apply3(Rotation(a), Translation(b));
    Dot4ZeroLast(a.m00, a.m01, a.m02, a.m03, b.m03, b.m13, b.m23);
    Dot4ZeroLast(a.m10, a.m11, a.m12, a.m13, b.m03, b.m13, b.m23);
    Dot4ZeroLast(a.m20, a.m21, a.m22, a.m23, b.m03, b.m13, b.m23);
    assert m.m03 == t.x && m.m13 == t.y && m.m23 == t.z;
  }

  lemma Dot4ZeroLast(x0: real, x1: real, x2: real, x3: real, y0: real, y1: real, y2: real)
    ensures Dot4(x0, x1, x2, x3, y0, y1, y2, 0.0) == Dot3(x0, x1, x2, y0, y1, y2)
  {
  }

  lemma MultiplyRotationRow0(a: Mat4, b: Mat4)
    requires b.m30 == 0.0 && b.m31 == 0.0 && b.m32 == 0.0
    ensures var m, r := Multiply(a, b), Mul3(Rotation(a), Rotation(b));
            m.m00 == r.r00 && m.m01 == r.r01 && m.m02 == r.r02
  {
  }

  lemma MultiplyRotationRow1(a: Mat4, b: Mat4)
    requires b.m30 == 0.0 && b.m31 == 0.0 && b.m32 == 0.0
    ensures var m, r := Multiply(a, b), Mul3(Rotation(a), Rotation(b));
            m.m10 == r.r10 && m.m11 == r.r11 && m.m12 == r.r12
  {
  }

  lemma MultiplyRotationRow2(a: Mat4, b: Mat4)
    requires b.m30 == 0.0 && b.m31 == 0.0 && b.m32 == 0.0
    ensures var m, r := Multiply(a, b), Mul3(Rotation(a), Rotation(b));
            m.m20 == r.r20 && m.m21 == r.r21 && m.m22 == r.r22
  {
  }

  lemma MultiplyTranslationBlock(a: Mat4, b: Mat4)
    requires AffineBottom(b)
    ensures Translation(Multiply(a, b)) == Plus(Apply3(Rotation(a), Translation(b)), Translation(a))
  {
  }

  /** Rigid transforms are closed under composition. */
  lemma RigidMultiply(a: Mat4, b: Mat4)
    requires Rigid(a) && Rigid(b)
    ensures Rigid(Multiply(a, b))
  {
    MultiplyBlocks(a, b);
    OrthonormalMul(Rotation(a), Rotation(b));
  }

  // ---------------------------------------------------------------------
  // Pose operations
  // ---------------------------------------------------------------------

  /**
   * `Pose.inv`: a copy whose rotation block is R^T and whose translation is
   * -R^T t. The bottom row is copied unchanged, rigid or not.
   */
  function Inv(p: Mat4): (r: Mat4)
    ensures r.m30 == p.m30 && r.m31 == p.m31 && r.m32 == p.m32 && r.m33 == p.m33
    ensures Rotation(r) == Transpose3(Rotation(p))
    ensures Translation(r) == Scaled(Apply3(Transpose3(Rotation(p)), Translation(p)), -1.0)
  {
    Mat4(p.m00, p.m10, p.m20, Dot3(p.m00, p.m10, p.m20, p.m03, p.m13, p.m23) * -1.0,
         p.m01, p.m11, p.m21, Dot3(p.m01, p.m11, p.m21, p.m03, p.m13, p.m23) * -1.0,
         p.m02, p.m12, p.m22, Dot3(p.m02, p.m12, p.m22, p.m03, p.m13, p.m23) * -1.0,
         p.m30, p.m31, p.m32, p.m33)
  }

  /** For a rigid pose, `inv` undoes the pose from the left. */
  lemma {:induction false} InvLeftInverse(p: Mat4)
    requires Rigid(p)
    ensures Multiply(Inv(p), p) == Identity
  {
    MultiplyBlocks(Inv(p), p);
  }

  /** For a rigid pose, `inv` undoes the pose from the right. */
  lemma {:induction false} InvRightInverse(p: Mat4)
    requires Rigid(p)
    ensures Multiply(p, Inv(p)) == Identity
  {
    var r, t := Rotation(p), Translation(p);
    OrthonormalRightInverse(r);
    Apply3Mul3(r, Transpose3(r), t);
    assert Apply3(r, Apply3(Transpose3(r), t)) == t;
    MultiplyBlocks(p, Inv(p));
  }

  /** For a rigid pose, `inv` is a two-sided inverse. */
  lemma {:induction false} InvIsInverse(p: Mat4)
    requires Rigid(p)
    ensures Multiply(Inv(p), p) == Identity
    ensures Multiply(p, Inv(p)) == Identity
  {
    InvLeftInverse(p);
    InvRightInverse(p);
  }

  /** A left inverse of a rigid pose is its `inv`. */
  lemma {:induction false} InverseUnique(p: Mat4, c: Mat4)
    requires Rigid(p) && Multiply(c, p) == Identity
    ensures c == Inv(p)
  {
    InvRightInverse(p);
    MultiplyAssoc(c, p, Inv(p));
    MultiplyIdentity(c);
    MultiplyIdentity(Inv(p));
  }

  /** The inverse of a product of rigid poses is the product of the inverses, in reverse order. */
  lemma {:induction false} InvMultiply(a: Mat4, b: Mat4)
    requires Rigid(a) && Rigid(b)
    ensures Inv(Multiply(a, b)) == Multiply(Inv(b), Inv(a))
  {
    var x := Multiply(Inv(b), Inv(a));
    InvIsInverse(a);
    InvIsInverse(b);
    MultiplyAssoc(x, a, b);
    MultiplyAssoc(Inv(b), Inv(a), a);
    MultiplyIdentity(Inv(b));
    RigidMultiply(a, b);
    InverseUnique(Multiply(a, b), x);
  }

  /** The inverse of a rigid pose is rigid, and inverting twice gives the pose back. */
  lemma {:induction false} InvRigid(p: Mat4)
    requires Rigid(p)
    ensures Rigid(Inv(p))
    ensures Inv(Inv(p)) == p
  {
    var r, t := Rotation(p), Translation(p);
    OrthonormalRightInverse(r);
    Apply3Mul3(r, Transpose3(r), t);
    assert Apply3(r, Apply3(Transpose3(r), t)) == t;
  }

  /** `Pose.translate(v)`: a copy whose translation is t + v. */
  function Translate(p: Mat4, v: Vec3): (r: Mat4)
    ensures Translation(r) == Plus(Translation(p), v)
    ensures Rotation(r) == Rotation(p)
    ensures r.m30 == p.m30 && r.m31 == p.m31 && r.m32 == p.m32 && r.m33 == p.m33
  {
    SetTranslation(p, Plus(Translation(p), v))
  }

  /** The elementary rotation built by `rotateByX`, with c = cos(angle), s = sin(angle). */
  function ElementaryX(c: real, s: real): Mat4
  {
    Identity.Set(1, 1, c).Set(1, 2, -s).Set(2, 1, s).Set(2, 2, c)
  }

  /** The elementary rotation built by `rotateByY`. */
  function ElementaryY(c: real, s: real): Mat4
  {
    Identity.Set(0, 0, c).Set(0, 2, s).Set(2, 0, -s).Set(2, 2, c)
  }

  /** The elementary rotation built by `rotateByZ`. */
  function ElementaryZ(c: real, s: real): Mat4
  {
    Identity.Set(0, 0, c).Set(0, 1, -s).Set(1, 0, s).Set(1, 1, c)
  }

  /** On the unit circle each elementary rotation is a rigid transform with no translation. */
  lemma ElementaryRigid(c: real, s: real)
    requires c * c + s * s == 1.0
    ensures Rigid(ElementaryX(c, s)) && Translation(ElementaryX(c, s)) == Origin
    ensures Rigid(ElementaryY(c, s)) && Translation(ElementaryY(c, s)) == Origin
    ensures Rigid(ElementaryZ(c, s)) && Translation(ElementaryZ(c, s)) == Origin
  {
  }

  /** `rotateByX(angle)` = this * Rx(angle); the translation column is kept. */
  function RotateByX(p: Mat4, c: real, s: real): (r: Mat4)
    ensures Translation(r) == Translation(p)
    ensures c * c + s * s == 1.0 && Rigid(p) ==> Rigid(r)
  {
    var e := ElementaryX(c, s);
    assert c * c + s * s == 1.0 && Rigid(p) ==> Rigid(Multiply(p, e)) by {
      if c * c + s * s == 1.0 && Rigid(p) {
        ElementaryRigid(c, s);
        RigidMultiply(p, e);
      }
    }
    Multiply(p, e)
  }

  /** `rotateByY(angle)` = this * Ry(angle); the translation column is kept. */
  function RotateByY(p: Mat4, c: real, s: real): (r: Mat4)
    ensures Translation(r) == Translation(p)
    ensures c * c + s * s == 1.0 && Rigid(p) ==> Rigid(r)
  {
    var e := ElementaryY(c, s);
    assert c * c + s * s == 1.0 && Rigid(p) ==> Rigid(Multiply(p, e)) by {
      if c * c + s * s == 1.0 && Rigid(p) {
        ElementaryRigid(c, s);
        RigidMultiply(p, e);
      }
    }
    Multiply(p, e)
  }

  /** `rotateByZ(angle)` = this * Rz(angle); the translation column is kept. */
  function RotateByZ(p: Mat4, c: real, s: real): (r: Mat4)
    ensures Translation(r) == Translation(p)
    ensures c * c + s * s == 1.0 && Rigid(p) ==> Rigid(r)
  {
    var e := ElementaryZ(c, s);
    assert c * c + s * s == 1.0 && Rigid(p) ==> Rigid(Multiply(p, e)) by {
      if c * c + s * s == 1.0 && Rigid(p) {
        ElementaryRigid(c, s);
        RigidMultiply(p, e);
      }
    }
    Multiply(p, e)
  }

  /** `changeBasis(b)`: the similarity transform inv(b) * this * b. */
  function ChangeBasis(p: Mat4, b: Mat4): Mat4
  {
    Multiply(Inv(b), Multiply(p, b))
  }

  /** Changing to the identity basis changes nothing. */
  lemma {:induction false} ChangeBasisIdentity(p: Mat4)
    ensures ChangeBasis(p, Identity) == p
  {
    InvIdentity();
    MultiplyIdentity(p);
  }

  lemma InvIdentity()
    ensures Inv(Identity) == Identity
  {
  }

  /** A rigid basis change keeps the identity fixed and maps rigid poses to rigid poses. */
  lemma {:induction false} ChangeBasisRigid(p: Mat4, b: Mat4)
    requires Rigid(b)
    ensures ChangeBasis(Identity, b) == Identity
    ensures Rigid(p) ==> Rigid(ChangeBasis(p, b))
  {
    InvIsInverse(b);
    InvRigid(b);
    MultiplyIdentity(b);
    if Rigid(p) {
      RigidMultiply(p, b);
      RigidMultiply(Inv(b), Multiply(p, b));
    }
  }

  /** Changing to a rigid basis b and then to inv(b) restores the pose. */
  lemma {:induction false} ChangeBasisRoundTrip(p: Mat4, b: Mat4)
    requires Rigid(b)
    ensures ChangeBasis(ChangeBasis(p, b), Inv(b)) == p
  {
    var ib := Inv(b);
    InvIsInverse(b);
    InvRigid(b);
    var pb := Multiply(p, b);
    var q := Multiply(ib, pb);
    // ChangeBasis(q, ib) = inv(ib) * (q * ib) = b * (q * ib)
    assert ChangeBasis(q, ib) == Multiply(b, Multiply(q, ib));
    // q * ib = ib * (p * (b * ib)) = ib * p
    MultiplyAssoc(ib, pb, ib);
    MultiplyAssoc(p, b, ib);
    MultiplyIdentity(p);
    assert Multiply(q, ib) == Multiply(ib, p);
    // b * (ib * p) = (b * ib) * p = p
    MultiplyAssoc(b, ib, p);
  }

  /**
   * `transform(v)`: for a 3-vector, R v + t; for a 4-vector, the full
   * product this * v.
   */
  function Transform(p: Mat4, v: seq<real>): (r: seq<real>)
    requires |v| == 3 || |v| == 4
    ensures |r| == |v|
  {
    if |v| == 3 then
      var w := Plus(Apply3(Rotation(p), Vec3(v[0], v[1], v[2])), Translation(p));
      [w.x, w.y, w.z]
    else
      Homogeneous(p, v)
  }

  /** The product of a 4x4 matrix with a column 4-vector. */
  function Homogeneous(p: Mat4, v: seq<real>): (r: seq<real>)
    requires |v| == 4
    ensures |r| == 4
  {
    [Dot4(p.m00, p.m01, p.m02, p.m03, v[0], v[1], v[2], v[3]),
     Dot4(p.m10, p.m11, p.m12, p.m13, v[0], v[1], v[2], v[3]),
     Dot4(p.m20, p.m21, p.m22, p.m23, v[0], v[1], v[2], v[3]),
     Dot4(p.m30, p.m31, p.m32, p.m33, v[0], v[1], v[2], v[3])]
  }

  /**
   * On a pose with bottom row (0, 0, 0, 1), transforming a point agrees with
   * the homogeneous product on the point extended by 1.
   */
  lemma TransformHomogeneous(p: Mat4, v: seq<real>)
    requires |v| == 3 && AffineBottom(p)
    ensures Transform(p, v) + [1.0] == Homogeneous(p, v + [1.0])
  {
    var w := v + [1.0];
    assert w[0] == v[0] && w[1] == v[1] && w[2] == v[2] && w[3] == 1.0;
    var t, h := Transform(p, v), Homogeneous(p, w);
    assert t[0] == h[0] && t[1] == h[1] && t[2] == h[2] && h[3] == 1.0;
    assert t + [1.0] == h;
  }

  // ---------------------------------------------------------------------
  // createPoseFromAxis
  // ---------------------------------------------------------------------

  /** The pose with the given basis columns, zero translation and bottom row (0, 0, 0, 1). */
  function FromColumns(x: Vec3, y: Vec3, z: Vec3): (r: Mat4)
    ensures Rotation(r) == Columns3(x, y, z) && Translation(r) == Origin && AffineBottom(r)
  {
    Mat4(x.x, y.x, z.x, 0.0, x.y, y.y, z.y, 0.0, x.z, y.z, z.z, 0.0, 0.0, 0.0, 0.0, 1.0)
  }

  /** Column j of the rotation block. */
  function Column(p: Mat4, j: nat): Vec3
    requires j < 3
  {
    Column3(Rotation(p), j)
  }

  /** The three basis columns are pairwise orthogonal. */
  predicate OrthogonalColumns(p: Mat4)
  {
    Dot(Column(p, 0), Column(p, 1)) == 0.0 && Dot(Column(p, 0), Column(p, 2)) == 0.0
    && Dot(Column(p, 1), Column(p, 2)) == 0.0
  }

  /**
   * `createPoseFromAxis` exactly as written: in the primary branch the
   * y-axis z x (1, 0, 0) is used without normalisation. `axisNorm` stands
   * for `math.norm(axis)`; the test `norm(y) > EPSILON` is stated on
   * squares, which is equivalent because norms are non-negative.
   */
  function CreatePoseFromAxisAsWritten(axis: Vec3, axisNorm: real): (r: Mat4)
    requires IsNorm(axis, axisNorm)
    ensures axisNorm <= EPSILON ==> r == Identity
    ensures axisNorm > EPSILON ==>
      Column(r, 2) == Divided(axis, axisNorm) && Translation(r) == Origin && AffineBottom(r)
      && OrthogonalColumns(r)
  {
    if axisNorm > EPSILON then
      var z := Divided(axis, axisNorm);
      var y0 := Cross(z, UnitX);
      if Dot(y0, y0) > EPSILON * EPSILON then
        var x := Cross(y0, z);
        CrossOrthogonal(z, UnitX);
        CrossOrthogonal(y0, z);
        DotSymmetric(x, y0);
        DotSymmetric(y0, z);
        FromColumns(x, y0, z)
      else
        var x := Cross(UnitY, z);
        var y := Cross(z, x);
        CrossOrthogonal(UnitY, z);
        CrossOrthogonal(z, x);
        DotSymmetric(x, y);
        DotSymmetric(y, z);
        FromColumns(x, y, z)
    else
      Identity
  }

  /** For an axis along +x or -x the fallback branch yields a proper rotation. */
  lemma {:induction false} AsWrittenFallbackAlongX(a: real, n: real)
    requires a != 0.0 && IsNorm(Vec3(a, 0.0, 0.0), n) && n > EPSILON
    ensures Rigid(CreatePoseFromAxisAsWritten(Vec3(a, 0.0, 0.0), n))
    ensures Det3(Rotation(CreatePoseFromAxisAsWritten(Vec3(a, 0.0, 0.0), n))) == 1.0
  {
    var z := Divided(Vec3(a, 0.0, 0.0), n);
    assert z.x * z.x == 1.0 by { DividedByNormIsUnit(Vec3(a, 0.0, 0.0), n); }
    assert z.y == 0.0 && z.z == 0.0;
    var y0 := Cross(z, UnitX);
    assert y0 == Origin;
  }

  /**
   * Whenever the primary branch is taken for an axis with a non-zero x
   * component, the as-written y column has squared length 1 - z.x^2 < 1, so
   * the resulting pose is not rigid.
   */
  lemma {:induction false} AsWrittenNotUnit(axis: Vec3, n: real)
    requires IsNorm(axis, n) && n > EPSILON && axis.x != 0.0
    requires Dot(Cross(Divided(axis, n), UnitX), Cross(Divided(axis, n), UnitX)) > EPSILON * EPSILON
    ensures var r := CreatePoseFromAxisAsWritten(axis, n); var z := Divided(axis, n);
            Dot(Column(r, 1), Column(r, 1)) == 1.0 - z.x * z.x
            && Dot(Column(r, 1), Column(r, 1)) != 1.0 && !Rigid(r)
  {
    var z := Divided(axis, n);
    DividedByNormIsUnit(axis, n);
    AsWrittenPrimary(axis, n);
    var r := CreatePoseFromAxisAsWritten(axis, n);
    assert Dot(Column(r, 1), Column(r, 1)) == z.y * z.y + z.z * z.z;
    assert z.x * n == axis.x;
    NonZeroSquare(z.x, z.x);
    NonUnitColumnNotRigid(r);
  }

  lemma NonZeroSquare(a: real, b: real)
    requires a != 0.0 && a == b
    ensures a * b != 0.0
  {
  }

  /** The axis (3, 4, 0), of length 5, meets the conditions of AsWrittenNotUnit. */
  lemma AsWrittenNotUnitWitness()
    ensures IsNorm(Vec3(3.0, 4.0, 0.0), 5.0) && 5.0 > EPSILON
    ensures Divided(Vec3(3.0, 4.0, 0.0), 5.0) == Vec3(0.6, 0.8, 0.0)
    ensures Cross(Divided(Vec3(3.0, 4.0, 0.0), 5.0), UnitX) == Vec3(0.0, 0.0, -0.8)
    ensures Dot(Vec3(0.0, 0.0, -0.8), Vec3(0.0, 0.0, -0.8)) > EPSILON * EPSILON
  {
  }

  /** A pose whose y column is not a unit vector is not rigid. */
  lemma NonUnitColumnNotRigid(p: Mat4)
    requires Dot(Column(p, 1), Column(p, 1)) != 1.0
    ensures !Rigid(p)
  {
    assert Mul3(Transpose3(Rotation(p)), Rotation(p)).r11 == Dot(Column(p, 1), Column(p, 1));
  }

  /** In its primary branch `createPoseFromAxis` uses the y column z x (1, 0, 0), not normalised. */
  lemma AsWrittenPrimary(axis: Vec3, n: real)
    requires IsNorm(axis, n) && n > EPSILON
    requires Dot(Cross(Divided(axis, n), UnitX), Cross(Divided(axis, n), UnitX)) > EPSILON * EPSILON
    ensures Column(CreatePoseFromAxisAsWritten(axis, n), 1) == Cross(Divided(axis, n), UnitX)
  {
  }

  /**
   * The vector that the basis construction crosses against: z x (1, 0, 0)
   * unless that is (nearly) zero, in which case (0, 1, 0) x z.
   */
  function SeedCross(z: Vec3): Vec3
  {
    var y0 := Cross(z, UnitX);
    if Dot(y0, y0) > EPSILON * EPSILON then y0 else Cross(UnitY, z)
  }

  /**
   * `createPoseFromAxis` as evidently intended: the seed cross product is
   * normalised before the third column is formed. `seedNorm` stands for the
   * norm of `SeedCross(axis / axisNorm)`.
   */
  function CreatePoseFromAxis(axis: Vec3, axisNorm: real, seedNorm: real): (r: Mat4)
    requires IsNorm(axis, axisNorm)
    requires axisNorm > EPSILON ==> IsNorm(SeedCross(Divided(axis, axisNorm)), seedNorm)
    ensures axisNorm <= EPSILON ==> r == Identity
    ensures axisNorm > EPSILON ==>
      Column(r, 2) == Divided(axis, axisNorm) && Rigid(r) && Translation(r) == Origin
      && Det3(Rotation(r)) == 1.0
  {
    if axisNorm > EPSILON then
      var z := Divided(axis, axisNorm);
      var y0 := Cross(z, UnitX);
      DividedByNormIsUnit(axis, axisNorm);
      ProperBasisFromSeed(z, SeedCross(z), seedNorm, Dot(y0, y0) > EPSILON * EPSILON);
      if Dot(y0, y0) > EPSILON * EPSILON then
        var y := Divided(y0, seedNorm);
        FromColumns(Cross(y, z), y, z)
      else
        var x := Divided(Cross(UnitY, z), seedNorm);
        FromColumns(x, Cross(z, x), z)
    else
      Identity
  }

  /** Both branches of the corrected construction produce a proper orthonormal basis. */
  lemma {:induction false} ProperBasisFromSeed(z: Vec3, seed: Vec3, n: real, primary: bool)
    requires Dot(z, z) == 1.0
    requires primary ==> seed == Cross(z, UnitX)
    requires !primary ==> seed == Cross(UnitY, z)
    requires IsNorm(seed, n)
    requires primary ==> Dot(seed, seed) > EPSILON * EPSILON
    requires !primary ==> Dot(Cross(z, UnitX), Cross(z, UnitX)) <= EPSILON * EPSILON
    ensures n > 0.0
    ensures primary ==>
      var y := Divided(seed, n); Rigid(FromColumns(Cross(y, z), y, z)) && Det3(Columns3(Cross(y, z), y, z)) == 1.0
    ensures !primary ==>
      var x := Divided(seed, n); Rigid(FromColumns(x, Cross(z, x), z)) && Det3(Columns3(x, Cross(z, x), z)) == 1.0
  {
    if !primary {
      // z is nearly parallel to x, so (0, 1, 0) x z = (z.z, 0, -z.x) is far from zero.
      assert Dot(Cross(z, UnitX), Cross(z, UnitX)) == z.y * z.y + z.z * z.z;
      assert Dot(seed, seed) == z.z * z.z + z.x * z.x;
      assert z.x * z.x >= 1.0 - EPSILON * EPSILON;
      assert Dot(seed, seed) > 0.0;
    }
    assert n > 0.0;
    if primary {
      var y := Divided(seed, n);
      var x := Cross(y, z);
      DividedByNormIsUnit(seed, n);
      CrossOrthogonal(z, UnitX);
      DotDivided(seed, z, n);
      assert Dot(y, z) == 0.0;
      Lagrange(y, z);
      assert Dot(x, x) == 1.0;
      CrossOrthogonal(y, z);
      UnitBasis(x, y, z);
      TripleCyclic(x, y, z);
    } else {
      var x := Divided(seed, n);
      var y := Cross(z, x);
      DividedByNormIsUnit(seed, n);
      CrossOrthogonal(UnitY, z);
      DotDivided(seed, z, n);
      DotSymmetric(x, z);
      assert Dot(x, z) == 0.0;
      Lagrange(z, x);
      assert Dot(y, y) == 1.0;
      CrossOrthogonal(z, x);
      DotSymmetric(y, x);
      DotSymmetric(y, z);
      UnitBasis(x, y, z);
      TripleCyclic(x, y, z);
      TripleCyclic(y, z, x);
    }
  }

  /** Three unit, pairwise orthogonal columns make a rigid pose. */
  lemma UnitBasis(x: Vec3, y: Vec3, z: Vec3)
    requires Dot(x, x) == 1.0 && Dot(y, y) == 1.0 && Dot(z, z) == 1.0
    requires Dot(x, y) == 0.0 && Dot(x, z) == 0.0 && Dot(y, z) == 0.0
    ensures Rigid(FromColumns(x, y, z))
    ensures Det3(Columns3(x, y, z)) == Dot(x, Cross(y, z))
  {
    DotSymmetric(x, y);
    DotSymmetric(x, z);
    DotSymmetric(y, z);
  }

  /** `createPoseIdentity`: a rigid pose that is neutral for composition. */
  function CreatePoseIdentity(): (r: Mat4)
    ensures Rigid(r) && Translation(r) == Origin
    ensures forall p :: Multiply(r, p) == p && Multiply(p, r) == p
  {
    assert forall p :: Multiply(Identity, p) == p && Multiply(p, Identity) == p by {
      forall p ensures Multiply(Identity, p) == p && Multiply(p, Identity) == p {
        MultiplyIdentity(p);
      }
    }
    Identity
  }
}
