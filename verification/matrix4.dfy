/** Homogeneous 4x4 matrices and 4-vectors over the reals, the double
    precision matrix algebra the projection set-up composes. A matrix is a
    sequence of four rows. */
module Matrix4 {

  type Vec4 = v: seq<real> | |v| == 4 witness [0.0, 0.0, 0.0, 0.0]

  type Mat4 = m: seq<Vec4> | |m| == 4
    witness var z: Vec4 := [0.0, 0.0, 0.0, 0.0]; [z, z, z, z]

  function Dot(a: Vec4, b: Vec4): real {
    a[0] * b[0] + a[1] * b[1] + a[2] * b[2] + a[3] * b[3]
  }

  function Column(m: Mat4, j: nat): Vec4
    requires j < 4
  {
    [m[0][j], m[1][j], m[2][j], m[3][j]]
  }

  /** One row of a product: the row `r` of the left factor times `b`. */
  function RowTimes(r: Vec4, b: Mat4): Vec4 {
    [Dot(r, Column(b, 0)), Dot(r, Column(b, 1)), Dot(r, Column(b, 2)), Dot(r, Column(b, 3))]
  }

  /** The matrix product `a · b`. */
  function Mul(a: Mat4, b: Mat4): Mat4 {
    [RowTimes(a[0], b), RowTimes(a[1], b), RowTimes(a[2], b), RowTimes(a[3], b)]
  }

  /** The matrix-vector product `m · v`. */
  function Apply(m: Mat4, v: Vec4): Vec4 {
    [Dot(m[0], v), Dot(m[1], v), Dot(m[2], v), Dot(m[3], v)]
  }

  function Identity(): Mat4 {
    [[1.0, 0.0, 0.0, 0.0],
     [0.0, 1.0, 0.0, 0.0],
     [0.0, 0.0, 1.0, 0.0],
     [0.0, 0.0, 0.0, 1.0]]
  }

  /** The identity with `t0, t1, t2` in column 3: a translation in
      homogeneous coordinates. */
  function Translation(t0: real, t1: real, t2: real): Mat4 {
    [[1.0, 0.0, 0.0, t0],
     [0.0, 1.0, 0.0, t1],
     [0.0, 0.0, 1.0, t2],
     [0.0, 0.0, 0.0, 1.0]]
  }

  /** A matrix whose last row is (0, 0, 0, 1): it keeps the homogeneous
      coordinate of every point it is applied to. */
  predicate IsAffine(m: Mat4) {
    m[3] == [0.0, 0.0, 0.0, 1.0]
  }

  /** Applying a product is applying its factors right to left. */
  lemma {:induction false} ApplyMul(a: Mat4, b: Mat4, v: Vec4)
    ensures Apply(Mul(a, b), v) == Apply(a, Apply(b, v))
  {
    var bv := Apply(b, v);
    forall i | 0 <= i < 4
      ensures Dot(RowTimes(a[i], b), v) == Dot(a[i], bv)
    {
      RowTimesDot(a[i], b, v);
    }
  }

  /** A row of a product applied to `v` is the row applied to `b · v`:
      associativity of the products, one row at a time. */
  lemma RowTimesDot(r: Vec4, b: Mat4, v: Vec4)
    ensures Dot(RowTimes(r, b), v) == Dot(r, Apply(b, v))
  {
    RowTimesExpanded(r, b, v);
    ApplyExpanded(r, b, v);
    ScalarRowTimesDot(r[0], r[1], r[2], r[3],
                      b[0][0], b[0][1], b[0][2], b[0][3], b[1][0], b[1][1], b[1][2], b[1][3],
                      b[2][0], b[2][1], b[2][2], b[2][3], b[3][0], b[3][1], b[3][2], b[3][3],
                      v[0], v[1], v[2], v[3]);
  }

  /** `(r · b) · v` with every entry written out. */
  lemma RowTimesExpanded(r: Vec4, b: Mat4, v: Vec4)
    ensures Dot(RowTimes(r, b), v)
         == (r[0] * b[0][0] + r[1] * b[1][0] + r[2] * b[2][0] + r[3] * b[3][0]) * v[0] + (r[0] * b[0][1] + r[1] * b[1][1] + r[2] * b[2][1] + r[3] * b[3][1]) * v[1] + (r[0] * b[0][2] + r[1] * b[1][2] + r[2] * b[2][2] + r[3] * b[3][2]) * v[2] + (r[0] * b[0][3] + r[1] * b[1][3] + r[2] * b[2][3] + r[3] * b[3][3]) * v[3]
  {
    var c := RowTimes(r, b);
    ScaleRight(c[0], r[0] * b[0][0] + r[1] * b[1][0] + r[2] * b[2][0] + r[3] * b[3][0], v[0]);
    ScaleRight(c[1], r[0] * b[0][1] + r[1] * b[1][1] + r[2] * b[2][1] + r[3] * b[3][1], v[1]);
    ScaleRight(c[2], r[0] * b[0][2] + r[1] * b[1][2] + r[2] * b[2][2] + r[3] * b[3][2], v[2]);
    ScaleRight(c[3], r[0] * b[0][3] + r[1] * b[1][3] + r[2] * b[2][3] + r[3] * b[3][3], v[3]);
  }

  /** `r · (b · v)` with every entry written out. */
  lemma ApplyExpanded(r: Vec4, b: Mat4, v: Vec4)
    ensures Dot(r, Apply(b, v))
         == r[0] * (b[0][0] * v[0] + b[0][1] * v[1] + b[0][2] * v[2] + b[0][3] * v[3]) + r[1] * (b[1][0] * v[0] + b[1][1] * v[1] + b[1][2] * v[2] + b[1][3] * v[3]) + r[2] * (b[2][0] * v[0] + b[2][1] * v[1] + b[2][2] * v[2] + b[2][3] * v[3]) + r[3] * (b[3][0] * v[0] + b[3][1] * v[1] + b[3][2] * v[2] + b[3][3] * v[3])
  {
    var w := Apply(b, v);
    ScaleLeft(r[0], w[0], b[0][0] * v[0] + b[0][1] * v[1] + b[0][2] * v[2] + b[0][3] * v[3]);
    ScaleLeft(r[1], w[1], b[1][0] * v[0] + b[1][1] * v[1] + b[1][2] * v[2] + b[1][3] * v[3]);
    ScaleLeft(r[2], w[2], b[2][0] * v[0] + b[2][1] * v[1] + b[2][2] * v[2] + b[2][3] * v[3]);
    ScaleLeft(r[3], w[3], b[3][0] * v[0] + b[3][1] * v[1] + b[3][2] * v[2] + b[3][3] * v[3]);
  }

  /** Multiplying both sides of an equation by `y`. */
  lemma ScaleRight(x: real, e: real, y: real)
    requires x == e
    ensures x * y == e * y
  {
  }

  lemma ScaleLeft(y: real, x: real, e: real)
    requires x == e
    ensures y * x == y * e
  {
  }

  /** `(r · b) · v == r · (b · v)` written out entry by entry. */
  lemma ScalarRowTimesDot(r0: real, r1: real, r2: real, r3: real,
                          b00: real, b01: real, b02: real, b03: real,
                          b10: real, b11: real, b12: real, b13: real,
                          b20: real, b21: real, b22: real, b23: real,
                          b30: real, b31: real, b32: real, b33: real,
                          v0: real, v1: real, v2: real, v3: real)
    ensures (r0 * b00 + r1 * b10 + r2 * b20 + r3 * b30) * v0 + (r0 * b01 + r1 * b11 + r2 * b21 + r3 * b31) * v1 + (r0 * b02 + r1 * b12 + r2 * b22 + r3 * b32) * v2 + (r0 * b03 + r1 * b13 + r2 * b23 + r3 * b33) * v3
         == r0 * (b00 * v0 + b01 * v1 + b02 * v2 + b03 * v3) + r1 * (b10 * v0 + b11 * v1 + b12 * v2 + b13 * v3) + r2 * (b20 * v0 + b21 * v1 + b22 * v2 + b23 * v3) + r3 * (b30 * v0 + b31 * v1 + b32 * v2 + b33 * v3)
  {
    Distribute(r0, r1, r2, r3, b00, b10, b20, b30, v0);
    Distribute(r0, r1, r2, r3, b01, b11, b21, b31, v1);
    Distribute(r0, r1, r2, r3, b02, b12, b22, b32, v2);
    Distribute(r0, r1, r2, r3, b03, b13, b23, b33, v3);
    Factor(r0, b00 * v0, b01 * v1, b02 * v2, b03 * v3);
    Factor(r1, b10 * v0, b11 * v1, b12 * v2, b13 * v3);
    Factor(r2, b20 * v0, b21 * v1, b22 * v2, b23 * v3);
    Factor(r3, b30 * v0, b31 * v1, b32 * v2, b33 * v3);
  }

  /** A four-term sum times `y`, term by term. */
  lemma Distribute(r0: real, r1: real, r2: real, r3: real, x0: real, x1: real, x2: real, x3: real, y: real)
    ensures (r0 * x0 + r1 * x1 + r2 * x2 + r3 * x3) * y == r0 * (x0 * y) + r1 * (x1 * y) + r2 * (x2 * y) + r3 * (x3 * y)
  {
  }

  /** `a` times a four-term sum, term by term. */
  lemma Factor(a: real, x0: real, x1: real, x2: real, x3: real)
    ensures a * (x0 + x1 + x2 + x3) == a * x0 + a * x1 + a * x2 + a * x3
  {
  }

  /** A translation moves a point by its offset scaled by the point's
      homogeneous coordinate and keeps that coordinate. */
  lemma TranslationMoves(t0: real, t1: real, t2: real, p: Vec4)
    ensures Apply(Translation(t0, t1, t2), p) == [p[0] + t0 * p[3], p[1] + t1 * p[3], p[2] + t2 * p[3], p[3]]
  {
    var q := Apply(Translation(t0, t1, t2), p);
    assert q[0] == p[0] + t0 * p[3];
    assert q[1] == p[1] + t1 * p[3];
    assert q[2] == p[2] + t2 * p[3];
    assert q[3] == p[3];
  }

  /** Translations compose by adding their offsets; opposite offsets cancel. */
  lemma TranslationCompose(s0: real, s1: real, s2: real, t0: real, t1: real, t2: real)
    ensures Mul(Translation(s0, s1, s2), Translation(t0, t1, t2)) == Translation(s0 + t0, s1 + t1, s2 + t2)
  {
    var m := Mul(Translation(s0, s1, s2), Translation(t0, t1, t2));
    var t := Translation(s0 + t0, s1 + t1, s2 + t2);
    forall r | 0 <= r < 4
      ensures m[r] == t[r]
    {
      assert m[r][0] == t[r][0] && m[r][1] == t[r][1] && m[r][2] == t[r][2] && m[r][3] == t[r][3];
    }
  }

  /** A product of affine matrices is affine. */
  lemma MulAffine(a: Mat4, b: Mat4)
    requires IsAffine(a) && IsAffine(b)
    ensures IsAffine(Mul(a, b))
  {
    var r := Mul(a, b)[3];
    assert r[0] == 0.0 && r[1] == 0.0 && r[2] == 0.0 && r[3] == 1.0;
  }

  /** The product of a chain of factors, left to right:
      `Product([a, b, c]) == Mul(Mul(a, b), c)`. A product of affine
      factors is affine. */
  function Product(factors: seq<Mat4>): (m: Mat4)
    requires |factors| >= 1
    ensures (forall i :: 0 <= i < |factors| ==> IsAffine(factors[i])) ==> IsAffine(m)
  {
    if |factors| == 1 then factors[0]
    else
      var init := factors[..|factors| - 1];
      var m := Product(init);
      if forall i :: 0 <= i < |factors| ==> IsAffine(factors[i]) then
        assert forall i :: 0 <= i < |init| ==> init[i] == factors[i];
        MulAffine(m, factors[|factors| - 1]);
        Mul(m, factors[|factors| - 1])
      else
        Mul(m, factors[|factors| - 1])
  }

  /** A chain of five factors multiplies out left to right. */
  lemma ProductOfFive(a: Mat4, b: Mat4, c: Mat4, d: Mat4, e: Mat4)
    ensures Product([a, b, c, d, e]) == Mul(Mul(Mul(Mul(a, b), c), d), e)
  {
    assert [a, b][..1] == [a];
    assert Product([a, b]) == Mul(a, b);
    assert [a, b, c][..2] == [a, b];
    assert Product([a, b, c]) == Mul(Mul(a, b), c);
    assert [a, b, c, d][..3] == [a, b, c];
    assert Product([a, b, c, d]) == Mul(Mul(Mul(a, b), c), d);
    assert [a, b, c, d, e][..4] == [a, b, c, d];
  }
}
