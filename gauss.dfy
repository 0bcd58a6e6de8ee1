/**
 * Quadrature geometry kernel of the bilinear quadrilateral (cpp/Gauss.cpp).
 * At a reference point (ksi, eta) the kernel builds the reference
 * derivatives G of the four shape functions, the Jacobian J = G * XY of the
 * map to the physical node coordinates, its determinant, the global
 * derivatives (1/detJ) * adj(J) * G and the 3x8 strain-displacement
 * operator B. The value-level definitions come first; the methods that fill
 * GaussMatrix objects as the source does are proved equal to them.
 */
module Quadrature {
  import opened MatrixAlgebra
  import opened DenseMatrix

  // ---------------------------------------------------------------------
  // Shape-function derivative tables

  const SignEta: seq<int> := [1, -1, 1, -1]
  const OffEta: seq<int> := [-1, 1, 1, -1]
  const SignKsi: seq<int> := [1, -1, 1, -1]
  const OffKsi: seq<int> := [-1, -1, 1, 1]

  /** Reference corners (ksi_i, eta_i) of the four nodes, counter-clockwise. */
  const CornerKsi: seq<real> := [-1.0, 1.0, 1.0, -1.0]
  const CornerEta: seq<real> := [-1.0, -1.0, 1.0, 1.0]

  /** Bilinear shape function N_i = (1 + ksi*ksi_i)(1 + eta*eta_i)/4. */
  function Shape(i: nat, ksi: real, eta: real): real
    requires i < 4
  {
    0.25 * (1.0 + ksi * CornerKsi[i]) * (1.0 + eta * CornerEta[i])
  }

  function RowSum4(s: seq<real>): real
    requires |s| == 4
  {
    s[0] + s[1] + s[2] + s[3]
  }

  /** The 2x4 grid filled from the tables before scaling by 1/4. */
  function ShapeTable(ksi: real, eta: real): (g: Mat)
    ensures IsMatrix(g, 2, 4)
  {
    [ seq(4, i requires 0 <= i < 4 => SignEta[i] as real * eta + OffEta[i] as real),
      seq(4, i requires 0 <= i < 4 => SignKsi[i] as real * ksi + OffKsi[i] as real) ]
  }

  /** Reference derivatives: row 0 is dN_i/dksi, row 1 is dN_i/deta. Because
      each sign and offset table sums to zero, every row sums to zero. */
  function RefDerivatives(ksi: real, eta: real): (g: Mat)
    ensures IsMatrix(g, 2, 4)
    ensures RowSum4(g[0]) == 0.0 && RowSum4(g[1]) == 0.0
  {
    Scale(ShapeTable(ksi, eta), 2, 4, 0.25)
  }

  /** A function affine in p with slope `slope` grows by h * slope when p grows by h. */
  lemma AffineStep(c: real, w: real, p: real, h: real)
    ensures 0.25 * (1.0 + (p + h) * c) * w - 0.25 * (1.0 + p * c) * w == h * (0.25 * c * w)
  {
    assert 1.0 + (p + h) * c == (1.0 + p * c) + h * c;
  }

  /** Entry i of the tables, read against the corner coordinates: G(0, i) is
      ksi_i (1 + eta eta_i) / 4 and G(1, i) is eta_i (1 + ksi ksi_i) / 4. */
  lemma RefDerivativesAtCorners(i: nat, ksi: real, eta: real)
    requires i < 4
    ensures RefDerivatives(ksi, eta)[0][i] == 0.25 * CornerKsi[i] * (1.0 + eta * CornerEta[i])
    ensures RefDerivatives(ksi, eta)[1][i] == 0.25 * CornerEta[i] * (1.0 + ksi * CornerKsi[i])
  {
    if i == 0 {} else if i == 1 {} else if i == 2 {} else {}
  }

  lemma AffineStepRight(c: real, w: real, p: real, h: real)
    ensures 0.25 * w * (1.0 + (p + h) * c) - 0.25 * w * (1.0 + p * c) == h * (0.25 * c * w)
  {
    assert 1.0 + (p + h) * c == (1.0 + p * c) + h * c;
  }

  /** The tables are the derivatives of the bilinear shape functions: since
      N_i is affine in ksi, a step h in ksi changes N_i by exactly h times
      G(0, i). */
  lemma RefDerivativesKsiSlope(i: nat, ksi: real, eta: real, h: real)
    requires i < 4
    ensures Shape(i, ksi + h, eta) - Shape(i, ksi, eta) == h * RefDerivatives(ksi, eta)[0][i]
  {
    var c, w := CornerKsi[i], 1.0 + eta * CornerEta[i];
    calc {
      Shape(i, ksi + h, eta) - Shape(i, ksi, eta);
      0.25 * (1.0 + (ksi + h) * c) * w - 0.25 * (1.0 + ksi * c) * w;
      { AffineStep(c, w, ksi, h); }
      h * (0.25 * c * w);
      { RefDerivativesAtCorners(i, ksi, eta); }
      h * RefDerivatives(ksi, eta)[0][i];
    }
  }

  /** Likewise in eta: a step h in eta changes N_i by exactly h times G(1, i). */
  lemma RefDerivativesEtaSlope(i: nat, ksi: real, eta: real, h: real)
    requires i < 4
    ensures Shape(i, ksi, eta + h) - Shape(i, ksi, eta) == h * RefDerivatives(ksi, eta)[1][i]
  {
    var c, w := CornerEta[i], 1.0 + ksi * CornerKsi[i];
    calc {
      Shape(i, ksi, eta + h) - Shape(i, ksi, eta);
      0.25 * w * (1.0 + (eta + h) * c) - 0.25 * w * (1.0 + eta * c);
      { AffineStepRight(c, w, eta, h); }
      h * (0.25 * c * w);
      { RefDerivativesAtCorners(i, ksi, eta); }
      h * RefDerivatives(ksi, eta)[1][i];
    }
  }

  // ---------------------------------------------------------------------
  // Jacobian

  /** Node coordinates stacked as a 4x2 matrix: row i is (x[i], y[i]). */
  function CoordMatrix(x: seq<real>, y: seq<real>): (xy: Mat)
    requires |x| == 4 && |y| == 4
    ensures IsMatrix(xy, 4, 2)
    ensures forall i :: 0 <= i < 4 ==> xy[i][0] == x[i] && xy[i][1] == y[i]
  {
    seq(4, i requires 0 <= i < 4 => [x[i], y[i]])
  }

  function Jacobian(ksi: real, eta: real, x: seq<real>, y: seq<real>): (j: Mat)
    requires |x| == 4 && |y| == 4
    ensures IsMatrix(j, 2, 2)
  {
    Mul(RefDerivatives(ksi, eta), CoordMatrix(x, y), 2, 4, 2)
  }

  function Det2(j: Mat): real
    requires IsMatrix(j, 2, 2)
  {
    j[0][0] * j[1][1] - j[0][1] * j[1][0]
  }

  function JacobianDet(ksi: real, eta: real, x: seq<real>, y: seq<real>): real
    requires |x| == 4 && |y| == 4
  {
    Det2(Jacobian(ksi, eta, x, y))
  }

  function Adjugate(j: Mat): (a: Mat)
    requires IsMatrix(j, 2, 2)
    ensures IsMatrix(a, 2, 2)
  {
    [[j[1][1], -j[0][1]], [-j[1][0], j[0][0]]]
  }

  lemma Dot2(a: seq<real>, b: seq<real>)
    requires |a| == 2 && |b| == 2
    ensures Dot(a, b) == a[0] * b[0] + a[1] * b[1]
  {
    assert DotTo(a, b, 1) == a[0] * b[0];
  }

  lemma Dot3(a: seq<real>, b: seq<real>)
    requires |a| == 3 && |b| == 3
    ensures Dot(a, b) == a[0] * b[0] + a[1] * b[1] + a[2] * b[2]
  {
    assert DotTo(a, b, 1) == a[0] * b[0];
    assert DotTo(a, b, 2) == a[0] * b[0] + a[1] * b[1];
  }

  lemma Dot4(a: seq<real>, b: seq<real>)
    requires |a| == 4 && |b| == 4
    ensures Dot(a, b) == a[0] * b[0] + a[1] * b[1] + a[2] * b[2] + a[3] * b[3]
  {
    assert DotTo(a, b, 1) == a[0] * b[0];
    assert DotTo(a, b, 2) == a[0] * b[0] + a[1] * b[1];
    assert DotTo(a, b, 3) == a[0] * b[0] + a[1] * b[1] + a[2] * b[2];
  }

  lemma Dot8(a: seq<real>, b: seq<real>)
    requires |a| == 8 && |b| == 8
    ensures Dot(a, b) == a[0] * b[0] + a[1] * b[1] + a[2] * b[2] + a[3] * b[3]
                       + a[4] * b[4] + a[5] * b[5] + a[6] * b[6] + a[7] * b[7]
  {
    assert DotTo(a, b, 1) == a[0] * b[0];
    assert DotTo(a, b, 2) == DotTo(a, b, 1) + a[1] * b[1];
    assert DotTo(a, b, 3) == DotTo(a, b, 2) + a[2] * b[2];
    assert DotTo(a, b, 4) == DotTo(a, b, 3) + a[3] * b[3];
    assert DotTo(a, b, 5) == DotTo(a, b, 4) + a[4] * b[4];
    assert DotTo(a, b, 6) == DotTo(a, b, 5) + a[5] * b[5];
    assert DotTo(a, b, 7) == DotTo(a, b, 6) + a[6] * b[6];
  }

  /** adj(J) * J == det(J) * I */
  lemma AdjugateIdentity(j: Mat)
    requires IsMatrix(j, 2, 2)
    ensures Mul(Adjugate(j), j, 2, 2, 2) == [[Det2(j), 0.0], [0.0, Det2(j)]]
  {
    var p := Mul(Adjugate(j), j, 2, 2, 2);
    var a := Adjugate(j);
    forall r, c | 0 <= r < 2 && 0 <= c < 2
      ensures p[r][c] == [[Det2(j), 0.0], [0.0, Det2(j)]][r][c]
    {
      Dot2(a[r], Col(j, 2, 2, c));
    }
    Extensional(p, [[Det2(j), 0.0], [0.0, Det2(j)]], 2, 2);
  }

  /** Scalar core of translation invariance: shifting every coordinate by s
      adds s times the weight sum. */
  lemma ShiftedCombination(g0: real, g1: real, g2: real, g3: real,
                           v0: real, v1: real, v2: real, v3: real, s: real)
    ensures g0 * (v0 + s) + g1 * (v1 + s) + g2 * (v2 + s) + g3 * (v3 + s)
            == (g0 * v0 + g1 * v1 + g2 * v2 + g3 * v3) + s * (g0 + g1 + g2 + g3)
  {
  }

  /** A zero-sum row of weights gives the same combination of shifted values. */
  lemma ZeroSumShift(w: seq<real>, v: seq<real>, v': seq<real>, s: real)
    requires |w| == 4 && |v| == 4 && |v'| == 4 && RowSum4(w) == 0.0
    requires forall k :: 0 <= k < 4 ==> v'[k] == v[k] + s
    ensures Dot(w, v') == Dot(w, v)
  {
    Dot4(w, v);
    Dot4(w, v');
    ShiftedCombination(w[0], w[1], w[2], w[3], v[0], v[1], v[2], v[3], s);
  }

  /** Every entry of J depends on the node coordinates only through
      differences, because the rows of G sum to zero: translating all four
      nodes by (dx, dy) leaves J unchanged. */
  lemma JacobianTranslationInvariant(ksi: real, eta: real, x: seq<real>, y: seq<real>, dx: real, dy: real)
    requires |x| == 4 && |y| == 4
    ensures Jacobian(ksi, eta, Shifted(x, dx), Shifted(y, dy)) == Jacobian(ksi, eta, x, y)
  {
    var g := RefDerivatives(ksi, eta);
    var xy, xy' := CoordMatrix(x, y), CoordMatrix(Shifted(x, dx), Shifted(y, dy));
    var j, j' := Jacobian(ksi, eta, x, y), Jacobian(ksi, eta, Shifted(x, dx), Shifted(y, dy));
    forall r, c | 0 <= r < 2 && 0 <= c < 2
      ensures j'[r][c] == j[r][c]
    {
      var s := if c == 0 then dx else dy;
      ZeroSumShift(g[r], Col(xy, 4, 2, c), Col(xy', 4, 2, c), s);
    }
    Extensional(j', j, 2, 2);
  }

  function Shifted(v: seq<real>, d: real): (w: seq<real>)
    ensures |w| == |v| && forall i :: 0 <= i < |v| ==> w[i] == v[i] + d
  {
    seq(|v|, i requires 0 <= i < |v| => v[i] + d)
  }

  /** The unit square (0,0), (1,0), (1,1), (0,1) maps [-1,1]^2 onto a square
      of half the side, so detJ is 1/4 at every reference point. */
  lemma UnitSquareDeterminant(ksi: real, eta: real)
    ensures JacobianDet(ksi, eta, [0.0, 1.0, 1.0, 0.0], [0.0, 0.0, 1.0, 1.0]) == 0.25
  {
    var x, y := [0.0, 1.0, 1.0, 0.0], [0.0, 0.0, 1.0, 1.0];
    var g, xy := RefDerivatives(ksi, eta), CoordMatrix(x, y);
    var j := Jacobian(ksi, eta, x, y);
    forall r, c | 0 <= r < 2 && 0 <= c < 2
      ensures j[r][c] == if r == c then 0.5 else 0.0
    {
      Dot4(g[r], Col(xy, 4, 2, c));
    }
  }

  // ---------------------------------------------------------------------
  // Global derivatives and the strain-displacement operator

  /** dN_global = (1/detJ) * (adj(J) * G), in the order the source evaluates it. */
  function GlobalDerivatives(ksi: real, eta: real, x: seq<real>, y: seq<real>): (dn: Mat)
    requires |x| == 4 && |y| == 4 && JacobianDet(ksi, eta, x, y) != 0.0
    ensures IsMatrix(dn, 2, 4)
  {
    var j := Jacobian(ksi, eta, x, y);
    Scale(Mul(Adjugate(j), RefDerivatives(ksi, eta), 2, 2, 4), 2, 4, 1.0 / Det2(j))
  }

  /** The scalar identity behind adj(J) * J == det(J) * I, applied to one
      column (g0, g1) of G. */
  lemma InverseColumn(j00: real, j01: real, j10: real, j11: real, g0: real, g1: real, s: real)
    requires s * (j00 * j11 - j01 * j10) == 1.0
    ensures j00 * ((j11 * g0 + -j01 * g1) * s) + j01 * ((-j10 * g0 + j00 * g1) * s) == g0
    ensures j10 * ((j11 * g0 + -j01 * g1) * s) + j11 * ((-j10 * g0 + j00 * g1) * s) == g1
  {
    calc {
      j00 * ((j11 * g0 + -j01 * g1) * s) + j01 * ((-j10 * g0 + j00 * g1) * s);
      s * (j00 * j11 * g0 - j00 * j01 * g1 - j01 * j10 * g0 + j01 * j00 * g1);
      s * ((j00 * j11 - j01 * j10) * g0);
      (s * (j00 * j11 - j01 * j10)) * g0;
      g0;
    }
    calc {
      j10 * ((j11 * g0 + -j01 * g1) * s) + j11 * ((-j10 * g0 + j00 * g1) * s);
      s * (j10 * j11 * g0 - j10 * j01 * g1 - j11 * j10 * g0 + j11 * j00 * g1);
      s * ((j00 * j11 - j01 * j10) * g1);
      (s * (j00 * j11 - j01 * j10)) * g1;
      g1;
    }
  }

  /** (1/det J) * (adj(J) * G) is the solution X of J * X == G. */
  lemma AdjugateSolves(j: Mat, g: Mat, n: nat)
    requires IsMatrix(j, 2, 2) && IsMatrix(g, 2, n) && Det2(j) != 0.0
    ensures Mul(j, Scale(Mul(Adjugate(j), g, 2, 2, n), 2, n, 1.0 / Det2(j)), 2, 2, n) == g
  {
    var a, s := Adjugate(j), 1.0 / Det2(j);
    var dn := Scale(Mul(a, g, 2, 2, n), 2, n, s);
    var p := Mul(j, dn, 2, 2, n);
    forall r, c | 0 <= r < 2 && 0 <= c < n
      ensures p[r][c] == g[r][c]
    {
      var gc := Col(g, 2, n, c);
      Dot2(a[0], gc);
      Dot2(a[1], gc);
      Dot2(j[r], Col(dn, 2, n, c));
      InverseColumn(j[0][0], j[0][1], j[1][0], j[1][1], g[0][c], g[1][c], s);
    }
    Extensional(p, g, 2, n);
  }

  /** The global derivatives solve J * dN == G: they are J^-1 * G. */
  lemma GlobalDerivativesSolveJacobian(ksi: real, eta: real, x: seq<real>, y: seq<real>)
    requires |x| == 4 && |y| == 4 && JacobianDet(ksi, eta, x, y) != 0.0
    ensures Mul(Jacobian(ksi, eta, x, y), GlobalDerivatives(ksi, eta, x, y), 2, 2, 4) == RefDerivatives(ksi, eta)
  {
    AdjugateSolves(Jacobian(ksi, eta, x, y), RefDerivatives(ksi, eta), 4);
  }

  /** Scalar core of the row-sum argument: a combination of two zero-sum
      rows, scaled, sums to zero. */
  lemma CombinationSumsToZero(p: real, q: real, a0: real, a1: real, a2: real, a3: real,
                              b0: real, b1: real, b2: real, b3: real, s: real)
    requires a0 + a1 + a2 + a3 == 0.0 && b0 + b1 + b2 + b3 == 0.0
    ensures (p * a0 + q * b0) * s + (p * a1 + q * b1) * s + (p * a2 + q * b2) * s + (p * a3 + q * b3) * s == 0.0
  {
    calc {
      (p * a0 + q * b0) * s + (p * a1 + q * b1) * s + (p * a2 + q * b2) * s + (p * a3 + q * b3) * s;
      (p * (a0 + a1 + a2 + a3) + q * (b0 + b1 + b2 + b3)) * s;
      0.0;
    }
  }

  /** Row r of s * (A * G) sums to zero when both rows of G do. */
  lemma ScaledProductRowSum(a: Mat, g: Mat, s: real, r: nat)
    requires IsMatrix(a, 2, 2) && IsMatrix(g, 2, 4) && r < 2
    requires RowSum4(g[0]) == 0.0 && RowSum4(g[1]) == 0.0
    ensures RowSum4(Scale(Mul(a, g, 2, 2, 4), 2, 4, s)[r]) == 0.0
  {
    var dn := Scale(Mul(a, g, 2, 2, 4), 2, 4, s);
    forall c | 0 <= c < 4
      ensures dn[r][c] == (a[r][0] * g[0][c] + a[r][1] * g[1][c]) * s
    {
      Dot2(a[r], Col(g, 2, 4, c));
    }
    CombinationSumsToZero(a[r][0], a[r][1], g[0][0], g[0][1], g[0][2], g[0][3],
                          g[1][0], g[1][1], g[1][2], g[1][3], s);
  }

  /** Left-multiplying a 2x4 matrix whose rows sum to zero by any 2x2 matrix,
      then scaling, keeps the row sums zero. */
  lemma ScaledProductRowSums(a: Mat, g: Mat, s: real)
    requires IsMatrix(a, 2, 2) && IsMatrix(g, 2, 4)
    requires RowSum4(g[0]) == 0.0 && RowSum4(g[1]) == 0.0
    ensures RowSum4(Scale(Mul(a, g, 2, 2, 4), 2, 4, s)[0]) == 0.0
    ensures RowSum4(Scale(Mul(a, g, 2, 2, 4), 2, 4, s)[1]) == 0.0
  {
    ScaledProductRowSum(a, g, s, 0);
    ScaledProductRowSum(a, g, s, 1);
  }

  /** Each row of the global derivatives sums to zero, like the rows of G. */
  lemma GlobalDerivativesRowSums(ksi: real, eta: real, x: seq<real>, y: seq<real>)
    requires |x| == 4 && |y| == 4 && JacobianDet(ksi, eta, x, y) != 0.0
    ensures RowSum4(GlobalDerivatives(ksi, eta, x, y)[0]) == 0.0
    ensures RowSum4(GlobalDerivatives(ksi, eta, x, y)[1]) == 0.0
  {
    var j := Jacobian(ksi, eta, x, y);
    ScaledProductRowSums(Adjugate(j), RefDerivatives(ksi, eta), 1.0 / Det2(j));
  }

  /** The 3x8 strain-displacement layout: for node i, row 0 holds dN_i/dx at
      column 2i, row 1 holds dN_i/dy at column 2i+1, and the shear row 2
      holds dN_i/dy at 2i and dN_i/dx at 2i+1; every other entry is zero. */
  function StrainDisplacement(dn: Mat): (b: Mat)
    requires IsMatrix(dn, 2, 4)
    ensures IsMatrix(b, 3, 8)
    ensures forall i :: 0 <= i < 4 ==>
              b[0][2 * i] == dn[0][i] && b[0][2 * i + 1] == 0.0 &&
              b[1][2 * i] == 0.0 && b[1][2 * i + 1] == dn[1][i] &&
              b[2][2 * i] == dn[1][i] && b[2][2 * i + 1] == dn[0][i]
  {
    [ [dn[0][0], 0.0, dn[0][1], 0.0, dn[0][2], 0.0, dn[0][3], 0.0],
      [0.0, dn[1][0], 0.0, dn[1][1], 0.0, dn[1][2], 0.0, dn[1][3]],
      [dn[1][0], dn[0][0], dn[1][1], dn[0][1], dn[1][2], dn[0][2], dn[1][3], dn[0][3]] ]
  }

  function BMatrix(ksi: real, eta: real, x: seq<real>, y: seq<real>): (b: Mat)
    requires |x| == 4 && |y| == 4 && JacobianDet(ksi, eta, x, y) != 0.0
    ensures IsMatrix(b, 3, 8)
  {
    StrainDisplacement(GlobalDerivatives(ksi, eta, x, y))
  }

  /** B depends on the node coordinates only through J, so a rigid
      translation of the element leaves B (and detJ) unchanged. */
  lemma BMatrixTranslationInvariant(ksi: real, eta: real, x: seq<real>, y: seq<real>, dx: real, dy: real)
    requires |x| == 4 && |y| == 4 && JacobianDet(ksi, eta, x, y) != 0.0
    ensures JacobianDet(ksi, eta, Shifted(x, dx), Shifted(y, dy)) == JacobianDet(ksi, eta, x, y)
    ensures BMatrix(ksi, eta, Shifted(x, dx), Shifted(y, dy)) == BMatrix(ksi, eta, x, y)
  {
    JacobianTranslationInvariant(ksi, eta, x, y, dx, dy);
  }

  /** Nodal displacements that move every node by the same (a, b). */
  predicate UniformTranslation(u: Mat, a: real, b: real)
    requires IsMatrix(u, 8, 1)
  {
    forall i :: 0 <= i < 4 ==> u[2 * i][0] == a && u[2 * i + 1][0] == b
  }

  /** Scalar core of the zero-strain argument. */
  lemma UniformStrainTerms(p: seq<real>, q: seq<real>, a: real, b: real)
    requires |p| == 4 && |q| == 4 && RowSum4(p) == 0.0 && RowSum4(q) == 0.0
    ensures p[0] * a + 0.0 * b + p[1] * a + 0.0 * b + p[2] * a + 0.0 * b + p[3] * a + 0.0 * b == 0.0
    ensures 0.0 * a + q[0] * b + 0.0 * a + q[1] * b + 0.0 * a + q[2] * b + 0.0 * a + q[3] * b == 0.0
    ensures q[0] * a + p[0] * b + q[1] * a + p[1] * b + q[2] * a + p[2] * b + q[3] * a + p[3] * b == 0.0
  {
    assert p[0] * a + p[1] * a + p[2] * a + p[3] * a == RowSum4(p) * a;
    assert q[0] * b + q[1] * b + q[2] * b + q[3] * b == RowSum4(q) * b;
    assert q[0] * a + q[1] * a + q[2] * a + q[3] * a == RowSum4(q) * a;
    assert p[0] * b + p[1] * b + p[2] * b + p[3] * b == RowSum4(p) * b;
  }

  /** For derivatives whose rows sum to zero, the B layout maps a uniform
      translation to zero strain. */
  lemma LayoutAnnihilatesTranslation(dn: Mat, u: Mat, a: real, b: real)
    requires IsMatrix(dn, 2, 4) && RowSum4(dn[0]) == 0.0 && RowSum4(dn[1]) == 0.0
    requires IsMatrix(u, 8, 1) && UniformTranslation(u, a, b)
    ensures Mul(StrainDisplacement(dn), u, 3, 8, 1) == Zero(3, 1)
  {
    var bm := StrainDisplacement(dn);
    var strain := Mul(bm, u, 3, 8, 1);
    var col := Col(u, 8, 1, 0);
    assert col == [a, b, a, b, a, b, a, b] by {
      assert u[2 * 0][0] == a && u[2 * 1][0] == a && u[2 * 2][0] == a && u[2 * 3][0] == a;
      assert u[2 * 0 + 1][0] == b && u[2 * 1 + 1][0] == b && u[2 * 2 + 1][0] == b && u[2 * 3 + 1][0] == b;
    }
    Dot8(bm[0], col);
    Dot8(bm[1], col);
    Dot8(bm[2], col);
    UniformStrainTerms(dn[0], dn[1], a, b);
    Extensional(strain, Zero(3, 1), 3, 1);
  }

  /** A uniform translation produces no strain: B * u == 0. */
  lemma TranslationGivesZeroStrain(ksi: real, eta: real, x: seq<real>, y: seq<real>, u: Mat, a: real, b: real)
    requires |x| == 4 && |y| == 4 && JacobianDet(ksi, eta, x, y) != 0.0
    requires IsMatrix(u, 8, 1) && UniformTranslation(u, a, b)
    ensures Mul(BMatrix(ksi, eta, x, y), u, 3, 8, 1) == Zero(3, 1)
  {
    GlobalDerivativesRowSums(ksi, eta, x, y);
    LayoutAnnihilatesTranslation(GlobalDerivatives(ksi, eta, x, y), u, a, b);
  }

  // ---------------------------------------------------------------------
  // Quadrature-point stiffness and centroid stress

  /** The contribution weight * (B^T D B) * detJ of one quadrature point,
      grouped as (B^T D) B and scaled first by the weight, then by detJ. */
  function GaussPoint(d: Mat, ksi: real, eta: real, weight: real, x: seq<real>, y: seq<real>): (k: Mat)
    requires IsMatrix(d, 3, 3)
    requires |x| == 4 && |y| == 4 && JacobianDet(ksi, eta, x, y) != 0.0
    ensures IsMatrix(k, 8, 8)
  {
    var b := BMatrix(ksi, eta, x, y);
    var btdb := Mul(Mul(Transpose(b, 3, 8), d, 8, 3, 3), b, 8, 3, 8);
    Scale(Scale(btdb, 8, 8, weight), 8, 8, JacobianDet(ksi, eta, x, y))
  }

  lemma GaussPointSymmetric(d: Mat, ksi: real, eta: real, weight: real, x: seq<real>, y: seq<real>)
    requires IsMatrix(d, 3, 3) && Symmetric(d, 3)
    requires |x| == 4 && |y| == 4 && JacobianDet(ksi, eta, x, y) != 0.0
    ensures Symmetric(GaussPoint(d, ksi, eta, weight, x, y), 8)
  {
    var b := BMatrix(ksi, eta, x, y);
    var btdb := Mul(Mul(Transpose(b, 3, 8), d, 8, 3, 3), b, 8, 3, 8);
    CongruenceSymmetric(b, d, 3, 8);
    ScaleSymmetric(btdb, 8, weight);
    ScaleSymmetric(Scale(btdb, 8, 8, weight), 8, JacobianDet(ksi, eta, x, y));
  }

  lemma GaussPointTranslationInvariant(d: Mat, ksi: real, eta: real, weight: real, x: seq<real>, y: seq<real>, dx: real, dy: real)
    requires IsMatrix(d, 3, 3)
    requires |x| == 4 && |y| == 4 && JacobianDet(ksi, eta, x, y) != 0.0
    ensures JacobianDet(ksi, eta, Shifted(x, dx), Shifted(y, dy)) != 0.0
    ensures GaussPoint(d, ksi, eta, weight, Shifted(x, dx), Shifted(y, dy)) == GaussPoint(d, ksi, eta, weight, x, y)
  {
    BMatrixTranslationInvariant(ksi, eta, x, y, dx, dy);
  }

  /** The three stress components (D * (B * u)) read at the centroid
      ksi = eta = 0. */
  function CentroidStress(d: Mat, x: seq<real>, y: seq<real>, u: Mat): (s: seq<real>)
    requires IsMatrix(d, 3, 3) && IsMatrix(u, 8, 1)
    requires |x| == 4 && |y| == 4 && JacobianDet(0.0, 0.0, x, y) != 0.0
    ensures |s| == 3
  {
    var sigma := Mul(d, Mul(BMatrix(0.0, 0.0, x, y), u, 3, 8, 1), 3, 3, 1);
    [sigma[0][0], sigma[1][0], sigma[2][0]]
  }

  /** A rigid translation of the nodes gives zero stress. */
  lemma TranslationGivesZeroStress(d: Mat, x: seq<real>, y: seq<real>, u: Mat, a: real, b: real)
    requires IsMatrix(d, 3, 3) && IsMatrix(u, 8, 1)
    requires |x| == 4 && |y| == 4 && JacobianDet(0.0, 0.0, x, y) != 0.0
    requires UniformTranslation(u, a, b)
    ensures CentroidStress(d, x, y, u) == [0.0, 0.0, 0.0]
  {
    TranslationGivesZeroStrain(0.0, 0.0, x, y, u, a, b);
    var z := Zero(3, 1);
    var sigma := Mul(d, z, 3, 3, 1);
    forall r | 0 <= r < 3
      ensures sigma[r][0] == 0.0
    {
      DotToZero(Col(z, 3, 1, 0), d[r], 3);
      DotCommutative(d[r], Col(z, 3, 1, 0));
    }
  }

  // ---------------------------------------------------------------------
  // The source's procedures

  /** computeB, step 1: the node coordinates copied into the 4x2 matrix XY. */
  method FillCoordinates(x: seq<real>, y: seq<real>) returns (xy: GaussMatrix)
    requires |x| == 4 && |y| == 4
    ensures fresh(xy) && xy.Valid() && xy.rows == 4 && xy.cols == 2
    ensures xy.data == CoordMatrix(x, y)
  {
    xy := new GaussMatrix(4, 2);
    for i := 0 to 4
      invariant xy.Valid() && xy.rows == 4 && xy.cols == 2
      invariant forall k :: 0 <= k < i ==> xy.data[k][0] == x[k] && xy.data[k][1] == y[k]
    {
      xy.Set(i, 0, x[i]);
      xy.Set(i, 1, y[i]);
    }
    Extensional(xy.data, CoordMatrix(x, y), 4, 2);
  }

  /** computeB, step 2: G filled from the sign and offset tables, then scaled
      by 1/4. */
  method FillRefDerivatives(ksi: real, eta: real) returns (g: GaussMatrix)
    ensures fresh(g) && g.Valid() && g.rows == 2 && g.cols == 4
    ensures g.data == RefDerivatives(ksi, eta)
  {
    var table := new GaussMatrix(2, 4);
    ghost var expected := ShapeTable(ksi, eta);
    for i := 0 to 4
      invariant table.Valid() && table.rows == 2 && table.cols == 4
      invariant forall k :: 0 <= k < i ==> table.data[0][k] == expected[0][k] && table.data[1][k] == expected[1][k]
    {
      table.Set(0, i, SignEta[i] as real * eta + OffEta[i] as real);
      table.Set(1, i, SignKsi[i] as real * ksi + OffKsi[i] as real);
    }
    Extensional(table.data, expected, 2, 4);
    g := table.ScaledBy(0.25);
  }

  /** computeB, step 4: the adjugate [[J11, -J01], [-J10, J00]]. */
  method FillAdjugate(j: GaussMatrix) returns (adJ: GaussMatrix)
    requires j.Valid() && j.rows == 2 && j.cols == 2
    ensures fresh(adJ) && adJ.Valid() && adJ.rows == 2 && adJ.cols == 2
    ensures adJ.data == Adjugate(j.data)
  {
    adJ := new GaussMatrix(2, 2);
    adJ.Set(0, 0, j.At(1, 1));
    adJ.Set(0, 1, -j.At(0, 1));
    adJ.Set(1, 0, -j.At(1, 0));
    adJ.Set(1, 1, j.At(0, 0));
    Extensional(adJ.data, Adjugate(j.data), 2, 2);
  }

  /** computeB, step 6: B filled node by node from the global derivatives;
      the entries the loop does not write keep their initial zero. */
  method FillStrainDisplacement(dn: GaussMatrix) returns (b: GaussMatrix)
    requires dn.Valid() && dn.rows == 2 && dn.cols == 4
    ensures fresh(b) && b.Valid() && b.rows == 3 && b.cols == 8
    ensures b.data == StrainDisplacement(dn.data)
  {
    ghost var layout := StrainDisplacement(dn.data);
    b := new GaussMatrix(3, 8);
    for i := 0 to 4
      invariant b.Valid() && b.rows == 3 && b.cols == 8
      invariant forall n :: 0 <= n < i ==>
                  b.data[0][2 * n] == layout[0][2 * n] && b.data[0][2 * n + 1] == layout[0][2 * n + 1] &&
                  b.data[1][2 * n] == layout[1][2 * n] && b.data[1][2 * n + 1] == layout[1][2 * n + 1] &&
                  b.data[2][2 * n] == layout[2][2 * n] && b.data[2][2 * n + 1] == layout[2][2 * n + 1]
      invariant forall n :: i <= n < 4 ==>
                  b.data[0][2 * n] == 0.0 && b.data[0][2 * n + 1] == 0.0 &&
                  b.data[1][2 * n] == 0.0 && b.data[1][2 * n + 1] == 0.0 &&
                  b.data[2][2 * n] == 0.0 && b.data[2][2 * n + 1] == 0.0
    {
      b.Set(0, 2 * i, dn.At(0, i));
      b.Set(1, 2 * i + 1, dn.At(1, i));
      b.Set(2, 2 * i, dn.At(1, i));
      b.Set(2, 2 * i + 1, dn.At(0, i));
    }
    forall r, c | 0 <= r < 3 && 0 <= c < 8
      ensures b.data[r][c] == layout[r][c]
    {
      assert c == 2 * (c / 2) + c % 2;
    }
    Extensional(b.data, layout, 3, 8);
  }

  /** computeB: fills XY and G, forms J, detJ and adj(J), then the global
      derivatives (1/detJ) * (adj(J) * G) and B, returning B and detJ. */
  method ComputeB(ksi: real, eta: real, x: seq<real>, y: seq<real>) returns (b: GaussMatrix, detJ: real)
    requires |x| == 4 && |y| == 4 && JacobianDet(ksi, eta, x, y) != 0.0
    ensures fresh(b) && b.Valid() && b.rows == 3 && b.cols == 8
    ensures detJ == JacobianDet(ksi, eta, x, y)
    ensures b.data == BMatrix(ksi, eta, x, y)
  {
    var xy := FillCoordinates(x, y);
    var g := FillRefDerivatives(ksi, eta);
    var j := g.Times(xy);
    assert j.data == Jacobian(ksi, eta, x, y);
    detJ := j.At(0, 0) * j.At(1, 1) - j.At(0, 1) * j.At(1, 0);
    assert detJ == Det2(j.data);
    var invDetJ := 1.0 / detJ;
    var adJ := FillAdjugate(j);
    var dnGlobal := adJ.Times(g);
    dnGlobal := ScalarTimes(invDetJ, dnGlobal);
    b := FillStrainDisplacement(dnGlobal);
  }

  /** Gauss: the stiffness contribution of one quadrature point. */
  method Gauss(d: GaussMatrix, ksi: real, eta: real, weight: real, x: seq<real>, y: seq<real>) returns (k: GaussMatrix)
    requires d.Valid() && d.rows == 3 && d.cols == 3
    requires |x| == 4 && |y| == 4 && JacobianDet(ksi, eta, x, y) != 0.0
    ensures fresh(k) && k.Valid() && k.rows == 8 && k.cols == 8
    ensures k.data == GaussPoint(d.data, ksi, eta, weight, x, y)
  {
    var b, detJ := ComputeB(ksi, eta, x, y);
    var bt := b.T();
    var btd := bt.Times(d);
    var btdb := btd.Times(b);
    var weighted := ScalarTimes(weight, btdb);
    k := weighted.ScaledBy(detJ);
  }

  /** The copy loop of GaussStress: stress[i] := sigma(i, 0) for i < 3. */
  method StoreStress(sigma: GaussMatrix, stress: array<real>)
    requires sigma.Valid() && sigma.rows == 3 && sigma.cols == 1 && stress.Length >= 3
    modifies stress
    ensures stress[..3] == [sigma.data[0][0], sigma.data[1][0], sigma.data[2][0]]
    ensures forall k :: 3 <= k < stress.Length ==> stress[k] == old(stress[k])
  {
    for i := 0 to 3
      invariant forall k :: 0 <= k < i ==> stress[k] == sigma.data[k][0]
      invariant forall k :: 3 <= k < stress.Length ==> stress[k] == old(stress[k])
    {
      stress[i] := sigma.At(i, 0);
    }
  }

  /** GaussStress: one-point stress recovery at the centroid; writes the
      three components into stress[0..3] and nothing else. */
  method GaussStress(d: GaussMatrix, x: seq<real>, y: seq<real>, u: GaussMatrix, stress: array<real>)
    requires d.Valid() && d.rows == 3 && d.cols == 3
    requires u.Valid() && u.rows == 8 && u.cols == 1
    requires |x| == 4 && |y| == 4 && JacobianDet(0.0, 0.0, x, y) != 0.0
    requires stress.Length >= 3
    modifies stress
    ensures stress[..3] == CentroidStress(d.data, x, y, u.data)
    ensures forall k :: 3 <= k < stress.Length ==> stress[k] == old(stress[k])
  {
    var b, detJ := ComputeB(0.0, 0.0, x, y);
    var strain := b.Times(u);
    var sigma := d.Times(strain);
    StoreStress(sigma, stress);
  }
}
