/**
 * The four-node quadrilateral plane element (cpp/Q4.cpp): node and material
 * records, the 2x2 Gauss rule, the plane-stress constitutive matrix, the
 * gather of the element's nodal displacements from the global vector, the
 * location matrix, the stiffness accumulated over the four Gauss points and
 * packed column by column into 36 entries, and the centroid stress.
 */
module Q4Element {
  import opened MatrixAlgebra
  import opened DenseMatrix
  import opened Quadrature

  // ---------------------------------------------------------------------
  // Records

  /** Degrees of freedom stored per node. */
  const NDF: nat := 3

  /** A node: its number, its three coordinates and one boundary code per
      degree of freedom. A code of 0 marks a restrained freedom; any other
      code c is the global equation number, read at Disp[c - 1]. */
  datatype Node = Node(nodeNumber: nat, xyz: seq<real>, bcode: seq<nat>)

  predicate WellFormed(n: Node) {
    |n.xyz| == 3 && |n.bcode| == NDF
  }

  predicate WellFormedNodes(nodes: seq<Node>) {
    |nodes| == 4 && forall i :: 0 <= i < 4 ==> WellFormed(nodes[i])
  }

  /** Property set number, Young's modulus, Poisson's ratio and thickness. */
  datatype Q4Material = Q4Material(nset: nat, E: real, nu: real, t: real)

  // ---------------------------------------------------------------------
  // The 2x2 Gauss rule

  /** The rounded abscissa 1/sqrt(3) the element uses. */
  const GaussCoord: real := 0.57735027

  const GaussPoints: seq<(real, real)> := [
    (-GaussCoord, -GaussCoord),
    ( GaussCoord, -GaussCoord),
    ( GaussCoord,  GaussCoord),
    (-GaussCoord,  GaussCoord)
  ]

  /** The four points are the four sign combinations (+-g, +-g), each exactly
      once, listed counter-clockwise like the element's nodes. */
  lemma GaussPointsAreSignCombinations()
    ensures |GaussPoints| == 4
    ensures forall i :: 0 <= i < 4 ==>
              GaussPoints[i] == (CornerKsi[i] * GaussCoord, CornerEta[i] * GaussCoord)
    ensures forall i, j :: 0 <= i < j < 4 ==> GaussPoints[i] != GaussPoints[j]
    ensures (-GaussCoord, -GaussCoord) in GaussPoints && (GaussCoord, -GaussCoord) in GaussPoints
    ensures (GaussCoord, GaussCoord) in GaussPoints && (-GaussCoord, GaussCoord) in GaussPoints
  {
    assert GaussPoints[0] == (-GaussCoord, -GaussCoord);
    assert GaussPoints[3] == (-GaussCoord, GaussCoord);
  }

  /** The Jacobian determinant is nonzero at every Gauss point, so each of the
      four reciprocals 1/detJ the stiffness takes is defined. */
  predicate Nondegenerate(x: seq<real>, y: seq<real>)
    requires |x| == 4 && |y| == 4
  {
    forall i :: 0 <= i < 4 ==> JacobianDet(GaussPoints[i].0, GaussPoints[i].1, x, y) != 0.0
  }

  // ---------------------------------------------------------------------
  // Coordinates

  function XCoords(nodes: seq<Node>): (x: seq<real>)
    requires WellFormedNodes(nodes)
    ensures |x| == 4
  {
    seq(4, i requires 0 <= i < 4 => nodes[i].xyz[0])
  }

  function YCoords(nodes: seq<Node>): (y: seq<real>)
    requires WellFormedNodes(nodes)
    ensures |y| == 4
  {
    seq(4, i requires 0 <= i < 4 => nodes[i].xyz[1])
  }

  /** getLocalCoords: x[i] and y[i] are the first two coordinates of node i,
      in node order. */
  method GetLocalCoords(nodes: seq<Node>) returns (x: seq<real>, y: seq<real>)
    requires WellFormedNodes(nodes)
    ensures |x| == 4 && |y| == 4
    ensures forall i :: 0 <= i < 4 ==> x[i] == nodes[i].xyz[0] && y[i] == nodes[i].xyz[1]
    ensures x == XCoords(nodes) && y == YCoords(nodes)
  {
    x, y := [], [];
    for i := 0 to 4
      invariant |x| == i && |y| == i
      invariant forall k :: 0 <= k < i ==> x[k] == nodes[k].xyz[0] && y[k] == nodes[k].xyz[1]
    {
      x := x + [nodes[i].xyz[0]];
      y := y + [nodes[i].xyz[1]];
    }
  }

  // ---------------------------------------------------------------------
  // Plane-stress constitutive matrix

  /** Poisson's ratios for which both quotients of the constitutive matrix
      are defined: neither 1 - nu^2 nor 1 + nu is zero. */
  predicate AdmissiblePoisson(nu: real) {
    1.0 - nu * nu != 0.0 && 1.0 + nu != 0.0
  }

  /** Those are exactly the ratios other than 1 and -1. */
  lemma AdmissiblePoissonIff(nu: real)
    ensures AdmissiblePoisson(nu) <==> nu != 1.0 && nu != -1.0
  {
    assert 1.0 - nu * nu == (1.0 - nu) * (1.0 + nu);
  }

  /** c1 = E/(1 - nu^2)*t, the in-plane normal stiffness. */
  function NormalStiffness(e: real, nu: real, t: real): real
    requires AdmissiblePoisson(nu)
  {
    e / (1.0 - nu * nu) * t
  }

  /** c2 = nu*c1, the coupling of the two normal directions. */
  function CouplingStiffness(e: real, nu: real, t: real): real
    requires AdmissiblePoisson(nu)
  {
    nu * NormalStiffness(e, nu, t)
  }

  /** c3 = 0.5*E/(1 + nu)*t, the shear stiffness G*t. */
  function ShearStiffness(e: real, nu: real, t: real): real
    requires AdmissiblePoisson(nu)
  {
    0.5 * e / (1.0 + nu) * t
  }

  /** The plane-stress constitutive matrix [[c1, c2, 0], [c2, c1, 0], [0, 0, c3]]
      with c2 = nu*c1, for modulus e, ratio nu and thickness t. */
  function ConstitutiveMatrix(e: real, nu: real, t: real): (d: Mat)
    requires AdmissiblePoisson(nu)
    ensures IsMatrix(d, 3, 3) && Symmetric(d, 3)
  {
    var c1, c2, c3 := NormalStiffness(e, nu, t), CouplingStiffness(e, nu, t), ShearStiffness(e, nu, t);
    [[c1, c2, 0.0], [c2, c1, 0.0], [0.0, 0.0, c3]]
  }

  /** An uncoupled material (nu = 0) has E*t on the normal directions and
      half of it in shear. */
  lemma ConstitutiveMatrixUncoupled(e: real, t: real)
    ensures AdmissiblePoisson(0.0)
    ensures ConstitutiveMatrix(e, 0.0, t) == [[e * t, 0.0, 0.0], [0.0, e * t, 0.0], [0.0, 0.0, 0.5 * e * t]]
  {
    assert NormalStiffness(e, 0.0, t) == e * t;
    assert ShearStiffness(e, 0.0, t) == 0.5 * e * t;
  }

  /** Under uniaxial stress the lateral strain is -nu times the axial one:
      D maps the strain (1, -nu, 0) to the stress (E*t, 0, 0). */
  lemma ConstitutiveUniaxial(e: real, nu: real, t: real)
    requires AdmissiblePoisson(nu)
    ensures |MatVec(ConstitutiveMatrix(e, nu, t), 3, 3, [1.0, -nu, 0.0])| == 3
    ensures MatVec(ConstitutiveMatrix(e, nu, t), 3, 3, [1.0, -nu, 0.0])[0] == e * t
    ensures MatVec(ConstitutiveMatrix(e, nu, t), 3, 3, [1.0, -nu, 0.0])[1] == 0.0
    ensures MatVec(ConstitutiveMatrix(e, nu, t), 3, 3, [1.0, -nu, 0.0])[2] == 0.0
  {
    var d := ConstitutiveMatrix(e, nu, t);
    var strain := [1.0, -nu, 0.0];
    var c1, c2 := NormalStiffness(e, nu, t), CouplingStiffness(e, nu, t);
    calc {
      c1 * 1.0 + c2 * -nu + 0.0 * 0.0;
      c1 * (1.0 - nu * nu);
      e / (1.0 - nu * nu) * t * (1.0 - nu * nu);
      e * t;
    }
    assert c2 * 1.0 + c1 * -nu + 0.0 * 0.0 == 0.0;
    Dot3(d[0], strain);
    Dot3(d[1], strain);
    Dot3(d[2], strain);
  }

  /** The arithmetic of buildD on the three material constants. */
  method FillConstitutive(e: real, nu: real, t: real) returns (d: GaussMatrix)
    requires AdmissiblePoisson(nu)
    ensures fresh(d) && d.Valid() && d.rows == 3 && d.cols == 3
    ensures d.data == ConstitutiveMatrix(e, nu, t)
  {
    var c1 := NormalStiffness(e, nu, t);
    var c2 := CouplingStiffness(e, nu, t);
    var c3 := ShearStiffness(e, nu, t);
    d := new GaussMatrix(3, 3);
    d.Set(0, 0, c1); d.Set(0, 1, c2); d.Set(0, 2, 0.0);
    d.Set(1, 0, c2); d.Set(1, 1, c1); d.Set(1, 2, 0.0);
    d.Set(2, 0, 0.0); d.Set(2, 1, 0.0); d.Set(2, 2, c3);
    assert d.data[0] == [c1, c2, 0.0] && d.data[1] == [c2, c1, 0.0] && d.data[2] == [0.0, 0.0, c3];
  }

  /** buildD: reads E, nu and t from the material and writes the
      constitutive matrix entry by entry into a fresh 3x3 matrix. */
  method BuildD(m: Q4Material) returns (d: GaussMatrix)
    requires AdmissiblePoisson(m.nu)
    ensures fresh(d) && d.Valid() && d.rows == 3 && d.cols == 3
    ensures d.data == ConstitutiveMatrix(m.E, m.nu, m.t)
  {
    d := FillConstitutive(m.E, m.nu, m.t);
  }

  // ---------------------------------------------------------------------
  // Equation codes and the local displacement vector

  /** The value of one freedom: 0.0 when restrained (code 0), else the
      global displacement at position code - 1. */
  function DofValue(disp: seq<real>, code: nat): (v: real)
    requires code <= |disp|
    ensures code == 0 ==> v == 0.0
    ensures code > 0 ==> v == disp[code - 1]
  {
    if code == 0 then 0.0 else disp[code - 1]
  }

  /** Every in-plane code of every node addresses the displacement vector. */
  predicate CodesInRange(nodes: seq<Node>, disp: seq<real>)
    requires WellFormedNodes(nodes)
  {
    forall i, d :: 0 <= i < 4 && 0 <= d < 2 ==> nodes[i].bcode[d] <= |disp|
  }

  /** The codes of the element's eight freedoms, node by node, x before y. */
  function LocationCodes(nodes: seq<Node>): (lm: seq<nat>)
    requires WellFormedNodes(nodes)
    ensures |lm| == 8
    ensures forall n, d :: 0 <= n < 4 && 0 <= d < 2 ==> lm[2 * n + d] == nodes[n].bcode[d]
  {
    [nodes[0].bcode[0], nodes[0].bcode[1], nodes[1].bcode[0], nodes[1].bcode[1],
     nodes[2].bcode[0], nodes[2].bcode[1], nodes[3].bcode[0], nodes[3].bcode[1]]
  }

  /** The 8x1 local displacement vector u: u(2i) and u(2i+1) are the values
      of the two in-plane freedoms of node i. */
  function LocalDisplacement(nodes: seq<Node>, disp: seq<real>): (u: Mat)
    requires WellFormedNodes(nodes) && CodesInRange(nodes, disp)
    ensures IsMatrix(u, 8, 1)
  {
    var lm := LocationCodes(nodes);
    seq(8, k requires 0 <= k < 8 => [DofValue(disp, lm[k])])
  }

  /** Local displacement entry k is read through location code k, so
      gathering u and scattering K use the same equation numbers; node i's
      x and y freedoms land at rows 2i and 2i+1. */
  lemma LocalDisplacementUsesLocationCodes(nodes: seq<Node>, disp: seq<real>)
    requires WellFormedNodes(nodes) && CodesInRange(nodes, disp)
    ensures forall k :: 0 <= k < 8 ==> LocationCodes(nodes)[k] <= |disp|
    ensures forall k :: 0 <= k < 8 ==>
              LocalDisplacement(nodes, disp)[k][0] == DofValue(disp, LocationCodes(nodes)[k])
    ensures forall i :: 0 <= i < 4 ==>
              LocalDisplacement(nodes, disp)[2 * i][0] == DofValue(disp, nodes[i].bcode[0]) &&
              LocalDisplacement(nodes, disp)[2 * i + 1][0] == DofValue(disp, nodes[i].bcode[1])
  {
    var lm := LocationCodes(nodes);
    forall k | 0 <= k < 8
      ensures lm[k] <= |disp|
    {
      assert lm[k] == nodes[k / 2].bcode[k % 2] by {
        assert k == 2 * (k / 2) + k % 2;
      }
    }
  }

  /** assembleLocalU: fills u(2i, 0) and u(2i+1, 0) for every node. */
  method AssembleLocalU(nodes: seq<Node>, disp: seq<real>, u: GaussMatrix)
    requires WellFormedNodes(nodes) && CodesInRange(nodes, disp)
    requires u.Valid() && u.rows == 8 && u.cols == 1
    modifies u
    ensures u.Valid() && u.data == LocalDisplacement(nodes, disp)
  {
    LocalDisplacementUsesLocationCodes(nodes, disp);
    ghost var target := LocalDisplacement(nodes, disp);
    for i := 0 to 4
      invariant u.Valid() && u.rows == 8 && u.cols == 1
      invariant forall k :: 0 <= k < 2 * i ==> u.data[k][0] == target[k][0]
    {
      var bc0, bc1 := nodes[i].bcode[0], nodes[i].bcode[1];
      u.Set(2 * i, 0, if bc0 == 0 then 0.0 else disp[bc0 - 1]);
      u.Set(2 * i + 1, 0, if bc1 == 0 then 0.0 else disp[bc1 - 1]);
    }
    Extensional(u.data, target, 8, 1);
  }

  // ---------------------------------------------------------------------
  // Packed upper triangle

  /** Triangle(n) = 0 + 1 + ... + n. */
  function Triangle(n: nat): nat {
    if n == 0 then 0 else Triangle(n - 1) + n
  }

  lemma {:induction false} TriangleClosedForm(n: nat)
    ensures 2 * Triangle(n) == n * (n + 1)
  {
    if n > 0 {
      TriangleClosedForm(n - 1);
    }
  }

  /** Where entry (i, j), i <= j, of the upper triangle lands: column j
      starts at j(j+1)/2 and is written from the diagonal upward. */
  function PackedIndex(i: nat, j: nat): (p: nat)
    requires i <= j
    ensures 2 * p == j * (j + 1) + 2 * (j - i)
    ensures Triangle(j) <= p < Triangle(j + 1)
  {
    TriangleClosedForm(j);
    Triangle(j) + (j - i)
  }

  /** Column j of an 8x8 matrix from the diagonal up: K(j,j), ..., K(0,j). */
  function ColumnUpward(k: Mat, j: nat): (c: seq<real>)
    requires IsMatrix(k, 8, 8) && j < 8
    ensures |c| == j + 1 && forall t :: 0 <= t <= j ==> c[t] == k[j - t][j]
  {
    seq(j + 1, t requires 0 <= t <= j => k[j - t][j])
  }

  /** The first n columns of the upper triangle, packed in order. */
  function PackColumns(k: Mat, n: nat): (p: seq<real>)
    requires IsMatrix(k, 8, 8) && n <= 8
    ensures |p| == Triangle(n)
  {
    if n == 0 then [] else PackColumns(k, n - 1) + ColumnUpward(k, n - 1)
  }

  function PackUpper(k: Mat): (p: seq<real>)
    requires IsMatrix(k, 8, 8)
    ensures |p| == 36
  {
    PackColumns(k, 8)
  }

  /** Entry (i, j) of the upper triangle sits at PackedIndex(i, j). */
  lemma {:induction false} PackColumnsEntry(k: Mat, n: nat, i: nat, j: nat)
    requires IsMatrix(k, 8, 8) && n <= 8 && i <= j < n
    ensures PackedIndex(i, j) < |PackColumns(k, n)|
    ensures PackColumns(k, n)[PackedIndex(i, j)] == k[i][j]
  {
    var p := PackedIndex(i, j);
    if j < n - 1 {
      PackColumnsEntry(k, n - 1, i, j);
      assert Triangle(j + 1) <= Triangle(n - 1) by { TriangleMonotone(j + 1, n - 1); }
    } else {
      assert PackColumns(k, n)[p] == ColumnUpward(k, j)[j - i];
    }
  }

  lemma {:induction false} TriangleMonotone(a: nat, b: nat)
    requires a <= b
    ensures Triangle(a) <= Triangle(b)
    decreases b
  {
    if a < b {
      TriangleMonotone(a, b - 1);
    }
  }

  /** Distinct upper-triangle entries go to distinct places. */
  lemma PackedIndexInjective(i: nat, j: nat, i': nat, j': nat)
    requires i <= j && i' <= j'
    requires PackedIndex(i, j) == PackedIndex(i', j')
    ensures i == i' && j == j'
  {
    if j < j' {
      TriangleMonotone(j + 1, j');
    } else if j' < j {
      TriangleMonotone(j' + 1, j);
    }
  }

  /** Every place below Triangle(n) holds some upper-triangle entry of the
      first n columns. */
  lemma {:induction false} PackedIndexOnto(p: nat, n: nat) returns (i: nat, j: nat)
    requires p < Triangle(n)
    ensures i <= j < n && PackedIndex(i, j) == p
  {
    if p < Triangle(n - 1) {
      i, j := PackedIndexOnto(p, n - 1);
    } else {
      j := n - 1;
      i := j - (p - Triangle(j));
    }
  }

  /** The packing loop's result: the 36 entries of the upper triangle, each
      written at exactly one place and every place written. */
  lemma PackUpperLayout(k: Mat)
    requires IsMatrix(k, 8, 8)
    ensures Triangle(8) == 36
    ensures forall i, j :: 0 <= i <= j < 8 ==> PackUpper(k)[PackedIndex(i, j)] == k[i][j]
  {
    forall i, j | 0 <= i <= j < 8
      ensures PackUpper(k)[PackedIndex(i, j)] == k[i][j]
    {
      PackColumnsEntry(k, 8, i, j);
    }
  }

  /** A symmetric matrix is recovered in full from its packed upper triangle. */
  lemma UnpackSymmetric(k: Mat, i: nat, j: nat)
    requires IsMatrix(k, 8, 8) && Symmetric(k, 8) && i < 8 && j < 8
    ensures k[i][j] == if i <= j then PackUpper(k)[PackedIndex(i, j)] else PackUpper(k)[PackedIndex(j, i)]
  {
    if i <= j {
      PackColumnsEntry(k, 8, i, j);
    } else {
      PackColumnsEntry(k, 8, j, i);
    }
  }

  // ---------------------------------------------------------------------
  // Element stiffness

  /** The contributions of the four Gauss points, weight 1 each, in rule order. */
  function Contributions(d: Mat, x: seq<real>, y: seq<real>): (ks: seq<Mat>)
    requires IsMatrix(d, 3, 3) && |x| == 4 && |y| == 4 && Nondegenerate(x, y)
    ensures |ks| == 4 && AllShaped(ks, 8, 8)
  {
    seq(4, i requires 0 <= i < 4 => GaussPoint(d, GaussPoints[i].0, GaussPoints[i].1, 1.0, x, y))
  }

  /** K, the zero matrix plus the four contributions. */
  function Stiffness(d: Mat, x: seq<real>, y: seq<real>): (k: Mat)
    requires IsMatrix(d, 3, 3) && |x| == 4 && |y| == 4 && Nondegenerate(x, y)
    ensures IsMatrix(k, 8, 8)
  {
    SumMats(Contributions(d, x, y), 8, 8)
  }

  /** With a symmetric D (buildD's is) the stiffness is symmetric. */
  lemma StiffnessSymmetric(d: Mat, x: seq<real>, y: seq<real>)
    requires IsMatrix(d, 3, 3) && Symmetric(d, 3)
    requires |x| == 4 && |y| == 4 && Nondegenerate(x, y)
    ensures Symmetric(Stiffness(d, x, y), 8)
  {
    var ks := Contributions(d, x, y);
    forall m | m in ks
      ensures Symmetric(m, 8)
    {
      var i :| 0 <= i < 4 && ks[i] == m;
      GaussPointSymmetric(d, GaussPoints[i].0, GaussPoints[i].1, 1.0, x, y);
    }
    SumMatsSymmetric(ks, 8);
  }

  /** Summing the contributions in any order gives the same stiffness. */
  lemma StiffnessOrderInvariant(d: Mat, x: seq<real>, y: seq<real>, order: seq<Mat>)
    requires IsMatrix(d, 3, 3) && |x| == 4 && |y| == 4 && Nondegenerate(x, y)
    requires multiset(order) == multiset(Contributions(d, x, y))
    ensures AllShaped(order, 8, 8)
    ensures SumMats(order, 8, 8) == Stiffness(d, x, y)
  {
    SumMatsPermutation(Contributions(d, x, y), order, 8, 8);
  }

  /** Translating every node by (dx, dy) leaves the stiffness unchanged. */
  lemma StiffnessTranslationInvariant(d: Mat, x: seq<real>, y: seq<real>, dx: real, dy: real)
    requires IsMatrix(d, 3, 3) && |x| == 4 && |y| == 4 && Nondegenerate(x, y)
    ensures Nondegenerate(Shifted(x, dx), Shifted(y, dy))
    ensures Stiffness(d, Shifted(x, dx), Shifted(y, dy)) == Stiffness(d, x, y)
  {
    var x', y' := Shifted(x, dx), Shifted(y, dy);
    forall i | 0 <= i < 4
      ensures JacobianDet(GaussPoints[i].0, GaussPoints[i].1, x', y') != 0.0
      ensures GaussPoint(d, GaussPoints[i].0, GaussPoints[i].1, 1.0, x', y')
              == GaussPoint(d, GaussPoints[i].0, GaussPoints[i].1, 1.0, x, y)
    {
      GaussPointTranslationInvariant(d, GaussPoints[i].0, GaussPoints[i].1, 1.0, x, y, dx, dy);
    }
    assert Contributions(d, x', y') == Contributions(d, x, y);
  }

  /** clear(Matrix, n): zeroes the first n entries. */
  method Clear(a: array<real>, n: nat)
    requires n <= a.Length
    modifies a
    ensures forall k :: 0 <= k < n ==> a[k] == 0.0
    ensures forall k :: n <= k < a.Length ==> a[k] == old(a[k])
  {
    for k := 0 to n
      invariant forall l :: 0 <= l < k ==> a[l] == 0.0
      invariant forall l :: n <= l < a.Length ==> a[l] == old(a[l])
    {
      a[k] := 0.0;
    }
  }

  /** The accumulation loop K = K + Gauss(D, GP[i], 1.0, x, y). */
  method AccumulateStiffness(d: GaussMatrix, x: seq<real>, y: seq<real>) returns (k: GaussMatrix)
    requires d.Valid() && d.rows == 3 && d.cols == 3
    requires |x| == 4 && |y| == 4 && Nondegenerate(x, y)
    ensures fresh(k) && k.Valid() && k.rows == 8 && k.cols == 8
    ensures k.data == Stiffness(d.data, x, y)
  {
    ghost var ks := Contributions(d.data, x, y);
    k := new GaussMatrix(8, 8);
    for i := 0 to 4
      invariant fresh(k) && k.Valid() && k.rows == 8 && k.cols == 8
      invariant AllShaped(ks[..i], 8, 8)
      invariant k.data == SumMats(ks[..i], 8, 8)
    {
      var contribution := Gauss(d, GaussPoints[i].0, GaussPoints[i].1, 1.0, x, y);
      assert contribution.data == ks[i];
      SumMatsStep(ks, i, 8, 8);
      k := k.Plus(contribution);
    }
    assert ks[..4] == ks;
  }

  /** The packing loop: for each column j, rows j down to 0, Matrix[idx++] = K(i, j). */
  method PackStiffness(k: GaussMatrix, matrix: array<real>)
    requires k.Valid() && k.rows == 8 && k.cols == 8 && matrix.Length >= 36
    modifies matrix
    ensures matrix[..36] == PackUpper(k.data)
    ensures forall l :: 36 <= l < matrix.Length ==> matrix[l] == old(matrix[l])
  {
    var idx := 0;
    for j := 0 to 8
      invariant idx == Triangle(j) && idx <= 36
      invariant matrix[..idx] == PackColumns(k.data, j)
      invariant forall l :: 36 <= l < matrix.Length ==> matrix[l] == old(matrix[l])
    {
      TriangleMonotone(j + 1, 8);
      var i: int := j;
      while i >= 0
        invariant -1 <= i <= j && idx == Triangle(j) + (j - i)
        invariant matrix[..idx] == PackColumns(k.data, j) + ColumnUpward(k.data, j)[..j - i]
        invariant forall l :: 36 <= l < matrix.Length ==> matrix[l] == old(matrix[l])
        decreases i
      {
        matrix[idx] := k.At(i, j);
        assert matrix[..idx + 1] == matrix[..idx] + [matrix[idx]];
        assert ColumnUpward(k.data, j)[..j - i + 1] == ColumnUpward(k.data, j)[..j - i] + [k.data[i][j]];
        idx := idx + 1;
        i := i - 1;
      }
      assert ColumnUpward(k.data, j)[..j + 1] == ColumnUpward(k.data, j);
    }
  }

  // ---------------------------------------------------------------------
  // Element stress

  function CentroidStressOf(m: Q4Material, nodes: seq<Node>, disp: seq<real>): (s: seq<real>)
    requires AdmissiblePoisson(m.nu) && WellFormedNodes(nodes) && CodesInRange(nodes, disp)
    requires JacobianDet(0.0, 0.0, XCoords(nodes), YCoords(nodes)) != 0.0
    ensures |s| == 3
  {
    CentroidStress(ConstitutiveMatrix(m.E, m.nu, m.t), XCoords(nodes), YCoords(nodes), LocalDisplacement(nodes, disp))
  }

  /** A rigid translation: the x freedom of every node reads a and the y
      freedom reads b. A restrained freedom reads 0, so it fits only when the
      matching component is 0. */
  predicate RigidTranslation(nodes: seq<Node>, disp: seq<real>, a: real, b: real)
    requires WellFormedNodes(nodes) && CodesInRange(nodes, disp)
  {
    forall i :: 0 <= i < 4 ==>
      DofValue(disp, nodes[i].bcode[0]) == a && DofValue(disp, nodes[i].bcode[1]) == b
  }

  /** Moving the element rigidly (or leaving it fully restrained, a = b = 0)
      produces no stress. */
  lemma RigidTranslationStressFree(m: Q4Material, nodes: seq<Node>, disp: seq<real>, a: real, b: real)
    requires AdmissiblePoisson(m.nu) && WellFormedNodes(nodes) && CodesInRange(nodes, disp)
    requires JacobianDet(0.0, 0.0, XCoords(nodes), YCoords(nodes)) != 0.0
    requires RigidTranslation(nodes, disp, a, b)
    ensures CentroidStressOf(m, nodes, disp) == [0.0, 0.0, 0.0]
  {
    LocalDisplacementUsesLocationCodes(nodes, disp);
    TranslationGivesZeroStress(ConstitutiveMatrix(m.E, m.nu, m.t), XCoords(nodes), YCoords(nodes),
                               LocalDisplacement(nodes, disp), a, b);
  }

  // ---------------------------------------------------------------------
  // The element

  class CQ4 {
    /** The four nodes, counter-clockwise, and the element's material. */
    const nodes: seq<Node>
    const material: Q4Material
    /** The eight equation codes, filled by GenerateLocationMatrix. */
    const locationMatrix: array<nat>

    ghost predicate Valid() {
      WellFormedNodes(nodes) && locationMatrix.Length == 8
    }

    /** The element as it stands after construction and reading: four nodes
        (NEN = 4), eight freedoms (ND = 8) and one material record. */
    constructor (nodes: seq<Node>, material: Q4Material)
      requires WellFormedNodes(nodes)
      ensures Valid() && fresh(locationMatrix)
      ensures this.nodes == nodes && this.material == material
    {
      this.nodes := nodes;
      this.material := material;
      locationMatrix := new nat[8];
    }

    /** GenerateLocationMatrix: a running counter walks node by node, x then y. */
    method GenerateLocationMatrix()
      requires Valid()
      modifies locationMatrix
      ensures locationMatrix[..] == LocationCodes(nodes)
    {
      var i := 0;
      for n := 0 to 4
        invariant i == 2 * n
        invariant forall l :: 0 <= l < i ==> locationMatrix[l] == LocationCodes(nodes)[l]
      {
        for d := 0 to 2
          invariant i == 2 * n + d
          invariant forall l :: 0 <= l < i ==> locationMatrix[l] == LocationCodes(nodes)[l]
        {
          locationMatrix[i] := nodes[n].bcode[d];
          i := i + 1;
        }
      }
    }

    /** ElementStiffness: clears the 36 packed entries, accumulates K over the
        four Gauss points and packs its upper triangle. */
    method ElementStiffness(matrix: array<real>)
      requires Valid() && AdmissiblePoisson(material.nu)
      requires Nondegenerate(XCoords(nodes), YCoords(nodes))
      requires matrix.Length >= 36
      modifies matrix
      ensures matrix[..36] == PackUpper(Stiffness(ConstitutiveMatrix(material.E, material.nu, material.t), XCoords(nodes), YCoords(nodes)))
      ensures forall l :: 36 <= l < matrix.Length ==> matrix[l] == old(matrix[l])
    {
      Clear(matrix, 36);
      var x, y := GetLocalCoords(nodes);
      var d := BuildD(material);
      var k := AccumulateStiffness(d, x, y);
      PackStiffness(k, matrix);
    }

    /** ElementStress: gathers u from the global displacements and recovers
        the centroid stress into stress[0..3]. */
    method ElementStress(stress: array<real>, displacement: seq<real>)
      requires Valid() && AdmissiblePoisson(material.nu)
      requires CodesInRange(nodes, displacement)
      requires JacobianDet(0.0, 0.0, XCoords(nodes), YCoords(nodes)) != 0.0
      requires stress.Length >= 3
      modifies stress
      ensures stress[..3] == CentroidStressOf(material, nodes, displacement)
      ensures forall l :: 3 <= l < stress.Length ==> stress[l] == old(stress[l])
    {
      var x, y := GetLocalCoords(nodes);
      var d := BuildD(material);
      var u := new GaussMatrix(8, 1);
      AssembleLocalU(nodes, displacement, u);
      GaussStress(d, x, y, u, stress);
    }
  }
}
