# Q4 plane element: element-level algebra

This project models the element-level algebra of the four-node bilinear
quadrilateral (Q4) plane-stress element of a small finite-element code, and
proves properties of it in Dafny. It has three parts.

- **The dense matrix class `GaussMatrix`** (`gauss_matrix.dfy`, specified in
  `matrix_algebra.dfy`). An object of the model has a fixed shape and a
  row-major grid that only the entry writer changes; a C++ assignment of a
  whole matrix is modelled as binding the variable to a fresh object.
  Transpose, sum, product
  and the two scalar products each allocate a fresh zero matrix and fill it
  in nested loops. Each is proved equal to a value-level function. The
  product's inner `+=` loop is proved to hold the partial dot product.
- **The strain-displacement kernel** (`gauss.dfy`). `ComputeB` fills the
  coordinate matrix XY and the reference-derivative matrix G from the four
  sign/offset tables. It then forms the Jacobian J = G·XY and its
  determinant, the adjugate of J, and the global derivatives
  (1/detJ)·adj(J)·G. From those it lays out the 3×8 operator B. `Gauss`
  returns the quadrature-point stiffness weight·(BᵀDB)·detJ. `GaussStress`
  evaluates D·(B·u) at the centroid and writes three entries.
- **The element glue** (`q4.dfy`). This covers:
  - the 2×2 Gauss point table;
  - the coordinate gather;
  - the plane-stress constitutive matrix;
  - the local displacement gather from equation codes (code 0 means a
    restrained freedom with value 0);
  - the location matrix;
  - the four-point stiffness accumulation;
  - the column-by-column packing of the 8×8 upper triangle into 36 entries;
  - the element stress.

Numbers are Dafny `real`s, so the algebraic facts hold exactly. The proved
properties include:
- transpose is an involution;
- adj(J)·J = det(J)·I, so J·dN_global = G;
- every row of G sums to zero;
- BᵀDB is symmetric when D is, and so is the element stiffness;
- the stiffness does not depend on the order of the four contributions;
- the stiffness does not change when the element is translated;
- a rigid translation gives zero strain and zero stress;
- the packing is a bijection between the pairs i ≤ j < 8 and the slots
  0..35, sending K(i,j) to slot j(j+1)/2 + (j−i).

## Model

| member | source | states |
|---|---|---|
| MatrixAlgebra.Zero | h/Gauss.h:12 | an r×c matrix whose every entry is 0 |
| MatrixAlgebra.Transpose | h/Gauss.h:20-26 | a c×r matrix with entry (j,i) equal to entry (i,j) of the operand |
| MatrixAlgebra.Add | h/Gauss.h:28-34 | same shape as the operands, entrywise sum |
| MatrixAlgebra.Mul | h/Gauss.h:36-43 | an r×c matrix whose entry (i,j) is the dot product of row i of a with column j of b |
| MatrixAlgebra.Scale | h/Gauss.h:45-51 | same shape, every entry multiplied by k |
| MatrixAlgebra.TransposeInvolution | h/Gauss.h:20-26 | transposing twice gives back the matrix |
| MatrixAlgebra.SymmetricIffTransposeFixed | h/Gauss.h:20-26 | a square matrix is symmetric exactly when it equals its transpose |
| MatrixAlgebra.AddCommutative | h/Gauss.h:28-34 | a + b == b + a |
| MatrixAlgebra.AddAssociative | h/Gauss.h:28-34 | (a + b) + d == a + (b + d) |
| MatrixAlgebra.AddZero | h/Gauss.h:28-34 | the zero matrix is a left identity of the sum |
| MatrixAlgebra.AddSymmetric | h/Gauss.h:28-34 | the sum of two symmetric matrices is symmetric |
| MatrixAlgebra.ScaleSymmetric | h/Gauss.h:45-51 | scaling keeps a matrix symmetric |
| MatrixAlgebra.MulAssociative | h/Gauss.h:36-43 | (a·b)·d == a·(b·d) |
| MatrixAlgebra.MulTranspose | h/Gauss.h:36-43 | (a·b)ᵀ == bᵀ·aᵀ |
| MatrixAlgebra.CongruenceSymmetric | cpp/Gauss.cpp:59 | (BᵀD)B is symmetric whenever D is |
| MatrixAlgebra.SumMatsPermutation | cpp/Q4.cpp:113-115 | the left-fold sum of a list of matrices is the same for every reordering of the list |
| MatrixAlgebra.SumMatsSymmetric | cpp/Q4.cpp:113-115 | a sum of symmetric matrices is symmetric |
| DenseMatrix.GaussMatrix.constructor | h/Gauss.h:12 | the new matrix has the given shape and all entries 0 |
| DenseMatrix.GaussMatrix.RowCount | h/Gauss.h:14 | the row count fixed at construction |
| DenseMatrix.GaussMatrix.ColCount | h/Gauss.h:15 | the column count fixed at construction |
| DenseMatrix.GaussMatrix.At | h/Gauss.h:18 | the value of entry (i,j) of an in-range index |
| DenseMatrix.GaussMatrix.Set | h/Gauss.h:17 | entry (i,j) takes the new value, every other entry and the shape are unchanged |
| DenseMatrix.GaussMatrix.T | h/Gauss.h:20-26 | a fresh cols×rows matrix equal to the transpose, the operand untouched |
| DenseMatrix.GaussMatrix.Plus | h/Gauss.h:28-34 | for equal shapes, a fresh matrix equal to the entrywise sum |
| DenseMatrix.GaussMatrix.Times | h/Gauss.h:36-43 | for cols == other.rows, a fresh rows×other.cols matrix equal to the product; the k-loop keeps the partial dot product over the first k terms |
| DenseMatrix.GaussMatrix.ScaledBy | h/Gauss.h:45-51 | a fresh matrix of the same shape with every entry times k |
| DenseMatrix.ScalarTimes | h/Gauss.h:53-55 | k·A is the same matrix as A·k |
| Quadrature.RefDerivatives | cpp/Gauss.cpp:23-27 | G is 2×4 and each of its rows sums to 0 for every (ksi, eta) |
| Quadrature.RefDerivativesAtCorners | cpp/Gauss.cpp:6-9 | the tables give G(0,i) = ksi_i(1 + eta·eta_i)/4 and G(1,i) = eta_i(1 + ksi·ksi_i)/4 for the node corners (ksi_i, eta_i) |
| Quadrature.RefDerivativesKsiSlope | cpp/Gauss.cpp:23-27 | row 0 of G is the ksi-slope of the bilinear shape functions: N_i(ksi+h, eta) − N_i(ksi, eta) = h·G(0,i) |
| Quadrature.RefDerivativesEtaSlope | cpp/Gauss.cpp:23-27 | row 1 of G is the eta-slope: N_i(ksi, eta+h) − N_i(ksi, eta) = h·G(1,i) |
| Quadrature.CoordMatrix | cpp/Gauss.cpp:18-21 | XY is 4×2 with XY(i,0) = x[i] and XY(i,1) = y[i] |
| Quadrature.Jacobian | cpp/Gauss.cpp:30 | shape only: 2×2, the product G·XY |
| Quadrature.Adjugate | cpp/Gauss.cpp:35-36 | shape only: 2×2, [[J(1,1), −J(0,1)], [−J(1,0), J(0,0)]] |
| Quadrature.AdjugateIdentity | cpp/Gauss.cpp:35-36 | adj(J)·J = det(J)·I |
| Quadrature.AdjugateSolves | cpp/Gauss.cpp:32-40 | for det(J) ≠ 0, J·((1/det J)·adj(J)·G) = G for every 2×n matrix G |
| Quadrature.GlobalDerivatives | cpp/Gauss.cpp:39-40 | shape only: 2×4, (1/detJ)·(adj(J)·G) |
| Quadrature.GlobalDerivativesSolveJacobian | cpp/Gauss.cpp:35-40 | J·dN_global = G, so dN_global = J⁻¹G |
| Quadrature.GlobalDerivativesRowSums | cpp/Gauss.cpp:39-40 | each row of dN_global sums to 0 |
| Quadrature.JacobianTranslationInvariant | cpp/Gauss.cpp:30 | translating all node coordinates leaves J unchanged |
| Quadrature.UnitSquareDeterminant | cpp/Gauss.cpp:31 | the unit square has detJ = 1/4 at every reference point |
| Quadrature.StrainDisplacement | cpp/Gauss.cpp:43-49 | B is 3×8 with B(0,2i) = dN(0,i), B(1,2i+1) = dN(1,i), B(2,2i) = dN(1,i), B(2,2i+1) = dN(0,i), and all other entries 0 |
| Quadrature.BMatrix | cpp/Gauss.cpp:12-50 | shape only: 3×8, the layout of the global derivatives that computeB returns |
| Quadrature.BMatrixTranslationInvariant | cpp/Gauss.cpp:12-50 | translating the element leaves detJ and B unchanged |
| Quadrature.LayoutAnnihilatesTranslation | cpp/Gauss.cpp:43-49 | for zero-row-sum derivatives, B maps a uniform nodal displacement (a, b) to zero strain |
| Quadrature.TranslationGivesZeroStrain | cpp/Gauss.cpp:70 | B·u = 0 when u gives every node the same displacement |
| Quadrature.GaussPoint | cpp/Gauss.cpp:59 | shape only: 8×8, ((BᵀD)B scaled by weight) scaled by detJ |
| Quadrature.GaussPointSymmetric | cpp/Gauss.cpp:53-60 | weight·(BᵀDB)·detJ is symmetric whenever D is |
| Quadrature.GaussPointTranslationInvariant | cpp/Gauss.cpp:53-60 | the quadrature-point stiffness does not change when the element is translated |
| Quadrature.CentroidStress | cpp/Gauss.cpp:68-74 | shape only: three entries, column 0 of D·(B·u) with B at ksi = eta = 0 |
| Quadrature.TranslationGivesZeroStress | cpp/Gauss.cpp:63-75 | a rigid translation gives zero centroid stress |
| Quadrature.FillCoordinates | cpp/Gauss.cpp:18-21 | the filled XY equals the coordinate matrix |
| Quadrature.FillRefDerivatives | cpp/Gauss.cpp:23-27 | the table fill followed by the 0.25 scaling equals G |
| Quadrature.FillAdjugate | cpp/Gauss.cpp:35-36 | the filled adJ equals the adjugate of J |
| Quadrature.FillStrainDisplacement | cpp/Gauss.cpp:43-49 | the filled B equals the fixed 3×8 layout of dN_global |
| Quadrature.ComputeB | cpp/Gauss.cpp:12-50 | returns detJ = J(0,0)J(1,1) − J(0,1)J(1,0) of J = G·XY and the B of (1/detJ)·adj(J)·G |
| Quadrature.Gauss | cpp/Gauss.cpp:53-60 | a fresh 8×8 matrix equal to weight·((BᵀD)B)·detJ |
| Quadrature.StoreStress | cpp/Gauss.cpp:72-74 | stress[0..3) receives sigma(0..2, 0); later entries keep their values |
| Quadrature.GaussStress | cpp/Gauss.cpp:63-75 | stress[0..3) holds D·(B·u) with B at ksi = eta = 0; nothing else is written |
| Q4Element.GaussPointsAreSignCombinations | cpp/Q4.cpp:10-15 | the four points are (ksi_i·g, eta_i·g) for the node corners, pairwise distinct, covering all four sign combinations |
| Q4Element.XCoords | cpp/Q4.cpp:22-25 | shape only: four entries, XYZ[0] of the nodes in order |
| Q4Element.YCoords | cpp/Q4.cpp:22-25 | shape only: four entries, XYZ[1] of the nodes in order |
| Q4Element.GetLocalCoords | cpp/Q4.cpp:18-26 | x[i] and y[i] are XYZ[0] and XYZ[1] of node i |
| Q4Element.AdmissiblePoissonIff | cpp/Q4.cpp:34-36 | both denominators 1 − nu² and 1 + nu are non-zero exactly when nu is neither 1 nor −1 |
| Q4Element.ConstitutiveMatrix | cpp/Q4.cpp:34-41 | D is 3×3 and symmetric |
| Q4Element.ConstitutiveMatrixUncoupled | cpp/Q4.cpp:34-41 | with nu = 0, D is diagonal with E·t, E·t and E·t/2 |
| Q4Element.ConstitutiveUniaxial | cpp/Q4.cpp:34-41 | D maps the uniaxial strain (1, −nu, 0) to the stress (E·t, 0, 0) |
| Q4Element.FillConstitutive | cpp/Q4.cpp:38-42 | the nine assignments give D(0,0) = D(1,1) = c1, D(0,1) = D(1,0) = c2, D(2,2) = c3 and zeros elsewhere |
| Q4Element.BuildD | cpp/Q4.cpp:29-43 | a fresh 3×3 matrix equal to the constitutive matrix of the material's E, nu and t |
| Q4Element.DofValue | cpp/Q4.cpp:53-54 | code 0 gives 0.0; code c > 0 gives Disp[c−1] |
| Q4Element.LocationCodes | cpp/Q4.cpp:95-101 | eight codes, entry 2N+D being bcode[D] of node N |
| Q4Element.LocalDisplacement | cpp/Q4.cpp:50-55 | shape only: 8×1, entry k looked up through location code k |
| Q4Element.LocalDisplacementUsesLocationCodes | cpp/Q4.cpp:46-56 | u(k) is the displacement looked up through location code k, and u(2i), u(2i+1) use bcode[0], bcode[1] of node i |
| Q4Element.AssembleLocalU | cpp/Q4.cpp:46-56 | u becomes the 8×1 vector of looked-up displacements |
| Q4Element.TriangleClosedForm | cpp/Q4.cpp:117-120 | 2·Triangle(n) = n(n+1), so the column of j starts at slot j(j+1)/2 |
| Q4Element.PackedIndex | cpp/Q4.cpp:117-120 | slot of K(i,j) is j(j+1)/2 + (j−i), inside column j's block |
| Q4Element.PackColumnsEntry | cpp/Q4.cpp:117-120 | packing the first n columns puts K(i,j) at its slot for every i ≤ j < n |
| Q4Element.PackedIndexInjective | cpp/Q4.cpp:117-120 | no two pairs i ≤ j share a slot |
| Q4Element.PackedIndexOnto | cpp/Q4.cpp:117-120 | every slot below Triangle(n) is the slot of some pair i ≤ j < n |
| Q4Element.PackUpper | cpp/Q4.cpp:117-120 | the packed triangle has exactly 36 entries |
| Q4Element.PackUpperLayout | cpp/Q4.cpp:117-120 | entry j(j+1)/2 + (j−i) of the 36 is K(i,j) for all i ≤ j < 8 |
| Q4Element.UnpackSymmetric | cpp/Q4.cpp:117-120 | a symmetric K is recovered entirely from the 36 packed entries |
| Q4Element.Contributions | cpp/Q4.cpp:113-115 | four 8×8 matrices, the Gauss-point contributions with weight 1 in rule order |
| Q4Element.Stiffness | cpp/Q4.cpp:113-115 | shape only: 8×8, the zero matrix plus the four contributions in order |
| Q4Element.StiffnessSymmetric | cpp/Q4.cpp:113-115 | the sum of the four contributions is symmetric for a symmetric D |
| Q4Element.StiffnessOrderInvariant | cpp/Q4.cpp:113-115 | any reordering of the four contributions gives the same stiffness |
| Q4Element.StiffnessTranslationInvariant | cpp/Q4.cpp:113-115 | translating the element leaves the stiffness unchanged |
| Q4Element.Clear | cpp/Q4.cpp:106 | the first n entries become 0, the rest keep their values |
| Q4Element.AccumulateStiffness | cpp/Q4.cpp:113-115 | K starts at zero and ends as the in-order sum of the four Gauss-point contributions |
| Q4Element.PackStiffness | cpp/Q4.cpp:117-120 | the first 36 entries become the column-by-column, diagonal-first packing of K; the rest are unchanged |
| Q4Element.CentroidStressOf | cpp/Q4.cpp:124-136 | shape only: three entries, the centroid stress of D(E, nu, t), the nodes' coordinates and the gathered displacements |
| Q4Element.RigidTranslationStressFree | cpp/Q4.cpp:124-136 | equation codes that give every node the same displacement produce zero element stress |
| Q4Element.CQ4.constructor | cpp/Q4.cpp:59-66 | an element with the given four nodes and material and an eight-entry location matrix |
| Q4Element.CQ4.GenerateLocationMatrix | cpp/Q4.cpp:95-101 | the eight entries become bcode[D] of node N at index 2N+D |
| Q4Element.CQ4.ElementStiffness | cpp/Q4.cpp:104-121 | the first 36 entries hold the packed upper triangle of the four-point stiffness of D(E, nu, t) over the nodes' coordinates |
| Q4Element.CQ4.ElementStress | cpp/Q4.cpp:124-136 | stress[0..3) is the centroid stress of D(E, nu, t), the nodes' coordinates and the gathered displacements; nothing else is written |

## Left out

- Stream input and output of elements, nodes, materials and load cases
  are not modelled: they only move bytes between files and records.
- The driver program, the skyline solver, the bar element and the clock are
  not part of this model. The solver and the bar element are known only by
  declaration, and timing is not behaviour.
- The matrix test program is not part of this model: it exercises a
  different matrix class.
- Floating point: numbers are exact reals. IEEE rounding is not modelled,
  nor the accuracy of the rounded abscissa 0.57735027 or of the quadrature.
- Memory management is not modelled: the raw node and location arrays, the
  destructor, and the cast-and-offset material lookup. The element instead
  holds a length-4 sequence of node records and one material record.
- `clear` and `SizeOfStiffnessMatrix` are known only by declaration.
  `Q4Element.Clear` zeros the first 36 entries, the entries the packing
  writes.
- Matrix dimensions are natural numbers. The source's `int` sizes could
  be negative; the model rules that out.
- Quadrature.ComputeB: requires detJ ≠ 0. The source divides by detJ
  without a guard, and division by zero is not modelled.
- Quadrature.Gauss: requires detJ ≠ 0 at its point, because it calls
  computeB there.
- Quadrature.GaussStress: requires detJ ≠ 0 at the centroid, because it
  calls computeB there.
- Q4Element.CQ4.ElementStiffness: requires a non-zero detJ at each of the
  four Gauss points, for the same reason.
- Q4Element.CQ4.ElementStress: requires a non-zero detJ at the centroid.
- Q4Element.CQ4.ElementStress: requires every non-zero code of the four
  nodes to be at most the displacement length. The source reads an
  unchecked pointer.
- Q4Element.BuildD: requires 1 − nu² ≠ 0 and 1 + nu ≠ 0. The source
  divides by both without a guard.
- Q4Element.AssembleLocalU: requires every non-zero code to be at most the
  displacement length. The source reads an unchecked pointer.
- The caller's displacement array is a read-only sequence.
- Node records keep three coordinates and three codes, but only the first
  two of each are read.
- Whole-matrix assignment is not modelled as such. The C++ class's copy
  assignment overwrites both the grid and the shape of an existing object.
  This happens in `computeB` (XY, G, J, dN_global, B), in the stiffness
  accumulation `K = K + …` and in `Gauss`'s result. The model binds the
  variable to the fresh result object instead. None of these objects is
  aliased, so the values are the same, but an object's shape never changes
  in the model.
- The element's node count (4) and freedom count (8) are fixed constants.
- The positive definiteness or semi-definiteness of D and of the stiffness
  is not stated.
- Some operations are split into helper methods; the split does not change
  the order of their steps:
  - `computeB` into the XY, G, adJ and B fills;
  - `GaussStress` into its copy loop;
  - `ElementStiffness` into clear, accumulate and pack;
  - `buildD` into the fill of the nine entries.
