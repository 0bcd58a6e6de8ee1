/**
 * Value-level meaning of the dense matrix operations: a matrix is a
 * row-major grid `seq<seq<real>>` together with its shape. Every operation
 * of the GaussMatrix class is specified by one of these functions, and the
 * algebraic facts the element formulation relies on are proved here.
 */
module MatrixAlgebra {

  type Mat = seq<seq<real>>

  /** `m` has `r` rows of `c` entries each. */
  predicate IsMatrix(m: Mat, r: nat, c: nat) {
    |m| == r && forall i :: 0 <= i < r ==> |m[i]| == c
  }

  predicate Symmetric(m: Mat, n: nat)
    requires IsMatrix(m, n, n)
  {
    forall i, j :: 0 <= i < n && 0 <= j < n ==> m[i][j] == m[j][i]
  }

  /** The zero-initialised r-by-c grid. */
  function Zero(r: nat, c: nat): (z: Mat)
    ensures IsMatrix(z, r, c)
    ensures forall i, j :: 0 <= i < r && 0 <= j < c ==> z[i][j] == 0.0
  {
    seq(r, i => seq(c, j => 0.0))
  }

  /** Partial inner product over the first `k` positions. */
  function DotTo(a: seq<real>, b: seq<real>, k: nat): real
    requires k <= |a| && k <= |b|
  {
    if k == 0 then 0.0 else DotTo(a, b, k - 1) + a[k - 1] * b[k - 1]
  }

  function Dot(a: seq<real>, b: seq<real>): real
    requires |a| == |b|
  {
    DotTo(a, b, |a|)
  }

  /** Column `j` of an r-by-c matrix. */
  function Col(m: Mat, r: nat, c: nat, j: nat): (v: seq<real>)
    requires IsMatrix(m, r, c) && j < c
    ensures |v| == r && forall i :: 0 <= i < r ==> v[i] == m[i][j]
  {
    seq(r, i requires 0 <= i < r => m[i][j])
  }

  function Transpose(m: Mat, r: nat, c: nat): (t: Mat)
    requires IsMatrix(m, r, c)
    ensures IsMatrix(t, c, r)
    ensures forall i, j :: 0 <= i < r && 0 <= j < c ==> t[j][i] == m[i][j]
  {
    seq(c, j requires 0 <= j < c => Col(m, r, c, j))
  }

  function Add(a: Mat, b: Mat, r: nat, c: nat): (s: Mat)
    requires IsMatrix(a, r, c) && IsMatrix(b, r, c)
    ensures IsMatrix(s, r, c)
    ensures forall i, j :: 0 <= i < r && 0 <= j < c ==> s[i][j] == a[i][j] + b[i][j]
  {
    seq(r, i requires 0 <= i < r => seq(c, j requires 0 <= j < c => a[i][j] + b[i][j]))
  }

  function Scale(m: Mat, r: nat, c: nat, k: real): (s: Mat)
    requires IsMatrix(m, r, c)
    ensures IsMatrix(s, r, c)
    ensures forall i, j :: 0 <= i < r && 0 <= j < c ==> s[i][j] == m[i][j] * k
  {
    seq(r, i requires 0 <= i < r => seq(c, j requires 0 <= j < c => m[i][j] * k))
  }

  /** Product of an r-by-n and an n-by-c matrix. */
  function Mul(a: Mat, b: Mat, r: nat, n: nat, c: nat): (p: Mat)
    requires IsMatrix(a, r, n) && IsMatrix(b, n, c)
    ensures IsMatrix(p, r, c)
    ensures forall i, j :: 0 <= i < r && 0 <= j < c ==> p[i][j] == Dot(a[i], Col(b, n, c, j))
  {
    seq(r, i requires 0 <= i < r => seq(c, j requires 0 <= j < c => Dot(a[i], Col(b, n, c, j))))
  }

  // ---------------------------------------------------------------------
  // Basic facts

  /** Two matrices of one shape are equal when their entries are. */
  lemma Extensional(a: Mat, b: Mat, r: nat, c: nat)
    requires IsMatrix(a, r, c) && IsMatrix(b, r, c)
    requires forall i, j :: 0 <= i < r && 0 <= j < c ==> a[i][j] == b[i][j]
    ensures a == b
  {
    forall i | 0 <= i < r
      ensures a[i] == b[i]
    {
      assert |a[i]| == |b[i]| == c;
    }
  }

  lemma TransposeInvolution(m: Mat, r: nat, c: nat)
    requires IsMatrix(m, r, c)
    ensures Transpose(Transpose(m, r, c), c, r) == m
  {
    Extensional(Transpose(Transpose(m, r, c), c, r), m, r, c);
  }

  /** A square matrix is symmetric exactly when it equals its transpose. */
  lemma SymmetricIffTransposeFixed(m: Mat, n: nat)
    requires IsMatrix(m, n, n)
    ensures Symmetric(m, n) <==> Transpose(m, n, n) == m
  {
    if Symmetric(m, n) {
      Extensional(Transpose(m, n, n), m, n, n);
    }
    if Transpose(m, n, n) == m {
      forall i, j | 0 <= i < n && 0 <= j < n
        ensures m[i][j] == m[j][i]
      {
        assert Transpose(m, n, n)[j][i] == m[i][j];
      }
    }
  }

  lemma AddCommutative(a: Mat, b: Mat, r: nat, c: nat)
    requires IsMatrix(a, r, c) && IsMatrix(b, r, c)
    ensures Add(a, b, r, c) == Add(b, a, r, c)
  {
    Extensional(Add(a, b, r, c), Add(b, a, r, c), r, c);
  }

  lemma AddAssociative(a: Mat, b: Mat, d: Mat, r: nat, c: nat)
    requires IsMatrix(a, r, c) && IsMatrix(b, r, c) && IsMatrix(d, r, c)
    ensures Add(Add(a, b, r, c), d, r, c) == Add(a, Add(b, d, r, c), r, c)
  {
    Extensional(Add(Add(a, b, r, c), d, r, c), Add(a, Add(b, d, r, c), r, c), r, c);
  }

  lemma AddZero(a: Mat, r: nat, c: nat)
    requires IsMatrix(a, r, c)
    ensures Add(Zero(r, c), a, r, c) == a
  {
    Extensional(Add(Zero(r, c), a, r, c), a, r, c);
  }

  lemma AddSymmetric(a: Mat, b: Mat, n: nat)
    requires IsMatrix(a, n, n) && IsMatrix(b, n, n)
    requires Symmetric(a, n) && Symmetric(b, n)
    ensures Symmetric(Add(a, b, n, n), n)
  {
  }

  lemma ScaleSymmetric(a: Mat, n: nat, k: real)
    requires IsMatrix(a, n, n) && Symmetric(a, n)
    ensures Symmetric(Scale(a, n, n, k), n)
  {
  }

  // ---------------------------------------------------------------------
  // Inner products

  lemma {:induction false} DotToCommutative(a: seq<real>, b: seq<real>, k: nat)
    requires k <= |a| && k <= |b|
    ensures DotTo(a, b, k) == DotTo(b, a, k)
  {
    if k > 0 {
      DotToCommutative(a, b, k - 1);
    }
  }

  lemma DotCommutative(a: seq<real>, b: seq<real>)
    requires |a| == |b|
    ensures Dot(a, b) == Dot(b, a)
  {
    DotToCommutative(a, b, |a|);
  }

  /** The inner product is linear in its left argument: if z == x + s*y
      pointwise, then Dot(z, u) == Dot(x, u) + s*Dot(y, u). */
  lemma {:induction false} DotToLinear(x: seq<real>, y: seq<real>, z: seq<real>, s: real, u: seq<real>, k: nat)
    requires k <= |x| && k <= |y| && k <= |z| && k <= |u|
    requires forall i :: 0 <= i < k ==> z[i] == x[i] + s * y[i]
    ensures DotTo(z, u, k) == DotTo(x, u, k) + s * DotTo(y, u, k)
  {
    if k > 0 {
      DotToLinear(x, y, z, s, u, k - 1);
      calc {
        DotTo(z, u, k);
        DotTo(z, u, k - 1) + z[k - 1] * u[k - 1];
        DotTo(x, u, k - 1) + s * DotTo(y, u, k - 1) + (x[k - 1] + s * y[k - 1]) * u[k - 1];
        (DotTo(x, u, k - 1) + x[k - 1] * u[k - 1]) + s * (DotTo(y, u, k - 1) + y[k - 1] * u[k - 1]);
      }
    }
  }

  lemma {:induction false} DotToZero(z: seq<real>, u: seq<real>, k: nat)
    requires k <= |z| && k <= |u|
    requires forall i :: 0 <= i < k ==> z[i] == 0.0
    ensures DotTo(z, u, k) == 0.0
  {
    if k > 0 {
      DotToZero(z, u, k - 1);
    }
  }

  /** Matrix-vector and vector-matrix products, used to regroup double sums. */
  function MatVec(m: Mat, r: nat, c: nat, u: seq<real>): (w: seq<real>)
    requires IsMatrix(m, r, c) && |u| == c
    ensures |w| == r && forall l :: 0 <= l < r ==> w[l] == Dot(m[l], u)
  {
    seq(r, l requires 0 <= l < r => Dot(m[l], u))
  }

  function VecMat(v: seq<real>, m: Mat, r: nat, c: nat): (w: seq<real>)
    requires IsMatrix(m, r, c) && |v| == r
    ensures |w| == c && forall k :: 0 <= k < c ==> w[k] == Dot(v, Col(m, r, c, k))
  {
    seq(c, k requires 0 <= k < c => Dot(v, Col(m, r, c, k)))
  }

  /** The double sum  Σ_l Σ_k v[l] m[l][k] u[k]  can be taken in either order. */
  lemma {:induction false} BilinearRegroup(v: seq<real>, m: Mat, r: nat, c: nat, u: seq<real>)
    requires IsMatrix(m, r, c) && |v| == r && |u| == c
    ensures Dot(v, MatVec(m, r, c, u)) == Dot(VecMat(v, m, r, c), u)
  {
    if r == 0 {
      DotToZero(VecMat(v, m, r, c), u, c);
    } else {
      var m', v' := m[..r - 1], v[..r - 1];
      assert IsMatrix(m', r - 1, c);
      BilinearRegroup(v', m', r - 1, c, u);
      var mv, mv' := MatVec(m, r, c, u), MatVec(m', r - 1, c, u);
      forall l | 0 <= l < r - 1
        ensures mv[l] == mv'[l]
      {
        assert m'[l] == m[l];
      }
      PrefixDot(v, mv, v', mv', r - 1);
      // The left side peels off its last row.
      assert Dot(v, mv) == Dot(v', mv') + v[r - 1] * Dot(m[r - 1], u);
      var vm, vm' := VecMat(v, m, r, c), VecMat(v', m', r - 1, c);
      forall k | 0 <= k < c
        ensures vm[k] == vm'[k] + v[r - 1] * m[r - 1][k]
      {
        var col, col' := Col(m, r, c, k), Col(m', r - 1, c, k);
        PrefixDot(v, col, v', col', r - 1);
      }
      DotToLinear(vm', m[r - 1], vm, v[r - 1], u, c);
    }
  }

  /** Sequences that agree on their first k positions have the same partial inner product. */
  lemma {:induction false} PrefixDotTo(a: seq<real>, b: seq<real>, a': seq<real>, b': seq<real>, k: nat)
    requires k <= |a| && k <= |b| && k <= |a'| && k <= |b'|
    requires forall i :: 0 <= i < k ==> a[i] == a'[i] && b[i] == b'[i]
    ensures DotTo(a, b, k) == DotTo(a', b', k)
  {
    if k > 0 {
      PrefixDotTo(a, b, a', b', k - 1);
    }
  }

  lemma PrefixDot(a: seq<real>, b: seq<real>, a': seq<real>, b': seq<real>, k: nat)
    requires |a| == |b| == k + 1 && |a'| == |b'| == k
    requires forall i :: 0 <= i < k ==> a[i] == a'[i] && b[i] == b'[i]
    ensures Dot(a, b) == Dot(a', b') + a[k] * b[k]
  {
    PrefixDotTo(a, b, a', b', k);
  }

  // ---------------------------------------------------------------------
  // Products

  lemma MulAssociative(a: Mat, b: Mat, d: Mat, r: nat, n: nat, p: nat, c: nat)
    requires IsMatrix(a, r, n) && IsMatrix(b, n, p) && IsMatrix(d, p, c)
    ensures Mul(Mul(a, b, r, n, p), d, r, p, c) == Mul(a, Mul(b, d, n, p, c), r, n, c)
  {
    var ab, bd := Mul(a, b, r, n, p), Mul(b, d, n, p, c);
    var lhs, rhs := Mul(ab, d, r, p, c), Mul(a, bd, r, n, c);
    forall i, j | 0 <= i < r && 0 <= j < c
      ensures lhs[i][j] == rhs[i][j]
    {
      var dj := Col(d, p, c, j);
      assert ab[i] == VecMat(a[i], b, n, p);
      assert Col(bd, n, c, j) == MatVec(b, n, p, dj);
      BilinearRegroup(a[i], b, n, p, dj);
    }
    Extensional(lhs, rhs, r, c);
  }

  /** (A B)^T == B^T A^T */
  lemma MulTranspose(a: Mat, b: Mat, r: nat, n: nat, c: nat)
    requires IsMatrix(a, r, n) && IsMatrix(b, n, c)
    ensures Transpose(Mul(a, b, r, n, c), r, c)
         == Mul(Transpose(b, n, c), Transpose(a, r, n), c, n, r)
  {
    var lhs := Transpose(Mul(a, b, r, n, c), r, c);
    var bt, at := Transpose(b, n, c), Transpose(a, r, n);
    var rhs := Mul(bt, at, c, n, r);
    forall j, i | 0 <= j < c && 0 <= i < r
      ensures lhs[j][i] == rhs[j][i]
    {
      assert bt[j] == Col(b, n, c, j);
      assert Col(at, n, r, i) == a[i];
      DotCommutative(a[i], Col(b, n, c, j));
    }
    Extensional(lhs, rhs, c, r);
  }

  /** The congruence B^T D B of a symmetric D is symmetric, evaluated as
      (B^T D) B, the grouping the element code uses. */
  lemma CongruenceSymmetric(b: Mat, d: Mat, r: nat, c: nat)
    requires IsMatrix(b, r, c) && IsMatrix(d, r, r) && Symmetric(d, r)
    ensures Symmetric(Mul(Mul(Transpose(b, r, c), d, c, r, r), b, c, r, c), c)
  {
    var bt := Transpose(b, r, c);
    var btd := Mul(bt, d, c, r, r);
    var x := Mul(btd, b, c, r, c);
    calc {
      Transpose(x, c, c);
      { MulTranspose(btd, b, c, r, c); }
      Mul(bt, Transpose(btd, c, r), c, r, c);
      { MulTranspose(bt, d, c, r, r); }
      Mul(bt, Mul(Transpose(d, r, r), Transpose(bt, c, r), r, r, c), c, r, c);
      { SymmetricIffTransposeFixed(d, r); TransposeInvolution(b, r, c); }
      Mul(bt, Mul(d, b, r, r, c), c, r, c);
      { MulAssociative(bt, d, b, c, r, r, c); }
      x;
    }
    SymmetricIffTransposeFixed(x, c);
  }

  // ---------------------------------------------------------------------
  // Accumulated sums of equally shaped matrices

  predicate AllShaped(ms: seq<Mat>, r: nat, c: nat) {
    forall m :: m in ms ==> IsMatrix(m, r, c)
  }

  /** Left fold of `Add` from the zero matrix, in list order. */
  function SumMats(ms: seq<Mat>, r: nat, c: nat): (s: Mat)
    requires AllShaped(ms, r, c)
    ensures IsMatrix(s, r, c)
    decreases |ms|
  {
    if |ms| == 0 then Zero(r, c)
    else Add(SumMats(ms[..|ms| - 1], r, c), ms[|ms| - 1], r, c)
  }

  /** Extending a prefix of the list by one summand adds that summand. */
  lemma SumMatsStep(ms: seq<Mat>, i: nat, r: nat, c: nat)
    requires AllShaped(ms, r, c) && i < |ms|
    ensures AllShaped(ms[..i], r, c) && AllShaped(ms[..i + 1], r, c)
    ensures SumMats(ms[..i + 1], r, c) == Add(SumMats(ms[..i], r, c), ms[i], r, c)
  {
    assert ms[..i + 1][..i] == ms[..i];
  }

  /** Taking one summand out of the fold and adding it last changes nothing. */
  lemma {:induction false} SumMatsRemove(ms: seq<Mat>, k: nat, r: nat, c: nat)
    requires AllShaped(ms, r, c) && k < |ms|
    ensures AllShaped(ms[..k] + ms[k + 1..], r, c)
    ensures SumMats(ms, r, c) == Add(SumMats(ms[..k] + ms[k + 1..], r, c), ms[k], r, c)
    decreases |ms|
  {
    var n := |ms|;
    var rest := ms[..k] + ms[k + 1..];
    assert forall m :: m in rest ==> m in ms;
    if k == n - 1 {
      assert rest == ms[..n - 1];
    } else {
      var init := ms[..n - 1];
      assert AllShaped(init, r, c);
      SumMatsRemove(init, k, r, c);
      var rest' := init[..k] + init[k + 1..];
      assert rest[..|rest| - 1] == rest';
      assert rest[|rest| - 1] == ms[n - 1];
      var s' := SumMats(rest', r, c);
      calc {
        SumMats(ms, r, c);
        Add(SumMats(init, r, c), ms[n - 1], r, c);
        Add(Add(s', ms[k], r, c), ms[n - 1], r, c);
        { AddAssociative(s', ms[k], ms[n - 1], r, c); }
        Add(s', Add(ms[k], ms[n - 1], r, c), r, c);
        { AddCommutative(ms[k], ms[n - 1], r, c); }
        Add(s', Add(ms[n - 1], ms[k], r, c), r, c);
        { AddAssociative(s', ms[n - 1], ms[k], r, c); }
        Add(Add(s', ms[n - 1], r, c), ms[k], r, c);
        Add(SumMats(rest, r, c), ms[k], r, c);
      }
    }
  }

  /** Sequences with the same elements, counted with multiplicity, have the same members. */
  lemma SameMembers(ms: seq<Mat>, ns: seq<Mat>)
    requires multiset(ms) == multiset(ns)
    ensures forall m :: m in ns ==> m in ms
  {
    forall m | m in ns
      ensures m in ms
    {
      assert m in multiset(ns);
    }
  }

  /** The last element of `ms` occurs in any rearrangement `ns`; removing it
      from both leaves rearrangements of each other. */
  lemma MatchLast(ms: seq<Mat>, ns: seq<Mat>) returns (k: nat)
    requires |ms| > 0 && multiset(ms) == multiset(ns)
    ensures k < |ns| && ns[k] == ms[|ms| - 1]
    ensures multiset(ms[..|ms| - 1]) == multiset(ns[..k] + ns[k + 1..])
  {
    var n := |ms|;
    var init, last := ms[..n - 1], ms[n - 1];
    assert ms == init + [last];
    assert multiset(ms) == multiset(init) + multiset{last};
    assert last in multiset(ns);
    k :| 0 <= k < |ns| && ns[k] == last;
    var rest := ns[..k] + ns[k + 1..];
    assert ns == ns[..k] + [ns[k]] + ns[k + 1..];
    assert multiset(ns) == multiset(rest) + multiset{last};
    assert multiset(init) == multiset(ms) - multiset{last};
    assert multiset(rest) == multiset(ns) - multiset{last};
  }

  /** The accumulated sum does not depend on the order of the summands. */
  lemma {:induction false} SumMatsPermutation(ms: seq<Mat>, ns: seq<Mat>, r: nat, c: nat)
    requires AllShaped(ms, r, c) && multiset(ms) == multiset(ns)
    ensures AllShaped(ns, r, c)
    ensures SumMats(ms, r, c) == SumMats(ns, r, c)
    decreases |ms|
  {
    SameMembers(ms, ns);
    if |ms| == 0 {
      assert |ns| == |multiset(ns)| == 0;
    } else {
      var init := ms[..|ms| - 1];
      var k := MatchLast(ms, ns);
      SumMatsRemove(ns, k, r, c);
      assert AllShaped(init, r, c) by {
        assert forall m :: m in init ==> m in ms;
      }
      SumMatsPermutation(init, ns[..k] + ns[k + 1..], r, c);
    }
  }

  lemma {:induction false} SumMatsSymmetric(ms: seq<Mat>, n: nat)
    requires AllShaped(ms, n, n)
    requires forall m :: m in ms ==> Symmetric(m, n)
    ensures Symmetric(SumMats(ms, n, n), n)
    decreases |ms|
  {
    if |ms| > 0 {
      var init := ms[..|ms| - 1];
      assert forall m :: m in init ==> m in ms;
      SumMatsSymmetric(init, n);
      assert ms[|ms| - 1] in ms;
      AddSymmetric(SumMats(init, n, n), ms[|ms| - 1], n);
    }
  }
}
