/**
 * The dense matrix class of h/Gauss.h. An object of the model has a fixed
 * shape and a row-major grid that only the entry writer changes; where the
 * C++ code assigns a whole matrix to a variable, the model binds the
 * variable to the fresh result object instead. The operators are const:
 * each allocates a fresh zero matrix, fills it entry by entry and returns
 * it, so the operands are never written.
 */
module DenseMatrix {
  import opened MatrixAlgebra

  class GaussMatrix {
    const rows: nat
    const cols: nat
    var data: Mat

    ghost predicate Valid()
      reads this
    {
      IsMatrix(data, rows, cols)
    }

    /** A rows-by-cols matrix of zeros. */
    constructor (r: nat, c: nat)
      ensures Valid() && rows == r && cols == c
      ensures data == Zero(r, c)
    {
      rows, cols := r, c;
      data := Zero(r, c);
    }

    function RowCount(): (n: nat)
      ensures n == rows
    {
      rows
    }

    function ColCount(): (n: nat)
      ensures n == cols
    {
      cols
    }

    /** Read access to entry (i, j). */
    function At(i: nat, j: nat): (v: real)
      reads this
      requires Valid() && i < rows && j < cols
      ensures v == data[i][j]
    {
      data[i][j]
    }

    /** Assignment through the writable entry reference: entry (i, j) becomes
        `v` and every other entry keeps its value. */
    method Set(i: nat, j: nat, v: real)
      requires Valid() && i < rows && j < cols
      modifies this
      ensures Valid()
      ensures data == old(data)[i := old(data)[i][j := v]]
    {
      data := data[i := data[i][j := v]];
    }

    method T() returns (result: GaussMatrix)
      requires Valid()
      ensures fresh(result) && result.Valid()
      ensures result.rows == cols && result.cols == rows
      ensures result.data == Transpose(data, rows, cols)
    {
      result := new GaussMatrix(cols, rows);
      for i := 0 to rows
        invariant result.Valid() && result.rows == cols && result.cols == rows
        invariant forall a, b :: 0 <= a < i && 0 <= b < cols ==> result.data[b][a] == data[a][b]
      {
        for j := 0 to cols
          invariant result.Valid() && result.rows == cols && result.cols == rows
          invariant forall a, b :: 0 <= a < i && 0 <= b < cols ==> result.data[b][a] == data[a][b]
          invariant forall b :: 0 <= b < j ==> result.data[b][i] == data[i][b]
        {
          result.Set(j, i, data[i][j]);
        }
      }
      Extensional(result.data, Transpose(data, rows, cols), cols, rows);
    }

    method Plus(other: GaussMatrix) returns (result: GaussMatrix)
      requires Valid() && other.Valid()
      requires other.rows == rows && other.cols == cols
      ensures fresh(result) && result.Valid()
      ensures result.rows == rows && result.cols == cols
      ensures result.data == Add(data, other.data, rows, cols)
    {
      result := new GaussMatrix(rows, cols);
      for i := 0 to rows
        invariant result.Valid() && result.rows == rows && result.cols == cols
        invariant forall a, b :: 0 <= a < i && 0 <= b < cols ==> result.data[a][b] == data[a][b] + other.data[a][b]
      {
        for j := 0 to cols
          invariant result.Valid() && result.rows == rows && result.cols == cols
          invariant forall a, b :: 0 <= a < i && 0 <= b < cols ==> result.data[a][b] == data[a][b] + other.data[a][b]
          invariant forall b :: 0 <= b < j ==> result.data[i][b] == data[i][b] + other.data[i][b]
        {
          result.Set(i, j, data[i][j] + other.data[i][j]);
        }
      }
      Extensional(result.data, Add(data, other.data, rows, cols), rows, cols);
    }

    /** Matrix product; entry (i, j) is accumulated with `+=` over k, starting
        from the zero-initialised result. */
    method Times(other: GaussMatrix) returns (result: GaussMatrix)
      requires Valid() && other.Valid() && cols == other.rows
      ensures fresh(result) && result.Valid()
      ensures result.rows == rows && result.cols == other.cols
      ensures result.data == Mul(data, other.data, rows, cols, other.cols)
    {
      result := new GaussMatrix(rows, other.cols);
      ghost var p := Mul(data, other.data, rows, cols, other.cols);
      for i := 0 to rows
        invariant result.Valid() && result.rows == rows && result.cols == other.cols
        invariant forall a, b :: 0 <= a < rows && 0 <= b < other.cols ==>
                    result.data[a][b] == if a < i then p[a][b] else 0.0
      {
        for j := 0 to other.cols
          invariant result.Valid() && result.rows == rows && result.cols == other.cols
          invariant forall a, b :: 0 <= a < rows && 0 <= b < other.cols ==>
                      result.data[a][b] == if a < i || (a == i && b < j) then p[a][b] else 0.0
        {
          ghost var column := Col(other.data, cols, other.cols, j);
          ghost var before := result.data;
          for k := 0 to cols
            invariant result.Valid() && result.rows == rows && result.cols == other.cols
            invariant forall a, b :: 0 <= a < rows && 0 <= b < other.cols ==>
                        result.data[a][b] == if a == i && b == j then DotTo(data[i], column, k) else before[a][b]
          {
            result.Set(i, j, result.data[i][j] + data[i][k] * other.data[k][j]);
          }
        }
      }
      Extensional(result.data, p, rows, other.cols);
    }

    /** Scaling by a scalar on the right. */
    method ScaledBy(k: real) returns (result: GaussMatrix)
      requires Valid()
      ensures fresh(result) && result.Valid()
      ensures result.rows == rows && result.cols == cols
      ensures result.data == Scale(data, rows, cols, k)
    {
      result := new GaussMatrix(rows, cols);
      for i := 0 to rows
        invariant result.Valid() && result.rows == rows && result.cols == cols
        invariant forall a, b :: 0 <= a < i && 0 <= b < cols ==> result.data[a][b] == data[a][b] * k
      {
        for j := 0 to cols
          invariant result.Valid() && result.rows == rows && result.cols == cols
          invariant forall a, b :: 0 <= a < i && 0 <= b < cols ==> result.data[a][b] == data[a][b] * k
          invariant forall b :: 0 <= b < j ==> result.data[i][b] == data[i][b] * k
        {
          result.Set(i, j, data[i][j] * k);
        }
      }
      Extensional(result.data, Scale(data, rows, cols, k), rows, cols);
    }
  }

  /** Scaling by a scalar on the left is defined as scaling on the right, so
      k*A and A*k are the same matrix. */
  method ScalarTimes(k: real, mat: GaussMatrix) returns (result: GaussMatrix)
    requires mat.Valid()
    ensures fresh(result) && result.Valid()
    ensures result.rows == mat.rows && result.cols == mat.cols
    ensures result.data == Scale(mat.data, mat.rows, mat.cols, k)
  {
    result := mat.ScaledBy(k);
  }
}
