/**
 * Dense real matrices and rank-4 tensors, standing in for Eigen's `MatrixXd`
 * and `Tensor<double, 4>`; entries are exact reals.
 */
module Matrices {
  import opened Sums

  type Vector = seq<real>
  type Matrix = seq<seq<real>>
  type Tensor4 = seq<seq<seq<seq<real>>>>

  /** m is a K×K matrix. */
  predicate IsMatrix(m: Matrix, K: nat)
  {
    |m| == K && forall i :: 0 <= i < K ==> |m[i]| == K
  }

  /** m is a matrix (all rows of one length), of any shape. */
  predicate IsRectangular(m: Matrix)
  {
    forall i :: 0 <= i < |m| ==> |m[i]| == |m[0]|
  }

  /** The number of columns of a rectangular matrix (0 when it has no rows). */
  function Cols(m: Matrix): nat
  {
    if |m| == 0 then 0 else |m[0]|
  }

  /** t is a K×K×K×K tensor. */
  predicate IsTensor(t: Tensor4, K: nat)
  {
    |t| == K &&
    forall i :: 0 <= i < K ==> (|t[i]| == K &&
      forall j :: 0 <= j < K ==> (|t[i][j]| == K &&
        forall k :: 0 <= k < K ==> |t[i][j][k]| == K))
  }

  /** Two K×K×K×K tensors with the same entries are equal. */
  lemma TensorExtensionality(a: Tensor4, b: Tensor4)
    requires IsTensor(a, |a|) && IsTensor(b, |a|)
    requires forall p, q, r, s :: 0 <= p < |a| && 0 <= q < |a| && 0 <= r < |a| && 0 <= s < |a| ==>
               a[p][q][r][s] == b[p][q][r][s]
    ensures a == b
  {
    var K := |a|;
    forall p, q, r | 0 <= p < K && 0 <= q < K && 0 <= r < K
      ensures a[p][q][r] == b[p][q][r]
    {
      assert forall s | 0 <= s < K :: a[p][q][r][s] == b[p][q][r][s];
    }
    forall p, q | 0 <= p < K && 0 <= q < K
      ensures a[p][q] == b[p][q]
    {
    }
    forall p | 0 <= p < K
      ensures a[p] == b[p]
    {
    }
  }

  function Identity(K: nat): (r: Matrix)
    ensures IsMatrix(r, K)
  {
    seq(K, i requires 0 <= i < K => seq(K, j requires 0 <= j < K => if i == j then 1.0 else 0.0))
  }

  function Transpose(m: Matrix): (r: Matrix)
    requires IsMatrix(m, |m|)
    ensures IsMatrix(r, |m|)
    ensures forall i, j :: 0 <= i < |m| && 0 <= j < |m| ==> r[i][j] == m[j][i]
  {
    seq(|m|, i requires 0 <= i < |m| => seq(|m|, j requires 0 <= j < |m| => m[j][i]))
  }

  /** The products a(i,k)·b(k,j), k = 0 … K-1, whose sum is entry (i,j) of a·b. */
  function Products(a: Matrix, b: Matrix, i: nat, j: nat): (r: seq<real>)
    requires IsMatrix(a, |a|) && IsMatrix(b, |a|) && i < |a| && j < |a|
    ensures |r| == |a|
  {
    seq(|a|, k requires 0 <= k < |a| => a[i][k] * b[k][j])
  }

  /** The matrix product a·b of two K×K matrices. */
  function MatMul(a: Matrix, b: Matrix): (r: Matrix)
    requires IsMatrix(a, |a|) && IsMatrix(b, |a|)
    ensures IsMatrix(r, |a|)
    ensures forall i, j :: 0 <= i < |a| && 0 <= j < |a| ==> r[i][j] == Sum(Products(a, b, i, j))
  {
    seq(|a|, i requires 0 <= i < |a| => seq(|a|, j requires 0 <= j < |a| => Sum(Products(a, b, i, j))))
  }

  /** Every entry of m lies within tol of zero (Eigen's `isZero(tol)`). */
  predicate IsZero(m: Matrix, tol: real)
    requires IsMatrix(m, |m|)
  {
    forall i, j :: 0 <= i < |m| && 0 <= j < |m| ==> -tol <= m[i][j] <= tol
  }

  /** Uᵀ·U lies within tol of the identity, entry by entry (Eigen's `isUnitary(tol)` for real U). */
  predicate IsUnitary(u: Matrix, tol: real)
    requires IsMatrix(u, |u|)
  {
    var k := |u|;
    var utu := MatMul(Transpose(u), u);
    forall i, j :: 0 <= i < k && 0 <= j < k ==> -tol <= utu[i][j] - Identity(k)[i][j] <= tol
  }

  /** Right-multiplying by the identity changes nothing. */
  lemma MatMulIdentity(a: Matrix)
    requires IsMatrix(a, |a|)
    ensures MatMul(a, Identity(|a|)) == a
  {
    var r := MatMul(a, Identity(|a|));
    forall i, j | 0 <= i < |a| && 0 <= j < |a|
      ensures r[i][j] == a[i][j]
    {
      SumSingle(Products(a, Identity(|a|), i, j), j);
    }
    assert forall i | 0 <= i < |a| :: r[i] == a[i];
  }

  /** Left-multiplying by the identity changes nothing. */
  lemma MatMulIdentityLeft(a: Matrix)
    requires IsMatrix(a, |a|)
    ensures MatMul(Identity(|a|), a) == a
  {
    var r := MatMul(Identity(|a|), a);
    forall i, j | 0 <= i < |a| && 0 <= j < |a|
      ensures r[i][j] == a[i][j]
    {
      SumSingle(Products(Identity(|a|), a, i, j), i);
    }
    assert forall i | 0 <= i < |a| :: r[i] == a[i];
  }

  /** The identity is symmetric. */
  lemma TransposeIdentity(K: nat)
    ensures Transpose(Identity(K)) == Identity(K)
  {
    var r := Transpose(Identity(K));
    assert forall i | 0 <= i < K :: r[i] == Identity(K)[i];
  }

  /** (a·b)ᵀ = bᵀ·aᵀ. */
  lemma TransposeOfProduct(a: Matrix, b: Matrix)
    requires IsMatrix(a, |a|) && IsMatrix(b, |a|)
    ensures Transpose(MatMul(a, b)) == MatMul(Transpose(b), Transpose(a))
  {
    var left, right := Transpose(MatMul(a, b)), MatMul(Transpose(b), Transpose(a));
    forall i, j | 0 <= i < |a| && 0 <= j < |a|
      ensures left[i][j] == right[i][j]
    {
      var p, q := Products(a, b, j, i), Products(Transpose(b), Transpose(a), i, j);
      forall k | 0 <= k < |a|
        ensures p[k] == q[k]
      {
        assert q[k] == b[k][i] * a[j][k];
      }
      assert p == q;
    }
    assert forall i | 0 <= i < |a| :: left[i] == right[i];
  }

  /** Matrix multiplication is associative: (a·b)·c = a·(b·c). */
  lemma MatMulAssociative(a: Matrix, b: Matrix, c: Matrix)
    requires IsMatrix(a, |a|) && IsMatrix(b, |a|) && IsMatrix(c, |a|)
    ensures MatMul(MatMul(a, b), c) == MatMul(a, MatMul(b, c))
  {
    var ab, bc := MatMul(a, b), MatMul(b, c);
    var left, right := MatMul(ab, c), MatMul(a, bc);
    forall i, j | 0 <= i < |a| && 0 <= j < |a|
      ensures left[i][j] == right[i][j]
    {
      AssociativeEntry(a, b, c, i, j);
    }
    assert forall i | 0 <= i < |a| :: left[i] == right[i];
  }

  /** The table whose entry (k,l) is a(i,l)·b(l,k)·c(k,j). */
  function TripleProducts(a: Matrix, b: Matrix, c: Matrix, i: nat, j: nat): (t: seq<seq<real>>)
    requires IsMatrix(a, |a|) && IsMatrix(b, |a|) && IsMatrix(c, |a|)
    requires i < |a| && j < |a|
    ensures |t| == |a| && forall k :: 0 <= k < |a| ==> |t[k]| == |a|
  {
    seq(|a|, k requires 0 <= k < |a| =>
      seq(|a|, l requires 0 <= l < |a| => a[i][l] * (b[l][k] * c[k][j])))
  }

  /** Row k of the table sums to (a·b)(i,k)·c(k,j). */
  lemma TripleProductsRow(a: Matrix, b: Matrix, c: Matrix, i: nat, j: nat, k: nat)
    requires IsMatrix(a, |a|) && IsMatrix(b, |a|) && IsMatrix(c, |a|)
    requires i < |a| && j < |a| && k < |a|
    ensures Sum(TripleProducts(a, b, c, i, j)[k]) == MatMul(a, b)[i][k] * c[k][j]
  {
    var row := TripleProducts(a, b, c, i, j)[k];
    var p := Products(a, b, i, k);
    forall l | 0 <= l < |a|
      ensures row[l] == c[k][j] * p[l]
    {
      assert row[l] == a[i][l] * (b[l][k] * c[k][j]);
    }
    SumScale(c[k][j], p, row);
  }

  /** Column l of the table sums to a(i,l)·(b·c)(l,j). */
  lemma TripleProductsColumn(a: Matrix, b: Matrix, c: Matrix, i: nat, j: nat, l: nat)
    requires IsMatrix(a, |a|) && IsMatrix(b, |a|) && IsMatrix(c, |a|)
    requires i < |a| && j < |a| && l < |a|
    ensures Sum(Column(TripleProducts(a, b, c, i, j), l)) == a[i][l] * MatMul(b, c)[l][j]
  {
    var col := Column(TripleProducts(a, b, c, i, j), l);
    var p := Products(b, c, l, j);
    forall k | 0 <= k < |a|
      ensures col[k] == a[i][l] * p[k]
    {
    }
    SumScale(a[i][l], p, col);
  }

  /** Entry (i,j) of the associativity law: both sides are Σ_k Σ_l a(i,l)·b(l,k)·c(k,j). */
  lemma AssociativeEntry(a: Matrix, b: Matrix, c: Matrix, i: nat, j: nat)
    requires IsMatrix(a, |a|) && IsMatrix(b, |a|) && IsMatrix(c, |a|)
    requires i < |a| && j < |a|
    ensures MatMul(MatMul(a, b), c)[i][j] == MatMul(a, MatMul(b, c))[i][j]
  {
    var K := |a|;
    var table := TripleProducts(a, b, c, i, j);
    forall k | 0 <= k < K
      ensures RowSums(table)[k] == Products(MatMul(a, b), c, i, j)[k]
    {
      TripleProductsRow(a, b, c, i, j, k);
    }
    assert RowSums(table) == Products(MatMul(a, b), c, i, j);
    forall l | 0 <= l < K
      ensures ColumnSums(table, K)[l] == Products(a, MatMul(b, c), i, j)[l]
    {
      TripleProductsColumn(a, b, c, i, j, l);
    }
    assert ColumnSums(table, K) == Products(a, MatMul(b, c), i, j);
    SumSwap(table, K);
  }
}
