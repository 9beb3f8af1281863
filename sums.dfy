/**
 * Finite sums of reals, and the algebra of them that the contractions need.
 *
 * `Sum` adds the terms from the first to the last, exactly as a `for` loop
 * that does `acc += term` starting from `acc = 0.0`.
 */
module Sums {

  function Sum(s: seq<real>): real
  {
    if |s| == 0 then 0.0 else Sum(s[..|s| - 1]) + s[|s| - 1]
  }

  /** One more iteration of an accumulating loop adds the next term. */
  lemma SumStep(s: seq<real>, i: nat)
    requires i < |s|
    ensures Sum(s[..i + 1]) == Sum(s[..i]) + s[i]
  {
    assert s[..i + 1][..i] == s[..i];
  }

  /** A sum whose terms are all zero is zero. */
  lemma {:induction false} SumOfZeros(s: seq<real>)
    requires forall i :: 0 <= i < |s| ==> s[i] == 0.0
    ensures Sum(s) == 0.0
  {
    if |s| > 0 {
      SumOfZeros(s[..|s| - 1]);
    }
  }

  /** Σ (a_i + b_i) = Σ a_i + Σ b_i. */
  lemma {:induction false} SumAdd(a: seq<real>, b: seq<real>, c: seq<real>)
    requires |a| == |b| == |c|
    requires forall i :: 0 <= i < |c| ==> c[i] == a[i] + b[i]
    ensures Sum(c) == Sum(a) + Sum(b)
  {
    if |c| > 0 {
      var n := |c| - 1;
      SumAdd(a[..n], b[..n], c[..n]);
    }
  }

  /** Σ k·b_i = k·Σ b_i. */
  lemma {:induction false} SumScale(k: real, b: seq<real>, c: seq<real>)
    requires |b| == |c|
    requires forall i :: 0 <= i < |c| ==> c[i] == k * b[i]
    ensures Sum(c) == k * Sum(b)
  {
    if |c| > 0 {
      var n := |c| - 1;
      SumScale(k, b[..n], c[..n]);
      assert k * Sum(b) == k * Sum(b[..n]) + k * b[n];
    }
  }

  /** A sum whose only non-zero term is at position j equals that term. */
  lemma {:induction false} SumSingle(s: seq<real>, j: nat)
    requires j < |s|
    requires forall i :: 0 <= i < |s| && i != j ==> s[i] == 0.0
    ensures Sum(s) == s[j]
  {
    var n := |s| - 1;
    if j == n {
      SumOfZeros(s[..n]);
    } else {
      SumSingle(s[..n], j);
    }
  }

  /** The sums of the rows of a table, in row order. */
  function RowSums(m: seq<seq<real>>): (r: seq<real>)
    ensures |r| == |m|
  {
    seq(|m|, i requires 0 <= i < |m| => Sum(m[i]))
  }

  /** Column j of a table whose rows all have more than j entries. */
  function Column(m: seq<seq<real>>, j: nat): (r: seq<real>)
    requires forall i :: 0 <= i < |m| ==> j < |m[i]|
    ensures |r| == |m|
  {
    seq(|m|, i requires 0 <= i < |m| => m[i][j])
  }

  /** The sums of the columns of a table with `cols` columns, in column order. */
  function ColumnSums(m: seq<seq<real>>, cols: nat): (r: seq<real>)
    requires forall i :: 0 <= i < |m| ==> |m[i]| == cols
    ensures |r| == cols
  {
    seq(cols, j requires 0 <= j < cols => Sum(Column(m, j)))
  }

  /** Summing a table row by row or column by column gives the same total. */
  lemma {:induction false} SumSwap(m: seq<seq<real>>, cols: nat)
    requires forall i :: 0 <= i < |m| ==> |m[i]| == cols
    ensures Sum(RowSums(m)) == Sum(ColumnSums(m, cols))
  {
    if |m| == 0 {
      SumOfZeros(ColumnSums(m, cols));
    } else {
      var n := |m| - 1;
      var front := m[..n];
      SumSwap(front, cols);
      assert RowSums(m)[..n] == RowSums(front);
      forall j | 0 <= j < cols
        ensures ColumnSums(m, cols)[j] == ColumnSums(front, cols)[j] + m[n][j]
      {
        assert Column(m, j)[..n] == Column(front, j);
      }
      SumAdd(ColumnSums(front, cols), m[n], ColumnSums(m, cols));
    }
  }
}
