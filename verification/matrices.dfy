/** Dense real matrices as sequences of rows, and the options wrapper used for
    results the source leaves undefined. */
module Matrices {

  type Matrix = seq<seq<real>>

  /** Every row has as many entries as there are rows. */
  predicate IsSquare(m: Matrix) {
    forall i :: 0 <= i < |m| ==> |m[i]| == |m|
  }

  /** A square matrix equal to its transpose. */
  predicate Symmetric(m: Matrix)
    requires IsSquare(m)
  {
    forall i, j :: 0 <= i < |m| && 0 <= j < |m| ==> m[i][j] == m[j][i]
  }

  /** A row of `n` zeros, the value of a freshly allocated row. */
  function Zeros(n: nat): (r: seq<real>)
    ensures |r| == n
    ensures forall j :: 0 <= j < n ==> r[j] == 0.0
  {
    seq(n, _ => 0.0)
  }

  /** An `n` by `n` matrix of zeros. */
  function ZeroMatrix(n: nat): (r: Matrix)
    ensures |r| == n && IsSquare(r)
    ensures forall i :: 0 <= i < n ==> r[i] == Zeros(n)
  {
    seq(n, _ => Zeros(n))
  }
}

module Options {
  datatype Option<+T> = None | Some(value: T)
}
