/**
 * Dense real matrices standing in for the SimpleMatrix accumulators of the
 * kinship estimators, and the normalise-and-mirror pass that the imputing IBS
 * and the Balding-Nicols estimators share in their calculate().
 */
module Matrices {

  /** A matrix as a sequence of rows; entries are vcf2kinship.cpp's doubles as reals. */
  type Matrix = seq<seq<real>>

  /** m has N rows of N entries each. */
  predicate IsSquare(m: Matrix, N: nat) {
    |m| == N && forall i :: 0 <= i < N ==> |m[i]| == N
  }

  predicate Symmetric(m: Matrix)
    requires IsSquare(m, |m|)
  {
    forall i, j :: 0 <= i < |m| && 0 <= j < |m| ==> m[i][j] == m[j][i]
  }

  /** What resize(N, N) followed by clear() leaves behind. */
  function Zero(N: nat): (z: Matrix)
    ensures IsSquare(z, N)
    ensures forall i, j :: 0 <= i < N && 0 <= j < N ==> z[i][j] == 0.0
  {
    seq(N, _ => seq(N, _ => 0.0))
  }

  /** clear() on its own: every entry becomes 0 and the shape is kept. */
  function Cleared(m: Matrix): (z: Matrix)
    ensures |z| == |m|
    ensures forall i :: 0 <= i < |m| ==> |z[i]| == |m[i]|
    ensures forall i, j :: 0 <= i < |m| && 0 <= j < |m[i]| ==> z[i][j] == 0.0
  {
    seq(|m|, i requires 0 <= i < |m| => seq(|m[i]|, _ => 0.0))
  }

  /**
   * The matrix an addGenotype call accumulates into: a fresh N x N zero
   * matrix when no site has been counted yet (n == 0), the current one otherwise.
   */
  function Accumulator(k: Matrix, n: nat, N: nat): (base: Matrix)
    requires n == 0 || IsSquare(k, N)
    ensures IsSquare(base, N)
    ensures n == 0 ==> base == Zero(N)
    ensures n > 0 ==> base == k
  {
    if n == 0 then Zero(N) else k
  }

  /**
   * The lower-triangle sweep `for i { for j <= i }` has already visited the
   * cell (a, b), b <= a, when it stands at (i, j).
   */
  predicate Visited(a: int, b: int, i: int, j: int) {
    a < i || (a == i && b < j)
  }

  /** (a, b) is a lower-triangle cell the sweep has already visited at (i, j). */
  predicate LowerVisited(a: int, b: int, i: int, j: int) {
    b <= a && Visited(a, b, i, j)
  }

  /** A cell is done by a mirroring sweep once its lower-triangle twin is visited. */
  predicate MirrorVisited(a: int, b: int, i: int, j: int) {
    if b <= a then Visited(a, b, i, j) else Visited(b, a, i, j)
  }

  /** Two square matrices that agree cell by cell are equal. */
  lemma SameCells(m1: Matrix, m2: Matrix, N: nat)
    requires IsSquare(m1, N) && IsSquare(m2, N)
    requires forall i, j :: 0 <= i < N && 0 <= j < N ==> m1[i][j] == m2[i][j]
    ensures m1 == m2
  {
    assert forall i :: 0 <= i < N ==> m1[i] == m2[i];
  }

  /**
   * Reference for calculate() of the imputing IBS and Balding-Nicols
   * estimators: with no site counted nothing changes; otherwise every lower
   * cell is divided by the site counter and copied to its upper twin.
   */
  function NormalizeMirror(k: Matrix, n: nat): (r: Matrix)
    requires n == 0 || IsSquare(k, |k|)
    ensures n == 0 ==> r == k
    ensures n > 0 ==> IsSquare(r, |k|) && Symmetric(r)
    ensures n > 0 ==> forall i, j :: 0 <= j <= i < |k| ==> r[i][j] == k[i][j] / (n as real)
  {
    if n == 0 then k
    else
      seq(|k|, i requires 0 <= i < |k| =>
        seq(|k|, j requires 0 <= j < |k| =>
          if j <= i then k[i][j] / (n as real) else k[j][i] / (n as real)))
  }

  /** The in-place loop of calculate() in vcf2kinship.cpp: divide k[i][j] by n, then copy it to k[j][i]. */
  method NormalizeMirrorLoop(k0: Matrix, n: nat) returns (k: Matrix)
    requires n == 0 || IsSquare(k0, |k0|)
    ensures k == NormalizeMirror(k0, n)
    ensures n == 0 ==> k == k0
    ensures n > 0 ==> IsSquare(k, |k0|) && Symmetric(k)
    ensures n > 0 ==> forall i, j :: 0 <= j <= i < |k0| ==> k[i][j] == k0[i][j] / (n as real)
  {
    k := k0;
    if n == 0 {
      return;
    }
    var N := |k0|;
    ghost var target := NormalizeMirror(k0, n);
    var i := 0;
    while i < N
      invariant 0 <= i <= N
      invariant IsSquare(k, N)
      invariant forall a, b :: 0 <= a < N && 0 <= b < N ==>
        k[a][b] == if MirrorVisited(a, b, i, 0) then target[a][b] else k0[a][b]
    {
      var j := 0;
      while j <= i
        invariant 0 <= j <= i + 1
        invariant IsSquare(k, N)
        invariant forall a, b :: 0 <= a < N && 0 <= b < N ==>
          k[a][b] == if MirrorVisited(a, b, i, j) then target[a][b] else k0[a][b]
      {
        var v := k[i][j] / (n as real);
        k := k[i := k[i][j := v]];
        k := k[j := k[j][i := v]];
        j := j + 1;
      }
      i := i + 1;
    }
    SameCells(k, target, N);
  }
}
