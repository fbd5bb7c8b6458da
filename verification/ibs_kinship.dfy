/**
 * IBSKinship: identity-by-state kinship that averages, per pair, over the
 * sites at which the pair was counted. A pair is counted when at least one of
 * the two calls is present; its score is then 2 - |g_i - g_j| on the integer
 * dosages, the missing sentinel included.
 *
 * State: the site counter n, the score accumulator k and the per-pair count
 * matrix.
 */
module IbsKinship {
  import opened Matrices
  import opened Dosages

  datatype State = State(n: nat, k: Matrix, count: Matrix)

  /** A newly constructed estimator: n = 0, empty matrices. */
  function Fresh(): (r: State)
    ensures r.n == 0 && |r.k| == 0 && |r.count| == 0
    ensures Calculated(r) == r
  {
    State(0, [], [])
  }

  function Abs(x: int): nat {
    if x < 0 then -x else x
  }

  /** The pair takes part in a site when either call is present (an OR, not an AND). */
  predicate Counted(a: Dosage, b: Dosage) {
    !Missing(a) || !Missing(b)
  }

  /** Score of a counted pair: 2 minus the distance between the two integer dosages. */
  function Score(a: Dosage, b: Dosage): real {
    2.0 - Abs(a - b) as real
  }

  /** The matrices addGenotype starts from (re-zeroed while n == 0). */
  predicate Shaped(s: State, N: nat) {
    s.n == 0 || (IsSquare(s.k, N) && IsSquare(s.count, N))
  }

  /** Reference: counted lower cells gain their score. */
  function AddScores(base: Matrix, g: seq<Dosage>): (k: Matrix)
    requires IsSquare(base, |g|)
    ensures IsSquare(k, |g|)
  {
    seq(|g|, i requires 0 <= i < |g| =>
      seq(|g|, j requires 0 <= j < |g| =>
        if j <= i && Counted(g[i], g[j]) then base[i][j] + Score(g[i], g[j]) else base[i][j]))
  }

  /** Reference: counted lower cells gain one. */
  function AddCounts(base: Matrix, g: seq<Dosage>): (c: Matrix)
    requires IsSquare(base, |g|)
    ensures IsSquare(c, |g|)
  {
    seq(|g|, i requires 0 <= i < |g| =>
      seq(|g|, j requires 0 <= j < |g| =>
        if j <= i && Counted(g[i], g[j]) then base[i][j] + 1.0 else base[i][j]))
  }

  /** Reference for addGenotype: every site is accepted. */
  function Step(s: State, g: seq<Dosage>): (r: (int, State))
    requires Shaped(s, |g|)
    ensures IsSquare(r.1.k, |g|) && IsSquare(r.1.count, |g|) && r.1.n > s.n
  {
    (ACCEPTED, State(s.n + 1,
                     AddScores(Accumulator(s.k, s.n, |g|), g),
                     AddCounts(Accumulator(s.count, s.n, |g|), g)))
  }

  /**
   * addGenotype: re-zero both matrices when n == 0, count the site, and sweep
   * the lower triangle adding score and count for every counted pair.
   */
  method AddGenotype(s: State, g: seq<Dosage>) returns (status: int, r: State)
    requires Shaped(s, |g|)
    ensures (status, r) == Step(s, g)
    ensures status == ACCEPTED && r.n == s.n + 1
    ensures IsSquare(r.k, |g|) && IsSquare(r.count, |g|)
    ensures forall i, j :: 0 <= j <= i < |g| && Counted(g[i], g[j]) ==>
      && r.k[i][j] == Accumulator(s.k, s.n, |g|)[i][j] + 2.0 - Abs(g[i] - g[j]) as real
      && r.count[i][j] == Accumulator(s.count, s.n, |g|)[i][j] + 1.0
    ensures forall i, j :: 0 <= i < |g| && 0 <= j < |g| && (i < j || !Counted(g[i], g[j])) ==>
      && r.k[i][j] == Accumulator(s.k, s.n, |g|)[i][j]
      && r.count[i][j] == Accumulator(s.count, s.n, |g|)[i][j]
  {
    var N := |g|;
    var k0 := Accumulator(s.k, s.n, N);
    var count0 := Accumulator(s.count, s.n, N);
    var k, count := SweepPairs(k0, count0, g);
    SameCells(k, AddScores(k0, g), N);
    SameCells(count, AddCounts(count0, g), N);
    return ACCEPTED, State(s.n + 1, k, count);
  }

  /** The lower-triangle sweep adding score and count for every counted pair. */
  method SweepPairs(k0: Matrix, count0: Matrix, g: seq<Dosage>) returns (k: Matrix, count: Matrix)
    requires IsSquare(k0, |g|) && IsSquare(count0, |g|)
    ensures IsSquare(k, |g|) && IsSquare(count, |g|)
    ensures forall a, b :: 0 <= a < |g| && 0 <= b < |g| ==>
      k[a][b] == if b <= a && Counted(g[a], g[b]) then k0[a][b] + Score(g[a], g[b]) else k0[a][b]
    ensures forall a, b :: 0 <= a < |g| && 0 <= b < |g| ==>
      count[a][b] == if b <= a && Counted(g[a], g[b]) then count0[a][b] + 1.0 else count0[a][b]
  {
    var N := |g|;
    k, count := k0, count0;
    assert forall a, b :: 0 <= a && 0 <= b ==> !LowerVisited(a, b, 0, 0);
    var i := 0;
    while i < N
      invariant 0 <= i <= N
      invariant IsSquare(k, N) && IsSquare(count, N)
      invariant forall a, b {:trigger k[a][b]} :: 0 <= a < N && 0 <= b < N ==>
        k[a][b] == if LowerVisited(a, b, i, 0) && Counted(g[a], g[b]) then k0[a][b] + Score(g[a], g[b]) else k0[a][b]
      invariant forall a, b {:trigger count[a][b]} :: 0 <= a < N && 0 <= b < N ==>
        count[a][b] == if LowerVisited(a, b, i, 0) && Counted(g[a], g[b]) then count0[a][b] + 1.0 else count0[a][b]
    {
      var j := 0;
      while j <= i
        invariant 0 <= j <= i + 1
        invariant IsSquare(k, N) && IsSquare(count, N)
        invariant forall a, b {:trigger k[a][b]} :: 0 <= a < N && 0 <= b < N ==>
          k[a][b] == if LowerVisited(a, b, i, j) && Counted(g[a], g[b]) then k0[a][b] + Score(g[a], g[b]) else k0[a][b]
        invariant forall a, b {:trigger count[a][b]} :: 0 <= a < N && 0 <= b < N ==>
          count[a][b] == if LowerVisited(a, b, i, j) && Counted(g[a], g[b]) then count0[a][b] + 1.0 else count0[a][b]
      {
        if g[i] >= 0 || g[j] >= 0 {
          k := k[i := k[i][j := k[i][j] + (2.0 - Abs(g[i] - g[j]) as real)]];
          count := count[i := count[i][j := count[i][j] + 1.0]];
        }
        j := j + 1;
      }
      i := i + 1;
    }
  }

  /**
   * Reference for calculate()'s matrix: a lower cell with a positive count is
   * divided by it and copied to its upper twin; a cell with count 0 is left alone.
   */
  function NormalizeByCount(k: Matrix, count: Matrix): (r: Matrix)
    requires IsSquare(k, |k|) && IsSquare(count, |k|)
    ensures IsSquare(r, |k|)
  {
    seq(|k|, i requires 0 <= i < |k| =>
      seq(|k|, j requires 0 <= j < |k| =>
        if j <= i then (if count[i][j] > 0.0 then k[i][j] / count[i][j] else k[i][j])
        else (if count[j][i] > 0.0 then k[j][i] / count[j][i] else k[i][j])))
  }

  /** Reference for calculate(): nothing happens while n == 0. */
  function Calculated(s: State): (r: State)
    requires s.n == 0 || (IsSquare(s.k, |s.k|) && IsSquare(s.count, |s.k|))
    ensures s.n > 0 ==> IsSquare(r.k, |s.k|)
  {
    if s.n == 0 then s else State(s.n, NormalizeByCount(s.k, s.count), s.count)
  }

  /** IBSKinship::calculate as vcf2kinship.cpp loops over the lower triangle. */
  method Calculate(s: State) returns (r: State)
    requires s.n == 0 || (IsSquare(s.k, |s.k|) && IsSquare(s.count, |s.k|))
    ensures r == Calculated(s)
    ensures s.n == 0 ==> r == s
    ensures s.n > 0 ==> IsSquare(r.k, |s.k|) && r.count == s.count && r.n == s.n
    ensures s.n > 0 ==> forall i, j :: 0 <= j <= i < |s.k| ==>
      if s.count[i][j] > 0.0 then r.k[i][j] == s.k[i][j] / s.count[i][j] && r.k[j][i] == r.k[i][j]
      else r.k[i][j] == s.k[i][j] && r.k[j][i] == s.k[j][i]
  {
    if s.n == 0 {
      return s;
    }
    var N := |s.k|;
    var k := s.k;
    ghost var target := NormalizeByCount(s.k, s.count);
    var i := 0;
    while i < N
      invariant 0 <= i <= N
      invariant IsSquare(k, N)
      invariant forall a, b {:trigger k[a][b]} :: 0 <= a < N && 0 <= b < N ==>
        k[a][b] == if MirrorVisited(a, b, i, 0) then target[a][b] else s.k[a][b]
    {
      var j := 0;
      while j <= i
        invariant 0 <= j <= i + 1
        invariant IsSquare(k, N)
        invariant forall a, b {:trigger k[a][b]} :: 0 <= a < N && 0 <= b < N ==>
          k[a][b] == if MirrorVisited(a, b, i, j) then target[a][b] else s.k[a][b]
      {
        if s.count[i][j] > 0.0 {
          var v := k[i][j] / s.count[i][j];
          k := k[i := k[i][j := v]];
          k := k[j := k[j][i := v]];
        }
        j := j + 1;
      }
      i := i + 1;
    }
    SameCells(k, target, N);
    r := State(s.n, k, s.count);
  }

  /** clear(): n drops to 0 and k is zeroed; count is left as it was. */
  function Clear(s: State): (r: State)
    ensures r.n == 0
    ensures |r.k| == |s.k| && forall i :: 0 <= i < |s.k| ==> |r.k[i]| == |s.k[i]|
    ensures forall i, j :: 0 <= i < |s.k| && 0 <= j < |s.k[i]| ==> r.k[i][j] == 0.0
    ensures Calculated(r) == r
    ensures r.count == s.count
  {
    State(0, Cleared(s.k), s.count)
  }

  /** A run of sites fed one after another. */
  function Feed(s: State, sites: seq<seq<Dosage>>, N: nat): (r: State)
    requires Shaped(s, N)
    requires Rectangular(sites, N)
    ensures r.n >= s.n
    ensures s.n > 0 || |sites| > 0 ==> r.n > 0 && IsSquare(r.k, N) && IsSquare(r.count, N)
    decreases |sites|
  {
    if |sites| == 0 then s else Feed(Step(s, sites[0]).1, sites[1..], N)
  }

  /**
   * What a state reached from a fresh or cleared estimator by addGenotype
   * calls alone (before calculate) satisfies: the upper triangles are untouched
   * zeros, counts are non-negative, a lower cell never counted holds score 0,
   * and each diagonal score is twice its count.
   */
  predicate Inv(s: State, N: nat) {
    && IsSquare(s.k, N) && IsSquare(s.count, N)
    && (forall i, j :: 0 <= i < N && 0 <= j < N ==> s.count[i][j] >= 0.0)
    && (forall i, j :: 0 <= i < j < N ==> s.k[i][j] == 0.0 && s.count[i][j] == 0.0)
    && (forall i, j :: 0 <= j <= i < N && s.count[i][j] == 0.0 ==> s.k[i][j] == 0.0)
    && (forall i :: 0 <= i < N ==> s.k[i][i] == 2.0 * s.count[i][i])
  }

  /** addGenotype keeps the invariant (and establishes it from a re-zeroed start). */
  lemma StepKeepsInv(s: State, g: seq<Dosage>)
    requires s.n == 0 || Inv(s, |g|)
    ensures Inv(Step(s, g).1, |g|)
  {
    var N := |g|;
    var kb, cb := Accumulator(s.k, s.n, N), Accumulator(s.count, s.n, N);
    assert Inv(State(1, kb, cb), N);
    var r := Step(s, g).1;
    forall i | 0 <= i < N
      ensures r.k[i][i] == 2.0 * r.count[i][i]
    {
      assert Counted(g[i], g[i]) ==> Score(g[i], g[i]) == 2.0;
    }
  }

  lemma {:induction false} FeedKeepsInv(s: State, sites: seq<seq<Dosage>>, N: nat)
    requires s.n == 0 || Inv(s, N)
    requires Rectangular(sites, N)
    ensures s.n > 0 || |sites| > 0 ==> Inv(Feed(s, sites, N), N)
    decreases |sites|
  {
    if |sites| > 0 {
      StepKeepsInv(s, sites[0]);
      FeedKeepsInv(Step(s, sites[0]).1, sites[1..], N);
    }
  }

  /** Every site counts once. */
  lemma {:induction false} FeedCounter(s: State, sites: seq<seq<Dosage>>, N: nat)
    requires Shaped(s, N)
    requires Rectangular(sites, N)
    ensures Feed(s, sites, N).n == s.n + |sites|
    decreases |sites|
  {
    if |sites| > 0 {
      FeedCounter(Step(s, sites[0]).1, sites[1..], N);
    }
  }

  /** The diagonal count of x grows by one for each site at which x has a call. */
  lemma {:induction false} FeedDiagonalCount(s: State, sites: seq<seq<Dosage>>, N: nat, x: nat)
    requires Shaped(s, N)
    requires Rectangular(sites, N) && |sites| > 0 && x < N
    ensures Feed(s, sites, N).count[x][x] == Accumulator(s.count, s.n, N)[x][x] + NonMissingAt(sites, x) as real
    decreases |sites|
  {
    var s1 := Step(s, sites[0]).1;
    if |sites| > 1 {
      FeedDiagonalCount(s1, sites[1..], N, x);
    }
  }

  /**
   * After calculate() on a state satisfying Inv with n > 0 the matrix is symmetric,
   * a diagonal entry is 2 if its count is positive and 0 otherwise, and both
   * twins of a never-counted pair are 0.
   */
  lemma CalculateSymmetric(s: State, N: nat)
    requires s.n > 0 && Inv(s, N)
    ensures IsSquare(Calculated(s).k, N) && Symmetric(Calculated(s).k)
    ensures forall x :: 0 <= x < N ==>
      Calculated(s).k[x][x] == if s.count[x][x] > 0.0 then 2.0 else 0.0
    ensures forall i, j :: 0 <= j <= i < N && s.count[i][j] == 0.0 ==>
      Calculated(s).k[i][j] == 0.0 && Calculated(s).k[j][i] == 0.0
  {
    var r := Calculated(s).k;
    forall x | 0 <= x < N
      ensures r[x][x] == if s.count[x][x] > 0.0 then 2.0 else 0.0
    {
      var c := s.count[x][x];
      if c > 0.0 {
        assert r[x][x] == s.k[x][x] / c;
        assert s.k[x][x] == 2.0 * c;
        TwiceOver(c);
      } else {
        assert r[x][x] == s.k[x][x];
      }
    }
  }

  /** Real-division step kept as its own lemma so that CalculateSymmetric is stable across solver seeds. */
  lemma TwiceOver(c: real)
    requires c > 0.0
    ensures (2.0 * c) / c == 2.0
  {
  }

  /**
   * Self-kinship after a run: 2 for an individual called at one or more sites,
   * 0 for one never called.
   */
  lemma SelfKinship(sites: seq<seq<Dosage>>, N: nat, x: nat)
    requires Rectangular(sites, N) && |sites| > 0 && x < N
    ensures Calculated(Feed(Fresh(), sites, N)).k[x][x] == if NonMissingAt(sites, x) > 0 then 2.0 else 0.0
  {
    FeedKeepsInv(Fresh(), sites, N);
    FeedDiagonalCount(Fresh(), sites, N, x);
    CalculateSymmetric(Feed(Fresh(), sites, N), N);
  }

  /**
   * clear() leaves a stale count matrix, yet feeding a non-empty run after it
   * gives what a fresh estimator gives.
   */
  lemma ClearThenFeedIsFresh(s: State, sites: seq<seq<Dosage>>, N: nat)
    requires Rectangular(sites, N) && |sites| > 0
    ensures Clear(s).n == 0 && Clear(s).count == s.count
    ensures Feed(Clear(s), sites, N) == Feed(Fresh(), sites, N)
    ensures Calculated(Feed(Clear(s), sites, N)) == Calculated(Feed(Fresh(), sites, N))
  {
  }

  /**
   * Three individuals, sites [0, 1, 2] and [0, 0, missing]. Pair (2, 0) is
   * counted at the second site through the present call of individual 0 and
   * scores 2 - |-9 - 0| = -7 there, so its kinship is (0 - 7) / 2.
   */
  lemma WorkedExample()
    ensures Calculated(Feed(Fresh(), [[0, 1, 2], [0, 0, -9]], 3)).k
         == [[2.0, 1.5, -3.5], [1.5, 2.0, -3.0], [-3.5, -3.0, 2.0]]
  {
    var sites: seq<seq<Dosage>> := [[0, 1, 2], [0, 0, -9]];
    var s1 := Step(Fresh(), sites[0]).1;
    var s2 := Step(s1, sites[1]).1;
    assert sites[1..][1..] == [];
    assert Feed(Fresh(), sites, 3) == s2;
    assert s2.k[0] == [4.0, 0.0, 0.0] && s2.k[1] == [3.0, 4.0, 0.0] && s2.k[2] == [-7.0, -6.0, 2.0];
    assert s2.count[0] == [2.0, 0.0, 0.0] && s2.count[1] == [2.0, 2.0, 0.0] && s2.count[2] == [2.0, 2.0, 1.0];
    var r := Calculated(s2).k;
    SameCells(r, [[2.0, 1.5, -3.5], [1.5, 2.0, -3.0], [-3.5, -3.0, 2.0]], 3);
  }
}
