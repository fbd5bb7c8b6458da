/**
 * IBSKinshipImpute: identity-by-state kinship in which a missing call is
 * scored by its expected similarity given the site's mean dosage p.
 *
 * The estimator is a state value: the site counter n and the accumulator k.
 * n moves by two for every accepted site and by one for a rejected site,
 * exactly as IBSKinshipImpute::addGenotype in vcf2kinship.cpp does.
 */
module IbsKinshipImpute {
  import opened Matrices
  import opened Dosages

  datatype State = State(n: nat, k: Matrix)

  /** A newly constructed estimator: n = 0 and an empty accumulator. */
  function Fresh(): (r: State)
    ensures r.n == 0 && |r.k| == 0
    ensures Calculated(r) == r
  {
    State(0, [])
  }

  /** Row/column of the contribution table: the dosage itself, 3 for a missing call. */
  function Code(d: Dosage): (c: nat)
    requires d <= 2
    ensures c <= 3
    ensures Missing(d) <==> c == 3
  {
    if Missing(d) then 3 else d
  }

  /**
   * The 4 x 4 contribution table of one site, p being the mean dosage.
   * It is symmetric, scores identical calls 2, and its missing/missing entry
   * is 2(p^2 + q^2) with q = 1 - p.
   */
  function Table(p: real): (t: Matrix)
    ensures IsSquare(t, 4) && Symmetric(t)
    ensures forall c :: 0 <= c < 3 ==> t[c][c] == 2.0
    ensures t[3][3] == 2.0 * (p * p + (1.0 - p) * (1.0 - p))
  {
    [[2.0, 1.0, 0.0, 2.0 * (1.0 - p)],
     [1.0, 2.0, 1.0, 1.0],
     [0.0, 1.0, 2.0, 2.0 * p],
     [2.0 * (1.0 - p), 1.0, 2.0 * p, 2.0 - 4.0 * p * (1.0 - p)]]
  }

  /** Reference: every lower cell (j <= i) gains table[code(g[i])][code(g[j])]. */
  function Accumulate(base: Matrix, g: seq<Dosage>): (k: Matrix)
    requires IsSquare(base, |g|) && ValidSite(g)
    ensures IsSquare(k, |g|)
  {
    var t := Table(MeanDosage(g));
    seq(|g|, i requires 0 <= i < |g| =>
      seq(|g|, j requires 0 <= j < |g| =>
        if j <= i then base[i][j] + t[Code(g[i])][Code(g[j])] else base[i][j]))
  }

  /** Reference for addGenotype: its return code and the next state. */
  function Step(s: State, g: seq<Dosage>): (r: (int, State))
    requires s.n == 0 || IsSquare(s.k, |g|)
    ensures IsSquare(r.1.k, |g|) && r.1.n > s.n
  {
    var base := Accumulator(s.k, s.n, |g|);
    if ValidSite(g) then (ACCEPTED, State(s.n + 2, Accumulate(base, g)))
    else (REJECTED, State(s.n + 1, base))
  }

  /**
   * IBSKinshipImpute::addGenotype as vcf2kinship.cpp runs it: re-zero when n == 0, count the site,
   * scan for validity while coding the calls and summing the non-missing
   * dosages, then sweep the lower triangle, then count the site again.
   */
  method AddGenotype(s: State, g: seq<Dosage>) returns (status: int, r: State)
    requires s.n == 0 || IsSquare(s.k, |g|)
    ensures (status, r) == Step(s, g)
    ensures IsSquare(r.k, |g|)
    ensures status == REJECTED <==> exists i :: 0 <= i < |g| && g[i] > 2
    ensures !ValidSite(g) ==> r.n == s.n + 1 && r.k == Accumulator(s.k, s.n, |g|)
    ensures ValidSite(g) ==> status == ACCEPTED && r.n == s.n + 2
    ensures ValidSite(g) ==> forall i, j :: 0 <= j <= i < |g| ==>
      r.k[i][j] == Accumulator(s.k, s.n, |g|)[i][j] + Table(MeanDosage(g))[Code(g[i])][Code(g[j])]
    ensures ValidSite(g) ==> forall x :: 0 <= x < |g| && !Missing(g[x]) ==>
      r.k[x][x] == Accumulator(s.k, s.n, |g|)[x][x] + 2.0
    ensures forall i, j :: 0 <= i < j < |g| ==> r.k[i][j] == Accumulator(s.k, s.n, |g|)[i][j]
  {
    var N := |g|;
    var k := Accumulator(s.k, s.n, N);
    var n := s.n + 1;
    var valid, geno, sum, nonMiss := ScanSite(g);
    if !valid {
      return REJECTED, State(n, k);
    }
    var p := 0.0;
    if nonMiss > 0 {
      p := sum as real / nonMiss as real;
    }
    assert p == MeanDosage(g);
    var k' := SweepTable(k, geno, Table(p));
    n := n + 1;
    ghost var target := Accumulate(k, g);
    forall a, b | 0 <= a < N && 0 <= b < N
      ensures k'[a][b] == target[a][b]
    {
      assert geno[a] == Code(g[a]) && geno[b] == Code(g[b]);
    }
    SameCells(k', target, N);
    return ACCEPTED, State(n, k');
  }

  /**
   * The validity scan of addGenotype: stops at the first dosage above 2;
   * otherwise codes every call and sums and counts the non-missing ones.
   */
  method ScanSite(g: seq<Dosage>) returns (valid: bool, geno: seq<nat>, sum: int, nonMiss: nat)
    ensures valid <==> ValidSite(g)
    ensures valid ==> |geno| == |g| && forall t :: 0 <= t < |g| ==> geno[t] == Code(g[t])
    ensures valid ==> sum == NonMissingSum(g) && nonMiss == NonMissingCount(g)
  {
    geno, sum, nonMiss := [], 0, 0;
    var i := 0;
    while i < |g|
      invariant 0 <= i <= |g|
      invariant ValidSite(g[..i])
      invariant |geno| == i
      invariant forall t :: 0 <= t < i ==> geno[t] == Code(g[t])
      invariant sum == NonMissingSum(g[..i]) && nonMiss == NonMissingCount(g[..i])
    {
      if g[i] > 2 {
        return false, geno, sum, nonMiss;
      }
      assert g[..i + 1][..i] == g[..i];
      if Missing(g[i]) {
        geno := geno + [3];
      } else {
        geno := geno + [g[i]];
        sum := sum + g[i];
        nonMiss := nonMiss + 1;
      }
      i := i + 1;
    }
    assert g[..|g|] == g;
    valid := true;
  }

  /** The lower-triangle sweep adding table[geno[i]][geno[j]] to k[i][j]. */
  method SweepTable(base: Matrix, geno: seq<nat>, table: Matrix) returns (k: Matrix)
    requires IsSquare(base, |geno|) && IsSquare(table, 4)
    requires forall t :: 0 <= t < |geno| ==> geno[t] < 4
    ensures IsSquare(k, |geno|)
    ensures forall a, b :: 0 <= a < |geno| && 0 <= b < |geno| ==>
      k[a][b] == if b <= a then base[a][b] + table[geno[a]][geno[b]] else base[a][b]
  {
    var N := |geno|;
    k := base;
    var i := 0;
    while i < N
      invariant 0 <= i <= N
      invariant IsSquare(k, N)
      invariant forall a, b {:trigger k[a][b]} :: 0 <= a < N && 0 <= b < N ==>
        k[a][b] == if LowerVisited(a, b, i, 0) then base[a][b] + table[geno[a]][geno[b]] else base[a][b]
    {
      var j := 0;
      while j <= i
        invariant 0 <= j <= i + 1
        invariant IsSquare(k, N)
        invariant forall a, b {:trigger k[a][b]} :: 0 <= a < N && 0 <= b < N ==>
          k[a][b] == if LowerVisited(a, b, i, j) then base[a][b] + table[geno[a]][geno[b]] else base[a][b]
      {
        k := k[i := k[i][j := k[i][j] + table[geno[i]][geno[j]]]];
        j := j + 1;
      }
      i := i + 1;
    }
  }

  /** Reference for calculate(): normalise by n and mirror. */
  function Calculated(s: State): State
    requires s.n == 0 || IsSquare(s.k, |s.k|)
  {
    State(s.n, NormalizeMirror(s.k, s.n))
  }

  /**
   * calculate(): nothing happens before the first site; afterwards every
   * lower cell is divided by n and the result is symmetric.
   */
  method Calculate(s: State) returns (r: State)
    requires s.n == 0 || IsSquare(s.k, |s.k|)
    ensures r == Calculated(s)
    ensures s.n == 0 ==> r == s
    ensures s.n > 0 ==> r.n == s.n && IsSquare(r.k, |s.k|) && Symmetric(r.k)
    ensures s.n > 0 ==> forall i, j :: 0 <= j <= i < |s.k| ==> r.k[i][j] == s.k[i][j] / (s.n as real)
  {
    var k := NormalizeMirrorLoop(s.k, s.n);
    r := State(s.n, k);
  }

  /** clear(): the counter drops to 0 and the accumulator is zeroed in place. */
  function Clear(s: State): (r: State)
    ensures r.n == 0
    ensures |r.k| == |s.k| && forall i :: 0 <= i < |s.k| ==> |r.k[i]| == |s.k[i]|
    ensures forall i, j :: 0 <= i < |s.k| && 0 <= j < |s.k[i]| ==> r.k[i][j] == 0.0
    ensures Calculated(r) == r
  {
    State(0, Cleared(s.k))
  }

  /** A run of sites fed one after another; return codes are dropped, as the caller does. */
  function Feed(s: State, sites: seq<seq<Dosage>>, N: nat): (r: State)
    requires s.n == 0 || IsSquare(s.k, N)
    requires Rectangular(sites, N)
    ensures r.n >= s.n
    ensures s.n > 0 || |sites| > 0 ==> r.n > 0 && IsSquare(r.k, N)
    decreases |sites|
  {
    if |sites| == 0 then s else Feed(Step(s, sites[0]).1, sites[1..], N)
  }

  /** Each site counts once, and each accepted site counts a second time. */
  lemma {:induction false} FeedCounter(s: State, sites: seq<seq<Dosage>>, N: nat)
    requires s.n == 0 || IsSquare(s.k, N)
    requires Rectangular(sites, N)
    ensures Feed(s, sites, N).n == s.n + |sites| + ValidSiteCount(sites)
    decreases |sites|
  {
    if |sites| > 0 {
      FeedCounter(Step(s, sites[0]).1, sites[1..], N);
    }
  }

  /**
   * An individual called at every site of a run gains 2 on its diagonal per
   * accepted site; a rejected site leaves the diagonal alone.
   */
  lemma {:induction false} FeedDiagonal(s: State, sites: seq<seq<Dosage>>, N: nat, x: nat)
    requires s.n == 0 || IsSquare(s.k, N)
    requires Rectangular(sites, N) && |sites| > 0 && x < N
    requires forall t :: 0 <= t < |sites| ==> !Missing(sites[t][x])
    ensures Feed(s, sites, N).k[x][x] == Accumulator(s.k, s.n, N)[x][x] + 2.0 * (ValidSiteCount(sites) as real)
    decreases |sites|
  {
    var g := sites[0];
    var s1 := Step(s, g).1;
    if ValidSite(g) {
      assert Code(g[x]) == g[x];
      assert s1.k[x][x] == Accumulator(s.k, s.n, N)[x][x] + 2.0;
    } else {
      assert s1.k == Accumulator(s.k, s.n, N);
    }
    if |sites| > 1 {
      FeedDiagonal(s1, sites[1..], N, x);
    }
  }

  /**
   * Self-kinship of an individual called at every site: with V accepted sites
   * among the run's |sites|, the diagonal holds 2V and n is |sites| + V.
   */
  lemma SelfKinshipWithRejections(sites: seq<seq<Dosage>>, N: nat, x: nat)
    requires Rectangular(sites, N) && |sites| > 0 && x < N
    requires forall t :: 0 <= t < |sites| ==> !Missing(sites[t][x])
    ensures Calculated(Feed(Fresh(), sites, N)).k[x][x]
         == (2 * ValidSiteCount(sites)) as real / (|sites| + ValidSiteCount(sites)) as real
  {
    var f := Feed(Fresh(), sites, N);
    FeedCounter(Fresh(), sites, N);
    FeedDiagonal(Fresh(), sites, N, x);
    assert f.k[x][x] == (2 * ValidSiteCount(sites)) as real;
  }

  /**
   * Because n advances twice per accepted site, the self-kinship of an
   * individual called at every site of an all-valid run comes out as 1, not 2.
   */
  lemma SelfKinshipIsOne(sites: seq<seq<Dosage>>, N: nat, x: nat)
    requires Rectangular(sites, N) && |sites| > 0 && x < N
    requires forall t :: 0 <= t < |sites| ==> ValidSite(sites[t]) && !Missing(sites[t][x])
    ensures Calculated(Feed(Fresh(), sites, N)).k[x][x] == 1.0
  {
    SelfKinshipWithRejections(sites, N, x);
    AllValidCount(sites);
    var v := (2 * |sites|) as real;
    assert (|sites| + ValidSiteCount(sites)) as real == v;
    SelfQuotient(v);
  }

  /** Real-division step kept as its own lemma so that SelfKinshipIsOne is stable across solver seeds. */
  lemma SelfQuotient(v: real)
    requires v > 0.0
    ensures v / v == 1.0
  {
  }

  lemma {:induction false} AllValidCount(sites: seq<seq<Dosage>>)
    requires forall t :: 0 <= t < |sites| ==> ValidSite(sites[t])
    ensures ValidSiteCount(sites) == |sites|
    decreases |sites|
  {
    if |sites| > 0 {
      AllValidCount(sites[1..]);
    }
  }

  /** After clear(), feeding a non-empty run gives what a fresh estimator gives. */
  lemma ClearThenFeedIsFresh(s: State, sites: seq<seq<Dosage>>, N: nat)
    requires Rectangular(sites, N) && |sites| > 0
    ensures Clear(s).n == 0
    ensures Feed(Clear(s), sites, N) == Feed(Fresh(), sites, N)
    ensures Calculated(Feed(Clear(s), sites, N)) == Calculated(Feed(Fresh(), sites, N))
  {
  }

  /**
   * p is the mean dosage, not an allele frequency, so the missing-against-0
   * entry 2(1 - p) can be negative: here p = 1.5 and the entry is -1.
   */
  lemma MissingScoreCanBeNegative()
    ensures MeanDosage([0, 2, 2, 2, -9]) == 1.5
    ensures Table(MeanDosage([0, 2, 2, 2, -9]))[0][3] == -1.0
  {
    var g: seq<Dosage> := [0, 2, 2, 2, -9];
    assert g[..4] == [0, 2, 2, 2];
    assert g[..4][..3] == [0, 2, 2];
    assert g[..4][..3][..2] == [0, 2];
    assert g[..4][..3][..2][..1] == [0];
    assert [0][..0] == [];
    assert NonMissingCount([0]) == 1 && NonMissingSum([0]) == 0;
    assert NonMissingCount([0, 2]) == 2 && NonMissingSum([0, 2]) == 2;
    assert NonMissingCount([0, 2, 2]) == 3 && NonMissingSum([0, 2, 2]) == 4;
    assert NonMissingCount([0, 2, 2, 2]) == 4 && NonMissingSum([0, 2, 2, 2]) == 6;
  }
}
