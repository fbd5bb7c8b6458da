/**
 * BaldingNicolsKinship: each call is recoded (missing as -9), centred on the
 * site's mean dosage, and every lower pair with at least one centred value
 * at or above -5 gains the product of the two centred values times the
 * site's scale. The scale is sqrt(1 / ((1 - mean/2) * mean)) in vcf2kinship.cpp;
 * here it is the caller-supplied function `scale`, applied only when the
 * site has a call, and 0 otherwise.
 *
 * State: the site counter n and the accumulator k.
 */
module BaldingNicolsKinship {
  import opened Matrices
  import opened Dosages

  datatype State = State(n: nat, k: Matrix)

  /** The code a missing call is replaced with before centring. */
  const MISSING_CODE: real := -9.0

  /** A centred value at or above this floor belongs to a present call. */
  const PRESENT_FLOOR: real := -5.0

  function Fresh(): (r: State)
    ensures r.n == 0 && |r.k| == 0
    ensures Calculated(r) == r
  {
    State(0, [])
  }

  function Recode(d: Dosage): real {
    if Missing(d) then MISSING_CODE else d as real
  }

  /** The recoded call minus the site mean. */
  function Centred(d: Dosage, mean: real): real {
    Recode(d) - mean
  }

  /** The pair guard: either centred value reaches the floor. */
  predicate Included(ci: real, cj: real) {
    ci >= PRESENT_FLOOR || cj >= PRESENT_FLOOR
  }

  /** A lower cell after the site: it gains ci * cj * sc when the pair is included. */
  function Updated(cell: real, ci: real, cj: real, sc: real): real {
    if Included(ci, cj) then cell + (ci * cj) * sc else cell
  }

  /** The site's scale: scale(mean) when some call is present, else 0. */
  function SiteScale(g: seq<Dosage>, scale: real -> real): real {
    if NonMissingCount(g) > 0 then scale(MeanDosage(g)) else 0.0
  }

  /** Reference: included lower cells gain centred_i * centred_j * scale. */
  function Accumulate(base: Matrix, g: seq<Dosage>, scale: real -> real): (k: Matrix)
    requires IsSquare(base, |g|)
    ensures IsSquare(k, |g|)
  {
    var mean, sc := MeanDosage(g), SiteScale(g, scale);
    seq(|g|, i requires 0 <= i < |g| =>
      seq(|g|, j requires 0 <= j < |g| =>
        if j <= i then Updated(base[i][j], Centred(g[i], mean), Centred(g[j], mean), sc) else base[i][j]))
  }

  /** Reference for addGenotype: a rejected site does not move n. */
  function Step(s: State, g: seq<Dosage>, scale: real -> real): (r: (int, State))
    requires s.n == 0 || IsSquare(s.k, |g|)
    ensures IsSquare(r.1.k, |g|)
  {
    var base := Accumulator(s.k, s.n, |g|);
    if ValidSite(g) then (ACCEPTED, State(s.n + 1, Accumulate(base, g, scale)))
    else (REJECTED, State(s.n, base))
  }

  /**
   * BaldingNicolsKinship::addGenotype as vcf2kinship.cpp runs it: re-zero when n == 0, scan and recode,
   * compute mean and scale, centre, sweep the lower triangle, count the site.
   */
  method AddGenotype(s: State, g: seq<Dosage>, scale: real -> real) returns (status: int, r: State)
    requires s.n == 0 || IsSquare(s.k, |g|)
    ensures (status, r) == Step(s, g, scale)
    ensures IsSquare(r.k, |g|)
    ensures status == REJECTED <==> exists i :: 0 <= i < |g| && g[i] > 2
    ensures !ValidSite(g) ==> r.n == s.n && r.k == Accumulator(s.k, s.n, |g|)
    ensures ValidSite(g) ==> status == ACCEPTED && r.n == s.n + 1
    ensures ValidSite(g) ==> forall i, j :: 0 <= j <= i < |g| ==>
      r.k[i][j] == Updated(Accumulator(s.k, s.n, |g|)[i][j],
                           Centred(g[i], MeanDosage(g)), Centred(g[j], MeanDosage(g)), SiteScale(g, scale))
    ensures forall i, j :: 0 <= i < j < |g| ==> r.k[i][j] == Accumulator(s.k, s.n, |g|)[i][j]
  {
    var N := |g|;
    var k := Accumulator(s.k, s.n, N);
    var valid, geno, sum, nonMiss := ScanSite(g);
    if !valid {
      return REJECTED, State(s.n, k);
    }
    var mean, sc := 0.0, 0.0;
    if nonMiss > 0 {
      mean := sum as real / nonMiss as real;
      sc := scale(mean);
    }
    assert mean == MeanDosage(g) && sc == SiteScale(g, scale);
    var centred := Centre(geno, mean);
    var k' := SweepProducts(k, centred, sc);
    ghost var target := Accumulate(k, g, scale);
    forall a, b | 0 <= a < N && 0 <= b < N
      ensures k'[a][b] == target[a][b]
    {
      assert centred[a] == Centred(g[a], mean) && centred[b] == Centred(g[b], mean);
    }
    SameCells(k', target, N);
    assert Step(s, g, scale) == (ACCEPTED, State(s.n + 1, target));
    return ACCEPTED, State(s.n + 1, k');
  }

  /**
   * The validity scan: stops at the first dosage above 2; otherwise recodes
   * every call and sums and counts the present ones.
   */
  method ScanSite(g: seq<Dosage>) returns (valid: bool, geno: seq<real>, sum: int, nonMiss: nat)
    ensures valid <==> ValidSite(g)
    ensures valid ==> |geno| == |g| && forall t :: 0 <= t < |g| ==> geno[t] == Recode(g[t])
    ensures valid ==> sum == NonMissingSum(g) && nonMiss == NonMissingCount(g)
  {
    geno, sum, nonMiss := [], 0, 0;
    var i := 0;
    while i < |g|
      invariant 0 <= i <= |g|
      invariant ValidSite(g[..i])
      invariant |geno| == i
      invariant forall t :: 0 <= t < i ==> geno[t] == Recode(g[t])
      invariant sum == NonMissingSum(g[..i]) && nonMiss == NonMissingCount(g[..i])
    {
      if g[i] > 2 {
        return false, geno, sum, nonMiss;
      }
      assert g[..i + 1][..i] == g[..i];
      if Missing(g[i]) {
        geno := geno + [MISSING_CODE];
      } else {
        geno := geno + [g[i] as real];
        sum := sum + g[i];
        nonMiss := nonMiss + 1;
      }
      i := i + 1;
    }
    assert g[..|g|] == g;
    valid := true;
  }

  /** The centring loop: subtract the mean from every recoded call. */
  method Centre(geno: seq<real>, mean: real) returns (c: seq<real>)
    ensures |c| == |geno|
    ensures forall t :: 0 <= t < |geno| ==> c[t] == geno[t] - mean
  {
    c := geno;
    var i := 0;
    while i < |c|
      invariant 0 <= i <= |c| == |geno|
      invariant forall t :: 0 <= t < |geno| ==> c[t] == if t < i then geno[t] - mean else geno[t]
    {
      c := c[i := c[i] - mean];
      i := i + 1;
    }
  }

  /** The lower-triangle sweep over the centred calls. */
  method SweepProducts(base: Matrix, c: seq<real>, sc: real) returns (k: Matrix)
    requires IsSquare(base, |c|)
    ensures IsSquare(k, |c|)
    ensures forall a, b :: 0 <= a < |c| && 0 <= b < |c| ==>
      k[a][b] == if b <= a then Updated(base[a][b], c[a], c[b], sc) else base[a][b]
  {
    var N := |c|;
    k := base;
    var i := 0;
    while i < N
      invariant 0 <= i <= N
      invariant IsSquare(k, N)
      invariant forall a, b {:trigger k[a][b]} :: 0 <= a < N && 0 <= b < N ==>
        k[a][b] == if LowerVisited(a, b, i, 0) then Updated(base[a][b], c[a], c[b], sc) else base[a][b]
    {
      var j := 0;
      while j <= i
        invariant 0 <= j <= i + 1
        invariant IsSquare(k, N)
        invariant forall a, b {:trigger k[a][b]} :: 0 <= a < N && 0 <= b < N ==>
          k[a][b] == if LowerVisited(a, b, i, j) then Updated(base[a][b], c[a], c[b], sc) else base[a][b]
      {
        if c[i] >= PRESENT_FLOOR || c[j] >= PRESENT_FLOOR {
          k := k[i := k[i][j := k[i][j] + (c[i] * c[j]) * sc]];
        }
        j := j + 1;
      }
      i := i + 1;
    }
  }

  /** Reference for calculate(): normalise by n and mirror. */
  function Calculated(s: State): State
    requires s.n == 0 || IsSquare(s.k, |s.k|)
  {
    State(s.n, NormalizeMirror(s.k, s.n))
  }

  /**
   * calculate(): nothing happens before the first accepted site; afterwards
   * every lower cell is divided by n and the result is symmetric.
   */
  method Calculate(s: State) returns (r: State)
    requires s.n == 0 || IsSquare(s.k, |s.k|)
    ensures r == Calculated(s)
    ensures s.n == 0 ==> r == s
    ensures s.n > 0 ==> r.n == s.n && IsSquare(r.k, |s.k|) && Symmetric(r.k)
    ensures s.n > 0 ==> forall i, j :: 0 <= j <= i < |s.k| ==> r.k[i][j] == s.k[i][j] / (s.n as real)
  {
    var k := NormalizeMirrorLoop(s.k, s.n);
    r := State(s.n, k);
  }

  /** clear(): the counter drops to 0 and the accumulator is zeroed in place. */
  function Clear(s: State): (r: State)
    ensures r.n == 0
    ensures |r.k| == |s.k| && forall i :: 0 <= i < |s.k| ==> |r.k[i]| == |s.k[i]|
    ensures forall i, j :: 0 <= i < |s.k| && 0 <= j < |s.k[i]| ==> r.k[i][j] == 0.0
    ensures Calculated(r) == r
  {
    State(0, Cleared(s.k))
  }

  /** A run of sites fed one after another. */
  function Feed(s: State, sites: seq<seq<Dosage>>, N: nat, scale: real -> real): (r: State)
    requires s.n == 0 || IsSquare(s.k, N)
    requires Rectangular(sites, N)
    ensures r.n >= s.n
    ensures s.n > 0 || |sites| > 0 ==> IsSquare(r.k, N)
    ensures |sites| > 0 && r.n == 0 ==> r.k == Zero(N)
    decreases |sites|
  {
    if |sites| == 0 then s else Feed(Step(s, sites[0], scale).1, sites[1..], N, scale)
  }

  /**
   * For a valid site the guard is exactly "the call is present": a present
   * call centres into [-2, 2], a missing one into [-11, -9].
   */
  lemma GuardMeansPresent(g: seq<Dosage>, i: nat)
    requires ValidSite(g) && i < |g|
    ensures Centred(g[i], MeanDosage(g)) >= PRESENT_FLOOR <==> !Missing(g[i])
  {
    MeanDosageRange(g);
  }

  /** A valid site in which every call is missing adds nothing to k. */
  lemma AllMissingAddsNothing(s: State, g: seq<Dosage>, scale: real -> real)
    requires s.n == 0 || IsSquare(s.k, |g|)
    requires forall i :: 0 <= i < |g| ==> Missing(g[i])
    ensures Step(s, g, scale).0 == ACCEPTED
    ensures Step(s, g, scale).1 == State(s.n + 1, Accumulator(s.k, s.n, |g|))
  {
    var base := Accumulator(s.k, s.n, |g|);
    AllMissingCount(g);
    forall i | 0 <= i < |g|
      ensures Centred(g[i], MeanDosage(g)) < PRESENT_FLOOR
    {
      GuardMeansPresent(g, i);
    }
    SameCells(Accumulate(base, g, scale), base, |g|);
  }

  /** A site whose every call is the same present dosage adds nothing to k. */
  lemma ConstantSiteAddsNothing(s: State, g: seq<Dosage>, v: Dosage, scale: real -> real)
    requires s.n == 0 || IsSquare(s.k, |g|)
    requires 0 <= v <= 2
    requires forall i :: 0 <= i < |g| ==> g[i] == v
    ensures Step(s, g, scale).0 == ACCEPTED
    ensures Step(s, g, scale).1 == State(s.n + 1, Accumulator(s.k, s.n, |g|))
  {
    var base := Accumulator(s.k, s.n, |g|);
    ConstantSiteSum(g, v);
    if |g| > 0 {
      assert MeanDosage(g) == (v * |g|) as real / |g| as real;
      assert MeanDosage(g) == v as real;
    }
    SameCells(Accumulate(base, g, scale), base, |g|);
  }

  /** Each accepted site counts once; rejected sites do not count. */
  lemma {:induction false} FeedCounter(s: State, sites: seq<seq<Dosage>>, N: nat, scale: real -> real)
    requires s.n == 0 || IsSquare(s.k, N)
    requires Rectangular(sites, N)
    ensures Feed(s, sites, N, scale).n == s.n + ValidSiteCount(sites)
    decreases |sites|
  {
    if |sites| > 0 {
      FeedCounter(Step(s, sites[0], scale).1, sites[1..], N, scale);
    }
  }

  /** After clear(), feeding a non-empty run gives what a fresh estimator gives. */
  lemma ClearThenFeedIsFresh(s: State, sites: seq<seq<Dosage>>, N: nat, scale: real -> real)
    requires Rectangular(sites, N) && |sites| > 0
    ensures Clear(s).n == 0
    ensures Feed(Clear(s), sites, N, scale) == Feed(Fresh(), sites, N, scale)
    ensures Calculated(Feed(Clear(s), sites, N, scale)) == Calculated(Feed(Fresh(), sites, N, scale))
  {
  }
}
