/**
 * Genotype dosages as the estimators receive them: one integer per individual
 * and site, 0, 1 or 2 alternative alleles, any negative value a missing call.
 */
module Dosages {

  type Dosage = int

  /** addGenotype's return codes. */
  const ACCEPTED: int := 0
  const REJECTED: int := -1

  predicate Missing(d: Dosage) {
    d < 0
  }

  /** No dosage exceeds 2: the validity check both rejecting estimators perform. */
  predicate ValidSite(g: seq<Dosage>) {
    forall i :: 0 <= i < |g| ==> g[i] <= 2
  }

  /** Every site of a run has one dosage per individual. */
  predicate Rectangular(sites: seq<seq<Dosage>>, N: nat) {
    forall t :: 0 <= t < |sites| ==> |sites[t]| == N
  }

  /** Sum of the non-missing dosages of a site. */
  function NonMissingSum(g: seq<Dosage>): int {
    if |g| == 0 then 0
    else NonMissingSum(g[..|g| - 1]) + (if Missing(g[|g| - 1]) then 0 else g[|g| - 1])
  }

  /** Number of non-missing dosages of a site. */
  function NonMissingCount(g: seq<Dosage>): nat {
    if |g| == 0 then 0
    else NonMissingCount(g[..|g| - 1]) + (if Missing(g[|g| - 1]) then 0 else 1)
  }

  /** sum / nonMiss, or 0 when every call is missing: the mean dosage, in [0, 2]. */
  function MeanDosage(g: seq<Dosage>): real {
    if NonMissingCount(g) > 0 then NonMissingSum(g) as real / NonMissingCount(g) as real else 0.0
  }

  lemma {:induction false} NonMissingSumBounds(g: seq<Dosage>)
    requires ValidSite(g)
    ensures 0 <= NonMissingSum(g) <= 2 * NonMissingCount(g)
  {
    if |g| > 0 {
      NonMissingSumBounds(g[..|g| - 1]);
    }
  }

  /** The mean dosage of a valid site lies in [0, 2]; it is twice an allele frequency. */
  lemma MeanDosageRange(g: seq<Dosage>)
    requires ValidSite(g)
    ensures 0.0 <= MeanDosage(g) <= 2.0
    ensures NonMissingCount(g) == 0 ==> MeanDosage(g) == 0.0
  {
    NonMissingSumBounds(g);
    if NonMissingCount(g) > 0 {
      QuotientBounds(NonMissingSum(g) as real, NonMissingCount(g) as real);
    }
  }

  /** Real-division step kept as its own lemma so that the callers' proofs are stable across solver seeds. */
  lemma QuotientBounds(s: real, c: real)
    requires 0.0 < c && 0.0 <= s <= 2.0 * c
    ensures 0.0 <= s / c <= 2.0
  {
    assert (s / c) * c == s;
  }

  /** A site whose every call is the same non-missing v has mean dosage v. */
  lemma {:induction false} ConstantSiteSum(g: seq<Dosage>, v: Dosage)
    requires 0 <= v
    requires forall i :: 0 <= i < |g| ==> g[i] == v
    ensures NonMissingCount(g) == |g|
    ensures NonMissingSum(g) == v * |g|
  {
    if |g| > 0 {
      ConstantSiteSum(g[..|g| - 1], v);
    }
  }

  /** A site whose every call is missing has no non-missing dosage. */
  lemma {:induction false} AllMissingCount(g: seq<Dosage>)
    requires forall i :: 0 <= i < |g| ==> Missing(g[i])
    ensures NonMissingCount(g) == 0 && NonMissingSum(g) == 0
  {
    if |g| > 0 {
      AllMissingCount(g[..|g| - 1]);
    }
  }

  /** Number of sites of a run that pass the validity check. */
  function ValidSiteCount(sites: seq<seq<Dosage>>): (c: nat)
    ensures c <= |sites|
  {
    if |sites| == 0 then 0
    else (if ValidSite(sites[0]) then 1 else 0) + ValidSiteCount(sites[1..])
  }

  /** Number of sites of a run at which individual x has a call. */
  function NonMissingAt(sites: seq<seq<Dosage>>, x: nat): (c: nat)
    requires forall t :: 0 <= t < |sites| ==> x < |sites[t]|
    ensures c <= |sites|
  {
    if |sites| == 0 then 0
    else (if Missing(sites[0][x]) then 0 else 1) + NonMissingAt(sites[1..], x)
  }
}
