/**
 * The EmpiricalKinship interface: one estimator chosen up front, fed one
 * genotype vector per site, then calculate() and getKinship().
 */
module EmpiricalKinship {
  import opened Matrices
  import opened Dosages
  import Impute = IbsKinshipImpute
  import Ibs = IbsKinship
  import BN = BaldingNicolsKinship

  /** The three estimators; Balding-Nicols carries its site-scale function. */
  datatype Estimator =
    | IbsImpute(impute: Impute.State)
    | IbsSkipMissing(ibs: Ibs.State)
    | BaldingNicols(bn: BN.State, scale: real -> real)

  datatype Kind = IbsImputeKind | IbsSkipMissingKind | BaldingNicolsKind

  /** A newly constructed estimator of the given kind. */
  function Fresh(kind: Kind, scale: real -> real): Estimator {
    match kind
    case IbsImputeKind => IbsImpute(Impute.Fresh())
    case IbsSkipMissingKind => IbsSkipMissing(Ibs.Fresh())
    case BaldingNicolsKind => BaldingNicols(BN.Fresh(), scale)
  }

  function Counter(e: Estimator): nat {
    match e
    case IbsImpute(s) => s.n
    case IbsSkipMissing(s) => s.n
    case BaldingNicols(s, _) => s.n
  }

  /** getKinship(): the accumulator. */
  function GetKinship(e: Estimator): Matrix {
    match e
    case IbsImpute(s) => s.k
    case IbsSkipMissing(s) => s.k
    case BaldingNicols(s, _) => s.k
  }

  /** addGenotype can be called with a site of N calls. */
  predicate Accepts(e: Estimator, N: nat) {
    match e
    case IbsImpute(s) => s.n == 0 || IsSquare(s.k, N)
    case IbsSkipMissing(s) => Ibs.Shaped(s, N)
    case BaldingNicols(s, _) => s.n == 0 || IsSquare(s.k, N)
  }

  /** calculate() can be called. */
  predicate Calculable(e: Estimator) {
    match e
    case IbsImpute(s) => s.n == 0 || IsSquare(s.k, |s.k|)
    case IbsSkipMissing(s) => s.n == 0 || (IsSquare(s.k, |s.k|) && IsSquare(s.count, |s.k|))
    case BaldingNicols(s, _) => s.n == 0 || IsSquare(s.k, |s.k|)
  }

  /** addGenotype through the interface: only the IBS estimator never rejects. */
  function AddGenotype(e: Estimator, g: seq<Dosage>): (r: (int, Estimator))
    requires Accepts(e, |g|)
    ensures r.0 == ACCEPTED || r.0 == REJECTED
    ensures e.IbsSkipMissing? ==> r.0 == ACCEPTED
    ensures r.0 == REJECTED <==> !e.IbsSkipMissing? && !ValidSite(g)
    ensures Accepts(r.1, |g|)
  {
    match e
    case IbsImpute(s) =>
      var (st, s') := Impute.Step(s, g); (st, IbsImpute(s'))
    case IbsSkipMissing(s) =>
      var (st, s') := Ibs.Step(s, g); (st, IbsSkipMissing(s'))
    case BaldingNicols(s, scale) =>
      var (st, s') := BN.Step(s, g, scale); (st, BaldingNicols(s', scale))
  }

  /** calculate() through the interface: a no-op before the first counted site. */
  function Calculate(e: Estimator): (r: Estimator)
    requires Calculable(e)
    ensures Counter(r) == Counter(e)
    ensures Counter(e) == 0 ==> GetKinship(r) == GetKinship(e)
  {
    match e
    case IbsImpute(s) => IbsImpute(Impute.Calculated(s))
    case IbsSkipMissing(s) => IbsSkipMissing(Ibs.Calculated(s))
    case BaldingNicols(s, scale) => BaldingNicols(BN.Calculated(s), scale)
  }

  /** The caller's loop: every site of the run goes through addGenotype. */
  function Feed(e: Estimator, sites: seq<seq<Dosage>>, N: nat): (r: Estimator)
    requires Accepts(e, N) && Rectangular(sites, N)
    ensures Accepts(r, N)
    decreases |sites|
  {
    if |sites| == 0 then e else Feed(AddGenotype(e, sites[0]).1, sites[1..], N)
  }

  /** Feeding through the interface is feeding the chosen estimator. */
  lemma {:induction false} FeedDispatches(e: Estimator, sites: seq<seq<Dosage>>, N: nat)
    requires Accepts(e, N) && Rectangular(sites, N)
    ensures e.IbsImpute? ==> Feed(e, sites, N) == IbsImpute(Impute.Feed(e.impute, sites, N))
    ensures e.IbsSkipMissing? ==> Feed(e, sites, N) == IbsSkipMissing(Ibs.Feed(e.ibs, sites, N))
    ensures e.BaldingNicols? ==> Feed(e, sites, N) == BaldingNicols(BN.Feed(e.bn, sites, N, e.scale), e.scale)
    decreases |sites|
  {
    if |sites| > 0 {
      FeedDispatches(AddGenotype(e, sites[0]).1, sites[1..], N);
    }
  }

  /**
   * Whichever estimator is chosen, feeding a fresh one a non-empty run and
   * calling calculate() yields a symmetric N x N kinship matrix.
   */
  lemma KinshipIsSymmetric(kind: Kind, scale: real -> real, sites: seq<seq<Dosage>>, N: nat)
    requires Rectangular(sites, N) && |sites| > 0
    ensures Calculable(Feed(Fresh(kind, scale), sites, N))
    ensures IsSquare(GetKinship(Calculate(Feed(Fresh(kind, scale), sites, N))), N)
    ensures Symmetric(GetKinship(Calculate(Feed(Fresh(kind, scale), sites, N))))
  {
    var e := Fresh(kind, scale);
    FeedDispatches(e, sites, N);
    match kind
    case IbsImputeKind =>
    case IbsSkipMissingKind =>
      Ibs.FeedKeepsInv(Ibs.Fresh(), sites, N);
      Ibs.CalculateSymmetric(Ibs.Feed(Ibs.Fresh(), sites, N), N);
    case BaldingNicolsKind =>
  }
}
