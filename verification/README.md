# Empirical kinship estimators of vcf2kinship, modelled in Dafny

`vcf2kinship` turns a stream of genotype vectors (one dosage per individual
and site: 0, 1 or 2 alternative alleles, a negative value for a missing call)
into a pairwise kinship matrix. Its core is three streaming estimators behind
the `EmpiricalKinship` interface: `IBSKinshipImpute`, `IBSKinship` and
`BaldingNicolsKinship`. Each one keeps a site counter `n` and an accumulator
`k`. `IBSKinship` also keeps a per-pair `count` matrix. `addGenotype` folds
one site into the lower triangle of `k`. `calculate` normalises the lower
triangle and mirrors it into the upper one. `clear` resets `n`.

## Modules

- `Matrices` (`matrices.dfy`): square real matrices, which stand in for
  SimpleMatrix. It also holds the lower-triangle sweep predicates and the
  normalise-and-mirror pass that two of the estimators share.
- `Dosages` (`dosages.dfy`): dosages, site validity (no value above 2), the
  non-missing sum and count, and the mean dosage.
- `IbsKinshipImpute`, `IbsKinship`, `BaldingNicolsKinship`: one module per
  estimator class. Each has a `State` datatype (the class's fields). Each has
  the class's methods as Dafny methods running the class's own loops. Each
  also has a reference definition (`Step`, `Calculated`), and every method is
  proved equal to it. Run-level lemmas are stated over `Feed`, which feeds a
  whole run of sites through `Step`.
- `EmpiricalKinship`: the common interface as a tagged union of the three
  estimators.

An estimator is an immutable state value. Each operation takes a state and
returns the next one.

Behaviour reproduced as the code has it:

- `IBSKinshipImpute` adds 1 to `n` before its validity check and 1 again after
  the sweep. An accepted site therefore counts twice and a rejected site once.
  An individual called at every site of an all-valid run ends with
  self-kinship 1, not 2 (`SelfKinshipIsOne`).
- Its `p` is the mean dosage, in [0, 2]. It is not an allele frequency, so the
  table entry `2(1 - p)` can be negative (`MissingScoreCanBeNegative`).
- `IBSKinship` and Balding–Nicols count a pair when either call is present.
  In `IBSKinship` the score is then taken from the raw sentinel. The worked
  example shows a pair score of 2 - |-9 - 0| = -7.
- `BaldingNicolsKinship` does not move `n` on a rejected site.
- `IBSKinship::clear` leaves `count` stale. The next `addGenotype` re-zeroes
  it, because `n == 0`.
- Balding–Nicols rejects a site, and `IBSKinshipImpute` counts it as rejected,
  as soon as it finds a dosage above 2. `IBSKinship` never rejects a site.

The class doc comment (lines 33-41) writes the missing/missing entry as
2(p^2 + q^2), which reads `p` as an allele frequency. The code computes
`2 - 4p(1 - p)` from the mean dosage. The two forms agree algebraically
(`Table`), but they do not give the same reading of `p`.

## Model

| member | source | states |
|---|---|---|
| `Dosages.MeanDosageRange` | vcfUtils/vcf2kinship.cpp:68-71 | the mean dosage `sum / nonMiss` of a site with no value above 2 lies in [0, 2] and is 0 when every call is missing |
| `Matrices.NormalizeMirrorLoop` | vcfUtils/vcf2kinship.cpp:88-93 | the in-place loop that divides `k[i][j]` by `n` and copies it to `k[j][i]` yields a symmetric matrix whose lower cells are the old ones divided by `n`; with `n == 0` it returns its input |
| `IbsKinshipImpute.Table` | vcfUtils/vcf2kinship.cpp:72-77 | the 4 x 4 contribution table is symmetric, scores identical present calls 2, and its missing/missing entry equals the 2(p^2+q^2) of the doc comment |
| `IbsKinshipImpute.ScanSite` | vcfUtils/vcf2kinship.cpp:55-67 | the scan reports a valid site exactly when no dosage exceeds 2; for a valid site it codes a missing call as 3 and the others as themselves, and returns the non-missing sum and count |
| `IbsKinshipImpute.SweepTable` | vcfUtils/vcf2kinship.cpp:78-82 | the nested sweep adds `table[geno[i]][geno[j]]` to every cell with `j <= i` and leaves every cell with `j > i` unchanged |
| `IbsKinshipImpute.AddGenotype` | vcfUtils/vcf2kinship.cpp:46-85 | returns -1 exactly when some dosage exceeds 2, with the accumulator (re-zeroed if `n` was 0) untouched and `n` grown by 1; an accepted site grows `n` by 2, adds the table entry of the two calls to every lower cell, adds exactly 2 to the diagonal of every present individual, and leaves the upper triangle alone |
| `IbsKinshipImpute.Calculate` | vcfUtils/vcf2kinship.cpp:86-94 | with `n == 0` nothing changes; otherwise `n` is kept, the matrix is symmetric and each lower cell is the accumulated sum divided by `n` |
| `IbsKinshipImpute.FeedCounter` | vcfUtils/vcf2kinship.cpp:51-83 | after a run, `n` has grown by the number of sites plus the number of accepted sites |
| `IbsKinshipImpute.Fresh` | vcfUtils/vcf2kinship.cpp:44 | a new estimator has `n == 0` and an empty accumulator, and `calculate` leaves it unchanged |
| `IbsKinshipImpute.Clear` | vcfUtils/vcf2kinship.cpp:98-101 | `clear` sets `n` to 0 and zeroes every entry of `k` while keeping its shape; `calculate` right after it changes nothing |
| `IbsKinshipImpute.FeedDiagonal` | vcfUtils/vcf2kinship.cpp:46-83 | over a run in which individual x is always called, x's diagonal gains exactly 2 per accepted site; a rejected site leaves it alone |
| `IbsKinshipImpute.SelfKinshipWithRejections` | vcfUtils/vcf2kinship.cpp:46-92 | for such an individual, with V accepted sites among the run's sites, self-kinship after `calculate` is 2V / (number of sites + V): rejected sites still enlarge the denominator |
| `IbsKinshipImpute.SelfKinshipIsOne` | vcfUtils/vcf2kinship.cpp:83-92 | because `n` advances twice per accepted site, such an individual's self-kinship after `calculate` is 1 |
| `IbsKinshipImpute.ClearThenFeedIsFresh` | vcfUtils/vcf2kinship.cpp:98-101 | after `clear`, `n` is 0 and feeding any non-empty run gives the same state, before and after `calculate`, as a fresh estimator |
| `IbsKinshipImpute.MissingScoreCanBeNegative` | vcfUtils/vcf2kinship.cpp:69-75 | for the site [0, 2, 2, 2, missing], `p` is 1.5 and the table entry for a 0 against a missing call is -1 |
| `IbsKinship.AddGenotype` | vcfUtils/vcf2kinship.cpp:121-138 | always returns 0 and grows `n` by 1; a lower cell whose pair has at least one call gains `2 - abs(g_i - g_j)` in `k` and 1 in `count`; every other cell of both matrices is unchanged |
| `IbsKinship.SweepPairs` | vcfUtils/vcf2kinship.cpp:129-136 | the nested sweep adds score and 1 to the lower cells whose pair has a call, and leaves all other cells of both matrices unchanged |
| `IbsKinship.Calculate` | vcfUtils/vcf2kinship.cpp:139-149 | with `n == 0` nothing changes; otherwise a lower cell with positive count is divided by that count and copied to its upper twin, and a cell with count 0 keeps both twins as they were |
| `IbsKinship.StepKeepsInv` | vcfUtils/vcf2kinship.cpp:122-136 | a state reached from a fresh or cleared estimator by `addGenotype` calls alone (before `calculate`) satisfies `Inv`: zero upper triangles, non-negative counts, score 0 in every never-counted lower cell, and diagonal score twice the diagonal count |
| `IbsKinship.FeedKeepsInv` | vcfUtils/vcf2kinship.cpp:121-138 | the invariant holds after any non-empty run |
| `IbsKinship.CalculateSymmetric` | vcfUtils/vcf2kinship.cpp:139-149 | after `calculate` on a state satisfying `Inv` with `n > 0` the matrix is symmetric, a diagonal entry is 2 if its count is positive and 0 otherwise, and both twins of a never-counted pair are 0 |
| `IbsKinship.FeedDiagonalCount` | vcfUtils/vcf2kinship.cpp:129-135 | individual x's diagonal count grows by one for each site at which x has a call |
| `IbsKinship.SelfKinship` | vcfUtils/vcf2kinship.cpp:131-148 | after a non-empty run and `calculate`, self-kinship is 2 for an individual called at one or more sites and 0 for one never called |
| `IbsKinship.FeedCounter` | vcfUtils/vcf2kinship.cpp:128 | after a run, `n` has grown by the number of sites |
| `IbsKinship.Fresh` | vcfUtils/vcf2kinship.cpp:119 | a new estimator has `n == 0` and empty `k` and `count`, and `calculate` leaves it unchanged |
| `IbsKinship.Clear` | vcfUtils/vcf2kinship.cpp:153-156 | `clear` sets `n` to 0 and zeroes every entry of `k` while keeping its shape; `count` is left stale, exactly as it was; `calculate` right after it changes nothing |
| `IbsKinship.ClearThenFeedIsFresh` | vcfUtils/vcf2kinship.cpp:153-156 | `clear` zeroes `n` but keeps the stale `count`; feeding a non-empty run afterwards still gives what a fresh estimator gives |
| `IbsKinship.WorkedExample` | vcfUtils/vcf2kinship.cpp:129-148 | three individuals with sites [0,1,2] and [0,0,missing] yield the matrix [[2, 1.5, -3.5], [1.5, 2, -3], [-3.5, -3, 2]] |
| `BaldingNicolsKinship.ScanSite` | vcfUtils/vcf2kinship.cpp:180-193 | the scan reports a valid site exactly when no dosage exceeds 2; for a valid site it recodes a missing call as -9 and returns the non-missing sum and count |
| `BaldingNicolsKinship.Centre` | vcfUtils/vcf2kinship.cpp:203-205 | every recoded call has the mean subtracted |
| `BaldingNicolsKinship.SweepProducts` | vcfUtils/vcf2kinship.cpp:206-216 | each lower cell whose pair has a centred value of at least -5 gains the product of the centred values times the scale; all other cells are unchanged |
| `BaldingNicolsKinship.AddGenotype` | vcfUtils/vcf2kinship.cpp:170-221 | returns -1 exactly when some dosage exceeds 2, leaving `n` and the (re-zeroed if `n` was 0) accumulator unchanged; an accepted site grows `n` by 1, updates every lower cell by the guarded product and leaves the upper triangle alone |
| `BaldingNicolsKinship.GuardMeansPresent` | vcfUtils/vcf2kinship.cpp:210-212 | for a valid site a centred value reaches -5 exactly when the call is present, so the pair guard means "at least one call present" |
| `BaldingNicolsKinship.AllMissingAddsNothing` | vcfUtils/vcf2kinship.cpp:194-216 | a site with every call missing is accepted, grows `n` by 1 and leaves `k` unchanged |
| `BaldingNicolsKinship.ConstantSiteAddsNothing` | vcfUtils/vcf2kinship.cpp:197-216 | a site whose calls are all the same present dosage is accepted and leaves `k` unchanged, whatever the scale |
| `BaldingNicolsKinship.Calculate` | vcfUtils/vcf2kinship.cpp:222-230 | with `n == 0` nothing changes; otherwise `n` is kept, the matrix is symmetric and each lower cell is the accumulated sum divided by `n` |
| `BaldingNicolsKinship.FeedCounter` | vcfUtils/vcf2kinship.cpp:182-219 | after a run, `n` has grown by the number of accepted sites |
| `BaldingNicolsKinship.Fresh` | vcfUtils/vcf2kinship.cpp:168 | a new estimator has `n == 0` and an empty accumulator, and `calculate` leaves it unchanged |
| `BaldingNicolsKinship.Clear` | vcfUtils/vcf2kinship.cpp:234-237 | `clear` sets `n` to 0 and zeroes every entry of `k` while keeping its shape; `calculate` right after it changes nothing |
| `BaldingNicolsKinship.ClearThenFeedIsFresh` | vcfUtils/vcf2kinship.cpp:234-237 | after `clear`, feeding a non-empty run gives the same state, before and after `calculate`, as a fresh estimator |
| `EmpiricalKinship.AddGenotype` | vcfUtils/vcf2kinship.cpp:25-31 | through the interface, only the IBS estimator never rejects; the others return -1 exactly for a site with a dosage above 2 |
| `EmpiricalKinship.Calculate` | vcfUtils/vcf2kinship.cpp:28 | `calculate` keeps the counter and is a no-op on the matrix while the counter is 0 |
| `EmpiricalKinship.FeedDispatches` | vcfUtils/vcf2kinship.cpp:27 | feeding through the interface is feeding the chosen estimator |
| `EmpiricalKinship.KinshipIsSymmetric` | vcfUtils/vcf2kinship.cpp:25-31 | for each of the three estimators, a fresh instance fed a non-empty run yields a symmetric N x N matrix after `calculate` |

## Left out

- `main` (argument parsing, VCF reading, sample selection, per-site filters) is not part of this model: it is I/O plumbing over readers not modelled here. `main` only ever builds `IBSKinship` or `BaldingNicolsKinship`. Its autosome test `chrom < 1 && chrom > 22` can never be true.
- `output` (writing the `.kinship` and `.pca` files, and the Eigen eigendecomposition) is not modelled: it is file I/O plus a third-party floating-point solver.
- Pedigree kinship is not modelled: `Kinship::constructFromPedigree` lives in a file that is not part of this model.
- The `#pragma omp for` of the Balding–Nicols sweep is modelled as a sequential loop. Each cell is written once per site, so the order does not matter.
- `sqrt(1 / (1 - mean/2) / mean)` is the parameter `scale: real -> real`, applied only when the site has a present call. IEEE behaviour is not modelled: for example, mean 0 or 2 gives infinity and `0 * inf` gives NaN. With reals, a constant site contributes 0 whatever `scale` returns.
- `double` arithmetic is modelled as exact `real` arithmetic, and dosages are integers. So `(int)g[i]` is the dosage itself, and no rounding is modelled.
- The counter `n` is a `nat`: a 32-bit overflow of the C++ `int` is not modelled.
- SimpleMatrix is a square matrix of reals. `resize` followed by `clear` gives the all-zero N x N matrix. `clear` alone zeroes every entry and keeps the shape.
- `getKinship` is the `k` field of a state (`EmpiricalKinship.GetKinship` through the interface). It has no contract of its own.
- The scratch vectors `geno` and `table` are local values of each step, not state fields.
- A site whose length differs from the accumulator's size, while `n > 0`, is excluded by a precondition. A longer site makes the code index out of bounds. A shorter one is accepted and updates only the leading |g| x |g| block. The only caller passes one call per sample at every site, so neither case arises.
- `IbsKinship.CalculateSymmetric`: stated only for states satisfying `Inv`, which every state reached from a fresh or cleared estimator by `addGenotype` calls alone (before `calculate`) does. An arbitrary accumulator whose never-counted lower cell is non-zero does not become symmetric.
