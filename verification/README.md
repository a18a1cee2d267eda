# A verified model of FFTW's planner, transforms and support code

This project models the parts of FFTW 3.3.9 (under `fftw-3.3.9/`) whose correctness is not visible from one function, and
proves properties of the model. FFTW computes discrete Fourier transforms by composing small plans. A planner searches
for a plan, remembers what it found as *wisdom*, and hands over a tree of plan objects that rewrite arrays in place.

The model follows the program's own form. Objects whose fields the program updates are classes (`HashTable.Table`,
`Planning.Planner`, `RaderPlan.Plan`, `TwiddleCache.Cache`, `Streams.Scanner`, ...), loops over arrays are methods over
arrays, and pure arithmetic is functions. Every method is proved against a specification; what the program is for is
proved about that specification.

| files | what they model |
|---|---|
| `ModArith`, `Permutation`, `PrimeTheory`, `Primes` | `kernel/primes.c`: overflow-free modular arithmetic, factorisation, generators, roots; Fermat and the existence of generators |
| `Complex`, `Fourier` | exact complex numbers over the reals, roots of unity, the naive transform, orthogonality, the convolution theorem |
| `Strided`, `Grid` | what a child plan owes its parent: one transform, or a grid of them, at given strides |
| `Rader`, `RaderPlan` | `dft/rader.c`: prime sizes |
| `CooleyTukey`, `TwiddleTable`, `CtPlan` | `dft/ct.c`, `dft/dftw-generic.c`: composite sizes, both decimations, with the planner's strides |
| `Chirp`, `Bluestein`, `BluesteinPlan` | `dft/bluestein.c`: other sizes by convolution, and at which sizes the chirp stays inside its table of roots |
| `Generic` | `dft/generic.c`: odd sizes by half sums |
| `Subsumption`, `Probing`, `HashTable`, `HashOrder` | the memo table of `kernel/planner.c`, and in which order it is walked |
| `Registry`, `SearchTrace` | solver lists and the search of `kernel/planner.c` |
| `PlannerRules`, `PlannerRuns`, `PlannerTheory`, `Planning` | nested planning of `kernel/planner.c`: what a run does as a function of the planner's state, how its outcome comes about, and the planner object that refines it |
| `PlannerEnds` | when a run of the planner ends |
| `PlannerTruth`, `PlannerTidy`, `PlannerHistory`, `PlannerExamples` | when stored answers stay true and do not subsume one another, over a planner's whole life, and what happens when they do not |
| `DhtExamples` | `rdft/rdft-dht.c` and `rdft/dht-r2hc.c`: two solvers that ask for one another's problems |
| `PlannerBacked`, `PlannerFirm`, `PlannerRecall`, `PlannerLife`, `BogusExamples` | what planning again from wisdom needs to find stored, which lives of a planner keep it, and which do not |
| `ApiFlags`, `ApiFlagTable` | `api/mapflags.c`, and bit by bit what it does |
| `ApiPlan`, `ApiCalls`, `ApiLeaf`, `ApiSaved`, `ApiPlanner` | the planning of `api/apiplan.c`: which calls it makes, recovery from bogus wisdom, saving and forgetting |
| `TextIO`, `Streams`, `WisdomText`, `WisdomFormat`, `Wisdom` | `kernel/print.c`, `kernel/scan.c`, and the export and import of wisdom |
| `Tiling`, `Blocks`, `Copy2d`, `Transpose` | `kernel/tile2d.c`, `kernel/cpy2d.c`, `kernel/transpose.c` |
| `Tensor`, `TensorCompress`, `TensorLocations` | `kernel/tensor7.c` |
| `TwiddleProgram`, `TwiddleCache`, `TwiddleLayout`, `Trig`, `AwakePlans` | `kernel/twiddle.c`, `kernel/trig.c`, and the plans that take their tables from the cache |
| `NatSum`, `MpiBlock` | `mpi/block.c`, `default_sz` and `local_size` of `mpi/api.c` |
| `DigitSeqs`, `Multiprecision`, `BitReversal` | `libbench2/mp.c` |
| `Options` | a stock option type |

`dafny verify dfyconfig.toml` checks everything.

## Main results

* **Transforms.** Rader's, Cooley and Tukey's (both decimations), Bluestein's and the odd-size algorithm leave the naive
  transform of their input at their output places, for every input and all strides that keep the outputs apart, in place
  or not, and change no other cell (`RaderPlan.Plan.Apply`, `CtPlan.ApplyDit`, `CtPlan.ApplyDif`,
  `BluesteinPlan.Plan.Apply`, `Generic.Apply`). The generator Rader needs is found for every prime
  (`Primes.FindGenerator`, on top of `PrimeTheory.GeneratorExists`).
* **Planner.** The hash table refines a set of solutions and every operation keeps its invariant
  (`HashTable.Table.Lookup`, `HashTable.Table.Insert`). The planner object does, state for state and slot for slot, what
  a function of its state and of the solvers says (`Planning.Planner.MkPlan`); solvers are arbitrary programs that may
  ask the planner about further problems. Over every nested run the wisdom states obey their protocol
  (`PlannerRuns.KeepsMk`) and every outcome has its explanation (`PlannerTheory.MkPlanned`); a run ends whenever every
  question lowers a rank of problem and l together (`PlannerEnds.EnoughFuel`), so that a flag may end the recursion. A
  search tries the impatiences of its schedule in turn (`PlannerTheory.SoughtInOrder`) and gives the cheapest plan it
  met at the first at which there is one (`PlannerTheory.SearchSought`, `PlannerTheory.RoundStops`); for solvers that
  ask nothing it finds one exactly if there is one (`PlannerTheory.LeafSearchIsComplete`).
* **Truth of what is remembered.** Where being less impatient never makes a question infeasible, nested planning
  included, every run keeps the stored answers true and loses no answer (`PlannerTruth.RunsRight`,
  `PlannerHistory.EveryHistoryIsGood`), and a call that does not end with bogus wisdom is right
  (`PlannerHistory.RightUnlessBogus`). Where, in addition, the flags that end recursions are the same in l and in u, as
  they are in every call the interface makes (`ApiPlan.DhtFlagNeverSet`), the saved solutions stay pairwise
  non-subsuming (`PlannerTidy.RunsTidy`, `PlannerHistory.EveryHistoryIsTidy`), so that what is saved is what is read
  back (`PlannerHistory.HistoryTransfers`). Solvers that ask for one another's problems, as those between real and
  Hartley transforms do, are among those all this is about (`DhtExamples.PairLives`).
* **When wisdom is bogus.** Here what a solver asks depends on which answers were plans only. A stored plan is planned
  again from what is stored, and where that fails true wisdom is bogus. A store that is backed stays so over every
  nested run, and no run from it ends bogus (`PlannerFirm.RunsFirm`); a call that recalls a plan that is not backed does
  (`PlannerRecall.UnbackedIsBogus`). Lives that never forget the unsaved table alone, and careful lives that do, keep
  the store backed, so that after them a call has a plan exactly if there is one (`PlannerLife.RememberingIsFirm`,
  `PlannerLife.CarefulIsFirm`, `PlannerLife.HistoryIsIrrelevant`). After the unsaved table alone is forgotten no call
  ends bogus exactly if the saved one is backed by itself (`PlannerLife.SavedAlone`).
* **The interface.** Planning through the interface, which forgets everything when wisdom is bogus and plans again,
  makes a plan exactly if the problem is feasible, whatever true answers are stored, and needs to forget at most once
  (`ApiPlan.ApiMkRight`, `ApiPlan.ApiPlannedRight`, `ApiPlan.UsesAreRight`). Whatever is stored, with flags in order, it
  ends (`ApiPlan.ApiPlannedEnds`, `ApiPlan.UsesEnd`), and what it saves is what is read back (`ApiPlan.UsesTransfer`).
  For solvers that ask nothing all this holds even if what is stored is false (`ApiLeaf.LeafApiPlanned`). It plans with
  the patience asked for (`ApiCalls.UntimedPlan`, `ApiCalls.TimedPlan`), and a plan once made can be had again from
  wisdom only (`ApiSaved.HadFromWisdomOnly`). With solvers that make a plan only of plans, what it discards is never
  needed, and nothing saved is forgotten (`ApiPlan.UsesKeep`).
* **Wisdom.** Scanning inverts printing (`TextIO.FormatBack`); a rejected import leaves the saved table untouched
  (`Wisdom.Import`); export and import reproduce the table exactly when its entries are pairwise non-subsuming
  (`Wisdom.Transfer`).
* **Copies, tensors, tables, blocks, digits.** Tiled transposition is transposition (`Transpose.Tiled`,
  `Transpose.TransposeIsExact`); tensor compression preserves what is addressed and how often
  (`TensorCompress.CompressContiguous`); a shared twiddle table begins with what was asked for
  (`TwiddleCache.Cache.Wake`); the process boxes tile the global index space (`MpiBlock.TilesExactly`); multi-digit
  products and sums are exact up to one unit in the last place (`Multiprecision.ProductWithinUnit`).

## Where the code does not do what one would expect

* An insertion asserts that nothing stored subsumes the new entry without being replaced by it. After a search this
  fails exactly as `Subsumption.InsertAfterMiss` says: a record of infeasibility from some impatience that was not asked
  for is contradicted by a plan at more impatience. It takes a solver that more impatience makes applicable
  (`PlannerExamples.OddSolverBreaks` is such a life of a planner, after which what is read back is not what was saved);
  without one a true answer to a question that nothing answers may always be inserted
  (`PlannerTruth.AdmissibleAfterMiss`).
* It also fails, with unobjectionable solvers, when a plan recalled from the saved table is recorded again in the other
  one (`PlannerExamples.ReinsertionBreaks`), exactly as `Subsumption.InsertAfterRecall` says. The saved table is not
  affected by this (`PlannerTidy.RunsTidy`), so `Wisdom.Transfer`, which states its round trip with its exact condition,
  is exact for every table that a planner with such solvers can have by calls whose l and u agree as said above
  (`PlannerHistory.HistoryTransfers`).
* A third way for it to fail takes a call with a flag, by which a solver forbids itself, in u and not in l: then the
  question is answered while it is being searched (`DhtExamples.DisagreeingBreaks`). The interface makes no such call
  (`ApiPlan.DhtFlagNeverSet`), and solvers that set such a flag set it in l, which sets it in u
  (`PlannerTidy.ChangedAgree`).
* Replacing an entry by one that subsumes it can lose answers when the two differ in feasibility.
  `Subsumption.ReplacementIsHarmless` gives the exact condition, `PlannerExamples.OddSolverLoses` a life of a planner in
  which an answer is lost; among true answers none is (`PlannerTruth.RunsRight`).
* True wisdom can be bogus. `api/apiplan.c` discards all information not necessary to reconstruct the plan by forgetting
  the unsaved table. A solver that makes a plan though the planner told it that a sub-problem cannot be planned needs
  that answer again, and it was recalled, not recorded, when the plan was saved (`BogusExamples.CarelessIsBogus`). Two
  other ways to lose what a plan is made of are to read a line of wisdom without the lines it is made of
  (`BogusExamples.LoneLineIsBogus`), and to read a whole export while the unsaved table knows one of its lines
  (`BogusExamples.ReadBesideUnsaved`). `PlannerLife.OneLineBacked`, `PlannerLife.ReadThenAsk` and
  `PlannerLife.SavedAlone` say exactly when one line, or the forgetting, makes a later call end bogus. The interface
  recovers in each case (`ApiPlan.ApiMkRight`), at the price of all wisdom.
* Comments in `kernel/planner.c` say that a solution found through wisdom inherits its blessing. Stored entries never
  carry the blessing (`fill_slot` copies only l, u and the time limit), so only the planner's own flag decides. The
  model follows the code.
* The import does not check that l lies within u, and stops the program, rather than rejecting the text, when a flag is
  too large for its bit field. The model has a third outcome for that. `Wisdom.LearnedStorable` says when the planner's
  invariant survives an import; nothing else in a text can break it (`Wisdom.LinesStorable`).
* `bluestein_sequence` stays inside its root table exactly at the sizes that neither 8 nor the square of an odd prime
  divides (`Chirp.KsqInTable`). The solver takes prime sizes only, all of which are among them
  (`Bluestein.PrimeSequence`).
* `X(dimcmp)` compares absolute values of strides, so dimensions that differ in signs are equal to it
  (`Tensor.DimCmpOrder`); the sorted order is then whatever the sorting routine leaves.
* `X(tensor_inplace_locations)` may answer no although the locations coincide: sets and counts
  (`TensorLocations.SameLocationsOtherForm`), or sets alone (`TensorLocations.EqualSetsUnequalCounts`). For dimensions
  that pass one another the answer is exact (`TensorLocations.ExactWhenSpread`), and for permuted strides without ties
  it is yes (`TensorLocations.PermutedSame`).
* `default_sz` for halved real transforms counts the blocks of the halved dimension but returns the full one, whose
  blocks may need more processes than there are: `MpiBlock.RestoredCount` says exactly when, `MpiBlock.RestoredExceeds`
  shows a table.
* `X(power_mod)` with modulus 1 and exponent 0 returns 1 (`Primes.PowerMod`).

## Model

| member | source | states |
|---|---|---|
| `Primes.FastProductFits` | fftw-3.3.9/kernel/primes.c:41-47 | The fast branch of the modular product is safe even for 32-bit integers: whenever the operands add up to at most 92681 their product is below 2^31 |
| `Primes.AddMod` | fftw-3.3.9/kernel/primes.c:39 | Addition modulo p of two residues stays in the 64-bit type and is the residue of the sum |
| `Primes.SafeMulMod` | fftw-3.3.9/kernel/primes.c:41-57 | For all residues x, y below a 64-bit p no intermediate value overflows and the result is x y mod p |
| `Primes.MulMod` | fftw-3.3.9/kernel/ifftw.h:926-927 | The macro equals x y mod p on both of its branches |
| `Primes.PowerMod` | fftw-3.3.9/kernel/primes.c:64-75 | Equals n^m mod p for every p > 1 and every m >= 0; for p = 1 it returns 1 when m = 0, which is not a residue |
| `Primes.DivideOut` | fftw-3.3.9/kernel/primes.c:95-97 | Dividing out a prime leaves the cofactor it does not divide: the number is the cofactor times a power of the prime, and no other prime divisor is lost |
| `Primes.RecordDivisor` | fftw-3.3.9/kernel/primes.c:92-98 | A divisor met by the trial division is prime, is recorded in a free one of the 16 slots, and is divided out completely |
| `Primes.TrialDivide` | fftw-3.3.9/kernel/primes.c:89-99 | The loop over odd divisors stops with everything below the current divisor sieved out, never using more than 15 slots |
| `Primes.SlotsSuffice` | fftw-3.3.9/kernel/primes.c:78-82 | No number below 2^63 has more than 15 distinct prime divisors (the product of the first 16 primes is larger) |
| `Primes.GetPrimeFactors` | fftw-3.3.9/kernel/primes.c:78-103 | For every even n the array ends with exactly the distinct primes that divide n, in increasing order, within 15 of the 16 slots |
| `PrimeTheory.Fermat` | fftw-3.3.9/kernel/primes.c:105-122 | Fermat: a^(p-1) = 1 mod p for every a not divisible by the prime p |
| `PrimeTheory.RootBound` | fftw-3.3.9/kernel/primes.c:105-122 | A polynomial modulo a prime has at most as many roots as its degree; the reason a generator exists |
| `PrimeTheory.GeneratorTest` | fftw-3.3.9/kernel/primes.c:105-122 | Passing the test g^((p-1)/q) != 1 for every prime q that divides p - 1 is the same as having multiplicative order p - 1 |
| `PrimeTheory.GeneratorExists` | fftw-3.3.9/kernel/primes.c:105-122 | Every prime has a generator below it, so the search ends |
| `PrimeTheory.GeneratorPowers` | fftw-3.3.9/dft/rader.c:107-113 | The powers g^0, ..., g^(p-2) of a generator list each of 1, ..., p - 1 exactly once |
| `Primes.FindGenerator` | fftw-3.3.9/kernel/primes.c:105-122 | For every prime p the value found is the least number of multiplicative order p - 1 |
| `Primes.FirstDivisor` | fftw-3.3.9/kernel/primes.c:126-137 | The least prime divisor for n >= 2, and n itself for n <= 1; a trial divisor whose square does not fit 64 bits is met if and only if n is at least 3037000499^2 and has no divisor up to 3037000499 |
| `Primes.TrialMax` | fftw-3.3.9/kernel/primes.c:126-137 | 3037000499 is the greatest trial divisor whose square is below 2^63 |
| `Primes.TestPrimality` | fftw-3.3.9/kernel/primes.c:139-142 | True exactly of the primes; no trial divisor is too great to be squared in 64 bits unless n is at least 3037000499^2 and has no divisor up to 3037000499 |
| `Primes.NextPrime` | fftw-3.3.9/kernel/primes.c:144-148 | Ends at the least prime that is not below the argument; everything fits 64 bits if and only if that prime does and no number tested on the way meets the exception of the primality test |
| `Primes.FactorsInto` | fftw-3.3.9/kernel/primes.c:150-156 | True exactly when n is a product of powers of the given primes |
| `Primes.NewtonStep` | fftw-3.3.9/kernel/primes.c:159-174 | A Newton step from above the root decreases and does not fall below the floor of the root |
| `Primes.ISqrt` | fftw-3.3.9/kernel/primes.c:159-174 | Newton iteration ends at floor(sqrt n) for every n >= 0; the greatest sum formed on the way is n + 1, so in 64 bits only n = 2^63 - 1 overflows |
| `Primes.ChooseRadix` | fftw-3.3.9/kernel/primes.c:183-195 | Radix r > 0 is returned exactly when it divides n; r = 0 gives the least prime divisor; r < 0 gives a q >= 2 with n = -r q^2, and 0 exactly when there is none; for r < 0 and n in 64 bits everything fits unless r = -2^63, or r = -1 and n = 2^63 - 1 |
| `Primes.Modulo` | fftw-3.3.9/kernel/primes.c:198-205 | The residue in [0, n) for negative dividends too, from a remainder that truncates toward zero |
| `Fourier.Orthogonality` | fftw-3.3.9/dft/rader.c:45-74 | Sums of n-th roots of unity vanish along every step that is not a multiple of n |
| `Fourier.Inversion` | fftw-3.3.9/dft/rader.c:95-165 | A forward transform followed by an inverse one multiplies by n |
| `Fourier.Convolution` | fftw-3.3.9/dft/rader.c:116-150 | Multiplying two transforms pointwise and transforming back is n times their cyclic convolution |
| `Fourier.DftConj` | fftw-3.3.9/dft/rader.c:142-161 | A forward transform of conjugated data is the conjugate of an inverse transform, which is why the plan conjugates twice instead of owning an inverse child |
| `RaderTheory.InverseGenerator` | fftw-3.3.9/dft/rader.c:183-185 | The inverse of a generator is a generator |
| `RaderPlan.InverseByFermat` | fftw-3.3.9/dft/rader.c:183-185 | g^(n-2) mod n, computed on waking, is the inverse of g |
| `RaderTheory.ExponentIdentity` | fftw-3.3.9/dft/rader.c:61-68 | h^((k-j) mod (n-1)) = g^j h^k modulo n: the index arithmetic that turns the transform into a cyclic convolution |
| `RaderPlan.PowerCycle` | fftw-3.3.9/dft/rader.c:107-113 | The loop that multiplies by g modulo n is back at 1 after n - 1 steps |
| `RaderTheory.SumOverPowers` | fftw-3.3.9/dft/rader.c:107-113 | A sum over the powers of a generator is the sum over 1, ..., n - 1 |
| `RaderTheory.ResultAsConvolution` | fftw-3.3.9/dft/rader.c:128-150 | The second transform of the conjugated product is the convolution of permuted input and roots, with x_0 added to every output by the single addition at index 0 |
| `RaderTheory.RaderOutput` | fftw-3.3.9/dft/rader.c:95-165 | The value produced at step k is the naive transform at index g^-k |
| `RaderTheory.RaderDC` | fftw-3.3.9/dft/rader.c:122-126 | Output 0, formed from the first child transform, is the sum of all inputs |
| `RaderPlan.MakeOmega` | fftw-3.3.9/dft/rader.c:45-74 | The table holds the transform of the scaled roots at the powers of the inverse generator, wherever the in-place child plan leaves it |
| `RaderPlan.PermuteInput` | fftw-3.3.9/dft/rader.c:107-113 | The buffer receives the inputs in the order of the powers of g, each of 1, ..., n - 1 once |
| `RaderPlan.MultiplyByOmega` | fftw-3.3.9/dft/rader.c:128-144 | Every transformed value is multiplied by its table entry and conjugated, and x_0 enters at index 0 only; nothing else in the output array changes |
| `RaderPlan.Unshuffle` | fftw-3.3.9/dft/rader.c:152-161 | Step k of the last loop writes the conjugated buffer to the place of output g^-k, leaves output 0 as it was, and touches nothing else |
| `RaderPlan.Plan.Wake` | fftw-3.3.9/dft/rader.c:169-191 | A woken plan holds a generator, its inverse, and the table they determine |
| `RaderPlan.Plan.Apply` | fftw-3.3.9/dft/rader.c:95-165 | For every prime n and every input, in place or not and for all strides that keep the outputs apart, the output places hold the naive transform of the input, and no other cell changes |
| `CooleyTukeyTheory.SubIsRoot` | fftw-3.3.9/dft/ct.c:143-213 | Every r-th n-th root is a primitive root of size n / r, so the children are transforms of the smaller size |
| `CooleyTukeyTheory.TwoStep` | fftw-3.3.9/dft/ct.c:34-58 | For n = r m: inner transforms, twiddle factors and outer transforms give output m l + k of the size-n transform |
| `Grid.SolveDfts` | fftw-3.3.9/dft/ct.c:143-213 | What a child plan owes its parent: u times v transforms of size n at given strides, correct in place or not, touching only its outputs |
| `Strided.SolveDft` | fftw-3.3.9/dft/rader.c:241-252 | The same for one transform |
| `CtPlan.ByTwiddle` | fftw-3.3.9/dft/dftw-generic.c:51-76 | Each cell (im, ir) is multiplied by the conjugate root e(-(im ir)), read at exactly the index where the table builder put it; cells with a factor of one are skipped without harm |
| `CtPlan.DftwDit` | fftw-3.3.9/dft/dftw-generic.c:88-98 | Twiddling and then transforming in place leaves in each column the transform of its twiddled cells |
| `CtPlan.DftwDif` | fftw-3.3.9/dft/dftw-generic.c:100-110 | Transforming in place and then twiddling leaves in each cell its twiddled column transform |
| `CtPlan.DitFits` | fftw-3.3.9/dft/ct.c:143-165 | The strides assembled for decimation in time address, through both children, exactly the output cells of the whole problem |
| `CtPlan.DifFits` | fftw-3.3.9/dft/ct.c:189-213 | The strides assembled for decimation in frequency address exactly the input cells of the whole problem |
| `CtPlan.ApplyDit` | fftw-3.3.9/dft/ct.c:34-45 | For every n = r m, every vector length and all strides that keep the outputs apart, decimation in time writes the size-n transform of each input vector and nothing else |
| `CtPlan.ApplyDif` | fftw-3.3.9/dft/ct.c:47-58 | Decimation in frequency does so too; it destroys the input, and only the input |
| `AwakePlans.SolveDit` | fftw-3.3.9/dft/dftw-generic.c:41-49 | Decimation in time with the table that the cache hands out on waking and takes back: every vector gets its transform, and the cache ends with the holders it began with |
| `AwakePlans.SolveDif` | fftw-3.3.9/dft/dftw-generic.c:41-49 | And decimation in frequency |
| `Bluestein.NextKsq` | fftw-3.3.9/dft/bluestein.c:37-50 | The accumulator stays congruent to k^2 modulo 2n through the wrap-around loop, which subtracts only when the limit is passed |
| `Chirp.KsqInTable` | fftw-3.3.9/dft/bluestein.c:37-50 | The accumulator stays strictly below 2n, the size of the root table, for all k < n if and only if neither 8 nor the square of an odd prime divides n |
| `Chirp.HitIsMultiple` | fftw-3.3.9/dft/bluestein.c:37-50 | At such sizes 2n divides k^2 only if n divides k |
| `Chirp.OutOfTable` | fftw-3.3.9/dft/bluestein.c:37-50 | At every other size some 0 < k < n has a square that 2n divides, so that the accumulator reaches 2n |
| `Chirp.PrimeInTable` | fftw-3.3.9/dft/bluestein.c:148-161 | Every prime size, and the solver takes no other, is among the sizes that stay inside |
| `Bluestein.TableSequence` | fftw-3.3.9/dft/bluestein.c:37-50 | At such sizes the sequence is filled from the two tables of the generator, every index within them, with the 2n-th root to the power k^2 |
| `Bluestein.PrimeSequence` | fftw-3.3.9/dft/bluestein.c:37-50 | At every prime size the generator can be made and the sequence filled from it |
| `Bluestein.Sequence` | fftw-3.3.9/dft/bluestein.c:37-50 | The sequence holds the 2n-th root to the power k^2 |
| `Bluestein.ChooseTransformSize` | fftw-3.3.9/dft/bluestein.c:180-185 | Ends at the least size from the one asked for that factors into the small primes |
| `Bluestein.ConvenientIs` | fftw-3.3.9/kernel/primes.c:208-212 | Convenient are the sizes all of whose prime divisors are 2, 3 or 5 |
| `Bluestein.BluesteinOutput` | fftw-3.3.9/dft/bluestein.c:82-128 | The value produced at k by two transforms of size nb >= 2n - 1, with real and imaginary parts exchanged in between, is the naive transform of size n |
| `BluesteinPlan.MakeTable` | fftw-3.3.9/dft/bluestein.c:52-80 | The table is the transform of the sequence wrapped around both ends and scaled; with nb >= 2n - 1 the two ends do not collide |
| `BluesteinPlan.Convolve` | fftw-3.3.9/dft/bluestein.c:89-117 | The steps up to the second transform leave in the buffer the transform of the exchanged product |
| `BluesteinPlan.Plan.Wake` | fftw-3.3.9/dft/bluestein.c:52-80 | A woken plan holds the sequence and its transformed table |
| `BluesteinPlan.Plan.Apply` | fftw-3.3.9/dft/bluestein.c:82-128 | For every n and every input, in place or not, the output places hold the naive transform of the input and no other cell changes |
| `Generic.HalfSums` | fftw-3.3.9/dft/generic.c:34-91 | The naive transform of odd size in terms of sums and differences of mirrored inputs |
| `Generic.Mirror` | fftw-3.3.9/dft/generic.c:84-88 | Output n - k needs the same cosines and the opposite sines as output k |
| `Generic.Hartley` | fftw-3.3.9/dft/generic.c:54-69 | The buffer receives x_0 and the sums and differences of mirrored inputs, and the running sum is the sum of all inputs |
| `Generic.Cdot` | fftw-3.3.9/dft/generic.c:34-52 | One pass over row k of the half table gives outputs k and n - k of the naive transform |
| `Generic.Apply` | fftw-3.3.9/dft/generic.c:71-91 | For every odd n the output places hold the naive transform of the input, also when the output overwrites the input; no other cell changes |
| `AwakePlans.SolveGeneric` | fftw-3.3.9/dft/generic.c:93-103 | With the half table taken from the cache on waking and given back, the outputs are the naive transform, and the cache ends with the holders it began with |
| `Subsumption.SubsumesItself` | fftw-3.3.9/kernel/planner.c:53-62 | A solution answers the question it was found for |
| `Subsumption.SubsumesTransitive` | fftw-3.3.9/kernel/planner.c:53-62 | Among solutions of the same feasibility, subsumption composes |
| `Subsumption.SubsumesWidest` | fftw-3.3.9/kernel/planner.c:52-62 | Subsumption is the widest sound use of an answer: it answers a question exactly if it settles it wherever less impatience never hinders and the answer is true, and a plan was not made more impatiently than the question allows, and a failure not under a stricter time limit |
| `Subsumption.ReplacementIsHarmless` | fftw-3.3.9/kernel/planner.c:359-366 | Replacing an entry by one that subsumes it never loses an answer if and only if the two agree on feasibility, or the replaced infeasibility was at full impatience, or the replacing infeasibility is at none |
| `PlannerExamples.OddSolverLoses` | fftw-3.3.9/kernel/planner.c:359-366 | A life of a planner with a solver that only much impatience makes applicable: a question answered before the second search is not answered after it, because what was found replaced a record of infeasibility |
| `Subsumption.InsertAfterMiss` | fftw-3.3.9/kernel/planner.c:655-739 | After a lookup that missed, what a search for (l, u) found at x meets a stored entry that subsumes it and is not replaced by it if and only if that entry says infeasible without time limit from some impatience within x but not within l, and u is not within its own u |
| `Subsumption.InsertAfterRecall` | fftw-3.3.9/kernel/planner.c:671-699 | A recalled plan that is recorded once more meets a stored plan that subsumes it and is not replaced by it if and only if its own l and u lie around those of the stored one and are not the same; and that one answers the question too |
| `Probing.AddModMeans` | fftw-3.3.9/kernel/planner.c:64-75 | The step without a division is addition modulo the table size, for operands below it |
| `Probing.AddModWraps` | fftw-3.3.9/kernel/planner.c:64-75 | In unsigned 32-bit arithmetic the step is the same for a pair of operands exactly when their sum does not wrap around, so for all operands exactly when the table size is at most 2^31 |
| `Probing.ProbeInjective` | fftw-3.3.9/kernel/planner.c:155-168 | With a prime size and a step between 1 and size - 1, two different probes hit two different slots |
| `Probing.ProbeReturns` | fftw-3.3.9/kernel/planner.c:203-237 | The walk is back at its first slot after exactly size steps and not before |
| `Probing.ProbeReaches` | fftw-3.3.9/kernel/planner.c:203-237 | Every slot is probed |
| `HashTable.UpdateKeepsAntichain` | fftw-3.3.9/kernel/planner.c:353-385 | Under the documented precondition of an insertion, entries stay pairwise non-subsuming |
| `HashTable.UpdateKeepsAnswers` | fftw-3.3.9/kernel/planner.c:353-385 | When every entry removed is traded harmlessly, every question answered before is answered after |
| `HashTable.UpdateAnswersNew` | fftw-3.3.9/kernel/planner.c:347-387 | An insertion answers the question it was made for, and nothing new beyond what the new entry answers |
| `HashTable.WalkMeetsAll` | fftw-3.3.9/kernel/planner.c:203-237 | By the time a walk stops, at a slot that was never used or having come round, it has met every live entry with its key |
| `HashTable.FreeProbe` | fftw-3.3.9/kernel/planner.c:273-290 | While live entries are fewer than slots, some probe finds a slot that is not live |
| `HashTable.ScanIsBest` | fftw-3.3.9/kernel/planner.c:203-237 | As a function of the slots: the lookup walk returns nothing exactly when nothing stored answers, else an answer whose u is minimal |
| `HashTable.InsertedIs` | fftw-3.3.9/kernel/planner.c:347-387 | As a function of the slots: an insertion, with its growth and rehashing, takes every valid table to a valid table whose contents are the updated set |
| `HashTable.Table.constructor` | fftw-3.3.9/kernel/planner.c:756-765 | An empty table of prime size satisfies the invariant |
| `HashTable.Table.Lookup` | fftw-3.3.9/kernel/planner.c:203-237 | The walk over the array computes that function: nothing if and only if no stored entry with the key subsumes the query; otherwise a stored answer whose u is minimal among all answers |
| `HashTable.Table.InsertFree` | fftw-3.3.9/kernel/planner.c:273-290 | The walk finds a free slot before coming round; the table then holds one entry more, and the invariant is kept |
| `HashTable.Table.Rehash` | fftw-3.3.9/kernel/planner.c:292-318 | The same entries in a new table of prime size, invariant kept |
| `HashTable.Table.Grow` | fftw-3.3.9/kernel/planner.c:330-335 | Changes no entry and leaves room for one entry and one free slot |
| `HashTable.Table.Purge` | fftw-3.3.9/kernel/planner.c:347-366 | Kills exactly the entries the new one subsumes, and remembers the first slot so freed |
| `HashTable.Table.Insert` | fftw-3.3.9/kernel/planner.c:347-387 | From every table that satisfies the invariant (prime size, count of live entries below it, every live entry reachable by probing through slots that are valid): removes exactly the entries the new one subsumes, adds it, keeps the invariant, and leaves the slots that function gives |
| `HashOrder.ProbePlaces` | fftw-3.3.9/kernel/planner.c:155-170 | The first word of the key says where a walk begins, the second how far each step goes |
| `HashOrder.ScanChoice` | fftw-3.3.9/kernel/planner.c:203-236 | Of several answers a lookup gives one that is met on its walk, whose u is within that of the first answer met, and within whose u no later one is |
| `HashOrder.FreeFirst` | fftw-3.3.9/kernel/planner.c:273-290 | An entry that replaces none goes into the first slot of its walk that is not in use |
| `HashOrder.GrowsWhenFull` | fftw-3.3.9/kernel/planner.c:320-336 | A table of c entries grows exactly when it has no more than m = 1 + c + c / 8 slots, and then to the least prime that is at least 1 + m + m / 8 |
| `Registry.OfKindIsExact` | fftw-3.3.9/kernel/planner.c:94-121 | The order in which solvers of a kind are visited contains each registered solver of that kind once, latest first, and no other |
| `Registry.Solvers.Register` | fftw-3.3.9/kernel/planner.c:94-121 | A new solver becomes the head of the list of its kind; the lists of the other kinds are unchanged |
| `Registry.Solvers.Visit` | fftw-3.3.9/kernel/ifftw.h:788-797 | The walk over the links visits exactly the solvers of the kind, each once |
| `Registry.IndexBack` | fftw-3.3.9/kernel/planner.c:123-133 | With unique names, looking a solver up by its own name and number finds it |
| `SearchTrace.ChosenNext` | fftw-3.3.9/kernel/planner.c:518-570 | Keeping a plan only if strictly cheaper than the best so far keeps the cheapest, and the earliest among equals |
| `SearchTrace.SearchIsComplete` | fftw-3.3.9/kernel/ifftw.h:605-613 | If being less impatient never leaves every solver inapplicable where some solver applied, a search fails if and only if no solver of the kind applies at the least impatience allowed |
| `SearchTrace.SearchIsPatient` | fftw-3.3.9/kernel/ifftw.h:605-613 | Without pruning, the plan is the cheapest, and earliest among equals, of all solvers of the kind at the highest impatience tried at which any applies; one round suffices if one applies at once |
| `PlannerTheory.RoundStops` | fftw-3.3.9/kernel/planner.c:518-570 | Solvers are tried in order; a round ends before the list does exactly if u has the flag 0x20000 and a plan lets the search prune, and then at the first such plan; the plan chosen is the cheapest, and the earliest of those, up to there |
| `PlannerRules.ChangedAsked` | fftw-3.3.9/kernel/planner.c:976-989 | Setting and resetting flags for a nested call keeps l within u |
| `PlannerRules.ChangedFlags` | fftw-3.3.9/kernel/planner.c:976-989 | What a nested call sets in l it sets in u too, what it resets it resets in both, the other flags and the time limit are kept |
| `PlannerRules.WholeDescends` | fftw-3.3.9/kernel/planner.c:572-615 | The impatiences a search goes through start at u, end at l, stay between, and shrink strictly |
| `PlannerRules.WholeBits` | fftw-3.3.9/kernel/planner.c:579-615 | They are exactly: u; u without 0x10; without 0x810; without 0x818; without 0x10818, each with what l demands; and l |
| `PlannerRuns.KeepsMk` | fftw-3.3.9/kernel/planner.c:623-747 | Over every nested run, whatever the solvers do: flags, thread count and blessing come back; the exit wisdom state is the entry state or bogus, which has no plan and is never left; the states only and bogus never search; ignore-all and bogus never record; only the table that the blessing selects changes, and it stays a valid table |
| `PlannerRuns.KeepsReuse` | fftw-3.3.9/kernel/planner.c:656-699 | From acceptable wisdom nothing is searched, and there is a plan unless the wisdom is bogus |
| `PlannerRuns.EstimatorsHaveNoLimit` | fftw-3.3.9/kernel/planner.c:635-636 | Where u has the flag 0x2 a time limit makes no difference and is dropped; elsewhere it is kept |
| `PlannerRuns.NoWisdomMk` | fftw-3.3.9/kernel/planner.c:655-705 | A planner that ignores all wisdom never takes it for bogus, whatever its solvers do |
| `PlannerRuns.MoreFuel` | fftw-3.3.9/kernel/planner.c:623-747 | A run that has an outcome has the same outcome with any greater bound on depth and length |
| `PlannerEnds.EnoughFuel` | fftw-3.3.9/kernel/planner.c:623-747 | When every question lowers a rank of problem and l together, which more impatience never raises, and no solver asks more than a bound, every run with fuel above rank and bound has an outcome, whatever is stored with flags in order; so recursion may be ended by a flag, as dht-r2hc ends it |
| `PlannerTheory.SolverReturned` | fftw-3.3.9/kernel/planner.c:477-490 | The plan is what the solver returned at the end of a dialogue held with exactly the flags given, no time limit, and the thread counts it set itself |
| `PlannerTheory.SearchSought` | fftw-3.3.9/kernel/planner.c:572-615 | The impatiences tried are u relaxed by the table, entry by entry and without repetition, and l last; all are tried before the search gives up; every round before the last failed for every solver; the last gives the cheapest plan, earliest among equals, cut short only where pruning is allowed |
| `PlannerTheory.SoughtInOrder` | fftw-3.3.9/kernel/planner.c:572-615 | In bits: the first impatience tried is u; before l itself none of the flags 0x10, 0x800, 0x8, 0x10000 is dropped while an earlier one that l does not demand is there, and no other flag is dropped; each impatience is strictly within the one before, none of the schedule is left out before the last, and the search gives up only at l |
| `PlannerTheory.MkPlanned` | fftw-3.3.9/kernel/planner.c:623-747 | Every outcome is either what a stored answer says, preferring saved wisdom, or what a finished search chose, or bogus; in the recording states it is recorded as that, and the question is answered from then on; a question already answered is not searched again, an unanswered one is searched or makes the wisdom bogus |
| `PlannerTheory.IgnoringSearches` | fftw-3.3.9/kernel/planner.c:667-669 | A planner that ignores records of infeasibility searches unless a stored plan answers, and without a search there is a plan or the wisdom is bogus |
| `PlannerTheory.LeafSearchIsComplete` | fftw-3.3.9/kernel/planner.c:572-615 | For solvers that plan nothing themselves, where less impatience may hinder one but never leaves none applicable, a search finds a plan if and only if some solver of the kind applies at l |
| `PlannerTruth.AdmissibleAfterMiss` | fftw-3.3.9/kernel/planner.c:361-369 | In a table of true answers, a true answer to a question that nothing stored answers meets no entry that subsumes it |
| `PlannerTruth.RunsRight` | fftw-3.3.9/kernel/planner.c:623-747 | When less impatience never makes a question infeasible, and with no assumption on how the recursion ends, over every nested run from tables of true answers: the tables stay true, no answer is lost, and unless the wisdom was bogus there is a plan if and only if the question is feasible at l |
| `PlannerTidy.RunsTidy` | fftw-3.3.9/kernel/planner.c:623-747 | If the flags that end recursions are the same in l and u of every question, and the rank depends on no other flag: no run makes a saved entry subsume another, and nothing saved that is deeper than the question changes |
| `PlannerTidy.MissStays` | fftw-3.3.9/kernel/planner.c:705-739 | A question that nothing saved answers stays so while only entries less deep than it change, as they do while it is being searched |
| `PlannerTidy.DisplacedNotDeeper` | fftw-3.3.9/kernel/planner.c:359-366 | A true answer displaces only answers to questions that are no deeper |
| `PlannerTidy.SimplerProblems` | fftw-3.3.9/kernel/planner.c:623-747 | Where every question is about a simpler problem, these hypotheses hold of all flags |
| `PlannerHistory.EveryHistoryIsGood` | fftw-3.3.9/kernel/planner.c:769-783 | From empty tables, after any sequence of calls with any flags, blessing and wisdom state, of true lines of wisdom read, and of forgetting, both tables hold only true answers |
| `PlannerHistory.EveryHistoryIsTidy` | fftw-3.3.9/kernel/planner.c:769-783 | If in addition the flags that end recursions are the same in l and u of every call and line, no saved entry ever subsumes another |
| `PlannerHistory.RightUnlessBogus` | fftw-3.3.9/kernel/planner.c:623-747 | After any such history a call of mkplan whose wisdom is not bogus at its end has a plan if and only if some solver of the kind does it at l |
| `PlannerHistory.TaughtAllIs` | fftw-3.3.9/kernel/planner.c:864-896 | Reading lines one by one into the slots of a table is learning them as a set |
| `PlannerHistory.LearnedMoves` | fftw-3.3.9/kernel/planner.c:894-895 | Reading true lines keeps the answers true, forgets nothing, stores nothing but lines, and answers every line |
| `PlannerHistory.HistoryTransfers` | fftw-3.3.9/kernel/planner.c:790-906 | After such a history, with the flags that end recursions the same in l and u of every call and line, what is saved teaches an empty planner exactly what was saved |
| `PlannerBacked.EndedKnown` | fftw-3.3.9/kernel/planner.c:477-490 | For solvers whose questions depend only on which answers were plans: once one dialogue told the truth has ended, its questions are all the questions the solver can ask when told the truth |
| `PlannerFirm.RunsFirm` | fftw-3.3.9/kernel/planner.c:623-747 | A store is backed when the solver of every stored plan, told the truth, is right to make a plan and asks nothing that is not stored. Every nested run keeps it so: both tables together; or the saved one by itself, while blessing, if solvers are strict or every infeasibility known is known to the saved table. Where both together are backed the wisdom state comes back, unless only wisdom was allowed and there was none |
| `PlannerRecall.OnlyWithin` | fftw-3.3.9/kernel/planner.c:656-704 | Planning from wisdom alone stores nothing that was not stored, and ends bogus if nothing stored answers the question |
| `PlannerRecall.UnbackedIsBogus` | fftw-3.3.9/kernel/planner.c:671-699 | A call that recalls a stored plan that is not backed ends bogus, without a plan |
| `PlannerLife.OneLineBacked` | fftw-3.3.9/kernel/planner.c:884-895 | In worlds whose questions lower a rank of problem and l: reading one true line keeps the store backed if and only if the line is answered already or backed by what is stored |
| `PlannerLife.ReadThenAsk` | fftw-3.3.9/kernel/planner.c:671-699 | After reading a line that nothing stored answers, the next call for its question ends bogus if and only if the line is not backed by what was stored |
| `PlannerLife.ReadFirm` | fftw-3.3.9/kernel/planner.c:864-896 | Lines backed by each other and by what is stored keep the store backed |
| `PlannerLife.ReadSaved` | fftw-3.3.9/kernel/planner.c:864-896 | And the saved table by itself, if no line is taken for known because of the unsaved table alone |
| `PlannerLife.SavedAlone` | fftw-3.3.9/kernel/planner.c:769-783 | In such worlds and for every planner with true tables, the saved one an antichain: after the unsaved table is forgotten no call, with any problem, flags, threads and blessing, ends bogus if and only if the saved table is backed by itself |
| `PlannerLife.RememberingIsFirm` | fftw-3.3.9/kernel/planner.c:623-747 | In every life that reads only lines backed by each other and never forgets the unsaved table alone, everything stored is backed |
| `PlannerLife.CarefulIsFirm` | fftw-3.3.9/kernel/planner.c:769-783 | In every careful life, which may forget the unsaved table at any time, everything stored is backed, and the saved table by itself: a blessed call is careful if solvers are strict or every infeasibility known is known to the saved table; a text is read carefully if its lines are backed by each other and none is taken for known because of the unsaved table alone |
| `PlannerLife.HistoryIsIrrelevant` | fftw-3.3.9/kernel/planner.c:623-747 | After either kind of life a call that may search never ends bogus, and has a plan if and only if some solver of the kind does it at l |
| `PlannerLife.SavedMayBeRead` | fftw-3.3.9/kernel/planner.c:790-906 | What a careful life has saved is true and backed by itself, so it may be read, whole, in any other life |
| `BogusExamples.LoneLineIsBogus` | fftw-3.3.9/kernel/planner.c:671-699 | A life that reads one true line, whose plan is made of another that is not stored: the next call for it ends bogus although it is feasible |
| `BogusExamples.CarelessIsBogus` | fftw-3.3.9/api/apiplan.c:139-167 | A life that plans, plans again to save, and forgets what is not saved, with a solver that makes a plan of an answer that is none: the next call ends bogus although it is feasible |
| `BogusExamples.ReadBesideUnsaved` | fftw-3.3.9/kernel/planner.c:894-895 | A life with strict solvers that reads a whole export while the unsaved table knows one of its lines, and then forgets that table: the next call ends bogus although it is feasible |
| `ApiFlags.MapFlags` | fftw-3.3.9/api/mapflags.c:45-52 | The loop over a flag table, from one word to another, equals its function |
| `ApiFlags.MapSelf` | fftw-3.3.9/api/mapflags.c:45-52 | And from a word to itself |
| `ApiFlags.PlannerFlagsAre` | fftw-3.3.9/api/mapflags.c:147-159 | The conversion to 20-bit fields loses no bits, and l is within u, for every word of flags |
| `ApiFlagTable.RulesTable` | fftw-3.3.9/api/mapflags.c:82-116 | What the consistency rules leave of each flag of the interface, in every word of flags |
| `ApiFlagTable.LeastTable` | fftw-3.3.9/api/mapflags.c:118-126 | Each bit of the least impatience, and that there are no others: input is preserved if that is asked for or destroying it is not, and so on |
| `ApiFlagTable.GreatestTable` | fftw-3.3.9/api/mapflags.c:128-147 | Each bit of the greatest impatience before it is made to contain the least, and that there are no others |
| `ApiFlagTable.OnlyPasses` | fftw-3.3.9/api/mapflags.c:82-151 | FFTW_WISDOM_ONLY makes no difference to either |
| `ApiFlags.PatienceKeepsLeast` | fftw-3.3.9/api/apiplan.c:45-49 | Neither the patience asked for nor falling back on the estimator changes l |
| `ApiPlan.ApiMkRight` | fftw-3.3.9/api/apiplan.c:51-84 | Whatever true answers are stored: a plan is found if and only if the question is feasible at l, the wisdom ends acceptable, and having forgotten everything once is enough, so that the last attempt is never made |
| `ApiCalls.MkAttempts` | fftw-3.3.9/api/apiplan.c:45-84 | Whatever solvers do and whatever is stored: which calls are made, with which flags, wisdom states and tables, and that the outcome is never bogus |
| `ApiLeaf.LeafApiMk` | fftw-3.3.9/api/apiplan.c:51-84 | For solvers that ask nothing, and tables whose answers may be false: mkplan ends, its wisdom acceptable, and has a plan if and only if some solver of the kind applies at l; records of infeasibility that are false do no harm |
| `ApiPlan.ApiMkFirm` | fftw-3.3.9/api/apiplan.c:51-84 | Where what is stored is backed, nothing is forgotten |
| `ApiPlan.ApiPlannedRight` | fftw-3.3.9/api/apiplan.c:86-177 | Whatever true answers are stored: a plan is made if and only if the problem is feasible at l, from wisdom only only if it is, and the plan made again from wisdom is always there |
| `ApiLeaf.LeafApiPlanned` | fftw-3.3.9/api/apiplan.c:86-177 | So does mkapiplan make a plan for them, whatever is stored |
| `ApiCalls.UntimedPlan` | fftw-3.3.9/api/apiplan.c:109-136 | Without a time limit the first plan is that of one call, with the greatest patience asked for and no other, the estimator taking precedence, and the blessed call has the same flags |
| `ApiCalls.TimedPlan` | fftw-3.3.9/api/apiplan.c:109-136 | With one, calls are made with increasing patience from the estimator to the greatest asked for, as long as they give plans; the plan is that of the last that gave one, and the blessed call has its flags |
| `ApiCalls.FromWisdomOnly` | fftw-3.3.9/api/apiplan.c:102-107 | From wisdom only one call is made, with the flags as they are |
| `ApiPlan.ApiPlannedEnds` | fftw-3.3.9/api/apiplan.c:86-177 | With fuel above rank and bound mkapiplan has an outcome, whatever is stored with flags in order, after all its attempts, patiences and forgetting |
| `ApiPlan.ApiPlannedKeeps` | fftw-3.3.9/api/apiplan.c:166-167 | With strict solvers, and saved wisdom backed by itself, nothing saved is forgotten: what is discarded was not necessary to reconstruct the plan |
| `ApiPlan.UsesAreRight` | fftw-3.3.9/api/apiplan.c:86-177 | Over every life of a program that plans, imports true wisdom, sets thread counts and cleans up: whether there is a plan never depends on the past |
| `ApiPlan.UsesEnd` | fftw-3.3.9/api/apiplan.c:86-177 | Every such life has an outcome |
| `ApiPlan.DhtFlagNeverSet` | fftw-3.3.9/api/mapflags.c:77-166 | For every word of flags the interface sets the flag of the Hartley transforms neither in l nor in u |
| `ApiPlan.UsesTransfer` | fftw-3.3.9/api/apiplan.c:86-177 | Over every life whose recursions are ended by flags that the interface never sets, no saved entry subsumes another, and what is saved is what is read back |
| `ApiPlan.UsesKeep` | fftw-3.3.9/api/apiplan.c:86-177 | With strict solvers and imports of whole exports, nothing saved is ever forgotten but by cleaning up |
| `ApiSaved.PlannedIsSaved` | fftw-3.3.9/api/apiplan.c:145-146 | Whatever true answers are stored, the problem of a plan that was made is answered by a saved plan, for the flags it was made with |
| `ApiSaved.HadFromWisdomOnly` | fftw-3.3.9/api/apiplan.c:102-107 | With strict solvers and backed wisdom, a program that made a plan can have it again from wisdom only |
| `ApiPlanner.SetFlags` | fftw-3.3.9/api/mapflags.c:77-166 | The planner gets exactly these flags |
| `ApiPlanner.MkPlan` | fftw-3.3.9/api/apiplan.c:51-84 | The attempts of mkplan on the planner object end exactly when their function does, with its plan and state |
| `ApiPlanner.PlanPatiently` | fftw-3.3.9/api/apiplan.c:105-136 | The loop over increasing patience does what its function says |
| `ApiPlanner.MkApiPlan` | fftw-3.3.9/api/apiplan.c:86-177 | mkapiplan on the planner object ends exactly when its function does, with its plans and state |
| `HashTable.Table.Reset` | fftw-3.3.9/kernel/planner.c:749-765 | An empty table of prime size again |
| `Planning.Planner.Forget` | fftw-3.3.9/kernel/planner.c:769-783 | The unsaved table is emptied, and on demand the saved one; nothing else changes |
| `PlannerExamples.ReinsertionBreaks` | fftw-3.3.9/kernel/planner.c:671-699 | With an unobjectionable solver, a recalled saved entry is put beside an unsaved one that subsumes it: the asserted precondition of the insertion fails, and the unsaved table has an entry that subsumes another |
| `PlannerExamples.OddSolverBreaks` | fftw-3.3.9/kernel/planner.c:361-369 | With a solver that only much impatience makes applicable, a saved record of infeasibility comes to stand beside a plan it subsumes, and what is read back is not what was saved |
| `PlannerExamples.AskingHasFacts` | fftw-3.3.9/kernel/planner.c:623-747 | Solvers that plan sub-problems are among those the theorem is about |
| `DhtExamples.NoRankOfProblems` | fftw-3.3.9/rdft/dht-r2hc.c:103-117 | For the two solvers that turn real transforms into Hartley transforms and back, no rank of problems alone is lowered by every question |
| `DhtExamples.PairIsFounded` | fftw-3.3.9/rdft/dht-r2hc.c:113-117 | A rank of problem and l is: the flag set on the way back ends the recursion |
| `DhtExamples.PairHasFacts` | fftw-3.3.9/rdft/rdft-dht.c:164-187 | Each is right to make a plan exactly when neither slow solvers nor the way back are forbidden |
| `DhtExamples.PairHasLevels` | fftw-3.3.9/rdft/dht-r2hc.c:113-117 | Every question of the two sets that flag in l and u alike, and the rank depends on no other flag |
| `DhtExamples.PairLives` | fftw-3.3.9/api/apiplan.c:86-177 | Whatever a program does with the two through the interface: it ends, what is saved is what is read back, and after it the real transform can always be planned and the Hartley transform exactly if slow solvers are not forbidden |
| `DhtExamples.DisagreeingBreaks` | fftw-3.3.9/kernel/planner.c:976-989 | A call, which the interface never makes, with such a flag in u and not in l: what a solver asks answers the question being searched, and two saved solutions then subsume one another |
| `Planning.Memo.LookUp` | fftw-3.3.9/kernel/planner.c:239-245 | An answer from the table of saved wisdom if it has one, else from the other; nothing if and only if neither answers |
| `Planning.Memo.Insert` | fftw-3.3.9/kernel/planner.c:389-394 | Updates exactly the table that the blessing selects |
| `Planning.Memo.Restore` | fftw-3.3.9/kernel/planner.c:901-905 | Putting a copy back makes the saved table what it was when copied, and leaves the other alone |
| `Planning.Planner.Remember` | fftw-3.3.9/kernel/planner.c:730-739 | Recorded in the states normal and only, and in no other |
| `Planning.Planner.InvokeSolver` | fftw-3.3.9/kernel/planner.c:477-490 | The dialogue with the solver has an outcome exactly when the function of the run has one, and it is that outcome, down to the slots of both tables; flags and thread count come back as they were |
| `Planning.Planner.Search0` | fftw-3.3.9/kernel/planner.c:518-570 | The loop over the linked list of solvers ends exactly when the function over their order does, with its plan, solver and state |
| `Planning.Planner.Relax` | fftw-3.3.9/kernel/planner.c:593-603 | One entry of the relaxation table: impatience drops the flag of that entry if l does not demand it, and a new search is made only if it changed, which leaves the function over the schedule where it was |
| `Planning.Planner.RelaxAll` | fftw-3.3.9/kernel/planner.c:579-603 | The loop over the table stops at the first plan, having gone through exactly the schedule of the entries so far |
| `Planning.Planner.Search` | fftw-3.3.9/kernel/planner.c:572-615 | The loop and the last attempt at l end exactly when the function over the whole schedule does, with its plan, solver, impatience and state |
| `Planning.Planner.Reuse` | fftw-3.3.9/kernel/planner.c:656-699 | Planning from acceptable wisdom refines its function, state for state |
| `Planning.Planner.SearchAndRemember` | fftw-3.3.9/kernel/planner.c:705-741 | Planning by search refines its function, state for state, and what it records can be stored |
| `Planning.Planner.MkPlan` | fftw-3.3.9/kernel/planner.c:623-747 | The planner object is done exactly when the function of the run has an outcome, which is then its plan, its fields and its slots, and is as MkPlanned says; it is done whenever questions lower a rank of problem and l and the fuel is above rank and bound |
| `Planning.Planner.MkPlanF` | fftw-3.3.9/kernel/planner.c:976-989 | The same for the problem under changed flags, which are put back exactly |
| `Planning.Planner.constructor` | fftw-3.3.9/kernel/planner.c:911-950 | A new planner knows nothing and is in the normal state |
| `TextIO.ItemBack` | fftw-3.3.9/kernel/scan.c:122-179 | Every conversion is read back as the value printed, wherever the text that follows stops it |
| `TextIO.FormatBack` | fftw-3.3.9/kernel/scan.c:122-179 | Scanning with a format is the inverse of printing with it, for every format and all values that fit it |
| `Streams.Printer.PutInt` | fftw-3.3.9/kernel/print.c:47-65 | The digits filled in from the back of the buffer and emitted in reverse are the signed decimal form |
| `Streams.Printer.PutULong` | fftw-3.3.9/kernel/print.c:67-85 | The same for an unsigned number in a base up to 16, padded to the width |
| `Streams.Printer.Print` | fftw-3.3.9/kernel/print.c:87-215 | For the conversions wisdom uses, the output grows by exactly the printed form of the values |
| `Streams.Scanner.GetChar` | fftw-3.3.9/kernel/scan.c:48-56 | Delivers the next character of the text still to be read, counting one pushed back |
| `Streams.Scanner.UngetChar` | fftw-3.3.9/kernel/scan.c:60-63 | Pushing back restores the text as it was; never called with a character already pushed back |
| `Streams.Scanner.EatBlanks` | fftw-3.3.9/kernel/scan.c:67-73 | Consumes the leading blanks and nothing else |
| `Streams.Scanner.GetName` | fftw-3.3.9/kernel/scan.c:75-86 | Consumes the name up to a delimiter or the room available, and pushes the delimiter back |
| `Streams.Scanner.GetLong` | fftw-3.3.9/kernel/scan.c:88-114 | Reads sign and digits, reports whether there was any digit, and pushes back what follows |
| `Streams.Scanner.Scan` | fftw-3.3.9/kernel/scan.c:122-179 | The loop over the format reads what the specification of reading says, success and failure alike, and leaves the same text unread |
| `WisdomText.LineBack` | fftw-3.3.9/kernel/planner.c:867-871 | An exported line is read back as the values printed |
| `WisdomText.MeaningBack` | fftw-3.3.9/kernel/planner.c:873-892 | The values of a line mean the entry they were printed for: solver looked up by name and number, or the mark of infeasibility |
| `WisdomText.HeaderBack` | fftw-3.3.9/kernel/planner.c:842-852 | The header with the configuration signature is read back |
| `WisdomText.LinesBack` | fftw-3.3.9/kernel/planner.c:863-896 | A list of lines up to the closing parenthesis is read back as the list of entries |
| `WisdomText.WisdomBack` | fftw-3.3.9/kernel/planner.c:790-906 | Reading the text of any list of entries, under the same configuration, accepts it and gives back the list |
| `WisdomFormat.LineText` | fftw-3.3.9/kernel/planner.c:801-823 | A line letter by letter: the registered name and number, or TIMEOUT 0; l, u and the time limit in hexadecimal; the four words of the key with eight digits each |
| `WisdomFormat.HeaderText` | fftw-3.3.9/kernel/planner.c:797-799 | The header letter by letter |
| `WisdomFormat.DigitsMean` | fftw-3.3.9/kernel/print.c:47-85 | Digits are written most significant first, in small letters, without zeros in front |
| `WisdomFormat.LineMeans` | fftw-3.3.9/kernel/planner.c:873-892 | What the fields of a line mean, when a line is unacceptable, and when the program stops |
| `WisdomFormat.OtherConfiguration` | fftw-3.3.9/kernel/planner.c:842-851 | Wisdom of another configuration is refused |
| `WisdomFormat.NameTaken` | fftw-3.3.9/kernel/planner.c:40 | A name is taken up to 64 characters, as far as no blank or parenthesis comes |
| `WisdomFormat.NumbersTaken` | fftw-3.3.9/kernel/scan.c:88-120 | Digits of either case and signs of either kind are taken; a sign alone is no number |
| `Wisdom.Export` | fftw-3.3.9/kernel/planner.c:790-826 | Writes the saved entries of the table, in slot order, as wisdom text, and changes nothing |
| `Wisdom.Import` | fftw-3.3.9/kernel/planner.c:830-906 | The outcome is determined by the text; if it is rejected at any point the saved table is exactly as before, slot by slot; if accepted, the entries not already answered have been added in order; the other table never changes |
| `Wisdom.LearnAll` | fftw-3.3.9/kernel/planner.c:884-896 | A planner with empty tables learns exactly the entries it reads if none subsumes another |
| `Wisdom.LearnedAntichain` | fftw-3.3.9/kernel/planner.c:894-895 | Importing never makes one saved entry subsume another |
| `Wisdom.LearnedAnswers` | fftw-3.3.9/kernel/planner.c:894-895 | Each entry read can be answered at once after it was read |
| `Wisdom.KnownTeachNothing` | fftw-3.3.9/kernel/planner.c:894-895 | Lines that are answered already teach nothing |
| `Wisdom.LearnedStorable` | fftw-3.3.9/kernel/planner.c:884-896 | After each line every stored answer has its l within its u, if and only if each line whose own flags are out of order is one that something stored answers already |
| `Wisdom.LinesStorable` | fftw-3.3.9/kernel/planner.c:866-892 | Whatever text is read, a line accepted names a registered solver and has no time limit beside one: only its l may fail to lie within its u |
| `Wisdom.Interpret` | fftw-3.3.9/kernel/planner.c:873-892 | What one line means, its solver looked up by name and number, or that it is unacceptable or too large |
| `Wisdom.WisdomRoundTrip` | fftw-3.3.9/kernel/planner.c:790-906 | The text saved from any table reads as its entries, and teaches an empty planner with the same uniquely named solvers exactly these if and only if none of them subsumes another |
| `Wisdom.Transfer` | fftw-3.3.9/kernel/planner.c:790-906 | Export followed by import into an empty planner always succeeds, and reproduces the saved table if and only if its entries are pairwise non-subsuming |
| `Tiling.TilesPartition` | fftw-3.3.9/kernel/tile2d.c:24-47 | The tiles cover the rectangle, do not overlap, and have no side longer than the tile size |
| `Tiling.Tile2d` | fftw-3.3.9/kernel/tile2d.c:24-47 | The recursion with its tail loop ends and hands over exactly these tiles, in order |
| `Tiling.ComputeTileSize` | fftw-3.3.9/kernel/tile2d.c:49-53 | The side is the integer square root of the number of vectors each tile may hold |
| `Tiling.TileFitsBuffer` | fftw-3.3.9/kernel/tile2d.c:49-53 | A tile of that side fits half the cache, and the side is positive if and only if the vector length is at most 512 |
| `Copy2d.Copy` | fftw-3.3.9/kernel/cpy2d.c:36-105 | Every source block lands at its destination place, and nothing else changes |
| `Copy2d.CopyInput` | fftw-3.3.9/kernel/cpy2d.c:108-117 | The loop order chosen by the input strides makes no difference to the result |
| `Copy2d.CopyOutput` | fftw-3.3.9/kernel/cpy2d.c:120-129 | Nor does the order chosen by the output strides |
| `Copy2d.DoTile` | fftw-3.3.9/kernel/cpy2d.c:139-147 | Copies exactly the blocks of one tile |
| `Copy2d.DoTileBuf` | fftw-3.3.9/kernel/cpy2d.c:149-166 | Copying a tile by way of a packed buffer copies the same blocks |
| `Copy2d.CopyTiled` | fftw-3.3.9/kernel/cpy2d.c:169-207 | The tiled copy, buffered or not, leaves what the double loop leaves |
| `Blocks.PackedSound` | fftw-3.3.9/kernel/cpy2d.c:149-166 | The packed layout of a tile in the buffer keeps all its blocks apart |
| `Transpose.Simple` | fftw-3.3.9/kernel/transpose.c:24-66 | The double loop exchanges every block below the diagonal with its mirror image and touches nothing else |
| `Transpose.DoTile` | fftw-3.3.9/kernel/transpose.c:74-118 | Exchanges exactly the blocks of the tile with their mirror images |
| `Transpose.CopiesSwap` | fftw-3.3.9/kernel/transpose.c:120-143 | Copying the mirror image here, and what was here to the mirror image, is the exchange |
| `Transpose.DoTileBuf` | fftw-3.3.9/kernel/transpose.c:120-143 | Going through the two buffers exchanges the same blocks |
| `Transpose.SubSwap` | fftw-3.3.9/kernel/transpose.c:145-158 | An exchange inside a square along the diagonal is an exchange in the whole, shifted |
| `Transpose.TransposeRec` | fftw-3.3.9/kernel/transpose.c:145-158 | The recursion, advancing base and size, exchanges every block below the diagonal once, and ends |
| `Transpose.Tiled` | fftw-3.3.9/kernel/transpose.c:160-190 | For every n, both tiled forms leave what the simple double loop leaves |
| `Transpose.TransposeIsExact` | fftw-3.3.9/kernel/transpose.c:24-66 | That result is the transpose, block by block, and it is the only array that satisfies the contract |
| `Tensor.CountedIsAddressed` | fftw-3.3.9/kernel/tensor7.c:70-88 | Offsets counted by the recursion over the dimensions are addressed by some index vector |
| `Tensor.AddressedIsCounted` | fftw-3.3.9/kernel/tensor7.c:70-88 | And offsets addressed by an index vector are counted |
| `Tensor.DropOne` | fftw-3.3.9/kernel/tensor7.c:70-88 | A dimension of one step changes nothing in what is addressed, nor how often |
| `Tensor.Reordered` | fftw-3.3.9/kernel/tensor7.c:90-104 | Nor does the order of the dimensions |
| `Tensor.MergeFirst` | fftw-3.3.9/kernel/tensor7.c:106-111 | Two dimensions chained by their strides address what the merged one addresses |
| `Tensor.SortExists` | fftw-3.3.9/kernel/tensor7.c:90-104 | A sorting routine as the canonical order needs it exists, although the order has ties |
| `Tensor.DimCmpOrder` | fftw-3.3.9/kernel/tensor7.c:32-52 | The comparison is a total preorder that cannot tell dimensions apart exactly when they agree up to the signs of their strides |
| `Tensor.SortedPrecedes` | fftw-3.3.9/kernel/tensor7.c:41-51 | In canonical order the shorter stride of a dimension descends; at equal ones the input stride, then the output stride, descend, and then the number of steps ascends |
| `TensorCompress.ReallyCompress` | fftw-3.3.9/kernel/tensor7.c:70-88 | Counting, allocating and copying leave exactly the dimensions that are not of one step, in order |
| `TensorCompress.Compress` | fftw-3.3.9/kernel/tensor7.c:99-104 | Same pairs of input and output offsets, each as often; no dimension of one step; canonical order |
| `TensorCompress.KeptOccurs` | fftw-3.3.9/kernel/tensor7.c:70-92 | Each dimension of other than one step is kept as often as it occurs, and no dimension of one step is |
| `TensorCompress.MergeRuns` | fftw-3.3.9/kernel/tensor7.c:137-160 | The two loops over runs of chained dimensions leave what is addressed unchanged, and merge whatever can be merged: afterwards no dimension continues its neighbour |
| `TensorCompress.ApartIs` | fftw-3.3.9/kernel/tensor7.c:108-111 | No neighbour continues another: none has both strides of the next times its number of steps |
| `TensorCompress.CompressContiguous` | fftw-3.3.9/kernel/tensor7.c:116-167 | Same pairs of offsets, each as often, for every tensor; rank minus infinity exactly when some dimension is empty; canonical order; of the dimensions next to each other by stride none continues the other |
| `TensorCompress.FormCounts` | fftw-3.3.9/kernel/tensor7.c:116-167 | The compressed form of a tensor addresses the same pairs of offsets, each as often |
| `TensorLocations.InplaceLocations` | fftw-3.3.9/kernel/tensor7.c:201-215 | A yes means that input and output locations coincide, as sets and counted; for exact tensors it is given if and only if they coincide; always when the dimensions agree up to a permutation of their strides, and when every dimension advances equally in input and output |
| `TensorLocations.ExactWhenSpread` | fftw-3.3.9/kernel/tensor7.c:201-215 | When some dimension is empty, or when among the dimensions of more than one step all strides are positive and of any two one stride is at least the whole extent of the other, in the input and in the output, the answer is yes if and only if the sets of locations coincide |
| `TensorLocations.PermutedSame` | fftw-3.3.9/kernel/tensor7.c:201-215 | When, among the dimensions of more than one step, different strides differ in length and the pairs of size and input stride are a rearrangement of the pairs of size and output stride, the answer is yes |
| `TensorLocations.SameOffsetsSameDims` | fftw-3.3.9/kernel/tensor7.c:201-215 | Two nested tensors none of whose dimensions continues its neighbour address the same offsets only if they are equal |
| `TensorLocations.TransposedSame` | fftw-3.3.9/kernel/tensor7.c:201-215 | For every in-place transposition of n by m items the answer is yes |
| `TensorLocations.SameLocationsOtherForm` | fftw-3.3.9/kernel/tensor7.c:201-215 | A tensor whose input and output locations coincide, each taken once, and whose answer is no |
| `TensorLocations.EqualSetsUnequalCounts` | fftw-3.3.9/kernel/tensor7.c:201-215 | A tensor whose location sets coincide although the counts differ, and whose answer is no |
| `TensorCompress.TensorSize` | fftw-3.3.9/kernel/tensor.c:62-73 | The product of the sizes |
| `TwiddleProgram.EqualInstr` | fftw-3.3.9/kernel/twiddle.c:41-65 | True exactly when the programs agree instruction by instruction in what they write |
| `TwiddleProgram.Twlen0` | fftw-3.3.9/kernel/twiddle.c:90-116 | The length of a program is the number of values one row of it writes |
| `TwiddleProgram.RowsLength` | fftw-3.3.9/kernel/twiddle.c:124-195 | The rows of a program fill exactly the length times the number of rows |
| `TwiddleProgram.RowsPrefix` | fftw-3.3.9/kernel/twiddle.c:67-76 | A shorter table is a prefix of a longer one |
| `TwiddleProgram.RowsSame` | fftw-3.3.9/kernel/twiddle.c:41-65 | Equal programs write equal tables |
| `TwiddleProgram.Compute` | fftw-3.3.9/kernel/twiddle.c:124-195 | The values written are exactly the rows of the program and exactly fill the space allocated; and in the row of every t, after the values of the instructions before it, each instruction has the cosine, the sine or both of j i, or the roots of a full or half row, where j is t vl + v |
| `TwiddleProgram.RowsRead` | fftw-3.3.9/kernel/twiddle.c:124-196 | So in every table of rows: what is read back at an instruction of a row is what the instruction stands for |
| `TwiddleLayout.FullLayout` | fftw-3.3.9/kernel/twiddle.c:139-151 | A full table holds, at the pair that the twiddle step reads, the root it wants |
| `TwiddleLayout.HalfLayout` | fftw-3.3.9/kernel/twiddle.c:153-161 | A half table holds, at the pair that the odd-size solver reads, the root with index reduced modulo n |
| `TwiddleLayout.ServedFull` | fftw-3.3.9/kernel/twiddle.c:197-222 | Whatever the cache hands out for TW_FULL, which begins with the rows asked for, is a table that the decimation steps may read |
| `TwiddleLayout.ServedHalf` | fftw-3.3.9/kernel/twiddle.c:197-222 | Whatever the cache hands out for TW_HALF is a table that the odd-size solver may read |
| `TwiddleCache.Cache.OkTwid` | fftw-3.3.9/kernel/twiddle.c:67-76 | Accepts an entry exactly when it serves the request |
| `TwiddleCache.Cache.HitServes` | fftw-3.3.9/kernel/twiddle.c:67-76 | The table of an accepted entry begins with what a fresh computation would give |
| `TwiddleCache.Cache.Lookup` | fftw-3.3.9/kernel/twiddle.c:78-88 | Finds an entry that serves the request if anybody holds one, and nothing otherwise |
| `TwiddleCache.Cache.Wake` | fftw-3.3.9/kernel/twiddle.c:197-222 | The caller gets a table that begins with exactly what it asked for; it is a shared one exactly when some held entry serves; an entry is listed, once, exactly when its reference count, the number of its holders, is positive |
| `TwiddleCache.Cache.Sleep` | fftw-3.3.9/kernel/twiddle.c:224-242 | Giving a table back keeps that invariant; the entry leaves its list exactly when nobody holds it any longer |
| `TwiddleCache.Cache.Remove` | fftw-3.3.9/kernel/twiddle.c:230-239 | The search of the destructor always finds its entry, and takes out that entry only |
| `Trig.RealCexp` | fftw-3.3.9/kernel/trig.c:57-80 | Reduction to an eighth of a turn looks up only angles in that range and returns the root asked for, for all arguments of either sign |
| `Trig.ChooseShift` | fftw-3.3.9/kernel/trig.c:82-90 | Ends with the shift whose power of two p satisfies n < p^2 <= 4 n |
| `Trig.TwoTables.constructor` | fftw-3.3.9/kernel/trig.c:169-227 | The two tables have sizes near the square root of n and hold the roots they stand for |
| `Trig.TwoTables.Cexp` | fftw-3.3.9/kernel/trig.c:92-107 | One product of two entries, always within the tables, is the root asked for |
| `MpiBlock.DefaultBlockIsLeast` | fftw-3.3.9/mpi/block.c:39-42 | The default block is the least block size that needs no more than the processes there are |
| `MpiBlock.BlocksMakeUp` | fftw-3.3.9/mpi/block.c:46-50 | The blocks of a dimension add up to the dimension |
| `MpiBlock.BlockOfItem` | fftw-3.3.9/mpi/block.c:46-50 | Each item lies in exactly one block |
| `MpiBlock.NumBlocksTotal` | fftw-3.3.9/mpi/block.c:57-68 | The loop computes the number of blocks of the grid |
| `MpiBlock.CoordsThenRank` | fftw-3.3.9/mpi/block.c:79-89 | The coordinates of a process that is not idle are valid, and their rank is the process |
| `MpiBlock.RankThenCoords` | fftw-3.3.9/mpi/block.c:79-89 | Every block of the grid is that of exactly one process that is not idle |
| `MpiBlock.BlockCoords` | fftw-3.3.9/mpi/block.c:79-89 | The loop from the last dimension to the first writes these coordinates |
| `MpiBlock.TilesExactly` | fftw-3.3.9/mpi/api.c:223-238 | Every global index lies in the box of exactly one process that is not idle |
| `MpiBlock.LocalSize` | fftw-3.3.9/mpi/api.c:223-238 | The starts and extents describe exactly that box, and an idle process has nothing |
| `MpiBlock.TotalBlock` | fftw-3.3.9/mpi/block.c:91-105 | What a process holds, nothing if it is idle |
| `MpiBlock.HeldMakeUp` | fftw-3.3.9/mpi/block.c:91-105 | Summed over the processes this is the product of the dimensions |
| `MpiBlock.ChooseBlocks` | fftw-3.3.9/mpi/api.c:183-196 | The greedy division of the dimensions that are not fixed; either it stays within the processes or the fixed blocks already exceed them and nothing is divided |
| `MpiBlock.DefaultSizes` | fftw-3.3.9/mpi/api.c:165-208 | Keeps the blocks the user fixed; divides the other dimensions first to last, each by the least block that the processes left over can hold; the table returned has the full last dimension and canonical blocks; counted with the halved last dimension it needs no more processes than there are, unless the fixed blocks alone already do |
| `MpiBlock.RestoredCount` | fftw-3.3.9/mpi/api.c:165-208 | Counted with the full last dimension the blocks of a halved transform fit the processes if and only if the default block of the full dimension, over the processes left for it, is at most that of the halved one |
| `MpiBlock.RestoredExceeds` | fftw-3.3.9/mpi/api.c:165-208 | For sizes 4 by 8 and two processes they do not: two blocks counted with the halved dimension, four with the full one |
| `Multiprecision.Pack` | fftw-3.3.9/libbench2/mp.c:79-104 | The result is normalised and keeps the LEN leading digits, dropping only lower ones |
| `Multiprecision.PackedNormal` | fftw-3.3.9/libbench2/mp.c:79-104 | Whatever is packed is a number, zero has one form, and it is normal if and only if it is zero or its exponent is above that of zero |
| `Multiprecision.ProductNormal` | fftw-3.3.9/libbench2/mp.c:190-213 | A product of normal numbers is zero exactly when a factor is, has an exponent at most one below the sum, and is normal if and only if that exponent is above that of zero |
| `Multiprecision.CombinedNormal` | fftw-3.3.9/libbench2/mp.c:128-172 | A sum of normal numbers is normal; a difference is unless cancellation brings its exponent down to that of zero, and it never falls by as many digits as a number has |
| `Multiprecision.AbsCmp` | fftw-3.3.9/libbench2/mp.c:108-120 | Orders by exponent and then by mantissa |
| `Multiprecision.LargerExponent` | fftw-3.3.9/libbench2/mp.c:108-120 | For normalised numbers the larger exponent is the larger magnitude |
| `Multiprecision.AddMag0` | fftw-3.3.9/libbench2/mp.c:128-146 | For abs(a) >= abs(b) the accumulator fits 32 bits and the digits packed are the exact sum of a and b, b truncated to the digits of a |
| `Multiprecision.HiSignedMeans` | fftw-3.3.9/libbench2/mp.c:154-172 | The shift of the unsigned accumulator with its sign bits put back is the signed shift of the borrow, for an accumulator of any width that is a multiple of 32 bits |
| `Multiprecision.SubMag0` | fftw-3.3.9/libbench2/mp.c:154-172 | For abs(a) >= abs(b) no borrow is left and the digits packed are the exact difference, b truncated likewise |
| `Multiprecision.ProductFits` | fftw-3.3.9/libbench2/mp.c:190-213 | The accumulator of the product never exceeds 2^32 - 1 |
| `Multiprecision.Mul` | fftw-3.3.9/libbench2/mp.c:190-213 | The digits packed are the exact product of the mantissas; exponents add, signs multiply |
| `Multiprecision.ProductWithinUnit` | fftw-3.3.9/libbench2/mp.c:190-213 | A product is off by less than one unit in the last place |
| `Multiprecision.AddMag` | fftw-3.3.9/libbench2/mp.c:148-151 | The operands are exchanged where needed so that the larger magnitude comes first |
| `Multiprecision.SubMag` | fftw-3.3.9/libbench2/mp.c:174-177 | The same for a difference, the sign following the larger |
| `Multiprecision.Add` | fftw-3.3.9/libbench2/mp.c:180-183 | Magnitudes are added for equal signs and subtracted for different ones |
| `Multiprecision.Sub` | fftw-3.3.9/libbench2/mp.c:185-188 | The sum of a and the opposite of b |
| `Multiprecision.SumWithinUnit` | fftw-3.3.9/libbench2/mp.c:128-146 | A sum of magnitudes is off by less than one unit in the last place, however far apart the exponents |
| `BitReversal.Increment` | fftw-3.3.9/libbench2/mp.c:429-442 | Counting up with the bits reversed: the loop clears leading ones and sets the first zero |
| `BitReversal.ReversedTwice` | fftw-3.3.9/libbench2/mp.c:429-442 | Reversal is its own inverse |
| `BitReversal.BitRev` | fftw-3.3.9/libbench2/mp.c:429-442 | For every power of two, each pair of cells ends up at the place with its index bits reversed, and each exchange is made once |

## Left out

- Floating point: numbers are exact complex numbers over the reals; rounding, accuracy of sines and cosines, SIMD,
  alignment and fused operations are not modelled.
- Roots of unity are functions that satisfy the laws of a primitive root (`Fourier.IsRoot`); the model exhibits them for
  size 4 (`Fourier.QuarterIsRoot`, `Trig.QuarterStepsExist`) and assumes them, as hypotheses of the lemmas, for the
  others, since no sine is defined in the model.
- Split arrays of real and imaginary parts are one array of complex cells; the interleaved and split layouts, and
  aliasing between the two parts, are not distinguished.
- Child plans are correct by contract and, in the model, compute the naive transform; the code generator's fixed-size
  codelets are not part of this model.
- The decimation `DECDIF+TRANSPOSE` of `dft/ct.c`, which fixed-size codelets alone implement.
- The cache of Rader's tables shared between plans (`rader_tl`).
- The `applicable` functions: their heuristics decide speed, not meaning.
- Planner: timeouts, timers and cost measurement (a plan carries an abstract cost, and no run has a time limit), hooks,
  statistics, destruction of plans. MD5 is an unspecified function from problems and thread counts to keys.
- Planning.Planner.MkPlan: a solver is an arbitrary interaction (plan a sub-problem with changed flags, or return), so a
  run need not end; the fuel bounds its depth and length. More fuel changes no outcome, and where questions lower a rank
  there is enough (`PlannerRuns.MoreFuel`, `PlannerEnds.EnoughFuel`); what a run does before it exhausts its fuel is not
  stated.
- PlannerTruth.RunsRight: whether a solver returns a plan may depend on the problem, the thread count, l and whether the
  sub-problems it asks about are feasible, but not on u, nor on which plans it is given.
- PlannerTidy.RunsTidy: the rank of problem and l can be read from signatures, which is so for every rank when
  signatures tell problems and thread counts apart (`PlannerBacked.RanksFromSignatures`). The unsaved table is not
  claimed to be an antichain (`PlannerExamples.ReinsertionBreaks`).
- DhtExamples.PairLives: the two solvers stand for the many with which the program registers them; of the problems that
  they apply to, one real transform and one Hartley transform of the same data are modelled.
- PlannerFirm.RunsFirm: signatures tell problems and thread counts apart, and what a solver asks depends on which
  answers were plans but not on the plans; a collision of MD5 signatures is not modelled.
- ApiPlan.ApiPlannedRight: hooks around planning, waking and destruction of plans are left out; the time limit appears
  as the number in the flags and as the choice of the first patience, but no call times out.
- Registry.Solvers.Register: the descriptor array is a sequence; its growth by reallocation is not modelled.
- HashTable.Table.Lookup: slot indices are unbounded integers; in 32 bits the walk is the same while the table has at
  most 2^31 slots (`Probing.AddModWraps`).
- Streams.Scanner.GetLong: numbers are unbounded; the overflow of a C `long` while reading is not modelled.
- Streams.Printer.Print: the conversions for plans, problems, tensors, floating point and indentation, which wisdom does
  not use, are left out.
- Primes.FirstDivisor: numbers are unbounded; it and the routines that use it say exactly when 64 bits are enough, and
  beyond that the program's behaviour is not modelled.
- Primes.FactorsInto: numbers are unbounded; the loop only divides, so nothing can overflow.
- Tiling.Tile2d: requires a positive tile size; with size 0, which `compute_tilesz` gives exactly when the vector length
  exceeds 512 (`Tiling.TileFitsBuffer`), the program would recurse without end. `Copy2d.CopyTiled` and `Transpose.Tiled`
  therefore ask for vector lengths of at most 512, the latter only when there is something to exchange.
- Transpose.Tiled: asks that the n by n blocks do not overlap.
- Copies of vectors of length 1 and 2 are unrolled in the program; the model has the one loop they unroll.
- The C library's sort is a parameter: any function that delivers a sorted rearrangement, the same for the same input.
- `tensor_split`, which only copies dimensions, and memory management throughout.
- MpiBlock.DefaultSizes: dimensions are at least 1; communication between processes is not modelled.
- Multiprecision.Pack: exponents are unbounded; overflow of the 16-bit exponent is not modelled, and normal form is
  stated with the exponent's lower limit (`Multiprecision.ProductNormal`, `Multiprecision.CombinedNormal`). `inv`, the
  conversions from and to floating point, and the series for sine and cosine are left out.
- Trig.RealCexp: the quarter of a turn is reached in integral steps of the root function; the sines themselves are
  given.
- `kernel/twiddle.c` expands its table under a wakefulness and a generator chosen elsewhere; the generator is a function
  from both to roots.
