# Verified models of the consensus node and its elliptic-curve arithmetic

This Dafny project models the parts of the repository whose correctness is hardest to see from the code, and proves them.
`dafny verify dfyconfig.toml` checks everything. Each file is one module.

**Curve arithmetic (secp256k1, the portable 64-bit code).**

- *Modular inversion* (`Divsteps`, `DivstepsBatch`, `DivstepsEnd`, `DivstepsCount`, `Modinv64`, `ModularInverse`). The reference is one divstep, as the paper
  defines it. The batches of 59 and 62 steps on wrapping 64-bit words are shown to return exactly that many steps; the limb
  updates apply the matrix exactly, with every 64- and 128-bit value in range; the loops keep d x = f and e x = g modulo M and
  the common divisors of f and g. So once g is 0, the result is the inverse, in [0, M). That 590 divsteps of the constant-time
  routine and 724 of the variable-time one bring g to 0 for every modulus of 256 bits is proved by a polygon for each: every way
  through a swap shrinks it at a fixed rate per divstep, until no pair with g other than 0 is left inside. So ten rounds of 59 are
  always enough, and the other loop ends within twelve rounds of 62. For moduli of any size some number of divsteps suffices: no
  pair (f, g) comes back after a swap, and there are finitely many in range.
- *Field and scalar limbs* (`FieldMul`, `Field`, `FieldInverse`, `Scalar`, `ScalarMul`, `ScalarShift`, `ScalarInverse`). Limbs
  are integers with their bounds, so wrap-around and carries are explicit; results are stated as residues modulo p or n.
- *Moduli* (`Primes`, `PrimeCriteria`, `PowerChains`, `PrimeModuli`, `CubeRoots`). Both moduli are prime: a certificate of powers,
  whose every line is checked by one remainder, meets Pocklington's criterion or that of Brillhart, Lehmer and Selfridge, which are
  proved from Fermat's theorem. So the inversions invert everything but 0, and -7 has no cube root in the field.
- *Recoding* (`Recoding`, `RecodingFixed`, `RecodingConst`, `SplitLambda`). Digits have the promised shape and add up to the scalar.
- *Multiplication* (`Groups`, `Curves`, `Strauss`, `Pippenger`, `Scratch`, `MultiExp`, `EcmultGen`, `EcmultConst`). The group is any
  commutative group whose elements have order dividing n, with an endomorphism that multiplies by lambda; the points of the curve
  are shown to be one, and so are the integers modulo n. All algorithms are shown to return the plain sum of multiples. The scratch memory of the batches is a
  stack of rounded byte counts, and with the alignments in use no batch of the size computed for it is refused its memory.
- *Points* (`Points`, `PointsAgree`, `PointsSum`, `PointsClosed`, `BatchAffine`). Coordinates are integers modulo p with the
  magnitude of their limbs. The in-place addition sequences are shown to compute their formulas within the allowed magnitudes, the formulas to be the chord and tangent law, and whole runs of
  additions to stay on the curve and to agree, whichever routine makes each step.
- *The group* (`PointsLaw`, `PointsGroup`, `PointsJoin`, `PointsEndo`, `PointsCount`, `CyclicGroups`, `GeneratorChain`, `SecpCurve`).
  The chord and tangent law is associative, and the routines compute in the group it makes of the points. A chain of 199 additions and doublings
  shows that a1 G + b1 phi(G) is infinity for the short vector (a1, b1) with which scalars are split; its image under phi is the second
  one, so n G is infinity and phi(G) is lambda G. As there are at most 2 p + 1 points, less than 3 n, and none of order two, G generates
  them all: the curve has exactly n points, and phi multiplies each by lambda.

**Reliable broadcast (`fin/rbc`).** `RbcNode` holds what each handler and the main thread of a leader and a follower do, as
functions of the state, and classes that keep the program's own variables and refine those functions. `RbcProtocol` builds a
system of 3f + 1 nodes out of them, with at most f arbitrary ones, and proves agreement over all runs. `RbcValidity` adds a correct
leader; `RbcTotality` and `RbcDelivery` let nodes crash and prove delivery in every run that has come to rest, as every run can.
`RbcRest` says what has been delivered at rest when faulty nodes lie, and `RbcStranded` gives the run with two of them that shows
why not more. `RbcBytes` says how far agreement reaches beyond the root, and `RbcWitness` gives runs with one faulty node. The erasure
code is not part of this model. Taken for granted: any f + 1 shards of a codeword determine it, its shards have one size and the
input lies in the first f + 1 of them in order, with whatever bytes fill them up, a root determines its
shards (shown satisfiable by `RbcDelivery.RepetitionValid` and `RbcDelivery.SetupExists`),
messages of correct nodes are not forged, each node's ECHO and READY reach a handler at most once, and VAL comes from the leader only.

**Block buffer and commit (`order`).** `OrderBuffer` treats one lane as a run of arrivals and cuts and shows exactly when it has
committed every height once and in order. `OrderGuards` holds the checks on proposals and outputs. `OrderState` joins arrivals,
outputs and cuts of all lanes into runs of the whole module; its class keeps the arrays and is shown to be in the state of such a run.

**Encodings.** `Der` (ITU-T X.690, sections 8.1.3 and 8.3) and `Sha256` (the padding of section 5.1.1 of FIPS 180-4, with the
compression function left abstract).

`Integers` holds powers of two and congruences, `BigEndian` byte strings as numbers, `Wrappers` the option type.

## What the code does that one might not expect

The models follow the code in all of these; the lemmas named say what holds instead.

- Both broadcast roles ignore the result of the Merkle path check (`fin/rbc/follower.go:233-236`, `fin/rbc/leader.go:302`). One
  ECHO with a wrong shard among the f + 1 that complete a root halts a correct follower: `RbcValidity.DecidingEcho` says exactly
  when, and `RbcWitness.OneShardHalts` is such a run. With right shards and lengths none halts: `RbcBytes.GoodEchoesKeepAlive`.
- The length of the input is not bound to the root, and the length used is that of the ECHO which completes f + 1
  (`fin/rbc/follower.go:256`). Agreement is on the root; of two outputs one is a beginning of the other
  (`RbcBytes.BytesAgreement`), and they are the same exactly when the ECHO after the first f claimed the same length to both:
  `RbcBytes.SameBytesExactly`. `RbcWitness.BytesDiffer` is a run in which they differ.
- A VAL without a path, which a faulty leader can send, halts a follower (`fin/rbc/follower.go:158-193`), and it has no output ever
  after: `RbcProtocol.PathlessVal`.
- A follower that is done answers no VAL any more. So with two faulty nodes, although leader and shards are right, three followers
  can be done before they echo and leave a fourth without enough shards for good: `RbcStranded.TwoFaultsStrand`. At rest a correct
  follower has output exactly when it received f + 1 ECHO messages for the leader's root (`RbcRest.RestExactly`), as all have if
  f + 1 correct nodes echoed (`RbcRest.EnoughEchoes`) and always with one fault (`RbcRest.OneFaultDelivers`).
- The leader compares counts with 2f after counting, so with f = 0 it never outputs: `RbcDelivery.LonelyLeaderNeverOutputs`.
- The cut of the block buffer only counts blocks (`order/start_order.go:755-769`). A lane has committed 0, 1, 2, ... each once
  exactly when every cut found no committed height in the buffer and none of its own missing: `OrderBuffer.CommittedExact`.
  `OrderBuffer.RepetitionSlips` and `OrderBuffer.GapSlips` are runs in which it commits others.
- A cut that takes nothing divides by zero, and a last commit that goes back is a negative slice bound; both end the node:
  `OrderState.OutputHalts`. For broadcasts with certificates the guards of `order/input.go:276-375` and `:116-164` keep heights
  from going back and demand progress, so only the first output, which they do not check, can halt the node:
  `OrderState.OnlyTheFirstHalts`, `OrderState.UncheckedOutputHalts`. For broadcasts without them (`RBC`, `WRBC`) the guard of
  `order/input.go:377-415` only keeps heights from being ahead of what was received, and any later output can:
  `OrderState.ArrivedCanHalt`.
- The first of these guards compares heights by a wrapping 32-bit difference. What it accepts advances exactly when no height is more
  than 2^31 below the one before it (`OrderGuards.AcceptedAdvances`), that is, after heights from -1 up, when the new ones are from -1
  up (`OrderGuards.ProperAdvances`). `OrderGuards.AcceptedGoesBack` is an accepted output that goes back.
- The test at `order/start_order.go:582` compares a pointer with a struct and is always passed.
- The representation check admits field elements of magnitude 2048, for which the first carry of a normalization can leave 64
  bits; up to 2047 it cannot: `Field.LargestMagnitude`.
- The search for the largest Pippenger batch can end at window 8, which no number of points uses. Nothing is lost by it, whatever
  the sizes of the structures: `MultiExp.Sizes.WindowEightIsNoLoss`.
- A Strauss batch makes seven allocations (`ecmult_impl.h:594-600`) although the size of a batch sets six roundings aside
  (`STRAUSS_SCRATCH_OBJECTS`). It is refused its memory only where the alignment neither divides 16 nor the size of a point:
  `MultiExp.Sizes.StraussFits`, `MultiExp.StraussMayNotFit`, `MultiExp.BuildIsAligned`.

## Model

| member | source | states |
|---|---|---|
| `Divsteps.RunTracks` | secp256k1-schnorrsig-batch-verify/src/modinv64_impl.h:139-158 | after any number of divsteps, in either encoding of the counter, the transition matrix times the two inputs is 2^n times the current pair, its determinant is 2^n, and both row norms are at most 2^n |
| `Divsteps.RunLocal` | secp256k1-schnorrsig-batch-verify/src/modinv64_impl.h:216-225 | the counter and the matrix after n divsteps depend only on the n bottom bits of f and g |
| `Divsteps.SkipZeros` | secp256k1-schnorrsig-batch-verify/src/modinv64_impl.h:234-241 | z trailing zeros of g may be taken as one shift, whatever the counter |
| `Divsteps.CancelFirst` | secp256k1-schnorrsig-batch-verify/src/modinv64_impl.h:251-282 | adding w f to g in advance, for a w below 2^b that cancels b bottom bits and b at most eta + 1, leaves the outcome of the remaining divsteps unchanged |
| `DivstepsBatch.CancelSix` | secp256k1-schnorrsig-batch-verify/src/modinv64_impl.h:262-266 | f g (f^2 - 2), cut to b of its 6 bottom bits and computed on wrapping words, times f cancels b bits of g, for every odd f |
| `DivstepsBatch.CancelFour` | secp256k1-schnorrsig-batch-verify/src/modinv64_impl.h:272-277 | the 4-bit multiplier built from f + (((f + 1) & 4) << 1), computed on wrapping words, cancels b bits of g, for every odd f |
| `DivstepsBatch.Divsteps62Var` | secp256k1-schnorrsig-batch-verify/src/modinv64_impl.h:226-295 | the batch that skips zeros, swaps and cancels up to six bits on 64-bit words returns exactly the counter and the signed matrix of 62 elementary divsteps, for every counter and every odd f0 |
| `DivstepsBatch.Divsteps59` | secp256k1-schnorrsig-batch-verify/src/modinv64_impl.h:159-214 | the branch-free batch returns the counter of 59 elementary divsteps and eight times their matrix |
| `DivstepsBatch.RunBounds` | secp256k1-schnorrsig-batch-verify/src/modinv64_impl.h:287-294 | product, determinant and norms of the matrix of n divsteps from the identity |
| `Modinv64.UpdateFg` | secp256k1-schnorrsig-batch-verify/src/modinv64_impl.h:430-458 | limbs of f and g become (matrix (f, g)) / 2^62 exactly, every 128-bit accumulator fits, all limbs but the top end in [0, 2^62), limbs past the length are untouched |
| `Modinv64.CorrectedLow` | secp256k1-schnorrsig-batch-verify/src/modinv64_impl.h:333-340 | the correction multiple of the modulus clears the 62 bottom bits and lies within 2^62 below its starting value |
| `Modinv64.DeRange` | secp256k1-schnorrsig-batch-verify/src/modinv64_impl.h:304-330 | the range (-2M, M) of d and e is kept by one update |
| `Modinv64.UpdateDe` | secp256k1-schnorrsig-batch-verify/src/modinv64_impl.h:304-381 | limbs of d and e become (matrix (d, e) + multiples of M) / 2^62, again in (-2M, M), without overflow |
| `Modinv64.Widths` | secp256k1-schnorrsig-batch-verify/src/modinv64_impl.h:430-458 | the ranges checked for words and accumulators are those of signed integers of 64 and 128 bits |
| `ModularInverse.RoundKeeps` | secp256k1-schnorrsig-batch-verify/src/modinv64_impl.h:528-541 | one round of divsteps with the update of d and e keeps d x = f and e x = g modulo M, f odd, and the common divisors of f and g |
| `ModularInverse.Shrink` | secp256k1-schnorrsig-batch-verify/src/modinv64_impl.h:553-564 | dropping the top limb when both are 0 or -1 keeps the values of f and g and all size bounds |
| `ModularInverse.Normalize` | secp256k1-schnorrsig-batch-verify/src/modinv64_impl.h:69-137 | a value in (-2M, M) is brought to [0, M), negated for a negative sign argument, with limbs in [0, 2^62) |
| `Divsteps.RunInRange` | secp256k1-schnorrsig-batch-verify/src/modinv64_impl.h:536-539 | over any number of divsteps f stays in (-M, M], g in (-M, M), and the counter moves by at most one a step |
| `ModularInverse.BetweenBounded` | secp256k1-schnorrsig-batch-verify/src/modinv64_impl.h:536-570 | the checked bounds of f, g and the counter hold between all rounds |
| `ModularInverse.ModInv` | secp256k1-schnorrsig-batch-verify/src/modinv64_impl.h:461-511 | for every input ten rounds bring g to 0; the result is in [0, M) and is the inverse of x up to gcd(x, M), which is the magnitude of the last f, and 0 for x = 0 |
| `ModularInverse.RightExactly` | secp256k1-schnorrsig-batch-verify/src/modinv64_impl.h:492-505 | so the product with x is 1 modulo M if and only if the divsteps end with f = 1 or -1 |
| `DivstepsEnd.NoReturn` | secp256k1-schnorrsig-batch-verify/src/modinv64_impl.h:139-158 | after a run with a swap no pair (f, g) of different magnitudes, g not 0, comes back: one row of the matrix would have to scale up the larger number |
| `DivstepsEnd.SwapComes` | secp256k1-schnorrsig-batch-verify/src/modinv64_impl.h:139-158 | from every state some number of divsteps brings a swap, or g to 0 |
| `DivstepsEnd.ReachesZero` | secp256k1-schnorrsig-batch-verify/src/modinv64_impl.h:514-575 | from every odd modulus and every number below it some number of divsteps brings g to 0, in either encoding of the counter |
| `DivstepsCount.Turn` | secp256k1-schnorrsig-batch-verify/src/modinv64_impl.h:139-158 | e divsteps on even g and a swap send the polygon, and the numbers one can start from, into a smaller polygon, for the least and the largest multiple of g that the divsteps after them can add |
| `DivstepsCount.WholeTurn` | secp256k1-schnorrsig-batch-verify/src/modinv64_impl.h:139-158 | from one moment with the counter at its start to the next, the polygon shrinks by a fixed rate for each of the 2 e + 1 or 2 e + 2 divsteps, for every e |
| `DivstepsCount.StepConfined` | secp256k1-schnorrsig-batch-verify/src/modinv64_impl.h:139-158 | one divstep keeps the pair confined: before a swap its doubled g was in the polygon, after it every pair it can become when the counter is back will be |
| `DivstepsCount.RunConfined` | secp256k1-schnorrsig-batch-verify/src/modinv64_impl.h:139-158 | so does every run of divsteps |
| `DivstepsCount.LastRadius` | secp256k1-schnorrsig-batch-verify/doc/safegcd_implementation.md:405-409 | after 724 or 590 divsteps the polygon that held all 256-bit numbers at the start is at its last scale |
| `DivstepsCount.Ended` | secp256k1-schnorrsig-batch-verify/doc/safegcd_implementation.md:520-523 | at that scale no pair of an odd f and a g other than 0 is left, wherever the counter stands |
| `DivstepsCount.DivstepsSuffice` | secp256k1-schnorrsig-batch-verify/doc/safegcd_implementation.md:405-409 | for every odd modulus of up to 256 bits and every number up to it, 590 divsteps with delta starting at 1/2, or 724 with delta starting at 1, or any more, bring g to 0 |
| `ModularInverse.ModInvVar` | secp256k1-schnorrsig-batch-verify/src/modinv64_impl.h:514-591 | for every input g is 0 after at most twelve rounds of 62 divsteps, as a debug build checks, and the result is in [0, M) and is the inverse of x up to gcd(x, M), and 0 for x = 0 |
| `ModularInverse.CoprimeInverse` | secp256k1-schnorrsig-batch-verify/src/modinv64_impl.h:461-466 | for x coprime to the modulus the result times x is 1 modulo M |
| `PrimeModuli.PIsPrime` | secp256k1-schnorrsig-batch-verify/sage/secp256k1_params.sage:25 | the modulus p of the field is prime |
| `PrimeModuli.NIsPrime` | secp256k1-schnorrsig-batch-verify/sage/secp256k1_params.sage:26 | the modulus n of the scalars is prime |
| `FieldInverse.ModInfoIsP` | secp256k1-schnorrsig-batch-verify/src/field_5x52_impl.h:543-546 | the stored modulus limbs denote p and the stored constant inverts the lowest limb modulo 2^62 |
| `FieldInverse.RegroupRoundTrip` | secp256k1-schnorrsig-batch-verify/src/field_5x52_impl.h:502-541 | 52-bit to 62-bit limbs and back is the identity on reduced elements |
| `FieldInverse.FeInv` | secp256k1-schnorrsig-batch-verify/src/field_5x52_impl.h:548-561 | for every element a reduced element r: the product with x is 1 modulo p, and 0 for 0, by 590 divsteps |
| `FieldInverse.FeInvVar` | secp256k1-schnorrsig-batch-verify/src/field_5x52_impl.h:563-576 | for every element a reduced element: the product with x is 1 modulo p, and 0 for 0 |
| `FieldInverse.FieldInverse` | secp256k1-schnorrsig-batch-verify/src/modinv64_impl.h:492-505 | modulo a prime, every nonzero x is inverted and the divsteps end with f = 1 or -1, and for 0 the result is 0 and they end with the modulus up to sign: what a debug build checks |
| `ScalarInverse.ModInfoIsN` | secp256k1-schnorrsig-batch-verify/src/scalar_4x64_impl.h:833-836 | the stored modulus limbs denote n and the stored constant inverts the lowest limb modulo 2^62 |
| `ScalarInverse.Inverse` | secp256k1-schnorrsig-batch-verify/src/scalar_4x64_impl.h:838-850 | for every scalar a scalar below n in 64-bit limbs: the product with x is 1 modulo n, and 0 for 0, by 590 divsteps |
| `ScalarInverse.InverseVar` | secp256k1-schnorrsig-batch-verify/src/scalar_4x64_impl.h:852-864 | for every scalar a scalar below n in 64-bit limbs: the product with x is 1 modulo n, and 0 for 0 |
| `Recoding.EcmultWnaf` | secp256k1-schnorrsig-batch-verify/src/ecmult_impl.h:377-427 | for every window from 2 to 31: digits zero or odd and below 2^(w-1) in magnitude, nonzero digits at least w apart, the returned length is that of the last nonzero digit, and the digits sum to the signed scalar whenever it fits in len - 1 bits |
| `Recoding.NoFinalCarry` | secp256k1-schnorrsig-batch-verify/src/ecmult_impl.h:413-425 | an input that fits in len - 1 bits leaves no carry after the last window |
| `RecodingFixed.WnafFixed` | secp256k1-schnorrsig-batch-verify/src/ecmult_impl.h:636-696 | 128 / w digits, zero or odd and below 2^w in magnitude, with a skew of 0 or 1, sum to the 128 bottom bits of the scalar plus the skew; nothing else in the array changes |
| `RecodingConst.SkewedScalar` | secp256k1-schnorrsig-batch-verify/src/ecmult_const_impl.h:66-112 | the recoded number is odd, nonzero, and with its sign equals the signed scalar plus a skew of 1 or 2, in the case of -1 too |
| `RecodingConst.WnafConst` | secp256k1-schnorrsig-batch-verify/src/ecmult_const_impl.h:57-135 | all digits odd and below 2^w in magnitude, summing to the signed scalar plus the skew |
| `SplitLambda.SplitRecombines` | secp256k1-schnorrsig-batch-verify/src/scalar_impl.h:113-116 | r1 + lambda r2 = k modulo n |
| `SplitLambda.BasisInLattice` | secp256k1-schnorrsig-batch-verify/src/scalar_impl.h:84-93 | both basis vectors satisfy a + b lambda = 0 modulo n |
| `SplitLambda.SplitIsShort` | secp256k1-schnorrsig-batch-verify/src/scalar_impl.h:117-121 | both halves are below 2^128 in magnitude, within the stated bounds |
| `Curves.Curve.SplitMul` | secp256k1-schnorrsig-batch-verify/src/scalar_impl.h:60-62 | the two halves against a point and its image under the endomorphism give the multiple |
| `Curves.ScalarsAreACurve` | secp256k1-schnorrsig-batch-verify/src/scalar_impl.h:60-67 | the integers modulo n with multiplication by lambda satisfy everything assumed of the group |
| `Strauss.OddMultiplesTable` | secp256k1-schnorrsig-batch-verify/src/ecmult_impl.h:85-118 | the table holds 1, 3, 5, ... times the point |
| `Strauss.ContextBuild` | secp256k1-schnorrsig-batch-verify/src/ecmult_impl.h:312-350 | the two tables hold the odd multiples of G and of 2^128 G |
| `Strauss.AddTableDigit` | secp256k1-schnorrsig-batch-verify/src/ecmult_impl.h:280-290 | looking up and adding a digit adds that signed multiple, never outside the table |
| `Strauss.SplitScalars` | secp256k1-schnorrsig-batch-verify/src/ecmult_impl.h:460-480 | zero scalars and points at infinity are left out, the rest is split and recoded into rows of digits that give the same sum |
| `Strauss.BuildTables` | secp256k1-schnorrsig-batch-verify/src/ecmult_impl.h:492-514 | the tables of every point kept, and of its image under the endomorphism, hold the odd multiples |
| `Strauss.SplitGenerator` | secp256k1-schnorrsig-batch-verify/src/ecmult_impl.h:516-529 | the halves of ng below and above 2^128, recoded, give ng G |
| `Strauss.StraussWnaf` | secp256k1-schnorrsig-batch-verify/src/ecmult_impl.h:446-559 | the interleaved double-and-add loop returns sum na[i] a[i] + ng G for every number of points |
| `Pippenger.AffineSum` | secp256k1-schnorrsig-batch-verify/src/ecmult_impl.h:772-787 | running sums of the buckets, with the last doubling deferred, add up bucket k with weight 2 k + c |
| `Pippenger.HighsStep` | secp256k1-schnorrsig-batch-verify/src/ecmult_impl.h:767-787 | doubling once per window bit and adding one column of digits moves one digit position down |
| `Pippenger.LoadPoints` | secp256k1-schnorrsig-batch-verify/src/ecmult_impl.h:722-734 | after leaving out zero scalars and infinities, digits and skews still give the same sum |
| `Pippenger.FillBuckets` | secp256k1-schnorrsig-batch-verify/src/ecmult_impl.h:739-765 | each digit lands in its bucket, and the skews in the first bucket at the end, never outside the 2^bucket_window buckets |
| `Pippenger.CombineBuckets` | secp256k1-schnorrsig-batch-verify/src/ecmult_impl.h:767-787 | the buckets are evaluated with weights 1, 3, 5, ... onto the accumulator shifted by one window |
| `Pippenger.PippengerWnaf` | secp256k1-schnorrsig-batch-verify/src/ecmult_impl.h:715-790 | returns sum sc[i] pt[i] for every number of points, every bucket window and all scalars below 2^128 |
| `MultiExp.WindowTablesAgree` | secp256k1-schnorrsig-batch-verify/src/ecmult_impl.h:796-841 | the two window tables are inverse to each other: window w serves n points exactly when n is at most its inverse entry |
| `Scratch.Space.constructor` | secp256k1-schnorrsig-batch-verify/src/scratch_impl.h:13-24 | an empty space of the given size |
| `Scratch.Space.MaxAllocation` | secp256k1-schnorrsig-batch-verify/src/scratch_impl.h:58-71 | a positive promise and the largest possible roundings of that many objects make up exactly what is free |
| `Scratch.Space.Alloc` | secp256k1-schnorrsig-batch-verify/src/scratch_impl.h:73-97 | succeeds exactly when the rounded size is free, the case in which rounding wraps around included |
| `Scratch.Space.AllocAll` | secp256k1-schnorrsig-batch-verify/src/ecmult_impl.h:593-604 | allocations one after the other all succeed exactly when the sum of the rounded sizes is free, a failure not keeping later ones from being tried |
| `Scratch.Space.ApplyCheckpoint` | secp256k1-schnorrsig-batch-verify/src/scratch_impl.h:46-56 | allocations since the checkpoint are undone |
| `Scratch.FootprintBounds` | secp256k1-schnorrsig-batch-verify/src/scratch_impl.h:58-71 | rounding gains less than the alignment for each allocation |
| `MultiExp.Sizes.PippengerMaxPoints` | secp256k1-schnorrsig-batch-verify/src/ecmult_impl.h:953-985 | every number of points up to the result fits the memory and one more does not, for all sizes of the structures |
| `MultiExp.Sizes.WindowEightIsNoLoss` | secp256k1-schnorrsig-batch-verify/src/ecmult_impl.h:958-983 | where the search ends at window 8, the next number of points, at window 9, does not fit either |
| `MultiExp.Sizes.PippengerFits` | secp256k1-schnorrsig-batch-verify/src/ecmult_impl.h:863-899 | a batch of any number of points whose byte count is within the promise finds the memory of all its allocations |
| `MultiExp.Sizes.StraussFits` | secp256k1-schnorrsig-batch-verify/src/ecmult_impl.h:577-604 | the same of a Strauss batch, for alignments that divide 16 or the size of a point, in spite of its seventh allocation |
| `MultiExp.StraussMayNotFit` | secp256k1-schnorrsig-batch-verify/src/ecmult_impl.h:577-627 | for another alignment and sizes a batch of the promised size is refused |
| `MultiExp.BuildIsAligned` | secp256k1-schnorrsig-batch-verify/src/ecmult_impl.h:577-580 | structure sizes of a 64-bit build, with every power of two up to 128 as alignment, are of the kind that fits |
| `MultiExp.EndoSplit` | secp256k1-schnorrsig-batch-verify/src/ecmult_impl.h:844-857 | two scalars below 2^128 and two points whose combination is the given multiple |
| `MultiExp.TermsSplit` | secp256k1-schnorrsig-batch-verify/src/ecmult_impl.h:916-923 | the sum over m + n indices of a callback is that over the first m plus that over the n after them |
| `MultiExp.PippengerBatch` | secp256k1-schnorrsig-batch-verify/src/ecmult_impl.h:869-941 | succeeds exactly when the six allocations fit and the callback does; then the generator part plus the sum of scalar times point over the scalars and points the callback gave; all scratch memory is given back either way |
| `MultiExp.SplitTerms` | secp256k1-schnorrsig-batch-verify/src/ecmult_impl.h:906-923 | the scalars and points returned have the same sum of multiples as the generator part and those of the callback, and are at most as many as were allocated; it fails exactly when the callback does |
| `MultiExp.StraussBatch` | secp256k1-schnorrsig-batch-verify/src/ecmult_impl.h:582-618 | the same for the Strauss batch and its seven allocations |
| `MultiExp.Ecmult` | secp256k1-schnorrsig-batch-verify/src/ecmult_impl.h:561-575 | na a + ng G |
| `MultiExp.BatchSizes` | secp256k1-schnorrsig-batch-verify/src/ecmult_impl.h:1016-1032 | batches of at most the maximum size cover the n points, none of them empty |
| `MultiExp.MultiSimple` | secp256k1-schnorrsig-batch-verify/src/ecmult_impl.h:989-1012 | one point at a time: the generator part plus scalar times point for each index, or failure exactly when the callback fails |
| `MultiExp.RunBatches` | secp256k1-schnorrsig-batch-verify/src/ecmult_impl.h:1070-1079 | batches follow each other without gap or overlap and the generator is counted once: the sum of scalar times point over all n indices of the callback; the loop succeeds exactly when the callback does and every batch finds its memory |
| `MultiExp.MultiVar` | secp256k1-schnorrsig-batch-verify/src/ecmult_impl.h:1035-1081 | whichever algorithm the memory allows, the result is ng G plus the sum of scalar times point over the n scalars and points of the callback, without ng just that sum; with a suitable alignment it fails exactly when the callback does, for memory never |
| `EcmultGen.OffsetsCancel` | secp256k1-schnorrsig-batch-verify/src/ecmult_gen_impl.h:82-88 | the offsets of the table rows add up to zero |
| `EcmultGen.Context.FillTable` | secp256k1-schnorrsig-batch-verify/src/ecmult_gen_impl.h:65-96 | entry (j, i) is (2^bits)^j i G plus the offset of row j |
| `EcmultGen.Context.constructor` | secp256k1-schnorrsig-batch-verify/src/ecmult_gen_impl.h:29-102 | a new context is valid: table built, initial point = -(blind G) |
| `EcmultGen.Context.Gen` | secp256k1-schnorrsig-batch-verify/src/ecmult_gen_impl.h:125-157 | returns gn G for every gn below n, in every valid context |
| `EcmultGen.Context.Blind` | secp256k1-schnorrsig-batch-verify/src/ecmult_gen_impl.h:160-206 | after any re-blinding the context is valid again; the second output of the generator, as a number, plus the new blinding value is 0 modulo n, or the blinding value is n - 1 where n divides that number |
| `EcmultGen.Key` | secp256k1-schnorrsig-batch-verify/src/ecmult_gen_impl.h:169-184 | the key is 32 bytes of the value of the old blinding, or of 1 without a seed, and the seed |
| `EcmultGen.Blinding` | secp256k1-schnorrsig-batch-verify/src/ecmult_gen_impl.h:195-197 | the scalar is the number of the bytes modulo n, and 1 where that is 0 |
| `EcmultGen.GenEnd` | secp256k1-schnorrsig-batch-verify/src/ecmult_gen_impl.h:134-152 | the sum over all rows plus the initial point is gn G: blinding and offsets drop out |
| `EcmultConst.ConstLoop` | secp256k1-schnorrsig-batch-verify/src/ecmult_const_impl.h:183-214 | the fixed pattern of doublings and lookups evaluates all digit rows |
| `EcmultConst.Unskew` | secp256k1-schnorrsig-batch-verify/src/ecmult_const_impl.h:218-251 | the correction takes off exactly the skew |
| `EcmultConst.EcmultConst` | secp256k1-schnorrsig-batch-verify/src/ecmult_const_impl.h:137-252 | scalar times point, with one row for sizes up to 128 bits and two half-length rows above |
| `FieldMul.FeMulInner` | secp256k1-schnorrsig-batch-verify/src/field_5x52_int128_impl.h:18-155 | limbs below 2^56 (top below 2^52) give limbs below 2^52 (top below 2^49) that represent a b modulo p; every 128-bit sum stays within the width the source states for it; r may be a |
| `FieldMul.FeSqrInner` | secp256k1-schnorrsig-batch-verify/src/field_5x52_int128_impl.h:157-277 | the same for a^2 with shared products |
| `FieldMul.FoldBounds` | secp256k1-schnorrsig-batch-verify/src/field_5x52_int128_impl.h:42-154 | column bounds alone force the limb bounds of the result |
| `FieldMul.FoldResidue` | secp256k1-schnorrsig-batch-verify/src/field_5x52_int128_impl.h:42-154 | the folded limbs differ from the columns by a multiple of p |
| `FieldMul.FoldingUnique` | secp256k1-schnorrsig-batch-verify/src/field_5x52_int128_impl.h:157-277 | squaring gives the very limbs that multiplying by itself gives |
| `Field.FeNormalize` | secp256k1-schnorrsig-batch-verify/src/field_5x52_impl.h:54-95 | the reduced representation of the same residue |
| `Field.FeNormalizeWeak` | secp256k1-schnorrsig-batch-verify/src/field_5x52_impl.h:97-119 | same residue, magnitude 1 |
| `Field.FeNormalizeVar` | secp256k1-schnorrsig-batch-verify/src/field_5x52_impl.h:121-163 | the reduced representation of the same residue |
| `Field.CanonicalUnique` | secp256k1-schnorrsig-batch-verify/src/field_5x52_impl.h:54-95 | a residue has one reduced representation, so the normalizations agree limb by limb |
| `Field.ZeroTest` | secp256k1-schnorrsig-batch-verify/src/field_5x52_impl.h:165-186 | after one weak pass a multiple of p has the limbs of 0 or of p, and only then |
| `Field.FeNormalizesToZero` | secp256k1-schnorrsig-batch-verify/src/field_5x52_impl.h:165-186 | true exactly for multiples of p |
| `Field.FeNormalizesToZeroVar` | secp256k1-schnorrsig-batch-verify/src/field_5x52_impl.h:188-227 | true exactly for multiples of p, with the early exit |
| `Field.FeNegate` | secp256k1-schnorrsig-batch-verify/src/field_5x52_impl.h:375-390 | the negated residue with magnitude m + 1, no limb going below zero |
| `Field.FeAdd` | secp256k1-schnorrsig-batch-verify/src/field_5x52_impl.h:405-419 | values and magnitudes add |
| `Field.MagnitudeOfProducts` | secp256k1-schnorrsig-batch-verify/src/field_5x52_impl.h:421-436 | elements of magnitude 8 are factors of a product, and a product has magnitude 1 |
| `Field.LargestMagnitude` | secp256k1-schnorrsig-batch-verify/src/field_5x52_impl.h:33-51 | the first carry of normalization stays in 64 bits for all elements of magnitude m exactly when m is at most 2047, one less than the representation check admits |
| `FieldInverse.MulThenNormalize` | secp256k1-schnorrsig-batch-verify/src/field_5x52_int128_impl.h:18-155 | multiplication followed by normalization gives the canonical residue of the product |
| `Scalar.CheckOverflow` | secp256k1-schnorrsig-batch-verify/src/scalar_4x64_impl.h:61-71 | 1 exactly for values from n up |
| `Scalar.IsHigh` | secp256k1-schnorrsig-batch-verify/src/scalar_4x64_impl.h:160-170 | true exactly above (n - 1) / 2 |
| `Scalar.Reduce` | secp256k1-schnorrsig-batch-verify/src/scalar_4x64_impl.h:73-85 | subtracts n when told to, modulo 2^256 |
| `Scalar.Add` | secp256k1-schnorrsig-batch-verify/src/scalar_4x64_impl.h:87-101 | sum modulo n, with the exact overflow flag |
| `Scalar.Negate` | secp256k1-schnorrsig-batch-verify/src/scalar_4x64_impl.h:144-154 | n - a, and 0 for 0 |
| `Scalar.CondNegate` | secp256k1-schnorrsig-batch-verify/src/scalar_4x64_impl.h:172-186 | negated exactly when the flag is set, 0 staying 0; the sign is returned |
| `ScalarMul.MulAdd` | secp256k1-schnorrsig-batch-verify/src/scalar_4x64_impl.h:190-205 | the three-word accumulator grows by exactly a b and the top word by at most one |
| `ScalarMul.Mul512` | secp256k1-schnorrsig-batch-verify/src/scalar_4x64_impl.h:695-726 | eight words holding the exact product, with no accumulator overflowing and the asserted zero words zero |
| `ScalarMul.Fold385` | secp256k1-schnorrsig-batch-verify/src/scalar_4x64_impl.h:489-521 | first folding of the high half, exact, into 385 bits |
| `ScalarMul.Fold258` | secp256k1-schnorrsig-batch-verify/src/scalar_4x64_impl.h:523-540 | second folding, exact, into 258 bits |
| `ScalarMul.Fold256` | secp256k1-schnorrsig-batch-verify/src/scalar_4x64_impl.h:545-555 | third folding, exact, into 256 bits and a carry |
| `ScalarMul.Reduce512` | secp256k1-schnorrsig-batch-verify/src/scalar_4x64_impl.h:252-559 | any 512-bit number modulo n, below n |
| `ScalarMul.Mul` | secp256k1-schnorrsig-batch-verify/src/scalar_4x64_impl.h:735-739 | a b modulo n for all limbs |
| `ScalarShift.ShrInt` | secp256k1-schnorrsig-batch-verify/src/scalar_4x64_impl.h:741-751 | quotient in place, remainder returned |
| `ScalarShift.RoundUp` | secp256k1-schnorrsig-batch-verify/src/scalar_4x64_impl.h:768-783 | adding the bit below the cut rounds the quotient to nearest |
| `ScalarShift.MulShiftVar` | secp256k1-schnorrsig-batch-verify/src/scalar_4x64_impl.h:768-783 | a b / 2^shift rounded to nearest and below n, for every shift from 256 to 511 |
| `Points.Euclid` | secp256k1-schnorrsig-batch-verify/src/group_impl.h:88-99 | Euclid's lemma modulo p, the base of every cancellation of denominators |
| `Points.GejDouble` | secp256k1-schnorrsig-batch-verify/src/group_impl.h:268-300 | the in-place sequence computes the doubling formula, r = a included; from magnitudes up to 8 no multiplication meets a larger factor, and the results have magnitudes 6, 4, 2 as annotated |
| `Points.GejDoubleVar` | secp256k1-schnorrsig-batch-verify/src/group_impl.h:302-328 | infinity stays infinity, and the returned ratio links the two denominators |
| `Points.GejAddGeVar` | secp256k1-schnorrsig-batch-verify/src/group_impl.h:383-430 | branching addition, with the ratio of denominators; magnitudes stay within 8 for every factor and in the result, so additions can follow each other |
| `Points.GejAddGe` | secp256k1-schnorrsig-batch-verify/src/group_impl.h:489-609 | unified addition with conditional moves; the same of its magnitudes, the result within 4, 4, 2 or the magnitude of b |
| `Points.UnifiedXY` | secp256k1-schnorrsig-batch-verify/src/group_impl.h:575-602 | the two coordinates of the unified addition from the chosen slope |
| `PointsAgree.AdditionsAgree` | secp256k1-schnorrsig-batch-verify/src/group_impl.h:489-609 | for every point a of the curve or infinity and every finite b, equal, opposite and y1 = -y2 included, both additions denote the same affine point |
| `PointsSum.AddedIsSum` | secp256k1-schnorrsig-batch-verify/src/group_impl.h:383-430 | whatever affine point the branching addition denotes is the sum by the chord and tangent law |
| `PointsSum.UnifiedIsSum` | secp256k1-schnorrsig-batch-verify/src/group_impl.h:489-609 | the same for the unified addition |
| `PointsSum.BetaIsCubeRoot` | secp256k1-schnorrsig-batch-verify/src/group_impl.h:644-651 | the constant beta is a cube root of 1 modulo p |
| `PointsSum.ScaleXOnCurve` | secp256k1-schnorrsig-batch-verify/src/group_impl.h:644-651 | multiplying x by a cube root of 1 stays on the curve |
| `PointsSum.ScaleXIsHomomorphism` | secp256k1-schnorrsig-batch-verify/src/group_impl.h:644-651 | multiplying x by a cube root of 1 respects the group law |
| `CubeRoots.NoCubeRoot` | secp256k1-schnorrsig-batch-verify/src/group_impl.h:303-305 | -7 has no cube root modulo p |
| `PointsClosed.AddedOnCurve` | secp256k1-schnorrsig-batch-verify/src/group_impl.h:383-430 | the result satisfies the curve equation again, with nonzero denominator and y |
| `PointsClosed.AddedIsPoint` | secp256k1-schnorrsig-batch-verify/src/group_impl.h:383-430 | the result does denote an affine point: one on the curve, and the sum |
| `PointsClosed.SumUnique` | secp256k1-schnorrsig-batch-verify/src/group_impl.h:383-430 | two points of the curve have one sum |
| `PointsClosed.RunIsSum` | secp256k1-schnorrsig-batch-verify/src/group_impl.h:383-609 | over a run of additions of any length, each by either routine, the result stays on the curve and denotes the last of the points that start at the first operand and each of which is the sum of the one before and the point added |
| `PointsClosed.RunsAgree` | secp256k1-schnorrsig-batch-verify/src/group_impl.h:383-609 | two runs that add the same points, each step by either routine, end in the same point |
| `PointsGroup.AddAssoc` | secp256k1-schnorrsig-batch-verify/sage/weierstrass_prover.sage:40-58 | the chord and tangent law is associative, in all cases |
| `PointsGroup.PointsAreAGroup` | secp256k1-schnorrsig-batch-verify/sage/weierstrass_prover.sage:40-58 | the points of the curve with reduced coordinates and infinity are an abelian group |
| `PointsJoin.AddIsSum` | secp256k1-schnorrsig-batch-verify/sage/weierstrass_prover.sage:40-58 | the sum in this group is the sum by cleared denominators that the routines are measured by |
| `PointsJoin.StepAdds` | secp256k1-schnorrsig-batch-verify/src/group_impl.h:383-609 | either addition routine, on any representation of p, gives a representation of p + b |
| `PointsJoin.DoublingAdds` | secp256k1-schnorrsig-batch-verify/src/group_impl.h:268-300 | doubling any representation of p gives one of p + p |
| `PointsJoin.RunAdds` | secp256k1-schnorrsig-batch-verify/src/group_impl.h:383-609 | a run of additions of any length, each step by either routine, ends in a representation of the sum in the group |
| `PointsEndo.EndoAdd` | secp256k1-schnorrsig-batch-verify/src/group_impl.h:644-651 | multiplying x by beta respects addition in the group |
| `PointsEndo.EndoSum` | secp256k1-schnorrsig-batch-verify/src/scalar_impl.h:77-79 | a point, its image and the image of its image add up to infinity |
| `PointsCount.NoSelfOpposite` | secp256k1-schnorrsig-batch-verify/src/group_impl.h:303-305 | twice a point is infinity only for infinity |
| `GeneratorChain.GeneratorOnCurve` | secp256k1-schnorrsig-batch-verify/src/group_impl.h:53-58 | the generator is a point of the curve |
| `SecpCurve.FirstRelation` | secp256k1-schnorrsig-batch-verify/src/scalar_impl.h:84-87 | a1 G + b1 phi(G) is infinity, a1 and b1 the first vector of the reduced basis |
| `SecpCurve.EndoOfGenerator` | secp256k1-schnorrsig-batch-verify/sage/secp256k1_params.sage:36 | lambda G is (beta x, y) of G |
| `SecpCurve.GeneratorOrder` | secp256k1-schnorrsig-batch-verify/sage/secp256k1_params.sage:10-14 | n G is infinity |
| `SecpCurve.MultipleOfGenerator` | secp256k1-schnorrsig-batch-verify/src/group_impl.h:669-670 | every point is a multiple k G with k below n: the cofactor is 1 |
| `SecpCurve.CurveOrder` | secp256k1-schnorrsig-batch-verify/sage/secp256k1_params.sage:13-14 | the curve has exactly n points |
| `SecpCurve.EndoIsLambda` | secp256k1-schnorrsig-batch-verify/src/scalar_impl.h:62-67 | for every point (beta x, y) is lambda times the point, and n times the point is infinity |
| `SecpCurve.PointsAreACurve` | secp256k1-schnorrsig-batch-verify/src/scalar_impl.h:60-67 | so the points of the curve satisfy everything the multiplication algorithms assume of the group |
| `BatchAffine.DenominatorsNonzero` | secp256k1-schnorrsig-batch-verify/src/group_impl.h:121-137 | the product that is inverted is not zero |
| `BatchAffine.FeInvVar` | secp256k1-schnorrsig-batch-verify/src/field_5x52_impl.h:563-576 | the inverse of a field element by way of its limbs and the divsteps, and 0 for 0 |
| `BatchAffine.SetAllGejVar` | secp256k1-schnorrsig-batch-verify/src/group_impl.h:116-156 | with one inversion every entry becomes (X/Z^2, Y/Z^3), infinities standing anywhere; magnitudes up to 8 suffice and the results have magnitude 1 |
| `BatchAffine.GlobalzSetTable` | secp256k1-schnorrsig-batch-verify/src/group_impl.h:158-181 | a table linked by ratios of denominators is rewritten over one common denominator without changing a point; all y end with magnitude 1 |
| `BatchAffine.GejRescale` | secp256k1-schnorrsig-batch-verify/src/group_impl.h:611-620 | multiplying the coordinates by powers of a nonzero factor keeps the point |
| `RbcNode.BroadcastFollower.constructor` | fin/rbc/follower.go:13-35 | a fresh follower: nothing counted, nothing sent |
| `RbcNode.BroadcastFollower.HandleVal` | fin/rbc/follower.go:158-193 | every VAL is echoed; one without a path halts the node |
| `RbcNode.BroadcastFollower.HandleEcho` | fin/rbc/follower.go:201-299 | what an ECHO does, as EchoEffect says: count per root, candidate at f + 1, ready signal at 2f + 1, halt on a mismatch |
| `RbcNode.EchoEffect` | fin/rbc/follower.go:201-299 | an ECHO halts the node without a path, when the f + 1 shards it completes decode to nothing, to another root or to too few bytes, and when it completes 2f + 1 without a candidate; otherwise it is counted for its root, f + 1 make one candidate of the bytes and 2f + 1 one signal |
| `RbcNode.BroadcastFollower.TryReconstruct` | fin/rbc/follower.go:254-275 | decode, compare the root, keep the bytes the shards stand for as a candidate, or halt |
| `RbcNode.PayloadBytes` | crypto/reed-solomon/reed-solomon.go:51-62 | with shards of z bytes, byte i of what is cut out is byte i % z of shard i / z, as many as claimed, and there is nothing to cut when more are claimed than there are |
| `RbcNode.LaidOutPayload` | crypto/reed-solomon/reed-solomon.go:51-62 | an input laid out in the shards in order comes back whole |
| `RbcNode.BroadcastFollower.HandleReady` | fin/rbc/follower.go:301-353 | ready signal at f + 1, output signal at 2f + 1 |
| `RbcNode.BroadcastFollower.Advance` | fin/rbc/follower.go:126-145 | the main thread: READY for the first root signalled, then the output root, then the first candidate, which must have that root |
| `RbcNode.BroadcastLeader.constructor` | fin/rbc/leader.go:15-38 | a fresh leader |
| `RbcNode.BroadcastLeader.HandleEcho` | fin/rbc/leader.go:263-320 | only ECHO with its own root counts; ready signal at 2f |
| `RbcNode.BroadcastLeader.HandleReady` | fin/rbc/leader.go:322-364 | only READY with its own root counts; ready signal at f + 1, output signal at 2f |
| `RbcNode.BroadcastLeader.Advance` | fin/rbc/leader.go:118-126 | READY, then output |
| `RbcProtocol.QuorumsMeet` | fin/rbc/follower.go:337-347 | two sets of 2f + 1 of 3f + 1 nodes share a correct one |
| `RbcProtocol.RunKept` | fin/rbc/follower.go:301-353 | in every run the READY counts are those of distinct senders, outputs have 2f + 1 behind them, and a correct node has sent at most one READY |
| `RbcProtocol.Agreement` | fin/rbc/follower.go:92-146 | in every run with at most f arbitrary nodes, two correct followers that output do so with the same root |
| `RbcValidity.RunFaithful` | fin/rbc/follower.go:201-353 | with a correct leader, in every run: signals, READY and candidates of correct nodes carry the leader's root |
| `RbcValidity.Validity` | fin/rbc/follower.go:92-146 | with a correct leader no correct follower sends READY for, or outputs, another root; the output is a prefix of the leader's data, and all of it if the lengths received were right |
| `RbcProtocol.PathlessVal` | fin/rbc/follower.go:158-193 | over every run: once a VAL without a path was delivered to a follower, it is halted and has no output ever after |
| `RbcProtocol.PathlessValPossible` | fin/rbc/follower.go:158-193 | a faulty leader can send it to every correct follower first thing |
| `RbcBytes.BytesAgreement` | fin/rbc/follower.go:92-146 | in every run, with any leader: one of two outputs of correct followers is a beginning of the other, and they are equal exactly when equally long |
| `RbcBytes.SameBytesExactly` | fin/rbc/follower.go:254-275 | in every run, with any leader: two correct followers output the same bytes if and only if the ECHO after the first f they received for the root claimed the same length to both, a negative one counting as 0 |
| `RbcBytes.SameLengthsSameBytes` | fin/rbc/follower.go:254-275 | correct followers whose ECHO messages for the root claim one length output the same bytes |
| `RbcBytes.GoodEchoesKeepAlive` | fin/rbc/follower.go:233-275 | with a correct leader no correct follower halts in a run whose ECHO messages carry the right shards and lengths within the data |
| `RbcWitness.ByzantineSetupExists` | fin/rbc/follower.go:92-146 | a setting with one faulty node and data longer than the input |
| `RbcWitness.BytesDiffer` | fin/rbc/follower.go:254-275 | a run with a correct leader and one faulty node in which two correct followers output different bytes |
| `RbcWitness.OneShardHalts` | fin/rbc/follower.go:233-275 | a run of two events in which a correct follower halts |
| `RbcValidity.DecidingEcho` | fin/rbc/follower.go:233-275 | whatever f shards a follower has, at the ECHO that completes f + 1 it survives exactly when all of them are the leader's and the claimed length is not too long, and then holds the input exactly when the length is right |
| `RbcTotality.RunSound` | fin/rbc/follower.go:92-391 | if nodes only crash: in every run signals sent and consumed balance on every channel, no follower halts, and whoever is on the way to READY, some follower has 2f + 1 ECHO messages |
| `RbcDelivery.Totality` | fin/rbc/follower.go:92-146 | if at most f followers crash and f is at least 1, a run that has come to rest has delivered the leader's input everywhere else |
| `RbcDelivery.ExtendsToRest` | fin/rbc/follower.go:92-146 | with a correct leader every run can be continued to one that is at rest, whoever has crashed |
| `RbcDelivery.DeliveryReachable` | fin/rbc/follower.go:92-146 | every crash-only run can be continued until every node alive has the leader's input |
| `RbcRest.RestExactly` | fin/rbc/follower.go:92-146 | with a correct leader, right shards and at most f arbitrary nodes, at rest: the leader has output, and a correct follower has if and only if it received f + 1 ECHO messages for the leader's root; what it output is the beginning of the data, and the input if the lengths were right |
| `RbcRest.EnoughEchoes` | fin/rbc/follower.go:92-146 | so every correct follower has output if f + 1 correct nodes have echoed |
| `RbcRest.OneFaultDelivers` | fin/rbc/follower.go:92-146 | and always when f is 1 |
| `RbcStranded.TwoByzantineExists` | fin/rbc/follower.go:92-146 | a setting with two faulty nodes of seven |
| `RbcStranded.TwoFaultsStrand` | fin/rbc/follower.go:158-193 | in every such setting a run at rest with right shards in which the leader and three correct followers have output and the fourth has not |
| `RbcDelivery.LonelyLeaderNeverOutputs` | fin/rbc/leader.go:339-355 | with f = 0 the leader never outputs, in any run |
| `RbcDelivery.RepetitionValid` | fin/rbc/follower.go:202 | what is taken for granted of code and root can be met |
| `RbcDelivery.SetupExists` | fin/rbc/follower.go:92-146 | there is a setting with f = 1 that meets every hypothesis of the run theorems |
| `OrderBuffer.InsertBlock` | order/start_order.go:396-423 | the insertion loop computes insertion by height |
| `OrderBuffer.InsertedAscending` | order/start_order.go:396-423 | a lane stays strictly ascending whatever arrives |
| `OrderBuffer.FirstArrivalWins` | order/start_order.go:396-423 | the first block of a height stays, a second one changes nothing |
| `OrderBuffer.ArrivalOrder` | order/start_order.go:396-423 | blocks of different heights may arrive in either order |
| `OrderBuffer.CutIsExact` | order/start_order.go:755-769 | the cut, which only counts, removes exactly heights old + 1 to new if and only if nothing at or below old is in the lane and none of those heights is missing |
| `OrderBuffer.CommittedExact` | order/start_order.go:382-776 | over every run and every order of arrival: a lane has committed 0, 1, 2, ... each once if and only if every cut that took something found no committed height in the buffer and none of its heights missing |
| `OrderBuffer.RepetitionSlips` | order/start_order.go:396-769 | a legal run that commits height 0 twice and height 1 not |
| `OrderBuffer.GapSlips` | order/start_order.go:396-769 | a legal run that commits height 2 in place of height 1 |
| `OrderBuffer.SameLedger` | order/start_order.go:755-769 | two nodes whose blocks agree by height never commit different ones: one's commits are a prefix of the other's |
| `OrderBuffer.StepExact` | order/start_order.go:650-776 | an arrival or a cut keeps the lane exact if and only if no committed height arrives again and no height is missing that is cut |
| `OrderBuffer.RunExact` | order/start_order.go:382-776 | over every run: committed blocks are 0, 1, 2, ... and waiting ones later and in order, at all times, if and only if no committed height arrives again and no height is missing when it is cut |
| `OrderBuffer.InOrderRun` | order/start_order.go:382-776 | blocks that arrive in height order without repetition go through the lane unchanged, and it is exact at all times |
| `OrderBuffer.CommittedOnce` | order/start_order.go:755-769 | an exact lane has committed each height up to its last commit, once and in order |
| `OrderState.LaneRun` | order/start_order.go:382-776 | to every lane a run of the module is a run of the lane |
| `OrderState.LedgerExact` | order/start_order.go:382-776 | over every run of the module: a lane has committed 0, 1, 2, ... if and only if its cuts found what they were for; when no cut waits these are all heights up to its last commit |
| `OrderState.CutSettles` | order/start_order.go:650-776 | after a cut every lane has committed as many blocks as its last commit says |
| `OrderState.NodesAgree` | order/start_order.go:552-776 | two nodes that took the same output and have cut it hold the same blocks in a lane, if both lanes are exact and their blocks agree by height |
| `OrderState.AcceptedCuts` | order/input.go:276-375 | the cut of an output that advances over the one before it does not halt the node |
| `OrderState.FirstOutputCuts` | order/start_order.go:577-776 | the cut of a first output halts unless no height is below -1 and one is above |
| `OrderState.OnlyTheFirstHalts` | order/start_order.go:552-776 | over every run whose outputs pass the guard, a waiting cut will halt the node if and only if it is the first and its output is of that kind |
| `OrderState.WaitingIs` | order/start_order.go:552-776 | a cut waits exactly when only blocks have arrived after some output |
| `OrderState.UncheckedOutputHalts` | order/input.go:276-279 | a first output with all heights -1 is taken and halts the node |
| `OrderState.OutputHalts` | order/start_order.go:577-776 | whatever let it through, an output halts its cut if and only if a height is below the last commit or none differs from it |
| `OrderState.ArrivedCanHalt` | order/input.go:377-415 | a run in which a second output that the guard without certificates lets through, the same height or the one before, halts the node |
| `OrderState.OrderManager.constructor` | order/start_order.go:153-179 | empty lanes, heights and last commits at -1: the state of the empty run |
| `OrderState.OrderManager.UpdateBcBlocks` | order/start_order.go:382-393 | the height mark of the lane becomes the larger of the two, and the state is that of the run with the arrival added |
| `OrderState.OrderManager.AddBcBlock` | order/start_order.go:396-423 | the lane becomes the insertion; all other lanes stay |
| `OrderState.OrderManager.TakeOutput` | order/start_order.go:577-589 | halts exactly when entries are missing; else every last commit is the height the output has for the lane, the old ones are returned, and the state is that of the run with the output added |
| `OrderState.HeightAt` | order/start_order.go:577-589 | the height for leader i's lane j is in entry j n + i |
| `OrderState.OrderManager.EnoughBlocks` | order/start_order.go:674-704 | one look of the waiting loop: true exactly when every lane holds at least as many blocks as its last commit has moved on |
| `OrderState.OrderManager.CutBlock` | order/start_order.go:650-776 | halts exactly when a last commit went back or none moved; else every lane loses as many blocks at the front as its last commit has moved on, and the state is that of the run with the cut added |
| `OrderGuards.CheckInput` | order/input.go:419-441 | true exactly when no height is behind and the set of lanes strictly ahead has more than two thirds of n elements |
| `OrderGuards.CheckInputs` | order/input.go:276-375 | accepts exactly the first output, or one of the right length in which, by wrapped differences, the set of lanes that move on has more than two thirds of all, no other goes back, and every lane that moves on exists and has a verified signature, or that of the waiting block it is looked up in; halts exactly at an index out of range |
| `OrderGuards.AcceptedAdvances` | order/input.go:276-375 | an accepted output has no height below the one before it and more than two thirds above if and only if no height is more than 2^31 below the one before it |
| `OrderGuards.ProperAdvances` | order/input.go:276-375 | after heights from -1 up that is if and only if the new heights are from -1 up |
| `OrderGuards.AcceptedGoesBack` | order/input.go:322-371 | an accepted output that goes back, from the largest height to -2 |
| `OrderGuards.LookUpMeets` | order/input.go:322-345 | in a lane that waits without a gap the signature looked up is that of the proof's height; the look-up leaves the buffer only behind a block below the old height |
| `OrderGuards.CheckEntry` | order/input.go:320-360 | by height, lane and signature: stays, goes back, no such lane, no more blocks than the difference and a signature verified or not, a look-up before the first block, past the last, or at a block with the same or another signature |
| `OrderGuards.OneUnverified` | order/input.go:351-355 | one entry whose signature has to be verified and is not has the output rejected, when those before it are let through |
| `OrderGuards.CheckInputsQcagg` | order/input.go:116-164 | accepts exactly the first output, or one that advances in its first entries and whose votes are verified; halts exactly when an entry, or then a hash or a list of members, is missing |
| `OrderGuards.VoteOf` | order/input.go:141-160 | the vote of an entry with a block is its own hash, height, lane and members, in the place given by the number of such entries before it |
| `OrderGuards.VotesCount` | order/input.go:141-160 | there are as many votes as entries with a block |
| `OrderGuards.AdvancesExactly` | order/input.go:116-140 | to advance is: as many entries, none lower, and the set of higher ones more than two thirds of all |
| `OrderGuards.CheckInputRbc` | order/input.go:377-415 | one look passes exactly when every lane has received the proposed height, and halts exactly when a height is missing before one not received |
| `Der.ReadLen` | secp256k1-schnorrsig-batch-verify/src/ecdsa_impl.h:49-100 | accepts exactly the shortest length octets of a length that fits the rest of the input, and returns it |
| `Der.LenUnique` | secp256k1-schnorrsig-batch-verify/src/ecdsa_impl.h:49-100 | a length can be read in one way only |
| `Der.ParseInteger` | secp256k1-schnorrsig-batch-verify/src/ecdsa_impl.h:102-151 | accepts exactly the DER integers, never reading past the end; stores the number, or 0 when negative or not below n |
| `Der.SigParse` | secp256k1-schnorrsig-batch-verify/src/ecdsa_impl.h:153-181 | accepts exactly a sequence of two DER integers that fill the input, for every byte string, and returns their numbers |
| `Der.ParsesExactly` | secp256k1-schnorrsig-batch-verify/src/ecdsa_impl.h:102-181 | given tags and lengths, an input parses to r and s exactly when neither integer is empty or starts with nine equal bits, 00 0... or FF 1..., and r and s are the numbers, or 0 for a negative one or one not below n |
| `Der.ParsesFramed` | secp256k1-schnorrsig-batch-verify/src/ecdsa_impl.h:153-181 | nothing parses without the tags and lengths of a sequence of two integers that fill the input |
| `Der.SigUnique` | secp256k1-schnorrsig-batch-verify/src/ecdsa_impl.h:153-181 | an input can be taken apart in one way only |
| `Der.EncodingParses` | secp256k1-schnorrsig-batch-verify/src/ecdsa_impl.h:153-205 | parsing the encoding of r and s gives r and s and nothing else, for all r, s below n |
| `Der.OnlyEncodingParses` | secp256k1-schnorrsig-batch-verify/src/ecdsa_impl.h:153-205 | the parser returns two nonzero numbers below n for their encoding and for no other input |
| `Der.AcceptedIsEncoding` | secp256k1-schnorrsig-batch-verify/src/ecdsa_impl.h:153-205 | an accepted string with both numbers in range is the encoding of the numbers returned |
| `Der.SigSerialize` | secp256k1-schnorrsig-batch-verify/src/ecdsa_impl.h:183-205 | writes exactly the encoding, or nothing when it does not fit; the size is reported either way |
| `Sha256.AbsorbConcat` | secp256k1-schnorrsig-batch-verify/src/hash_impl.h:132-149 | processing may be split at any block boundary |
| `Sha256.AbsorbBlock` | secp256k1-schnorrsig-batch-verify/src/hash_impl.h:132-149 | no block leaves the state as it is; one more block is one more use of the compression function |
| `Sha256.Hash.Write` | secp256k1-schnorrsig-batch-verify/src/hash_impl.h:132-149 | state, count and buffer are those of everything written so far |
| `Sha256.WriteAll` | secp256k1-schnorrsig-batch-verify/src/hash_impl.h:132-149 | however a message is cut into chunks, the state is that of one write of the whole |
| `Sha256.SameBytesSameState` | secp256k1-schnorrsig-batch-verify/src/hash_impl.h:132-149 | equal bytes written give equal state, count and live buffer |
| `Sha256.PaddingIsStandard` | secp256k1-schnorrsig-batch-verify/src/hash_impl.h:151-158 | for every message: whole blocks that start with the message, a byte 0x80, fewer than 64 zero bytes, and in the last eight bytes the number of bits modulo 2^64 |
| `Sha256.ZeroBytesLeast` | secp256k1-schnorrsig-batch-verify/src/hash_impl.h:158 | the number of zero bytes is the least possible |
| `Sha256.Hash.Finalize` | secp256k1-schnorrsig-batch-verify/src/hash_impl.h:151-165 | the output is that of the state after the padded message from the initial state, and all eight state words are zero |
| `Sha256.Hash.InitializeTagged` | secp256k1-schnorrsig-batch-verify/src/hash_impl.h:169-178 | the stream restarts with the output for the padded tag written twice |

## Left out

- Modinv64.UpdateFg: the unrolled update of the constant-time routine is this loop at length 5.
- Modinv64.UpdateDe: the two rows are computed one after the other instead of interleaved.
- DivstepsBatch.Divsteps59: masks and conditional moves are written as conditionals, here and everywhere; constant time is not modelled.
- Points.GejAddGe: coordinates are integers modulo p beside the magnitude of their limbs; that limbs of these magnitudes behave so is proved in FieldMul and Field, and the two levels are not joined into one method.
- RbcDelivery.Totality: nodes crash but do not lie, and the leader does not crash. For nodes that lie see RbcRest.RestExactly; with a faulty leader or wrong shards the code does not promise delivery.
- RbcProtocol.Agreement: channels are unbounded, and the two signal channels never block their senders.
- OrderState.OrderManager.CutBlock: the waiting loop is EnoughBlocks, one look at a time, with arrivals in between; latency and throughput figures are left out.
- OrderGuards.CheckInputs: the verification of a batch signature is a parameter, outputs are given as entries and not as bytes, and the buffer does not change during the check.
- OrderGuards.CheckInputsQcagg: the verification of the aggregated signature, with the decoding of the lists of members, is a parameter.
- OrderGuards.CheckInputRbc: the loop that looks again every 200 ms until it is closed is left out; the heights received do not change during one look.
- Sha256.Hash.Write: the compression function is a parameter.
- MultiExp.Ecmult: the algorithms run on elements of the group, here and in Strauss, Pippenger, EcmultGen and EcmultConst; that additions and doublings of representations are those of the group is PointsJoin, and the two are not composed into one method.
- MultiExp.MultiVar: addresses of scratch memory are not modelled, only byte counts; the arrays of a batch are allocated apart from it.
- EcmultGen.Context.Blind: the generator of pseudorandom bytes is a function parameter; rescaling the initial point is invisible in an abstract group, and BatchAffine.GejRescale shows that it keeps the point.
- Strauss.StraussWnaf: the common denominator of the tables is invisible in an abstract group; the rewriting to one denominator is BatchAffine.GlobalzSetTable.
- `modinv32_impl.h`, `field_10x26`, `scalar_8x32`, the assembly and the exhaustive-test builds: the same algorithms on other limbs.
- `gej_add_var` and `gej_add_zinv_var`: the formulas of the branching addition with one more factor.
- Conversions of field elements and scalars to and from 32 bytes and storage form.
- ECDSA signing and verification, HMAC and the deterministic nonces; unforgeability and collision resistance.
- Sockets, files, the database, logging, configuration, clocks, and the goroutines that only move messages between channels.
- Binary agreement, the MVBA protocols and the other broadcast kinds.
- SimpleHotStuff, whose block buffer is a simpler form of the one modelled.
