# Verified model of the miner's core

This project models, in Dafny, the parts of the GPU miner where fast code must give exactly what a
simple computation gives, or where state must stay consistent over every run, and proves that it does.
It covers seven areas.

**Hashing and targets** (`Fips180`, `RoundConstants`, `WordBits`, `ShaOnBits`, `ShaExamples`,
`Sha256Kernel`, `TargetCheck`, `CompactTarget`). The hand-written SHA-256 kernel, with branch-free
padding, 64-bit masked arithmetic and sixteen rotating registers, computes FIPS 180-4 for every message
length. The standard's constants are tied to the roots of primes, and two of its examples are evaluated
within the logic, on bit vectors proved equal to the arithmetic. The byte-wise target check is an
integer comparison. The compact target form rounds down by less than a unit, and the model-adjusted
target is the largest one allowed.

**Credit** (`RealMul`, `Powers`, `Credit`, `EntropyGate`). Interval masses are quantised outward in Q63,
looked up in a threshold table and summed. The table is defined by its own inequality, t^R * 2^n <=
2^(63R), so no logarithm and no rounding enters, "never over-credit" is an inequality between products,
and so is its counterpart, that no step is short of a whole unit. The pre-submit gate is sound in the
same sense.

**Sampler rewrites** (`Floats`, `Ranking`, `SamplerTail`, `ExactTail`, `CompactCdf`, `TopKMask`).
Floating point is an abstract ordered type with x + 0 = x, monotone addition of non-negative values and
no associativity; `Floats.LawsHaveAModel` shows these laws consistent. The survivor-only loops, the
ranked prefix and the compact distribution give the values of the full-vocabulary loops, because both
meet one reference definition that determines its result; in exact arithmetic, of which
`ExactTail.OrdinaryIsExact` gives an instance, that definition is a probability distribution.

**Decode pipelines** (`Llama`, `Decoding`, `Traces`, `Stepwise`, `DoubleBuffer`). A context has a cache
per sequence, one host and one device output buffer that each decode overwrites, and an unknown network
as a function of a sequence's tokens. Shared-prefix prefill, stepwise decoding and double-buffered
decoding are proved against one reference, `Decoding.Generate`, which completes exactly when every step
of some run gives a token for each stream (`Traces`).

**Concurrency** (`SamplerPool`, `Barrier`, `BarrierStep`, `SubmitQueue`). The generation-counter barrier
and the share queue are state machines whose steps are mutex sections, counter increments and single
calls; the results hold over every interleaving.

**Rows and rings** (`Circular`, `ContextRing`, `Rows`, `Eviction`, `ProofRing`, `StepEnd`, `StepFinish`,
`SamplerState`, `CommonSampler`). Context rings show the tail of an append-only archive, proof rows are
lent and recycled without leaking, a step records its entries and touches nothing else, deferring host
work changes nothing, and when rows run out it is exactly known which listed sequences end without one.
The **persistent batch** (`InputBatch`) keeps every request's data through additions, removals, swaps
and condensing, the token mask and the prompt embeddings excepted as said below, and **line framing**
(`Framing`) does not depend on how the byte stream is cut.

`Arith` and `Bits` hold shared arithmetic; bit operations are defined on natural numbers.

## What the code does not do

These are properties the code misses, each with the exact condition under which it meets them and an
input at which it does not.

- The overflow flag of the compact decoding disagrees with "does not fit 256 bits" for three families
  of inputs (`CompactTarget.OverflowExactly`, `OverflowWitnesses`), although the function's comment says
  it is that test.
- The fast top-k mask clamps k to 50; beyond that it equals the legacy mask only when the k-th value
  ties with the 50th (`TopKMask.MasksAgree`, `MasksDifferAt51`).
- The stepwise window leaves the skip-host-copy flag set when a negative token stops it while device
  logits are in use (`Stepwise.Run`, from src/engine.cpp:734; `FlagLeftSet`). The next window's prompt
  pass then leaves the host buffer as it was and reads it (`Decoding.PromptPlain`, `PromptShared`), so
  `Stepwise.Run` asks for the flag to be clear on entry. Only a sampler that reports success with a negative or
  missing token can trigger this. None here does: `SamplerPool::sample_step` reports success only with
  a token for every stream (`Barrier.GatheredSize`), and the two lambdas at src/main.cpp:527 and
  src/main.cpp:600 report failure. With such samplers the flag is clear after every window
  (`Stepwise.RegularGivesUp`), and whole runs of windows equal the reference (`Stepwise.RunAll`).
- The double-buffered path samples one token even for a window length of 0: it yields what the stepwise
  path does exactly when the window is not empty, whatever the network, the sampler and the prompts
  (`DoubleBuffer.SameWindow`, `ZeroWindowDiffers`). It does not check that prompt plus window fits the
  context: of two batches of one size both paths accept the same exactly when those it accepts leave
  room for the window (`SameInputs`, `RoomNotChecked`).
- When a sampler refuses after the first step, the double-buffered path returns with a decode in
  flight: batch B's if A was refused first, which includes a tie, else batch A's, and none if the
  refusal came at the first step (`DoubleBuffer.RunDouble`, `DecodeLeftInFlight`). The next call clears
  both contexts first; the decode ends before that, nothing of it stays in the cache, and its outputs
  are overwritten before they are read (`DoubleBuffer.Pipe.Clear`), so the next window is not affected.
- The device path of the boundary test pairs filtered rows with the unfiltered id list, so once a
  sequence has just ended another one's proof can be attributed to it
  (`StepEnd.DeviceAgrees`, `DeviceMisattributes`). Ended sequences are freed just before.
- Eviction inside `ensure_rows` may take the row of a listed sequence, even when there are rows for all
  (`Eviction.ListedOneEvicted`). All listed ids end with a row exactly when no more sequences are evicted
  than were live and every listed live one is evicted before its turn or not at all, which the ranks
  by age tell beforehand (`Eviction.Served`, `CommonSampler.Helper.EnsureRows`). The sampler therefore
  frees unlisted sequences first. With that, every listed id ends with a row exactly when there are as
  many rows as distinct ids (`CommonSampler.Helper.AllocateRows`).
- A listed sequence that is evicted before its turn needs its prompt again, which the caller at
  topk_topp_sampler.py:743-745 collects only for ids without a row (`Eviction.PromptMissing`). The call
  then fails with the row lent and no context behind it. `ensure_rows` goes through exactly when every
  listed id that takes a row, at its turn, has a prompt, which the ranks tell beforehand
  (`Eviction.Supplied`, `CommonSampler.Helper.EnsureRows`); once unlisted sequences have made room, that
  is so whenever there are rows for all distinct ids.
- A full reset leaves the statistics of every row in place, and the host's copies of the lengths of its
  header and VDF, so a row is empty afterwards exactly when its statistics were zero and no lengths were
  set (`ProofRing.BlankAfterReset`, `StatsOutliveReset`, `LengthsOutliveReset`); clearing at the next
  lending makes up for it.
- Swapping two requests assigns two mask rows of one tensor to each other, and the second assignment
  reads a row already overwritten: the first request keeps its mask exactly when the two are equal
  (`InputBatch.SwapKeepsMask`, `MaskLostInSwap`).
- Condensing leaves the moved request's token mask at its old index, and additions without allowed
  tokens do not clear it (`InputBatch.NewcomerMask`, `MaskOutlivesCondense`).
- Prompt embeddings stay behind on removal; a request without any that moves down to such an index
  finds them (`InputBatch.Condense`, `EmbedsInherited`).

## Model

| member | source | states |
|---|---|---|
| Fips180.PaddingIsLeast | vllm-miner/overlay/vllm/sampling/pow_utils.py:1663 | the block count formula is the least number of 64-byte blocks that holds the message, the 0x80 byte and the eight length bytes |
| Fips180.LengthReads | vllm-miner/overlay/vllm/sampling/pow_utils.py:1537-1548 | the eight length bytes are, most significant first, the number of bits of the message, up to 64 bits |
| RoundConstants.PrimesInOrder | vllm-miner/overlay/vllm/sampling/pow_utils.py:1490-1499 | the primes used below begin with 2 and each is the next prime after the one before |
| RoundConstants.ConstantsAreCubeRoots | vllm-miner/overlay/vllm/sampling/pow_utils.py:1490-1499 | each of the 64 round constants is the first 32 bits of the fraction of the cube root of its prime |
| RoundConstants.InitialValueIsSquareRoots | vllm-miner/overlay/vllm/sampling/pow_utils.py:1580-1587 | the eight initial words are those of the square roots of the first eight primes |
| ShaExamples.DigestOfAbc | vllm-miner/overlay/vllm/sampling/pow_utils.py:1571-1652 | the digest of "abc", byte for byte, which fixes every rotation and shift amount the rounds use |
| ShaExamples.DigestOfLetters | vllm-miner/overlay/vllm/sampling/pow_utils.py:1571-1652 | the digest of a message of 56 letters, which takes two blocks |
| Sha256Kernel.Rotr32 | vllm-miner/overlay/vllm/sampling/pow_utils.py:1525-1527 | shifting a 32-bit value both ways in a 64-bit integer and masking is the standard's 32-bit rotation, with no overflow of the 64 bits |
| Sha256Kernel.PositionByteIsPadded | vllm-miner/overlay/vllm/sampling/pow_utils.py:1537-1548 | the branch-free byte (data, plus 0x80 at the end, plus a clamped shift of the bit length) is the padded message's byte at every position |
| Sha256Kernel.BlkWord | vllm-miner/overlay/vllm/sampling/pow_utils.py:1530-1549 | the four-byte loop yields the standard's schedule word of that block |
| Sha256Kernel.NextWord | vllm-miner/overlay/vllm/sampling/pow_utils.py:1611-1614 | masked sums of masked rotations of four registers are the standard's schedule recurrence on 32-bit words |
| Sha256Kernel.Temp1 | vllm-miner/overlay/vllm/sampling/pow_utils.py:1617-1619 | the first temporary, computed with masks in 64 bits, is the standard's T1 modulo 2^32 |
| Sha256Kernel.Temp2 | vllm-miner/overlay/vllm/sampling/pow_utils.py:1620-1622 | likewise T2 |
| Sha256Kernel.RoundStep | vllm-miner/overlay/vllm/sampling/pow_utils.py:1616-1630 | one round on the eight variables is the standard's round |
| Sha256Kernel.ProcessBlock | vllm-miner/overlay/vllm/sampling/pow_utils.py:1589-1642 | sixteen registers rotated one slot a round hold W[t] to W[t+15] throughout, so 64 rounds and the final masked additions give the standard's next hash value |
| Sha256Kernel.HashState | vllm-miner/overlay/vllm/sampling/pow_utils.py:1580-1642 | the block loop computes the hash value after all blocks |
| Sha256Kernel.StoreWord | vllm-miner/overlay/vllm/sampling/pow_utils.py:1552-1557 | a state word goes out big-endian and nothing else is written |
| Sha256Kernel.HashRow | vllm-miner/overlay/vllm/sampling/pow_utils.py:1571-1652 | one lane writes exactly the FIPS 180-4 digest of its row, and nothing else |
| Sha256Kernel.Sha256Many | vllm-miner/overlay/vllm/sampling/pow_utils.py:1655-1668 | every row of the result is the FIPS 180-4 SHA-256 of the same row of the input, for every row count and every row length whose bit count fits 63 bits, excess lanes writing nothing |
| Sha256Kernel.NarrowLength | vllm-miner/overlay/vllm/sampling/pow_utils.py:1576-1578 | below 2^28 bytes, and only there, the bit count fits a signed 32-bit scalar, and shifts by its width or more would leave nothing |
| TargetCheck.FlipReads | vllm-miner/overlay/vllm/sampling/pow_utils.py:1732 | reversing bytes turns a little-endian number into the same big-endian number |
| TargetCheck.CheckHashAgainstTarget | vllm-miner/overlay/vllm/sampling/pow_utils.py:1723-1746 | true exactly when the digest as a little-endian integer is at most the target as a big-endian integer, for each row, early exit included |
| TargetCheck.ByteOrderIsNumberOrder | src/poi.cpp:543-553 | lexicographic order of equally long byte strings is the order of the big-endian numbers |
| TargetCheck.DisplayOrderAgrees | src/poi.cpp:543-553 | comparing the byte-reversed digest in display order with the target decides the same as the raw little-endian comparison |
| Credit.F64ToQ63Floor | vllm-miner/overlay/vllm/sampling/pow_v3.py:493-511 | floor of a clamped double times 2^63, exactly: within one unit below |
| Credit.F64ToQ63Ceil | vllm-miner/overlay/vllm/sampling/pow_v3.py:514-526 | ceiling of a clamped double times 2^63, exactly: within one unit above |
| Credit.MassQ63ForStep | vllm-miner/overlay/vllm/sampling/pow_v3.py:529-550 | the mass is defined exactly for finite ordered endpoints, is at most one and is never zero when the tolerance is positive |
| Credit.MassCoversTruth | vllm-miner/overlay/vllm/sampling/pow_v3.py:529-550 | the quantised mass is at least the true widened mass, and exceeds it by less than two quanta |
| Credit.MassMono | vllm-miner/overlay/vllm/sampling/pow_v3.py:529-550 | widening an interval never lowers its mass |
| Credit.ThresholdTable | vllm-miner/overlay/vllm/sampling/pow_v3.py:474-490 | the table of largest integers t with t^R * 2^n <= 2^(63R) starts at 2^63 and never increases |
| Credit.CreditUnitsForStep | vllm-miner/overlay/vllm/sampling/pow_v3.py:553-572 | the binary search returns the largest index whose threshold reaches the mass, and refuses exactly a zero mass |
| Credit.CreditIsFit | vllm-miner/overlay/vllm/sampling/pow_v3.py:553-572 | an index is earned exactly when mass^R * 2^index stays within 2^(63R): no rounding anywhere in the comparison |
| Credit.CreditMono | vllm-miner/overlay/vllm/sampling/pow_v3.py:553-572 | a larger mass never earns more |
| Credit.BCredUnitsFromBounds | vllm-miner/overlay/vllm/sampling/pow_v3.py:575-591 | succeeds exactly when every step is valid and then returns the sum of the steps' credits |
| Credit.AtolCovered | vllm-miner/overlay/vllm/sampling/pow_v3.py:575-591 | the checked-in tolerance constant is the ceiling of the tolerance times 2^63 |
| Credit.NeverOverCredit | vllm-miner/overlay/vllm/sampling/pow_v3.py:493-591 | over any window the product of the masses, quantised or true, to the R-th power times 2^units is at most one |
| Credit.NeverUnderCredit | vllm-miner/overlay/vllm/sampling/pow_v3.py:575-591 | nor is a window of N steps credited too little: with N more units the product of the quantised masses to the R-th power times 2^units exceeds one |
| Credit.WholeBits | vllm-miner/overlay/vllm/sampling/pow_v3.py:474-490 | a unit is 1/1024 of a bit: a mass of 2^-k earns exactly k bits, and 32 bits from k = 32 on |
| Credit.WiderEarnsLess | vllm-miner/overlay/vllm/sampling/pow_v3.py:529-591 | widening any intervals of a window never raises the window's credit |
| Credit.CapNeverReached | vllm-miner/overlay/vllm/sampling/pow_v3.py:529-572 | with the default tolerance no step earns more than 13 bits, so the 32-bit cap of the table never acts |
| EntropyGate.ChargeCovers | src/poi.cpp:582-589 | the gate's charge for a step, cap included, covers the credit of any interval at least as massive as the recorded probability |
| EntropyGate.GateIsSound | src/poi.cpp:566-596 | a window dropped for charging under 70 bits cannot reach the free tier, stated on products so that no logarithm is rounded |
| EntropyGate.GateIsSoundOnRecorded | src/poi.cpp:566-596 | the same on the intervals from zero to the recorded probabilities, with nothing assumed about their width |
| EntropyGate.TierExactly | vllm-miner/overlay/vllm/sampling/pow_v3.py:604-623 | below 45 bits of credit a window is invalid, below 70 it needs admission, from 70 on it is free |
| EntropyGate.DroppedExactly | src/poi.cpp:582-596 | on probabilities a window is dropped exactly when their product is above 2^-70 |
| EntropyGate.OutOfRangeCharge | src/poi.cpp:586-588 | anything that is no probability is charged 32 bits |
| CompactTarget.EncodeForm | vllm-miner/overlay/vllm/sampling/uint256_arithmetics.py:33-60 | which bytes the encoding drops for every magnitude, and that decoding restores the target with those bytes cleared and the sign |
| CompactTarget.RoundsDown | vllm-miner/overlay/vllm/sampling/uint256_arithmetics.py:3-60 | decode after encode never exceeds the target and falls short by less than one unit of the kept mantissa |
| CompactTarget.EncodeStable | vllm-miner/overlay/vllm/sampling/uint256_arithmetics.py:3-60 | encoding a decoded value gives the same compact form again |
| CompactTarget.QuantisedMono | vllm-miner/overlay/vllm/sampling/uint256_arithmetics.py:3-60 | decode after encode is monotone |
| CompactTarget.LargestRepresentable | vllm-miner/overlay/vllm/sampling/uint256_arithmetics.py:3-60 | the result is the largest representable target not above the input |
| CompactTarget.OverflowExactly | vllm-miner/overlay/vllm/sampling/uint256_arithmetics.py:19-31 | the overflow flag tells "does not fit 256 bits" except, exactly, for exponent 4 with a mantissa above 0xff00, exponent 33 with one of at least 0x10000 and exponent 34 with one of at least 0x100 |
| CompactTarget.OverflowWitnesses | vllm-miner/overlay/vllm/sampling/uint256_arithmetics.py:19-31 | one compact value of each family |
| CompactTarget.CompactExamples | vllm-miner/overlay/vllm/sampling/uint256_arithmetics.py:3-60 | five encodings and decodings in full: a short one, a long one, one with sign and overflow flag, and the easiest block target both ways |
| CompactTarget.AdjustedIsLargest | vllm-miner/overlay/vllm/sampling/uint256_arithmetics.py:87-147 | the adjusted target is the largest representable one not above the limit nor base * N / D, and fits 32 bytes whenever the limit does |
| CompactTarget.AdjustedOutcome | vllm-miner/overlay/vllm/sampling/uint256_arithmetics.py:87-147 | refused exactly for a difficulty, normaliser or limit that is not positive; else the sign is that of the base and the overflow flag is set in exactly the said cases |
| CompactTarget.AdjustedMono | vllm-miner/overlay/vllm/sampling/uint256_arithmetics.py:87-147 | a larger D or a smaller N never loosens the target |
| Ranking.SelectionUnique | tools/patch-staged-poi.py:213-260 | a selection is determined by its threshold: two outcomes meeting the reference definition are equal |
| Ranking.DenseSelect | tools/patch-staged-poi.py:215-224 | the full-vocabulary scan with its argmax fallback keeps exactly the tokens strictly above the threshold, or the first maximum alone |
| Ranking.PrefixIsAbove | tools/patch-staged-poi.py:225-235 | being strictly above the threshold is being ranked before the first tie with it, also when only a beginning of the ranking is at hand |
| Ranking.RankZeroIsFirstMax | tools/patch-staged-poi.py:711-736 | rank 0 is the argmax the scan would pick, first among ties |
| Ranking.PrefixSelect | tools/patch-staged-poi.py:684-736 | the selection from at most k ranks meets the same definition as the dense scan, hence equals it, and lists the kept ids in ascending order |
| SamplerTail.TailUnique | tools/patch-staged-poi.py:264-485 | the reference definition determines normaliser, probabilities and cumulative values |
| SamplerTail.DenseTail | tools/patch-staged-poi.py:267-283 | the full-vocabulary loops for log-normaliser, masked softmax and cumulative sums meet the reference definition |
| SamplerTail.SurvivorTail | tools/patch-staged-poi.py:284-450 | the loops over the kept tokens alone meet the same definition, hence give identical values, also when the temperature sends some kept logits to minus infinity, using only x + 0 = x and no reordering of sums |
| SamplerTail.KeptIsTail | tools/patch-staged-poi.py:284-450 | a kept token whose logit is minus infinity changes nothing: maximum, sums, probabilities and cumulative values are those of the tokens above it |
| SamplerTail.StagedTail | tools/patch-staged-poi.py:684-737 | selection from the ranked prefix followed by the survivor tail meets the definitions of selection and tail at any temperature that keeps the best logit above minus infinity |
| SamplerTail.DensePath | tools/patch-staged-poi.py:215-283 | so does the full-vocabulary path |
| SamplerTail.StagedIsDense | tools/patch-staged-poi.py:212-485 | two paths that meet them end in the same selection and the same tail |
| ExactTail.TailIsDistribution | tools/patch-staged-poi.py:264-283 | in exact arithmetic the reference definition is a probability distribution: each token's probability is its share of the total weight, zero at minus infinity, they sum to one, and a cumulative entry is the sum up to its token |
| ExactTail.NormaliserIs | tools/patch-staged-poi.py:267-282 | there the log-normaliser is that of the greatest logit and the sum of all weights relative to it |
| CompactCdf.LowerBound | src/compact_cdf.h:36-41 | binary search returns the first index not below the draw |
| CompactCdf.CdfSorted | src/compact_cdf.h:32-34 | cumulative sums of non-negative values never decrease and are never negative |
| CompactCdf.Build | src/compact_cdf.h:14-35 | the constructor yields the survivors in ascending order with their left-to-right cumulative probabilities and the log-normaliser |
| CompactCdf.StepFunction | src/compact_cdf.h:32-34 | the dense distribution is a step function: at every token it is the compact value of the last survivor at or before it |
| CompactCdf.RefinesDense | src/compact_cdf.h:36-41 | a lower bound on the compact values, mapped back, is the dense lower bound: same token and value, at u = 0, past the end and across zero-mass survivors |
| CompactCdf.CompactSamplesAlike | src/compact_cdf.h:14-41 | the same for a distribution built by the constructor against the dense tail of the same selection, log-normaliser included, as long as no kept logit is minus infinity |
| CompactCdf.SampleCompact | tools/optimize-staged-poi.py:30-43 | sampling through the compact path returns the dense path's token, its cumulative value and its log-normaliser, whenever the best logit is above minus infinity |
| TopKMask.LegacyMask | vllm-miner/overlay/vllm/sampling/pow_utils.py:122-126 | sort, mask and scatter-back is a threshold mask at the k-th slot, however the sort breaks ties |
| TopKMask.TopSlotIsKth | vllm-miner/overlay/vllm/sampling/pow_utils.py:117-120 | slot k - 1 of the top values is the k-th largest |
| TopKMask.SortSlotIsKth | vllm-miner/overlay/vllm/sampling/pow_utils.py:122-124 | the gathered slot of the ascending sort is the k-th largest |
| TopKMask.MasksAgree | vllm-miner/overlay/vllm/sampling/pow_utils.py:114-136 | the fast and the legacy tensors are equal exactly when k is at most 50 or the k-th largest ties with the 50th |
| TopKMask.MasksDifferAt51 | vllm-miner/overlay/vllm/sampling/pow_utils.py:114-126 | 51 different logits on which the two differ for k = 51 |
| TopKMask.AtMostKMinusOne | vllm-miner/overlay/vllm/sampling/pow_utils.py:130-136 | the result keeps between 1 and k - 1 logits, those strictly above the k-th largest, or nothing but the first maximum |
| Decoding.PromptPlain | src/engine.cpp:506-522 | one batch puts every prompt in its own sequence and each stream's last row holds the logits of its whole prompt; with the host copy skipped the host buffer stays as it was |
| Decoding.CommonPrefix | src/engine.cpp:451-457 | the scan finds the longest prefix common to all prompts that leaves each a last token |
| Decoding.FeedPrefix | src/engine.cpp:466-479 | the prefix is evaluated once, in batches of any capacity, and every sequence then holds it |
| Decoding.PromptShared | src/engine.cpp:448-505 | the shared-prefix pass leaves the same caches and the same first logits as the plain pass, evaluating the prefix once and each suffix token once, for every batch capacity; with the host copy skipped the host buffer stays as it was |
| Traces.CompletesExactly | src/engine.cpp:700-751 | the reference completes a window of n steps exactly when there is a run of n steps in each of which the sampler gives one token for each stream, none negative; the result is that run's last contexts |
| Traces.RefusedExactly | src/engine.cpp:706-734 | it refuses exactly when such a run is followed by a step that gives no list, a list of another length or a negative token, and names that step and its kind |
| Traces.FullSamplersComplete | src/engine.cpp:700-764 | with a sampler that always gives one token for each stream, none negative, every window completes |
| Stepwise.StepDecoded | src/engine.cpp:733-749 | the rows of one step are accepted, advance every cache by its own token, and row s of the outputs is stream s's next logits |
| Stepwise.WindowShape | src/engine.cpp:591-751 | a window completes exactly when no step is refused, and then every stream is its prompt followed by one token a step |
| Stepwise.Run | src/engine.cpp:407-764 | a window gives exactly the tokens of the per-stream reference, whichever prompt pass and logits source is used; the skip flag is left set exactly when device logits are in use and a negative token stops the window after its first step |
| Stepwise.RegularGivesUp | src/engine.cpp:706-734 | a sampler that succeeds only with a token for every stream never stops a window by a negative token |
| Stepwise.RunAll | src/engine.cpp:407-764 | with such a sampler any number of windows in a row equal the reference, each finding the flag clear |
| Stepwise.StopsAtSecond | src/engine.cpp:706-734 | one sampler that stops by a negative token at its second step, and one that gives up there |
| Stepwise.FlagLeftSet | src/engine.cpp:733-734 | a window with the first of them on device logits does leave the flag set |
| DoubleBuffer.Alternate | src/engine.cpp:912-961 | with one decode in flight per context and private logits copies, every sample reads its own batch's logits after exactly its own context |
| DoubleBuffer.RunDouble | src/engine.cpp:800-976 | both batches complete exactly when each would alone, with the same tokens and sampler states as two separate reference windows, also when a decode of an earlier call is still in flight; which decode is in flight afterwards is told by the steps of the refusals; a window length of 0 acts as 1 |
| DoubleBuffer.Pipe.Clear | src/engine.cpp:835-836 | clearing a context with a decode in flight leaves an empty cache and nothing in flight |
| DoubleBuffer.SameWindow | src/engine.cpp:877-885 | for every network, sampler and non-empty batch, a window of at least one token yields what a window of the given length yields exactly when that length is not 0 |
| DoubleBuffer.SameInputs | src/engine.cpp:817-821 | of two batches of one size, both paths accept the same exactly when those the double-buffered path accepts leave room for the window |
| DoubleBuffer.ZeroWindowDiffers | src/engine.cpp:877-885 | at window length 0 the reference samples nothing and this path one token |
| DoubleBuffer.RoomNotChecked | src/engine.cpp:817-821 | a batch accepted here that the stepwise path refuses for lack of room |
| DoubleBuffer.DecodeLeftInFlight | src/engine.cpp:936-965 | two samplers that give up at their second step leave batch B's decode in flight |
| SamplerPool.Split | src/poi.cpp:899-913 | the ranges partition the streams and each size is the quotient of streams by groups, rounded down or up |
| SamplerPool.AdjustGroups | src/main.cpp:1005-1017 | the group count is raised to the least one for which no group has more than 64 streams, and only then |
| Barrier.SplitIsValid | src/poi.cpp:899-913 | the split just described is a configuration of the barrier |
| Barrier.MidKeeps | src/poi.cpp:746-888 | every move of a worker or of the mining thread keeps the invariant of the step under way |
| Barrier.ReturnDone | src/poi.cpp:1009-1035 | when the wait ends the whole state, results, tokens, sampler states and the returned flag, is what running the groups one after the other gives |
| Barrier.EveryRunTracks | src/poi.cpp:746-1035 | over every interleaving of every run the machine between steps is in the state of the sequential computation of the published inputs |
| Barrier.GatheredSize | src/poi.cpp:854-885 | after a step reported as successful every stream has a token that its own group sampled |
| BarrierStep.StepIs | src/poi.cpp:844-888 | a finished step succeeded exactly when every group had host logits or a successful sort and no stream was refused; each stream has its sampler's answer unless its group could not sample or was refused at it or before, and then -1 |
| BarrierStep.AllServed | src/poi.cpp:844-888 | with logits on the host or sorted in every group and no refusal, the step succeeds and every stream has a token |
| Barrier.HandledOnce | src/poi.cpp:746-888 | each group takes and reports each generation exactly once |
| Barrier.LoanReturned | src/poi.cpp:1009-1035 | no sampling step touches inputs or outputs of any step but the one under way; those of finished steps never change |
| Barrier.NeverStuck | src/poi.cpp:749-1024 | until the step returns some thread can move |
| Barrier.StepIsShort | src/poi.cpp:749-1024 | a step of n streams on G groups returns within n + 2G further moves |
| SubmitQueue.ConservedNext | src/main.cpp:1111-1173 | every move keeps: pushed = queued + in flight + submitted + dropped, by any weighing of shares |
| SubmitQueue.CountedNext | src/main.cpp:1123-1172 | every move keeps the counters equal to what was judged, dropped and submitted, increments in progress apart |
| SubmitQueue.AttendedNext | src/main.cpp:1111-1119 | a queued share always has a submitter awake or a notification on its way; submitters leave only after the last producer and with nothing queued |
| SubmitQueue.FirstInFirstOut | src/main.cpp:1111-1119 | over every run the shares taken, in order, followed by the queue are the shares pushed, in order |
| SubmitQueue.EveryRun | src/main.cpp:1092-1177 | all of the above hold after every run with any number of submitters |
| SubmitQueue.Drained | src/main.cpp:1535-1538 | after the joins the queue is empty and each pushed share was submitted or dropped exactly once |
| SubmitQueue.FinalCounts | src/main.cpp:1123-1172 | then checked, passed, rejected and unavailable are the totals over all shares, and the dropped ones are exactly the rejected ones in mode On |
| SubmitQueue.ShutdownShrinks | src/main.cpp:1535-1538 | after the last producer every move, spurious wake-ups included, brings the end nearer |
| SubmitQueue.ShutdownNeverStuck | src/main.cpp:1111-1119 | and until all submitters have returned some move is possible |
| SubmitQueue.JoinsEnd | src/main.cpp:1535-1538 | so from any reachable state the joins end, within five moves for each queued share and each submitter and one more |
| Circular.WriteAppends | vllm-miner/overlay/vllm/sampling/common_sampler_helper.py:479-482 | overwriting the oldest slot and advancing the position appends to the log the buffer shows |
| Circular.TailShows | vllm-miner/overlay/vllm/sampling/common_sampler_helper.py:405-409 | a tail written from slot 0 shows the prompt it is the tail of, left-padded |
| ContextRing.MessageWindowIsTail | vllm-miner/overlay/vllm/sampling/pow_v3.py:273-276 | the step message hashes the last tokens, left-padded with zeros |
| ContextRing.UpdateKeepsInStep | vllm-miner/overlay/vllm/sampling/common_sampler_helper.py:471-482 | after any update every ring shows its own archive |
| ContextRing.DeferredKeepsInStep | vllm-miner/overlay/vllm/sampling/common_sampler_helper.py:491-535 | so does the device-only update once its tokens are archived |
| ContextRing.Contexts.GetContextWindows | vllm-miner/overlay/vllm/sampling/common_sampler_helper.py:427-438 | the window read from the ring is the one the step message hashes |
| ContextRing.Contexts.UpdateCaches | vllm-miner/overlay/vllm/sampling/common_sampler_helper.py:459-489 | the loop is the batch update function, and the page flip compares the longest archives before and after |
| ContextRing.Contexts.UpdateCachesDeviceOnly | vllm-miner/overlay/vllm/sampling/common_sampler_helper.py:491-519 | the loop is the device-only update function, and the page flip uses prompt length plus counter |
| ContextRing.LongestIsMax | vllm-miner/overlay/vllm/sampling/common_sampler_helper.py:464-489 | the length the page flip compares is at least one, bounds every listed archive and is attained |
| ContextRing.CountedIsMax | vllm-miner/overlay/vllm/sampling/common_sampler_helper.py:491-519 | so is the one the deferred step counts |
| ContextRing.DeferredSplit | vllm-miner/overlay/vllm/sampling/common_sampler_helper.py:459-535 | device-only update followed by archiving leaves rings, archives and counters as one whole update does, with the same page flip |
| Rows.Lend | vllm-miner/overlay/vllm/sampling/pow_utils.py:296-314 | lending the oldest free row keeps rows injective and split between lent and free |
| Rows.TakeBack | vllm-miner/overlay/vllm/sampling/pow_utils.py:316-327 | so does taking one back |
| Rows.RowManager.AllocateRow | vllm-miner/overlay/vllm/sampling/pow_utils.py:296-314 | returns the present row, else lends the row freed longest ago, else none |
| Rows.RowManager.FreeRow | vllm-miner/overlay/vllm/sampling/pow_utils.py:316-327 | returns the row to the end of the queue and forgets the allocation number |
| Rows.RowManager.GetOldestSequence | vllm-miner/overlay/vllm/sampling/pow_utils.py:329-358 | the sequence with the most steps, earliest allocated among equals |
| ProofRing.RingBuffers.Commit | vllm-miner/overlay/vllm/sampling/pow_utils.py:645-679 | a step appends one entry to the log of each listed row, leaves other rows alone, and keeps the host mirror equal to the counters or gives it up |
| ProofRing.RingBuffers.GetWindow | vllm-miner/overlay/vllm/sampling/pow_utils.py:681-693 | the last W entries the row's present owner wrote, oldest first, blank where there are fewer; after W steps the end of its log itself |
| ProofRing.RingBuffers.ClearRow | vllm-miner/overlay/vllm/sampling/pow_utils.py:458-487 | nothing of a row's owner survives and no other row changes |
| ProofRing.RingBuffers.ClearRows | vllm-miner/overlay/vllm/sampling/pow_utils.py:593-643 | the same for a list of rows |
| ProofRing.RingBuffers.WriteParams | vllm-miner/overlay/vllm/sampling/pow_utils.py:509-591 | the row has the parameters, and beside them the length of the header up to 76, or where there is none of the block hash up to 32, and of the VDF up to 1024; nothing else changes |
| ProofRing.RingBuffers.Reset | vllm-miner/overlay/vllm/sampling/common_sampler_helper.py:596-626 | of every row exactly the statistics and the host's copies of the header and VDF lengths are left |
| ProofRing.BlankAfterReset | vllm-miner/overlay/vllm/sampling/common_sampler_helper.py:596-626 | a row is empty after a full reset exactly when its statistics were zero and both lengths were unset |
| ProofRing.StatsOutliveReset | vllm-miner/overlay/vllm/sampling/common_sampler_helper.py:596-626 | a row that is not, for its statistics |
| ProofRing.LengthsOutliveReset | vllm-miner/overlay/vllm/sampling/common_sampler_helper.py:596-626 | a row with parameters and no statistics whose header length is still 76 after the reset |
| StepEnd.DeviceAgrees | vllm-miner/overlay/vllm/sampling/common_sampler_helper.py:628-662 | the device test reports the same proofs as the host test exactly when no id without a row is listed before one that is due |
| StepEnd.DeviceMisattributes | vllm-miner/overlay/vllm/sampling/common_sampler_helper.py:653-662 | an ended sequence listed before one on a boundary is given the other's proof |
| StepEnd.DueExactly | vllm-miner/overlay/vllm/sampling/common_sampler_helper.py:628-662 | a proof is due exactly when the number of steps is a positive multiple of the window length |
| StepEnd.DueWindowsTile | vllm-miner/overlay/vllm/sampling/common_sampler_helper.py:628-662 | over n steps, n / w proofs are due and their windows, one after the other, are the beginning of the row's entries |
| StepFinish.DueElsewhere | vllm-miner/overlay/vllm/sampling/common_sampler_helper.py:567-575 | freeing a sequence changes no other sequence's boundary |
| StepFinish.FinishAgrees | vllm-miner/overlay/vllm/sampling/common_sampler_helper.py:521-583 | archiving and testing each sequence in turn reports the proofs that freeing ended sequences first and testing by row counters reports |
| StepFinish.DecodeStepAgrees | vllm-miner/overlay/vllm/sampling/common_sampler_helper.py:459-583 | a decode step in two parts and one done whole report the same proofs and leave the same rows, free queue, counters, rings and archives |
| StepFinish.StepKeepsInStep | vllm-miner/overlay/vllm/sampling/common_sampler_helper.py:459-583 | after either kind of step the ring of every sequence that goes on shows its archive |
| StepFinish.StepExtends | vllm-miner/overlay/vllm/sampling/common_sampler_helper.py:459-583 | after either kind of step every sequence that goes on has the archive it had followed by its own token |
| StepFinish.OneToken | vllm-miner/overlay/vllm/sampling/common_sampler_helper.py:521-565 | for a single committed token the host work is the one the step is composed of |
| Eviction.ServedExactly | vllm-miner/overlay/vllm/sampling/common_sampler_helper.py:440-457 | visiting a queue of live sequences, all listed ones end in it exactly when their ranks satisfy the condition |
| Eviction.AskingVisits | vllm-miner/overlay/vllm/sampling/common_sampler_helper.py:441-449 | asking for one row is a visit to the queue of live sequences by age |
| Eviction.ListingExists | vllm-miner/overlay/vllm/sampling/pow_utils.py:329-358 | live sequences can be listed by age |
| Eviction.ListingUnique | vllm-miner/overlay/vllm/sampling/pow_utils.py:329-358 | in one way only |
| Eviction.WithoutRow | vllm-miner/overlay/vllm/sampling/common_sampler_helper.py:441-457 | at its turn a listed id is without a row exactly when the ranks say so |
| Eviction.PromptMissing | vllm-miner/overlay/vllm/sampling/common_sampler_helper.py:441-457 | two listed ids of which one has a row, and the prompt of the other alone is not enough |
| Eviction.ListedOneEvicted | vllm-miner/overlay/vllm/sampling/common_sampler_helper.py:444-449 | two rows and two listed ids, of which the live one loses its row to the other |
| SamplerState.GivenIsFresh | vllm-miner/overlay/vllm/sampling/common_sampler_helper.py:449-457 | a sequence given a row finds nothing of the last owner in it, and no other sequence is affected |
| SamplerState.FreedKeepsOthers | vllm-miner/overlay/vllm/sampling/common_sampler_helper.py:567-575 | freeing a sequence leaves every other one its row, context and entries |
| SamplerState.OwnEnsured | vllm-miner/overlay/vllm/sampling/common_sampler_helper.py:440-457 | one row request keeps: every live sequence has all it had or has started over with an empty row, eviction included |
| SamplerState.StepRecords | vllm-miner/overlay/vllm/sampling/common_sampler_helper.py:459-583 | after the writes of a step and the freeing of ended sequences: rows of ended ones blank, the entry on record in every other listed row at the slot of its counter, all other rows untouched |
| SamplerState.DeferredRecords | vllm-miner/overlay/vllm/sampling/common_sampler_helper.py:521-565 | the deferred work leaves the rows in the same way |
| SamplerState.StepAgrees | vllm-miner/overlay/vllm/sampling/common_sampler_helper.py:459-583 | two such steps from states whose lent rows hold the same end in such states |
| CommonSampler.Helper.EnsureRow | vllm-miner/overlay/vllm/sampling/common_sampler_helper.py:441-457 | nothing changes for a sequence with a row; otherwise it gets the oldest free row, else that of the longest-running sequence; it fails exactly when it takes a row and has no prompt |
| CommonSampler.Helper.EnsureRows | vllm-miner/overlay/vllm/sampling/common_sampler_helper.py:440-457 | the call succeeds exactly when every id that takes a row at its turn has a prompt; then every listed id ends with a row exactly when the ranks of the listed live ones allow it; when enough rows are free that is so and nobody loses theirs; in every case live sequences keep all or start over empty |
| CommonSampler.Helper.AllocateRows | vllm-miner/overlay/vllm/v1/sample/ops/topk_topp_sampler.py:742-774 | freeing unlisted sequences first, every listed id ends with a row exactly when the distinct ids number at most the rows; then listed live ones keep all they had, the others start in an empty row, and only the longest-running unlisted ones lose theirs, no more than needed |
| CommonSampler.Helper.MakeRoom | vllm-miner/overlay/vllm/v1/sample/ops/topk_topp_sampler.py:754-772 | frees the longest-running unlisted sequences, as many as rows are short or as there are |
| Rows.SplitCount | vllm-miner/overlay/vllm/sampling/pow_utils.py:282-327 | lent and free rows together number all rows |
| CommonSampler.Helper.FreeSequence | vllm-miner/overlay/vllm/sampling/common_sampler_helper.py:567-575 | row wiped and queued, context and parameters gone |
| CommonSampler.Helper.CheckEos | vllm-miner/overlay/vllm/sampling/common_sampler_helper.py:577-583 | frees exactly the sequences that sampled the end token, in order, their rows wiped, and touches no other row |
| CommonSampler.Helper.ArchiveAndCheckHost | vllm-miner/overlay/vllm/sampling/common_sampler_helper.py:521-565 | archives the committed tokens, then frees an ended sequence, its row wiped, or reports the proof its counter says is due; every other row and its entries stay as they were |
| CommonSampler.Helper.CheckPowSolutions | vllm-miner/overlay/vllm/sampling/common_sampler_helper.py:628-662 | reports the proofs of the host test while the mirror is trusted, else those of the device test with its pairing by list position |
| CommonSampler.Helper.DecodeStep | vllm-miner/overlay/vllm/v1/sample/ops/topk_topp_sampler.py:963-976 | ended sequences leave their rows blank, every other listed row has its entry on record and its token in its archive, no other row or sequence changes; contexts, counters and due proofs as specified, in the order of the sampler, and every ring still shows its archive |
| CommonSampler.Helper.DecodeStepDeferred | vllm-miner/overlay/vllm/sampling/common_sampler_helper.py:491-565 | the same for the step that leaves the archive and the boundary tests to the host |
| CommonSampler.MineAlone | vllm-miner/overlay/vllm/v1/sample/ops/topk_topp_sampler.py:963-976 | a sequence that mines alone for n steps without ending is given n / w proofs, whose windows one after the other are the beginning of what it recorded |
| CommonSampler.Helper.FinishOnHost | vllm-miner/overlay/vllm/sampling/common_sampler_helper.py:521-565 | the host work of a batch, one sequence after the other, on contexts, rows and entries |
| CommonSampler.SameStep | vllm-miner/overlay/vllm/sampling/common_sampler_helper.py:459-662 | the two steps on related helpers whose lent rows hold the same leave them so, with the same page flip, and report the same proofs exactly when the first uses the host mirror or lists no id without a row before a due one |
| CommonSampler.Helper.ContextWindows | vllm-miner/overlay/vllm/sampling/common_sampler_helper.py:427-438 | in every state between steps the windows read from the rings are those the step messages hash |
| CommonSampler.Helper.ResetSamplerState | vllm-miner/overlay/vllm/sampling/common_sampler_helper.py:596-626 | all sequences forgotten, all rows free, the pool consistent, and of every row what the reset of the buffers leaves |
| InputBatch.AddKeeps | vllm-miner/overlay/vllm/v1/worker/gpu_input_batch.py:293-335 | adding keeps ids and indices inverse, holes exactly the removed indices, per-index records owned |
| InputBatch.AddViews | vllm-miner/overlay/vllm/v1/worker/gpu_input_batch.py:319-459 | the new request sees its own tokens, whether they come as ids or as embeddings, its own counters, sampling parameters, generator and bad words; its token mask and embeddings are its own if given, else what the index still held |
| InputBatch.SamplingRules | vllm-miner/overlay/vllm/v1/worker/gpu_input_batch.py:360-386 | a greedy request has temperature 0, any other its own; top-k is its own between 1 and the vocabulary, else the vocabulary; the rest is unchanged |
| InputBatch.AddOthers | vllm-miner/overlay/vllm/v1/worker/gpu_input_batch.py:319-459 | nobody else's view changes |
| InputBatch.RemoveKeeps | vllm-miner/overlay/vllm/v1/worker/gpu_input_batch.py:487-541 | removing keeps the invariant |
| InputBatch.RemoveOthers | vllm-miner/overlay/vllm/v1/worker/gpu_input_batch.py:487-541 | nobody else's view changes |
| InputBatch.RemovedLeaves | vllm-miner/overlay/vllm/v1/worker/gpu_input_batch.py:487-541 | what removal leaves at the index: no request, outputs, blocks, adapter, generator or bad words, a mask that forbids nothing, and everything else as it was |
| InputBatch.ReusedIndexIsClear | vllm-miner/overlay/vllm/v1/worker/gpu_input_batch.py:293-541 | a newcomer that restricts nothing and takes the index just left, when it is the smallest hole, is shown a mask that forbids nothing |
| InputBatch.SwapKeeps | vllm-miner/overlay/vllm/v1/worker/gpu_input_batch.py:543-653 | swapping keeps the invariant |
| InputBatch.SwapTakes | vllm-miner/overlay/vllm/v1/worker/gpu_input_batch.py:543-653 | the first index shows the second request's whole view, mask included, though only active tokens are copied |
| InputBatch.SwapGives | vllm-miner/overlay/vllm/v1/worker/gpu_input_batch.py:543-653 | the second index shows the first request's view with the second's mask, which the first assignment had already overwritten |
| InputBatch.SwapKeepsMask | vllm-miner/overlay/vllm/v1/worker/gpu_input_batch.py:646-653 | the first request keeps its whole view exactly when the two masks are equal |
| InputBatch.MaskLostInSwap | vllm-miner/overlay/vllm/v1/worker/gpu_input_batch.py:646-653 | a batch of two in which a request that forbids a token forbids none after the swap |
| InputBatch.SwapLeaves | vllm-miner/overlay/vllm/v1/worker/gpu_input_batch.py:543-653 | third parties keep theirs |
| InputBatch.MoveViews | vllm-miner/overlay/vllm/v1/worker/gpu_input_batch.py:697-781 | one condensing move leaves every request's view as it was |
| InputBatch.SlideEnds | vllm-miner/overlay/vllm/v1/worker/gpu_input_batch.py:685-786 | once no hole lies below a request the trimmed batch is packed, with all views followed and the move log telling the layout |
| InputBatch.NewcomerMask | vllm-miner/overlay/vllm/v1/worker/gpu_input_batch.py:401-423 | after condensing, a newcomer without allowed tokens gets the mask row left at the end of the batch, so it is unrestricted exactly when that row was clear before |
| InputBatch.InputBatch.AddRequest | vllm-miner/overlay/vllm/v1/worker/gpu_input_batch.py:293-459 | the request takes the smallest hole, else the end; state and invariant as above |
| InputBatch.InputBatch.RemoveRequest | vllm-miner/overlay/vllm/v1/worker/gpu_input_batch.py:487-541 | an unknown id changes nothing; a known one leaves a hole whose mask forbids nothing |
| InputBatch.InputBatch.SwapStates | vllm-miner/overlay/vllm/v1/worker/gpu_input_batch.py:543-653 | two active requests change places, their masks as said above |
| InputBatch.InputBatch.Condense | vllm-miner/overlay/vllm/v1/worker/gpu_input_batch.py:660-786 | terminates with the active requests filling [0, n): ids and indices inverse, every view unchanged, requests below n not moved, the move log replaying the layout, rows beyond n untouched, embeddings kept or, for a moved request without any, inherited from the hole |
| InputBatch.InputBatch.RefreshMetadata | vllm-miner/overlay/vllm/v1/worker/gpu_input_batch.py:788-804 | the next step starts with no holes and no moves on record, and the batch invariant holds again |
| InputBatch.MaskOutlivesCondense | vllm-miner/overlay/vllm/v1/worker/gpu_input_batch.py:771-774 | a run in which a newcomer that forbids nothing forbids what a moved request did |
| InputBatch.EmbedsInherited | vllm-miner/overlay/vllm/v1/worker/gpu_input_batch.py:723-726 | a run in which a request without embeddings ends with those of one that left |
| Framing.PiecesRejoin | src/stratum.cpp:354-360 | the pieces joined with newlines are the stream, and no piece holds a newline |
| Framing.PiecesUnique | src/stratum.cpp:354-360 | no other pieces do that |
| Framing.NonEmptyKeeps | src/stratum.cpp:360-363 | the lines handled are the non-empty pieces, in order |
| Framing.Receiver.Receive | src/stratum.cpp:341-365 | after an accepted chunk the buffer is the unterminated tail of the stream and the lines handled are its non-empty segments in order; a chunk is refused exactly when tail plus chunk exceed 4 MiB |
| Framing.Receiver.Run | src/stratum.cpp:331-366 | for any chunks, the lines handled on a connection are those of the concatenated chunks up to the first refused one |
| Framing.ShortLinesNeverOverflow | src/stratum.cpp:350 | no cutting into chunks of at most 64 KiB is refused when every line is at least that much below the limit |

## Left out

- Sockets, message queues, HTTP, thread timing, CUDA and NVML calls, argument parsing, logging and statistics output.
- llama.cpp, the VDF, Argon2, FlatBuffers and JSON libraries, and the vendored consensus rules: llama is an unknown function of a sequence's tokens, the rest is absent.
- Real IEEE behaviour: signed zeros, NaN, and the accuracy of exp and log; the equalities need none of it.
- Nucleus masking for top_p below 1, debug dumps, the corruption test mode, the device/host comparison mode and rebinding of sampler devices.
- The asynchronous admission of rows, whose caller is not in the modelled files, and grinding of admission nonces; the stored nonce counts as one of a row's parameters.
- Failures of the device itself: a decode that fails for want of memory, a device pointer that vanishes in mid-window, and the fallback codes that report it.
- A sampler that fills only part of its output: the stepwise loop hands it fresh entries of -1 where the double-buffered loop hands it the tokens of two steps before; a sampler here returns all tokens or refuses.
- Tensors and numpy arrays in `ContextRing`, `ProofRing` and `InputBatch` are held as sequences; parallel arrays indexed alike are one array of records. Where an assignment reads a view it has just overwritten, as in the swap of mask rows, its effect is written out.
- The contexts of `ContextRing` are values in a map, so two references to one context are not modelled.
- The per-id sets and dictionaries of the batch (greedy, top-p, log-probabilities, LoRA request sets and the like), pooling models, and the lazily allocated mask, which is here all clear from the start.
- The batch update builder: only that removed indices are kept descending and the smallest is taken first.
- The step-message bytes other than the context window, prompt commitments and admission messages.
- Sha256Kernel.Sha256Many: integers are as wide as they need be, up to the 63-bit bound on the bit count. Where the compiler keeps the length a 32-bit scalar, the bit count overflows from 2^28 bytes on and the result is not claimed; below that it is the same, provided that shifting such a scalar by 32 or more gives zero (`Sha256Kernel.NarrowLength`).
- Credit.ThresholdTable: the table file is taken to hold its defining values; its contents are not part of this model.
- EntropyGate.GateIsSound: the sum of logarithms is exact here; the verifier's intervals are assumed to be at least as wide as the recorded probabilities, which `GateIsSoundOnRecorded` discharges for the recorded intervals.
- CompactCdf.SampleCompact: the best logit is above minus infinity; otherwise the source computes exp of a difference of infinities, which is not a number.
- SamplerTail.StagedTail: likewise for the best scaled logit.
- CompactTarget.AdjustedIsLargest: absent arguments and byte-string targets are not modelled.
- SamplerPool.Split: generations are unbounded, where the source counts in 64 bits.
- Stepwise.Run: recreation of a split model's context between windows, and what is sampled when the flag is set on entry, since the contents of a host buffer that was not written are llama's own.
- DoubleBuffer.RunDouble: that clearing a context takes effect after the decode in flight is llama's doing and taken for granted.
- ContextRing.DeferredSplit: assumes every sampled token is committed, one a sequence a step; the divergence log of partial prefills is not modelled.
- CommonSampler.Helper.EnsureRows: of the state after a failed call only the row lent without a context is stated.
- Time stamps and the clean-up of stale sequences by age.
