# Verification model of the federated IoT platform

This project models the hard core of the platform in Dafny and proves what it promises:

- **The Worker's numerics.** Spike removal, repair and zero-phase filtering (`Despike`, `Repair`, `Fir`, `RowStates`),
  partitioning and transition features (`Features`), the reference random stream (`Twister`), farthest-first selection
  and Lloyd k-means (`Distances`, `Selection`, `Lloyd`), the hand-written Cholesky factorisation and the surrogate
  trained with it (`Cholesky`, `Surrogate`), product-of-experts aggregation with leave-one-out (`Aggregation`), the
  calibrated blend weight (`Blend`), and the online fusion loop with its windows, counters, gates and alarms
  (`RateLimit`, `Windows`, `Fusion`).
- **Results and events on the wire.** Cursor paging over a streamed results file (`Paging`), the chart sample
  (`Sampling`), and the event stream as a printer and a chunked parser (`EventStream`).
- **The client's asynchronous protocols.** The dataset poller and the simulation store as atomic steps between awaits,
  and as objects whose methods are those steps (`Poller`, `Store`).
- **Parameters end to end.** The platform's admission of a profile, the Worker's merge of it and the Worker's own
  validation (`Parameters`, `Merge`, `Preparation`).
- **One claim.** Staging and publishing of artifacts (`Artifacts`), and the task thread, heartbeat thread and repository
  answers around it (`Claim`).

Each module defines what the code does and proves the main results about it. Beside most of them a second module says
what its functions mean in terms of their inputs alone, apart from how they are computed: `DespikeLaws`, `FeatureLaws`,
`TwisterLaws`, `LloydLaws`, `SurrogateLaws`, `AggregationLaws`, `FusionLaws`, `StreamLaws`, `PollerLaws`, `StoreLaws`,
`ParameterLaws`, `PreparedSettings`, `ArtifactLaws` and `ClaimEnds`. `Outcomes`, `Sums`, `Sequences` and `Quotients`
hold what the modules share.

Numbers are exact reals. The platform's square root, exponential, sample deviation, normal quantile, JSON parser, digest and
manifest encoder are parameters; of the square root only that it is the non-negative root is used, of the exponential only
that it is positive, grows, and is one at zero. Clocks, the network, the file system's failures and the
repository's answers are inputs that may take any value. Loops and objects of the source are loops and classes here, each
proved against a function of its inputs or of its old state; the theorems are about those functions.

Properties that do not hold of the code as it stands are stated with the exact condition under which they do:

- the blend weight is not optimal when the predictions hardly differ (`Blend.OptimalExactlyWhen`,
  `Blend.TinySpreadIsMissed`);
- the guard on tiny precisions breaks the hulls of the variances and of the means (`Aggregation.VarianceInHullExactlyWhen`,
  `Aggregation.MeansInHullExactlyWhen`, `Aggregation.HugeVariancesEscape`);
- paging is complete only on increasing indices (`Paging.WalksCompleteExactlyWhen`, `Paging.UnitWalkCompleteExactlyWhen`,
  `Paging.RepeatedIndexIsLost`);
- a watch started from a poller's own handler can be cleared by the old continuation, and a throwing handler can stall
  polling (`Poller.ReentrantWatchSurvivesExactlyWhen`, `Poller.SettleStallsExactlyWhen`,
  `Poller.EveryRunProgressesExactlyWhen`);
- an event with an empty or non-numeric id lets the last event id go back (`Store.OrderIsKeptExactlyWhen`,
  `Store.AcceptedExactlyWhen`, `Store.MonotonicExactlyWhen`, `Store.UnorderedIdForgets`); the client's reader delivers
  no empty one, but delivers a non-numeric one (`Store.NotANumberForgets`);
- subscriptions overlap when a continuation connects while one is open (`Store.OneOpenExactlyWhen`,
  `Store.SelectionsOverlap`);
- an override that names a leaf at the top of the reference makes the admission panic (`Parameters.SparseLeafExactlyWhen`);
- not every accepted profile can be run: the Worker refuses leaves outside its own bounds and combinations the admission
  does not look at (`Preparation.AcceptedProfilePreparesExactlyWhen`, `Preparation.AcceptedProfileIsRefused`);
- not every claim ends with a terminal call (`Claim.ExactlyOneTerminalExactlyWhen`, `Claim.UnreportedEndsSilently`), and
  not everything published is committed (`Claim.PublishedIsCommittedExactlyWhen`, `Claim.FinalCheckCommitsExactlyWhen`,
  `Claim.PublishedMayStayUncommitted`);
- a failed publication leaves its staged directory behind when its mode cannot be set or it cannot be removed
  (`Artifacts.WriteSimulationArtifacts`).

In `preprocessing.py` a window below three never reaches the check at lines 446-447, because shorter windows have returned
and even ones have been widened; the model leaves the dead branch out.

## Model

| member | source | states |
|---|---|---|
| `Fir.FirFilterWithState` | algorithm-worker/src/federated_iot_worker/preprocessing.py:487-494 | the delay-line loop outputs, at every position, the coefficient times the sum of the sample, the earlier samples in reach and what is left of the initial state |
| `Fir.ForwardFirFilter` | algorithm-worker/src/federated_iot_worker/preprocessing.py:456-464 | the causal path outputs the sum of the last `window` samples (zeros before the start) over `window` |
| `Fir.ForwardIsStatelessPass` | algorithm-worker/src/federated_iot_worker/preprocessing.py:456-464 | the causal path equals the delay-line filter started from zeros: two loops, one response |
| `Fir.MovingSumTwice` | algorithm-worker/src/federated_iot_worker/preprocessing.py:482-484 | a moving sum of a moving sum is the triangular kernel of weights w minus the distance |
| `Fir.TwoPasses` | algorithm-worker/src/federated_iot_worker/preprocessing.py:482-484 | forward pass, reversal, backward pass, reversal give that kernel away from the ends, whatever both initial states are |
| `Fir.TrimmedPasses` | algorithm-worker/src/federated_iot_worker/preprocessing.py:467-484 | on the odd extension, cutting the edges leaves exactly (1/w²)·Σ(w-|j|)·ext[i+j], for all initial states |
| `Fir.ZeroPhaseFir` | algorithm-worker/src/federated_iot_worker/preprocessing.py:467-484 | the function returns that signal, or fails exactly when the signal has at most 3(w-1) samples |
| `Fir.AffineFixed` | algorithm-worker/src/federated_iot_worker/preprocessing.py:467-484 | affine signals are fixed points of the filter |
| `Fir.CommutesWithReversal` | algorithm-worker/src/federated_iot_worker/preprocessing.py:467-484 | filtering commutes with time reversal: zero phase |
| `Fir.Superposition` | algorithm-worker/src/federated_iot_worker/preprocessing.py:467-484 | the filter is linear |
| `Fir.SmoothSignal` | algorithm-worker/src/federated_iot_worker/preprocessing.py:441-453 | short signals pass, even windows widen by one, each named path computes its filter, an unknown path is rejected |
| `Repair.LinearRepair` | algorithm-worker/src/federated_iot_worker/preprocessing.py:410-438 | the two scans and the fill produce the unique repair: unmarked samples untouched, marked ones on the line through their nearest unmarked neighbours, end runs extrapolated from the first or last two |
| `Repair.NearestLefts` | algorithm-worker/src/federated_iot_worker/preprocessing.py:413-419 | the forward scan records the nearest unmarked sample to the left, or that there is none |
| `Repair.NearestRights` | algorithm-worker/src/federated_iot_worker/preprocessing.py:414-424 | the backward scan records the nearest unmarked sample to the right, or that there is none |
| `Repair.AnchorsAreUnique` | algorithm-worker/src/federated_iot_worker/preprocessing.py:428-437 | the two samples a repair goes through are determined |
| `Repair.SpikesLeaveNoTrace` | algorithm-worker/src/federated_iot_worker/preprocessing.py:410-438 | the repair does not depend on any marked reading |
| `Repair.RepairIsIdempotent` | algorithm-worker/src/federated_iot_worker/preprocessing.py:410-438 | a second repair changes nothing |
| `Repair.LineIsRestored` | algorithm-worker/src/federated_iot_worker/preprocessing.py:410-438 | if the good samples lie on a line, the whole output does |
| `Repair.InteriorStaysBetween` | algorithm-worker/src/federated_iot_worker/preprocessing.py:430-431 | an interior repair stays between its neighbours |
| `Repair.MarkAndRepair` | algorithm-worker/src/federated_iot_worker/preprocessing.py:382-392 | marks are the residuals over the threshold widened by one sample each side; repaired when two good samples remain, returned as is otherwise |
| `Despike.DespikeAndRepair` | algorithm-worker/src/federated_iot_worker/preprocessing.py:363-392 | short signals are returned unmarked, an unknown filter is rejected, and otherwise the result is the despiked signal: residual from the running median, threshold from its median deviation or, where that vanishes, its sample deviation, nothing marked where both vanish |
| `Despike.MedianHalves` | algorithm-worker/src/federated_iot_worker/preprocessing.py:375-376 | the median has at least half of the values at most at it and at most half below it |
| `Despike.FiltersAgreeInside` | algorithm-worker/src/federated_iot_worker/preprocessing.py:395-406 | the clipped and the zero-padded filter see the same samples away from the ends |
| `Despike.LevelDoesNotMatter` | algorithm-worker/src/federated_iot_worker/preprocessing.py:363-398 | under the clipped filter, raising a signal by any level leaves every mark and raises the repair by that level |
| `Despike.TrendsAreKept` | algorithm-worker/src/federated_iot_worker/preprocessing.py:363-406 | under either filter, a signal that never falls is neither marked nor changed away from its ends |
| `DespikeLaws.MedianIsMiddle` | algorithm-worker/src/federated_iot_worker/preprocessing.py:375-376 | twice the median is the sum of the values of the two middle ranks, counted in the values themselves |
| `DespikeLaws.AroundSees` | algorithm-worker/src/federated_iot_worker/preprocessing.py:395-406 | a filter sees the samples at most half its width away, in order; beyond the ends nothing, or zeros |
| `DespikeLaws.FilterIsOdd` | algorithm-worker/src/federated_iot_worker/preprocessing.py:371-373 | the filter is as wide as the window, or one wider where that is even |
| `DespikeLaws.SpreadHalves` | algorithm-worker/src/federated_iot_worker/preprocessing.py:375-379 | at least half of the residual is within the threshold's spread of its own median and at most half is nearer, unless that spread vanishes and the sample deviation stands in |
| `DespikeLaws.SpreadIgnoresLevel` | algorithm-worker/src/federated_iot_worker/preprocessing.py:375-379 | a constant added to the residual does not change its spread |
| `DespikeLaws.MarksMean` | algorithm-worker/src/federated_iot_worker/preprocessing.py:375-392 | a sample is marked if and only if it or a neighbour has a residual of more than 1.4826 spreads times the factor |
| `RowStates.Classify` | algorithm-worker/src/federated_iot_worker/preprocessing.py:143-167 | the classification loop: modelled rows in order with their motor flags, the two counters, and a rejection exactly when nothing is modelled |
| `RowStates.CountsConserveRows` | algorithm-worker/src/federated_iot_worker/preprocessing.py:147-164 | stops, suspicious and modelled rows add up to all rows |
| `RowStates.StatesPartition` | algorithm-worker/src/federated_iot_worker/preprocessing.py:148-158 | the three states exclude each other and cover every row |
| `RowStates.ReadingsDecide` | algorithm-worker/src/federated_iot_worker/preprocessing.py:148-164 | by the readings: a row is modelled if and only if it moves and some motor draws, a stop if neither, suspicious if one without the other, and flagged if and only if one of the first three motors is idle |
| `Features.PartsAreBalanced` | algorithm-worker/src/federated_iot_worker/features.py:176-177 | each part between rounded edges holds the even share, rounded down or up |
| `Features.PartsHoldExactlyWhen` | algorithm-worker/src/federated_iot_worker/features.py:178-180 | all parts reach a minimum exactly when it is at most the even share rounded down |
| `Features.PartitionContiguousIndices` | algorithm-worker/src/federated_iot_worker/features.py:171-181 | succeeds exactly then; the parts are contiguous and cover every row |
| `Features.SplitIsChronological` | algorithm-worker/src/federated_iot_worker/features.py:184-195 | when the split is defined, that its parts follow each other and cover everything, that no ratio is exceeded and that a test row is always left |
| `Features.FeaturesDoNotAnticipate` | algorithm-worker/src/federated_iot_worker/features.py:114-159 | a feature row sees nothing of the currents at or after its own position, and nothing before its lag window |
| `Features.BuildTransitionDataset` | algorithm-worker/src/federated_iot_worker/features.py:98-168 | succeeds exactly with at least five lags and a longer recording; row, target, trend, score and source row are aligned, each row 4·nLag+32 wide |
| `Features.ConstantSignalHasNoTransition` | algorithm-worker/src/federated_iot_worker/features.py:127-130 | a steady current scores zero and its trend is its level |
| `FeatureLaws.RampsAreRead` | algorithm-worker/src/federated_iot_worker/features.py:98-159 | where every signal is a ramp over the lag rows, the whole row is known: each lag steps back by the rate, slopes and largest steps are the rates, ranges what the ramps span, accelerations vanish, and the trend with gain one is the next value of the ramp |
| `FeatureLaws.MaxAdjacentIsLargest` | algorithm-worker/src/federated_iot_worker/features.py:222-223 | of any window, no step is larger than the largest adjacent one, and some step is that large |
| `FeatureLaws.RangeIsSpanned` | algorithm-worker/src/federated_iot_worker/features.py:98-159 | the range is between two entries that bound all others |
| `FeatureLaws.RoundIsNearest` | algorithm-worker/src/federated_iot_worker/features.py:214-215 | rounding goes to a nearest whole number, and between two to the one farther from zero |
| `RateLimit.ApplyRateLimit` | algorithm-worker/src/federated_iot_worker/simulation.py:764-770 | the loop computes the step-by-step clamp |
| `RateLimit.LimitedMovesWithin` | algorithm-worker/src/federated_iot_worker/simulation.py:764-770 | no two neighbouring outputs are further apart than the limit |
| `RateLimit.UnchangedExactlyWhen` | algorithm-worker/src/federated_iot_worker/simulation.py:764-770 | the limit changes nothing if and only if nothing moved too fast |
| `RateLimit.LimitingTwiceIsOnce` | algorithm-worker/src/federated_iot_worker/simulation.py:764-770 | limiting is idempotent |
| `RateLimit.LimitedIsCausal` | algorithm-worker/src/federated_iot_worker/simulation.py:768-769 | an output depends on no later value |
| `RateLimit.StepIsNearest` | algorithm-worker/src/federated_iot_worker/simulation.py:769-769 | each output is the nearest allowed value to the one asked for |
| `Twister.ReferenceTwister.constructor` | algorithm-worker/src/federated_iot_worker/simulation.py:40-45 | seeding fills the first 624 words of the recurrence |
| `Twister.ReferenceTwister.Refresh` | algorithm-worker/src/federated_iot_worker/simulation.py:48-52 | the in-place refresh with wrapped indices leaves exactly the next 624 words of the infinite recurrence |
| `Twister.ReferenceTwister.Word` | algorithm-worker/src/federated_iot_worker/simulation.py:47-58 | any number of draws delivers the tempered recurrence in order, as section 26.5.3.2 of ISO/IEC 14882:2011 defines it |
| `Twister.ReferenceTwister.Uniform` | algorithm-worker/src/federated_iot_worker/simulation.py:60-61 | a sample from the next two words, always in [0, 1-2⁻⁵³] |
| `Twister.ReferenceTwister.Randi` | algorithm-worker/src/federated_iot_worker/simulation.py:63-66 | a scaled index below the bound, without the clamp; a bound below one is an error |
| `Twister.SequenceDependsOnLowBits` | algorithm-worker/src/federated_iot_worker/simulation.py:40-44 | only the seed modulo 2³² matters |
| `Twister.CombineRange` | algorithm-worker/src/federated_iot_worker/simulation.py:60-61 | the combination of two words lies in [0, 1-2⁻⁵³] |
| `Twister.ScaledFloorInRange` | algorithm-worker/src/federated_iot_worker/simulation.py:66-66 | scaling such a sample and rounding down stays below the bound |
| `TwisterLaws.TemperIsUndone` | algorithm-worker/src/federated_iot_worker/simulation.py:55-58 | tempering can be undone: an explicit inverse reads every word back from its output |
| `TwisterLaws.TwistIsUndone` | algorithm-worker/src/federated_iot_worker/simulation.py:50-51 | a refreshed word and the one it was folded with give back the highest bit of the word and the other bits of its successor |
| `TwisterLaws.SeedingIsUndone` | algorithm-worker/src/federated_iot_worker/simulation.py:42-44 | each seeded word gives back the one before it |
| `TwisterLaws.SeedsAreReadBack` | algorithm-worker/src/federated_iot_worker/simulation.py:40-44 | two streams that hold one same word of the seeded state started from the same seed modulo 2³² |
| `TwisterLaws.AgreementLasts` | algorithm-worker/src/federated_iot_worker/simulation.py:47-58 | two streams that agree on 624 outputs in a row, from wherever in each, agree on all outputs after them |
| `TwisterLaws.SampleHasBits` | algorithm-worker/src/federated_iot_worker/simulation.py:60-61 | a sample times 2⁵³ is the whole number made of the 27 high bits of one output and the 26 high bits of the next |
| `TwisterLaws.SamplesAreReadBack` | algorithm-worker/src/federated_iot_worker/simulation.py:47-61 | the k-th sample of a stream gives back the high bits of two outputs in a row, and each output its word of the sequence |
| `Distances.NearestIsLeast` | algorithm-worker/src/federated_iot_worker/simulation.py:852-856 | the nearest squared distance is a lower bound that is attained |
| `Distances.ArgMaxIsFirstLargest` | algorithm-worker/src/federated_iot_worker/simulation.py:854-854 | the farthest point is the first of the largest |
| `Distances.ArgMinIsFirstSmallest` | algorithm-worker/src/federated_iot_worker/simulation.py:793-793 | ties of the assignment go to the lowest index |
| `Selection.FarthestPointSubset` | algorithm-worker/src/federated_iot_worker/simulation.py:846-857 | the loop with its running minimum selects farthest first from the seeded start, as many points as asked for or all |
| `Selection.Extend` | algorithm-worker/src/federated_iot_worker/simulation.py:853-856 | the running minimum stays the true nearest distance to everything chosen |
| `Selection.ChosenAreSeparated` | algorithm-worker/src/federated_iot_worker/simulation.py:846-857 | chosen points are pairwise at least as far apart as any point is from them |
| `Selection.SelectionIsTwoApproximation` | algorithm-worker/src/federated_iot_worker/simulation.py:846-857 | whatever squared radius any other set of as many centres reaches, anywhere in the space, the selection reaches four times it |
| `Lloyd.MeanIsBest` | algorithm-worker/src/federated_iot_worker/simulation.py:798-800 | no centre is closer to its members in total than their mean |
| `Lloyd.AssignedCostByCluster` | algorithm-worker/src/federated_iot_worker/simulation.py:792-803 | the assigned cost is the sum of the clusters' spreads |
| `Lloyd.StepDescends` | algorithm-worker/src/federated_iot_worker/simulation.py:792-803 | one iteration, re-seeding of empty clusters from the old distances included, never raises the cost |
| `Lloyd.IterateDescends` | algorithm-worker/src/federated_iot_worker/simulation.py:790-804 | nor does any number of iterations |
| `Lloyd.RepeatedAssignmentIsFixed` | algorithm-worker/src/federated_iot_worker/simulation.py:794-795 | when the assignment repeats, every non-empty cluster's centre is the mean of exactly the points assigned to it |
| `Lloyd.EarlyStopIsFixed` | algorithm-worker/src/federated_iot_worker/simulation.py:790-804 | whenever the loop breaks early, wherever it was entered, every non-empty cluster of the final centres has its mean as centre |
| `Lloyd.CostIsNonnegative` | algorithm-worker/src/federated_iot_worker/simulation.py:790-804 | the cost those steps lower is bounded by zero |
| `Lloyd.Update` | algorithm-worker/src/federated_iot_worker/simulation.py:797-803 | the in-place rewrite of the centres is the simultaneous step |
| `Lloyd.SimpleKMeans` | algorithm-worker/src/federated_iot_worker/simulation.py:779-804 | farthest-first seeds, the result of iterating from them at most that many times, a cost no higher than theirs, and fixed centres whenever an assignment repeats before the iterations run out |
| `LloydLaws.MembersAreThoseAssigned` | algorithm-worker/src/federated_iot_worker/simulation.py:797-799 | the members of a cluster are exactly the points assigned to it, each once and in order |
| `LloydLaws.StepMoves` | algorithm-worker/src/federated_iot_worker/simulation.py:792-803 | in one step each point goes to the first of its nearest centres; a cluster with points moves to their centroid, coordinate by coordinate, and one without to the first of the points farthest from all old centres |
| `LloydLaws.IterateStopsAtFirstRepeat` | algorithm-worker/src/federated_iot_worker/simulation.py:790-804 | the loop takes exactly the steps up to the first that repeats its assignment, or all it is allowed, and stops early exactly in the first case |
| `Cholesky.Factorise` | algorithm-worker/src/federated_iot_worker/simulation.py:1120-1132 | the row-by-row loop returns a factor with positive diagonal, or fails at a pivot that is not positive |
| `Cholesky.FactorIsGram` | algorithm-worker/src/federated_iot_worker/simulation.py:1120-1132 | on a symmetric matrix the factor times its transpose is the matrix |
| `Cholesky.FactorIsPositiveDefinite` | algorithm-worker/src/federated_iot_worker/simulation.py:1126-1129 | a factored symmetric matrix is positive definite |
| `Cholesky.StuckIsNotPositiveDefinite` | algorithm-worker/src/federated_iot_worker/simulation.py:1127-1128 | a matrix that fails is not |
| `Cholesky.FactoriseSymmetric` | algorithm-worker/src/federated_iot_worker/simulation.py:1120-1132 | so the factorisation succeeds if and only if the matrix is positive definite |
| `Surrogate.ForwardSolve` | algorithm-worker/src/federated_iot_worker/simulation.py:1135-1139 | the forward sweep solves the lower triangular system |
| `Surrogate.BackwardSolve` | algorithm-worker/src/federated_iot_worker/simulation.py:1144-1147 | the backward sweep solves the transposed one |
| `Surrogate.SolveCholesky` | algorithm-worker/src/federated_iot_worker/simulation.py:1142-1147 | together they solve the system of every matrix the factor factors |
| `Surrogate.SolutionIsUnique` | algorithm-worker/src/federated_iot_worker/simulation.py:1142-1147 | of which there is only one solution when it is positive definite |
| `Surrogate.VarianceFormulasAgree` | algorithm-worker/src/federated_iot_worker/simulation.py:288-297 | v·A⁻¹v of the local model equals the squared norm of the forward solve the surrogate subtracts (lines 730-733) |
| `Surrogate.KernelIsSymmetric` | algorithm-worker/src/federated_iot_worker/simulation.py:1116-1117 | the kernel matrix is square and symmetric |
| `Surrogate.RegularisedIsSymmetric` | algorithm-worker/src/federated_iot_worker/simulation.py:657-663 | and stays so with noise, floor and jitter on the diagonal |
| `Surrogate.JitterPositive` | algorithm-worker/src/federated_iot_worker/simulation.py:658-668 | the schedule starts at zero and is positive afterwards |
| `Surrogate.FactorWithJitter` | algorithm-worker/src/federated_iot_worker/simulation.py:658-672 | the reported jitter is the one factored and the first of the schedule that works; the loop fails if and only if none does |
| `Surrogate.TrainSurrogate` | algorithm-worker/src/federated_iot_worker/simulation.py:651-672 | the trained model solves its regularised system, which is positive definite |
| `SurrogateLaws.KernelFallsWithDistance` | algorithm-worker/src/federated_iot_worker/simulation.py:1116-1117 | the kernel is the signal variance at one point, falls with the distance of two, and stays positive |
| `SurrogateLaws.KernelAt` | algorithm-worker/src/federated_iot_worker/simulation.py:1116-1117 | its value is the variance times the exponential of minus the squared distance over twice the squared length scale |
| `SurrogateLaws.RegularisedAt` | algorithm-worker/src/federated_iot_worker/simulation.py:657-663 | the diagonal is raised by the guarded noise of its own anchor, the regularisation and the jitter, and nothing else changes |
| `SurrogateLaws.JitterGrowsTenfold` | algorithm-worker/src/federated_iot_worker/simulation.py:658-668 | no jitter at first, then powers of ten times a thousandth of the regularisation, or 1e-10 if that is more |
| `SurrogateLaws.FitMissesByGuard` | algorithm-worker/src/federated_iot_worker/simulation.py:651-672 | the trained surrogate misses the target of each anchor by exactly that anchor's guard times its coefficient |
| `Aggregation.NormalizeGivesWeights` | algorithm-worker/src/federated_iot_worker/simulation.py:1253-1257 | non-negative values with a positive total become weights that sum to one |
| `AggregationLaws.NormalizeKeepsProportions` | algorithm-worker/src/federated_iot_worker/simulation.py:1253-1257 | in the proportions of the values: weight times total is the value, and any two weights are as their values |
| `Aggregation.FusedInHull` | algorithm-worker/src/federated_iot_worker/simulation.py:236-245 | for guarded variances of at most 1/ε the mean lies in the hull of its inputs and the variance between the smallest and largest guarded one |
| `Aggregation.VarianceInHullExactlyWhen` | algorithm-worker/src/federated_iot_worker/simulation.py:236-245 | the fused variance never exceeds the largest guarded variance, and is at least the smallest if and only if the smallest is at most 1/ε or is the floor |
| `Aggregation.MeansInHullExactlyWhen` | algorithm-worker/src/federated_iot_worker/simulation.py:236-245 | whatever the means, the fused mean lies in their hull if and only if the precision reaches ε or its reciprocal is the floor |
| `Aggregation.HugeVariancesEscape` | algorithm-worker/src/federated_iot_worker/simulation.py:243-245 | two experts with mean 1 and variance 2/ε fuse to mean 1/2 and variance 1/ε: both hulls do fail |
| `Aggregation.ReciprocalExactlyWhen` | algorithm-worker/src/federated_iot_worker/simulation.py:243-244 | the variance is the reciprocal precision if and only if the guard on small precisions does not bite |
| `Aggregation.RemainingIgnoresLeftOut` | algorithm-worker/src/federated_iot_worker/simulation.py:139-156 | across all zero-support fallbacks and ties, the support of the other two does not depend on the Agent left out |
| `Aggregation.LeaveOneOut` | algorithm-worker/src/federated_iot_worker/simulation.py:151-162 | the leave-one-out aggregate is a function of the other two contributions alone |
| `Aggregation.LeftOutNeverMatters` | algorithm-worker/src/federated_iot_worker/simulation.py:138-166 | changing an Agent's means, variances or support never changes its own leave-one-out values |
| `Aggregation.Aggregate` | algorithm-worker/src/federated_iot_worker/simulation.py:127-173 | the loop aggregates every anchor as the three functions of one anchor do, and fails exactly on a wrong number of contributions or of anchors; what they compute follows |
| `Aggregation.AddAnchor` | algorithm-worker/src/federated_iot_worker/simulation.py:138-166 | one turn of it appends one anchor's values and keeps the earlier ones |
| `AggregationLaws.EffectiveMeans` | algorithm-worker/src/federated_iot_worker/simulation.py:139-141 | supports that are positive count as they are; if none is, the first of the largest counts alone |
| `AggregationLaws.AggregateBalances` | algorithm-worker/src/federated_iot_worker/simulation.py:236-245 | for guarded variances of at most 1/ε: the pulls support·(mean - input)/variance cancel at the aggregated mean, and the variance is the total support over the total of support per variance |
| `AggregationLaws.AnchorBalances` | algorithm-worker/src/federated_iot_worker/simulation.py:138-150 | so they do at every anchor the loop aggregates, and the weights are the effective supports in proportion |
| `AggregationLaws.PairBalances` | algorithm-worker/src/federated_iot_worker/simulation.py:151-162 | and in every leave-one-out pair |
| `AggregationLaws.SoleSupporterDecides` | algorithm-worker/src/federated_iot_worker/simulation.py:127-150 | where one Agent alone has positive support, the anchor has that Agent's mean and its guarded variance |
| `AggregationLaws.PairFollowsSupport` | algorithm-worker/src/federated_iot_worker/simulation.py:151-162 | more support of one Agent never moves the pair's mean away from it, nor out of the interval between the two |
| `Blend.LossIsQuadratic` | algorithm-worker/src/federated_iot_worker/simulation.py:1104-1108 | the squared error of a blend is a quadratic in the weight |
| `Blend.OptimalWhenSpread` | algorithm-worker/src/federated_iot_worker/simulation.py:1107-1108 | when the predictions differ by more than ε the quotient, clamped, is the unique minimiser over [0, maximum] |
| `Blend.OptimalExactlyWhen` | algorithm-worker/src/federated_iot_worker/simulation.py:1104-1108 | the returned weight is a minimiser if and only if they differ that much, or the slope at zero is not downhill, or the maximum is zero |
| `Blend.TinySpreadIsMissed` | algorithm-worker/src/federated_iot_worker/simulation.py:1104-1108 | for predictions a hundred-millionth apart the returned weight is zero, although weight one has no error and zero has one |
| `Blend.BlendIsBetween` | algorithm-worker/src/federated_iot_worker/simulation.py:592-592 | a blend with a weight in [0, 1] lies between its parts |
| `Windows.WindowIsLast` | algorithm-worker/src/federated_iot_worker/simulation.py:1087-1092 | a window of positive size is the last entries of everything it was given |
| `Windows.InitialWindowExactlyWhen` | algorithm-worker/src/federated_iot_worker/simulation.py:1037-1042 | calibration has enough scores if and only if both the scores and the window reach the minimum |
| `Windows.SortedIsRanked` | algorithm-worker/src/federated_iot_worker/simulation.py:1054-1057 | the sorted entry at the clamped position has at least its rank of entries at most it and fewer below it |
| `Windows.CountsArePositions` | algorithm-worker/src/federated_iot_worker/simulation.py:1054-1057 | the counts that ranks are measured by are numbers of positions |
| `Windows.QuantileCovers` | algorithm-worker/src/federated_iot_worker/simulation.py:1053-1058 | the calibration scale admits at least the asked fraction of n+1 scores, and no smaller score does, unless its bounds bind |
| `Windows.RecentIsDefined` | algorithm-worker/src/federated_iot_worker/simulation.py:1095-1101 | a window of squared errors has a recent mean between zero and its winsorising value |
| `Windows.RecentUndefinedExactlyWhen` | algorithm-worker/src/federated_iot_worker/simulation.py:1096-1098 | the mean is infinite if and only if no entry is non-negative |
| `Windows.RecentIsWinsorised` | algorithm-worker/src/federated_iot_worker/simulation.py:1095-1101 | the recent mean is the mean of the non-negative entries, each cut off at an entry that reaches the asked rank |
| `Windows.RecentBetween` | algorithm-worker/src/federated_iot_worker/simulation.py:1095-1101 | it lies between any two numbers that all the entries lie between |
| `Fusion.ForecastIsAdmissible` | algorithm-worker/src/federated_iot_worker/simulation.py:564-594 | weight in [0, maximum], fused value between its parts, at most one win counter positive, band within its bounds |
| `Fusion.EveryForecastIsAdmissible` | algorithm-worker/src/federated_iot_worker/simulation.py:549-641 | the same at every point of every run |
| `Fusion.StepKeepsSound` | algorithm-worker/src/federated_iot_worker/simulation.py:549-641 | one turn keeps windows non-empty and bounded, errors non-negative, the weight admissible and the counters exclusive |
| `Fusion.InitialIsSound` | algorithm-worker/src/federated_iot_worker/simulation.py:538-548 | and the start satisfies it |
| `Fusion.ForecastsDoNotAnticipate` | algorithm-worker/src/federated_iot_worker/simulation.py:549-641 | two runs that agree before point k make the same forecasts up to and at k, whatever the targets from k on |
| `Fusion.EveryWindowIsLast` | algorithm-worker/src/federated_iot_worker/simulation.py:629-640 | each of the five windows is the last N of what it started with and what every point taught (`FusionLaws.WindowsAreOfPoints` says what that is) |
| `Fusion.CountersAreRunLengths` | algorithm-worker/src/federated_iot_worker/simulation.py:601-603 | the heavy and light counters are the lengths of the current runs |
| `Fusion.LoadLevelExactlyWhen` | algorithm-worker/src/federated_iot_worker/simulation.py:1004-1014 | the load level reaches alarm, warning or notice if and only if the point is over an absolute threshold or that many last points were all heavy or all light |
| `Fusion.AlarmsAreConsistent` | algorithm-worker/src/federated_iot_worker/simulation.py:1003-1030 | the overall rank is the maximum of the two, and a level above none is exactly what has reasons |
| `Fusion.LostSupportDecays` | algorithm-worker/src/federated_iot_worker/simulation.py:566-591 | over any run without surrogate support the weight falls geometrically with the fall smoothing while local wins add up |
| `Fusion.LocalWinsDecay` | algorithm-worker/src/federated_iot_worker/simulation.py:580-591 | with enough local wins the raw weight is zero and the weight shrinks by exactly the fall smoothing |
| `Fusion.GlobalWinsRaise` | algorithm-worker/src/federated_iot_worker/simulation.py:582-584 | enough global wins lift the raw weight to three quarters of the clear threshold, or to the maximum |
| `Fusion.DrawsStayLow` | algorithm-worker/src/federated_iot_worker/simulation.py:585-589 | without enough wins on either side the gated raw weight stays between zero and the neutral limit |
| `Fusion.BothClearExactlyWhen` | algorithm-worker/src/federated_iot_worker/simulation.py:566-573 | with a margin and support, both sides are clearly better at once if and only if neither has erred; the code then credits the global side |
| `Fusion.MixtureIsSecondMoment` | algorithm-worker/src/federated_iot_worker/simulation.py:1111-1113 | the mixture formula is the variance of the two-component mixture about the fused mean |
| `Fusion.ReliabilityIsMonotone` | algorithm-worker/src/federated_iot_worker/simulation.py:574-576 | the reliability weight lies in [0, 1] and rises with support and with the local cost, falls with the global cost |
| `FusionLaws.WindowsAreOfPoints` | algorithm-worker/src/federated_iot_worker/simulation.py:629-640 | after any run the local error window is the last N of the initial one and the squares of target minus local mean, the global one likewise, and the score windows hold each side's own miss over its own deviation, all spelt out from the points |
| `FusionLaws.ExactSideIsClear` | algorithm-worker/src/federated_iot_worker/simulation.py:564-567 | if the local mean was the target at each of the last errorWindow points and the global mean missed at each, the recent local error is zero and the local side alone is clear; likewise for the global side with support |
| `FusionLaws.ClearExactlyWhen` | algorithm-worker/src/federated_iot_worker/simulation.py:566-567 | a side is clear if and only if its recent error is below the other's by the margin's share of it, with support for the global side, or without for the local one |
| `FusionLaws.WinsMove` | algorithm-worker/src/federated_iot_worker/simulation.py:568-573 | a clear side counts one more win and clears the other's; without one every count goes down by one, not below zero |
| `FusionLaws.WeightFollowsExactSide` | algorithm-worker/src/federated_iot_worker/simulation.py:549-641 | whatever the run started with, after a window and the needed wins of points at which one side alone was exact, the raw weight is zero, or as high as the settings allow |
| `FusionLaws.ForecastMeans` | algorithm-worker/src/federated_iot_worker/simulation.py:556-563 | each scale is a bound of the asked rank on its own window, each band its own scale times its own deviation within the limits, each variance its own band over the multiplier, squared |
| `FusionLaws.FusedMeans` | algorithm-worker/src/federated_iot_worker/simulation.py:592-593 | the fused value is the weight's share of the way from local to global, and its variance the second moment of the mixture about it |
| `FusionLaws.RawWeightMeans` | algorithm-worker/src/federated_iot_worker/simulation.py:574-589 | the share has odds support times local cost over global cost, each gate its quotient capped at one, and the raw weight is the product that the wins select, clamped |
| `FusionLaws.DisagreementGateMeans` | algorithm-worker/src/federated_iot_worker/simulation.py:578-586 | agreement passes the gate freely, and more disagreement or less variance never passes more |
| `FusionLaws.WeightMoves` | algorithm-worker/src/federated_iot_worker/simulation.py:590-591 | the weight goes from its last value towards the raw one by one minus the smoothing of its direction |
| `FusionLaws.StatusMeans` | algorithm-worker/src/federated_iot_worker/simulation.py:599-601 | the status is normal if and only if the target is within the band, heavy only above the fused value and light only below |
| `FusionLaws.ReasonsMean` | algorithm-worker/src/federated_iot_worker/simulation.py:1004-1014 | each reason about a run of points is given if and only if that many last points were heavy, or light, and the next level is not reached |
| `FusionLaws.RowReasonsMean` | algorithm-worker/src/federated_iot_worker/simulation.py:1015-1030 | each reason about one row is given if and only if its value is over its threshold or its flag is set, and the data level follows from them |
| `FusionLaws.InitialMeans` | algorithm-worker/src/federated_iot_worker/simulation.py:538-548 | the loop starts from calibration's windows, with the calibrated weight times the first point's support gate and no run of loads |
| `FusionLaws.InitialWinsFollowLead` | algorithm-worker/src/federated_iot_worker/simulation.py:1076-1084 | calibration hands the wins to the side that leads, and none where neither does |
| `Fusion.FuseFrom` | algorithm-worker/src/federated_iot_worker/simulation.py:549-642 | the loop produces the row of every point and, in ascending order and once each, the indices of those that alarm, or stops exactly at a cancellation seen on an eighth point |
| `Fusion.OnlineFuse` | algorithm-worker/src/federated_iot_worker/simulation.py:531-642 | the whole function, from the calibrated windows; what its steps mean is stated in `FusionLaws` |
| `Paging.ReadResultCsvPage` | backend/internal/httpapi/api.go:1567-1648 | the single pass, with counter or sliding window, returns the page the cursor deserves; a row the reader rejects anywhere fails the page |
| `Paging.NextPageContinues` | backend/internal/httpapi/api.go:1607-1645 | the next page continues exactly where the page before stopped |
| `Paging.WalkDelivers` | backend/internal/httpapi/api.go:1567-1648 | following cursors delivers the remaining rows in order for any, varying, positive page sizes |
| `Paging.WalkIsComplete` | backend/internal/httpapi/api.go:1567-1648 | from the start: every matching row exactly once, in order or reversed |
| `Paging.UnitWalkIsOrdered` | backend/internal/httpapi/api.go:1607-1631 | a walk by single rows is strictly ordered on any file |
| `Paging.UnitWalkCompleteExactlyWhen` | backend/internal/httpapi/api.go:1607-1631 | and complete if and only if the matching indices strictly increase |
| `Paging.WalksCompleteExactlyWhen` | backend/internal/httpapi/api.go:1567-1648 | walks of all page sizes are complete if and only if the matching indices strictly increase |
| `Paging.RepeatedIndexIsLost` | backend/internal/httpapi/api.go:1607-1631 | of any two rows with the same index, a walk by single rows delivers only one |
| `Paging.TotalIsStable` | backend/internal/httpapi/api.go:1603-1606 | every page of a run reports the same total |
| `Paging.CursorShrinks` | backend/internal/httpapi/api.go:1608-1620 | a cursor taken from a delivered row leaves fewer rows, in any file |
| `Paging.PageShrinks` | backend/internal/httpapi/api.go:1632-1645 | so following cursors terminates on any file |
| `Paging.MatchingIsAsked` | backend/internal/httpapi/api.go:1697-1711 | every row of the file counts among the matching ones as often as in the file if its index and its time lie in the asked ranges, ends included, and not at all otherwise |
| `Paging.MatchingKeepsOrder` | backend/internal/httpapi/api.go:1591-1606 | the matching rows of a longer file are those of the file, then those of the rest: they keep its order |
| `Paging.DeliveredIsAsked` | backend/internal/httpapi/api.go:1603-1620 | every delivered row is one of the file's, in the asked ranges, and strictly past the cursor |
| `Sampling.ReadSampledResultCsv` | backend/internal/httpapi/api.go:2198-2255 | the pass returns the sampled points, the sum of interval widths and their number, and fails exactly on an invalid row |
| `Sampling.NothingImportantIsLost` | backend/internal/httpapi/api.go:2241-2253 | every index that alarms or lies on the stride, and the last, is shown, and none twice |
| `Sampling.ChartIsSmall` | backend/internal/httpapi/api.go:2199-2202 | never more points than the maximum, the alarms and one |
| `Sampling.ChartIncreases` | backend/internal/httpapi/api.go:2242-2253 | on increasing indices the points are in order |
| `Sampling.ShownExactlyWhen` | backend/internal/httpapi/api.go:2225-2253 | an index is shown if and only if a row with it alarms, lies on the stride or has the last row's index, and everything shown is a row of the file |
| `Sampling.StrideIsLeast` | backend/internal/httpapi/api.go:2199-2202 | the stride is the least with which at most the maximum of rows lie on it |
| `Sampling.WidthsAverageBetween` | backend/internal/httpapi/api.go:2235-2240 | the summed widths over their count are an average: between any bounds on all of them, and zero without any |
| `EventStream.ReadStream` | frontend/src/api/live-api.ts:78-90 | what the chunked read loop delivers, up to the first payload that does not parse or handler that throws, is a function of the whole text read before the subscription is closed, so no split into chunks changes it |
| `EventStream.AbortDeliversLess` | frontend/src/api/live-api.ts:78-92 | closing the subscription between chunks cuts the deliveries short and changes nothing else |
| `EventStream.SplitResumes` | frontend/src/api/live-api.ts:81-82 | splitting can be resumed from the kept tail of the buffer |
| `EventStream.FailureIsFinal` | frontend/src/api/live-api.ts:88-92 | once a payload fails to parse or its handler throws, unread text changes nothing |
| `EventStream.DecimalParses` | frontend/src/api/live-api.ts:87-87 | the decimal text of a natural number reads back as that number |
| `EventStream.FrameDelivers` | frontend/src/api/live-api.ts:84-88 | the frame of an event delivers exactly it |
| `EventStream.WrittenSplits` | backend/internal/httpapi/api.go:2563-2566 | the written text splits into one frame per event and nothing else |
| `EventStream.RoundTrip` | backend/internal/httpapi/api.go:2563-2566 | for every list of events the client can parse and handle and every cut of the written text, exactly the ids, names and payloads arrive in order (sections 9.2.5 and 9.2.6 of the WHATWG HTML Living Standard) |
| `StreamLaws.FrameDeliversExactlyWhen` | frontend/src/api/live-api.ts:84-88 | any frame, whoever wrote it, delivers an event if and only if it has a type and data that parses, fails if and only if its data does not parse or its handler throws, and hands its id on in every case |
| `StreamLaws.TrimmedIsRest` | frontend/src/api/live-api.ts:85-85 | exactly the white space after the colon is stripped |
| `Poller.EveryRunIsSafe` | frontend/src/state/dataset-poller.ts:34-82 | in every interleaving: at most one request of the current generation, requestActive says exactly that, no timer beside it |
| `Poller.StepCallsCurrent` | frontend/src/state/dataset-poller.ts:67-75 | a callback is for the current generation and the watched dataset |
| `Poller.NoLateCallbacks` | frontend/src/state/dataset-poller.ts:59-82 | no callback of an earlier generation ever fires later |
| `Poller.StoppedIsSilent` | frontend/src/state/dataset-poller.ts:42-50 | after a stop nothing started before it is reported |
| `Poller.SettleStallsExactlyWhen` | frontend/src/state/dataset-poller.ts:66-81 | polling stalls if and only if a current request is aborted, or its handlers, without having stopped or restarted the poller, throw: onDataset an AbortError, or both an error |
| `Poller.EveryRunProgressesExactlyWhen` | frontend/src/state/dataset-poller.ts:34-82 | in every run, a polled dataset has a request or a timer pending all along if and only if no step stalls it |
| `Poller.ReentrantWatchSurvivesExactlyWhen` | frontend/src/state/dataset-poller.ts:69-71 | if onDataset calls back any number of times and watches a dataset last, that watch survives if and only if the dataset just delivered still needs polling |
| `Poller.DatasetPoller.Watch` | frontend/src/state/dataset-poller.ts:34-40 | the method is the watch step |
| `Poller.DatasetPoller.Stop` | frontend/src/state/dataset-poller.ts:42-50 | the method is the stop step |
| `Poller.DatasetPoller.Poll` | frontend/src/state/dataset-poller.ts:59-67 | poll up to its await is the poll step |
| `Poller.DatasetPoller.RequestSettled` | frontend/src/state/dataset-poller.ts:67-81 | poll from its await on is the settle step, handlers calling back any number of times and throwing either kind of error included |
| `Poller.DatasetPoller.TimerFired` | frontend/src/state/dataset-poller.ts:56-56 | the timer callback is the timer step |
| `PollerLaws.WatchAsksExactlyWhen` | frontend/src/state/dataset-poller.ts:6-40 | watching gives up what was watched and asks for the dataset at once if and only if it has an id, a status that is going on and none that has ended |
| `PollerLaws.AnswerIsFollowedExactlyWhen` | frontend/src/state/dataset-poller.ts:67-81 | a reported answer is followed by another question if and only if the dataset answered is still going on, and otherwise forgotten |
| `PollerLaws.FailureIsFollowedExactlyWhen` | frontend/src/state/dataset-poller.ts:72-81 | a failed request is reported and followed by another question if and only if it was not aborted |
| `PollerLaws.EarlierGenerationIsIgnored` | frontend/src/state/dataset-poller.ts:67-81 | a request of an earlier generation settles without a trace, whatever its outcome |
| `PollerLaws.TimerAsksExactlyWhen` | frontend/src/state/dataset-poller.ts:56-66 | a timer asks again if and only if nothing has stopped it, there is a dataset and nothing is asked |
| `PollerLaws.StopDropsAll` | frontend/src/state/dataset-poller.ts:42-50 | stopping drops timer, controller and dataset and makes everything under way an earlier generation |
| `Store.EveryRunShowsSelection` | frontend/src/state/simulation-store.ts:54-146 | in every interleaving: every tag is null or the selected run, everything shown was requested for the selected run and agent, a declared summary agent is the selected one, the log holds at most 100 events, all of the selected run |
| `Store.MonotonicExactlyWhen` | frontend/src/state/simulation-store.ts:17-27 | a REST answer keeps the last numeric id from decreasing if and only if its id is not non-numeric text |
| `Store.AcceptedExactlyWhen` | frontend/src/state/simulation-store.ts:30-37 | an accepted event does (line 137) if and only if its id is absent or a number |
| `Store.StepOrdersExactlyWhen` | frontend/src/state/simulation-store.ts:54-139 | one step keeps the log ordered up to the last id, and that id from decreasing unless it selects a run, if and only if it takes up no empty or non-numeric event id and no non-numeric REST id |
| `Store.OrderIsKeptExactlyWhen` | frontend/src/state/simulation-store.ts:54-146 | in every run from an ordered state this holds after every step if and only if no step takes up such an id |
| `Store.OrderIsKept` | frontend/src/state/simulation-store.ts:113-139 | when only ordinary ids arrive, within a selection the last id never decreases and the log stays ordered |
| `Store.EveryRunIsOrdered` | frontend/src/state/simulation-store.ts:54-146 | in every run from the start in which only ordinary ids arrive, logged numeric ids strictly increase and the log stays within 100 |
| `Store.UnorderedIdForgets` | frontend/src/state/simulation-store.ts:134-137 | any event with an empty or non-numeric id makes the store accept and log the stale event after it, which it refuses otherwise: the condition is needed |
| `Store.NotANumberForgets` | frontend/src/state/simulation-store.ts:134-137 | an id the client's reader can deliver: after 5, the text NaN lets 3 in |
| `Store.EveryRunServesLoading` | frontend/src/state/simulation-store.ts:54-118 | while a run is loading, the newest refresh is waiting and is for the current selection, unless the store was closed or that refresh aborted |
| `Store.OneOpenExactlyWhen` | frontend/src/state/simulation-store.ts:54-146 | in every run, never more than one subscription is open if and only if no continuation connects while one is |
| `Store.StepOverlapsExactlyWhen` | frontend/src/state/simulation-store.ts:120-122 | one step opens a second subscription if and only if it connects for a run while one is open |
| `Store.SelectionsOverlap` | frontend/src/state/simulation-store.ts:54-57 | two quick selections do: both continuations connect, and two subscriptions to the second run stay open |
| `Store.ConnectResumesPastLog` | frontend/src/state/simulation-store.ts:120-122 | a connection resumes from an id no logged event exceeds |
| `Store.SimulationStore.SelectRun` | frontend/src/state/simulation-store.ts:54-57 | the method up to its await is the selection step |
| `Store.SimulationStore.SelectAgent` | frontend/src/state/simulation-store.ts:58-63 | the method is the agent step, its two guards included |
| `Store.SimulationStore.StartRefresh` | frontend/src/state/simulation-store.ts:91-97 | refresh up to its first await |
| `Store.SimulationStore.SimulationArrived` | frontend/src/state/simulation-store.ts:97-112 | refresh between its awaits, the lost controller included |
| `Store.SimulationStore.Finish` | frontend/src/state/simulation-store.ts:113-118 | refresh after its last await: stale answers dropped, a mismatched summary refused, the rest published |
| `Store.SimulationStore.EventArrived` | frontend/src/state/simulation-store.ts:127-139 | the event handler is the event step |
| `Store.SimulationStore.Connect` | frontend/src/state/simulation-store.ts:120-122 | connect opens a subscription from the last event id without closing another |
| `Store.SimulationStore.CloseRunSubscription` | frontend/src/state/simulation-store.ts:52-52 | closing drops the subscription, the controller and the last timer |
| `StoreLaws.RunIsFetched` | frontend/src/state/simulation-store.ts:54-57 | choosing a run forgets everything shown, closes its subscription, and fetches the run for Agent one |
| `StoreLaws.AgentIsFetched` | frontend/src/state/simulation-store.ts:58-63 | choosing an Agent clears everything but the artifacts and fetches anew, unless there is no such Agent or its own summary is shown |
| `StoreLaws.SimulationIsShown` | frontend/src/state/simulation-store.ts:97-118 | an answer for the selection is shown field by field, with the last event id; one that is not, or that needs its results first, is not |
| `StoreLaws.ResourcesAreShown` | frontend/src/state/simulation-store.ts:105-118 | each resource is shown if and only if it was fetched, under the run and Agent it was fetched for |
| `StoreLaws.EventIsShown` | frontend/src/state/simulation-store.ts:127-139 | an accepted event is logged last, its status, stage and queue reach the shown simulation, absent ones leave it, and its id becomes the last |
| `StoreLaws.OtherEventsShowNothing` | frontend/src/state/simulation-store.ts:127-139 | any other event changes nothing that is shown |
| `StoreLaws.StatusRefreshes` | frontend/src/state/simulation-store.ts:127-139 | an accepted event with a status, and a reset, fetch the run anew, and no other event does |
| `StoreLaws.ConnectOpensOne` | frontend/src/state/simulation-store.ts:120-122 | connecting opens one subscription of the selected run from the last event on, beside those already open |
| `StoreLaws.DisconnectSetsTimer` | frontend/src/state/simulation-store.ts:140-143 | a subscription that ends sets a timer to come back if and only if its run is selected |
| `StoreLaws.TimerRefetches` | frontend/src/state/simulation-store.ts:143-143 | a timer fetches the run again and connects afterwards if and only if its run is selected |
| `StoreLaws.CloseClosesOwn` | frontend/src/state/simulation-store.ts:52-52 | closing closes the store's own subscription and timer, no other, and shows the same |
| `StoreLaws.FailureEndsLoading` | frontend/src/state/simulation-store.ts:118-118 | a failed refresh ends the loading if and only if it is for the selection and was not aborted; its caller connects regardless |
| `Parameters.ValidateCompleteObject` | backend/internal/parameters/constraints.go:248-282 | the complete check accepts exactly the trees with the reference's keys, admitted leaves and unchanged fixed leaves, returns them unchanged, and rejects with a code a fault of the tree justifies |
| `Parameters.ValidateSparseObject` | backend/internal/parameters/constraints.go:284-310 | the same for sparse overrides |
| `Parameters.CompleteHasNoFault` | backend/internal/parameters/constraints.go:248-282 | no accepted complete tree has a fault of any code |
| `Parameters.SparseHasNoFault` | backend/internal/parameters/constraints.go:284-310 | nor has an accepted override |
| `Parameters.SparseLeafExactlyWhen` | backend/internal/parameters/constraints.go:303-333 | an override's leaf is admitted if and only if its path is known, editable and satisfied; naming a leaf at the top of the reference panics, and only that does |
| `Parameters.AgentPrefixExactlyWhen` | backend/internal/parameters/constraints.go:312-319 | the marker is found where the agent field ends, and the slice after it is out of range exactly at the top |
| `Parameters.FlattenReference` | backend/internal/parameters/constraints.go:406-425 | flattening succeeds exactly without empty groups and collects exactly the leaf paths, whatever the order of the keys |
| `Parameters.ValidateReference` | backend/internal/parameters/constraints.go:136-171 | accepted if and only if the document covers exactly the reference's leaves, marks exactly the two topology leaves as fixed, and holds for the leaves the flattening collected |
| `Parameters.FitsAgree` | backend/internal/parameters/constraints.go:147-155 | both directions coincide when no two leaves share a flattened path |
| `Parameters.ReferenceAgentSegments` | backend/internal/parameters/constraints.go:427-445 | the reference's agents are accepted if and only if reading them yields the three topology segments |
| `ParameterLaws.ReferenceAgentsExactlyWhen` | backend/internal/parameters/constraints.go:427-445 | which it does if and only if every entry can be read, the last one for each of the three Agents names its segment, and no earlier one names any |
| `ParameterLaws.SatisfiesExactlyWhen` | backend/internal/parameters/constraints.go:356-404 | what a constraint admits, by the value given: null by permission, flags and texts by kind, numbers by kind and bounds, all by the allowed values, lists and objects never |
| `Parameters.MaterializeAgents` | backend/internal/parameters/constraints.go:194-213 | overrides are accepted if and only if agents are distinct, known, keep their segment, have parameters, and those fit; a rejection carries a code the first agent that does not fit deserves |
| `Parameters.SortedIsProfile` | backend/internal/parameters/constraints.go:214-217 | the sort puts agent k at position k with its own override |
| `Parameters.Materialize` | backend/internal/parameters/constraints.go:176-218 | accepted if and only if the document holds for the reference's collected leaves and the parts are acceptable; the profile is the input itself with agents in order, and a rejection carries the code of the first check that fails |
| `Parameters.PermutedAgentsGiveTheSameProfile` | backend/internal/parameters/constraints.go:196-217 | permuting the agents gives the same profile |
| `Merge.DeepMerge` | algorithm-worker/src/federated_iot_worker/parameters.py:308-327 | the merge succeeds if and only if the override fits, and returns the merged tree |
| `Merge.MergedLooksUp` | algorithm-worker/src/federated_iot_worker/parameters.py:313-326 | at every leaf of the base the merged tree has the override's value if there is one, the base's otherwise |
| `Merge.MergedKeepsPromise` | algorithm-worker/src/federated_iot_worker/parameters.py:308-327 | merging an admitted override onto an admitted tree succeeds and keeps keys, constraints and fixed leaves |
| `Merge.AcceptedProfilesMerge` | algorithm-worker/src/federated_iot_worker/parameters.py:197-201 | end to end: for every accepted profile every Agent's effective tree has exactly the reference's leaves, satisfies every leaf constraint and keeps the fixed ones |
| `Merge.FixedLeavesStay` | algorithm-worker/src/federated_iot_worker/parameters.py:308-327 | a fixed leaf, wherever it is, reads its reference value in such a tree |
| `Merge.OverridesAreIndependent` | algorithm-worker/src/federated_iot_worker/parameters.py:197-202 | one Agent's override never changes another's effective tree |
| `Preparation.ValidatedParameterTree` | algorithm-worker/src/federated_iot_worker/parameters.py:273-305 | the Worker's check accepts exactly the trees with the table's groups and leaves, every leaf admitted by its entry, and the conditions across leaves (`PreparedSettings` says what that guarantees) |
| `Preparation.Prepare` | algorithm-worker/src/federated_iot_worker/parameters.py:182-206 | succeeds if and only if the shared tree passes, every override merges into a tree that passes, and there is one for each Agent; returns those trees |
| `Preparation.ProfileTrees` | algorithm-worker/src/federated_iot_worker/parameters.py:193-206 | each Agent's tree is the shared one with its own override |
| `Preparation.EffectiveLeaf` | algorithm-worker/src/federated_iot_worker/parameters.py:308-327 | in it an Agent finds its own leaf where it gave one, the shared one elsewhere |
| `Preparation.AcceptedProfilePreparesExactlyWhen` | algorithm-worker/src/federated_iot_worker/parameters.py:182-305 | an accepted profile is prepared if and only if the shared and the overridden leaves are within the table's bounds, and the shared leaves and those each Agent works with meet the conditions across leaves |
| `Preparation.ReferenceIsAccepted` | backend/internal/parameters/constraints.go:176-282 | the reference itself, with no overrides, is accepted under every valid document |
| `Preparation.NoticeAboveWarningIsRefused` | algorithm-worker/src/federated_iot_worker/parameters.py:303-305 | any accepted profile stays accepted when an Agent's override becomes a notice count above the shared warning count, and is then refused by the Worker |
| `Preparation.AcceptedProfileIsRefused` | algorithm-worker/src/federated_iot_worker/parameters.py:303-305 | such a profile exists for every valid document and reference that leave the count any whole number, as the ones the platform ships do |
| `PreparedSettings.ValidatedSettingsAreAdmitted` | algorithm-worker/src/federated_iot_worker/parameters.py:273-305 | the settings read off any validated tree are within all the limits the online fusion relies on, alarm counts at least one and in order, and the two ratios are positive and leave a test part |
| `PreparedSettings.ValidatedExactlyWhen` | algorithm-worker/src/federated_iot_worker/parameters.py:287-305 | a tree whose groups are valid is validated if and only if eight inequalities between the numbers of its leaves hold |
| `PreparedSettings.ValidatedTreesAreComplete` | algorithm-worker/src/federated_iot_worker/parameters.py:273-282 | a validated tree has exactly the table's groups and each exactly the table's leaves |
| `PreparedSettings.ChoiceAdmitsExactlyWhen` | algorithm-worker/src/federated_iot_worker/parameters.py:353-364 | a text or a flag is admitted if and only if it is the allowed one |
| `PreparedSettings.EntryAdmitsExactlyWhen` | algorithm-worker/src/federated_iot_worker/parameters.py:348-410 | what each kind of entry of the table admits: numbers from, or above, its minimum up to its maximum, whole ones where asked, null only where optional |
| `PreparedSettings.ReferenceIsValidated` | backend/internal/storage/postgres/repository.go:2241-2254 | the tree of the values the platform ships is validated |
| `PreparedSettings.ReferenceIsPrepared` | backend/internal/storage/postgres/repository.go:2241-2254 | and is prepared for the three Agents, each with that very tree, when nobody overrides anything |
| `Artifacts.ValidateArtifactManifest` | algorithm-worker/src/federated_iot_worker/artifacts.py:87-99 | accepts exactly the manifests with unique names, no self reference, the eleven required items and files that match size and digest |
| `Artifacts.ListingIsValidExactlyWhen` | algorithm-worker/src/federated_iot_worker/artifacts.py:170-187 | the manifest of what was written is valid if and only if its header is and every required item was written as required |
| `Artifacts.AtomicArtifactWriter.constructor` | algorithm-worker/src/federated_iot_worker/artifacts.py:111-121 | a fresh private directory |
| `Artifacts.AtomicArtifactWriter.WriteBytes` | algorithm-worker/src/federated_iot_worker/artifacts.py:131-168 | one file and its inventory entry; a failure before the rename changes nothing, a failure after it leaves the file without an entry |
| `Artifacts.AtomicArtifactWriter.BuildManifest` | algorithm-worker/src/federated_iot_worker/artifacts.py:170-190 | succeeds exactly when all that is required has been written, once, and lists it |
| `Artifacts.AtomicArtifactWriter.Commit` | algorithm-worker/src/federated_iot_worker/artifacts.py:192-211 | one rename publishes a verified directory whole and returns its inventory by name, or nothing changes |
| `Artifacts.AtomicArtifactWriter.Abandon` | algorithm-worker/src/federated_iot_worker/artifacts.py:213-220 | removes the staged directory, never a published one; if the removal fails some of it stays and the writer stays open |
| `Artifacts.WriteSimulationArtifacts` | algorithm-worker/src/federated_iot_worker/runner.py:263-336 | succeeds exactly when every step does, and then adds one directory: each of the run's artifacts under its own name with exactly its own contents, the manifest that lists each with its size and digest, and nothing else; a failure publishes nothing |
| `ArtifactLaws.RequiredAreListed` | algorithm-worker/src/federated_iot_worker/artifacts.py:92-96 | an accepted manifest lists the eleven artifacts, here by name, as required |
| `ArtifactLaws.AcceptedDirectoriesAgree` | algorithm-worker/src/federated_iot_worker/artifacts.py:87-99 | two directories accepted for one manifest agree on the size and digest of every file it lists, and on the files themselves where digests never collide |
| `ArtifactLaws.AcceptedAfterChangeExactlyWhen` | algorithm-worker/src/federated_iot_worker/artifacts.py:87-99 | after one file is overwritten the manifest is still accepted if and only if it does not list the file, or size and digest stay |
| `Claim.EveryClaimIsSafe` | algorithm-worker/src/federated_iot_worker/runner.py:114-136 | over every run with concurrent heartbeats: at most one terminal call, none after a lost lease was raised, no renewal after a cancellation is being confirmed, and a commit only after the publication it names |
| `Claim.StepKeeps` | algorithm-worker/src/federated_iot_worker/postgres_repository.py:116-193 | every step of either thread keeps the invariant behind that |
| `Claim.TerminalSafeExactlyWhen` | algorithm-worker/src/federated_iot_worker/postgres_repository.py:335-403 | a terminal call keeps the log safe if and only if none came before, the lease was not lost, and a commit names a published manifest |
| `Claim.NoHeartbeatOutlivesItsClaim` | algorithm-worker/src/federated_iot_worker/postgres_repository.py:138-148 | when the Worker polls again its previous heartbeat is dead |
| `Claim.ExactlyOneBeforePollingAgain` | algorithm-worker/src/federated_iot_worker/worker_service.py:81-133 | when the Worker polls again, exactly one terminal call was made for the claim before |
| `Claim.ExactlyOneTerminalExactlyWhen` | algorithm-worker/src/federated_iot_worker/runner.py:114-136 | a claim that has ended made exactly one terminal call if and only if no step of its run silenced it, and none otherwise; a step silences at an unreadable reading, a broken renewal, an event not accepted, a lost lease, an error that is no Worker failure, or a heartbeat that does not stop before a confirmation |
| `Claim.PublishedIsCommittedExactlyWhen` | algorithm-worker/src/federated_iot_worker/runner.py:251-260 | a published run is committed if and only if no step of its final check turned away from the commit |
| `Claim.FinalCheckCommitsExactlyWhen` | algorithm-worker/src/federated_iot_worker/postgres_repository.py:150-167 | the final check leads to the commit if and only if its reading is readable, uncancelled and holds the lease, no heartbeat failure is recorded, and an inline renewal is not due or is accepted |
| `ClaimEnds.EndsExactlyAs` | algorithm-worker/src/federated_iot_worker/runner.py:114-136 | in every ended claim: its envelope was failed if and only if it was rejected, the job if and only if the work reported a failure, a preflight was committed if and only if it finished, a cancellation was confirmed if and only if a check read one and the heartbeat stopped in time, and only a simulation was committed as one |
| `ClaimEnds.EveryClaimIsExplained` | algorithm-worker/src/federated_iot_worker/runner.py:114-136 | in every run so far, every call made, and every call about to be made, is the one its cause asks for |
| `ClaimEnds.OnlyPreflightsFinish` | algorithm-worker/src/federated_iot_worker/runner.py:119-122 | only a preflight finishes without publishing |
| `ClaimEnds.HeartbeatIsKeptUp` | algorithm-worker/src/federated_iot_worker/postgres_repository.py:138-176 | in every run, until the claim itself stops its heartbeat a started thread can renew again and is never told to stop, unless a renewal failed and that is recorded |
| `ClaimEnds.LeavingIsOrderly` | algorithm-worker/src/federated_iot_worker/runner.py:135-136 | a claim that is over takes at most two more steps and makes no more calls, and ends only through the finally block |
| `ClaimEnds.FirstFailureIsKept` | algorithm-worker/src/federated_iot_worker/postgres_repository.py:184-187 | no step of either thread replaces a recorded heartbeat failure |
| `ClaimEnds.RenewalIsRecorded` | algorithm-worker/src/federated_iot_worker/postgres_repository.py:169-176 | a renewal that is not accepted ends the thread and is recorded as a lost lease if refused, as an error if broken |
| `ClaimEnds.FailedRenewalEndsTheWork` | algorithm-worker/src/federated_iot_worker/postgres_repository.py:150-176 | across the threads: the next check of the task raises that failure even where its own reading is good, and the claim leaves without a terminal call for it |
| `Claim.UnreportedEndsSilently` | algorithm-worker/src/federated_iot_worker/runner.py:132-136 | from the start of any claim, an error that is not a Worker failure ends it with no terminal call |
| `Claim.PublishedMayStayUncommitted` | algorithm-worker/src/federated_iot_worker/runner.py:251-260 | from the start, a cancellation read right after the rename ends the claim with its directory published and never committed |
| `Claim.CheckFollows` | algorithm-worker/src/federated_iot_worker/postgres_repository.py:150-167 | the check as written is the composition of its atomic steps |
| `Claim.PostgresCancellationContext.StartTaskHeartbeat` | algorithm-worker/src/federated_iot_worker/postgres_repository.py:116-136 | the thread starts exactly when no cancellation was read and the first renewal was accepted |
| `Claim.PostgresCancellationContext.IsCancelRequested` | algorithm-worker/src/federated_iot_worker/postgres_repository.py:150-167 | cancellation before lease loss before a recorded heartbeat failure before a renewal |
| `Claim.PostgresCancellationContext.RecordHeartbeatFailure` | algorithm-worker/src/federated_iot_worker/postgres_repository.py:184-187 | the first failure is kept |
| `Claim.PostgresCancellationContext.HeartbeatTurn` | algorithm-worker/src/federated_iot_worker/postgres_repository.py:169-176 | one turn of the renewal loop is the thread's step |
| `Claim.PostgresCancellationContext.JoinTaskHeartbeat` | algorithm-worker/src/federated_iot_worker/postgres_repository.py:138-148 | the join ends with a dead thread or a recorded failure |

## Left out

- The NumPy variants of the numerical kernel and floating-point rounding: the library is not visible, and the pure-Python
  forms are proved over the reals. Non-finite values, and the branches that drop them, therefore do not occur.
- Repair.MarkAndRepair: the residual and the threshold are its inputs; `Despike.DespikeAndRepair` computes them.
- Despike.DespikeAndRepair: the sample deviation is a parameter, and the width of the filter is not negative.
- Fused calibration scores (simulation.py:517): the comprehension binds one name twice, so nothing useful holds of them;
  the fused window is an input of `Fusion.OnlineFuse`.
- Fusion.OnlineFuse: the row columns that only copy inputs or take square roots of modelled values are not repeated.
- PreparedSettings.ValidatedSettingsAreAdmitted: the normal quantile is a parameter. A confidence of exactly one, which
  has none, is validated.
- Lloyd.SimpleKMeans: the source repeats the farthest-first loop inline; the model calls the same method.
- The random streams of Python's own library, anchor construction around the selection, local Gaussian-process
  prediction and the metrics: formulas without state, settled by reading.
- EventStream.ReadStream: text is characters, not bytes.
- EventStream.RoundTrip: events as the server writes them, with a natural id, and a name and JSON text without line
  breaks or a leading space, which the client can parse and its handler accepts.
- CSV, JSON and timestamp parsing, HTTP routing and headers of the results file: rows arrive parsed or rejected.
- Poller.EveryRunIsSafe: a request that fails before it is sent is a request that settles at once.
- Readiness refreshing and the connection and error labels of the store: single fields without a protocol.
- Store.EveryRunShowsSelection: events may come from any subscription ever opened, closed ones included, which is more
  than the client's reader allows.
- What the server replays to a connection that resumes from an id: the server's side of the stream.
- Loading, decoding and listing the constraints document: plumbing; the document is a map from paths to constraints.
- Parameters.ValidateReference: where two leaves share a flattened path, the code keeps whichever value its map order
  visits last, and the model promises only that it is one of them.
- Preparation.Prepare: the base centre seeds and the conversion of the trees into settings are left out, and numbers are
  reals: a whole number arrives as an integer, as the platform writes it.
- Merge.DeepMerge: the contract failure is a missing result; its message lists the unknown keys.
- File modes, temporary names, symbolic links, path normalisation and the textual form of manifest fields: names are
  values, whether a header is well formed is a parameter, and nobody else writes into a private directory.
- Artifacts.AtomicArtifactWriter.WriteBytes: a temporary file that cannot be unlinked after a failed write stays in the
  staged directory under a name of its own, which the model does not hold.
- Claim.EveryClaimIsSafe: the task thread is modelled on values, one step per repository call, because the other
  thread's steps fall between the statements of one method; only the context object is a class. Numerical work is one
  step that succeeds, reports an event or fails.
- SQL functions, leases inside the database, and the idle registration of the Worker: the repository accepts, refuses
  or breaks as it likes.
