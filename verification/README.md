# Replay reduction, attempts, artifact lifecycle and broker: a verified model

A Dafny model of the decision-making core of a portable batch execution system, with proofs of
what its streamed, bucketed, concurrent and crash-prone forms guarantee. Run
`dafny verify dfyconfig.toml` to verify it.

## What is modelled

**Replay reduction.** Identities of positive rows are spilled into hash buckets, sorted
externally and merged from files or shards. The model proves that this bounded form accepts
exactly the row sequences whose identities stand together with constant cores, that folding files
is scanning their concatenation, and that merging states is closed and associative
(`Canonicalize`, `CanonicalizeScan`, `CanonicalizeFold`, `BucketSort`, `BucketCodec`). Sorted runs
are merged by a heap with a fan-in limit, level by level (`Ordering`, `SpillSort`), and trades are
collapsed to one row for each identity (`TradeCollapse`).

**The causal grid.** One pass over a chronological stream keeps a constant-size block frontier for
each segment between missing days and a rolling window for each symbol, emits a row for each grid
time, and carries both on to the next partition (`CausalFrontier`, `CausalIndex`, `CausalRolling`,
`CausalEvents`, `CausalGrid`). Rows equal direct evaluation over the full history
(`CausalPartitions`), and what a row says is read off the events (`RowMeaning`); carries stand for the history (`CausalChain`), and cutting the stream
changes nothing, for streams (`PartitionInvariance`) and for input files (`SplitInputs`) however
their rows are numbered (`InputNumbering`). The collapsed trades are such inputs (`CollapsedInputs`). What the
windows hold, and so when an as-of fact is the full-history one, is exact (`CausalRetention`).

**Attempts and manifests.** Concurrent workers number attempts from stale snapshots and append to
an immutable store (`AttemptProtocol`); attempts are classified (`Kernel`), manifests are published
by compare-and-swap (`ManifestCas`), and ranges are sharded with halos (`Sharding`).

**Artifact lifecycle.** The mark phase (`GcWorld`), the sweep with write-ahead intents and receipts
and a crash after any durable operation (`GcSweep`, `GcConvergence`), and all interleavings of
sweeps with registration, attempts, deliveries and broker saves that take no lock and overlap the
sweep's scan (`GcProtocol`).

**Broker.** The retry driver with its durable dispatch history (`Broker`) and the reference-counted
lock table (`RequestLocks`).

## How to read the model

- Hashes, in-memory sorts, machine addition, field lookup and the backend are function parameters:
  the results hold for every choice. Times, blocks, identities and digests are integers; strings
  that are only compared stand for their rank.
- Methods follow the loops and mutable objects of the code and are tied by their contracts to
  functions over values; the main theorems are about those functions.
- A crash is a budget of durable operations after which the next one does not happen, so a
  statement for every budget is a statement about every crash point.
- Where a stronger statement is false of the code, the model gives the exact condition and a
  concrete counterexample: `Canonicalize.WitnessRowsConserved` and `WitnessRowsLost`,
  `CausalRolling.AsOfExact` and `AsOfCanForget`, `CausalFrontier.CompactRoundTrip` and
  `AbsentBlockIsLost`, `ManifestCas.RefreshUnfinalizes` and `FinalizationIsLost`,
  `GcProtocol.SaveSafeIff` and `RecoveryCanLoseInputs`, `Sharding.RollingHaloIsLeast` and
  `LessHaloIsNotEnough`.

## Model

| member | source | states |
|---|---|---|
| SpillSort.IterKWayMerge | src/portable_batch_execution/packs/replay_reduction/spill_sort.py:235-265 | the fan-in-limited, tree-reduced heap merge returns exactly the flat merge of its runs, for any number of runs, sorted or not |
| SpillSort.ReduceSortedRuns | src/portable_batch_execution/packs/replay_reduction/spill_sort.py:207-232 | level-by-level reduction ends with at most 16 runs, terminates because the run count strictly falls, and never changes the merge |
| SpillSort.MergeFanInGroup | src/portable_batch_execution/packs/replay_reduction/spill_sort.py:173-204 | merging one fan-in group is the merge of the group's rows, written to part files that are full but for the last |
| SpillSort.KWayMerge | src/portable_batch_execution/packs/replay_reduction/spill_sort.py:149-170 | the heap loop over streams, ties going to the lower source, yields the merge of everything left in the streams |
| SpillSort.LogicalRowStream.Pop | src/portable_batch_execution/packs/replay_reduction/spill_sort.py:90-111 | a pop returns the next remaining row across part boundaries and removes just that row, or says there is none |
| SpillSort.MergeRunsIsStableSort | src/portable_batch_execution/packs/replay_reduction/spill_sort.py:149-170 | on sorted runs the merge is sorted, a permutation of the concatenation, and keeps the order of equal keys by run and then position |
| SpillSort.MergeRunsDetermined | src/portable_batch_execution/packs/replay_reduction/spill_sort.py:149-170 | any sorted arrangement that keeps every key's rows in run order is the merge: the specification has one solution |
| SpillSort.Merge2Associative | src/portable_batch_execution/packs/replay_reduction/spill_sort.py:207-232 | smallest-head merging is associative on arbitrary inputs, which is why grouping runs level by level is harmless |
| BucketSort.SortUniqueBucketFile | src/portable_batch_execution/packs/replay_reduction/canonicalize.py:227-259 | bounded sorted runs and the k-way merge succeed exactly when no value repeats anywhere in the file, and then give its ascending listing |
| BucketSort.KWayMergeFailOnDuplicate | src/portable_batch_execution/packs/replay_reduction/canonicalize.py:190-209 | success gives all values of all sorted runs, strictly ascending; failure means some value really repeats |
| BucketSort.FinalizeSortedFile | src/portable_batch_execution/packs/replay_reduction/canonicalize.py:212-224 | the last pass accepts exactly strictly ascending files and returns their length |
| CanonicalizeScan.SingleInputState | src/portable_batch_execution/packs/replay_reduction/canonicalize.py:398-483 | a file is accepted exactly when its identities are positive, each identity's rows stand together, and cores are complete and constant; the state and the first error are determined |
| CanonicalizeScan.SpillRows | src/portable_batch_execution/packs/replay_reduction/canonicalize.py:262-311 | the row loop either reports a core disagreement inside a stretch or spills each stretch's identity once, in order, to its hash bucket |
| CanonicalizeScan.SortBuckets | src/portable_batch_execution/packs/replay_reduction/canonicalize.py:313-318 | sorting every bucket succeeds exactly when no identity starts two stretches, and leaves the ascending listing of each bucket |
| CanonicalizeScan.HeadsDecideContiguity | src/portable_batch_execution/packs/replay_reduction/canonicalize.py:262-318 | global contiguity of identities is exactly the absence of a repeated spilled identity, although only buckets are compared |
| CanonicalizeScan.GroupCoresDecide | src/portable_batch_execution/packs/replay_reduction/canonicalize.py:284-307 | for contiguous rows, comparing each row with its stretch decides agreement of all rows of every identity |
| CanonicalizeScan.ScanValid | src/portable_batch_execution/packs/replay_reduction/canonicalize.py:486-526 | the state of an accepted scan passes validation: buckets strictly ascending in their places, sizes adding up to the group count |
| CanonicalizeScan.ScanMeans | src/portable_batch_execution/packs/replay_reduction/canonicalize.py:398-483 | the state of accepted rows counts the rows, their distinct identities and the witness rows, holds exactly those identities, and starts and ends at the first and last row |
| CanonicalizeScan.SpilledSizes | src/portable_batch_execution/packs/replay_reduction/canonicalize.py:313-318 | the sizes of the spilled buckets add up to the number of spilled identities, for any hash |
| Canonicalize.ValidateState | src/portable_batch_execution/packs/replay_reduction/canonicalize.py:486-526 | the streamed validation accepts exactly the valid states |
| Canonicalize.ValidCounts | src/portable_batch_execution/packs/replay_reduction/canonicalize.py:83-84 | the accepted bucket counts are exactly the powers of two within the bounds, so masking the hash is reducing it |
| Canonicalize.StreamMergeSortedUnique | src/portable_batch_execution/packs/replay_reduction/canonicalize.py:321-357 | the two-way merge gives the union of two files, or a recurrence exactly when they share a value other than the allowed one |
| Canonicalize.MergeStates | src/portable_batch_execution/packs/replay_reduction/canonicalize.py:529-595 | the bucket-by-bucket merge computes the merge of two states with the error that comes first, including empty sides and the subtracted boundary row |
| Canonicalize.MergeClosed | src/portable_batch_execution/packs/replay_reduction/canonicalize.py:529-595 | merging valid states yields a valid state or a bucket-count, boundary-core or recurrence conflict: the final re-validation cannot fail |
| Canonicalize.MergeAssociative | src/portable_batch_execution/packs/replay_reduction/canonicalize.py:529-595 | both groupings of any three states accept together and give the same state, valid or not, with or without boundary subtraction |
| Canonicalize.MergedHolds | src/portable_batch_execution/packs/replay_reduction/canonicalize.py:564-572 | the merged state holds exactly the identities of either side, each in its hash bucket |
| Canonicalize.WitnessRowsConserved | src/portable_batch_execution/packs/replay_reduction/canonicalize.py:555-560 | witness rows are conserved exactly when the side that is dropped as empty carries none |
| Canonicalize.WitnessRowsLost | src/portable_batch_execution/packs/replay_reduction/canonicalize.py:555-560 | a concrete merge that loses witness rows |
| CanonicalizeFold.FoldIsOneScan | src/portable_batch_execution/packs/replay_reduction/canonicalize.py:598-610 | folding files accepts exactly when one scan of all their rows would, and gives that scan's buckets, counts and boundaries, however the rows are split |
| CanonicalizeFold.MergeAccepts | src/portable_batch_execution/packs/replay_reduction/canonicalize.py:529-595 | two accepted stretches can be merged exactly when their concatenation is acceptable, and the merge is the concatenation's state |
| CanonicalizeFold.MergeOverlap | src/portable_batch_execution/packs/replay_reduction/canonicalize.py:573-617 | merging two states with the boundary row subtracted accepts exactly when their rows, a row that ends the first and starts the second listed once, are acceptable, and gives the state of those rows |
| CanonicalizeFold.ExecuteStructuralCanonicalize | src/portable_batch_execution/packs/replay_reduction/canonicalize.py:598-610 | the whole operation accepts exactly the acceptable row sequences and returns a valid state of them |
| BucketCodec.DecodeEncoded | src/portable_batch_execution/packs/replay_reduction/canonicalize.py:675-699 | an encoded bucket within the bound is accepted and decodes to its values |
| BucketCodec.EncodeDecoded | src/portable_batch_execution/packs/replay_reduction/canonicalize.py:748-773 | every accepted payload re-encodes to the same bytes |
| BucketCodec.WriteBucketPayload | src/portable_batch_execution/packs/replay_reduction/canonicalize.py:748-773 | the bucket reader accepts exactly the payloads with matching header, length and ascending values of that bucket, and returns those values |
| BucketCodec.DecodeState | src/portable_batch_execution/packs/replay_reduction/canonicalize.py:838-872 | decoding succeeds exactly on the summary and artifacts of a valid state that fits the format, and returns a state they describe |
| BucketCodec.DescribedOnce | src/portable_batch_execution/packs/replay_reduction/canonicalize.py:838-872 | a summary and artifacts describe at most one state |
| BucketCodec.StateRoundTrip | src/portable_batch_execution/packs/replay_reduction/canonicalize.py:776-789 | decoding a state's own summary and artifacts gives back an equal state |
| CausalFrontier.FrontierMeans | src/portable_batch_execution/packs/replay_reduction/causal_grid.py:87-116 | the two slots are the largest and second-largest distinct observed blocks and the flag holds exactly while times and blocks never went down |
| CausalFrontier.CutoffDecides | src/portable_batch_execution/packs/replay_reduction/causal_grid.py:118-124 | a cutoff is issued exactly while the stream is monotone and for the block that is observed with exactly one observed block above it |
| CausalFrontier.CutoffIsFinal | src/portable_batch_execution/packs/replay_reduction/causal_grid.py:118-124 | while a segment stays monotone nothing later belongs to a block at or below an issued cutoff |
| CausalFrontier.BlockAboveCutoffIsOpen | src/portable_batch_execution/packs/replay_reduction/causal_grid.py:118-124 | the only observed block above a cutoff may still receive events, so no larger cutoff would be safe |
| CausalFrontier.CutoffsNeverDecrease | src/portable_batch_execution/packs/replay_reduction/causal_grid.py:118-124 | cutoffs issued along one segment never go down |
| CausalFrontier.RegressionIsPermanent | src/portable_batch_execution/packs/replay_reduction/causal_grid.py:118-124 | after a regression the segment issues no cutoff again |
| CausalFrontier.CompactRoundTrip | src/portable_batch_execution/packs/replay_reduction/causal_grid.py:126-146 | a frontier survives export and import exactly when none of its values is -1; a compact row always does |
| CausalFrontier.AbsentBlockIsLost | src/portable_batch_execution/packs/replay_reduction/causal_grid.py:126-146 | a concrete frontier whose blocks are lost by export and import |
| CausalFrontier.SegmentFrontier.Observe | src/portable_batch_execution/packs/replay_reduction/causal_grid.py:101-116 | one observation takes the object from the frontier of a stream to that of the stream with it appended |
| CausalFrontier.SegmentFrontier.RegisterBlock | src/portable_batch_execution/packs/replay_reduction/causal_grid.py:87-99 | the new contents of both slots |
| CausalIndex.SegmentId | src/portable_batch_execution/packs/replay_reduction/causal_grid.py:55-65 | a time on a missing day is refused; otherwise the segment counts the missing days passed |
| CausalIndex.SegmentCounts | src/portable_batch_execution/packs/replay_reduction/causal_grid.py:55-65 | a segment is numbered by how many missing days, each of 86,400,000 milliseconds from the epoch on, are wholly past |
| CausalIndex.MissingDay | src/portable_batch_execution/packs/replay_reduction/causal_grid.py:55-58 | the refused times are exactly those during a missing day |
| CausalIndex.SegmentsSplitAtMissingDays | src/portable_batch_execution/packs/replay_reduction/causal_grid.py:55-65 | two times share a segment exactly when no missing day lies between them |
| CausalIndex.ObservedIndexes | src/portable_batch_execution/packs/replay_reduction/causal_grid.py:189-202 | observing keeps one exact frontier for every observed segment and for no other |
| CausalIndex.ExportRoundTrip | src/portable_batch_execution/packs/replay_reduction/causal_grid.py:155-170 | the whole index survives the carry exactly when no frontier holds -1 |
| CausalIndex.Index.Observe | src/portable_batch_execution/packs/replay_reduction/causal_grid.py:198-202 | records an observation in its segment, or refuses a missing day and changes nothing |
| CausalIndex.Index.CutoffFor | src/portable_batch_execution/packs/replay_reduction/causal_grid.py:204-209 | a refusal on a missing day; otherwise, over the observations the index stands for, the largest block of the segment with one block above it, or none unless the segment is monotone and has such a block |
| CausalIndex.CutoffAtDecides | src/portable_batch_execution/packs/replay_reduction/causal_grid.py:204-209 | at a time, the cutoff is the block observed in the segment of that time with exactly one block of the segment above it, and there is one exactly while the segment is monotone and has such a block |
| CausalIndex.Index.ExportCarry | src/portable_batch_execution/packs/replay_reduction/causal_grid.py:211-215 | one compact row for each segment, by ascending segment |
| CausalIndex.FromCarry | src/portable_batch_execution/packs/replay_reduction/causal_grid.py:155-170 | rebuilds the index from compact rows, later rows winning |
| CausalRolling.BestAtDecides | src/portable_batch_execution/packs/replay_reduction/event_window.py:37-44 | the as-of scan picks exactly the first qualifying trade with the greatest tie-break key |
| CausalRolling.AsOfExact | src/portable_batch_execution/packs/replay_reduction/causal_grid.py:237-243 | a window still gives the as-of winner of the full history exactly when the winner is the symbol's latest trade and was not cut from a carry, or is not older than the scan start and the look back before the latest trade |
| CausalRolling.IngestedExactly | src/portable_batch_execution/packs/replay_reduction/causal_grid.py:237-243 | evicting and appending keep the window exactly the trades that are recent enough, and the latest |
| CausalRolling.TotalKept | src/portable_batch_execution/packs/replay_reduction/causal_grid.py:282-290 | dropping trades older than the look back never changes a trailing sum or count |
| CausalRolling.TotalOfOnlySpec | src/portable_batch_execution/packs/replay_reduction/causal_grid.py:282-290 | a fact id used once names the ordered sum and the number of measured values in its window |
| CausalRolling.FactsKept | src/portable_batch_execution/packs/replay_reduction/causal_grid.py:245-308 | after eviction the trailing facts are those of the full history, and so is each as-of fact whose winner is within the look back |
| CausalRolling.AsOfCanForget | src/portable_batch_execution/packs/replay_reduction/causal_grid.py:237-243 | a concrete stream on which eviction changes an as-of fact |
| CausalRolling.LookbackCovers | src/portable_batch_execution/packs/replay_reduction/causal_grid.py:311-317 | the look back is at least every offset and every trailing width |
| CausalRolling.LookbackAttained | src/portable_batch_execution/packs/replay_reduction/causal_grid.py:311-317 | the look back is no longer than needed: it is an offset, a width or zero |
| CausalRolling.AsOfMeans | src/portable_batch_execution/packs/replay_reduction/causal_grid.py:260-297 | an as-of fact is the as-of field of the completed trade no later than the grid time less the offset that has the greatest key and then the first place, and absent exactly when there is no such trade to report |
| CausalRolling.TrailingMeans | src/portable_batch_execution/packs/replay_reduction/causal_grid.py:282-306 | a trailing fact sums in stream order, and counts, the measures of exactly the completed trades later than the grid time less the width and no later than the grid time |
| CausalRolling.NoCutoffNoFacts | src/portable_batch_execution/packs/replay_reduction/causal_grid.py:245-253 | without a cutoff there is one absent fact for each offset, and an absent sum and count for each trailing window |
| CausalRolling.SymbolRolling.Ingest | src/portable_batch_execution/packs/replay_reduction/causal_grid.py:241-243 | evicts then appends, and keeps the window a suffix of the history that lacks only trades below the watermark |
| CausalRolling.SymbolRolling.FactsAt | src/portable_batch_execution/packs/replay_reduction/causal_grid.py:245-308 | the one-pass dictionaries give every as-of, sum and count fact over the window |
| CausalEvents.GridTimestamps | src/portable_batch_execution/packs/replay_reduction/causal_grid.py:320-336 | the two loops give exactly the grid times inside both ranges, ascending |
| CausalEvents.TimesTile | src/portable_batch_execution/packs/replay_reduction/causal_grid.py:320-336 | adjoining partitions emit every grid time exactly once |
| CausalEvents.ChronologicalStream | src/portable_batch_execution/packs/replay_reduction/causal_grid.py:688-750 | the two-headed heap yields the merge of witnesses and trades, the witness first on equal keys |
| CausalEvents.ChronologyOrdered | src/portable_batch_execution/packs/replay_reduction/causal_grid.py:688-750 | that stream is ordered by time and holds every input once |
| CausalGrid.ExecuteCausalGridExtract | src/portable_batch_execution/packs/replay_reduction/causal_grid.py:775-925 | one partition from sorted inputs to rows and carry: which error, or which rows and carry, with the inner row limits never hit |
| CausalGrid.SweepEvents | src/portable_batch_execution/packs/replay_reduction/causal_grid.py:867-907 | the sweep emits each grid time from the state after exactly the events up to it, and stops after the partition's end |
| CausalGrid.EmitGridRow | src/portable_batch_execution/packs/replay_reduction/causal_grid.py:842-865 | appends one row for each target symbol; neither row-limit check can fail |
| CausalGrid.TakeEvent | src/portable_batch_execution/packs/replay_reduction/causal_grid.py:875-902 | observes an event and ingests it under the watermark of its time |
| CausalGrid.ExportOutput | src/portable_batch_execution/packs/replay_reduction/causal_grid.py:909-918 | hands on the frontiers and each symbol's trades within the overlap |
| CausalGrid.UpToIsAll | src/portable_batch_execution/packs/replay_reduction/causal_grid.py:867-894 | in a chronological stream the events behind a row are exactly those no later than it |
| CausalPartitions.OnePassRefinement | src/portable_batch_execution/packs/replay_reduction/causal_grid.py:853-907 | every row of a fresh run equals direct evaluation over all events up to its time and none later |
| CausalPartitions.RowRefines | src/portable_batch_execution/packs/replay_reduction/causal_grid.py:245-308 | a row of any represented state agrees with direct evaluation over the represented history |
| RowMeaning.FreshRowMeans | src/portable_batch_execution/packs/replay_reduction/causal_grid.py:853-907 | in a run that starts fresh, the row at place i times the number of symbols plus k is that of grid time i and symbol k, and its cutoff, as-of and trailing facts are what the events up to that time say, read off the events |
| RowMeaning.AgreeingRowMeans | src/portable_batch_execution/packs/replay_reduction/causal_grid.py:245-308 | so is every row that agrees with direct evaluation, such as those of a chain of partitions |
| RowMeaning.FailureMeans | src/portable_batch_execution/packs/replay_reduction/causal_grid.py:775-904 | a run is refused because its overlap is shorter than an offset or a width, else because it would emit too many rows, else because a grid time or an event up to its end is on a missing day |
| CausalPartitions.StepRepresents | src/portable_batch_execution/packs/replay_reduction/causal_grid.py:228-243 | taking an event keeps exact frontiers and windows that lack only unreachable trades |
| CausalChain.CarryOut | src/portable_batch_execution/packs/replay_reduction/causal_grid.py:753-772 | the outgoing carry of a run stands for the whole history up to the end of its partition |
| CausalChain.StartRepresents | src/portable_batch_execution/packs/replay_reduction/causal_grid.py:805-838 | starting from a carry represents the history the carry stands for |
| CausalChain.CarryTradesFor | src/portable_batch_execution/packs/replay_reduction/causal_grid.py:753-772 | each symbol finds exactly its own recent trades in the flat carry |
| PartitionInvariance.ChainRefines | src/portable_batch_execution/packs/replay_reduction/causal_grid.py:775-925 | a chain of runs agrees with direct evaluation over the whole stream |
| PartitionInvariance.ChainMatchesUncut | src/portable_batch_execution/packs/replay_reduction/causal_grid.py:775-925 | a stream cut at any points and chained through carries gives the timestamps, cutoffs, sums and counts of one uncut run, and its as-of facts wherever the winner is within the look back |
| PartitionInvariance.PieceSucceeds | src/portable_batch_execution/packs/replay_reduction/causal_grid.py:807-818 | if the uncut run succeeds, so does a run over any piece with enough overlap |
| CausalRetention.AsOfExactInRun | src/portable_batch_execution/packs/replay_reduction/causal_grid.py:867-902 | in a run that starts fresh, a row's as-of winner is the full-history one exactly when that is the symbol's latest trade or is not older than the scan start and the look back before the latest trade |
| CausalRetention.AsOfExactInChain | src/portable_batch_execution/packs/replay_reduction/causal_grid.py:753-838 | along a chain the same holds with this run's scan start, and the latest trade must have passed every cut between the partitions |
| CausalRetention.HandedOn | src/portable_batch_execution/packs/replay_reduction/causal_grid.py:753-772 | exporting a window and loading it into the next partition cuts it exactly once more |
| SplitInputs.ChronologySplits | src/portable_batch_execution/packs/replay_reduction/causal_grid.py:688-750 | the stream of inputs up to a time and later ones is the one stream followed by the other |
| SplitInputs.SplitInputsMatchUncut | src/portable_batch_execution/packs/replay_reduction/causal_grid.py:775-925 | for inputs with their sort keys: chained runs over pieces of the sorted witnesses and trades give, concatenated, rows that match one run over all of them |
| InputNumbering.AfterIsCombined | src/portable_batch_execution/packs/replay_reduction/causal_grid.py:867-902 | the state of a sweep depends on the observations and on the trades of its stream only, not on how the two interleave at equal time and block |
| InputNumbering.RenumberedAlike | src/portable_batch_execution/packs/replay_reduction/causal_grid.py:688-750 | sorted witness rows that show the same give streams with the same observations and trades, however inputs and rows are numbered |
| InputNumbering.AlikeOutcome | src/portable_batch_execution/packs/replay_reduction/causal_grid.py:775-925 | runs over streams with the same observations and trades fail alike and give the same rows and carry |
| InputNumbering.SplitFilesMatchUncut | src/portable_batch_execution/packs/replay_reduction/causal_grid.py:688-750 | partition invariance when each file numbers its rows afresh: chained runs over sorted pieces match one run over all rows under its own numbering |
| CollapsedInputs.CollapsedSorted | src/portable_batch_execution/packs/replay_reduction/causal_grid.py:571-600 | collapsed rows projected to trades are a sorted input of the sweep |
| CollapsedInputs.ExtractCollapsed | src/portable_batch_execution/packs/replay_reduction/causal_grid.py:775-925 | collapse followed by the sweep fails to collapse exactly when cores disagree, and otherwise sweeps a chronological stream of the collapsed trades |
| TradeCollapse.MaterializeCollapsedTrades | src/portable_batch_execution/packs/replay_reduction/causal_grid.py:505-600 | for any hash, bucket count, buffer and batch size: one row for each identity, with the greatest tie-break key and then the earliest, ordered by time and block; it fails exactly when two rows of an identity disagree on a core field |
| TradeCollapse.CollapseSorted | src/portable_batch_execution/packs/replay_reduction/causal_grid.py:456-502 | one pass over rows sorted by identity does the same for one stream |
| TradeCollapse.SpillTrades | src/portable_batch_execution/packs/replay_reduction/causal_grid.py:522-569 | every bucket ends with exactly its rows in input order, wherever the flushes fall, and between rows fewer are held than the buffer takes |
| TradeCollapse.SameGroup | src/portable_batch_execution/packs/replay_reduction/causal_grid.py:489-497 | a further row replaces the best of its group exactly when its tie-break key is greater, and the best stays the chosen row |
| TradeCollapse.CollapseJoin | src/portable_batch_execution/packs/replay_reduction/causal_grid.py:571-586 | collapses of buckets with different identities join to the collapse of all rows |
| AttemptProtocol.AttemptSafety | src/portable_batch_execution/worker/execute_wave.py:114-145 | in every interleaving of snapshots, ids and appends, the ordinals of a generation are exactly 1..n within the budget and only the last attempt can have succeeded |
| AttemptProtocol.PrivateAttemptSafety | src/portable_batch_execution/worker/execute_wave.py:133-145 | the same for the ids the code builds from wave, shard, discriminator and ordinal |
| AttemptProtocol.PrivateAttemptIdInjective | src/portable_batch_execution/worker/execute_wave.py:133-145 | an attempt id determines its generation and ordinal, although shard ids may contain dashes |
| AttemptProtocol.OneSuccessPerGeneration | src/portable_batch_execution/worker/execute_wave.py:481-502 | at most one attempt of a generation succeeded |
| AttemptProtocol.NoDuplicateReported | src/portable_batch_execution/kernel/core.py:175-203 | completeness never reports a duplicate for any listing of the store |
| AttemptProtocol.StepKeepsInvariant | src/portable_batch_execution/worker/execute_wave.py:481-502 | starting, skipping and appending keep the log of each generation exact |
| AttemptProtocol.TriedWhileBudget | src/portable_batch_execution/worker/execute_wave.py:487-502 | a worker tries a shard, with the next ordinal, exactly when the matching attempts of its snapshot hold no success and are fewer than the budget, and passes it over exactly otherwise |
| AttemptProtocol.BudgetReachable | src/portable_batch_execution/worker/execute_wave.py:487-502 | for each ordinal up to the budget some run of failed attempts leaves exactly the attempts with ordinals up to it |
| AttemptProtocol.WorkerWalks | src/portable_batch_execution/worker/execute_wave.py:487-489 | in every interleaving a worker keeps its snapshot and takes one decision at each of its shards in turn, until it is done or an append is refused |
| AttemptProtocol.AttemptFiles.AppendAttempt | src/portable_batch_execution/data_plane/local.py:216-238 | an id that is present only accepts the same record, and no stored record ever changes |
| Kernel.Completeness | src/portable_batch_execution/kernel/core.py:175-203 | accepts exactly the plans whose shards have the expected ids; then computes the canonical, missing and duplicate classes, of shards with one id by the last |
| Kernel.CanonicalByCount | src/portable_batch_execution/kernel/core.py:190-203 | the canonical attempts are those of the shards with exactly one success, in id order |
| Kernel.ClassesByCount | src/portable_batch_execution/kernel/core.py:190-203 | missing shards have no success and duplicate shards more than one |
| Kernel.ShardMapMeans | src/portable_batch_execution/kernel/core.py:182-184 | the shard map holds the ids of the shards, and of shards with one id the last |
| Kernel.SuccessesCounted | src/portable_batch_execution/kernel/core.py:181-192 | every attempt that succeeded for the id, input and fingerprint of the shard is counted, as often as it is listed, and no other |
| Sharding.PlanShards | src/portable_batch_execution/kernel/core.py:79-114 | refuses key ranges, non-positive sizes, missing bounds and affinity without a partition key, in that order; otherwise the ranges follow one another from start to end |
| Sharding.TilesPartition | src/portable_batch_execution/kernel/core.py:93-114 | each position of the range is in exactly one shard |
| Sharding.ShardedEqualsMonolithic | src/portable_batch_execution/kernel/core.py:26-47 | windows computed over each expanded range, trimmed and concatenated, are the unsharded result for every shard size and window function |
| Sharding.LessHaloIsNotEnough | src/portable_batch_execution/packs/tabular/pack.py:21-25 | with a smaller halo a shard's first window is cut short, so the rolling halo is needed |
| Sharding.RollingHaloIsLeast | src/portable_batch_execution/packs/tabular/pack.py:21-25 | the rolling halo of a positive window is the least lookback with which shards of every size agree with the unsharded result for all data and window functions; other windows have none |
| ManifestCas.ManifestStore.WriteNextManifest | src/portable_batch_execution/data_plane/local.py:268-303 | a manifest is stored exactly when it is valid, follows the current revision the caller saw, and has its outputs present; nothing stored changes |
| ManifestCas.Refresh | src/portable_batch_execution/kernel/core.py:251-273 | whatever copy the caller holds, a successful refresh publishes the next revision with completed, missing and duplicate shards partitioning the expected ones |
| ManifestCas.RefreshKeepsInvariants | src/portable_batch_execution/contracts/models.py:440-478 | a refreshed manifest always passes the model check and is ready exactly when every shard has one success |
| ManifestCas.Finalize | src/portable_batch_execution/kernel/core.py:275-294 | publishes exactly when the manifest is ready and current and has outputs |
| ManifestCas.FinalizeNeedsOutputs | src/portable_batch_execution/contracts/models.py:470-473 | finalizing passes the model check exactly when there are outputs |
| ManifestCas.RefreshUnfinalizes | src/portable_batch_execution/kernel/core.py:262-272 | no refreshed manifest is finalized: it is ready exactly when every expected shard has one success, and otherwise not started, with status and outputs as they were |
| ManifestCas.FinalizationIsLost | src/portable_batch_execution/kernel/core.py:262-272 | a concrete finalized manifest that a refresh makes ready again |
| ManifestCas.Interleave | src/portable_batch_execution/data_plane/local.py:298-303 | any sequence of callers leaves consecutive unchanging revisions, and of those expecting one revision at most one succeeds |
| GcWorld.BuildReachabilityIndex | src/portable_batch_execution/lifecycle/reachability.py:296-436 | the mark protects exactly the digests the records call for, and lists exactly the transported outputs |
| GcWorld.ProtectedMeans | src/portable_batch_execution/lifecycle/reachability.py:296-436 | a digest is protected exactly when a request in progress, a succeeded one not delivered, an input or result of a run still open, a hold or an outside record asks for it, read off the records |
| GcWorld.ScanRequests | src/portable_batch_execution/lifecycle/reachability.py:313-345 | the request scan finds exactly the live, ended and owned runs and the outputs to keep |
| GcWorld.ScanRuns | src/portable_batch_execution/lifecycle/reachability.py:352-432 | the run scan finds exactly the live runs and the digests kept by final outputs and attempts |
| GcWorld.ScanClosedWaves | src/portable_batch_execution/lifecycle/reachability.py:210-293 | the wave scan protects exactly the inputs of live runs |
| GcSweep.NormalEligible | src/portable_batch_execution/lifecycle/gc.py:639-655 | eligible exactly when some request transported the digest and every one was delivered at least the grace period ago |
| GcSweep.LegacyEligible | src/portable_batch_execution/lifecycle/gc.py:689-698 | ineligible when a request for it was delivered, an exception when the payload is missing, otherwise decided by the retention period |
| GcSweep.VerdictMeans | src/portable_batch_execution/lifecycle/gc.py:639-698 | under a mark of the world a normal run lets a payload go exactly when some finished request produced it and each one that did was delivered at least the grace period ago, a legacy run exactly when none was delivered and it is unused for the retention period |
| GcConvergence.UnlinkedWereRemovable | src/portable_batch_execution/lifecycle/gc.py:361-462 | at every crash point each payload unlinked so far was let go by the rule of the run or of an intent pending before it |
| GcConvergence.CandidatesGo | src/portable_batch_execution/lifecycle/gc.py:305-420 | with budget for every operation each candidate that is present, without a receipt, not asked for and let go by the rule is removed, even if the run raises later |
| GcConvergence.PlannableMeans | src/portable_batch_execution/lifecycle/gc.py:203-248 | planning selects exactly the payloads without a receipt that no record asks for and that the rule of the mode lets go |
| GcConvergence.CandidatesRecorded | src/portable_batch_execution/lifecycle/gc.py:361-420 | a completed run leaves a receipt and no payload for each candidate that no record asks for and whose payload was gone already or that the rule lets go |
| GcConvergence.DeliveriesRecorded | src/portable_batch_execution/lifecycle/gc.py:475-514 | a completed normal run leaves a receipt for each delivery whose payload is gone, that no record asks for and that is old enough |
| GcConvergence.CompletedOwed | src/portable_batch_execution/lifecycle/gc.py:361-514 | a receipt for a payload that was gone and not intended is written only if no record asks for it, with what a candidate says or, in a normal run, a delivery that is old enough |
| GcSweep.GcProcess.ConvergeIntent | src/portable_batch_execution/lifecycle/gc.py:423-462 | what a pending intent becomes in each case, with the write-ahead discipline kept up to any crash |
| GcSweep.GcProcess.ApplyCandidate | src/portable_batch_execution/lifecycle/gc.py:361-420 | what a candidate becomes in each case, with the write-ahead discipline kept up to any crash |
| GcSweep.GcProcess.ReceiptForRecord | src/portable_batch_execution/lifecycle/gc.py:475-514 | once no intent is pending, a delivered digest with neither payload nor receipt gets a receipt when it is eligible |
| GcSweep.GcProcess.ApplyLocked | src/portable_batch_execution/lifecycle/gc.py:305-356 | at every crash point the durable operations so far are an allowed sequence; with budget for every operation the run fails exactly if a record raises, and even then only later receipts are missing |
| GcConvergence.CrashSafe | src/portable_batch_execution/lifecycle/gc.py:361-462 | at every crash point each unlinked payload has a durable intent or receipt, no protected payload is gone and no receipt has changed |
| GcConvergence.UnlinkedOnRecord | src/portable_batch_execution/lifecycle/gc.py:361-462 | at every crash point each unlinked payload is on record with the metadata of an intent that was pending before or saved by the run |
| GcConvergence.CompletedConverges | src/portable_batch_execution/lifecycle/gc.py:305-356 | a completed run leaves no intents and, for everything it removed, a receipt with the metadata of the pending intent or of the intent written for the candidate |
| GcConvergence.CrashThenRerun | src/portable_batch_execution/lifecycle/gc.py:423-462 | after any crash and a completed rerun every removed digest has a receipt with the metadata of the intent it was unlinked under, before the crash or after it |
| GcConvergence.IntentBecomesReceipt | src/portable_batch_execution/lifecycle/deletion.py:148-161 | a pending intent whose payload is gone becomes a receipt with its own metadata |
| GcConvergence.FurtherRunDoesNothing | src/portable_batch_execution/lifecycle/gc.py:288-358 | on the quiescent state a further run plans nothing, raises nothing and changes nothing |
| GcConvergence.DeletedWereEligible | src/portable_batch_execution/lifecycle/gc.py:361-472 | whatever the unlocked plan proposed, only eligible unprotected payloads are deleted |
| GcConvergence.PlanCandidates | src/portable_batch_execution/lifecycle/gc.py:203-248 | the plan lists exactly the unprotected, unreceipted, eligible payloads |
| GcConvergence.ApplyGc | src/portable_batch_execution/lifecycle/gc.py:288-358 | a blocked apply changes nothing; at every crash point what is gone was asked for by no record and was old enough under the rule of the run or of a pending intent; with enough budget every such candidate goes, and the run converges and fails exactly if a record raises |
| GcConvergence.RaisedRunConverges | src/portable_batch_execution/lifecycle/gc.py:465-514 | a crash-free run leaves no intents and a receipt for everything it removed whether or not it raises |
| GcConvergence.NormalNeverRaises | src/portable_batch_execution/lifecycle/gc.py:639-655 | a normal run never raises, so without a crash it completes |
| GcProtocol.SafeOverRuns | src/portable_batch_execution/lifecycle/gc.py:297-356 | in every reachable state of registration, attempts, deliveries, unlocked broker saves and sweeps whose scans overlap those saves, each input of each live run has its payload and each payload that was there after any earlier step and is gone is on record, as long as requests are saved when that is safe |
| GcProtocol.SafeWhenOrderly | src/portable_batch_execution/broker/planning.py:318-383 | if every registration completes and no run is ended before its request was saved, every save is safe of itself: in every reachable state live inputs are present and payloads that went are on record |
| GcProtocol.AttemptsKept | src/portable_batch_execution/data_plane/local.py:233-238 | what is recorded of the attempts of a run stays recorded in every interleaving |
| GcProtocol.SaveSafeIff | src/portable_batch_execution/broker/service.py:521-559 | saving a request keeps live inputs present however the run goes on exactly when the manifest is open, or the inputs are there and the sweep under way cannot unlink them: its mark or a receipt covers them, or its scan will, at worst |
| GcProtocol.ScanAtWorst | src/portable_batch_execution/lifecycle/reachability.py:313-345 | a scan can end with no more protected than what is read already and what still has to be read at its worst |
| GcProtocol.RecoveryCanLoseInputs | src/portable_batch_execution/broker/service.py:246-263 | a run of the code in which a recovered request makes a run live whose input a sweep has removed |
| GcProtocol.ScanCanMissRecovery | src/portable_batch_execution/broker/service.py:521-559 | a run in which the input is still there when the request is saved, and a scan under way misses the request |
| GcProtocol.LiveAsRead | src/portable_batch_execution/lifecycle/reachability.py:313-382 | although requests move on while they are read, every listed run that is live when the mark is complete is live in what it read |
| GcProtocol.StepKeepsInvariant | src/portable_batch_execution/broker/planning.py:318-383 | every step, with requests saved when that is safe, keeps live inputs present and out of reach of a running sweep |
| GcProtocol.RegisteringCovers | src/portable_batch_execution/broker/planning.py:193-243 | registration and its repair make at most their own run live, with its inputs checked under the lock |
| GcProtocol.AppliesAreRuns | src/portable_batch_execution/lifecycle/gc.py:305-356 | the operations of a locked apply are steps of the interleaved system |
| Broker.Driver.DriveToTerminal | src/portable_batch_execution/broker/service.py:346-447 | the driver terminates if each execution stops reporting running, keeps the budget at every crash, and stops unsettled only for what the backend, the manifest or a crash did; attempts that are spent end it as exhausted and one success as succeeded, without a dispatch, and exhaustion is never reported over one success with budget left |
| Broker.Driver.DispatchPrivateWave | src/portable_batch_execution/controller/a1_controller.py:273-284 | a dispatch is made only for an active request within its budget whose last execution is not running, and is recorded before anything else |
| Broker.Driver.Handle | src/portable_batch_execution/broker/service.py:236-272 | a call with another binding is refused, a settled request is answered without dispatching, and otherwise the driver runs; whatever leaves a request unsettled has a cause outside the driver |
| Broker.Driver.SuccessFromState | src/portable_batch_execution/broker/service.py:468-500 | a succeeded request is reconciled first and answered only if the attempts still show exactly one success with an output |
| Broker.Driver.Admit | src/portable_batch_execution/broker/service.py:236-263 | registers the run, or recovers the state of a registered run without one, and refuses a conflicting binding |
| Broker.Driver.ReconcileIfAttemptsChanged | src/portable_batch_execution/broker/service.py:305-323 | refreshes the manifest when the matching attempts changed, fails exactly when that refresh is due and cannot be made, remembers what it was made for, and does none of it without a manifest |
| Broker.Driver.Advance | src/portable_batch_execution/broker/service.py:395-446 | one round: wait for a running execution, stop, or dispatch again; the two other waits are unreachable |
| Broker.Driver.Serve | src/portable_batch_execution/broker/service.py:346-447 | over any number of calls crashing after any number of writes, recorded dispatches stay within the budget, each was made while the stored attempts were neither spent nor showed one success, none after a terminal status, and with fresh ids none while the previous execution was running |
| Broker.RecordWaveDispatch | src/portable_batch_execution/controller/a1_controller.py:164-184 | a new execution is appended; a recorded one leaves the history alone if its first record is equal and is refused otherwise |
| Broker.FreshIsNew | src/portable_batch_execution/controller/a1_controller.py:164-184 | under fresh ids a submission is never in the history already |
| Broker.SingleShardCompletion | src/portable_batch_execution/broker/service.py:368-371 | for the single planned shard an unambiguous completion is exactly one success |
| Broker.CountsAddUp | src/portable_batch_execution/broker/service.py:364-367 | each matching attempt either succeeded or counts as ended badly |
| Broker.SpentByCount | src/portable_batch_execution/broker/service.py:364-371 | the attempts are spent exactly when at least the budget of matching ones did not succeed, and leave the request open exactly when fewer did not and not just one did |
| Broker.Driver.Settled | src/portable_batch_execution/broker/service.py:364-393 | passes on exactly when the attempts are not spent and show no or several successes; otherwise ends exhausted if they are spent and with the one success if not |
| RequestLocks.SerializedInEveryRun | src/portable_batch_execution/broker/service.py:60-87 | in every interleaving calls for one id never overlap, entries count the threads in flight and vanish exactly when unused, and the corruption check never fires |
| RequestLocks.StepKeepsInvariant | src/portable_batch_execution/broker/service.py:67-87 | entering, acquiring, abandoning, releasing and leaving keep the table exact |
| RequestLocks.RequestIdSerializer.Register | src/portable_batch_execution/broker/service.py:68-75 | a new entry gets a fresh lock, an existing one another user |
| RequestLocks.RequestIdSerializer.Unregister | src/portable_batch_execution/broker/service.py:79-87 | reports corruption exactly when the entry does not match; otherwise drops one user or the entry |

## Left out

- Polars scans, parquet and JSON files, Pydantic parsing, column and JSON-scalar projection: rows and files are sequences of values.
- CanonicalizeScan.SingleInputState: leaves out the filters before the scan of one file (malformed identities, sentinel witnesses, the normalized identity column); a file is its non-witness rows and a witness count, and positivity is checked in the scan.
- SHA-256 and the twelve-digit generation discriminator are injective parameters; `splitmix64` is any function into buckets.
- Floating point: sums are an ordered fold of an arbitrary addition, so rounding is neither assumed nor excluded; NaN and missing sort keys are not modelled.
- `heapq` is modelled by its choice of the least entry by key and then source; the array layout of the heap is not.
- The as-of value of a trade is looked up by an arbitrary function; the order in which a row's named columns override one another is not spelled out.
- CausalIndex.FromCarry: takes frontier rows only; the two older carry formats, which replay observations, are not modelled.
- PartitionInvariance.ChainMatchesUncut: asks that no time or block is -1, the number a carry uses for an absent value, and that each partition's overlap covers the look back, which the code checks.
- SplitInputs.SplitInputsMatchUncut: takes the sort keys of the inputs as they are; `InputNumbering.SplitFilesMatchUncut` is the statement for files.
- CausalGrid.ExecuteCausalGridExtract: takes the collapsed trades and sorted witnesses as sequences; reading the input files is not modelled.
- Broker.Driver.Serve: the claim about a running previous execution assumes that submissions return new execution ids; the budget does not.
- Broker.Driver.DriveToTerminal: the response payloads, the poll delay and the check that a run has one shard are not modelled; termination assumes each execution stops reporting running at some poll.
- Broker.Driver.Advance: the recorded failure count is carried along, and with it two waits that are shown unreachable, so nothing is said of its value.
- Broker.Driver.Handle: request parsing and authorization are not modelled, and whether a binding matches and how a registration ends are inputs; a state file is never lost.
- The delivery-commit checks of the broker.
- GcWorld.BuildReachabilityIndex: protection reasons, run ids and last-reference times are not modelled; the last use and the metadata of a digest are inputs of the sweep, and an unreadable record is a flag that blocks the run.
- GcProtocol.SafeOverRuns: asks that requests are saved when that is safe, which the code does not check; `SafeWhenOrderly` asks instead that registrations complete. One closed wave and one request for each run, as the broker derives them from the request id; a registration may crash between the wave and the manifest, other records are written atomically, and a manifest whose status is terminal keeps it, as both controller operations do (`refresh` resets only the finalization status).
- ManifestCas.ManifestStore.WriteNextManifest: writes the revision file and the latest pointer in one step; a crash between the two, after which the run accepts no further revision, is not modelled.
- Lock timeouts, retry delays and stale lock files: the lifecycle lock is a plain exclusive lock.
- Sharding.PlanShards: times are integers, and the conversion of sizes and time stamps is not modelled.
- `plan_waves` and `retryable_shards`: they would only add easy members.
- The event-window extract, whose accumulators follow the same ordering and windows as the grid.
- Worker execution itself, the operations it runs and the backends.
