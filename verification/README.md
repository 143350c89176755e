# HBF-LLMSimulator: a verified model of the search, the timing and the memory layers

HBF-LLMSimulator predicts the decode latency of large language models on flash-backed memory, and
searches for the batch size and parallelism configuration of highest throughput. These modules model its
algorithmic layer and prove what its comments promise. `dafny verify dfyconfig.toml` checks everything.

The parts, from the outside in:

- **Sweep** (`SweepAssembly`): cells run in five process pools, in any completion order, with any set of
  dead workers. The assembled tables are those of a loop that takes the cells one after another.
- **Memo cache** (`SimCacheKey`, `SimCache`, `JsonText`, `JsonCodec`, `SimCacheProtocol`): an append-only log of JSON
  lines shared by concurrent workers, each with an incremental mirror. A state machine interleaves lookups, torn
  reads, runs, crashes and appends; whatever a worker returns is what an uncached run returns.
- **Search** (`PerConfigSearch`, `AnalyticListing`, `ConfigSearch`, `HiddenBatches`): probe, widen and bisect per
  configuration, then a pruned argmax. The pruned search returns the unpruned result, and nothing listed
  beats its winner.
- **Step time** (`Tagging`, `OpTiming`, `StageOps`, `AttentionSplit`, `AttentionLimits`, `PipelineTiming`,
  `ClusterTiming`): the ops of a stage (linear layers, activations, layer norms, residual adds, decode attention,
  all-reduces, expert exchanges) carry a batch-dependent tag, devices accumulate it, and the pipelined step time
  is rebuilt from it. As long as every flash attention call is within a stated condition, the result never exceeds one
  microbatch through all stages plus the hops. Attention needs the condition: for the flash parameters it is exact,
  and an input beyond it is given. When the result equals the microbatch's path is stated op by op.
- **Partition** (`LlmPartition`, `RankAlgebra`): stages, layers and ranks.
- **Flash reads** (`FlashTiming`, `AttentionKernel`): the closed forms are the finish time of a
  double-buffered prefetch schedule; the decode attention kernel is built on them.
- **DRAM** (`AddressMap`, `Allocator`): mixed-radix address maps, and a bump allocator under which
  whole bundles of distinct permanent tensors never share a DRAM coordinate, although their starts are not
  granule-aligned.
- **Capacity** (`Footprint`, `CapacityGates`, `OptimizerGate`): the optimizer's gate and the simulator's gate
  agree up to two truncations, and are downward closed in the batch.

## Assumptions

- `double` is `real`; integers are unbounded. Hardware parameters that divide or bound something have the
  sign that `Hardware.ValidHardware` states.
- The live simulator is an arbitrary deterministic function of the written config. The search relies on no
  more than what `ConfigSearch.Tame` and `ConfigSearch.Audited` say: feasibility downward closed and bounded
  per configuration, positive step times, the audited relation between estimate and measurement, an estimate
  that grows at most linearly, throughput that does not fall as a configuration's batch grows, and no batch
  beyond a ceiling that the 2^30 guard cut short which promises more than the hint.
  `HiddenBatches.AuditCanBeMet` gives an instance.
- The cache's keys, values and line format are parameters. Lines have exact round trips and no parseable
  proper prefix (`SimCache.ValidCodec`), and keys decide results (`SimCacheProtocol.KeysDecide`). One append is
  one write, at the end of the file. `SimCacheProtocol.ShippedIsValid` gives the instance for the shipped keys and
  JSON lines: the reader need only read back what was written, and reject a text with an open bracket or quote
  (`JsonCodec.ReadsJson`).
- A device adds the ops' total and batch-dependent durations to its two clocks (`src/module/module_graph.cpp:255-257`,
  and the modules that add to the clocks themselves) and a hop to its clock and its hop counter
  (`src/module/communication.cpp:608-615`). A synchronization hands the slowest peer's two clocks on together
  (`src/module/module_graph.cpp:73-108`), so the op list behind a board is the slowest peer's up to the last one. The
  external DRAM simulator is off, and so is parallel execution, as in every preset. All tensors of a model have the
  model's precision.
- A microbatch takes 1/pp of a linear or elementwise op's tokens and of a message's bytes. For attention the batch is
  split into pp microbatches of any sizes and contexts, and the microbatch time is their mean; a microbatch that has
  sequences processes at least one token.
- The bound for linear ops, activations, norms, residual adds and exchanges holds for batch-dependent utilization as
  well; their equalities need `mfu_m_half` to be 0, its default in `hardware_config.h`. Flash attention needs that
  default, or a KV write that the batch's compute hides, and a chunk residual of at most half a page read
  (`PipelineTiming.WithinBound`). A chunk whose transfer takes at least half a page read meets the latter.

## Where code and comments disagree

The model follows the code.

- `run_experiments.py:273-278`: the comment says that an unreadable line leaves the position at the start of
  that line. After the loop's `break` a text file refuses to tell its position, the exception is swallowed,
  and the position stays where the refresh began. `SimCache.TornLineKeptIff` shows that the comment is right
  exactly when no whole record became visible since, and `SimCache.TornSecondLine` is a log on which it is
  wrong. The lines before the torn one are read again next time, and
  `SimCacheProtocol.RefreshIsSoundAndComplete` shows that this loses nothing.
- `run_experiments.py:746-754` derives the pruning bound from the hint being the largest batch within the SLO.
  The listing's guard (`eval/test.cpp:622`) can stop short of it: `ConfigSearch.SeedBoundsIff` says when that
  costs the bound, and `HiddenBatches.GuardHidesBatches` is a case where it does, on the optimizer's own evaluation.
- `src/dram/mmap_controller.cpp:149` scales the innermost digit by `num_cube`, while the decoder divides by
  `num_logic_cube`: `AddressMap.LogicRoundTripIff` shows that the round trip holds exactly when they agree.
- `src/dram/mmap_controller.cpp:105-109` asserts that the rank is in range after taking it modulo the rank
  count, so LOGIC addresses beyond the capacity alias instead of aborting: `Allocator.LogicNeverCollidesIff`.
- `src/model/llm.cpp:85-112`: on a first stage without decoder layers the embedding is called and its output
  dropped, because the result is taken from `out` and not from `temp`. `LlmPartition.OutputKeepsModulesIff` shows
  that a first-stage result has gone through all its modules exactly when there are at least as many layers as
  stages. Every rank runs on an input of its own (`src/model/model.h:43-54`), and every module is still called
  once.
- `run_experiments.py:211-237` keys an unset flag as true, while the config file takes it from `config.yaml`:
  `SimCacheKey.KeySoundIffFlagsDefaultTrue` shows that keys decide configs exactly when all three ship as true.
- `src/hardware/attention_gen_impl.cpp:193-195` reads the sum of all sequences at once so as not to over-charge:
  `FlashTiming.AggregationIff` shows that this holds exactly when a chunk's residual is within one call's share
  of the fill.
- `src/hardware/cluster.cpp:45-46` rebuilds the step as the full model at batch B/pp. Flash attention is tagged whole,
  its pipeline fill included: `AttentionLimits.SharedFillIsSaved` shows that the rebuilt time falls short of the
  microbatches' at the shipped flash settings, and `AttentionLimits.SmallBuffer` that it can exceed it beyond them.
  Likewise `src/module/layernorm.cpp:82-89` divides a weight read that no microbatch is spared: `StageOps.ElementBound`.

## Model

| member | source | states |
|---|---|---|
| PerConfigSearch.Bisect | run_experiments.py:798-810 | closes in on a verified k whose successor was probed and failed, with at most one probe per binary digit of the interval |
| PerConfigSearch.Widen | run_experiments.py:834-856 | terminates for any bounded simulator at such a boundary, with at most 1 + 2*floor(log2(k*-s+1)) probes from the verified start s |
| PerConfigSearch.SearchFrom | run_experiments.py:797-856 | the search in units of dp ends at such a boundary, with its own bound on probes for each branch |
| PerConfigSearch.SearchUp | run_experiments.py:812-856 | from a verified hint, the jump to the ceiling and the bisection below it or the widening past it keep the budget |
| PerConfigSearch.PerConfigMaxBatch | run_experiments.py:777-856 | whatever the simulator answers, returns 0 or a verified multiple of dp whose successor multiple was probed and failed, with that very failure; where feasibility is downward closed it is the largest feasible multiple; within the probe budget |
| PerConfigSearch.BoundaryIsMaximum | run_experiments.py:724-732 | under downward-closed feasibility that boundary is the largest feasible multiple of dp, beyond the analytic ceiling too, and every smaller multiple is feasible |
| AnalyticListing.Bracket | eval/test.cpp:617-625 | the last power of two that fits and the first that fails, or the guard was reached without a failure |
| AnalyticListing.CapacityCeiling | eval/test.cpp:617-633 | a ceiling that fits and whose successor does not, if any bracket probe failed; else the largest power of two within the guard |
| AnalyticListing.LatencyHint | eval/test.cpp:640-661 | the estimate at the hint; the hint is at the edge of the SLO, or 1 when nothing probed meets it |
| AnalyticListing.ListConfigs | eval/test.cpp:596-665 | one line per tuple that fits at its smallest batch, in order, each with the certified ceiling and hint; the batch-1 marker exactly when some dp==1 tuple fits |
| AnalyticListing.ListingIsExact | eval/test.cpp:617-661 | under monotone capacity and latency the ceiling separates what fits from what does not, and the hint is the largest k up to it within the SLO |
| ConfigSearch.InsertKeepsElements | run_experiments.py:905 | one insertion of the stable sort keeps the multiset of configurations |
| ConfigSearch.SortKeepsElements | run_experiments.py:902-905 | sorting keeps the multiset of configurations |
| ConfigSearch.SortIsStable | run_experiments.py:902-905 | the visiting order is descending in the seed, and configurations of equal seed keep their listed order |
| ConfigSearch.CandidateMembers | run_experiments.py:858-905 | the visited configurations are exactly the listed ones, or those with pp == 1 under the restriction |
| ConfigSearch.SearchFindsOperating | run_experiments.py:916-923 | the per-config search yields that configuration's operating point: its largest feasible batch, throughput and bound reason |
| ConfigSearch.ScanConfigs | run_experiments.py:909-923 | the loop computes the pruned or unpruned scan, and ends with the last configuration's smallest-batch failure when nothing won |
| ConfigSearch.PruningIsLossless | run_experiments.py:746-754 | when each seed bounds its configuration's verified throughput, pruning changes nothing, for any visiting order |
| ConfigSearch.ScanIsArgmax | run_experiments.py:909-923 | the unpruned scan returns the first of the operating points of highest throughput, and none exactly when no configuration has one |
| ConfigSearch.SeedIsUpperBound | run_experiments.py:746-754 | the seed bounds verified throughput: derived from estimate <= measured, the SLO, and the exact listing, whenever no batch beyond the listed ceiling promises more than the hint |
| ConfigSearch.CeilingSuffices | eval/test.cpp:617-645 | nothing beyond the ceiling promises more when a bracket probe failed, when the SLO already binds at the ceiling, or when no batch beyond it runs |
| ConfigSearch.SeedBoundsIff | eval/test.cpp:617-633 | the seed bounds every simulator in the audited relation exactly when no batch that the guard hid, and that fits and meets the SLO, promises more than the hint |
| HiddenBatches.GuardHidesBatches | eval/test.cpp:622 | the concrete failure on the optimizer evaluation: 2 TiB of ungated flash, 1 KiB of KV per sequence and an affine latency; the bracket stops at its guard, and one sequence more beats the seed |
| HiddenBatches.AuditCanBeMet | run_experiments.py:746-754 | the audited relation is not empty: that evaluation, its listing and simulators that stand in it |
| ConfigSearch.OperatingIsBest | run_experiments.py:724-732 | a configuration's operating point beats each of its other verified batches |
| ConfigSearch.ScanSucceeds | run_experiments.py:921-923 | a winner always carries a successful run |
| ConfigSearch.FindMaxBatchSize | run_experiments.py:858-942 | the reported result in every case: winner, restriction without candidates, infeasible at batch 1, optimizer-picked fallback with the last failure |
| ConfigSearch.PrunedSearchIsOptimal | run_experiments.py:746-942 | pruned and unpruned search return the same winner, the first of highest throughput in visiting order; no eligible configuration has a verified batch that beats it; listings stopped by the guard included while nothing beyond promises more |
| ConfigSearch.PruningKeepsResult | run_experiments.py:858-942 | the reported result is the same with and without pruning, the fallback branches and their failure reasons included |
| SimCacheKey.KeySoundIffFlagsDefaultTrue | run_experiments.py:210-244 | equal keys imply equal effective configs exactly when config.yaml ships the three flags as true; then equal configs also share a key |
| JsonText.DumpsDelimits | run_experiments.py:299 | a JSON value can be read back from its text and from any text that continues it with a delimiter: decimal numbers, escaped strings, nested lists and objects |
| JsonText.CutObjectIsTorn | run_experiments.py:270-276 | an object's text is well nested and none of its proper prefixes is: a line that is cut short cannot be read as JSON |
| JsonCodec.JsonLinesAreValid | run_experiments.py:295-305 | any reader that reads back what was written and rejects unclosed text meets the protocol's assumptions: one line per record, exact round trip, no parseable proper prefix |
| JsonCodec.SomeCodecIsValid | run_experiments.py:295-305 | a reader as assumed exists: no two records share a line, and no text with an open bracket or quote is a record |
| SimCache.ScanAtIsScan | run_experiments.py:261-277 | reading line by line from a position is reading the text beyond it |
| SimCache.Mirror.Refresh | run_experiments.py:252-281 | the memo absorbs the lines up to the first unreadable one; the position moves to the end of what was visible, or not at all |
| SimCache.Mirror.Lookup | run_experiments.py:283-290 | a hit changes nothing; a miss refreshes first; the answer is the memo's |
| SimCache.Mirror.Store | run_experiments.py:292-309 | the memo holds the verdict and one whole line is appended, position untouched |
| SimCache.ScanReadsWholeRecords | run_experiments.py:261-278 | any prefix of a log, cut anywhere, yields exactly its whole records, and is read to the end exactly when it is not cut inside one |
| SimCache.ScanResumes | run_experiments.py:259-278 | resuming from a position between records absorbs exactly the records that became whole since, and reaches the end exactly when that lies between records |
| SimCache.TornLineKeptIff | run_experiments.py:270-281 | a refresh that meets a torn line keeps the position at the start of that line, as the comment says, exactly when no whole record became visible since the position was reached |
| SimCache.TornSecondLine | run_experiments.py:270-281 | the failing input: two records, the second torn, leave the position at the start of the first |
| SimCache.AppendKeepsPositions | run_experiments.py:300-305 | an append leaves every position between records where it was |
| SimCache.WholeBounds | run_experiments.py:270-277 | the number of whole records in a prefix is the largest whose text fits it |
| SimCache.AbsorbAllKeeps | run_experiments.py:276-277 | absorbing true records keeps the memo true, loses no key and adds every record's key |
| SimCacheProtocol.RefreshIsSoundAndComplete | run_experiments.py:252-281 | after a refresh the memo is true, holds every wholly visible record, and the position has not passed an unread record |
| SimCacheProtocol.AppendKeepsInv | run_experiments.py:292-309 | an append by one worker keeps every worker's invariant |
| SimCacheProtocol.StepKeepsInv | run_experiments.py:311-335 | spawn, lookup, refresh, run, crash, append and failed append all keep the invariant, for any keys, values and line format that meet the assumptions |
| SimCacheProtocol.CacheIsTransparent | run_experiments.py:311-335 | in every state of every interleaving the log and all memos carry only the simulator's verdicts, and every returned verdict is that of an uncached run; no crash is recorded |
| SimCacheProtocol.KeysDecideIff | run_experiments.py:210-244 | keys decide the results of every simulator exactly when config.yaml ships the three flags as true |
| SimCacheProtocol.ShippedIsValid | run_experiments.py:210-309 | the shipped keys and JSON lines, with any such reader and any simulator, meet the assumptions of the protocol |
| SimCacheProtocol.ShippedCacheIsTransparent | run_experiments.py:311-335 | for the shipped keys, JSON lines and any simulator, every returned verdict is the simulator's for the config that the call writes |
| SimCacheProtocol.LookupIsStartThenRefresh | run_experiments.py:283-290 | the two lookup steps of the state machine together are one lookup of the mirror, with the same answer |
| SimCacheProtocol.AppendWritesStoredLine | run_experiments.py:292-305 | an append step writes the line that the mirror's store returns, and updates the worker as it does |
| SimCacheProtocol.VisibleRecordIsHit | run_experiments.py:283-290 | a miss that reads the log while a record of its key is wholly visible ends without a run, with the uncached verdict |
| OpTiming.TokensScale | src/hardware/linear_impl.cpp:64-69 | flops and token bytes scale with the token count, weight bytes do not |
| OpTiming.ComputeScales | src/hardware/hardware_config.h:314-317 | a microbatch needs at least its share of the compute time, exactly that at batch-independent utilization |
| OpTiming.ByteSplitKeeps | src/hardware/linear_impl.cpp:149-153 | splitting plain-memory time by byte fraction reproduces the microbatch's memory time exactly |
| OpTiming.HbmOpKeeps | src/hardware/linear_impl.cpp:149-153 | a memory-bound op on plain memory keeps exactly its microbatch memory time |
| OpTiming.FlashOpKeeps | src/hardware/linear_impl.cpp:140-148 | a memory-bound op on flash keeps its microbatch token time or its whole weight stream, whichever side won |
| OpTiming.ActivationKept | src/hardware/activation_impl.cpp:75-80 | an activation's fully dependent tag keeps at most its microbatch time |
| OpTiming.ColdKeepsNothing | src/hardware/linear_impl.cpp:156-171 | the override for a cold expert makes the reconstruction charge exactly 0 |
| OpTiming.WarmOpBound | src/hardware/linear_impl.cpp:118-154 | total - dep*(pp-1)/pp is at most the op's time at batch B/pp; at batch-independent utilization it is equal exactly when the op does not turn weight-limited there |
| StageOps.LayerNormForward | src/module/layernorm.cpp:19-92 | duration of a layer norm, all of it tagged, on flash and plain memory |
| StageOps.ResidualForward | src/module/residual.cpp:18-70 | duration of a residual add, all of it tagged |
| StageOps.AllReduceForward | src/module/communication.cpp:63-156 | latency and volume terms of the two ring phases; only the volume is tagged |
| StageOps.ExchangeForward | src/module/communication.cpp:168-336 | the slower link of the slower leg with its own volume term as tag; nothing for a device that sends or receives nothing |
| StageOps.ElementBound | src/module/layernorm.cpp:52-89 | a layer norm or residual add keeps at most its microbatch time, exactly that if and only if the norm weights do not limit the microbatch |
| StageOps.AllReduceKeeps | src/module/communication.cpp:100-154 | an all-reduce keeps exactly the time of the microbatch message: hop latencies in full, volume divided by pp |
| StageOps.ExchangeBound | src/module/communication.cpp:27-50 | an exchange keeps at most the microbatch exchange, exactly that if and only if its slowest link stays the slowest of the four |
| AttentionSplit.OneSided | src/hardware/attention_gen_impl.cpp:138-142 | the larger of two sums is at most the sum of the larger terms, equal exactly when one side is larger throughout and is not shortened |
| AttentionSplit.WholeAddsUp | src/hardware/attention_gen_impl.cpp:69-293 | over any split of a batch, compute, activation traffic, softmax and hiding budget add up, flash reads and KV writes at most add up |
| AttentionSplit.SplitBound | src/hardware/attention_gen_impl.cpp:18-295 | one attention call for a batch takes no longer than one call per microbatch, for any split, within the condition; equally long exactly when phases and writes add up |
| AttentionLimits.SharedFillIsSaved | src/hardware/layer_impl.h:134-168 | where the residual is below the fill, the call is strictly shorter than its microbatches as soon as two have sequences and one is limited by its KV read |
| AttentionLimits.LongerRead | src/hardware/layer_impl.h:134-168 | beyond the residual condition there is a batch whose call takes longer than its two microbatches |
| AttentionLimits.LongerWrite | src/hardware/attention_gen_impl.cpp:273-293 | with utilization that rises with the batch there is one on every flash device, through the KV write that less compute hides |
| AttentionLimits.NeverLongerIff | src/hardware/attention_gen_impl.cpp:18-295 | on a flash device no batch takes longer than its microbatches, for all layers with given chunk settings, exactly when utilization is batch-independent and the residual is within half a fill |
| AttentionLimits.SmallBuffer | src/hardware/layer_impl.h:134-168 | the concrete input: with a 100-byte buffer and a 1000 ns page read a phase takes 600 ns for one microbatch and 1600 ns for two, and the reconstruction charges 400 ns more than one microbatch takes |
| PipelineTiming.LinearCore | src/hardware/linear_impl.cpp:32-188 | duration and tag of a linear or batched linear op; the one-shot exposure flag is consumed even on empty input; the cold flag is passed on |
| PipelineTiming.LinearStatus | src/hardware/linear_impl.cpp:83-171 | the roofline duration and tag of a nonempty linear op, override included |
| PipelineTiming.ActivationCore | src/hardware/activation_impl.cpp:32-92 | duration and tag of an activation op; the cold flag is passed on |
| PipelineTiming.Device.Dispatch | src/module/module_graph.cpp:249-257 | one forward call adds its duration and its tag to the two clocks, for every kind of task |
| PipelineTiming.Device.RunStage | src/module/module_graph.cpp:255-257 | a device's clock, dependent clock and hop counter after its stage's tasks and hop |
| PipelineTiming.ColdOpVanishes | src/hardware/linear_impl.cpp:156-171 | a cold op of any size is charged exactly nothing |
| PipelineTiming.TaskBound | src/hardware/cluster.cpp:45-71 | every kind of task within the bound keeps at most its microbatch time; at batch-independent utilization exactly that if and only if it stays exact |
| PipelineTiming.AttentionBound | src/hardware/cluster.cpp:45-71 | attention keeps at most the mean of its microbatches, exactly that if and only if phases and writes add up |
| PipelineTiming.AttentionNeverExceedsIff | src/hardware/cluster.cpp:45-71 | the reconstruction charges no attention task of a flash device more than its microbatches exactly under that condition |
| PipelineTiming.StageBound | src/hardware/cluster.cpp:45-71 | any list of tasks whose attention is within the bound keeps at most its microbatch time; at batch-independent utilization exactly that if and only if every task stays exact |
| ClusterTiming.MaxDeviceTime | src/hardware/cluster.cpp:29-35 | the largest device clock |
| ClusterTiming.ReplicaTime | src/hardware/cluster.cpp:55-81 | the stage loop computes the replica's candidate from its representatives |
| ClusterTiming.ReportedIterationTime | src/hardware/cluster.cpp:37-85 | without pipelining the largest clock; with it the largest candidate over all replicas, each representative existing |
| ClusterTiming.ReconstructionBound | src/hardware/cluster.cpp:45-84 | with pipelined timing a candidate is at most one microbatch through all stages plus all hops if all attention is within the bound, at batch-independent utilization then equal if and only if every task stays exact; without pipelined timing exactly the sum of the stage clocks |
| ClusterTiming.ReportedTimeBound | src/hardware/cluster.cpp:54-84 | the reported time over all replicas: at most some replica's microbatch path if all attention is within the bound, at least that of every replica within it whose tasks all stay exact; the slowest serialized replica when timing is not pipelined |
| LlmPartition.Llm.constructor | src/model/llm.cpp:14-80 | the modules of a rank, in order, and the list of its stage's ranks |
| LlmPartition.Llm.Forward | src/model/llm.cpp:82-120 | calls each of the rank's modules once, in order, every one of them present; the result has gone through all of them exactly on later stages or when num_layers >= pp |
| LlmPartition.Llm.ApplyDecoders | src/model/llm.cpp:99-107 | the decoder loop: every decoder of the range in order, and the plain input when the range is empty |
| LlmPartition.LayersInOrder | src/model/llm.cpp:22-25 | the stages' layer ranges are in order and contiguous |
| LlmPartition.StagesCoverLayers | src/model/llm.cpp:22-25 | the stages' decoders, concatenated, are all decoders in order, for dividing and non-dividing counts |
| LlmPartition.SplitPreservesModules | src/model/llm.cpp:48-79 | the stages' modules without hops are the unsplit model's, which is the pp==1 list; there are pp-1 hops |
| LlmPartition.OutputKeepsModulesIff | src/model/llm.cpp:82-120 | on any input of its own, a rank's result has gone through all its modules exactly on the later stages, and on the first when num_layers >= pp |
| RankAlgebra.RanksAreGrid | src/hardware/device.cpp:103-106 | rank and (replica, stage, peer) determine each other, and ranks below dp*tp*pp are the grid |
| RankAlgebra.RepresentativeIsFirstPeer | src/hardware/cluster.cpp:47-58 | rank d*(tp*pp)+s*tp exists and is the first peer of stage s of replica d, as device and model compute them |
| RankAlgebra.HopReachesNextStage | src/model/llm.cpp:68-73 | rank + tp exists and is the same peer of the next stage of the same replica |
| RankAlgebra.StageDevicesMembers | src/model/llm.cpp:27-32 | a stage's list holds exactly that stage's ranks, ascending |
| RankAlgebra.StageListsPartition | src/model/llm.cpp:27-46 | every rank is in exactly one stage's list, and every list has dp*tp ranks |
| FlashTiming.ChunksPartition | src/hardware/layer_impl.h:154-157 | the chunks of a read are nonempty, fit the buffer and add up to the read |
| FlashTiming.ClosedFormIsSchedule | src/hardware/layer_impl.h:39-72 | the closed form is the finish time of the step schedule, in which a chunk's page read is issued when its predecessor starts transferring, less the shared part of the fill |
| FlashTiming.StreamAntitone | src/hardware/layer_impl.h:134-168 | a larger chunk never reads slower |
| FlashTiming.FullBufferIsOptimal | src/hardware/layer_impl.h:133-189 | no chunk setting beats the full staging buffer, and leaving both settings at 0 equals the non-chunked branch |
| FlashTiming.ReportedChunkIsMinimal | src/hardware/cluster.cpp:321-350 | the reported chunk reads as fast as the full buffer; any smaller one is strictly slower on every read that it splits |
| FlashTiming.ListNeverOvercharges | src/hardware/attention_gen_impl.cpp:69-122 | one read of the summed sizes costs no more than one read per sequence when the residual is within the fill share |
| FlashTiming.TwoFullChunks | src/hardware/layer_impl.h:154-168 | two reads of one chunk each, aggregated, cost one residual more and one fill share less |
| FlashTiming.AggregationIff | src/hardware/attention_gen_impl.cpp:193-195 | aggregation over-charges no list exactly when the residual is within the fill share, as it always is at amortization 1 |
| AttentionKernel.AddPairs | src/hardware/attention_gen_impl.cpp:80-111 | the loop over KV heads adds one sequence's compute, and its tier bytes or its plain-memory time |
| AttentionKernel.PairCosts | src/hardware/attention_gen_impl.cpp:80-111 | scoring and context operand shapes give the same flops, KV bytes and activation bytes |
| AttentionKernel.Phase | src/hardware/attention_gen_impl.cpp:69-142 | one pass over all sequences, then one read of the summed sizes: flash, offload or plain |
| AttentionKernel.AttentionGen | src/hardware/attention_gen_impl.cpp:18-295 | the layer's time over scoring, softmax, context and the unhidden KV write; all of it is tagged batch-dependent on every path |
| AttentionKernel.CostShrinks | src/hardware/attention_gen_impl.cpp:80-111 | with flash attention a sequence needs the same compute and KV and no more activation traffic |
| AttentionKernel.PhaseShrinks | src/hardware/attention_gen_impl.cpp:115-142 | so each phase takes no longer, on all three memory paths |
| AttentionKernel.FlashAttentionNeverSlower | src/hardware/attention_gen_impl.cpp:30-292 | on the same sequences and hardware, the layer with flash attention never takes longer |
| AttentionKernel.KernelAggregates | src/hardware/attention_gen_impl.cpp:115-122 | the kernel's read per phase costs no more than one read per sequence, when the residual is within the half fill charged |
| AddressMap.DecodeNormal | src/dram/mmap_controller.cpp:44-74 | decoding succeeds exactly below the capacity, lands in the coordinate box and determines the granule |
| AddressMap.EncodeNormal | src/dram/mmap_controller.cpp:44-74 | every coordinate vector in the box is the image of one granule below the capacity |
| AddressMap.DecodeLogic | src/dram/mmap_controller.cpp:76-114 | the LOGIC decoder lands in its box, and its digits are the granule's |
| AddressMap.EncodeLogic | src/dram/mmap_controller.cpp:116-155 | with equal cube counts, encoding then decoding is the identity on the box |
| AddressMap.DecodeGranule | src/dram/mmap_controller.cpp:76-114 | the decoder finds every digit of a granule, and the rank modulo the rank count |
| AddressMap.LogicWraps | src/dram/mmap_controller.cpp:105-109 | whole multiples of the LOGIC capacity leave every coordinate as it is: the check on the rank never fires |
| AddressMap.LogicAliasIff | src/dram/mmap_controller.cpp:76-114 | two addresses get the same LOGIC coordinates exactly when their granules agree modulo the capacity |
| AddressMap.LogicRoundTripIff | src/dram/mmap_controller.cpp:76-155 | decoding then encoding rounds every in-range address down to its granule exactly when num_cube == num_logic_cube |
| AddressMap.SecondRowOfCubes | src/dram/mmap_controller.cpp:149-150 | a concrete address that comes back misplaced whenever the cube counts differ |
| AddressMap.SameBox | src/dram/mmap_controller.cpp:44-114 | with equal cube counts and four banks both decoders cover the same number of granules and the same box |
| AddressMap.RamulatorVecInjective | src/dram/mmap_controller.cpp:24-27 | merging cube and channel and splitting by parity loses nothing |
| Allocator.MemoryObject.constructor | src/dram/memory_object.cpp:9-16 | address, size and bundle count |
| Allocator.MemoryObject.SetSize | src/dram/memory_object.cpp:31-34 | size and bundle count follow the new size |
| Allocator.MMapController.SetNormal | src/dram/mmap_controller.cpp:158-169 | activation and cache tensors start at 0 and reserve nothing; any other gets the next bytes |
| Allocator.MMapController.SetLogic | src/dram/mmap_controller.cpp:172-177 | the next LOGIC bytes, the normal allocator untouched |
| Allocator.MMapController.SetMemoryObject | src/dram/mmap_controller.cpp:14-19 | only tensors mapped over all channels are placed |
| Allocator.MMapController.PlaceAll | src/dram/mmap_controller.cpp:158-169 | any sequence of placements leaves the permanent ones in order and without overlap, at the prefix sums of their sizes |
| Allocator.BundleGranule | src/dram/mmap_controller.cpp:21-23 | bundles sit at consecutive granules from the one that holds the start |
| Allocator.FloorSuperadditive | src/dram/memory_object.cpp:15 | a tensor's whole bundles fit before the next tensor's first granule |
| Allocator.BundlesNeverCollide | src/dram/mmap_controller.cpp:21-30 | no two bundles of distinct permanent tensors get the same DRAM vector, however their sizes straddle granules |
| Allocator.BundlesDecode | src/dram/mmap_controller.cpp:68-69 | below the capacity every bundle has coordinates |
| Allocator.LogicBundlesNeverCollide | src/dram/mmap_controller.cpp:32-42 | below the LOGIC capacity the LOGIC map keeps the bundles of distinct tensors apart too |
| Allocator.LogicBundlesAlias | src/dram/mmap_controller.cpp:105-109 | the concrete alias: a tensor that fills the LOGIC capacity and one granule behind it share the vector of their first bundles |
| Allocator.LogicNeverCollidesIff | src/dram/mmap_controller.cpp:32-42 | the LOGIC map keeps every stack of tensors apart exactly when the stack's top does not exceed the capacity |
| Allocator.ObjectsNeverCollide | src/dram/memory_object.cpp:18-29 | two memory objects with distinct placements never name the same vector, for either kind of processor |
| Footprint.PeakScales | src/model/footprint.h:175-306 | the peak is homogeneous in the batch through every maximum and branch |
| Footprint.ScoreInclusiveScales | src/model/footprint.h:321-338 | so is the score-inclusive footprint |
| Footprint.ExtrasScale | src/model/footprint.h:420-454 | so are the staging and scratch extras |
| CapacityGates.Gate | src/hardware/cluster.cpp:376-508 | out of memory exactly when the activation tier or the pool is exceeded, the activation taken out of the pool on flash |
| CapacityGates.CheckMemorySize | src/hardware/cluster.cpp:170-210 | the decode activation is the truncated peak plus the truncated extras, and gates |
| CapacityGates.TruncationLosesUnderTwo | src/hardware/cluster.cpp:181-208 | the two integer conversions lose less than two bytes and add none |
| CapacityGates.GatesCoincideIff | src/model/footprint.h:71-129 | on one activation value the two gates are the same gate exactly when a flash preset's memory capacity is its total capacity |
| CapacityGates.GatesAgree | src/model/footprint.h:71-129 | what the simulator rejects the optimizer rejects; the converse can fail only within two bytes of the limit, on flash, plain-memory and CPU-offload configs |
| CapacityGates.GateDownwardClosed | src/hardware/cluster.cpp:381-423 | shrinking the batch, and the KV with it, never turns an accepted load into a rejected one |
| CapacityGates.OptimizerGateDownwardClosed | src/model/footprint.h:71-129 | the same for the optimizer's gate, which truncates nothing |
| OptimizerGate.CapacityIsDownwardClosed | src/optimizer/parallelism_optimizer.cpp:328-413 | the evaluation's capacity verdict is downward closed in the batch for every tuple: the premise of the listing's bisection |
| OptimizerGate.UngatedActivation | src/model/footprint.h:71-129 | on flash without an activation gate a batch fits exactly when weights and KV fit |
| CapacityGates.DiagCeilingIsExact | src/hardware/cluster.cpp:398-411 | a batch keeps the score-inclusive footprint within the limit exactly when its per-GPU share is at most the printed ceiling |
| SweepAssembly.SweepSpecs | run_experiments.py:1576-1583 | the main sweep's list holds exactly the cells of its scope |
| SweepAssembly.SensitivitySpecs | run_experiments.py:1683-1687 | the sensitivity list holds exactly the LONG cells of its scope |
| SweepAssembly.PecSpecs | run_experiments.py:1793-1800 | the PEC list holds exactly the offline cells of its scope |
| SweepAssembly.Collect | run_experiments.py:1592-1602 | after the pool is joined, in whatever order, each key holds the outcome of its own cell, a dead worker's as crashed; earlier entries survive |
| SweepAssembly.GatherBaselines | run_experiments.py:1527-1560 | every (model, workload) has its HBM4 cell on 8 GPUs |
| SweepAssembly.MainSweep | run_experiments.py:1588-1655 | the result table is the sequential one for every completion order, and every key that is read is present |
| SweepAssembly.RunSensitivityPools | run_experiments.py:1692-1715 | both pools together fill one entry per submitted cell |
| SweepAssembly.SloBaselines | run_experiments.py:1721-1740 | every (model, SLO) has the outcome of its own baseline cell, taken from the right sweep |
| SweepAssembly.AssembleSloRows | run_experiments.py:1742-1771 | the SLO table is the sequential one |
| SweepAssembly.ReuseSensitivity | run_experiments.py:1807-1813 | PEC cells already run by the sensitivity sweep take that very outcome |
| SweepAssembly.RunPecPool | run_experiments.py:1802-1831 | every PEC cell has an entry, reused or run |
| SweepAssembly.AssemblePecRows | run_experiments.py:1833-1847 | the PEC table is the sequential one |
| SweepAssembly.BaselineReadsPresentIff | run_experiments.py:1721-1735 | the per-SLO baselines find their cells exactly when HBM4 and 8 GPUs are in the sensitivity scope |
| SweepAssembly.PecReadsPresentIff | run_experiments.py:1802-1813 | the PEC sweep finds every workload and every reused cell exactly when the sensitivity scope covers the duplicates |
| SweepAssembly.ShippedScopeCovers | run_experiments.py:45-60 | the shipped constants meet both conditions |
| SweepAssembly.RunSweeps | run_experiments.py:1522-1850 | for every completion order of the five pools and every set of dead workers, all three tables equal the sequential ones |
| SweepAssembly.RunTwiceIff | run_experiments.py:1689-1691 | the cells that two pools simulate are exactly the online LONG cells of both sweeps bar the shared baseline |
| SweepAssembly.ReuseChangesNothing | run_experiments.py:944-965 | with no dead worker, every row is that of one direct search of its cell and one of its baseline |

## Left out

- Floating-point rounding everywhere, and the printed precision of `est_lat_hint_ms` between the listing and the search.
- 32-bit and 64-bit overflow: the guard of 2^30 in the listing is modelled, the conversions to `int` of chunk counts and coordinates are not.
- The external DRAM simulator, its requests, and the idealized memory statistics that add no time.
- The latency and weight formulas of `EvaluateConfig`, candidate enumeration, expert routing, exchange volumes, hop times and the scheduler: functions or parameters.
- Subprocess calls, YAML, CSV and stdout parsing; a verdict keeps only what decides the search.
- JsonText.DumpsDelimits: numbers are written as mantissa and exponent, and control and non-ASCII characters other than the line break as they are; `json.dumps` prints shortest decimals and \u escapes.
- The cache's off switch, a single write that the operating system cuts short for good, and the binary fingerprint changing within one process.
- `csv_file`, raw stdout and the breakdown columns: they depend on the worker that ran the cell.
- ConfigSearch.FindMaxBatchSize: the logged figures `legacy_global_max_batch` and `pruned` are not modelled, because nothing reads them.
- PipelineTiming.LinearCore: utilization, flops and byte statistics of the status are left out, because no duration depends on them.
- LlmPartition.Llm.constructor: the lists of first-stage and last-stage ranks are instances of the modelled stage list.
- Allocator.MemoryObject.SetSize: growing an object beyond what was reserved for it is possible in the source and in the model; the non-overlap theorems speak of the reserved sizes.
- Allocator.MMapController.SetLogic: nothing in the repository calls it, so only its own effect is stated; the LOGIC map is studied on the normal placements, where requests use it.
- CapacityGates.CheckMemorySize: prefill and colocated activation formulas, batch shrinking under `mem_cap_limit` and the drift report are left out.
- AttentionKernel.AttentionGen: LOGIC, PIM, mixed, prefill and latent-attention kernels repeat the same loops; stages of latent-attention models, with their rotary embeddings, are not modelled.
- SweepAssembly.GatherBaselines: the dictionary stores outcomes; the derived per-GPU figures are computed where they are read.
- The optimizer's heterogeneous capacity check, energy counters, figures, reports and the second paper's driver.
