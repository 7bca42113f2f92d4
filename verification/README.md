# Verified models of vLLM components

A Dafny model of six stateful components of vLLM, with proofs of what each is
for. `dafny verify dfyconfig.toml` checks the project. Nothing here was executed:
the claims are those the verifier accepts.

| modules | component |
|---|---|
| `SelectiveScan`, `ScanUnrolled`, `ScanKernel`, `ScanRefinement`, `ScanMetadata`, `ScanLaunch`, `ScanPrefixCache`, `ScanGrid`, `ScanLayout`, `ScanLaunchExact`, `ScanRequest`, `ScanTensors` | the chunked selective scan with prefix-cache checkpoints: recurrence, in-place padded kernel, chunk builder, launch, grid |
| `Quantizer` | the per-token integer quantiser |
| `SleepChunks`, `SleepDriver`, `SleepAllocator` | the sleep-mode allocator (ROCm path) over a driver that may fail at any call |
| `BlockStore`, `BlockBatch` | block files published by rename, and the batch calls on top |
| `NinjaSweep`, `NinjaReport` | the weighted build-time sweep and the log reader that feeds it |
| `MediaBudget`, `MediaDownload` | the bounded download with a shared budget and retries |
| `SpinLoop` | the arm, recheck and wait loop |
| `Arithmetic`, `Wrappers` | division and multiplication facts and the option type, used by several of them |

What the main results say:

- **Scan.** One kernel program, in place on `delta` and `z` and padded to a power
  of two, computes the plain recurrence (`RunProgram`, `RunRefinesRecurrence`).
  With the metadata its builder makes, block-table entry `first + c` ends up with
  the recurrence's state after exactly `(first + c + 1) * block_size` tokens
  (`CheckpointsAreExact`), and any chain of launches that resume from such
  checkpoints gives the outputs and final state of one uncached pass
  (`ResumedEqualsUncached`). Programs of a launch may be interleaved in any way
  (`LaunchOrderIndependent`), and under every schedule each cache block and each
  output is the recurrence's (`LaunchCheckpointsExact`, `LaunchOutputsExact`), also
  for a request that goes through any number of such launches, each resumed from
  any block of the one before (`RequestIsExact`). Rows that hold the null block
  may be as many as they like. The recurrence itself is unrolled: a lane after k
  tokens is its start times the product of their `exp(delta * A)`, plus each
  `delta * u * B` times the later ones (`ScanUnrolls`, `OutputUnrolls`). And it is
  read off the logical tensors: every output and every stored lane of a launch is
  that sum for its own row, channel, group and position (`LaunchComputes`,
  `LaunchLeavesFinalState`, `LaunchLeavesCheckpoints`). For packed inputs that
  holds exactly when the token axis is contiguous, because the kernel steps
  through it without a stride (`KernelCell`).
- **Quantiser.** The scale is the least one, above its floor, that spreads the row
  over the codes (`ScaleIsLeast`), and every element comes back to within half of
  `max(range / qmax, 0.00001)` (`ErrorInRow`).
- **Allocator.** The driver answers from two lists given beforehand, and the
  callback raises as a third list says. If no driver call fails, no callback
  raises and the requests are proper (sizes for which nothing wraps, frees with
  the size that was reserved), then every request of any run is served and does
  exactly what it should: a malloc gets a range of its own, cut into chunks of the configured size rounded
  up to the granularity, a sleep and a wake
  succeed, and the address and chunk layout survive (`Serve`, `Effect`). Whatever
  fails, before every request that is served the books agree with the device:
  every allocation keeps an address range of its own, awake ones are tiled by
  their own live chunks, asleep ones hold nothing, and nothing else is reserved,
  mapped or held (`Good`) — until the first of ten named events (`Cause`). The
  code does not survive those: a `malloc` that fails after its callback leaves a
  table entry without a reservation, `wake` entered with an error pending loses a
  chunk, a failed set-access leaves a mapped range, a free with another size than
  was reserved keeps the address, a chunk size near 2^64 divides by zero, and one
  a little smaller gives an allocation no chunks, so that a pointer to unmapped
  addresses is handed out. Each operation's contract says what is left behind.
- **Block store.** With any number of stores and loads interleaved one system
  call at a time and any of them failing, a destination is absent or complete,
  and is lost only to a load that asks for more bytes than the block has
  (`PublishedBlocks`, `LostToOversized`, `LostIffOversized`). The batch calls are proved against
  that protocol with interference between any two calls (`Machine`). The kernel's
  answers, the other processes' doings and the interpreter's refusals are lists
  given beforehand, so every result is determined: it is the errno of the first call
  that fails, and with no failing call, no refused argument and temp names of its
  own a batch that is stored and loaded back gives every byte back (`StoreThenLoad`).
- **Sweep.** Weighted durations add up to the measure of the union of the task
  intervals, and for whole-millisecond stamps to the number of milliseconds in
  which some task ran (`Conservation`, `TotalCountsTicks`), counted in the log
  itself (`Report`). The sweep fails exactly when some task ends before it starts.
- **Downloads.** Over every interleaving the shared budget is never exceeded and
  equals the bytes appended by all downloads and attempts (`BudgetOverRuns`); a
  retried read returns one attempt's whole body within both limits (`GetBytes`). A
  read succeeds exactly when the response stays within its limit and the budget, with
  what other downloads charge in between, covers it (`ReadResponse`); alone, that is
  when what is left of the budget is at least as long as the body (`AffordableAlone`).
- **Spin loop.** A thread that waits while the callback would return true has a
  wakeup pending; the clock is read in any sixteen consecutive passes, across
  counter wrap; and the passes of the loop are runs of that step relation.

Where code and documentation disagree the model follows the code. The comment on
`_store_block` says a failed store removes its temp file; it does so only when
its `unlink` succeeds, which the model records as `cleaned`. The comment on
`get_memcreate_chunk_size` promises a guard against overflow; the guard covers the
conversion to bytes but not the later rounding (`RoundedChunkCanBeZero`).

## Model

| member | source | states |
|---|---|---|
| SelectiveScan.ScanSplit | vllm/_xpu_ops.py:886-938 | scanning a prefix and then the rest from the state reached is one scan of the whole |
| SelectiveScan.OutputSplit | vllm/_xpu_ops.py:886-938 | the outputs of the rest are the outputs of the whole at the shifted positions |
| SelectiveScan.NextPowerIsLeast | vllm/_xpu_ops.py:1175-1175 | the padded width is the least power of two that holds the state |
| SelectiveScan.DotPad | vllm/_xpu_ops.py:914-925 | padding lanes add nothing to the sum over lanes |
| SelectiveScan.AdvancePad | vllm/_xpu_ops.py:902-922 | one step keeps padding lanes at zero and agrees with the unpadded step on the real lanes |
| SelectiveScan.OutputPad | vllm/_xpu_ops.py:914-927 | the output of a padded step is the output of the unpadded one |
| ScanUnrolled.ScanUnrolls | vllm/_xpu_ops.py:887-922 | a lane of the recurrence after any tokens is the start times the product of exp(delta * A), plus each delta * u * B times the product of the later factors |
| ScanUnrolled.OutputUnrolls | vllm/_xpu_ops.py:886-927 | the output at a position is the sum over lanes of C times that explicit lane, plus D * u |
| ScanUnrolled.SoftplusLaw | vllm/_xpu_ops.py:674-676 | up to 20 the exponential of softplus is exp(x) + 1, and above 20 softplus is the identity |
| ScanUnrolled.GateLaws | vllm/_xpu_ops.py:932-934 | the gate is zero at zero, and its values at z and -z differ by the output times z |
| ScanKernel.LoadStateLanes | vllm/_xpu_ops.py:805-820 | the loaded register is the slot's lanes followed by zeros |
| ScanKernel.StoreStateLanes | vllm/_xpu_ops.py:958-965 | exactly the real lanes of the slot are overwritten |
| ScanKernel.ScanToken | vllm/_xpu_ops.py:886-938 | one position in place: inputs are read before their cells are overwritten, outputs land where the specification puts them |
| ScanKernel.ScanLanes | vllm/_xpu_ops.py:887-927 | the register part of a position, computed by explicit arithmetic, is one step of the recurrence whose closed form `ScanUnrolls` gives; it does not depend on the gate input |
| ScanKernel.ReadDelta | vllm/_xpu_ops.py:891-900 | bias, then softplus up to 20: the step size of the recurrence |
| ScanKernel.AdvanceLanes | vllm/_xpu_ops.py:902-925 | the loop over lanes: every lane decays by exp(delta * A) and takes in delta * u * B, and the sum is taken with C |
| ScanKernel.GateOutput | vllm/_xpu_ops.py:932-938 | the gated output |
| ScanKernel.ScanChunk | vllm/_xpu_ops.py:874-938 | the inner loop performs the chunk's positions in order |
| ScanKernel.StoreSlot | vllm/_xpu_ops.py:943-956 | the slot is the block-table entry of the block in which the chunk's last token falls, and the entry of `last` for the last chunk |
| ScanKernel.RunProgram | vllm/_xpu_ops.py:796-977 | the kernel body, in place on three tensors, equals the specification run |
| ScanRefinement.StepTracks | vllm/_xpu_ops.py:886-938 | each position keeps the correspondence with the recurrence: done cells hold outputs, the others their inputs, padding is zero |
| ScanRefinement.StepsTrack | vllm/_xpu_ops.py:874-938 | so does any range of positions, and it never touches the state memory |
| ScanRefinement.ChunksTrack | vllm/_xpu_ops.py:874-966 | so does any number of chunks, whatever they store |
| ScanRefinement.RunRefinesRecurrence | vllm/_xpu_ops.py:796-977 | after the run `delta` holds the plain recurrence's outputs, `z` the gated ones, and every other cell is as it was; `ScanTensors.ProgramComputes` says what those are on the tensors |
| ScanRefinement.StoreThenLoad | vllm/_xpu_ops.py:958-965 | a slot gives back what was stored in it and stores do not reach other slots |
| ScanRefinement.CheckpointAfter | vllm/_xpu_ops.py:942-966 | a checkpoint not stored over is the recurrence's state at the end of its chunk, after any number of further chunks |
| ScanRefinement.Checkpoint | vllm/_xpu_ops.py:942-966 | the same at the end of the run |
| ScanRefinement.FinalStateStored | vllm/_xpu_ops.py:968-977 | without a block table the loaded slot ends with the final state |
| ScanMetadata.CutFull | vllm/v1/attention/backends/mamba_attn.py:294-302 | the loop over full chunks records their starts and owners |
| ScanMetadata.CutSegment | vllm/v1/attention/backends/mamba_attn.py:279-302 | an optional chunk up to the boundary and then full chunks |
| ScanMetadata.CutRow | vllm/v1/attention/backends/mamba_attn.py:267-306 | one request, with or without a forced checkpoint, and the chunk that ends at it |
| ScanMetadata.ComputeChunkMetadata | vllm/v1/attention/backends/mamba_attn.py:237-310 | boundaries are the running sums of the chunk lengths; each chunk lies within the tokens of the request it names; the last chunk of a request ends where its tokens do and its checkpoint chunk exactly at the forced offset |
| ScanMetadata.ChunksWithinOwners | vllm/v1/attention/backends/mamba_attn.py:279-310 | a chunk holds tokens of the request it names and of no other |
| ScanMetadata.ChunksMarked | vllm/v1/attention/backends/mamba_attn.py:267-310 | the last chunk of a request ends where its tokens do, and its checkpoint chunk, which is its own, at the forced offset; -1 when none is forced |
| ScanMetadata.SegmentSum | vllm/v1/attention/backends/mamba_attn.py:279-302 | the chunks of a segment add up to its tokens and none exceeds the chunk size |
| ScanMetadata.SegmentEnds | vllm/v1/attention/backends/mamba_attn.py:279-302 | every chunk but the last ends on the next multiple of the chunk size in absolute positions |
| ScanMetadata.SegmentCount | vllm/v1/attention/backends/mamba_attn.py:279-302 | there is one chunk per block the segment touches |
| ScanMetadata.RowSum | vllm/v1/attention/backends/mamba_attn.py:266-302 | the chunks of a request add up to its tokens, and are non-empty unless a checkpoint sits at the very end |
| ScanLaunch.BuiltCuts | vllm/_xpu_ops.py:852-872 | the cuts a program reads from the builder's metadata are the running sums of its own row's chunks |
| ScanLaunch.BuiltInBounds | vllm/_xpu_ops.py:852-872 | the builder's metadata keeps every chunk index in bounds and the boundaries ascending |
| ScanLaunch.BuiltCovers | vllm/_xpu_ops.py:852-872 | the chunks of a row cover all its tokens |
| ScanPrefixCache.ChunkIsBlock | vllm/_xpu_ops.py:852-966 | chunk c is stored through entry `first + c`, and all but the last end where that block ends |
| ScanPrefixCache.ChunksAreBlocks | vllm/_xpu_ops.py:852-872 | a row has one chunk for each block from `first` to `last` |
| ScanPrefixCache.PrefillIsValid | vllm/_xpu_ops.py:852-956 | with a long enough block table the builder's metadata keeps every access of the program to it in bounds |
| ScanPrefixCache.NoOverwrite | vllm/_xpu_ops.py:942-966 | with distinct slots no chunk stores over the checkpoint of an earlier one |
| ScanPrefixCache.CheckpointsAreExact | vllm/_xpu_ops.py:852-966 | entry `first + c` holds the recurrence's state after exactly `(first + c + 1) * block_size` tokens, the last one the state after all |
| ScanPrefixCache.OutputsAreExact | vllm/_xpu_ops.py:805-938 | every output of a continued run, gated or not, is that of one uncached pass at the same position |
| ScanPrefixCache.EndState | vllm/_xpu_ops.py:940-977 | the slot a later launch resumes from holds the state after the history and the chunks so far |
| ScanPrefixCache.ChainContinues | vllm/_xpu_ops.py:805-820 | every launch of a chain of resumptions starts from the recurrence's state |
| ScanPrefixCache.ResumedEqualsUncached | vllm/_xpu_ops.py:805-977 | resuming any number of times from any chunk gives the outputs of one uncached scan, and leaves the same lanes in the slot through which the last chunk is stored |
| ScanGrid.OpsAreRun | vllm/_xpu_ops.py:796-977 | the program cut into single memory operations is the program |
| ScanGrid.ExecLocal | vllm/_xpu_ops.py:886-977 | an operation depends only on the cells its program touches |
| ScanGrid.ExecFramed | vllm/_xpu_ops.py:886-977 | an operation changes only cells its program writes |
| ScanGrid.InterleaveKeeps | vllm/_xpu_ops.py:886-977 | under any schedule each program sees its own cells as if it ran alone |
| ScanGrid.OneOutcome | vllm/_xpu_ops.py:886-977 | complete runs that keep programs isolated end in one and the same memory |
| ScanGrid.GridOrderIndependent | vllm/_xpu_ops.py:886-977 | every complete schedule ends in the memory of running the programs one after the other |
| ScanGrid.EachAsAlone | vllm/_xpu_ops.py:886-977 | under every complete schedule each program's cells end as if it had run alone |
| ScanLayout.PackedApart | vllm/_xpu_ops.py:822-850 | packed rows never share an input or output cell |
| ScanLayout.BatchedApart | vllm/_xpu_ops.py:822-850 | batched rows never share one either |
| ScanLayout.StateCellsApart | vllm/_xpu_ops.py:822-850 | a state cell determines its slot and channel |
| ScanLayout.ProgramsApart | vllm/_xpu_ops.py:757-850 | programs of rows that are processed, with disjoint slots, do not interfere |
| ScanLayout.NullRowsDoNotClash | vllm/_xpu_ops.py:776-781 | rows that hold the null block never break the disjointness that is asked for |
| ScanLayout.LaunchOrderIndependent | vllm/_xpu_ops.py:1131-1279 | any interleaving of the programs of a launch, padded with null-block rows or not, ends in the same memory |
| ScanLayout.LaunchProgram | vllm/_xpu_ops.py:757-784 | a row whose slot, read from the indices or the block table, is the null block changes nothing; any other row runs its program, whose reads and results `ScanTensors` gives on the tensors |
| ScanLaunchExact.LaunchCheckpointsExact | vllm/_xpu_ops.py:1131-1279 | whatever the schedule of a launch with the builder's metadata, block-table entry `first + c` of every row ends with the recurrence's state after exactly that block's tokens, on every channel |
| ScanLaunchExact.LaunchOutputsExact | vllm/_xpu_ops.py:1131-1279 | whatever the schedule, every output, gated or not, is that of one uncached pass over the whole sequence; `ScanTensors.LaunchComputes` writes it out |
| ScanRequest.PassContinues | vllm/_xpu_ops.py:805-820 | every launch of a request starts from the recurrence's state after exactly the tokens it skips, although each launch was interleaved in its own way |
| ScanRequest.RequestIsExact | vllm/_xpu_ops.py:1131-1279 | over any number of interleaved launches, each resumed from any block of the one before, every block and output is that of one pass of the plain recurrence over the request |
| ScanTensors.KernelCell | vllm/_xpu_ops.py:822-850 | the address a program computes is the tensor's cell exactly when the row is not packed, the token is the first, or the token axis is contiguous |
| ScanTensors.TokenIs | vllm/_xpu_ops.py:757-900 | what a program reads at a position are u, delta, B, C and z of its own row, channel, group and position |
| ScanTensors.ProgramIs | vllm/_xpu_ops.py:757-820 | it starts from the lanes of its row's slot, or from zero without an initial state, with A, D and bias of its channel |
| ScanTensors.ProgramComputes | vllm/_xpu_ops.py:796-938 | every output of a program is the explicit sum over its row, channel and group, and the gated one that times z / (1 + exp(-z)) |
| ScanTensors.LaunchComputes | vllm/_xpu_ops.py:1131-1279 | so is, under every schedule, every output cell of a launch |
| ScanTensors.LaunchLeavesFinalState | vllm/_xpu_ops.py:968-977 | without a block table the slot a row started from ends with the explicit lanes after all its tokens |
| ScanTensors.LaunchLeavesCheckpoints | vllm/_xpu_ops.py:942-966 | with one, block-table entry `first + c` ends with the explicit lanes after the tokens of that block |
| Quantizer.ScaleCovers | vllm/_xpu_ops.py:995-1005 | the scale spreads the row's range over the available steps; it is the least that does (`ScaleIsLeast`) |
| Quantizer.CodeRange | vllm/_xpu_ops.py:995-996 | the codes are the whole signed or unsigned range of that many bits |
| Quantizer.ByteCodes | vllm/_xpu_ops.py:995-996 | for eight bits they are -128 to 127, or 0 to 255 |
| Quantizer.ScaleIsLeast | vllm/_xpu_ops.py:997-1005 | of all scales no smaller than 0.00001 for which the row fits the codes, by magnitude or by span, it is the least |
| Quantizer.ScaledInRange | vllm/_xpu_ops.py:999-1012 | in scaled units no element is more than half a step outside the code range |
| Quantizer.ClampNearest | vllm/_xpu_ops.py:1008-1012 | clamping then costs nothing beyond rounding |
| Quantizer.QuantizationError | vllm/_xpu_ops.py:987-1017 | in both modes, for any round-to-nearest rule, every element is recovered to within half a step |
| Quantizer.ErrorInRow | vllm/_xpu_ops.py:987-1017 | so the error is at most half of max(r / qmax, 0.00001), r the largest magnitude of the row or its span |
| Quantizer.ZeroIsExact | vllm/_xpu_ops.py:987-1017 | an element that is zero is recovered exactly, in both modes |
| Quantizer.ZeroHasCodeIff | vllm/_xpu_ops.py:1004-1012 | for any row, with ties rounded to even, zero has a code exactly when the least element is at most half a step above zero and less than half a step below the range of codes |
| Quantizer.ZeroPointIsCode | vllm/_xpu_ops.py:1004-1006 | it is one of the codes whenever the row spans zero |
| SleepChunks.ChunkSize | csrc/cumem_allocator.cpp:25-43 | the configured megabytes in bytes when they fit 64 bits and are not 0, else 256 MB |
| SleepChunks.RoundUpExact | csrc/cumem_allocator.cpp:357-384 | the round-up is the least multiple that is large enough exactly when the addition does not wrap, and 0 when it does |
| SleepChunks.ChunkCountExact | csrc/cumem_allocator.cpp:385-386 | the count is the least that reaches the size, or 0 when the addition wraps |
| SleepChunks.PlanChunks | csrc/cumem_allocator.cpp:385-407 | chunk i starts at i chunk sizes, the last takes the rest, and the chunks tile the allocation exactly when the count does not wrap |
| SleepChunks.ChunksAreMultiples | csrc/cumem_allocator.cpp:382-407 | every chunk is a multiple of the granularity |
| SleepChunks.RoundedChunkCanBeZero | csrc/cumem_allocator.cpp:382-386 | a configured size for which the chunk size rounds to 0 and the count divides by zero |
| SleepChunks.RoundedChunkPositive | csrc/cumem_allocator.cpp:382-386 | that happens exactly when the round-up wraps |
| SleepChunks.ChunksCanBeNone | csrc/cumem_allocator.cpp:382-386 | a configured size, a granularity and an allocation for which there are no chunks |
| SleepChunks.NoChunksIff | csrc/cumem_allocator.cpp:385-386 | that happens exactly when the count wraps |
| SleepDriver.FillThenEmpty | csrc/cumem_allocator.cpp:174-275 | unmapping and releasing an allocation's chunks undoes creating and mapping them |
| SleepDriver.NextCanMap | csrc/cumem_allocator.cpp:184-203 | the next chunk's range lies in the reservation and touches no mapping |
| SleepDriver.FirstErrorIsFirst | csrc/cumem_allocator.cpp:255-275 | the reported error is the status of the first failing call |
| SleepDriver.Device.ReserveAddress | csrc/cumem_allocator.cpp:50-71 | success means an unused range with the asked alignment, at the hint if that is free and the driver does not move it; failure leaves nothing reserved; no failing call means success |
| SleepDriver.Device.UnmapEach | csrc/cumem_allocator.cpp:257-264 | each chunk is unmapped once where it was mapped, past failures, keeping the first error |
| SleepDriver.Device.ReleaseEach | csrc/cumem_allocator.cpp:266-271 | each handle is released once, past failures, keeping the first error |
| SleepDriver.Device.UnmapAndRelease | csrc/cumem_allocator.cpp:233-277 | an allocation loses exactly its chunks and mappings; the first failure becomes the error code |
| SleepDriver.Device.CreateChunks | csrc/cumem_allocator.cpp:174-183 | all chunks or none; with an error pending, one created chunk is lost |
| SleepDriver.Device.MapChunks | csrc/cumem_allocator.cpp:184-203 | all chunks mapped one after the other, or none mapped and all released |
| SleepDriver.Device.CreateAndMap | csrc/cumem_allocator.cpp:119-231 | with no error pending and no failing call everything is mapped; a failure in either loop changes nothing; the exact effect of a failed set-access, of a pending error and of an empty list of chunks |
| SleepAllocator.AsleepHoldsNothing | csrc/cumem_allocator.cpp:698-719 | with everything asleep no physical memory is held and every address is still reserved |
| SleepAllocator.ReserveKeeps | csrc/cumem_allocator.cpp:366-369 | a new reservation keeps the books in agreement with the device |
| SleepAllocator.WakeKeeps | csrc/cumem_allocator.cpp:776-787 | so does filling an asleep allocation with new chunks |
| SleepAllocator.SleepKeeps | csrc/cumem_allocator.cpp:695-719 | so does emptying an awake one, whose chunks were all its own |
| SleepAllocator.DropKeeps | csrc/cumem_allocator.cpp:572-574 | so does giving an asleep allocation's address back, which the driver can accept |
| SleepAllocator.DroppedCanReserve | csrc/cumem_allocator.cpp:704-719 | an address that was just given back can be had again at the same place |
| SleepAllocator.LeastMultipleIs | csrc/cumem_allocator.cpp:357-384 | there is a least multiple of the granularity that is large enough |
| SleepAllocator.CutIs | csrc/cumem_allocator.cpp:382-407 | and it is the only one, so the chunk layout is determined by the configured size and the granularity |
| SleepAllocator.Allocator.Malloc | csrc/cumem_allocator.cpp:337-465 | null and no change while an error is pending; a plain size gets an aligned range of its own, large enough by less than a granule and fully mapped, whenever no driver call fails and the callback does not raise; what each kind of failure leaves behind; its chunks are the least multiple of the granularity that holds the configured chunk size, but for a last one no larger |
| SleepAllocator.Allocator.MapNew | csrc/cumem_allocator.cpp:441-464 | maps the reserved range or gives the address back, leaving the entry the callback made |
| SleepAllocator.Allocator.MapNothing | csrc/cumem_allocator.cpp:441-464 | with no chunks only access is set: the range is handed out unmapped, or given back, and the entry stays |
| SleepAllocator.Allocator.Free | csrc/cumem_allocator.cpp:468-585 | the allocation is gone, asleep or awake, exactly when the caller's size is the reserved one; the error is neither raised nor cleared when no driver call fails |
| SleepAllocator.Allocator.Sleep | csrc/cumem_allocator.cpp:695-731 | it succeeds whenever no error is pending and no driver call fails; the chunks go and the same address stays reserved, also when an error was pending; when it succeeds no memory is left behind the address; the error is cleared |
| SleepAllocator.Allocator.Reclaim | csrc/cumem_allocator.cpp:704-719 | the address is freed and taken back, or an error is raised and it is lost |
| SleepAllocator.Allocator.Wake | csrc/cumem_allocator.cpp:776-799 | it succeeds whenever no error is pending and no driver call fails; the same address and chunk layout in new chunks, or nothing changed; the error is cleared |
| SleepAllocator.Allocator.SleepAll | vllm/device_allocator/cumem.py:279-322 | it gets through whenever no error is pending and no driver call fails; then nothing physical is held and addresses, sizes and layouts are what they were |
| SleepAllocator.Allocator.WakeAll | vllm/device_allocator/cumem.py:354-382 | it gets through whenever no error is pending and no driver call fails; then the chosen pointers are awake at the same addresses with the same layout, the others as they were |
| SleepAllocator.Allocator.Serve | csrc/cumem_allocator.cpp:337-800 | with no failing driver call, no raising callback, no error pending and proper requests, every request is served and does exactly what it should; in every run the books agree with the device before each served request, and an allocation nobody frees keeps its address, size and chunk layout |
| BlockStore.StepKeeps | csrc/fs_io.cpp:40-117 | any system call of any process keeps the protocol invariant and loses no guarded destination |
| BlockStore.RunKeeps | csrc/fs_io.cpp:40-117 | the invariant holds in every reachable state |
| BlockStore.PublishedBlocks | csrc/fs_io.cpp:40-117 | in every reachable state a destination is absent or complete, and a guarded one once there stays |
| BlockStore.LoadsAreExact | csrc/fs_io.cpp:91-117 | only an oversized load comes to the unlink, and a load that returns 0 read exactly the bytes asked for |
| BlockStore.StoresAreClean | csrc/fs_io.cpp:40-82 | one owner per temp file; 0 means the destination is there; a cleaned-up store leaves no temp name on its file |
| BlockStore.LostToOversized | csrc/fs_io.cpp:40-117 | in any run a destination that was there and is gone was taken by a load that asked for more than the block has |
| BlockStore.LostIffOversized | csrc/fs_io.cpp:91-117 | a load of a destination that is there has a run that takes it away if and only if it asks for more than the block has |
| BlockStore.RelyCoversOthers | csrc/fs_io.cpp:40-117 | whatever other processes do between two calls is what a process counts on: no guarded destination goes, and no temp name of its own appears |
| BlockBatch.Machine.StoreBlock | csrc/fs_io.cpp:40-82 | the result is the errno of the first call that fails, EIO on a short write, EEXIST on a temp name in use, and 0 otherwise; 0 means the block is in place; the temp name is gone unless the unlink failed; with no failing call and a temp name of its own it is 0 |
| BlockBatch.Machine.WriteAndPublish | csrc/fs_io.cpp:57-81 | from the write on: the errno of the first failing call, a rename that finds the block there being none |
| BlockBatch.Machine.LoadBlock | csrc/fs_io.cpp:91-117 | ENOENT exactly when the open finds no file, else the errno of the first failing open or read, EIO exactly on a short read, after which the path is gone unless the unlink failed, and else 0 with the bytes asked for in the buffer; all calls up to the close or unlink are made; a guarded block that was there is found |
| BlockBatch.Machine.ReadAndClose | csrc/fs_io.cpp:97-116 | from the read on: a failed read leaves file and buffer, a short one unlinks, a full one fills the buffer |
| BlockBatch.Machine.ExtractPaths | csrc/fs_io.cpp:128-137 | it succeeds exactly when no string of the list is refused |
| BlockBatch.Machine.ExtractBuffers | csrc/fs_io.cpp:143-154 | all buffers are acquired when none is refused, else those acquired before are released again |
| BlockBatch.Machine.ReleaseBuffers | csrc/fs_io.cpp:156-160 | every buffer of the list is released once |
| BlockBatch.Machine.BatchStoreBlock | csrc/fs_io.cpp:207-266 | a ValueError or argument error exactly for unequal lengths or a refused argument; a failure at k means blocks before k are in place, the attempt at k returned that errno and no later one was tried; with no failing call only a temp name in use stops it; buffers are all released on every path |
| BlockBatch.Machine.BatchLoadBlock | csrc/fs_io.cpp:276-342 | the same for loads: the k blocks before a failure are in their buffers, unless written over, and later buffers are untouched; with no failing call only a missing block or one shorter than its buffer stops it, and a guarded block that was there is neither |
| BlockBatch.Machine.StoreThenLoad | csrc/fs_io.cpp:207-342 | a stored batch loads back byte for byte, up to the first failure; with fresh temp names of its own, no refused argument and no failing call both return and every buffer holds its block |
| NinjaSweep.SortKeeps | tools/report_build_time_ninja.py:222-223 | sorting gives the same events in key order |
| NinjaSweep.RunningIs | tools/report_build_time_ninja.py:228-254 | a task is running exactly between its start and its stop event |
| NinjaSweep.RunningCoversGap | tools/report_build_time_ninja.py:228-254 | in a gap the running tasks are those whose interval contains it |
| NinjaSweep.SharesAddUp | tools/report_build_time_ninja.py:236-254 | up to any event the shares of all tasks add up to the busy time |
| NinjaSweep.ShareIsClock | tools/report_build_time_ninja.py:236-254 | a task's share is the progress of the weighted clock while it runs |
| NinjaSweep.ShareIsGapShare | tools/report_build_time_ninja.py:74-89 | it is the sum, over gaps inside the interval, of gap length over tasks running |
| NinjaSweep.ShareBounds | tools/report_build_time_ninja.py:74-89 | it lies between 0 and the task's duration |
| NinjaSweep.BusyIsUnion | tools/report_build_time_ninja.py:198-255 | busy time is the measure of the union of the intervals |
| NinjaSweep.Conservation | tools/report_build_time_ninja.py:198-255 | the weighted durations add up to the measure of the union |
| NinjaSweep.UnionAndIdle | tools/report_build_time_ninja.py:198-255 | union and idle time make up the span and neither is negative |
| NinjaSweep.UnionCountsTicks | tools/report_build_time_ninja.py:198-255 | for whole-millisecond stamps the measure counts the milliseconds covered |
| NinjaReport.SortedTimeline | tools/report_build_time_ninja.py:206-227 | the sorted events hold each task's start and stop once, in order |
| NinjaReport.Collect | tools/report_build_time_ninja.py:206-219 | the events, the earliest start, the latest end and the summed durations |
| NinjaReport.Sweep | tools/report_build_time_ninja.py:220-255 | it fails exactly when some task ends before it starts; otherwise every task gets its share and the total is their sum |
| NinjaReport.StopFindsTask | tools/report_build_time_ninja.py:247-253 | every stop event finds its task running |
| NinjaReport.NoneLeft | tools/report_build_time_ninja.py:255-255 | no task is running at the end |
| NinjaReport.SummarizeEntries | tools/report_build_time_ninja.py:198-255 | the total is the measure of the union, the length runs from the earliest start to the latest end, the processor time is the sum of the durations, and length minus total is the idle time, never negative; both failures characterised |
| NinjaReport.TotalCountsTicks | tools/report_build_time_ninja.py:198-255 | for log stamps the total counts the milliseconds in which some task ran |
| NinjaReport.OneBuild | tools/report_build_time_ninja.py:124-143 | kept records are of one build: ends never go back, a command keeps its times |
| NinjaReport.BuildForced | tools/report_build_time_ninja.py:124-143 | a build is cut off only where its first record ends before the one ahead of it or disagrees with the build before on the times of a command |
| NinjaReport.AllShown | tools/report_build_time_ninja.py:124-143 | with everything shown nothing is thrown away |
| NinjaReport.CommandsInOrder | tools/report_build_time_ninja.py:133-148 | the commands stand in the order of their first records |
| NinjaReport.KeptNext | tools/report_build_time_ninja.py:124-143 | a record starts a new build or joins the current one |
| NinjaReport.ConflictWithFirst | tools/report_build_time_ninja.py:133-143 | the times stored for a command suffice to see whether any kept record disagrees |
| NinjaReport.Resets | tools/report_build_time_ninja.py:124-143 | the decision taken from the dictionary is the one about the records |
| NinjaReport.AppendName | tools/report_build_time_ninja.py:133-147 | a known command gets one more output |
| NinjaReport.AddTarget | tools/report_build_time_ninja.py:144-147 | a new command gets a target of its own |
| NinjaReport.AddRecord | tools/report_build_time_ninja.py:120-147 | the dictionary keeps one target per command of the current build, in order of appearance |
| NinjaReport.ReadTargets | tools/report_build_time_ninja.py:104-148 | one target per command of the last build, with its times and outputs, or a failure on a wrong header |
| NinjaReport.LogTargets | tools/report_build_time_ninja.py:120-147 | targets read from a log carry whole milliseconds, are ordered exactly when no command of the build runs backwards, and cover the log's own milliseconds |
| NinjaReport.LogFigures | tools/report_build_time_ninja.py:206-219 | the summed durations and the span of targets read from a log, in the log's own milliseconds |
| NinjaReport.Report | tools/report_build_time_ninja.py:314-317 | from the log to the figures: a report exists exactly when the build has a command and none runs backwards; its total counts the milliseconds of the log in which some command ran, its length those from the first start to the last end, its processor time those of each command by its first record |
| MediaBudget.StepKeeps | vllm/connections.py:75-146 | each step of any download keeps the accounting and never lowers `used` |
| MediaBudget.RunKeeps | vllm/connections.py:75-146 | so does every interleaving |
| MediaBudget.BudgetOverRuns | vllm/connections.py:68-174 | `used` never exceeds the limit, never decreases, and equals the bytes appended by all downloads and attempts |
| MediaDownload.ResponseLimit | vllm/connections.py:98-104 | the smaller of the limits that apply, none if neither does, and which one it is |
| MediaDownload.Budget.Charge | vllm/connections.py:75-88 | succeeds exactly when the sum fits; a rejected charge changes nothing |
| MediaDownload.AppendChunk | vllm/connections.py:130-146 | an empty chunk is passed over; any other is taken exactly when it fits the limit and the budget, and a rejected one changes neither budget nor chunk list |
| MediaDownload.ReadResponse | vllm/connections.py:149-174 | the whole body, or what the transport raised, exactly when advertised length and body stay within the limit and the budget covers every chunk with what others charge in between; a size error otherwise; every appended byte was charged |
| MediaDownload.AffordableAlone | vllm/connections.py:75-174 | when nobody else charges, the budget covers a body exactly when what is left of it is at least as long |
| MediaDownload.BackoffSum | vllm/connections.py:302-325 | k backoffs sum to (4^k - 1) / 3 |
| MediaDownload.TimeoutsGrow | vllm/connections.py:302-309 | the first timeout is the caller's and each next one four times the last |
| MediaDownload.Attempt | vllm/connections.py:457-475 | what opening raised, a size error when the response is over the limit, else the whole body or what the transport raised, unless a budget ran out; it charges what it appended |
| MediaDownload.GetBytes | vllm/connections.py:286-329 | at most max(retries, 1) attempts; another one exactly after a timeout, a connection or transfer failure or a 5xx status with attempts left; every attempt answers its own response; the result is the last one's, the budget was charged for all of them, the end of the loop is never reached |
| SpinLoop.WrapKeepsLowBits | csrc/spinloop.cpp:107-124 | wrapping the 32-bit counter does not change its low four bits |
| SpinLoop.StepKeepsWakeup | csrc/spinloop.cpp:126-152 | each step keeps: an armed waiter has seen the buffer or has a wakeup pending |
| SpinLoop.StepKeepsClock | csrc/spinloop.cpp:107-124 | each step keeps the clock reading schedule |
| SpinLoop.RunKeeps | csrc/spinloop.cpp:93-168 | both hold in every interleaving |
| SpinLoop.WaiterIsWoken | csrc/spinloop.cpp:126-152 | a thread that waits while the callback would be true has a wakeup pending |
| SpinLoop.ClockReadEverySixteen | csrc/spinloop.cpp:107-124 | with a timeout, any sixteen consecutive passes read the clock, and a time-out follows a reading at or past it |
| SpinLoop.NoTimeoutNoClock | csrc/spinloop.cpp:89-124 | a timeout of a nanosecond or less is none: the clock is never read and no time-out reported |
| SpinLoop.Spin | csrc/spinloop.cpp:93-168 | the loop ends in the first pass with a verdict and returns it; a time-out is reported exactly in the first pass that is a multiple of sixteen, with a timeout above a nanosecond, no answer and a late clock; what it does is a run of the step relation |
| SpinLoop.PassIsRun | csrc/spinloop.cpp:93-168 | each pass of the loop is a stretch of a run, ending in the verdict or back at the poll one pass later |

## Left out

- Floating-point rounding and the casts on stores in the scan and the quantiser: both are modelled over the reals.
- The block indices `block_idx_first` and `block_idx_last` of a launch: taken as the scheduler defines them, first and last block touched by the row's tokens.
- A vector store of one state slot is one step in the grid model; the order of its lanes is not modelled.
- The non-ROCm branches of the allocator, host allocation of the handle cells, tuple packing, reference counts and the interpreter lock.
- The `int` loop counters of the allocator: a plan with 2^31 or more chunks is not modelled as overflowing.
- CPU backups, tags and pool trimming in the Python side of the allocator.
- SleepAllocator.Allocator.Serve: says nothing about the requests after the first named event, because the code's own bookkeeping is wrong from there on.
- Device addresses are unbounded: running out of address space is a reservation that the driver fails.
- SleepDriver.Device.CreateAndMap: the undo is exact when the driver's unmap and release calls succeed; a failing one leaves what it failed to remove.
- O_DIRECT, fsync and power loss, and a successful read that returns fewer bytes than the file holds; inode numbers are never reused.
- A rename is taken to fail with EEXIST only when the destination exists, and open and read of a file that is there never to fail with ENOENT.
- Other processes are taken not to use the temp names made up here, which carry a random suffix per thread.
- `batch_lookup`, which would only add an easy member.
- Printing and the grouping by extension in the build report, and log lines whose numbers do not parse.
- The asynchronous twins of the download functions, and the HTTP library's own errors beyond their class.
- SpinLoop.Spin: takes a finite script of what it meets, because the source loop need not end; each script gives a run, and what holds over runs of any length is stated by the lemmas over runs.
- The hardware wait instructions themselves: a store to an armed line is taken to end the wait.
