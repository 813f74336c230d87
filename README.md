# Raspberry Pi HEVC decoder bookkeeping, in Dafny

This project models the bookkeeping around the Raspberry Pi HEVC decoder in
`libavcodec/hevcdec.c` and its GPU glue in `libavcodec/rpi_qpu.c`. The
decoder splits each picture into jobs and hands its work to the GPU's VPU
and QPU processors. The model covers the parts of that work that are
decisions and state, not pixels:

- **Job ring** (`JobRing`): the ring of job slots shared by the main
  thread and the worker thread. It covers submit and complete, the pass-0
  slot wait, the end-of-frame join, the worker loop, batching at the end of
  each CTU and each slice, and worker start and exit.
- **Inter-prediction queues** (`InterQueues`): the QPU command queues.
  The model lays them out in one GPU block, picks the least-loaded queue of
  the current group, moves on to the next group at each CTU, emits sync
  words, and resets them.
- **Inter-prediction commands** (`InterPred`): the per-PU command
  builders `rpi_pred_y`, `_y_b`, `_c` and `_c_b`. They cut a block into
  column chunks. `rpi_pred_y` can also merge an 8-wide luma command into
  the previous one, in place.
- **Intra modes** (`IntraMode`): the luma most-probable-mode derivation,
  the remapping of `rem_intra_luma_pred_mode`, the painting of the
  intra-mode grid, and the chroma mode for 4:4:4, 4:2:2 and 4:2:0.
- **Slice-level syntax helpers**:
  - weighted-prediction tables (`PredWeight`);
  - SAO parameters with merge-left and merge-up (`Sao`);
  - long-term reference sets, cross-component scale, scan order,
    transform-split inference, frame-progress wait rows, neighbour-flag
    packing and PCM lengths (`Syntax`);
  - CTB neighbour availability (`Neighbour`);
  - WPP entry points (`Wpp`);
  - the flush window of a job's deblocked rows (`FlushWindow`).
- **Coefficient buckets** (`Coeffs`): a job's four coefficient buckets.
- **GPU side of `rpi_qpu.c`**:
  - the reference-counted GPU environment and its pool of wait objects
    (`Gpu`);
  - the cache-flush list (`CacheFlush`);
  - the VPU/QPU job builder and its sync handles (`QpuJob`);
  - the thread-id lists of `vpu_qpu_init` (`ThreadList`);
  - the QPU shader entry points (`QpuFns`).

Objects that the C code updates in place are classes whose methods state
the whole new state. Examples are the worker, the queue environment, the
PU grid, the SAO table, the weight tables, the wait pool, the GPU
environment, the flush list and the job builder. Pure computations are
functions, with lemmas that relate them to an independent statement of
what they promise. Semaphores are counters, and waiting on one is a
precondition followed by a decrement. Values read from the bitstream
(CABAC, Exp-Golomb) are inputs. So are the outcomes of foreign calls:
`gpu_init`, `vcsm_clean_invalid` and `vc_gpuserv_execute_code`.

## Model

| member | source | states |
|---|---|---|
| Bits.Pack2 | libavcodec/hevcdec.c:79 | PACK2 as a uint32_t: the low half is lo's low 16 bits and the high half is hi's low 16 bits |
| Bits.XyExp2 | libavcodec/hevcdec.c:2158-2161 | x << (y * 2) is x for every sample of a square of side 2^y |
| JobRing.NextSlot | libavcodec/hevcdec.c:525 | `(slot + 1) % RPI_MAX_JOBS` is a slot of the ring: the next one, wrapping from the last slot to 0 |
| JobRing.AdvanceBy | libavcodec/hevcdec.c:525 | k submissions from a slot stay in the ring, and before the end of the ring they move k slots on |
| JobRing.AdvanceByUnwrapped | libavcodec/hevcdec.c:525 | k steps around the ring add k, less one full turn once past the end |
| JobRing.RingPeriod | libavcodec/hevcdec.c:525-526 | a slot comes back after exactly RPI_MAX_JOBS submissions and not sooner |
| JobRing.Worker.constructor | libavcodec/hevcdec.c:5244-5277 | every slot starts with no job pending, both semaphores at 0 and no deblock rows; both pass indices start at 0 |
| JobRing.Worker.SubmitJob | libavcodec/hevcdec.c:520-528 | posts sem_in of jb0, marks it pending, and moves pass 0 to the next slot |
| JobRing.Worker.CompleteJob | libavcodec/hevcdec.c:531-541 | moves pass 1 to the next slot, then posts sem_out of the slot it left |
| JobRing.Worker.Pass0Ready | libavcodec/hevcdec.c:546-558 | a pending jb0 consumes one sem_out post and is no longer pending; otherwise nothing changes |
| JobRing.Worker.Wait | libavcodec/hevcdec.c:561-576 | after the end-of-frame join no slot is pending, and each slot that was pending consumed one sem_out post |
| JobRing.Worker.WorkerStep | libavcodec/hevcdec.c:585-599 | one worker turn consumes sem_in of jb1 and stops exactly when that slot's terminate flag is set, changing nothing else. Otherwise it runs the job (its deblock rows are emptied), posts sem_out, advances pass 1 and keeps the ring invariant |
| JobRing.Worker.ExitThenStep | libavcodec/hevcdec.c:5297-5300 | after hevc_exit_worker the worker's next turn stops, from any ring state |
| JobRing.Worker.DoAllPasses | libavcodec/hevcdec.c:4236-4245 | with no job in flight, the main thread runs jb0 itself and the next batch starts empty |
| JobRing.Worker.EndCtu | libavcodec/hevcdec.c:4316-4353 | records the CTB row. When the batch is full, a reference picture submits the job (sem_in posted, slot pending) and waits for the next slot (its sem_out taken, its pending flag cleared), with every other slot unchanged; a non-reference picture runs the job in place with no semaphore touched |
| JobRing.Worker.EndSlice | libavcodec/hevcdec.c:4377-4387 | after the join and the final batch, no job is pending and no rows remain |
| JobRing.Worker.Exit | libavcodec/hevcdec.c:5297-5300 | every slot is marked for termination and its sem_in is posted once |
| InterQueues.BytesAppend | libavcodec/hevcdec.c:2618-2622 | a queue's byte fill grows by the size of the command written |
| InterQueues.BytesReplace | libavcodec/hevcdec.c:2790-2792 | rewriting a command in place keeps the queue's byte fill |
| InterQueues.SumAdd | libavcodec/hevcdec.c:2620 | adding load_val to one queue adds it to the group's total load |
| InterQueues.GroupFits | libavcodec/hevcdec.c:2648-2650 | group starts are multiples of n_grp, so a group that starts before n lies wholly below n |
| InterQueues.QueueLayout | libavcodec/hevcdec.c:222-229 | the queues are word-aligned, pairwise disjoint and inside the GPU block |
| InterQueues.InterPredEnv.constructor | libavcodec/hevcdec.c:2674-2688 | an environment with no queues in use, nothing issued and group size n_grp |
| InterQueues.InterPredEnv.SetFromChanInfo | libavcodec/hevcdec.c:219-234 | nq queues at arm plus their offsets, all empty, with max_fill equal to the queue size minus the minimum gap |
| InterQueues.InterPredEnv.LeastLoaded | libavcodec/hevcdec.c:2611-2616 | the first queue of least load in the current group |
| InterQueues.InterPredEnv.NxtPred | libavcodec/hevcdec.c:2608-2623 | the command goes to the first least-loaded queue of the group, whose load grows by load_val; no other queue changes |
| InterQueues.InterPredEnv.Sync | libavcodec/hevcdec.c:2626-2634 | every queue in use gets a sync word (4 bytes) and its load is cleared |
| InterQueues.InterPredEnv.NextCtu | libavcodec/hevcdec.c:2637-2657 | an unused group changes nothing. A used group moves on to the next group, or wraps to 0 after a sync. The result is -1 exactly when a queue of the new group is over max_fill |
| InterQueues.InterPredEnv.GroupOverfilled | libavcodec/hevcdec.c:2650-2656 | true exactly when some queue of the current group is filled beyond max_fill |
| InterQueues.InterPredEnv.Reset | libavcodec/hevcdec.c:2659-2672 | group 0, nothing used, every queue empty with no load |
| InterQueues.InterPredEnv.Begin | libavcodec/hevcdec.c:3938-3983 | after a reset, every queue holds just its setup command |
| InterPred.ChunksTile | libavcodec/hevcdec.c:2733-2735 | the start_x chunks tile the block's columns: contiguous, all but the last a full step, none empty, widths summing to the width |
| InterPred.ChunksSum | libavcodec/hevcdec.c:2733-2735 | the chunk widths add up to the columns from start_x to the block width |
| InterPred.ChunksEnd | libavcodec/hevcdec.c:2733-2735 | there are chunks exactly when columns remain; the first starts at start_x and the last ends at the block width |
| InterPred.ChunksSteps | libavcodec/hevcdec.c:2733-2735 | every chunk is 1 to step columns wide, and every chunk but the last is a full step that ends where the next begins |
| InterPred.ChunksCount | libavcodec/hevcdec.c:2954 | the number of chunks is the width over the step, rounded up |
| InterPred.CmdsShape | libavcodec/hevcdec.c:2803-2866 | one command per chunk, in chunk order |
| InterPred.LastW8IsFinal | libavcodec/hevcdec.c:2862-2865 | with 16-wide steps, the 8-wide command left in last_y8_p is the final chunk's command |
| InterPred.ChunkCmdWidth | libavcodec/hevcdec.c:2852 | each command is as wide as its chunk |
| InterPred.NoW8Before | libavcodec/hevcdec.c:2862-2865 | a run of 16-wide commands leaves no 8-wide command |
| InterPred.IssueCmds | libavcodec/hevcdec.c:2803-2866 | the commands go through rpi_nxt_pred in order: the new queues and loads are the old ones with each command appended to, and charged to, the queue picked for it, every pick being the first least-loaded queue of the group at that point (Dispatched); the total load grows by load_val per command and the result locates the last 8-wide command |
| InterPred.IssueNext | libavcodec/hevcdec.c:2608-2623 | one more command extends the dispatch so far by one least-loaded pick and keeps the last 8-wide command located |
| InterPred.DispatchedSnoc | libavcodec/hevcdec.c:2608-2623 | appending a command to a least-loaded queue and charging it extends a dispatch by one pick |
| InterPred.PlaceRoutes | libavcodec/hevcdec.c:2608-2623 | after a dispatch each queue holds what it held plus, in order, exactly the commands picked for it |
| InterPred.ChargeCount | libavcodec/hevcdec.c:2608-2623 | after a dispatch each queue's load is its old load plus load_val for every command picked for it |
| InterPred.PlaceGrows | libavcodec/hevcdec.c:2608-2623 | a dispatch only appends: every queue keeps what it held |
| InterPred.ChargeSum | libavcodec/hevcdec.c:2608-2623 | a dispatch raises the total load of the queues in use by load_val per command |
| InterPred.BalancedInGroup | libavcodec/hevcdec.c:2610-2615 | every pick lies in the current group of n_grp queues |
| InterPred.IssueOne | libavcodec/hevcdec.c:2608-2623 | rpi_nxt_pred: the command is appended to the first least-loaded queue of the current group, that queue's load grows by load_val, and no other queue or load changes |
| InterPred.LastW8Snoc | libavcodec/hevcdec.c:2862-2865 | issuing one more command updates the last 8-wide command exactly when the new one is 8 wide |
| InterPred.LastW8OnlyFinal | libavcodec/hevcdec.c:2862-2865 | when all earlier commands are 16 wide, only the final command can be the last 8-wide one |
| InterPred.LumaFracZero | libavcodec/hevcdec.c:2717-2719 | my_mx is zero exactly when both vector components are whole samples |
| InterPred.MergeY8 | libavcodec/hevcdec.c:2786-2792 | rewrites only the command last_y8_p points at |
| InterPred.Merged | libavcodec/hevcdec.c:2786-2792 | the merged command keeps the previous command's entry point, height, destination and first source; it grows by this PU's width, reads its second half from this PU's source, and mymx21 gives back both phases: its own in the low half, this PU's in the high half; the weights are its own and this PU's |
| InterPred.PredY | libavcodec/hevcdec.c:2708-2868 | a whole-sample vector issues 16-wide copy commands and leaves last_y8_p alone. Otherwise the first ≤8 columns merge into the previous 8-wide command when it has the same height and its destination ends where this PU starts; that command is rewritten in place and the rest issue 16-wide filtered commands, with last_y8_p moved to the final command when it is 8 wide. In both cases the new queues and loads are the old ones (with the merged command substituted) plus the issued commands, each on the least-loaded queue at its turn (SentOut). used_grp is set exactly when it was set or at least one command went through rpi_nxt_pred (the merged command does not count); n, used and max_fill do not change. |
| InterPred.PredYCopy | libavcodec/hevcdec.c:2727-2767 | the whole-sample half: the copy commands are dispatched to least-loaded queues and the command last_y8_p points at stays mergeable; used_grp is set when any copy command is issued, and n, used and max_fill do not change |
| InterPred.PredYMerge | libavcodec/hevcdec.c:2781-2866 | the previous 8-wide command absorbs the first ≤8 columns and is rewritten in place; the rest are dispatched to least-loaded queues on top of the rewritten queues; no command is left to merge unless the final chunk is 8 wide; used_grp is set when any of the remaining chunks is issued, and n, used and max_fill do not change |
| InterPred.MergedEntryKept | libavcodec/hevcdec.c:2787-2806 | a command rewritten in place stays rewritten while later commands are only appended |
| InterPred.PredYPlain | libavcodec/hevcdec.c:2803-2866 | with no merge every column goes out as 16-wide commands dispatched to least-loaded queues, and last_y8_p moves only when the final chunk is 8 wide; used_grp is set when any command is issued, and n, used and max_fill do not change |
| InterPred.BPredZero | libavcodec/hevcdec.c:2882-2902 | the bi-prediction phase word is zero exactly when both vectors are whole-sample |
| InterPred.PredYB | libavcodec/hevcdec.c:2870-2999 | 16-wide chunks when no filtering is needed, 8-wide chunks otherwise; the new queues and loads are the old ones plus these commands, each on the least-loaded queue at its turn; used_grp is set when any command is issued, and n, used and max_fill do not change |
| InterPred.ChromaPhase | libavcodec/hevcdec.c:3014-3018 | the chroma source position (less the one-sample run-up) and the filter phase recombine to the eighth-sample vector |
| InterPred.PredC | libavcodec/hevcdec.c:3002-3049 | 8-wide chunks reading list lx, each with load bh + 3, dispatched to least-loaded queues; used_grp is set when any command is issued, and n, used and max_fill do not change |
| InterPred.PredCB | libavcodec/hevcdec.c:3052-3127 | 8-wide chunks reading both lists, each with load bh * 2 + 3, dispatched to least-loaded queues; used_grp is set when any command is issued, and n, used and max_fill do not change |
| IntraMode.MpmCandidates | libavcodec/hevcdec.c:3341-3361 | three distinct valid modes that include both the left and the up candidate |
| IntraMode.Sort3 | libavcodec/hevcdec.c:3366-3371 | the three swaps sort the candidates and keep them as a multiset |
| IntraMode.SortedDistinct | libavcodec/hevcdec.c:3366-3371 | sorting distinct candidates gives a strictly increasing triple with the same elements |
| IntraMode.Remapped | libavcodec/hevcdec.c:3373-3376 | each remaining candidate raises the mode by at most one, so the remap lands between the mode and the mode plus the candidates left |
| IntraMode.RemappedUnfold | libavcodec/hevcdec.c:3373-3376 | the remapping loop is three conditional increments in order |
| IntraMode.RemapAvoidsCandidates | libavcodec/hevcdec.c:3373-3376 | a rem in 0..31 maps to a valid mode that is not a candidate |
| IntraMode.RemapStrictlyIncreasing | libavcodec/hevcdec.c:3373-3376 | the remapping is strictly increasing, so distinct rem values give distinct modes |
| IntraMode.RemapReachesEveryOtherMode | libavcodec/hevcdec.c:3373-3376 | every mode that is not a candidate is reached by some rem in 0..31 |
| IntraMode.RemapRem | libavcodec/hevcdec.c:3373-3376 | the loop computes the remapping |
| IntraMode.LumaModeProperties | libavcodec/hevcdec.c:3363-3377 | luma_intra_pred_mode's derivation (LumaMode): the mode is valid, it is a candidate exactly when prev_intra_luma_pred_flag is set, and otherwise it is rem_intra_luma_pred_mode raised by at most 3 |
| IntraMode.UpCandidate | libavcodec/hevcdec.c:3325-3339 | the up candidate is INTRA_DC at the top row of a CTB, and the stored mode otherwise |
| IntraMode.ChromaMode | libavcodec/hevcdec.c:3440-3453 | mode 4 copies the luma mode. Modes 0..3 take the table entry, or 34 when it equals the luma mode, so they never equal the luma mode |
| IntraMode.ChromaMode422 | libavcodec/hevcdec.c:3454-3465 | the 4:2:2 chroma mode goes through tab_mode_idx into 0..31 |
| IntraMode.ModeIdx422Ordered | libavcodec/hevcdec.c:3407-3409 | tab_mode_idx is monotone |
| IntraMode.PuGrid.constructor | libavcodec/hevcdec.c:805 | tab_ipm is allocated zeroed, so every cell of a new grid holds INTRA_PLANAR; no cell is marked intra |
| IntraMode.PuGrid.StoredUp | libavcodec/hevcdec.c:3325-3326 | the mode read from the PU above is a valid mode |
| IntraMode.PuGrid.StoredLeft | libavcodec/hevcdec.c:3327-3328 | the mode read from the PU on the left is a valid mode |
| IntraMode.PuGrid.ModeOn | libavcodec/hevcdec.c:3318-3377 | the mode derived from a snapshot of tab_ipm is valid |
| IntraMode.PuGrid.PredictedOnGrid | libavcodec/hevcdec.c:3318-3377 | deriving from the grid in place and from its snapshot gives the same mode |
| IntraMode.PuGrid.LumaIntraPredMode | libavcodec/hevcdec.c:3314-3392 | returns the mode derived from the neighbours before the call, and paints it over the PU's square: the new tab_ipm is the old one with that square set to the mode, and the square is marked intra |
| IntraMode.PuGrid.DeriveMode | libavcodec/hevcdec.c:3318-3377 | the derived mode is valid, and it is one of the neighbour candidates exactly when the flag is set |
| IntraMode.PuGrid.FillPu | libavcodec/hevcdec.c:3379-3389 | the PU's square gets the mode and the intra flag; every other cell is unchanged |
| IntraMode.PuGrid.DefaultValue | libavcodec/hevcdec.c:3479-3499 | for a skipped, inter or PCM CU, the CU's square of tab_ipm becomes INTRA_DC and is marked intra only for an intra-coded CU; every other cell is unchanged |
| IntraMode.PuGrid.FillModes | libavcodec/hevcdec.c:3494-3495 | the square's modes are set and nothing else in tab_ipm changes |
| IntraMode.PuGrid.MarkIntra | libavcodec/hevcdec.c:3496-3499 | the square is marked intra and every other mark is kept |
| IntraMode.PuGrid.CuGrid | libavcodec/hevcdec.c:3423-3438 | painting the CU's blocks in raster order, each square with its mode, keeps a grid of valid modes valid |
| IntraMode.PuGrid.DerivedSnoc | libavcodec/hevcdec.c:3434-3436 | one more block whose mode is derived from the grid the earlier blocks left, and whose square is then painted, extends the raster-order derivation and the painted grid by that block |
| IntraMode.PuGrid.FirstBlockSeesOldGrid | libavcodec/hevcdec.c:3423-3436 | the first block of a CU is derived from tab_ipm as it was before the CU |
| IntraMode.PuGrid.CuGridOutside | libavcodec/hevcdec.c:3423-3438 | the CU's blocks change no cell outside their squares |
| IntraMode.PuGrid.PredictLumaModes | libavcodec/hevcdec.c:3423-3438 | one valid mode per block, block k = 2i + j in raster order, each equal to the derivation from the grid the blocks before it left; the new tab_ipm is the old one with every block's square painted with its mode; the intra marks gain exactly the blocks' cells |
| IntraMode.PuGrid.StepBlock | libavcodec/hevcdec.c:3434-3436 | one pass of the loop extends the derivation, the painted grid and the intra marks by block k |
| IntraMode.PuGrid.PredictBlock | libavcodec/hevcdec.c:3434-3436 | block k = 2i + j at (x0 + pb_size·j, y0 + pb_size·i) gets the mode derived from tab_ipm as it was before the call; tab_ipm becomes the old one with the block's square set to that mode, the square is marked intra and nothing else changes |
| IntraMode.PuGrid.ChromaModes | libavcodec/hevcdec.c:3440-3477 | chroma is per block for 4:4:4, one tab_mode_idx mode for 4:2:2, one mode for 4:2:0 and none for 4:0:0 |
| IntraMode.PuGrid.IntraPredictionUnit | libavcodec/hevcdec.c:3411-3477 | the luma modes are the raster-order derivation, each block seeing the grid the earlier blocks painted; the new tab_ipm is the old one with every block painted; the blocks' cells are marked intra; chroma as ChromaModes |
| Coeffs.BlockExtendsUsed | libavcodec/hevcdec.c:2151-2152 | a block of k elements lies just past the bucket's used region (below it for bucket 3) and extends it |
| Coeffs.SuccessiveBlocksDisjoint | libavcodec/hevcdec.c:2148-2154 | blocks handed out one after another from a bucket never overlap |
| Coeffs.SharedRegionDisjoint | libavcodec/hevcdec.c:639-640 | buckets 2 and 3 share coeff_count elements and stay apart exactly while their counts fit in it |
| Coeffs.Align64 | libavcodec/hevcdec.c:646 | (p + 63) & ~63 is the least multiple of 64 at or above p |
| Coeffs.CoeffEnv.constructor | libavcodec/hevcdec.c:637-646 | bucket 2 at the GPU block, bucket 3 coeff_count elements on, bucket 0 at the 64-byte-aligned malloc block, all counts 0 |
| Coeffs.CoeffEnv.Alloc | libavcodec/hevcdec.c:2148-2154 | upward from n for buckets 0..2 and downward from -(n + k) for bucket 3; only that bucket's count grows by k |
| Coeffs.CoeffEnv.PicReset | libavcodec/hevcdec.c:656-662 | every bucket's count back to 0 |
| Sao.MergeFlags | libavcodec/hevcdec.c:1596-1611 | merge-left needs SAO in the slice, a left CTB and its flag. Merge-up additionally needs no merge-left. The two are never both set |
| Sao.OffsetValFacts | libavcodec/hevcdec.c:1650-1660 | each derived offset is ±abs·2^scale; edge offsets are ≥0 for i ≤ 1 and ≤0 after; band offsets are negative exactly when signed and non-zero |
| Sao.InferOffsets | libavcodec/hevcdec.c:1650-1660 | offset_val[0] is 0 and the loop computes the derived offsets with those signs and magnitudes |
| Sao.DerivedVals | libavcodec/hevcdec.c:1650 | five offsets, the first 0 |
| Sao.BandSigns | libavcodec/hevcdec.c:1636-1643 | a zero magnitude always has a cleared sign |
| Sao.CompAfter | libavcodec/hevcdec.c:1613-1661 | the component's parameters after the CTB stay well-formed |
| Sao.NotAppliedWhenOff | libavcodec/hevcdec.c:1617-1620 | with SAO off in the slice the component is SAO_NOT_APPLIED and nothing else changes |
| Sao.MergeLeftCopies | libavcodec/hevcdec.c:1581-1591 | merge-left copies the left CTB's type, offsets, band position, signs and class |
| Sao.MergeUpCopies | libavcodec/hevcdec.c:1581-1591 | merge-up copies the upper CTB's type, offsets, band position, signs and class |
| Sao.CrSharesCb | libavcodec/hevcdec.c:1622-1624 | Cr takes Cb's type and edge class |
| Sao.CompAfterConsistent | libavcodec/hevcdec.c:1649-1660 | an applied component's offset values agree with its magnitudes, signs and scale |
| Sao.CtbAfter | libavcodec/hevcdec.c:1613-1661 | after the first k components the CTB is well-formed and the components from k on are still the stored ones |
| Sao.CtbAfterComponents | libavcodec/hevcdec.c:1613-1661 | luma and Cb are derived from their stored values and Cr from the Cb just derived; with luma alone the chroma components are untouched |
| Sao.SaoTable.constructor | libavcodec/hevcdec.c:794 | one parameter set per CTB, each component zeroed: SAO_NOT_APPLIED with zero offsets, band position and class |
| Sao.SaoTable.Components | libavcodec/hevcdec.c:1613-1661 | the component loop yields the CTB after its first nComp components |
| Sao.SaoTable.SaoParam | libavcodec/hevcdec.c:1593-1662 | only the CTB at (rx, ry) changes. Each of its components is derived from the merge flags, its left and upper neighbours and the syntax; chroma is untouched without chroma |
| PredWeight.Denom | libavcodec/hevcdec.c:871-873 | the denominator is clipped into 0..7 |
| PredWeight.ChromaOffset | libavcodec/hevcdec.c:904-905 | the chroma offset is clipped into -128..127 and equals the unclipped formula when that fits |
| PredWeight.EntryFor | libavcodec/hevcdec.c:879-913 | a reference's entry has two chroma weights and two chroma offsets |
| PredWeight.UnflaggedIsUnweighted | libavcodec/hevcdec.c:881-884 | without a flag, the weight is 1 << denom and the offset 0; chroma offsets are always in -128..127 |
| PredWeight.ZeroDeltasAreUnweighted | libavcodec/hevcdec.c:894-912 | coded zero deltas give the same entry as no flags |
| PredWeight.DefaultIsUnflagged | libavcodec/hevcdec.c:837-858 | the default table is the unflagged table at denominator 0 |
| PredWeight.SliceWeights.constructor | libavcodec/hevcdec.c:840-841 | both denominators start at 0 |
| PredWeight.SliceWeights.FillList | libavcodec/hevcdec.c:879-913 | the first n entries of a list come from their syntax; the rest are kept |
| PredWeight.SliceWeights.PredWeightTable | libavcodec/hevcdec.c:860-951 | clipped denominators (chroma only with chroma), L0 entries, L1 entries only for B slices; entries past nb_refs are kept |
| PredWeight.SliceWeights.DefaultPredWeightTable | libavcodec/hevcdec.c:837-858 | denominators 0 and unit weights for nb_refs entries per list; the rest are kept |
| Syntax.DecodeLtRps | libavcodec/hevcdec.c:953-1003 | no long-term references without the SPS flag. An error exactly when nb_sh + nb_sps exceeds 32. Otherwise each entry's POC and used flag come from the SPS or the slice, with the MSB cycle applied |
| Syntax.PrevIsMsbCycle | libavcodec/hevcdec.c:990-998 | prev_delta_msb carries the accumulated MSB cycle, restarting at the SPS/slice boundary |
| Syntax.ResScaleVal | libavcodec/hevcdec.c:1667-1681 | res_scale_val is 0 exactly when log2_res_scale_abs_plus1 is 0, and otherwise ±2^(v-1) by the sign flag |
| Syntax.ScanIdxTransposes | libavcodec/hevcdec.c:1783-1798 | mirroring the mode about 18 swaps vertical and horizontal scans |
| Syntax.ScanIdx | libavcodec/hevcdec.c:1783-1798 | the scan is vertical exactly for an intra 4x4 or 8x8 block with mode 6..14 and horizontal exactly for one with mode 22..30; every other block scans diagonally |
| Syntax.SplitTransformFlag | libavcodec/hevcdec.c:2014-2024 | a coded flag is taken as decoded; otherwise it is inferred exactly from size over the maximum, intra NxN at depth 0, or the inter split rule |
| Syntax.NoInferredSplitAtMinimum | libavcodec/hevcdec.c:2016-2023 | at or below the minimum size no split is inferred |
| Syntax.ProgressReach | libavcodec/hevcdec.c:2554 | the awaited row is max(0, (mv.y >> 2) + y0 + height + 9) |
| Syntax.ProgressCoversFilter | libavcodec/hevcdec.c:2551-2558 | the awaited row lies past the last row the 8-tap filter reads, and grows with the vector and position |
| Syntax.PackNa | libavcodec/hevcdec.c:1700 | the five availability bits fit in 5 bits |
| Syntax.NaRoundTrip | libavcodec/hevcdec.c:3876-3880 | unpacking the packed flags gives the flags back |
| Syntax.NaRoundTripBits | libavcodec/hevcdec.c:3876-3880 | packing the unpacked bits of a 5-bit value gives the value back |
| Syntax.PcmLengthAsWritten | libavcodec/hevcdec.c:2158-2168 | the length as written: the luma samples at bit_depth, plus each chroma plane counted as a square of side cb_size >> vshift at bit_depth_chroma, whatever its hshift |
| Syntax.PcmLength | libavcodec/hevcdec.c:2166-2168 | corrected length: the luma samples plus each chroma plane at its real size |
| Syntax.PcmLengthAgreesWhenSquare | libavcodec/hevcdec.c:2166-2168 | with square chroma planes (4:2:0, 4:4:4) the formula as written counts the right bits |
| Syntax.PcmLength422Counterexample | libavcodec/hevcdec.c:2166-2168 | a 4:2:2 8x8 8-bit block: 1536 bits as written, 1024 bits correct |
| Syntax.PcmBytes | libavcodec/hevcdec.c:2170 | the least number of whole bytes that hold the bits |
| Syntax.PcmCoeffSlots | libavcodec/hevcdec.c:2184 | int16 slots covering the bytes, rounded up to whole 32-byte lumps |
| Neighbour.BoundaryMask | libavcodec/hevcdec.c:3778-3793 | each BOUNDARY_* flag is its own bit of the mask |
| Neighbour.DecodeNeighbour | libavcodec/hevcdec.c:3752-3799 | tab_slice_address keeps its size |
| Neighbour.NeighboursInSlice | libavcodec/hevcdec.c:3795-3798 | a neighbour flag implies the neighbour exists and lies in the current slice |
| Neighbour.NoTilesAvailability | libavcodec/hevcdec.c:3788-3796 | without tiles, left and up are available exactly off the picture edge and off the slice boundary, and no tile boundary is set |
| Neighbour.TilesAvailability | libavcodec/hevcdec.c:3760-3796 | records the slice address; with tiles an available left or up neighbour is in the same tile |
| Neighbour.TileEndAndQpGroup | libavcodec/hevcdec.c:3762-3774 | end_of_tiles_x is the picture width under wavefronts or without tiles, the new tile's right edge at its first CTB, and otherwise carried over; first_qp_group opens at a wavefront row start or a new tile and is never cleared |
| Neighbour.EndOfTilesY | libavcodec/hevcdec.c:3776 | end_of_tiles_y is min(y_ctb + ctb_size, height) |
| Wpp.SkippedBound | libavcodec/hevcdec.c:4543-4548 | no more bytes are skipped than the range holds |
| Wpp.CountSkipped | libavcodec/hevcdec.c:4543-4548 | the loop counts the emulation-prevention bytes in [offset, offset + epo) |
| Wpp.EntryPoints | libavcodec/hevcdec.c:4521-4573 | an error exactly when the CTB rows overrun the picture or the last offset lies past the NAL. Otherwise each substream's offset is the previous plus its coded size less skipped bytes, and the last size reaches the NAL end |
| Wpp.EntriesTile | libavcodec/hevcdec.c:4550-4572 | the substreams are contiguous, non-negative and end at the NAL length |
| Wpp.NoSkippedBytes | libavcodec/hevcdec.c:4543-4564 | without emulation prevention each offset is the first plus the prefix sum of the entry-point offsets |
| FlushWindow.Window | libavcodec/hevcdec.c:4141-4153 | flush_start is the lowest row of the job and the window covers every row's CTB (clipped to the picture), ending at the highest one |
| Gpu.WaitPool.constructor | libavcodec/rpi_qpu.c:133-137 | an empty pool |
| Gpu.WaitPool.Init | libavcodec/rpi_qpu.c:631-640 | the 16 wait objects chained in order from head 0 to NULL, all free |
| Gpu.WaitPool.Deinit | libavcodec/rpi_qpu.c:642-650 | head NULL and every link NULL |
| Gpu.WaitPool.Pop | libavcodec/rpi_qpu.c:657-659 | takes the head, unlinks it and leaves the rest of the free list |
| Gpu.WaitPool.Push | libavcodec/rpi_qpu.c:672-673 | the object becomes the new head in front of the free list |
| Gpu.PopMembers | libavcodec/rpi_qpu.c:657-659 | the rest of a distinct free list is the list without its head |
| Gpu.TakeFromPool | libavcodec/rpi_qpu.c:657-659 | after the pop, every wait object is either handed out or still free, and one more is handed out |
| Gpu.GpuEnv.constructor | libavcodec/rpi_qpu.c:157 | no GPU environment |
| Gpu.GpuEnv.LockRef | libavcodec/rpi_qpu.c:342-356 | succeeds exactly when the GPU is up or gpu_init succeeds; a fresh environment has count 1 and a full pool |
| Gpu.GpuEnv.UnlockUnref | libavcodec/rpi_qpu.c:358-364 | the count drops by one, and the environment is torn down at 0 |
| Gpu.GpuEnv.GpuRef | libavcodec/rpi_qpu.c:435-439 | takes one more reference |
| Gpu.GpuEnv.GpuUnref | libavcodec/rpi_qpu.c:441-445 | drops one reference |
| Gpu.GpuEnv.WaitNew | libavcodec/rpi_qpu.c:654-667 | takes the pool head as a new wait object held by the caller, with a reference |
| Gpu.GpuEnv.WaitDelete | libavcodec/rpi_qpu.c:669-695 | returns the wait object to the head of the pool and drops its reference |
| Gpu.GpuEnv.VpuQpuInit | libavcodec/rpi_qpu.c:938-965 | 0 exactly when the GPU comes up, then counting one more init; -1 otherwise |
| Gpu.GpuEnv.VpuQpuTerm | libavcodec/rpi_qpu.c:967-980 | one init and one reference fewer |
| Gpu.GpuEnv.VpuGetFn | libavcodec/rpi_qpu.c:410-422 | the 8-bit VPU code follows the QPU code, and the 10-bit code follows it, in the GPU block |
| CacheFlush.Blocks | libavcodec/rpi_qpu.c:478 | the least number of 8-slot blocks that hold n requests |
| CacheFlush.FlushEnv.Init | libavcodec/rpi_qpu.c:452-460 | an empty list, or nothing when malloc fails |
| CacheFlush.FlushEnv.Append | libavcodec/rpi_qpu.c:500-509 | the request goes in slot n % 8 of block n / 8 and nothing else changes |
| CacheFlush.FlushEnv.AddGmPtr | libavcodec/rpi_qpu.c:493-511 | a request on the whole buffer at its 32-bit ARM address; nothing for NULL or empty |
| CacheFlush.FlushEnv.AddGmRange | libavcodec/rpi_qpu.c:513-538 | a request on size bytes at the 32-bit ARM address plus offset; nothing for NULL or size 0 |
| CacheFlush.FlushEnv.ClearTail | libavcodec/rpi_qpu.c:475-476 | zeroes the slots after the last request in its block and keeps the requests |
| CacheFlush.FlushEnv.Finish | libavcodec/rpi_qpu.c:468-491 | one call per block in use, holding the requests in order padded with zero slots; -1 exactly when a call fails |
| CacheFlush.SlotOf | libavcodec/rpi_qpu.c:475-478 | slot j of block i is request 8i + j, and a slot past the end is in the last, partly filled block |
| QpuJob.OrBit | libavcodec/rpi_qpu.c:765 | OR-ing a kind bit into the mask sets exactly that bit |
| QpuJob.MaskOf | libavcodec/rpi_qpu.c:765-787 | the accumulated mask fits in two bits |
| QpuJob.MaskOfKinds | libavcodec/rpi_qpu.c:765-787 | the QPU (VPU) bit is set exactly when a QPU (VPU) job was added since the last sync; the mask is 0 exactly when none was |
| QpuJob.QpuOnlyMask | libavcodec/rpi_qpu.c:819-821 | a QPU-only mask means every job since the sync is a QPU job |
| QpuJob.WithNoFlush | libavcodec/rpi_qpu.c:768-771 | bit 0 of the code word is set when either the address or the flag has it, and the other bits are the address's |
| QpuJob.JobEnv.constructor | libavcodec/rpi_qpu.c:741-745 | no jobs and an empty mask |
| QpuJob.JobEnv.Append | libavcodec/rpi_qpu.c:753-758 | the next slot takes the command and the mask takes its kind |
| QpuJob.JobEnv.AddVpu | libavcodec/rpi_qpu.c:760-780 | a non-zero address adds a VPU job whose first word carries the no-flush flag, and the flag becomes 1; a zero address changes nothing |
| QpuJob.JobEnv.AddQpu | libavcodec/rpi_qpu.c:783-799 | a non-zero count adds a QPU job with the mail, the no-VPU-flush flag and timeout 5000; a zero count changes nothing |
| QpuJob.JobEnv.AddSyncThis | libavcodec/rpi_qpu.c:807-841 | no handle for an empty mask. Otherwise a new wait object goes on the last job (one job, or QPU only) or on a sync job over the mask. The mask is cleared |
| QpuJob.JobEnv.PostSync | libavcodec/rpi_qpu.c:821-839 | the last job (one job in all, or QPU only) takes the wait object as its callback, otherwise a sync job on the mask is appended; the mask is cleared |
| QpuJob.JobEnv.Start | libavcodec/rpi_qpu.c:843-846 | 0 with no jobs, otherwise vc_gpuserv_execute_code's result on all jobs |
| QpuJob.VpuQpuWait | libavcodec/rpi_qpu.c:857-868 | clears the handle and returns its wait object to the pool; nothing without one |
| ThreadList.AddToList | libavcodec/rpi_qpu.c:882-892 | the tid becomes the head, or the list is unchanged when malloc fails |
| ThreadList.RemoveFirstFacts | libavcodec/rpi_qpu.c:899-904 | unlinking the first match removes exactly one occurrence |
| ThreadList.RemoveFirstAt | libavcodec/rpi_qpu.c:899-904 | the search stops at the first match, and unlinking cuts the list there |
| ThreadList.SubtractableIff | libavcodec/rpi_qpu.c:894-906 | subtraction is defined exactly when base holds delta as a multiset, and it yields the multiset difference |
| ThreadList.ListSubtract | libavcodec/rpi_qpu.c:894-906 | the nested search removes one node per delta tid, giving the multiset difference |
| QpuFns.QpuFn | libavcodec/rpi_qpu.c:982-985 | the shader entry is the code's VC address plus its offset, as a 32-bit value |
| QpuFns.Dummy | libavcodec/rpi_qpu.c:991-996 | ~k for k in 1..6 lies at the top of the 32-bit range |
| QpuFns.InitFn | libavcodec/rpi_qpu.c:988-1022 | 0 exactly for 8- or 10-bit with that depth's entries; -1 otherwise, with the dummy markers and c_pxx_l1 untouched |

## Left out

- Threads, the GPU mutex and semaphore waits are not modelled as
  concurrency. Semaphores are counters; a wait is a precondition and a
  decrement. `vq_wait_wait` and `vq_wait_post` are not modelled.
- Pixel work is out of scope: DSP kernels, intra and inter sample
  prediction, deblocking, SAO filtering, transforms and PCM sample
  extraction. Filter-coefficient tables are left out too; a command
  records the filter phase, not the coefficients.
- The CABAC engine, Exp-Golomb reads and bit-reader positions are inputs.
- Addresses are unbounded integers except where the source truncates to 32
  bits (`QpuFn`, `VpuGetFn`, the flush-list addresses, `Pack2`).
- Values that are not addresses are unbounded integers too: picture order
  counts, MSB cycles, loads and motion-vector rows. Where C `int` or
  `unsigned` arithmetic would overflow, which only a non-conformant stream
  can cause, the source's result differs from the model's.
- Syntax.DecodeLtRps: the unsigned Exp-Golomb delta is not narrowed into
  the C `int delta`, and `s->poc - delta * max_poc_lsb` is computed without
  32-bit overflow. A delta of 2^31 or more, or an overflowing product, gives
  a different POC in the source.
- Syntax.PrevIsMsbCycle: the accumulated MSB cycle is unbounded, where the
  source's `int` sum could wrap on a non-conformant stream.
- Syntax.ProgressReach: `(mv->y >> 2) + y0 + height + 9` is computed
  without `int` overflow.
- The byte sizes of the QPU command structs and the shader entry offsets
  come from headers that are not part of this model. They are parameters:
  `InterQueues.Layout` for the sizes and `QpuFns.Entries` for the offsets.
- RPI_MAX_JOBS, max_ctu_count and the QPU_N_* queue counts are
  constructor parameters.
- FF_ARRAY_ELEMS(rps->poc) is taken as 32. The BOUNDARY_* values are
  taken as 1, 2, 4 and 8. hevcdec.h is not part of this model.
- Allocation failures (ENOMEM) are left out, except where the C code
  returns a value that says so (`FlushEnv.Init`, `AddToList`).
- gpu_init's mailbox, vcsm and code copies become one input, `initOk`,
  and the code block's VC address becomes `vc`. The environment that a
  failed gpu_init leaks is not modelled.
- `vc_gpuserv_init/deinit`, `for_all_threads`, `sched_setscheduler` and
  `list_free` are foreign or OS calls and are left out. The thread lists
  are sequences of tids: node allocation, relinking and aliasing are not
  modelled.
- `vcsm_clean_invalid` outcomes and `vc_gpuserv_execute_code`'s result
  are inputs. `rpi_cache_flush_abort`, `vpu_qpu_job_delete` and
  `vpu_qpu_job_finish` only free memory, so they are left out.
  `rpi_cache_flush_add_frame` and `_add_frame_block` need the sand frame
  layout, which is not part of this model.
- QPU mail is an opaque sequence; its layout (QPU_MAIL_EL_VALS) is not
  modelled.
- TSTATS counters, threadlog, tracing and logging are left out.
- Frame-threading progress is reduced to the row that is awaited
  (`ProgressReach`); the wait itself is not modelled.
- QpuJob.VpuQpuWait: a NULL handle pointer and a NULL handle are both
  `None`.
- QpuJob.JobEnv.constructor: a failed calloc in `vpu_qpu_job_new` is not
  modelled.
- CacheFlush.FlushEnv.constructor: the slots malloc leaves uninitialised
  are modelled as zero slots. Finish zeroes the ones it passes on either
  way.
- CacheFlush.FlushEnv.AddGmRange: the assert on offset + size is modelled
  as written, a 32-bit unsigned sum, so a wrapped sum passes it.
- Neighbour.DecodeNeighbour: the up-right flag does not look at the right
  picture edge, as in the source.
- FlushWindow.Window: reads `blks[0]` even when the job has no rows, as
  the source does.
- Syntax.DecodeLtRps: prev_delta_msb is not reset between the SPS and
  slice-header entries, as in the source, only the `i != nb_sps` test
  applies.
- Syntax.PcmLength: only the bit count is modelled, not the copy of the
  bytes into the coefficient buffer.
- Bits.XyExp2: computed on unbounded integers rather than as a 32-bit
  shift. PCM bit depths are at most 16 and coding blocks at most 64x64, so
  the source's shift cannot wrap.
- IntraMode.PuGrid.constructor: the intra marks stand for tab_mvf's
  pred_flag, whose buffers come from a pool and are reused across frames
  without clearing. The model starts them unmarked; the PredFlag values
  are in hevcdec.h, which is not part of this model.
- IntraMode.PuGrid.DefaultValue: the motion vectors hls_prediction_unit
  stores for inter CUs are not part of the grid model.

## Findings

| source | as written | input that shows it | evidently intended | confidence | as-written member | corrected member |
|---|---|---|---|---|---|---|
| libavcodec/hevcdec.c:2166-2168 | each chroma plane of a PCM block is counted as xyexp2(bit_depth_chroma, log2_cb_size - vshift), a square of side cb_size >> vshift | 4:2:2 (hshift 1, vshift 0), log2_cb_size 3, 8-bit samples: 1536 bits as written against 1024 in the bitstream, so the CABAC reader skips (1536 + 7) >> 3 = 192 bytes instead of 128 | each chroma plane counted as (cb_size >> hshift) · (cb_size >> vshift) samples, as pcm_sample() in section 7.3.8.7 of ITU-T H.265 lays them out | medium; not executed | Syntax.PcmLengthAsWritten, Syntax.PcmLength422Counterexample | Syntax.PcmLength, Syntax.PcmLengthAgreesWhenSquare |
