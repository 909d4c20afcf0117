# Verified models of verl and MMSearch-R1

This project models the parts of the repository whose correctness is hardest to see from one
function, and proves what they promise, in Dafny 4.11. `dafny verify dfyconfig.toml` checks it.

- **Weight transfer.** `Buckets` and `PackingLaws` model how tensors are packed into fixed-size byte
  buckets, `NamedDict` what their metadata, keyed by name, gives back. `MooncakeRelay` (with
  `MooncakeSafety`, `MooncakeRuns`, `MooncakeProgress`, `MooncakeExact`, `MooncakeDone`) is the relay of the Mooncake engine as a state machine: N ranks with two byte
  buffers each, announcements on channels, and an acknowledgement written into the predecessor's
  buffer. `NcclBroadcast` and `NcclProgress` model the NCCL engine's event loops and executor threads
  over two buffers that change roles. `KimiBucketing`, `KimiSchedule`, `KimiPipeline` and `KimiRuns`
  model how the Kimi engine deals tensors out, orders the broadcasts and receives them through two
  slots. In all three the actions of different ranks interleave freely, and fills, remote reads and
  collective transfers move any number of bytes at a time.
- **Sharded checkpoints.** `TensorMerge` and `TensorMergeLaws` take the grouped query/key/value layout
  of the converter through contiguous row sharding and back through the merger. `GateUpMerge` does
  the same for the gate and up projections in the loader's and in the converter's layout.
  `LayerNumbers` is the renumbering of layers over virtual pipeline and pipeline ranks.
- **Batches and training.** `BatchAlgebra` models padding, chunking, joining and unpadding of a batch.
  `GroupFilter`, `RejectionSampling` and `RejectionLaws` are the loop that collects prompt groups
  with a varying metric into training batches. `Grpo` is the advantage computed in place over an
  array that the collected score lists alias. Scores are exact reals (`Variance`).
- **Text, scoring and geometry.** `FlashPatch`, `FlashPatchLaws`, `FlashPatchTwice` and `FlashText` are
  the patcher of the flash-attn import, `FormatReward` and `FormatForms` the conversation format check, `Boxed` the
  boxed-answer scanner, `OfflineIndex` the ranked text search, `Grid` the grid proposals.
- `Arithmetic`, `Sequences`, `Text` and `Wrappers` hold what several of them need.

Where a law holds only under a condition, the condition is proved to be exact:

- A bucket gives its tensors back if and only if their names are distinct, because its metadata is
  keyed by name (`PackingLaws.PackRoundTrip`).
- The Mooncake handshake is sound if and only if no bucket but the last two begins with the magic word
  or is a prefix of it (`MooncakeExact.HandshakeExact`). Where it is not, and the bucket after next has
  other bytes, a rank can relay those in its place (`MooncakeExact.WrongRelay`,
  `MooncakeExact.RelayExact`).
- The sender of the Mooncake relay waits at the end until its last bucket is acknowledged. In all runs it
  finishes only when rank 1 has every bucket if and only if no bucket that goes through the buffer of the
  last one begins with the magic word or is a prefix of it (`MooncakeDone.DoneExact`). That the last
  bucket is not such a one is not enough: an earlier one in the same buffer lets the sender get two
  buckets ahead, and from then on each acknowledgement falls into the bucket after next. Where the
  handshake is sound it is enough (`MooncakeDone.DoneExactSound`).
- An inner rank of the Mooncake relay announces a bucket before it hands out its tensors, so that its
  successor's acknowledgement can land in a buffer still being handed out. With three or more ranks,
  distinct names within each bucket and a sound handshake, all tensors handed out are right in every run
  if and only if every bucket begins with the magic word or is a prefix of it
  (`MooncakeExact.InnerYieldsExact`); a sound handshake excludes that for three or more buckets, so that
  some run of such a transfer always hands out a wrong tensor (`MooncakeExact.InnerAlwaysFails`). The
  last rank is right in every run then (`MooncakeRuns.CompletedRelay`).
- The merger restores every fused attention weight if and only if the tensor-parallel size divides the
  number of key-value heads (`TensorMergeLaws.MergeExact`); otherwise it raises or returns wrong rows.
- The converter writes all gate rows above all up rows; cut into contiguous shards this is restored if
  and only if there is one shard (`GateUpMerge.ContiguousExact`). The converter runs with
  tensor-parallel size 1 (verl/scripts/converter_hf_to_mcore.py:470), where that is so; the loader's
  blocked layout is restored for every size.
- Shards of equal length are merged without an error if and only if the assertions on heads and rows hold,
  every rank has a query group, and the key rows divide into the groups (`TensorMergeLaws.MergeRaises`).
- The merged layer numbers are 0..L-1 if and only if no chunk without layers precedes one with layers:
  such a chunk still advances the count by one (`LayerNumbers.NumbersExact`).
- Adding a constant to a prompt's scores changes no advantage, unless the prompt has one response
  (`Grpo.ShiftExact`).
- Patching fails for want of the import if and only if the text holds neither the import nor its marker
  (`FlashPatchTwice.PatchExact`).
- A boxed answer is extracted and unboxed if and only if its braces balance (`Boxed.BoxedExact`).
- Clamping leaves the boxes of a grid alone if and only if the grid is no finer than the image, but the
  distinct boxes tile the image for every grid (`Grid.ClampExact`, `Grid.GridTiles`).

## Model

| member | source | states |
|---|---|---|
| Buckets.FillTwoHalves | verl/verl/checkpoint_engine/mooncake_checkpoint_engine.py:158-211 | the fill loop over one array with two halves sends the buckets of the packing function, and stops exactly where a tensor is too large |
| Buckets.FillAndSwap | verl/verl/checkpoint_engine/nccl_checkpoint_engine.py:238-292 | the fill loop over two arrays that change roles sends the same buckets |
| PackingLaws.PackOkIffFits | verl/verl/checkpoint_engine/nccl_checkpoint_engine.py:267-269 | the packing runs to its end if and only if every tensor fits a bucket |
| PackingLaws.PackFails | verl/verl/checkpoint_engine/nccl_checkpoint_engine.py:242-269 | a transfer that fails has sent the buckets of the tensors before the first oversized one, none flagged as the last |
| PackingLaws.PackingBounds | verl/verl/checkpoint_engine/nccl_checkpoint_engine.py:242-292 | buckets are at most the bucket size, non-empty but for the final one, only the final one flagged, two neighbours together exceed the size, every byte is sent once, so n >= 2 buckets satisfy (n div 2) * size < total bytes |
| PackingLaws.BucketRoundTrip | verl/verl/checkpoint_engine/nccl_checkpoint_engine.py:271-277 | reading a bucket through its metadata gives the tensors packed into it if and only if their names are distinct |
| PackingLaws.PackRoundTrip | verl/verl/checkpoint_engine/nccl_checkpoint_engine.py:242-292 | the tensors read from all buckets are the tensors sent, in order, if and only if names are distinct within each bucket |
| PackingLaws.NumelProduct | verl/verl/checkpoint_engine/nccl_checkpoint_engine.py:337-345 | the elements of a tensor are as many as the product of its dimensions |
| NamedDict.PackKeyed | verl/verl/checkpoint_engine/nccl_checkpoint_engine.py:271-277 | where names are repeated in a bucket, it gives back the last tensor of each name, in the order in which the names first appear |
| MooncakeSafety.RunKeeps | verl/verl/checkpoint_engine/mooncake_checkpoint_engine.py:142-274 | every interleaving keeps the invariant: a bucket announced and not acknowledged is intact, one acknowledged carries the magic word over otherwise intact bytes, channels hold exactly the announcements not yet taken |
| MooncakeRuns.RelaySafety | verl/verl/checkpoint_engine/mooncake_checkpoint_engine.py:231-274 | in every interleaving the k-th bucket each rank relays is the sender's k-th bucket, and no buffer is refilled before the successor has acknowledged it |
| MooncakeRuns.BoundedSkew | verl/verl/checkpoint_engine/mooncake_checkpoint_engine.py:179-212 | when the sender has announced bucket k, the last of n ranks has finished bucket k - 2(n-1) |
| MooncakeRuns.HandedOut | verl/verl/checkpoint_engine/mooncake_checkpoint_engine.py:252-257 | at every moment each receiver has handed out the tensors so far in order; the last rank exactly, an inner rank up to the magic word over the first four bytes of a bucket |
| MooncakeRuns.CompletedRelay | verl/verl/checkpoint_engine/mooncake_checkpoint_engine.py:222-275 | when the relay is complete all ranks have relayed all buckets and the last has handed out all tensors |
| MooncakeRuns.EndToEnd | verl/verl/checkpoint_engine/mooncake_checkpoint_engine.py:150-275 | from tensors packed by rank 0 to the same tensors handed out by the last rank |
| MooncakeProgress.NoDeadlock | verl/verl/checkpoint_engine/mooncake_checkpoint_engine.py:142-275 | every reachable state short of completion has an enabled action, whatever bytes are sent |
| MooncakeProgress.RunsAreFinite | verl/verl/checkpoint_engine/mooncake_checkpoint_engine.py:142-275 | no run is longer than a bound computed from the buckets, so every maximal run completes, whatever bytes are sent |
| MooncakeExact.HandshakeExact | verl/verl/checkpoint_engine/mooncake_checkpoint_engine.py:142-148 | no early refill in any run if and only if no bucket but the last two begins with, or is a prefix of, the magic word |
| MooncakeDone.DoneExact | verl/verl/checkpoint_engine/mooncake_checkpoint_engine.py:142-148 | in all runs rank 0 finishes only when rank 1 has finished every bucket, if and only if no bucket that goes through the buffer of the last one can be taken for the magic word |
| MooncakeDone.DoneExactSound | verl/verl/checkpoint_engine/mooncake_checkpoint_engine.py:205-212 | under a sound handshake that holds if and only if the last bucket cannot be taken for the magic word |
| MooncakeExact.WrongRelay | verl/verl/checkpoint_engine/mooncake_checkpoint_engine.py:158-246 | if bucket k can be taken for the magic word and bucket k + 2 disagrees with it, there is a run in which rank 1 relays other bytes as bucket k |
| MooncakeExact.RelayExact | verl/verl/checkpoint_engine/mooncake_checkpoint_engine.py:179-257 | where every bucket disagrees with the one after next, all ranks relay the sender's bytes in all runs if and only if no bucket but the last two can be taken for the magic word |
| MooncakeExact.InnerYieldsExact | verl/verl/checkpoint_engine/mooncake_checkpoint_engine.py:246-266 | three or more ranks, distinct names within each bucket: if all tensors handed out are right in every run, every bucket begins with the magic word or is a prefix of it; with a sound handshake that is also enough |
| MooncakeExact.InnerAlwaysFails | verl/verl/checkpoint_engine/mooncake_checkpoint_engine.py:246-266 | so with three or more buckets and a sound handshake some run always hands out a wrong tensor |
| NcclBroadcast.RunKeeps | verl/verl/checkpoint_engine/nccl_checkpoint_engine.py:71-93 | every schedule of event loops and executor threads keeps the invariant of buffers, log and handed-out tensors |
| NcclBroadcast.HandedOutPrefix | verl/verl/checkpoint_engine/nccl_checkpoint_engine.py:297-354 | what a receiver hands out is always a beginning of the sent sequence of names, shapes, types and bytes, and all of it when finished |
| NcclBroadcast.BuffersApart | verl/verl/checkpoint_engine/nccl_checkpoint_engine.py:244-263 | the sender's pending broadcast reads a buffer other than the one being filled, which still holds its bucket; a receiver's writes a buffer other than the one handed out, which holds a complete bucket |
| NcclBroadcast.NoDeadlock | verl/verl/checkpoint_engine/nccl_checkpoint_engine.py:238-355 | short of completion some rank can step |
| NcclBroadcast.SenderFinishesLast | verl/verl/checkpoint_engine/nccl_checkpoint_engine.py:280-293 | when the sender has finished, every bucket was published and broadcast in full |
| NcclBroadcast.EndToEnd | verl/verl/checkpoint_engine/nccl_checkpoint_engine.py:224-355 | a finished receiver holds exactly the tensors sent if and only if names are distinct within each bucket |
| NcclProgress.RunsAreFinite | verl/verl/checkpoint_engine/nccl_checkpoint_engine.py:238-355 | every schedule is finite |
| KimiBucketing.NamedTensorBuckets | verl/verl/checkpoint_engine/kimi_checkpoint_engine.py:37-63 | the generator yields the name-keyed buckets of the tensors dealt to this rank, and raises for a bucket size of zero |
| KimiBucketing.DealtOut | verl/verl/checkpoint_engine/kimi_checkpoint_engine.py:50-52 | the i-th tensor goes to rank i mod world size, in order |
| KimiBucketing.DealtOnce | verl/verl/checkpoint_engine/kimi_checkpoint_engine.py:50-52 | over all ranks every tensor is dealt out exactly once |
| KimiBucketing.RankBuckets | verl/verl/checkpoint_engine/kimi_checkpoint_engine.py:48-63 | a rank's buckets hold its tensors in order, exceed the limit only with a single tensor, are closed only by a tensor that does not fit, lose none if and only if names are distinct within each bucket, and otherwise keep the last tensor of each name |
| KimiBucketing.BucketsPartition | verl/verl/checkpoint_engine/kimi_checkpoint_engine.py:37-63 | the buckets of all ranks hold every tensor as often as it is in the list, and nothing else, if and only if names are distinct within each bucket of each rank |
| KimiSchedule.ReceiveOrder | verl/verl/checkpoint_engine/kimi_checkpoint_engine.py:98-140 | the loops over rounds and receivers follow one plan that does not depend on the rank; what this rank casts out of its staging buffer is its own part of that plan |
| KimiSchedule.PlanInRounds | verl/verl/checkpoint_engine/kimi_checkpoint_engine.py:113-127 | of two broadcasts the later one has at least as many of its own source before it, and if as many, its source comes later in the list |
| KimiSchedule.PlanComplete | verl/verl/checkpoint_engine/kimi_checkpoint_engine.py:105-127 | the plan holds every receiver's buckets in list order |
| KimiSchedule.PlanPermutes | verl/verl/checkpoint_engine/kimi_checkpoint_engine.py:105-127 | the plan broadcasts every bucket of the list exactly once |
| KimiSchedule.StagedInTime | verl/verl/checkpoint_engine/kimi_checkpoint_engine.py:114-133 | the bucket at a position of the plan is the one its source stages at the beginning of that round: the i-th of its own, i being the number of its earlier broadcasts |
| KimiPipeline.RunKeeps | verl/verl/checkpoint_engine/kimi_checkpoint_engine.py:122-166 | every interleaving keeps the invariant of slots, wires and handed-out tensors |
| KimiRuns.EachBucketOnce | verl/verl/checkpoint_engine/kimi_checkpoint_engine.py:141-166 | every rank hands out every bucket exactly once, in broadcast order |
| KimiRuns.TwoSlots | verl/verl/checkpoint_engine/kimi_checkpoint_engine.py:126-157 | the slot handed out is never the slot broadcast into and holds the whole previous bucket; every wire carries a beginning of its bucket |
| KimiRuns.NoDeadlock | verl/verl/checkpoint_engine/kimi_checkpoint_engine.py:113-166 | short of completion some rank can step, even where one rank is source several times in a row |
| KimiRuns.RunsAreFinite | verl/verl/checkpoint_engine/kimi_checkpoint_engine.py:113-166 | every interleaving is finite |
| KimiRuns.EndToEnd | verl/verl/checkpoint_engine/kimi_checkpoint_engine.py:98-166 | from the list of fetches to what a finished rank has handed out: every tensor as often as it is in the list |
| TensorMerge.MergeQkv | verl/scripts/legacy_model_merger.py:532-560 | the loops over shards and chunks return what splitting all chunks gives, and raise where an assertion, a division or a split fails |
| TensorMergeLaws.InterleaveAt | verl/scripts/converter_hf_to_mcore.py:155-161 | row j of query group i of the fused weight is the q, k or v row the views place there |
| TensorMergeLaws.PiecesOfShards | verl/scripts/legacy_model_merger.py:546-550 | the chunks of equal contiguous shards are the equal pieces of the whole |
| TensorMergeLaws.MergeUndoesConvert | verl/scripts/legacy_model_merger.py:532-560 | interleaving by group, cutting rows into tp contiguous shards and merging returns the original q, k, v for any head count, group size and head dimension with tp dividing the key-value heads |
| TensorMergeLaws.ConvertUndoesMerge | verl/scripts/converter_hf_to_mcore.py:155-161 | interleaving what was merged returns the fused weight |
| TensorMergeLaws.MergeExact | verl/scripts/legacy_model_merger.py:532-560 | the merger restores every weight if and only if tp divides the key-value heads |
| TensorMergeLaws.MergeRaises | verl/scripts/legacy_model_merger.py:538-556 | shards of equal length are merged without raising if and only if both assertions hold, there is a query group per rank, and the key rows divide into the groups |
| GateUpMerge.MergeGateUp | verl/scripts/legacy_model_merger.py:521-531 | the loop returns the joined halves of all shards, or raises on a shard that does not split in two |
| GateUpMerge.HalvesUnless | verl/scripts/legacy_model_merger.py:526 | a shard splits in two unless it has exactly one row |
| GateUpMerge.MergeUndoesFuse | verl/verl/models/mcore/loader.py:240-254 | the loader's layout, cut into tp shards and merged, is gate and up again |
| GateUpMerge.FuseGateUp | verl/verl/models/mcore/loader.py:240-254 | the copying loop writes the blocks; if tp divides the intermediate size, cutting what it leaves in the buffer into tp shards and merging them gives gate and up |
| GateUpMerge.ContiguousExact | verl/scripts/converter_hf_to_mcore.py:188 | gate above up, cut into tp shards, is restored for all weights if and only if tp is 1 |
| LayerNumbers.MergeStateDicts | verl/scripts/legacy_model_merger.py:611-661 | the loops fill the dict of the specification in (vpp, pp, local) order |
| LayerNumbers.NumbersAscend | verl/scripts/legacy_model_merger.py:635-661 | layers of an earlier chunk get smaller numbers than layers of a later one |
| LayerNumbers.NothingOverwritten | verl/scripts/legacy_model_merger.py:635-661 | every layer tensor is found in the merged dict under its global number |
| LayerNumbers.NothingElse | verl/scripts/legacy_model_merger.py:635-661 | the merged dict holds no other keys |
| LayerNumbers.NumbersExact | verl/scripts/legacy_model_merger.py:635-661 | with chunks holding local layers 0..k-1 the merged numbers are exactly 0..L-1 if and only if no chunk without layers precedes one with layers |
| LayerNumbers.NumbersInOrder | verl/scripts/legacy_model_merger.py:635-661 | without such a gap a layer's number is the count of layers before it |
| LayerNumbers.VisitedAt | verl/scripts/legacy_model_merger.py:617-620 | the chunk of virtual stage v and pipeline rank p is visited at place v * n + p |
| LayerNumbers.InterleavedNumbers | verl/scripts/legacy_model_merger.py:617-661 | with k layers in every chunk, layer l of virtual stage v of pipeline rank p of n is found under number (v * n + p) * k + l, with its name otherwise unchanged |
| BatchAlgebra.Pad | verl/verl/protocol.py:73-98 | the padded length is the next multiple of the divisor and padded row i is row i modulo the length; an empty batch is returned as it is |
| BatchAlgebra.ConcatRows | verl/verl/protocol.py:916-960 | joining batches with the same parts succeeds and appends their rows |
| BatchAlgebra.ConcatFails | verl/verl/protocol.py:925-959 | joining fails exactly for no batch, for tensors missing in a later batch, for arrays missing in the first but not in all, and for arrays missing in a batch with rows when both are joined |
| BatchAlgebra.RowsDetermine | verl/verl/protocol.py:916-960 | a batch is known by its rows and by which parts it has, so that the laws on rows are laws on batches |
| BatchAlgebra.Chunk | verl/verl/protocol.py:863-902 | raises exactly when the length is not divisible (without padding enabled) or too few pieces come out; otherwise n batches with the rows in order, tensors and arrays cut at the same places, and the lengths of `torch.chunk`, or of `np.array_split` without tensors |
| BatchAlgebra.TorchChunkPieces | verl/verl/protocol.py:879 | `torch.chunk` gives n pieces exactly when the rounded-up size leaves something for the last one |
| BatchAlgebra.PaddingEnabledIsNotEnough | verl/verl/protocol.py:872-879 | with padding enabled the length check is skipped, and 5 rows still do not give 4 chunks |
| BatchAlgebra.PaddedDispatch | mmsearch_r1/trainer/multimodal/ray_trainer.py:739-742 | for every batch, every number of workers and every row-wise worker: pad, chunk, work, join and unpad equals the worker on the whole batch |
| GroupFilter.FilterGroups | mmsearch_r1/trainer/multimodal/ray_trainer.py:1336-1355 | the dictionaries and index list select the rows of uids with positive deviation and count those uids |
| GroupFilter.SpreadIffVaried | mmsearch_r1/trainer/multimodal/ray_trainer.py:1343-1347 | the population deviation is positive if and only if the metric is not constant |
| GroupFilter.KeptRowExact | mmsearch_r1/trainer/multimodal/ray_trainer.py:1347-1355 | a trajectory is kept, as often as it is there, exactly if the metric of its prompt varies |
| GroupFilter.KeptGroupExact | mmsearch_r1/trainer/multimodal/ray_trainer.py:1347-1355 | so is a prompt group |
| GroupFilter.FilterOfGroups | mmsearch_r1/trainer/multimodal/ray_trainer.py:1336-1355 | on n-fold prompt groups the filter keeps or drops groups as a whole and counts the kept ones |
| RejectionSampling.NewBatchIsGroups | mmsearch_r1/trainer/multimodal/ray_trainer.py:1211-1216 | repeated uids united with the outputs are the rows of the prompt groups |
| RejectionSampling.Round | mmsearch_r1/trainer/multimodal/ray_trainer.py:1320-1375 | one pass of the loop body: what is held, counted, trained on or raised |
| RejectionSampling.Fit | mmsearch_r1/trainer/multimodal/ray_trainer.py:1148-1499 | the loop over rounds hands out the batches of the specified run and raises where it does |
| RejectionLaws.TrainedBatches | mmsearch_r1/trainer/multimodal/ray_trainer.py:1320-1375 | over any rounds every batch leaving the filter has train_batch_size * n rows, train_batch_size distinct uids, each with n rows and a non-constant metric |
| RejectionLaws.HeldIsAllKept | mmsearch_r1/trainer/multimodal/ray_trainer.py:1347-1375 | after any number of rounds what is held is everything kept since the last training step, in order |
| RejectionLaws.BatchIsAllKept | mmsearch_r1/trainer/multimodal/ray_trainer.py:1356-1375 | a round leads to a training step exactly if enough was kept since the last one, and the batch is the beginning of that |
| RejectionLaws.NoPromptTwice | mmsearch_r1/trainer/multimodal/ray_trainer.py:1356-1375 | no prompt is trained on twice or both trained on and held |
| RejectionLaws.RaisesAtLimit | mmsearch_r1/trainer/multimodal/ray_trainer.py:1361-1371 | the loop raises exactly in the round that reaches the limit with too few prompts |
| RejectionLaws.WithoutFilter | mmsearch_r1/trainer/multimodal/ray_trainer.py:1320-1321 | without the filter every round is trained on as generated, nothing is held and nothing raised |
| RejectionLaws.SingleNeverVaries | mmsearch_r1/trainer/multimodal/ray_trainer.py:1343-1347 | with one trajectory per prompt nothing is ever kept |
| Grpo.AdvantagesInPlace | mmsearch_r1/trainer/multimodal/core_algos.py:92-114 | the array overwritten in place holds the advantages of the scores as they were, although the collected lists alias it |
| Grpo.Compute | mmsearch_r1/trainer/multimodal/core_algos.py:89-117 | token sums, in-place advantages and the masked tiling over tokens |
| Grpo.AdvantagesSumToZero | mmsearch_r1/trainer/multimodal/core_algos.py:97-114 | the advantages of a prompt with two or more responses sum to zero |
| Grpo.AdvantagesExact | mmsearch_r1/trainer/multimodal/core_algos.py:97-114 | for two or more responses there are the mean m and the sample variance v of the scores, and each advantage times (root of v plus epsilon), or times one without normalizing, is the score minus m |
| Grpo.SingleExact | mmsearch_r1/trainer/multimodal/core_algos.py:98-100 | a single response is not centred, and divided by one plus epsilon if normalized |
| Grpo.NoSignalIffConstant | mmsearch_r1/trainer/multimodal/core_algos.py:97-114 | they are all zero if and only if the scores are all the same |
| Grpo.ShiftExact | mmsearch_r1/trainer/multimodal/core_algos.py:97-114 | a constant shift of a prompt's scores changes no advantage, unless the prompt has a single response |
| Grpo.OrderIrrelevant | mmsearch_r1/trainer/multimodal/core_algos.py:97-114 | reordering the rows reorders the advantages |
| FlashPatch.NormalizeFlashImportBlock | scripts/patch_mmsearch_r1_verl_flash_attn.py:77-131 | the loop writes what the line-by-line specification gives |
| FlashPatchLaws.ChangedIff | scripts/patch_mmsearch_r1_verl_flash_attn.py:77-131 | normalizing reports a change exactly if it changes a line |
| FlashPatchLaws.OutIsNormal | scripts/patch_mmsearch_r1_verl_flash_attn.py:77-131 | nothing is left to repair in the lines written |
| FlashPatchLaws.OnlyImportsRewritten | scripts/patch_mmsearch_r1_verl_flash_attn.py:77-131 | every line outside an old import is kept, in order; each old import, with its own try line and all of its fallback, becomes one complete block where it belongs, and nothing else is written |
| FlashPatchLaws.MendsBlock | scripts/patch_mmsearch_r1_verl_flash_attn.py:77-131 | however the indentation of a block was broken, all of it is read and one complete block is written, where its first line stands |
| FlashPatchLaws.TailExact | scripts/patch_mmsearch_r1_verl_flash_attn.py:51-64 | a line is taken for part of a fallback exactly if it is blank or reads, but for indentation, like a line of the block behind the import |
| FlashPatchLaws.InsertNormal | scripts/patch_mmsearch_r1_verl_flash_attn.py:141-146 | guard lines put behind a branch line leave normal lines normal |
| FlashPatchTwice.Patch | scripts/patch_mmsearch_r1_verl_flash_attn.py:134-148 | patching, with both errors; a patched text is left alone the second time, is reported as changed exactly if it differs, and holds marker and guard |
| FlashPatchTwice.PatchExact | scripts/patch_mmsearch_r1_verl_flash_attn.py:134-148 | when patching fails for want of the import, for want of a branch, and when it succeeds |
| FlashPatchTwice.PatchIsIdempotent | scripts/patch_mmsearch_r1_verl_flash_attn.py:134-148 | a second application changes nothing and reports no change |
| FlashPatchTwice.PatchFlag | scripts/patch_mmsearch_r1_verl_flash_attn.py:134-148 | the patcher reports a change exactly if it changed the text |
| FlashPatchTwice.PatchedHolds | scripts/patch_mmsearch_r1_verl_flash_attn.py:134-148 | a patched text holds the guard, and the import in complete blocks only |
| FlashPatchTwice.PatchedKeeps | scripts/patch_mmsearch_r1_verl_flash_attn.py:134-148 | line by line a patched text is the original, but for old imports, each replaced by a complete block, and the guard behind the first line that ends like the branch line, if it was missing |
| FlashText.ScriptPatches | scripts/patch_mmsearch_r1_verl_flash_attn.py:19-48 | both for the texts of the script itself |
| FlashText.ScriptIsIdempotent | scripts/patch_mmsearch_r1_verl_flash_attn.py:19-48 | both laws for the texts of the script itself |
| FormatReward.CountMeans | mmsearch_r1/utils/reward_score_mm/mmsearch_r1_score.py:91-95 | counting a tag gives none, or one, exactly if there is no, or exactly one, occurrence |
| FormatReward.FormatReward | mmsearch_r1/utils/reward_score_mm/mmsearch_r1_score.py:156-229 | the format score is 1 exactly for well-formed conversations of one to three responses; other numbers raise |
| FormatReward.WellFormedSearches | mmsearch_r1/utils/reward_score_mm/mmsearch_r1_score.py:156-229 | a well-formed conversation of n responses has search count n - 1 |
| FormatReward.ExtractsOnlyAnswer | mmsearch_r1/utils/reward_score_mm/mmsearch_r1_score.py:67-78 | from a valid last response the stripped text between its only answer tags is extracted, also if white space surrounds the response |
| FormatReward.AnswerTagsOccur | mmsearch_r1/utils/reward_score_mm/mmsearch_r1_score.py:91-95 | a valid answer holds both tags |
| FormatForms.WellFormedReasons | mmsearch_r1/utils/reward_score_mm/mmsearch_r1_score.py:80-153 | every response of a well-formed conversation begins with its one opening reason tag and holds one closing reason tag |
| FormatForms.WellFormedCalls | mmsearch_r1/utils/reward_score_mm/mmsearch_r1_score.py:156-229 | of two responses the first calls exactly one search; of three the first calls the image search, the second the text search; none but the last answers |
| FormatForms.ReasonThenCall | mmsearch_r1/utils/reward_score_mm/mmsearch_r1_score.py:80-153 | the reason is closed before the answer or the text search begins, which ends the response |
| FormatForms.ReasonThenLook | mmsearch_r1/utils/reward_score_mm/mmsearch_r1_score.py:104-127 | so it is before the image search |
| FormatForms.SearchCountExact | mmsearch_r1/utils/reward_score_mm/mmsearch_r1_score.py:156-229 | the search count is the number of responses that call the image search, or open and close a text search, the last of several not counted |
| FormatForms.AnswerAccepted | mmsearch_r1/utils/reward_score_mm/mmsearch_r1_score.py:80-101 | a reason and an answer in their tags, with any other text between, are accepted |
| FormatForms.TextSearchAccepted | mmsearch_r1/utils/reward_score_mm/mmsearch_r1_score.py:130-153 | so are a reason and a text search |
| FormatForms.ImageSearchAccepted | mmsearch_r1/utils/reward_score_mm/mmsearch_r1_score.py:104-127 | so are a reason and the image search |
| FormatForms.ExtractsLast | mmsearch_r1/utils/reward_score_mm/mmsearch_r1_score.py:67-78 | of several answers the last one is extracted, stripped; of none, none |
| Boxed.LastBoxedOnlyString | mmsearch_r1/utils/reward_score_mm/math.py:63-90 | the scanning loop finds the brace that closes the last box |
| Boxed.BoxIsLast | mmsearch_r1/utils/reward_score_mm/math.py:64 | the last box is the one around x if neither x nor what follows holds another |
| Boxed.CloseExact | mmsearch_r1/utils/reward_score_mm/math.py:72-83 | the brace behind x is the one found if and only if x is balanced |
| Boxed.BoxedExact | mmsearch_r1/utils/reward_score_mm/math.py:49-90 | extracting and unboxing returns x if and only if x is balanced |
| Boxed.SpacedExact | mmsearch_r1/utils/reward_score_mm/math.py:49-66 | a box followed by a space reaches to the next dollar sign or the end, and unboxing returns what is in it |
| Boxed.FramedExact | mmsearch_r1/utils/reward_score_mm/math.py:63-90 | without any box a framed box is found whole if and only if it is balanced; unboxing it fails |
| Boxed.NothingBoxed | mmsearch_r1/utils/reward_score_mm/math.py:63-70 | without either box there is no answer |
| OfflineIndex.MakeDoc | mmsearch_r1/utils/tools/offline_search.py:209-212 | the term counts of a document |
| OfflineIndex.BuildIndex | mmsearch_r1/utils/tools/offline_search.py:168-177 | the document frequency of a token is the number of documents that contain it |
| OfflineIndex.DocCountExact | mmsearch_r1/utils/tools/offline_search.py:174-177 | the frequency is the size of the set of documents that contain the token |
| OfflineIndex.DocCountBounds | mmsearch_r1/utils/tools/offline_search.py:168-177 | it never exceeds the number of documents, and is positive exactly for tokens that occur |
| OfflineIndex.ScorePositive | mmsearch_r1/utils/tools/offline_search.py:238-250 | a score is positive if and only if document and query share a token |
| OfflineIndex.TokenScoreExact | mmsearch_r1/utils/tools/offline_search.py:236-248 | the weight of a token, as one equation between the counts: its occurrences, the length of the document, the documents with the token, all documents and all tokens |
| OfflineIndex.ScoreIsSum | mmsearch_r1/utils/tools/offline_search.py:239-248 | a score is the sum over the tokens of the query |
| OfflineIndex.SearchText | mmsearch_r1/utils/tools/offline_search.py:231-253 | the loops collect the positive scores, rank them and cut at topk, counted from the end if negative |
| OfflineIndex.SearchBest | mmsearch_r1/utils/tools/offline_search.py:231-253 | hits are descending with ties in document order, all share a token, and no document left out beats a hit |
| OfflineIndex.SearchCount | mmsearch_r1/utils/tools/offline_search.py:253 | the number of hits is the smaller of topk and the number of sharing documents; for a negative topk it is that number less the bound, or none |
| Grid.RoundStepLarge | mmsearch_r1/agents/grounded_zoom_search_verify.py:129-132 | edges at least a pixel apart stay apart under rounding half to even |
| Grid.GridTiles | mmsearch_r1/agents/grounded_zoom_search_verify.py:121-140 | the distinct boxes of any grid are non-empty, inside the image, and every pixel is in exactly one |
| Grid.ClampExact | mmsearch_r1/agents/grounded_zoom_search_verify.py:94-105 | clamping leaves all boxes of a grid unchanged if and only if the grid is at most as fine as the image |
| Grid.ClampPlace | mmsearch_r1/agents/grounded_zoom_search_verify.py:94-105 | an interval inside the image stays; an empty one becomes the pixel it is at, or the last one |
| Grid.GenerateGridBoxes | mmsearch_r1/agents/grounded_zoom_search_verify.py:121-140 | the loops list the first place of every box, in order |
| Grid.FirstsExact | mmsearch_r1/agents/grounded_zoom_search_verify.py:134-138 | proposals have distinct boxes, and all boxes of all grids are among them |
| Grid.GridAt | mmsearch_r1/agents/grounded_zoom_search_verify.py:127-129 | the places of a grid are listed row by row, from left to right |
| Grid.GridsInOrder | mmsearch_r1/agents/grounded_zoom_search_verify.py:125-129 | the places of one grid follow those of the grids asked for before it |
| Grid.FirstsInOrder | mmsearch_r1/agents/grounded_zoom_search_verify.py:134-138 | a place whose box is new is listed behind the proposals for the places before it |
| Grid.NoCoverageLost | mmsearch_r1/agents/grounded_zoom_search_verify.py:134-138 | after dropping repetitions every pixel is still in a cell of every grid |

## Left out

- Sockets, RDMA reads and writes, collectives and streams: channels are reliable and ordered, publish
  and subscribe loses nothing, a broadcast delivers a prefix that grows, and a completed operation
  is an event. The four bytes of the Mooncake acknowledgement are written in one step; its reads and
  fills are not atomic.
- Trainer ranks below zero, which only drain the generator; statistics and logging.
- The transfer of an oversized tensor ends in an assertion: the packing models which buckets are sent
  before it, the relay and broadcast machines take completed packings.
- The Kimi engine's tables of tensors behind a bucket (`_gen_h2d_buckets`, `_to_named_tensor`): a bucket
  is its bytes and its metadata, and the list of buckets with receivers is an input. An empty list,
  for which the generator raises after its loops, is not part of the pipeline model.
- KimiBucketing.NamedTensorBuckets: the cast to the rollout type is taken as done.
- The HCCL engine, which is the NCCL protocol with a synchronous broadcast.
- Tensor columns: the merger's row-sharded cases are modelled on rows, the column-sharded ones are a
  plain join. Names of merged tensors are taken as given; embedding and output layers, which several
  chunks may hold under one key, are outside the claims about overwriting.
- RejectionSampling.Fit: generation, rewards and the optimizer step are inputs or omitted, as are the
  end of training at the last step, metrics, and meta information.
- Grpo.Compute: the square root is a parameter that is non-negative, and zero only for zero; rounding of
  floating-point sums is not modelled.
- FlashPatchTwice.Patch: newline is the only line break; reading and writing the file is left out.
- Grid.GenerateGridBoxes: cell edges are exact fractions, not floating-point products; labels are the
  grid, row and column they are printed from.
- FormatReward.FormatReward: the three patterns are string predicates, not a regular expression engine;
  the weighted score on top (`compute_score`) and the comparison of answers are left out.
- OfflineIndex.SearchText: tokenizing, loading and the image search are left out; the library's sort is a
  stable insertion of one hit after the other.
- Data preprocessing, command lines, viewers, model loading, and the agents' dialogue loops.
