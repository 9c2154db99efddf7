# Pleiades in Dafny

Pleiades splits a transformer by layer, keeps the shards as PGGUF files and runs them as a pipeline of
nodes. This project models the parts of it that have properties over all runs or all inputs, and proves
those properties. Each part is a pair of a specification on values and, where the program works in
place, classes or methods with the program's own fields and loops, proved against it.

- `Qwen3`, `Qwen3Meaning`, `Qwen3Runs`, `Qwen3Model`: the forward pass with a growing key/value cache and a
  causal mask, what one call means, runs of calls, and partial models in a chain.
- `TensorNames`, `ShardLoading`, `ShardSplit`, `Shards`: loading a range of layers, splitting a file,
  and the end-to-end statement that a pipeline of loaded shards is the model.
- `PggufLayout`, `PggufReader`, `PggufWriter`, `PggufConversion`: the two-pass writer with patched offsets, a
  reader of the format that works from the bytes, and what the conversion does to the tensors.
- `StorageIndex`, `StorageManager`: the file index with one reader/writer lock per file, and `Flush`.
- `RequestResponse`, `RequestProgress`, `NetworkService`: requests, replies and waiting senders of any number
  of nodes, safety and progress.
- `Rendezvous`, `LocalStreams`, `LocalStreamsCleanup`: streams meeting their acceptors, under one lock and under two.
- `Ranking`, `Moe`, `MoeMeaning`, `MoeDispatch`: top-k routing and expert-grouped dispatch.
- `SparseMask`, `SparsePrefill`: the index tables, the indexer and the mask of DeepSeek V4.
- `TensorCodec`, `TensorStream`, `TensorPacket`, `PacketCodec`, `CommandText`: bytes and text on the wire.
- `Bitmaps`, `LayerText`, `PeerRanges`, `RangeMerge`: which layers a file or a peer holds.
- `Common`, `Bytes`, `Decimal`, `Texts`, `Grids`, `Sorting`: what these share.

`dafny verify dfyconfig.toml` checks all of it.

## How the model reads the program

- Tensor arithmetic is uninterpreted: linear maps, norms, RoPE, the scaled dot product and the experts are
  arbitrary functions of rows, and softmax is taken over the reals from an arbitrary positive exponential.
  Scores and weights are reals.
- A lock section is one step. Calls that wait are split where they wait; timeouts and dropped receivers are
  events of their own, so that properties hold over every interleaving.
- Each class keeps the fields the program keeps; a ghost field holds what the rest of the world does with
  them (guards alive, streams in flight, requests on the wire), and every method states its whole new state
  as a step of the value model.
- Hash maps are iterated in any order: a method that loops over one takes its keys as a list in arbitrary
  order, or picks any key.
- The key/value cache of the tensor library grows along the sequence and refuses rows of another batch size.
- A file that is written is taken to read back as written (the GGUF library and the file system).

## What the program does that its documentation does not say

- A prefill of more than one row with a batch other than 1 fails: the causal mask is built for one batch
  lane and shaped for all (`Qwen3.CausalMask`, `Qwen3Runs.BatchedPrefillFails`).
- The conversion to PGGUF records offsets in name order but copies the data as it lies, so it keeps tensors
  only when the source lays them in name order with 32-byte padding
  (`PggufConversion.ConversionKeepsTensors`). It pads the data to 32 bytes also where the metadata it copies
  names another alignment (`PggufConversion.AlignmentKeepsTensorsIff`).
- `Exists` drops an index entry whose file is gone without looking at its lock, and an acquire looks up the
  lock before it waits for it. Either can end with two writers on one file
  (`StorageIndex.ExistsBreaksExclusion`, `StorageIndex.TwoStepAcquireBreaksExclusion`); nothing else can
  (`StorageIndex.RunKeepsExclusion`).
- The expert dispatch reads `topk` slots per token although the gate writes `min(topk, experts)`
  (`MoeDispatch.Forward`, `MoeDispatch.SlotsInRangeIff`).
- An `open` and an `accept_async` that overlap can both find nothing, and then wait for each other
  (`LocalStreams.PairMeets`).
- The cleanup after a timeout of `accept_async` removes whatever is registered under the id, also the
  registration of another call (`LocalStreamsCleanup.ServedUnlessDisplaced`).
- A block that only names such as `blk.00.` show counts in the bitmap of the complete file and is in no shard
  (`Shards.BitmapsUnite`).
- An unsplit file whose first and last block are present counts as the whole model even if blocks between
  are missing (`PeerRanges.GapGoesUnnoticed`).
- Number fields accept a leading plus sign and leading zeros, and two hexadecimal characters may be a plus
  sign and one digit; both are modelled. Length fields of a tensor packet wrap at 2^32
  (`PacketCodec.RoundTripIff`).

## Model

| member | source | states |
|---|---|---|
| `Qwen3.CausalMask` | Src/ML_Engine/GGUF_Models/qwen3.rs:250-276 | The mask fails exactly when the batch is not 1 and the mask is not empty; otherwise row i opens columns up to i + offset, within the sliding window if there is one. |
| `Qwen3.MaskedIsVisible` | Src/ML_Engine/GGUF_Models/qwen3.rs:44-100 | Softmax attention under a mask that opens a prefix of the keys is unmasked attention over that prefix alone. |
| `Qwen3.VisibleTotalPositive` | Src/ML_Engine/GGUF_Models/qwen3.rs:44-100 | The softmax denominator of a position that sees a key is positive. |
| `Qwen3Meaning.ContextAttends` | Src/ML_Engine/GGUF_Models/qwen3.rs:82-95 | Component by component the context of a query is the mean of the value components under the softmax of its scores plus mask: each exponential divided by the sum of them, masked keys with none. |
| `Qwen3Meaning.SoftmaxIsNormalised` | Src/ML_Engine/GGUF_Models/qwen3.rs:94 | The probabilities are not negative, positive just for the visible keys, and add up to 1. |
| `Qwen3Meaning.MeanBetween` | Src/ML_Engine/GGUF_Models/qwen3.rs:94-95 | A context component lies between the least and the greatest visible value component; where all visible ones are a, it is a. |
| `Qwen3Meaning.MeanIsUnique` | Src/ML_Engine/GGUF_Models/qwen3.rs:94-95 | This meaning leaves only one context. |
| `Qwen3Meaning.LayerStepMeans` | Src/ML_Engine/GGUF_Models/qwen3.rs:210-222 | A layer step that succeeds gives add(y, mlp(ln2(y))) with y = add(x, attention of ln1(x)), row by row, and a cache with the new keys and values behind the old. |
| `Qwen3Meaning.MaskForMeans` | Src/ML_Engine/GGUF_Models/qwen3.rs:250-298 | No mask for a single new row; otherwise row i opens the columns up to offset + i and no other. |
| `Qwen3Meaning.ModelStepMeans` | Src/ML_Engine/GGUF_Models/qwen3.rs:283-315 | A call that succeeds embeds its tokens if it can, runs layer after layer on the rows of the one before, and ends with the logits of the last row or with all rows. |
| `Qwen3.LayerRefPrefix` | Src/ML_Engine/GGUF_Models/qwen3.rs:210-222 | A layer evaluated over more tokens does not change what it gives for the earlier ones: causality. |
| `Qwen3.LayerAgrees` | Src/ML_Engine/GGUF_Models/qwen3.rs:210-222 | One layer run on new rows with the cache of the past gives the rows and the cache of evaluation over all rows from scratch. |
| `Qwen3.StackAgrees` | Src/ML_Engine/GGUF_Models/qwen3.rs:302-304 | The same through the whole stack of layers, every cache included. |
| `Qwen3.StackFailsOnAnyRows` | Src/ML_Engine/GGUF_Models/qwen3.rs:302-304 | Past the rows of the RoPE tables the stack fails whatever the rows are. |
| `Qwen3Runs.ForwardAgrees` | Src/ML_Engine/GGUF_Models/qwen3.rs:283-315 | One call with offset = tokens so far succeeds exactly when the batch or the new length is 1, the tables have room and the batch is that of the caches; then it equals evaluation from scratch, final caches included. A call of another batch leaves the caches alone. |
| `Qwen3Runs.RunAgrees` | Src/ML_Engine/GGUF_Models/qwen3.rs:283-315 | The same over a run of chunks from any exact state. |
| `Qwen3Runs.CachedRunIsExact` | Src/ML_Engine/GGUF_Models/qwen3.rs:283-315 | However the tokens are cut into chunks, each chunk yields its slice of the single evaluation of the whole sequence and the final caches are those of the whole sequence; the run succeeds iff the shapes allow it. |
| `Qwen3Runs.ChunkedEqualsSingleShot` | Src/ML_Engine/GGUF_Models/qwen3.rs:283-315 | Without output head the rows of all chunks together are the rows of one single-shot forward, length-1 chunks (no mask) included. |
| `Qwen3Runs.ChunkedLogitsEqual` | Src/ML_Engine/GGUF_Models/qwen3.rs:306-314 | With output head the logits of the last chunk are the logits of the single-shot forward. |
| `Qwen3Runs.BatchedPrefillFails` | Src/ML_Engine/GGUF_Models/qwen3.rs:250-276 | A batch other than 1 with more than one new row always fails, and leaves every cache as it was. |
| `Qwen3Runs.BatchChangeFails` | Src/ML_Engine/GGUF_Models/qwen3.rs:77 | Caches that hold tokens of one batch size refuse a call of another, and stay as they were. |
| `Qwen3Runs.StackSplits` | Src/ML_Engine/GGUF_Models/qwen3.rs:302-304 | Running a stack is running its first part and then, unless that failed, its second part, caches and errors included. |
| `Qwen3Runs.JoinedStep` | Src/ML_Engine/GGUF_Models/qwen3.rs:283-315 | One call of two chained partial models is one call of the joined model. |
| `Qwen3Runs.ChainIsJoin` | Src/ML_Engine/GGUF_Models/qwen3.rs:283-315 | The same for any number of partial models. |
| `Qwen3Runs.CutCovers` | Src/ML_Engine/gguf_model.rs:422-454 | The partial models of a cut hold together exactly the layers that were cut. |
| `Qwen3Runs.PipelineEqualsMonolith` | Src/ML_Engine/GGUF_Models/qwen3.rs:283-315 | For every cut of layers 0..=N+1 into consecutive ranges and every run of calls, failing ones included, the pipeline returns the results and keeps the per-layer caches of the complete model. |
| `Qwen3Model.Attention.Forward` | Src/ML_Engine/GGUF_Models/qwen3.rs:44-100 | The cache grows by the keys, turned by their positions, and the values of the new rows; each row of the result is the output projection of its softmax attention over all keys its mask row shows. Result and new cache are those of the attention step, also when the mask does not fit. |
| `Qwen3Model.Attention.ClearKvCache` | Src/ML_Engine/GGUF_Models/qwen3.rs:102-104 | The cache is empty afterwards. |
| `Qwen3Model.Layer.Forward` | Src/ML_Engine/GGUF_Models/qwen3.rs:210-222 | The result is add(y, mlp(ln2(y))) with y = add(x, attention of ln1(x)); result and new cache are those of the layer step on the old cache. |
| `Qwen3Model.LoopIsStack` | Src/ML_Engine/GGUF_Models/qwen3.rs:302-304 | The layer loop from any layer on, over the caches of all layers, is the recursive stack on the rest. |
| `Qwen3Model.Model.RunLayers` | Src/ML_Engine/GGUF_Models/qwen3.rs:302-304 | The loop gives the rows and caches of the stack of all layers; a layer that fails leaves the later caches alone. |
| `Qwen3Model.Model.Forward` | Src/ML_Engine/GGUF_Models/qwen3.rs:283-315 | The result is that of embedding, causal mask, layer after layer with its own cache, and output head, written out; result and all caches are those of the model step on the old caches, errors included. |
| `Qwen3Model.Model.ClearKvCache` | Src/ML_Engine/GGUF_Models/qwen3.rs:317-321 | All caches are empty afterwards. |
| `Qwen3Model.Model.Inference` | Src/ML_Engine/gguf_model.rs:637-648 | A caller that passes offset = tokens so far gets what a model without caches computes, and the caches stay exact; a batch other than that of the caches is refused and changes nothing. |
| `TensorNames.OneLayer` | Src/ML_Engine/gguf_model_manager.rs:919-985 | A tensor name belongs to at most one pipeline layer: block prefixes do not run into each other. |
| `TensorNames.IndexOfBlock` | Src/ML_Engine/gguf_model_manager.rs:592-603 | A name with the prefix of block i has i as its parsed block number, if i fits the type. |
| `TensorNames.BlockIndexMeans` | Src/ML_Engine/gguf_model_manager.rs:592-603 | A name shows block n exactly when it is `blk.` and an accepted text of n, up to the next dot or the end. |
| `ShardLoading.GgufLoadLayer` | Src/ML_Engine/gguf_model_manager.rs:886-994 | The tensors of exactly that layer, or an error for an index past N+1 or a layer without tensors. |
| `ShardLoading.LoadBlockRange` | Src/ML_Engine/gguf_model.rs:524-541 | The blocks of the range in order, or the first failure. It succeeds exactly when the file has the eleven weights of every block of the range; then block i has its query weight from `blk.i.attn_q.weight` and so on, each of the eleven from its literal name. |
| `ShardLoading.LoadOutputHead` | Src/ML_Engine/gguf_model.rs:543-580 | It succeeds exactly when the file has `output_norm.weight` and an `output.weight` or else a `token_embd.weight`; norm and head are those tensors. |
| `ShardLoading.GgufLoadModel` | Src/ML_Engine/gguf_model.rs:367-580 | The range check with its two errors, exactly when a load succeeds, and where each part comes from by its literal name: the embedding, the eleven weights of every block of the range, the norm, and the head or the embedding in its place. |
| `ShardLoading.BlockComesFrom` | Src/ML_Engine/gguf_model.rs:524-541 | A block loads exactly when the file has its eleven weights, and each of them is the tensor of its name. |
| `ShardLoading.LoadComesFrom` | Src/ML_Engine/gguf_model.rs:367-580 | The same of a whole load: it holds just the parts of its range, each from the tensor of its literal name. |
| `ShardLoading.LaterFailure` | Src/ML_Engine/gguf_model.rs:524-541 | A block that fails to load fails every longer range with the same error. |
| `ShardLoading.RangeOfWhole` | Src/ML_Engine/gguf_model.rs:367-580 | If the whole file loads, every range loads and gives just its part of the whole. |
| `ShardSplit.SelectTensors` | Src/ML_Engine/gguf_model_manager.rs:1056-1092 | The names selected, each once, are those that belong to a layer of the range by their literal prefix or name, and the embedding when the output of the range is tied to it. |
| `ShardSplit.MarkBlocks` | Src/ML_Engine/gguf_model_manager.rs:1141-1155 | The bits set are exactly the block numbers below 256 that the selected names show. |
| `ShardSplit.GgufSplitModel` | Src/ML_Engine/gguf_model_manager.rs:1012-1218 | The three errors, each exactly when it arises; otherwise the shard has just the tensors of its range as they were, its range, and a bitmap of the block numbers below 256 that its names show. |
| `ShardSplit.SplitMeans` | Src/ML_Engine/gguf_model_manager.rs:1012-1218 | The same of the split as a function: errors, tensors, range and bitmap by literal names. |
| `Shards.LoadCommutesWithSplit` | Src/ML_Engine/gguf_model_manager.rs:1012-1218 | For s <= a <= b <= e, loading [a,b] from the shard [s,e] is loading [a,b] from the complete file: same parts or same error, weight tying included. |
| `Shards.LoadableSplits` | Src/ML_Engine/gguf_model_manager.rs:1096-1105 | A range with a layer that loads can be split off. |
| `Shards.EveryTensorOnce` | Src/ML_Engine/gguf_model_manager.rs:1056-1092 | Over consecutive shards every layer tensor is in exactly one, except a tied embedding, which is in exactly the first and the last. |
| `Shards.StrayTensorDropped` | Src/ML_Engine/gguf_model_manager.rs:1056-1092 | A tensor that belongs to no layer is in no shard. |
| `Shards.AnalyzeBitmap` | Src/ML_Engine/gguf_model_manager.rs:592-604 | The loops over all names give the bitmap of blocks below the block count that some name shows. |
| `Shards.ShardShows` | Src/ML_Engine/gguf_model_manager.rs:1141-1155 | A shard shows exactly the blocks of its layers that have tensors, whatever other names the file holds. |
| `Shards.SplitShows` | Src/ML_Engine/gguf_model_manager.rs:1141-1155 | The bitmap that a split writes shows exactly the blocks of its layers that have tensors. |
| `Shards.BitmapsDisjoint` | Src/ML_Engine/gguf_model_manager.rs:1141-1155 | Shards of ranges that do not meet have bitwise disjoint bitmaps, for all files. |
| `Shards.BitmapsUnite` | Src/ML_Engine/gguf_model_manager.rs:1141-1155 | The bitmaps of consecutive shards OR to the bitmap of the complete file exactly when no block is shown only by names in another form than its prefix; they never show more. |
| `Shards.MisnamedBlock` | Src/ML_Engine/gguf_model_manager.rs:592-604 | Such a file: its only tensor counts as block 0 and no shard selects it. |
| `Shards.NodeIsPart` | Src/ML_Engine/gguf_model.rs:364-580 | If the file loads, every range splits off, its shard loads, and the node runs exactly that part of the model. |
| `Shards.ShardedPipelineEqualsModel` | Src/ML_Engine/gguf_model.rs:364-580 | End to end: split anywhere, load every shard on its own node, chain the nodes: all results and caches over every run of calls are those of the file loaded whole. |
| `Bitmaps.Set` | Src/ML_Engine/gguf_model_manager.rs:532 | Setting a bit adds exactly that layer. |
| `Bitmaps.BuildLayerBitmap` | Src/ML_Engine/gguf_model_manager.rs:522-537 | One bit per block that is present and below the block count and 256. |
| `Bitmaps.LayersDetermine` | Src/ML_Engine/gguf_model_manager.rs:522-537 | Two bitmaps with the same layers are the same 32 bytes. |
| `Bitmaps.ToHex` | Src/ML_Engine/gguf_model_manager.rs:852-858 | 64 digits, two per byte in order. |
| `Bitmaps.ParseBitmapHex` | Src/ML_Engine/gguf_model_manager.rs:861-870 | After trimming, each byte is read on its own; what cannot be read is 0. |
| `Bitmaps.Deserialize` | Src/PeerManagement/peer_info.rs:38-49 | It succeeds exactly for 64 characters that are 32 readable bytes, with those bytes; otherwise the error names the length or the first byte that cannot be read. |
| `Bitmaps.HexRoundTrip` | Src/PeerManagement/peer_info.rs:33-49 | Every reader gets back the bytes that were written. |
| `Bitmaps.HexDigitsMean` | Src/ML_Engine/gguf_model_manager.rs:852-870 | Digits are written in lower case and read in either, with their value. |
| `Bitmaps.ByteMeans` | Src/ML_Engine/gguf_model_manager.rs:861-870 | Two digits stand for sixteen times the first and the second. |
| `Bitmaps.TrimMeans` | Src/ML_Engine/gguf_model_manager.rs:861-863 | Trimming takes white space off both ends and nothing else. |
| `LayerText.MergeRuns` | Src/PeerManagement/peer_info.rs:64-80 | The loop turns an increasing list into its maximal runs. |
| `LayerText.LayerRange` | Src/PeerManagement/peer_info.rs:53-87 | "none" for an empty bitmap, else the maximal runs of its layers. |
| `LayerText.BitmapHexToLayerRange` | Src/TUI/mod.rs:369-409 | Nothing for a short, unreadable or empty text, else the maximal runs. |
| `LayerText.RunsAreUnique` | Src/PeerManagement/peer_info.rs:53-87 | A set of layers has only one form as maximal runs. |
| `LayerText.PrintersAgree` | Src/TUI/mod.rs:369-409 | The terminal prints, from the hexadecimal text, what the peer table prints from the bitmap, for every non-empty bitmap. |
| `LayerText.RangeTextDecodes` | Src/PeerManagement/peer_info.rs:53-87 | The printed pieces read back as runs that hold exactly the layers of the bitmap. |
| `LayerText.DashIff` | Src/PeerManagement/peer_info.rs:72-85 | A single layer is written without a dash, a longer run with one. |
| `PggufLayout.SizeIsEmittedLength` | Src/ML_Engine/gguf_model_manager.rs:789-831 | The recursive size of a metadata value is the number of bytes the writer emits for it, nested arrays included. |
| `PggufLayout.MetaEndIsLength` | Src/ML_Engine/gguf_model_manager.rs:739-744 | The recomputed end of the metadata is the length of header and metadata as written. |
| `PggufLayout.FieldPositionIsPlaceholder` | Src/ML_Engine/gguf_model_manager.rs:739-754 | Each recomputed field position is where the placeholder of that tensor was written. |
| `PggufLayout.PatchSetsField` | Src/ML_Engine/gguf_model_manager.rs:759-764 | A patch at a recomputed position changes that 8-byte field and nothing else. |
| `PggufLayout.OffsetsAligned` | Src/ML_Engine/gguf_model_manager.rs:759-764 | Recorded offsets are multiples of 32. |
| `PggufLayout.OffsetsDisjoint` | Src/ML_Engine/gguf_model_manager.rs:759-764 | Recorded tensors never overlap and non-empty ones have strictly increasing offsets. |
| `PggufLayout.OffsetsMatchIff` | Src/ML_Engine/gguf_model_manager.rs:759-776 | The recorded offsets are the source offsets exactly when the source is packed in the order of the list, each tensor padded to 32 bytes. |
| `PggufConversion.TensorKeptIff` | Src/ML_Engine/gguf_model_manager.rs:759-776 | Reading a tensor from the converted file gives what reading it from the source gives, failures included and whatever the data, exactly when it is empty, its recorded offset leads to where it was copied, or neither file has all its bytes. |
| `PggufConversion.ConversionKeepsTensors` | Src/ML_Engine/gguf_model_manager.rs:671-776 | Of a source that holds its tensors, with the default alignment: the conversion keeps all of them exactly when the source lays them in name order with 32-byte padding. |
| `PggufConversion.ConvertedFileKeepsTensor` | Src/ML_Engine/gguf_model_manager.rs:671-776 | Of the written file itself: each tensor of such a source reads as it did from the source. |
| `PggufConversion.AlignmentKeepsTensorsIff` | Src/ML_Engine/gguf_model_manager.rs:726-732 | Whatever alignment the copied metadata names, a packed source keeps its tensors exactly when reader and writer agree where the data starts. |
| `PggufConversion.OtherAlignmentShifts` | Src/ML_Engine/gguf_model_manager.rs:726-732 | With an alignment of 64 they disagree by 32 bytes whenever the infos end in the first half of a block of 64. |
| `PggufConversion.ReorderedConversionLosesData` | Src/ML_Engine/gguf_model_manager.rs:671-776 | Two tensors stored in the other order than their names each get the bytes of the other. |
| `PggufConversion.UnpaddedConversionLosesData` | Src/ML_Engine/gguf_model_manager.rs:759-776 | Of two 8-byte tensors stored side by side the second is recorded past the end of the file. |
| `PggufReader.ValueAt` | Src/ML_Engine/gguf_model_manager.rs:807-831 | A metadata value is read back from where it was written by the type tag of the format: signed integers, texts and nested arrays included. |
| `PggufReader.InfoAt` | Src/ML_Engine/gguf_model_manager.rs:690-724 | A tensor info is read back with its name, its dimensions turned round again, its dtype by the code of the format and its offset. |
| `PggufReader.ElementsAreProduct` | Src/ML_Engine/gguf_model_manager.rs:717 | The number of elements is the product of the dimensions. |
| `PggufReader.NextRecorded` | Src/ML_Engine/gguf_model_manager.rs:759-764 | The next tensor is recorded at the first multiple of 32 behind the bytes of this one: product of the dimensions over block size times type size. |
| `PggufReader.AlignmentMeans` | Src/ML_Engine/gguf_model_manager.rs:726-732 | A reader takes the alignment of the last entry `general.alignment`, and 32 when there is none. |
| `PggufReader.WrittenFileReads` | Src/ML_Engine/gguf_model_manager.rs:640-780 | A reader that works from the bytes (magic, version, both counts, tagged entries, infos, data start) finds in the written file the metadata, the names, dimensions and dtypes, offsets that start at 0 and follow each other, and the data. |
| `PggufWriter.SeekWriter.WriteAll` | Src/ML_Engine/gguf_model_manager.rs:649-650 | Bytes are overwritten at the position, the file growing as needed. |
| `PggufWriter.WriteInfos` | Src/ML_Engine/gguf_model_manager.rs:690-724 | Tensor infos with placeholder offsets; fails at the first unsupported dtype. |
| `PggufWriter.OffsetPositions` | Src/ML_Engine/gguf_model_manager.rs:734-754 | The second pass recomputes the position of every offset field. |
| `PggufWriter.PatchOffsets` | Src/ML_Engine/gguf_model_manager.rs:759-764 | All placeholders become the recorded offsets, nothing else changes. |
| `PggufWriter.CopyTensorData` | Src/ML_Engine/gguf_model_manager.rs:766-776 | Everything from the tensor data offset to the end of the source is appended. |
| `PggufWriter.TensorsInOrder` | Src/ML_Engine/gguf_model_manager.rs:671-673 | The tensors are written in bytewise name order, and are those of the source. |
| `PggufWriter.LexMeans` | Src/ML_Engine/gguf_model_manager.rs:669-673 | The order is bytewise: where two texts part, the lesser has ended or has the lesser byte. |
| `PggufWriter.MetadataInOrder` | Src/ML_Engine/gguf_model_manager.rs:653-669 | The metadata is written in key order: that of the source with small integers widened, and the two entries added. |
| `PggufWriter.NormalizedIsWidened` | Src/ML_Engine/gguf_model_manager.rs:653-666 | Integers of 8 and 16 bits keep their number in 32 bits of the same sign; every other value and every key is kept. |
| `PggufWriter.OutputMeans` | Src/ML_Engine/gguf_model_manager.rs:653-669 | The output metadata is the source metadata so widened and the two entries `pleiades.model_id` and `pleiades.layer_bitmap`. |
| `PggufWriter.OutputIgnoresMapOrder` | Src/ML_Engine/gguf_model_manager.rs:671-673 | The order in which the tensors come out of their hash map does not show. |
| `PggufWriter.StreamingWritePgguf` | Src/ML_Engine/gguf_model_manager.rs:640-780 | The two passes leave the file a writer knowing the offsets beforehand would write; the call fails exactly when a dtype is not supported. When numbers and sizes fit their fields, a reader of the bytes finds the widened metadata with the two added entries, the tensors in name order with offsets that follow each other, and the data of the source. |
| `StorageIndex.RunKeepsExclusion` | Src/Storage/storage_manager.rs:223-301 | Over every run of all operations, one-step and two-step acquires mixed: each live guard holds the lock indexed under its file in every state exactly when no Exists drops a guarded entry and no waiting call is granted a lock that is no longer the one of its file; then no writer coexists with another guard. |
| `StorageIndex.StepKeepsInvIff` | Src/Storage/storage_manager.rs:223-329 | Of all nine events only Exists and the grant of a waited-for lock can break the invariant, and each does exactly in its unsafe case. |
| `StorageIndex.EndKeepsInvIff` | Src/Storage/storage_manager.rs:223-257 | The grant of a lock that was looked up earlier keeps the invariant exactly when it is still the lock of its file. |
| `StorageIndex.StaleOnlyByRemoval` | Src/Storage/storage_manager.rs:223-257 | What a waiting call looked up goes stale only when the entry of its file leaves the index. |
| `StorageIndex.StaleStaysStale` | Src/Storage/storage_manager.rs:223-257 | Once stale it stays stale, whatever happens, until the lock is granted. |
| `StorageIndex.ExistsKeepsInvIff` | Src/Storage/storage_manager.rs:303-329 | Exists keeps the invariant exactly when it does not drop an entry that has a live guard. |
| `StorageIndex.ExistsBreaksExclusion` | Src/Storage/storage_manager.rs:303-329 | A run in which Exists leads to two writers on one file. |
| `StorageIndex.TwoStepAcquireBreaksExclusion` | Src/Storage/storage_manager.rs:223-257 | A run in which lookup and grant as two steps lead to two writers on one file. |
| `StorageIndex.AcquireIsBeginThenEnd` | Src/Storage/storage_manager.rs:223-257 | The one-step acquire is the two halves with nothing between. |
| `StorageIndex.ResolveMeans` | Src/Storage/storage_manager.rs:90-101 | Just the names resolve that are not empty, not hidden, without separators and without two dots in a row; the empty one is not found, the others are errors. |
| `StorageIndex.ScannedThenCleaned` | Src/Storage/storage_manager.rs:368-500 | The two phases of a flush give exactly the reconciled index: visible disk files with disk sizes, plus held entries without a file; survivors keep their lock. |
| `StorageIndex.FlushCountsBalance` | Src/Storage/storage_manager.rs:368-500 | discovered and cleaned are the exact counts, and the index changes size by their difference. |
| `StorageIndex.FlushIdempotent` | Src/Storage/storage_manager.rs:368-500 | A second flush on the same disk and locks finds and drops nothing. |
| `StorageManager.Manager.AcquireRead` | Src/Storage/storage_manager.rs:223-231 | The name errors and NotFound; otherwise the file has an entry, a new one with the size on disk, and the call succeeds exactly when no writer guards the file. The guard handed out is on this file, for reading, on the indexed lock, and new. The call is one step and keeps the invariant. |
| `StorageManager.Manager.AcquireWrite` | Src/Storage/storage_manager.rs:233-257 | The name errors; otherwise the file has an entry, a new one with size 0, and the call succeeds exactly when nobody guards the file. The guard handed out is on this file, for writing, on the indexed lock, and new. The call is one step and keeps the invariant. |
| `StorageManager.Manager.LookUpLock` | Src/Storage/storage_manager.rs:223-236 | First half of an acquire that waits: the name errors and NotFound, the entry found or made, and the lock of that entry to wait for; no guard yet. |
| `StorageManager.Manager.TakeLock` | Src/Storage/storage_manager.rs:226-236 | Second half: a guard on the looked-up lock exactly when that lock is free for it, whatever the index says; the invariant survives exactly when the lock was not stale. |
| `StorageManager.Manager.ReleaseGuard` | Src/Storage/storage_manager.rs:238-250 | The guard is gone and no other; a writer refreshes the size of its entry from the disk when the index is free and the file is there, and nothing else changes. |
| `StorageManager.Manager.RemoveFile` | Src/Storage/storage_manager.rs:259-301 | InUse exactly when the file is indexed and guarded, Io for a directory under an indexed name; after Ok the name is not in the index and no file on disk, and every other file is as it was. |
| `StorageManager.Manager.FileExists` | Src/Storage/storage_manager.rs:303-329 | For an allowed name the answer is Ok(true) exactly when it is indexed and present on disk; an indexed name without a file leaves the index, and nothing else changes. |
| `StorageManager.Manager.ScanDisk` | Src/Storage/storage_manager.rs:372-470 | Phase 1 visits every visible file once, refreshing sizes and adding entries. |
| `StorageManager.Manager.CleanZombies` | Src/Storage/storage_manager.rs:472-495 | Phase 2 drops exactly the entries without a file whose lock is free. |
| `StorageManager.Manager.Flush` | Src/Storage/storage_manager.rs:368-500 | Afterwards the index has the listed files with their sizes and of the others those in use; locks stay, the counts are those of the files found and dropped, and the invariant is kept. |
| `RequestResponse.RunKeepsInv` | Src/Network/swarm_events.rs:172-276 | The invariant of waiters, ids, reply channels, wire and answers holds in every state of every run of any number of nodes. |
| `RequestResponse.WaitersGetTheirOwnAnswer` | Src/Network/swarm_events.rs:172-276 | A waiting sender is told at most one thing; an answer is the reply to its own request by the node that was asked: the built-in OK for Data and Info, else what was sent for the id of that request; at a stopped node every sender has been told. |
| `RequestResponse.InboundIdsFresh` | Src/Network/Request_Response/inbound.rs:76-99 | An inbound id is never given out twice. |
| `RequestResponse.TakenStaysTaken` | Src/Network/Request_Response/inbound.rs:110-116 | A reply channel is taken at most once; a later answer for its id does nothing. |
| `RequestResponse.RepliesAreFinal` | Src/Network/command_handler.rs:67-79 | A request is answered at most once. |
| `RequestResponse.NothingPendingAfterStop` | Src/Network/command_handler.rs:80-100 | After Stop nothing is pending at the node, ever. |
| `RequestResponse.StepIsLocal` | Src/Network/swarm_events.rs:172-276 | Every step touches what is pending at its own node only. |
| `RequestProgress.RequestIsCarried` | Src/Network/swarm_events.rs:172-256 | What was sent is what is on the wire, for the node it was sent to, until it is delivered; its sender goes on waiting unless the request fails or the sender stops. |
| `RequestProgress.ChannelIsKept` | Src/Network/Request_Response/inbound.rs:76-116 | A forwarded request keeps its reply channel until it is answered or the node stops. |
| `RequestProgress.ReplyIsCarried` | Src/Network/command_handler.rs:67-79 | A reply stays on the wire as it is until it is delivered. |
| `RequestProgress.CommandIsAnswered` | Src/Network/command_handler.rs:20-79 | A Command or File that is sent, forwarded, answered and whose answer is delivered: the peer saw the message sent, and the sender is told exactly the answer given, once and for good, whatever else happens short of a failure or a stop. |
| `RequestProgress.DataIsAnswered` | Src/Network/swarm_events.rs:180-253 | A Data or Info that is sent and delivered: the sender is told the text OK of the same type, once and for good. |
| `RequestProgress.OutcomeIsFinal` | Src/Network/Request_Response/outbound.rs:65-93 | What a sender was told stays the only thing it is told. |
| `RequestProgress.FailureIsTold` | Src/Network/swarm_events.rs:264-273 | A request that fails tells its waiting sender so. |
| `RequestProgress.StopIsTold` | Src/Network/Request_Response/outbound.rs:89-93 | A node that stops tells each of its waiting senders so. |
| `NetworkService.OutboundManager.RegisterOutbound` | Src/Network/Request_Response/outbound.rs:50-56 | The waiter is stored under the outbound id. |
| `NetworkService.OutboundManager.Route` | Src/Network/Request_Response/outbound.rs:65-84 | The waiter of the id, if any, is removed and told. |
| `NetworkService.OutboundManager.ClearAll` | Src/Network/Request_Response/outbound.rs:89-93 | Every waiter is told and none is left. |
| `NetworkService.InboundManager.RegisterInbound` | Src/Network/Request_Response/inbound.rs:76-99 | The next id is used, and kept with its channel if forwarding succeeds. |
| `NetworkService.InboundManager.TakeReplyChannel` | Src/Network/Request_Response/inbound.rs:110-116 | The channel is removed and returned. |
| `NetworkService.Service.HandleSendData` | Src/Network/command_handler.rs:20-30 | The next outbound id; the message is on the wire for that peer under it, and the caller is registered under it if it waits. |
| `NetworkService.Service.HandleBuiltIn` | Src/Network/swarm_events.rs:180-253 | A Data or Info is answered with the text OK of its own type, which is on the wire when the send succeeds; the orchestrator is not involved. |
| `NetworkService.Service.HandleForwardedRequest` | Src/Network/swarm_events.rs:254-256 | The next inbound id; the reply channel is kept under it exactly when forwarding succeeded. |
| `NetworkService.Service.HandleSendResponse` | Src/Network/command_handler.rs:67-79 | The reply channel of the id is taken, if there is one; then, when the send succeeds, exactly the message given is on the wire as the reply to that request. |
| `NetworkService.Service.HandleOutcome` | Src/Network/swarm_events.rs:259-273 | The waiter of the outbound id is taken and told this one outcome; without a waiter nothing changes. |
| `NetworkService.Service.HandleStop` | Src/Network/command_handler.rs:80-99 | Both maps are empty afterwards, and every waiter left has been told that the service stopped. |
| `Rendezvous.RunKeepsInv` | Src/Network/Tensor_Stream/rendezvous.rs:38-72 | In every run no id is both stored and awaited, the store holds exactly the streams recorded as stored, and no receiver gets two streams or one of another id. |
| `Rendezvous.StreamsConserved` | Src/Network/Tensor_Stream/rendezvous.rs:44-72 | Every inserted stream is stored, delivered once, replaced or sent to a dead receiver, and all but the first are final. |
| `Rendezvous.PairMeets` | Src/Network/Tensor_Stream/rendezvous.rs:44-72 | With one insert and one accept of an id, no notifier and no timeout, they meet whatever the order and whatever happens to other ids. |
| `Rendezvous.FreshPairMeets` | Src/Network/Tensor_Stream/rendezvous.rs:44-72 | The same from a fresh map. |
| `Rendezvous.SessionGetsStream` | Src/Network/Tensor_Stream/rendezvous.rs:38-50 | A live session that registered for an id gets the next stream of that id, whatever else happens, and keeps it. |
| `Rendezvous.RendezvousMap.Insert` | Src/Network/Tensor_Stream/rendezvous.rs:44-58 | A registered session first, then a waiting acceptor, then the store: who is taken out of which map, and where the stream is then. |
| `Rendezvous.RendezvousMap.Accept` | Src/Network/Tensor_Stream/rendezvous.rs:61-72 | A fresh receiver that already holds the stream stored under the id, which leaves the store, or is registered for the next one. |
| `LocalStreams.RunKeepsInv` | Src/Orchestrator/local_tensor_stream/mod.rs:29-111 | With every lock section a step of its own, each remote end is in exactly one place in every state of every run, and both maps agree with the places. |
| `LocalStreams.ReturnedAtMostOnce` | Src/Orchestrator/local_tensor_stream/mod.rs:29-111 | In any run a remote end is returned by at most one accept, and only by one of the same id. |
| `LocalStreams.AcceptedIsFinal` | Src/Orchestrator/local_tensor_stream/mod.rs:51-111 | A call that returned a stream keeps that answer. |
| `LocalStreams.BothSidesOnlyAfterOverlap` | Src/Orchestrator/local_tensor_stream/mod.rs:29-48 | An id is in both maps only if an open and an accept_async on it were between their sections at the same time earlier in the run. |
| `LocalStreams.OverlapLeavesBothSides` | Src/Orchestrator/local_tensor_stream/mod.rs:75-95 | Such a run exists: the acceptor waits while the stream is stored. |
| `LocalStreams.PairMeets` | Src/Orchestrator/local_tensor_stream/mod.rs:29-111 | An open and an accept_async on an id nobody else uses pair, in either order and whatever happens to other ids, exactly when they do not overlap; after an overlap the stream stays stored beside the registered acceptor. |
| `LocalStreamsCleanup.StepServes` | Src/Orchestrator/local_tensor_stream/mod.rs:75-111 | Short of its own timeout, a waiting call with a sender loses it exactly to a cleanup or a registration of another call under its id before anything was sent to it. |
| `LocalStreamsCleanup.ServedUnlessDisplaced` | Src/Orchestrator/local_tensor_stream/mod.rs:75-111 | Over every run without its own timeout, such a call still has a sender or has returned a stream exactly when no such event occurred; otherwise it has failed or waits in vain. |
| `LocalStreamsCleanup.LateCleanupFailsAnother` | Src/Orchestrator/local_tensor_stream/mod.rs:101-109 | Such a run: the cleanup of a timed-out call unregisters a later call, which then fails. |
| `LocalStreamsCleanup.HandedIsReturned` | Src/Orchestrator/local_tensor_stream/mod.rs:29-111 | A stream that an open hands to a waiting call is what that call returns, for good, when it receives before its timeout, whatever happens in between. |
| `LocalStreamsCleanup.UnservedCallsEnd` | Src/Orchestrator/local_tensor_stream/mod.rs:51-111 | Calls that nobody serves end: a poll gives up, a call whose sender is gone fails, and a timeout ends the wait. |
| `LocalStreams.LocalStreamHub.NotifyWaiting` | Src/Orchestrator/local_tensor_stream/mod.rs:31-39 | First section of open. |
| `LocalStreams.LocalStreamHub.Store` | Src/Orchestrator/local_tensor_stream/mod.rs:41-47 | Second section of open. |
| `LocalStreams.LocalStreamHub.TakePending` | Src/Orchestrator/local_tensor_stream/mod.rs:77-84 | First section of accept_async. |
| `LocalStreams.LocalStreamHub.Register` | Src/Orchestrator/local_tensor_stream/mod.rs:87-91 | Second section of accept_async. |
| `LocalStreams.LocalStreamHub.Unregister` | Src/Orchestrator/local_tensor_stream/mod.rs:102-107 | Section of accept_async after a timeout. |
| `LocalStreams.LocalStreamHub.PollPending` | Src/Orchestrator/local_tensor_stream/mod.rs:54-63 | One round of the loop of accept. |
| `Ranking.ChosenAreBest` | Src/ML_Engine/GGUF_Models/deepseek_v4/moe.rs:66-71 | The k chosen are distinct, in order of score with ties to the lower number, and better than everything not chosen. |
| `Moe.WeightsAddUp` | Src/ML_Engine/GGUF_Models/deepseek_v4/moe.rs:75-80 | Weights of the scores that are normalised add up to the route scale. |
| `MoeMeaning.ExpertsAreChoice` | Src/ML_Engine/GGUF_Models/deepseek_v4/moe.rs:66-71 | The experts of a token, min(topk, experts) of them: best first by score plus bias, ties to the lower number, none left out that would go before. |
| `MoeMeaning.ChoiceIsUnique` | Src/ML_Engine/GGUF_Models/deepseek_v4/moe.rs:66-71 | Only one list of experts is that choice. |
| `MoeMeaning.WeightsAreShares` | Src/ML_Engine/GGUF_Models/deepseek_v4/moe.rs:75-80 | Softmax weights are score times route scale; the others are the part of the route scale that their score is of all scores chosen, without bias. |
| `MoeMeaning.ShareIsQuotient` | Src/ML_Engine/GGUF_Models/deepseek_v4/moe.rs:78-79 | Being such a part fixes the weight as score / total * scale. |
| `Moe.Route` | Src/ML_Engine/GGUF_Models/deepseek_v4/moe.rs:62-72 | Row by row the flat buffers hold the chosen experts by biased score and their unbiased scores. |
| `MoeDispatch.Collect` | Src/ML_Engine/GGUF_Models/deepseek_v4/moe.rs:142-152 | The scan over all slots collects exactly the entries of the expert, token by token; it runs off the buffers exactly when they are too short. |
| `MoeDispatch.IndexAdd` | Src/ML_Engine/GGUF_Models/deepseek_v4/moe.rs:158 | Each row gains the outputs of the entries of its token. |
| `MoeDispatch.EntriesAdd` | Src/ML_Engine/GGUF_Models/deepseek_v4/moe.rs:142-158 | Adding the outputs of one expert gives each token the terms of its slots that name the expert. |
| `MoeDispatch.AllCounted` | Src/ML_Engine/GGUF_Models/deepseek_v4/moe.rs:142-152 | When every slot names an expert, tokens times k rows are dispatched. |
| `MoeDispatch.Dispatch` | Src/ML_Engine/GGUF_Models/deepseek_v4/moe.rs:141-159 | Whatever the slots hold, grouping by expert gives each token exactly the sum over its own slots; with fewer slots than are read it fails as soon as there is an expert. |
| `MoeDispatch.RouteAll` | Src/ML_Engine/GGUF_Models/deepseek_v4/moe.rs:47-82 | The buffers hold for every token its preferred experts, best first, by score plus bias with ties to the lower number. With softmax a weight is the score of its expert times the route scale, otherwise its part of the route scale by score. |
| `MoeDispatch.Forward` | Src/ML_Engine/GGUF_Models/deepseek_v4/moe.rs:134-162 | Every token gets the sum of its preferred experts with those weights and of the shared expert, and every slot is dispatched once. It runs off its buffers exactly when topk exceeds the number of experts scored, with a token and an expert there. |
| `MoeDispatch.SlotsInRangeIff` | Src/ML_Engine/GGUF_Models/deepseek_v4/moe.rs:137-147 | The slots the scan reads all exist exactly when topk is at most the number of experts. |
| `SparseMask.WindowTopkIdxs` | Src/ML_Engine/GGUF_Models/deepseek_v4/sparse.rs:34-45 | The filled table, row by row. |
| `SparseMask.CompressTopkIdxs` | Src/ML_Engine/GGUF_Models/deepseek_v4/sparse.rs:47-55 | The filled table, row by row. |
| `SparseMask.Select` | Src/ML_Engine/GGUF_Models/deepseek_v4/sparse.rs:126-140 | Each row of the flat output is the selection of its query. |
| `SparseMask.Scatter` | Src/ML_Engine/GGUF_Models/deepseek_v4/attention.rs:65-77 | A mask row is open exactly at the indices of its table row that are in range. |
| `SparsePrefill.WindowRowMeans` | Src/ML_Engine/GGUF_Models/deepseek_v4/sparse.rs:34-45 | The window row of query i names exactly the keys j with i - window < j <= i, each once. |
| `SparsePrefill.BlockRowMeans` | Src/ML_Engine/GGUF_Models/deepseek_v4/sparse.rs:47-55 | The block row of query i names exactly the blocks whose last position is at most i. |
| `SparsePrefill.SelectedRowMeans` | Src/ML_Engine/GGUF_Models/deepseek_v4/sparse.rs:127-139 | The indexer keeps only visible blocks: the min(k, visible) best ones. |
| `SparsePrefill.SelectedBestFirst` | Src/ML_Engine/GGUF_Models/deepseek_v4/sparse.rs:127-139 | The blocks kept come before the -1 entries, better scores first, ties to the lower number. |
| `SparsePrefill.ChosenAreKept` | Src/ML_Engine/GGUF_Models/deepseek_v4/sparse.rs:127-139 | The blocks kept are the indexTopk best of those complete by the query, or all of them. |
| `SparsePrefill.PrefillMask` | Src/ML_Engine/GGUF_Models/deepseek_v4/attention.rs:161-185 | Row by row the mask opens exactly the last `window` keys up to the query and, of the compressed blocks, those complete by then: all of them, or the best indexTopk by score. |
| `SparsePrefill.MaskIsExact` | Src/ML_Engine/GGUF_Models/deepseek_v4/attention.rs:161-185 | Key j is open for query i iff i - window < j <= i; block columns are open exactly as selected and only for blocks that end at or before i; keys and blocks share no column. |
| `SparsePrefill.SeesItself` | Src/ML_Engine/GGUF_Models/deepseek_v4/attention.rs:59-80 | With a non-empty window every query sees itself. |
| `TensorCodec.TensorToBytes` | Src/ML_Engine/lua_tensor.rs:51-91 | The encoding, or the error for an empty shape, a zero dimension or another dtype. |
| `TensorCodec.BytesToTensor` | Src/ML_Engine/lua_tensor.rs:96-135 | The tensor in the bytes, or what is wrong with them: which of the four errors arises for which bytes, and which dtype byte stands for which dtype. |
| `TensorCodec.TensorRoundTrip` | Src/ML_Engine/lua_tensor.rs:51-135 | Decoding an encoding gives the tensor back. |
| `TensorCodec.DecodedIsCanonical` | Src/ML_Engine/lua_tensor.rs:96-135 | Whatever decodes is a valid tensor whose only encoding is the given bytes. |
| `TensorCodec.EncodingBytes` | Src/ML_Engine/lua_tensor.rs:51-91 | The dtype byte is 0 for F32 and 1 for U32, and each element is its four bytes, lowest first, at its place behind the dimensions. |
| `TensorCodec.ProductMeans` | Src/ML_Engine/lua_tensor.rs:111 | A shape has no element just when a dimension is 0, and one when all are 1. |
| `TensorStream.TensorBuffer.MakeRoom` | Src/Network/Tensor_Stream/protocol.rs:80-84 | The buffer has exactly the length asked for, keeping a prefix and filling with zeros. |
| `TensorStream.SendTensorFrame` | Src/Network/Tensor_Stream/protocol.rs:122-150 | What is appended is eight bytes of offset and eight of length, lowest first, and the data. |
| `TensorStream.ReceiveTensorFrame` | Src/Network/Tensor_Stream/protocol.rs:164-208 | The buffer holds exactly the data of the frame, whatever was in it before; which of the two errors arises for which bytes. |
| `TensorStream.FrameRoundTrip` | Src/Network/Tensor_Stream/protocol.rs:122-208 | A frame followed by anything is received as itself exactly when it is within the limit and not the end mark. |
| `TensorStream.NodeFrameFits` | Src/Network/Tensor_Stream/protocol.rs:40-208 | Between nodes a frame is received as itself exactly up to 536870912 bytes, unless it is the end mark. |
| `TensorStream.EndMarkBytes` | Src/Network/Tensor_Stream/protocol.rs:35-37 | The end mark is eight bytes 255 and eight bytes 0. |
| `TensorStream.ReceiveSession` | Src/Orchestrator/local_tensor_stream/frames.rs:34-53 | The receiving loop over one reused buffer returns the messages up to the end mark or the first failure. |
| `TensorStream.SessionRoundTrip` | Src/Orchestrator/local_tensor_stream/frames.rs:16-65 | Any sequence of sendable tensors followed by the end mark is read back as the same sequence and then the end. |
| `TensorStream.Session` | Src/Network/Tensor_Stream/protocol.rs:122-224 | End to end over one stream and one buffer: the same tensors and offsets in order, then the end. |
| `RangeMerge.MergeRanges` | Src/VM/capability_binding.rs:535-572 | For any ranges: the proper ones come out sorted and disjoint, cover the same layers with the same links, hold every proper input range, and carry the file of a widest member; a reversed one comes out as it was unless a proper range has its start layer. |
| `RangeMerge.MergeBlock` | Src/VM/capability_binding.rs:543-558 | The inner loop: the block is one reversed range, or is filled without a gap by its proper ranges, carries the file of a widest one, and ends before the next range starts. |
| `RangeMerge.PlacedOnce` | Src/VM/capability_binding.rs:535-572 | No range is inside two merged ranges. |
| `RangeMerge.MergeIsUnique` | Src/VM/capability_binding.rs:535-572 | The merged ranges depend only on the layers and links of the input, so not on its order. |
| `RangeMerge.MergeIgnoresOrder` | Src/VM/capability_binding.rs:535-572 | Two merges of the same ranges in any order have the same proper ranges and the same reversed ones. |
| `RangeMerge.MergeIsIdempotent` | Src/VM/capability_binding.rs:535-572 | Merging again changes nothing, files and reversed ranges included. |
| `PeerRanges.SplitNameParses` | Src/VM/capability_binding.rs:387-401 | The name of a split file gives back its range exactly when both numbers fit 32 bits, whatever the model is called. |
| `PeerRanges.SplitNameWritten` | Src/ML_Engine/gguf_model_manager.rs:1175-1186 | The name of a split file: stem, `_split_`, start, `_`, end, `.pgguf`. |
| `PeerRanges.BitmapRange` | Src/VM/capability_binding.rs:404-414 | The lowest and highest layer of the bitmap. |
| `PeerRanges.WholeModelIff` | Src/VM/capability_binding.rs:418-434 | A file counts as the whole model exactly when its name says so or, without a range in the name, its first and last block are there, or the model has one block and the bitmap is empty. |
| `PeerRanges.PartialRange` | Src/VM/capability_binding.rs:418-434 | Without a range in the name, bits that do not span the model stand for themselves. |
| `PeerRanges.GapGoesUnnoticed` | Src/VM/capability_binding.rs:418-434 | A bitmap with a missing middle block that counts as the whole model. |
| `CommandText.RoundTrip` | Src/Orchestrator/command.rs:157-277 | A command survives the trip iff its strings are free of the separator; otherwise the parser returns an error. |
| `CommandText.AcceptedIsStable` | Src/Orchestrator/command.rs:157-277 | Whatever the parser accepts, written again, parses to the same command. |
| `CommandText.SerializeIsInjective` | Src/Orchestrator/command.rs:241-277 | Two commands with separator-free strings never share a text. |
| `CommandText.WireTexts` | Src/Orchestrator/command.rs:241-277 | The four texts as they stand on the wire, prefix and fields in order. |
| `Decimal.ParseOfText` | Src/Orchestrator/command.rs:173-175 | A number printed in decimal parses back exactly when it fits the type. |
| `Decimal.ParseIff` | Src/Orchestrator/command.rs:173-175 | The accepted texts of n within the type: its digits, with any leading zeros, behind an optional plus sign. |
| `Texts.SplitOfJoin` | Src/Orchestrator/command.rs:159 | Splitting undoes joining when no piece holds the separator. |
| `Texts.JoinOfSplit` | Src/Orchestrator/command.rs:159 | Joining always undoes splitting. |
| `Texts.FirstPieceIff` | Src/Orchestrator/command.rs:159 | The first piece is what stands before the first separator, or all when there is none. |
| `TensorPacket.DtypeRoundTrip` | Src/ML_Engine/gguf_tensor.rs:71-108 | A text reads as a dtype exactly when it is the name of that dtype. |
| `TensorPacket.NamesAreWritten` | Src/ML_Engine/gguf_tensor.rs:71-87 | The thirteen names, written out. |
| `TensorPacket.Utf8Means` | Src/ML_Engine/gguf_tensor.rs:195-253 | The bytes accepted as UTF-8 are exactly the UTF-8 forms of sequences of code points outside the surrogates. |
| `PacketCodec.GgufTensorSerialize` | Src/ML_Engine/gguf_tensor.rs:159-190 | The four fields, each behind its big-endian length. |
| `PacketCodec.GgufTensorDeserialize` | Src/ML_Engine/gguf_tensor.rs:195-253 | The loops read as specified, errors included. |
| `PacketCodec.PacketRoundTrip` | Src/ML_Engine/gguf_tensor.rs:159-253 | A packet is read back from the front of any bytes and ends where it was written to end. |
| `PacketCodec.RoundTripIff` | Src/ML_Engine/gguf_tensor.rs:159-253 | The round trip holds exactly when name and shape lengths fit their 32-bit fields. |
| `PacketCodec.PrefixRefused` | Src/ML_Engine/gguf_tensor.rs:159-253 | Every proper prefix of a packet is refused for want of data. |
| `PacketCodec.SelfDelimiting` | Src/ML_Engine/gguf_tensor.rs:195-253 | An accepted packet fixes its own end: cut before it the packet is refused for want of data, asking for more than is there and no more than the packet has; what follows it is of no account. |

## Left out

- Network, tasks, channels, Lua, the terminal interface, configuration and logging: only the steps their handlers take on their own state are modelled.
- Overflow of `usize` and `u64` lengths, offsets and counters, and the cut of split range and bitmap fields to 32 bits: lengths are unbounded except where a field of the format cuts them.
- Numerical error: sums are over reals, so neither rounding nor NaN scores are modelled.
- The file of saved key/value caches in `Src/ML_Engine/context.rs`: its writer and reader disagree about a length field.
- Incremental decoding of DeepSeek V4: the index tables are built for the cache length and broadcast to the query length, so only the prefill is modelled, with at least one token and one sequence.
- Scores of compressed blocks, pooled keys and the attention sink of DeepSeek V4: parameters of the mask.
- `route_hashed` and `forward_hashed`: the same dispatch on slots from a table; `MoeDispatch.Dispatch` covers any slots.
- The mixture-of-experts variant of Qwen3 blocks: its layers have other weights; loading is modelled for the plain blocks.
- Building weights from tensors (dequantisation, operator construction): arbitrary functions, taken to succeed.
- Model ids, checksums, the conversion of models in the middle of a flush, and splitting a file that is already split.
- The order in which a split file writes its tensors and metadata, and the metadata that loading does not read.
- UTF-8 decoding of command payloads: commands are texts; a payload that is not UTF-8 is refused before the modelled part.
- Hexadecimal texts with characters of more than one byte, on which slicing by bytes can fail.
- Grouping ranges by peer: the merge is modelled for the ranges of one peer.
- RangeMerge.MergeIsIdempotent: of equal reversed ranges with different files it states that they come out again, not in which order.
- PggufWriter.StreamingWritePgguf: what a reader finds is stated for numbers and lengths that fit their fields and arrays of one element type, as every value read from a GGUF file is.
- LocalStreams.PairMeets: leaves out timeouts of the acceptor; a stream sent just before the receiver is dropped is lost, which the steps do model.
