# Robot station models

Machine-checked models of the parts of this repository where several pieces of code must agree with
each other:

- **SmolVLA cached attention** (`PrefixEmbedding`, `CachedAttention`, `CacheCorrectness`,
  `InferenceReference`, `ExpertPlacement`, `PaddedPrefix`, `ActionSampling`, `ActionDataset`). Training runs
  prefix and suffix through the two transformers in one pass; inference fills a key/value cache from the prefix
  and then runs only the suffix, once per Euler step. Weights, norms, rotary embedding, MLPs, the residual
  addition and the attention kernel are arbitrary functions, so the results hold for every model. Main results:
  for any number of VLM and expert layers, both attention modes, any padding with an unpadded token and any
  prefix and suffix, the cached pass returns the joint pass's suffix and leaves the cache alone, unless the
  configuration makes it fail, which is described exactly; both passes compute a reference written token by
  token from the model's own functions, without cache, masks or concatenation; and the in-place sampling loop is
  an Euler run of that reference from time 1 down to 0.
- **Gremlin protobuf codec, Go and Python** (`Varint`, `WireReader`, `GoReader`, `MessageSize`, `Utf8Text`,
  `WireWriter`, `WireRoundTrip`, `MessageTree`, `LostStrings`). All varint writers emit the same bytes, both
  size functions give their number, the two decoders agree except on one exactly described family of
  buffers, Python's skipping ends on every buffer, both readers skip every well-formed field to exactly its
  end, the size pass is compared with the write pass, and a message tree written by either half is read back
  to the bottom, except for the Python trees that are exactly described.
- **VE.Direct demultiplexer** (`HexProtocol`, `VeDirect`, `VeDirectText`). Hex frames interleaved with text
  blocks disturb neither; printed blocks and built commands come out as themselves.
- **ST3215 servo bus** (`Calibration`, `ServoFreeze`, `BusScan`, `BusRuns`, `BusLaws`). The arc of a set of
  readings on a ring of 4096 ticks, the offset and frozen bounds made from it, what every tick of the scan worker
  reports and remembers of every motor, and safety over whole runs with its EEPROM cache and its grace window.
- **Watchdog daemon and chunked line reader** (`Watchdog`, `LineReader`). A timed machine with a one-way
  latch whose calls are told by its past, and a reader whose answers do not depend on how the stream was cut.

`Wrappers.dfy` holds the option type and the byte helpers the other files share. Code that works in place
is modelled by classes and loops, each proved against a function; the laws are then proved of those
functions. A raised exception, a panic or a returned error is `None`.

## What the models showed

- With as many expert layers as VLM layers, which is the default, training and sampling always work. With
  fewer, pure self-attention cannot sample, and cross-attention cannot sample if the self-attention stride
  is inside the depth. Two things go wrong there. A self-attention layer may have no expert layer beside it,
  so that `forward_attn_layer` has nothing to concatenate. Or the expert layer beside it was given key and
  value projections of the VLM's width, because the constructor picks those by expert number and `forward`
  picks the attention by VLM number; that breaks training too. At 16 and 8 layers a stride of 2 fails both,
  and a stride of 3 trains but cannot sample. Only when the two widths happen to be equal, and the stride is
  a multiple of the ratio of the depths, does such a model work.
- The two passes compute the same for every model if and only if some prefix token is unpadded. Otherwise
  the eager kernel, which averages all values for a query that sees nothing, averages the suffix into the
  prefix in the joint pass only. `embed_prefix` always supplies an unpadded token, since state tokens are
  never padded.
- `calculate_arc` returns a shortest covering arc if and only if the gap across tick 0 is a largest gap or
  some other gap is more than three times every other gap.
- The frozen bounds contain every covered position if and only if the range is even and the midpoint is
  not tick 0. With an odd range only the top end misses, by one tick. For a single reading the two freeze
  branches disagree: one takes it for an empty range, the other for a full turn.
- Go rejects a varint whose tenth byte is 2..127 and Python accepts it; on all other buffers they agree.
- Python's size pass counts the characters of a string and its write pass the UTF-8 bytes, so the
  precomputed size is right if and only if every string in the tree is ASCII. Accents in a string of the
  message itself make the buffer grow, or a later varint raise an index error, but what is returned reads
  back. Accents inside a nested message are worse: its length prefix is too short, `encode` may raise
  nothing, and a reader that declares every field never gets the same tree back. One accented letter in a
  nested message gives bytes that the reader rejects.
- A command whose nibble is 16 or more is built into a frame that the same module's validator rejects.
- A hex frame that starts where a checksum byte is due loses its colon to the checksum.
- A plain write or an action that changes the EEPROM of a cached motor leaves a stale entry, and the next
  published image is not what a full read would have returned.
- Go's `SkipData` turns a length into an `int`. A length of 2^64 - 11 behind a one-byte tag leads back onto
  that tag, so the loop inside a group reads the same field forever. Python's skip ends on every buffer.
- The image column of a sample is looked up by table number in a list that skips empty tables, so it is the
  right column if and only if no earlier table is empty; otherwise another table's images are taken, or the
  lookup fails.

## Model

| member | source | states |
|---|---|---|
| PrefixEmbedding.EmbedImage | software/ai/smolvla_py/smolvla/flow_matching.py:99-134 | behind what is there stand the open tokens unpadded, the image tokens padded exactly when the camera is absent, and the close tokens unpadded; what was there stays; no token opens an attention block |
| PrefixEmbedding.EmbedImages | software/ai/smolvla_py/smolvla/flow_matching.py:98-134 | every camera stands so at the summed lengths of the cameras before it |
| PrefixEmbedding.EmbedPrefix | software/ai/smolvla_py/smolvla/flow_matching.py:90-164 | an index law of the whole prefix: every camera at its place with the flags above, then language with its own mask, then unpadded state, then padding up to the configured length; exactly the state tokens open attention blocks |
| PrefixEmbedding.LaidIsShaped | software/ai/smolvla_py/smolvla/flow_matching.py:90-164 | in a prefix laid out so, padding behind the language is exactly what follows the state, and the attention flags mark the state tokens |
| PrefixEmbedding.BlockNumber | software/ai/smolvla_py/smolvla/utils.py:52-53 | the cumulative block number of any prefix position: 0 before the state tokens, counting up over them, constant behind them |
| PrefixEmbedding.PrefixBlocks | software/ai/smolvla_py/smolvla/utils.py:41-56 | entry (i, j) of the prefix mask is set exactly when both are unpadded and j is before the state tokens or a state token not after i |
| CacheCorrectness.CumSumAppend | software/ai/smolvla_py/smolvla/flow_matching.py:212-215 | the cumulative sum of concatenated masks is that of each part, the second shifted by the first's total |
| CacheCorrectness.MasksAgree | software/ai/smolvla_py/smolvla/flow_matching.py:273-279 | for all lengths and masks the joint mask's prefix rows are the prefix mask with no suffix column visible, and its suffix rows are the denoising mask |
| CacheCorrectness.JointMaskAt | software/ai/smolvla_py/smolvla/utils.py:41-56 | the same entry by entry |
| CacheCorrectness.PositionsAgree | software/ai/smolvla_py/smolvla/flow_matching.py:281-282 | joint position ids are the prefix ids followed by the denoising ids |
| CacheCorrectness.VisibleAgrees | software/ai/smolvla_py/smolvla/smolvlm_with_expert.py:269-273 | what a query sees depends only on the unmasked keys and values |
| CacheCorrectness.AttendAgrees | software/ai/smolvla_py/smolvla/smolvlm_with_expert.py:269-273 | two key/value prefixes that agree on unpadded positions give a query the same answer, whatever equal keys follow |
| CacheCorrectness.AttendIgnoresMaskedTail | software/ai/smolvla_py/smolvla/smolvlm_with_expert.py:269-273 | keys that are masked for a query can be cut off without changing its answer |
| CachedAttention.ExpertIndexInRange | software/ai/smolvla_py/smolvla/smolvlm_with_expert.py:391-403 | every expert index `get_model_layers` computes is a layer of the expert |
| ExpertPlacement.ExpertAtMultiples | software/ai/smolvla_py/smolvla/smolvlm_with_expert.py:391-403 | a VLM layer has an expert layer beside it if and only if its index is a multiple of the ratio of the depths |
| ExpertPlacement.EveryExpertRuns | software/ai/smolvla_py/smolvla/smolvlm_with_expert.py:391-403 | every expert layer runs, in order, each beside the VLM layer that many ratios down |
| ExpertPlacement.OrphanIff | software/ai/smolvla_py/smolvla/smolvlm_with_expert.py:427-444 | a self-attention layer without expert exists if and only if, for cross attention, the self-attention stride is inside the depth and not a multiple of the ratio, or, for pure self-attention, the depths differ |
| ExpertPlacement.MisfitMeaning | software/ai/smolvla_py/smolvla/smolvlm_with_expert.py:110-124 | an expert layer is fed the wrong width if and only if the widths differ, its VLM number is a multiple of the stride and its own number is not; never by cross attention |
| ExpertPlacement.FactorFrom | software/ai/smolvla_py/smolvla/smolvlm_with_expert.py:110-124 | by Euclid's descent, an expert number below the stride whose VLM number is a multiple of it comes from a factor shared by stride and ratio |
| ExpertPlacement.JointFailsIff | software/ai/smolvla_py/smolvla/smolvlm_with_expert.py:110-124 | the joint pass fails if and only if the widths differ and stride and ratio share a factor that brings the stride inside the expert's depth |
| ExpertPlacement.BrokenIff | software/ai/smolvla_py/smolvla/smolvlm_with_expert.py:391-444 | sampling fails if and only if there are fewer expert layers than VLM layers and, for cross attention, the stride is inside the depth, except a stride on expert layers with equal widths |
| ExpertPlacement.SixteenEightTwo | software/ai/smolvla_py/smolvla/smolvlm_with_expert.py:110-124 | at 16 VLM layers, 8 expert layers and stride 2 training and sampling both fail although no self-attention layer lacks an expert |
| ExpertPlacement.SixteenEightThree | software/ai/smolvla_py/smolvla/smolvlm_with_expert.py:391-444 | with stride 3 training works and sampling fails |
| CacheCorrectness.FillStep | software/ai/smolvla_py/smolvla/smolvlm_with_expert.py:405-490 | a filling layer never fails, advances the prefix by self-attention and stores exactly that layer's keys and values |
| CacheCorrectness.DenoiseSelfStep | software/ai/smolvla_py/smolvla/smolvlm_with_expert.py:199-274 | a self-attention layer of the denoising pass attends over the cached and its own keys and keeps the cache |
| CacheCorrectness.DenoiseCrossStep | software/ai/smolvla_py/smolvla/smolvlm_with_expert.py:276-389 | a cross-attention layer of the denoising pass attends over the re-projected cached keys only, from position zero on, and keeps the cache |
| CacheCorrectness.DenoiseStep | software/ai/smolvla_py/smolvla/smolvlm_with_expert.py:427-490 | a denoising layer fails exactly when it is a self-attention layer without an expert layer or its expert's projections have the wrong width |
| CacheCorrectness.JointSelfAttention | software/ai/smolvla_py/smolvla/smolvlm_with_expert.py:199-274 | the joint self-attention layer equals attention over the prefix's keys followed by the suffix's |
| CacheCorrectness.JointCrossStep | software/ai/smolvla_py/smolvla/smolvlm_with_expert.py:276-389 | the joint cross-attention layer runs the prefix by itself and the suffix against the prefix's keys |
| CacheCorrectness.JointOrphanStep | software/ai/smolvla_py/smolvla/smolvlm_with_expert.py:239-244 | a joint self-attention layer without an expert layer runs the prefix on sliced masks and passes the suffix through |
| CacheCorrectness.JointStep | software/ai/smolvla_py/smolvla/smolvlm_with_expert.py:427-490 | a joint layer fails exactly on a wrong projection width, and otherwise advances the suffix by the function the denoising layer uses, from the prefix's current keys |
| CacheCorrectness.SuffixNextAgrees | software/ai/smolvla_py/smolvla/smolvlm_with_expert.py:427-490 | that function gives equal suffixes for prefixes that agree where unpadded |
| CacheCorrectness.PrefixNextAgrees | software/ai/smolvla_py/smolvla/smolvlm_with_expert.py:427-490 | one layer keeps joint prefix and cached prefix equal on unpadded positions, although the layer kinds differ |
| CacheCorrectness.FillKeepsEarlier | software/ai/smolvla_py/smolvla/smolvlm_with_expert.py:255-260 | the rest of a filling pass leaves the entries of earlier layers as they are |
| CacheCorrectness.LayersAgree | software/ai/smolvla_py/smolvla/smolvlm_with_expert.py:427-490 | induction over layers: from any layer on, fill then denoise computes the joint suffix; denoising fails exactly at a broken layer and the joint pass exactly at a misfit |
| CacheCorrectness.CachedPassEqualsJointPass | software/ai/smolvla_py/smolvla/smolvlm_with_expert.py:199-500 | for every model, prefix with an unpadded token, padding and suffix the cached pass returns the joint pass's suffix and the same cache; it fails if and only if some layer lacks its expert or misfits it, and the joint pass if and only if some layer misfits |
| InferenceReference.CountIsCardinality | software/ai/smolvla_py/smolvla/utils.py:52-53 | the cumulative sum up to a position is the number of set flags up to it, as the size of a set |
| InferenceReference.PrefixMaskIs | software/ai/smolvla_py/smolvla/utils.py:41-56 | row i of the prefix mask and position id i, counted from the flags themselves |
| InferenceReference.SuffixMaskIs | software/ai/smolvla_py/smolvla/flow_matching.py:273-282 | row i of the denoising mask shows the unpadded prefix and the suffix up to i, and position id i is the number of unpadded prefix tokens plus i |
| InferenceReference.AnswerIs | software/ai/smolvla_py/smolvla/smolvlm_with_expert.py:269-273 | a query is answered from exactly the key/value pairs at unmasked indices, in order |
| InferenceReference.ExpertBesideIs | software/ai/smolvla_py/smolvla/smolvlm_with_expert.py:391-403 | the expert layer beside VLM layer i is number i divided by the ratio, at multiples of the ratio only |
| InferenceReference.FillNextIs | software/ai/smolvla_py/smolvla/smolvlm_with_expert.py:458-490 | one prefix layer, token by token from the model's own functions: with r the output projection of the attention answer plus the old state, the next state is r plus the MLP of the norm of r |
| InferenceReference.SuffixNextIs | software/ai/smolvla_py/smolvla/smolvlm_with_expert.py:427-490 | the same for the suffix, over prefix and own keys in a self-attention layer, over the expert's projections of the prefix's keys in a cross-attention layer, unchanged where no expert layer stands |
| InferenceReference.InferenceIsReference | software/ai/smolvla_py/smolvla/smolvlm_with_expert.py:405-500 | for every model and input the filling pass returns the prefix behind all layers, holds each layer's keys and values in the cache, and the denoising pass returns the suffix behind all layers, each final norm applied once |
| InferenceReference.JointNextIs | software/ai/smolvla_py/smolvla/smolvlm_with_expert.py:427-490 | one layer of the joint pass does the same to the suffix, and to the prefix where it is unpadded |
| InferenceReference.TrainingIsReference | software/ai/smolvla_py/smolvla/flow_matching.py:207-226 | whenever training works, the joint pass returns that same suffix and, where unpadded, that same prefix |
| PaddedPrefix.AllPaddedDiffers | software/ai/smolvla_py/smolvla/smolvlm_with_expert.py:583-599 | with residual addition and averaging attention, as zero queries give, an all-padded prefix of any length gives suffixes that differ by the suffix's share in the average |
| PaddedPrefix.UnpaddedTokenIff | software/ai/smolvla_py/smolvla/smolvlm_with_expert.py:199-500 | the two passes agree for every model, prefix and suffix if and only if some prefix token is unpadded |
| ActionSampling.StepKeepsCache | software/ai/smolvla_py/smolvla/smolvlm_with_expert.py:252-267 | without filling, no layer of either kind changes the dictionary |
| ActionSampling.ForwardInPlace | software/ai/smolvla_py/smolvla/smolvlm_with_expert.py:405-500 | the layer loop over one mutable dictionary computes the pure pass, allocates at most one dictionary, and changes nothing when not filling |
| ActionSampling.TimesAre | software/ai/smolvla_py/smolvla/flow_matching.py:254-258 | of n steps each has size -1/n, and step k is taken at time 1 - k/n |
| ActionSampling.StepIsTurn | software/ai/smolvla_py/smolvla/flow_matching.py:254-267 | one step embeds every token at time 1 - k/n, and advances it by -1/n along the output projection of the normed suffix behind all layers |
| ActionSampling.SamplesAreRun | software/ai/smolvla_py/smolvla/flow_matching.py:254-267 | sampling through the joint pass is a run of n such steps that starts at the noise |
| ActionSampling.DenoiseAll | software/ai/smolvla_py/smolvla/flow_matching.py:242-293 | fill once and denoise any number of times against the same dictionary equals running the training pass from scratch at every step, and is an Euler run of the reference; it fails if and only if some layer is broken |
| ActionSampling.SampleActions | software/ai/smolvla_py/smolvla/flow_matching.py:229-267 | the same from the raw observation, with the prefix laid out by the index law and no assumption on padding left |
| ActionDataset.RunEnd | software/ai/smolvla_py/smolvla/dataset.py:120-127 | the end of a row's maximal run of equal episode stamps |
| ActionDataset.RunEnds | software/ai/smolvla_py/smolvla/dataset.py:120-127 | filling run by run gives every row the end of its own run |
| ActionDataset.EveryRowHasAPlace | software/ai/smolvla_py/smolvla/dataset.py:146-162 | every row of the concatenation names the table and local row it came from |
| ActionDataset.RunLands | software/ai/smolvla_py/smolvla/dataset.py:199-203 | the actions of an episode run stand one after another in the concatenated array |
| ActionDataset.Dataset.constructor | software/ai/smolvla_py/smolvla/dataset.py:106-162 | the loop over tables builds the index of all rows and the list of image columns, skipping empty tables |
| ActionDataset.OpenDataset | software/ai/smolvla_py/smolvla/dataset.py:151-152 | opening fails exactly when no table has a row |
| ActionDataset.Dataset.GetItem | software/ai/smolvla_py/smolvla/dataset.py:189-217 | unpadded actions are consecutive rows of one run of one table, padding repeats the run's last action, the flag is set exactly past the run's end; images come from the row's own number in the table with as many filled tables before it as the row's table number says, which is the row's table if and only if no earlier table is empty; it fails exactly when there is no such table or row |
| ActionDataset.SameEpisodeIff | software/ai/smolvla_py/smolvla/dataset.py:112-118 | two rows share a global episode id if and only if they share table and start stamp |
| ActionDataset.EpisodeOrder | software/ai/smolvla_py/smolvla/dataset.py:112-118 | ids are ordered by table and, inside a table, by start stamp |
| ActionDataset.EpisodesAreDense | software/ai/smolvla_py/smolvla/dataset.py:112-118 | every number below the number of episodes is the id of some row |
| ActionDataset.EpisodesEnd | software/ai/smolvla_py/smolvla/dataset.py:112-118 | and no id is larger |
| ActionDataset.ImageColumnIff | software/ai/smolvla_py/smolvla/dataset.py:210 | a sample finds its own table's image column if and only if no earlier table is empty |
| ActionDataset.ColumnMeaning | software/ai/smolvla_py/smolvla/dataset.py:140-210 | the column at a table number belongs to the table with that many filled tables before it |
| Varint.GoVarintIsEncoding | shared/gremlin_go/writer.go:269-468 | for every u64 both Go switches write the base 128 encoding and `SizeVarInt` is its length |
| Varint.PySizeIsLength | shared/gremlin_py/gremlin/sizes.py:23-24 | Python's bit-length formula is the length of the encoding, for every number |
| Varint.TagLength | shared/gremlin_go/writer.go:219-227 | the wire type never changes a tag's length |
| Varint.ZigzagRoundTrip | shared/gremlin_py/gremlin/writer.py:201-204 | the Go and Python zigzag are 2v for v not negative and -2v - 1 otherwise, and both decoders undo both, for every int64 |
| Varint.PyDecode | shared/gremlin_py/gremlin/reader.py:216-239 | an accepted varint has 1 to 10 bytes inside the buffer |
| Varint.ReadVarintAt | shared/gremlin_py/gremlin/reader.py:216-239 | the loop with its value and shift computes the recursive decoding, errors included |
| Varint.GoStep | shared/gremlin_go/reading.go:240-254 | adding a whole byte and taking its continuation bit off never overflows and yields the next partial value |
| Varint.DecodersAgreeFrom | shared/gremlin_go/reading.go:235-335 | from any step on Go's result is Python's, except on an overlong varint |
| Varint.DecodersAgreeIff | shared/gremlin_go/reading.go:235-335 | on all buffers and offsets the decoders agree if and only if the varint there is not overlong; then Go rejects and Python accepts |
| Varint.TenBytesDiffer | shared/gremlin_go/reading.go:326-334 | nine bytes 0x80 and a tenth byte 2: Go rejects and Python reads a number of more than 64 bits |
| Varint.DecodeRoundTrip | shared/gremlin_py/gremlin/reader.py:216-239 | both decoders read back every encoded u64 at any offset, whatever follows |
| WireReader.ReadTag | shared/gremlin_py/gremlin/reader.py:54-64 | an accepted tag has at least one byte and lies inside the buffer |
| WireReader.TagRoundTrip | shared/gremlin_py/gremlin/reader.py:54-64 | a written tag is read back with its number, wire type and size |
| WireReader.TagAcceptedIff | shared/gremlin_py/gremlin/reader.py:54-64 | an encoded number is accepted as a tag if and only if it is below 2^34 and its lowest three bits are at most 5; they tell the wire type and the rest the field number |
| WireReader.Skip | shared/gremlin_py/gremlin/reader.py:66-87 | every skip fails or returns a strictly larger offset, so skipping ends on every buffer |
| WireReader.SkipGroup | shared/gremlin_py/gremlin/reader.py:78-85 | the same for the loop inside a group, remaining bytes being the measure of loop and recursion |
| WireReader.SkipData | shared/gremlin_py/gremlin/reader.py:66-87 | the loop form computes the recursive form and ends |
| WireReader.SizeOfEncoded | shared/gremlin_py/gremlin/reader.py:89-96 | `_get_varint_size` gives the length of every encoded u64 |
| WireReader.VarintSizeIs | shared/gremlin_py/gremlin/reader.py:89-96 | on any bytes the size found is n if and only if n - 1 continuation bytes and a last one stand there, or ten continuation bytes do |
| WireReader.ShortBytes | shared/gremlin_py/gremlin/reader.py:110-128 | a length that runs past the end of the buffer is no error: what is there is returned, and the offset moves past the end |
| WireReader.CutOff | shared/gremlin_py/gremlin/reader.py:98-108 | fixed-width reads fail exactly when their bytes are not all there |
| WireReader.SkipPayload | shared/gremlin_py/gremlin/reader.py:66-87 | skipping any well-formed payload, groups nested to any depth included, ends exactly behind it |
| WireReader.SkipFields | shared/gremlin_py/gremlin/reader.py:78-85 | skipping a group's fields ends exactly behind the matching end tag |
| GoReader.GoSkip | shared/gremlin_go/reading.go:20-56 | Go's skip too moves strictly forward where every length met is an `int`, so it ends there on every buffer |
| GoReader.GoSkipData | shared/gremlin_go/reading.go:20-56 | its loop computes the recursion |
| GoReader.SkipsAgree | shared/gremlin_go/reading.go:20-56 | where Go's skip ends Python's ends; where it fails Python's fails, unless a tag or length it read is overlong; it is stuck only where a length is not an `int`; for any nesting of groups |
| GoReader.GoSkipPayload | shared/gremlin_go/reading.go:20-56 | in a buffer whose size is an `int`, skipping any well-formed payload ends exactly behind it |
| GoReader.GoSkipFields | shared/gremlin_go/reading.go:38-52 | the same for the fields of a group and its end tag |
| GoReader.MovesOnIff | shared/gremlin_go/reading.go:32-37 | behind a length the reader moves on if and only if the length is an `int` or a step back of less than its own size |
| GoReader.LengthLeadsBack | shared/gremlin_go/reading.go:32-52 | one turn of the group loop over a length of 2^64 - 11 behind a one-byte tag leads back onto that tag |
| GoReader.ReadsForever | shared/gremlin_go/reading.go:38-52 | so after every number of turns the loop stands at the same tag |
| GoReader.TurnsReachEnd | shared/gremlin_go/reading.go:38-52 | where the skip ends, the loop reaches that end in finitely many turns |
| WireReader.ReadKnownRoundTrip | shared/gremlin_py/gremlin/reader.py:98-128 | a sized read of a well-formed field gives its value and its size |
| WireReader.ParseMessage | shared/gremlin_py/codegen/gen/dataclass_codegen.py:76-103 | the emitted loop computes the recursive parse, errors included; a type without fields does not parse |
| WireReader.ParseRoundTripFrom | shared/gremlin_py/codegen/gen/dataclass_codegen.py:88-103 | from any offset the loop recovers the known fields of the rest |
| WireReader.ParseRoundTrip | shared/gremlin_py/codegen/gen/dataclass_codegen.py:88-103 | for every list of well-formed fields and every set of known numbers the loop returns exactly the known values, in order, without error |
| WireReader.RejectedIff | shared/gremlin_py/codegen/gen/dataclass_codegen.py:88-103 | a buffer is rejected if and only if, field by field from its start, a field comes whose tag, value or skip is rejected |
| MessageSize.TagAgrees | shared/gremlin_go/writer.go:219-227 | the size of a tag is the length of the tag written, in both halves |
| MessageSize.TextSize | shared/gremlin_py/codegen/gen/fields/bytes.py:97-126 | a string field writes at least its computed size, and exactly it if and only if the half is Go or the string is ASCII |
| Utf8Text.TextRoundTrip | shared/gremlin_py/codegen/gen/fields/bytes.py:104-126 | the bytes written for any string are decoded to that string by the rules of section 3 of RFC 3629 |
| MessageSize.NodeSound | shared/gremlin_py/codegen/gen/fields/scalar.py:192-236 | the same for every kind of field, nested messages included |
| MessageSize.MessageSound | shared/gremlin_py/codegen/gen/dataclass_codegen.py:112-148 | for every message tree the bytes written equal the precomputed size if and only if the half is Go or all strings are ASCII, and are never fewer |
| WireWriter.PyWriter.AppendVarint | shared/gremlin_py/gremlin/writer.py:206-259 | the unrolled writer writes the encoding over the buffer and fails exactly when it does not fit |
| WireWriter.PyWriter.AppendRaw | shared/gremlin_py/gremlin/writer.py:261-264 | a slice assignment lays the bytes over the buffer and grows it past its end |
| WireWriter.PyWriter.EncodeNode | shared/gremlin_py/codegen/gen/fields/scalar.py:220-236 | a field is written over the buffer, or fails exactly when one of its varints does not fit |
| WireWriter.PyWriter.EncodeMessage | shared/gremlin_py/codegen/gen/fields/message.py:87-100 | a nested message is written behind a length that comes from running the size pass again |
| WireWriter.PyWriter.EncodeTo | shared/gremlin_py/codegen/gen/dataclass_codegen.py:139-148 | all fields in order |
| WireWriter.WholeFits | shared/gremlin_py/gremlin/writer.py:206-259 | a message that fits as a whole raises no index error |
| WireWriter.PyEncode | shared/gremlin_py/codegen/gen/dataclass_codegen.py:126-136 | `encode` returns the bytes of all fields, each nested message behind the length of its size pass, or raises exactly when a varint does not fit; the buffer of the precomputed size suffices, without growing or unused tail, if and only if all strings are ASCII |
| WireWriter.AccentedLetterFails | shared/gremlin_py/codegen/gen/fields/bytes.py:97-126 | one accented letter followed by a number raises; alone it makes the buffer grow by a byte |
| WireWriter.StreamingWriter.AppendVarint | shared/gremlin_py/gremlin/writer.py:433-438 | the streaming loop emits the same encoding |
| WireWriter.GoWriter.WriteBytes | shared/gremlin_go/writer.go:470-478 | a write succeeds exactly when it stays inside the capacity |
| WireWriter.GoWriter.MarshalNode | shared/gremlin_go/gremlinc/internal/generators/golang/fields/structs.go:125-140 | a field is appended exactly when it fits |
| WireWriter.GoWriter.MarshalTo | shared/gremlin_go/gremlinc/internal/generators/golang/types/structs.go:199-229 | all fields in order, exactly when they fit |
| WireWriter.GoMarshal | shared/gremlin_go/gremlinc/internal/generators/golang/types/structs.go:184-197 | the writer of the precomputed size is never resliced past its capacity and ends full |
| WireRoundTrip.DelimitedLength | shared/gremlin_py/codegen/gen/fields/message.py:87-100 | the length prefix of any string, and of a nested message whose strings are ASCII or that Go wrote, is the length of what follows |
| WireRoundTrip.SizeZeroIff | shared/gremlin_py/codegen/gen/fields/scalar.py:192-219 | a field counts no byte if and only if it is zero, empty or, for Python's singular messages, made of such fields only |
| WireRoundTrip.LeftOutIff | shared/gremlin_py/codegen/gen/fields/message.py:74-100 | a field is missing on the wire if and only if it is such a default |
| WireRoundTrip.NodeIsField | shared/gremlin_py/codegen/gen/fields/scalar.py:220-236 | a written field is a well-formed wire field, or nothing when it is left out |
| WireRoundTrip.MessageIsFields | shared/gremlin_py/codegen/gen/dataclass_codegen.py:139-148 | a written message is the concatenation of well-formed wire fields |
| WireRoundTrip.WrittenMessageIsRead | shared/gremlin_py/codegen/gen/dataclass_codegen.py:76-103 | a message written by Go, or by Python with only ASCII inside nested messages, is parsed by the generated loop to exactly its known fields |
| MessageTree.ParsedIsTyped | shared/gremlin_py/codegen/gen/dataclass_codegen.py:88-103 | every entry the loop keeps, on any buffer, is declared, has its declared shape, and is shorter than the buffer |
| MessageTree.NodeComesBack | shared/gremlin_py/gremlin/reader.py:134-166 | signed, zigzag, fixed, bytes and nested values are read back as themselves |
| MessageTree.TreeRoundTrip | shared/gremlin_py/codegen/gen/fields/message.py:109-133 | such a whole tree, recursive message types included, is read back to the bottom: every known field that is not a default, at every depth, with its own value, in order |
| LostStrings.ParsedFits | shared/gremlin_py/codegen/gen/dataclass_codegen.py:88-103 | on any buffer, the entries the loop keeps cannot have been written in more bytes than the buffer has |
| LostStrings.TreeFits | shared/gremlin_py/codegen/gen/fields/message.py:109-133 | the same for a tree read to the bottom of any buffer |
| LostStrings.TreeOutweighs | shared/gremlin_py/codegen/gen/fields/message.py:74-85 | a tree needs at least the bytes its size pass says, and more if a string in it is not ASCII |
| LostStrings.SpoiltField | shared/gremlin_py/codegen/gen/fields/message.py:87-100 | of a nested message with accents the parent's reader keeps only as many bytes as the size pass counted |
| LostStrings.AccentsBelowAreLost | shared/gremlin_py/codegen/gen/fields/message.py:87-133 | to a reader that declares every field, a Python message with accents inside a nested message never comes back as the tree that was written |
| LostStrings.PythonRoundTripIff | shared/gremlin_py/codegen/gen/fields/message.py:74-133 | for such a reader a Python message comes back if and only if the strings of its nested messages are ASCII |
| LostStrings.NestedLetterIsRejected | shared/gremlin_py/codegen/gen/fields/message.py:87-100 | one accented letter in a nested message: `encode` returns six bytes without an error and the reader rejects them |
| HexProtocol.MakeCommand | software/drivers/victron-smartsolar-mppt/src/hex.rs:17-28 | the pushes build colon, digit, data and check byte in hex, newline |
| HexProtocol.ValidateFrame | software/drivers/victron-smartsolar-mppt/src/hex.rs:44-63 | accepted exactly when the frame is an even number of bytes, at least four, a colon and hex digits whose pair values add up to 0x55 modulo 256 |
| HexProtocol.HexBytesValue | software/drivers/victron-smartsolar-mppt/src/hex.rs:12-15 | the digits of bytes printed behind one digit are worth the sum of the bytes |
| HexProtocol.CommandIsValid | software/drivers/victron-smartsolar-mppt/src/hex.rs:5-28 | a built command has no inner newline and is a valid frame if and only if its command fits one digit |
| HexProtocol.DigitsAre | software/drivers/victron-smartsolar-mppt/src/hex.rs:3-42 | digits are printed in upper case and read in either case |
| HexProtocol.GetCommand | software/drivers/victron-smartsolar-mppt/src/hex.rs:30-33 | the command that reads register 0xEDF0 is :7F0ED0071 |
| HexProtocol.OneChangedDigitIsRejected | software/drivers/victron-smartsolar-mppt/src/hex.rs:44-63 | changing one body digit of any valid frame to another value or to a non-digit is rejected |
| VeDirect.VeDirectDemux.constructor | software/drivers/victron-smartsolar-mppt/src/parse.rs:32-48 | a new demultiplexer is in the initial state |
| VeDirect.VeDirectDemux.ResetText | software/drivers/victron-smartsolar-mppt/src/parse.rs:50-55 | the text side becomes initial, the hex side stays |
| VeDirect.VeDirectDemux.PushByte | software/drivers/victron-smartsolar-mppt/src/parse.rs:57-135 | the object refines the transition function, state and event |
| VeDirect.FeedAppend | software/drivers/victron-smartsolar-mppt/src/parse.rs:57-135 | feeding two pieces equals feeding their concatenation |
| VeDirect.TextEventResets | software/drivers/victron-smartsolar-mppt/src/parse.rs:84-133 | a text event puts the machine into its initial state |
| VeDirect.NeverLeftover | software/drivers/victron-smartsolar-mppt/src/parse.rs:57-82 | on every stream, outside a hex frame the hex buffer is empty |
| VeDirect.AfreshAfterTextEvent | software/drivers/victron-smartsolar-mppt/src/parse.rs:57-135 | on every stream, the events and state after a text event are those of a new demultiplexer fed the rest |
| VeDirect.WholeFrame | software/drivers/victron-smartsolar-mppt/src/parse.rs:58-82 | a frame of at most 512 bytes, from any text state but the checksum one, yields its own verdict and leaves the text side as it was |
| VeDirect.CommandIsDelivered | software/drivers/victron-smartsolar-mppt/src/parse.rs:58-82 | a command nibble with up to 254 data bytes comes out as exactly one hex frame |
| VeDirect.InterleavingIsInvisible | software/drivers/victron-smartsolar-mppt/src/parse.rs:57-135 | frames inserted anywhere but before a checksum byte change neither the text events nor the final state, and yield their own verdicts in order |
| VeDirect.ColonAsChecksumByte | software/drivers/victron-smartsolar-mppt/src/parse.rs:77-82 | before a checksum byte a frame's colon ends the text block |
| VeDirect.FrameInvisibleIff | software/drivers/victron-smartsolar-mppt/src/parse.rs:58-82 | a frame that fits the buffer leaves the text side as it was and yields its own verdict alone if and only if no checksum byte is due |
| VeDirect.LongFrame | software/drivers/victron-smartsolar-mppt/src/parse.rs:68-73 | a frame is given up with its 513th byte and leaves the text side as it was |
| VeDirect.LongBlock | software/drivers/victron-smartsolar-mppt/src/parse.rs:84-89 | the 4097th byte of a block is one too many in every phase |
| VeDirectText.LabelBytes | software/drivers/victron-smartsolar-mppt/src/parse.rs:98-115 | a label of any length leads to the checksum byte exactly when it is "Checksum", although only 32 bytes are kept |
| VeDirectText.TailBytes | software/drivers/victron-smartsolar-mppt/src/parse.rs:91-134 | induction over the records of a block |
| VeDirectText.PrintedBlock | software/drivers/victron-smartsolar-mppt/src/parse.rs:84-134 | a printed block with any checksum byte yields one event, the block if and only if its bytes add up to zero, and a fresh machine |
| VeDirectText.BalancedBlockIsDelivered | software/drivers/victron-smartsolar-mppt/src/parse.rs:84-134 | with its balancing byte it yields exactly one text block of those bytes |
| VeDirectText.FieldRoundTrip | software/drivers/victron-smartsolar-mppt/src/parse.rs:138-164 | looking up any label but "Checksum" gives the first matching record's value if that is UTF-8, whatever the checksum byte is |
| VeDirectText.BareLine | software/drivers/victron-smartsolar-mppt/src/parse.rs:138-164 | a line without carriage return is read like one with it |
| VeDirectText.EndlessLine | software/drivers/victron-smartsolar-mppt/src/parse.rs:84-89 | text without line break raises nothing for 4096 bytes and is given up with the next |
| Calibration.SortIndices | software/drivers/st3215/src/calibrate.rs:40-41 | all gap indices, largest gap first; nothing is promised among equals |
| Calibration.CalculateArc | software/drivers/st3215/src/calibrate.rs:11-83 | the arc leaves out the dominant gap if there is one and the gap across tick 0 otherwise |
| Calibration.PickArc | software/drivers/st3215/src/calibrate.rs:43-83 | the same for every order the unstable sort may give ties |
| Calibration.DominantUnique | software/drivers/st3215/src/calibrate.rs:43-83 | at most one gap is dominant |
| Calibration.GapsSumToRing | software/drivers/st3215/src/calibrate.rs:23-37 | the gaps of any readings add up to 4096 |
| Calibration.WithoutCovers | software/drivers/st3215/src/calibrate.rs:23-37 | leaving out any one gap covers every reading, with 4096 minus that gap ticks |
| Calibration.CoverMissesOneGap | software/drivers/st3215/src/calibrate.rs:11-83 | any arc of the ring that covers all readings is at least as long as the ring without one of the gaps |
| Calibration.ArcCoversReadings | software/drivers/st3215/src/calibrate.rs:11-83 | the computed arc covers every reading |
| Calibration.ArcShortestIff | software/drivers/st3215/src/calibrate.rs:11-83 | no covering arc is shorter if and only if the gap across tick 0 is a largest gap or some gap is dominant |
| Calibration.ArcWrapsIff | software/drivers/st3215/src/calibrate.rs:43-83 | the arc runs across tick 0 if and only if the gap it leaves out is more than three times every other gap, in plain differences of readings; otherwise it runs from the lowest to the highest reading |
| Calibration.EvenSpreadIsNotShortest | software/drivers/st3215/src/calibrate.rs:11-83 | readings 0, 1500, 3000 get an arc of 3000 ticks although 2596 cover them |
| ServoFreeze.MidpointIsHalfway | software/drivers/st3215/src/port_meta.rs:111-128 | the midpoint lies half the arc's length from its lower end around the ring; the ranges of both branches are that length |
| ServoFreeze.OffsetBytes | software/drivers/st3215/src/port.rs:1224-1232 | the offset fits the register, moves the midpoint to 2048 (one above for midpoint 0), and its two bytes decode back to it |
| ServoFreeze.RecoverUndoes | software/drivers/st3215/src/port_meta.rs:408-410 | the reader's recovery is the inverse of the servo's report |
| ServoFreeze.ReportIsCentred | software/drivers/st3215/src/port_meta.rs:264-304 | a covered position is reported at its distance along the arc above the lower frozen bound, and is recovered as itself |
| ServoFreeze.FrozenBoundsHoldIff | software/drivers/st3215/src/port_meta.rs:264-304 | all covered positions land inside the frozen bounds if and only if the range is even and the midpoint not 0; with midpoint not 0 only the top end can miss, by the odd tick |
| ServoFreeze.SomethingFallsOut | software/drivers/st3215/src/port_meta.rs:209-262 | names a covered position that falls out in every other case |
| ServoFreeze.SingleReadingBranchesDiffer | software/drivers/st3215/src/port_meta.rs:209-304 | a one-tick arc is frozen at the centre by one branch, where it is reported if and only if it is not tick 0, and at 0, away from its report, by the other |
| ServoFreeze.CalibrationEndToEnd | software/drivers/st3215/src/port_meta.rs:264-304 | from readings to frozen bounds: all readings are recovered as themselves, and all are reported inside the bounds if and only if the range is even and the midpoint not 0 |
| BusScan.BusWorker.constructor | software/drivers/st3215/src/port.rs:41-55 | a new port has an empty cache and its worker knows no motor |
| BusScan.BusWorker.ReadMotor | software/drivers/st3215/src/port.rs:293-364 | what one reply publishes and caches |
| BusScan.BusWorker.ReadAll | software/drivers/st3215/src/port.rs:288-365 | the read pass up to a waiting command refines the recursive pass |
| BusScan.BusWorker.DropExpired | software/drivers/st3215/src/port.rs:367-389 | the grace loop refines the recursive one, on times, cache, known motors and reports |
| BusScan.BusWorker.ScanMotors | software/drivers/st3215/src/port.rs:271-448 | one tick, early returns included, refines the transition function whose events and books the laws below describe |
| BusRuns.ReadPassIsSound | software/drivers/st3215/src/port.rs:288-365 | a read pass keeps the cache true of the EEPROM and every image it publishes is true |
| BusRuns.GraceMeaning | software/drivers/st3215/src/port.rs:367-393 | a silent motor is dropped if and only if it was first missed 100 ms ago or more, and otherwise stays known with that time, for any iteration order |
| BusRuns.WholeTickBooks | software/drivers/st3215/src/port.rs:271-448 | a completed tick, whatever the motors answer, keeps missing times and cache entries inside the known motors and ties each missing time to a stretch of missed passes |
| BusRuns.TickDisconnects | software/drivers/st3215/src/port.rs:367-393 | what a completed tick reports as disconnected was first missed 100 ms ago or more |
| BusRuns.StepKeepsBooks | software/drivers/st3215/src/port.rs:188-448 | every scan, every command and every port that comes back keeps those books |
| BusRuns.RunKeepsBooks | software/drivers/st3215/src/port.rs:188-448 | so does every run, whatever motors answer and whatever commands do to EEPROM |
| BusRuns.DisconnectIsEarned | software/drivers/st3215/src/port.rs:367-393 | on every run, with any replies and any EEPROM writes, a reported disconnect means that the motor was asked and silent in every completed pass of a stretch of at least 100 ms that ends now |
| BusRuns.ScanIsTrue | software/drivers/st3215/src/port.rs:288-365 | a scan of truthful motors keeps the cache true and publishes true images |
| BusRuns.RunKeepsFresh | software/drivers/st3215/src/port.rs:188-365 | every run in which motors answer what they hold and EEPROM changes only through commands that drop its cached copy keeps the cache true |
| BusRuns.ImagesAreTrue | software/drivers/st3215/src/port.rs:288-365 | on every such run each non-empty image is what a full read would have returned, as far as it goes |
| BusRuns.BookkeepingStaysKnown | software/drivers/st3215/src/port.rs:367-402 | in every reachable state, with any replies and any EEPROM writes, missing times and cache entries belong to known motors |
| BusRuns.CacheStaysFreshIff | software/drivers/st3215/src/port.rs:188-192 | when a command rewrites one motor's EEPROM the cache stays true if and only if the motor was not cached or the command drops its entry |
| BusRuns.PlainWriteGoesStale | software/drivers/st3215/src/port.rs:188-192 | a run that finds a motor, reads it once and meets a plain write publishes an image that is not what a full read would have returned |
| BusLaws.PassIsRead | software/drivers/st3215/src/port.rs:288-365 | after a read pass, for each motor: whether it answered, what was published for it, whether its first 40 bytes were cached; at most one image each |
| BusLaws.WholeBooks | software/drivers/st3215/src/port.rs:367-402 | after a completed tick a motor is known if and only if it was known and not dropped or was found (all stay if the search was abandoned), and has a missing time if and only if it was known, silent and not dropped |
| BusLaws.WholeCache | software/drivers/st3215/src/port.rs:293-389 | after a completed tick a motor is cached if and only if it was or was read in full, and was not dropped; old entries stay as they were |
| BusLaws.WholeEvents | software/drivers/st3215/src/port.rs:288-430 | a completed tick reports a connect exactly for each motor found, a disconnect exactly for each motor asked, silent and missed for 100 ms, and an image exactly for each motor that answered with data |
| BusLaws.CutLaws | software/drivers/st3215/src/port.rs:288-291 | a tick cut short reports images of the motors read so far only and keeps the books |
| BusLaws.TickLaws | software/drivers/st3215/src/port.rs:271-448 | all of this in every state any run can reach |
| BusLaws.EventOrder | software/drivers/st3215/src/port.rs:271-448 | images come first, then each disconnect once, then the connects in the order of the search |
| BusLaws.OneImage | software/drivers/st3215/src/port.rs:293-364 | a motor that answers with data gets exactly one image |
| BusLaws.NewIsConnected | software/drivers/st3215/src/port.rs:413-430 | a motor that becomes known is reported connected in that tick, and whoever is reported is then known |
| BusLaws.KnownWasConnected | software/drivers/st3215/src/port.rs:413-430 | on every run each known motor was reported connected by its worker |
| Watchdog.Daemon.constructor | software/arduino-portenta/x8-watchdogd/src/main.c:417-422 | the variables before the loop |
| Watchdog.Daemon.OpenDevice | software/arduino-portenta/x8-watchdogd/src/main.c:437-459 | opening the device and the feed that follows refine the transition function, with the calls made |
| Watchdog.Daemon.CheckNetwork | software/arduino-portenta/x8-watchdogd/src/main.c:477-509 | so does the network check with its timer and latch |
| Watchdog.Daemon.RunTurn | software/arduino-portenta/x8-watchdogd/src/main.c:434-512 | one turn refines the transition function, the `continue` after a failed feed included, with all calls in order |
| Watchdog.OneMoreCheck | software/arduino-portenta/x8-watchdogd/src/main.c:477-509 | the timer and the latch stay tied to the history of checks by every further check |
| Watchdog.TurnKeepsInvariant | software/arduino-portenta/x8-watchdogd/src/main.c:434-512 | every turn keeps the invariant that ties timer, latch and the next times to the past checks, feeds and failures |
| Watchdog.FeedingStopsIffOffline | software/arduino-portenta/x8-watchdogd/src/main.c:481-506 | on every run feeding is off if and only if all checks over some stretch of at least the reboot time failed |
| Watchdog.FeedingNeverResumes | software/arduino-portenta/x8-watchdogd/src/main.c:434-512 | once off it never resumes and no feed is made, through recovery and reopened devices |
| Watchdog.OffStaysOff | software/arduino-portenta/x8-watchdogd/src/main.c:434-512 | a turn that starts with feeding off makes no feed |
| Watchdog.CallsAreDue | software/arduino-portenta/x8-watchdogd/src/main.c:434-512 | on every run each turn makes exactly the calls that are due by the past failures, feeds and checks, in order |
| Watchdog.OpensWhenDue | software/arduino-portenta/x8-watchdogd/src/main.c:437-459 | an open is tried if and only if the watchdog is wanted, the device closed and no attempt failed within the retry time; if it and the feed succeed, the turn ends open and fed |
| Watchdog.ChecksWhenDue | software/arduino-portenta/x8-watchdogd/src/main.c:477-509 | a turn that gets past the feed checks the network if and only if no check was made yet or the last is a check interval old |
| Watchdog.FeedIsNeverLate | software/arduino-portenta/x8-watchdogd/src/main.c:461-475 | while the device is open and feeding on, the last feed is younger than the feed interval plus the longest turn, and a due feed is made |
| LineReader.ChunkedReader.ReadLine | software/drivers/airgradient-open-air-o-1pst/src/port.rs:180-223 | the answer and what is left to read depend on the bytes alone: a terminated line is ready if and only if at most 4095 bytes precede its newline, a tail if and only if it has at most 4096 |
| LineReader.ChunkedReader.ReadLines | software/drivers/airgradient-open-air-o-1pst/src/port.rs:180-223 | so does the whole sequence of answers |
| LineReader.CutsDoNotShow | software/drivers/airgradient-open-air-o-1pst/src/port.rs:188-222 | two ways of cutting the same bytes into non-empty chunks give the same answers |
| LineReader.LinesRoundTrip | software/drivers/airgradient-open-air-o-1pst/src/port.rs:180-223 | a stream of lines comes back line by line; an oversized line costs only itself |
| LineReader.TrimLineEnd | software/drivers/airgradient-open-air-o-1pst/src/port.rs:225-231 | only line-end bytes are cut off, and all of them |

## Left out

- Tensor numerics, dtypes, devices and batching: one batch row over real vectors; the attention kernel, norms, projections, residual addition and rotary embedding are arbitrary functions.
- `use_cache` switched off during inference, the training loss, noise and time sampling, image and text embedding, the tokenizer.
- The lists a layer method appends to before concatenating are sequence expressions; only the dictionary, the layer loop and the sampling loop are updated in place.
- A prefix or suffix of no tokens and a step count of zero: all raise in the original, and the theorems start from at least one of each. The suffix has the expert's hidden width, as `embed_suffix` makes it.
- Episode filtering, the start stamps kept per episode id, state and task columns and JPEG decoding of the dataset.
- Shifts, masks and ors of the codec are division, remainder and sums; Go's written-out decoding steps are one recursion over the step number, and Python's five written-out varint checks are a loop of four and a fifth.
- Go's generated readers; additions to an offset by Go's skip other than a length, which stay far below 2^63; Python's recursion limit.
- Custom defaults, booleans, 32-bit truncation on reading, enums, maps, packed repeated scalars; a getter's choice of the last of several entries, and its UTF-8 decoding inside a tree (strings are compared as bytes there). Float payloads are their bit patterns, so a negative zero counts as set.
- WireWriter.GoMarshal: sizes of 2^64 bytes and more are not considered.
- LostStrings.PythonRoundTripIff: a reader that does not declare every field may still get the fields it knows; messages of 2^64 bytes and more are not considered.
- WireWriter.PyEncode: integers outside 64 bits and field numbers above 2^31 - 1 are not considered.
- ST3215 packet framing, serial I/O and auto-calibration. A servo is taken to report its raw position minus its offset modulo 4096.
- ServoFreeze.OffsetBytes: the midpoint is a tick of the ring; what a client sends in a freeze command is not checked by the original either.
- Failing envelope sends, which end the worker, and the disconnect report that follows a motor's change of ID.
- BusRuns.DisconnectIsEarned: the converse holds per tick (BusRuns.GraceMeaning) but not per run, because an abandoned search leaves a dropped motor known and restarts its window.
- The watchdog's option parsing beyond its accepted ranges, ping and device I/O, and a clock call that fails and returns 0.
- Read timeouts and serial errors in `read_line`.
