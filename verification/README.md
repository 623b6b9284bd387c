# Verified models of the Omniphony bridges

This project models the parsers, detectors and stream machines of the Dolby, DTS, IAMF and Auro-3D bridges, and of the
`auro` decoder crate, and proves what they promise: that nothing depends on how bytes were cut or calls interleaved, that
what an encoder writes is what a decoder reads back, and that no frame or sample is lost, doubled or moved.

Check everything with `dafny verify dfyconfig.toml`.

## What is modelled

- **Finding streams** (`Probe`, `Crc`, `DolbyProbe`, `DtsProbe`, `IamfProbe`): the scan for the earliest start, the host's
  replay of reads, and the three family checks with the law the replay rests on. The IAMF checks follow sections 2.4, 3.2
  and 3.4 of IAMF 1.1.
- **DTS framing** (`Drain`, `DtsDemux`): cutting buffered bytes into core and core + extension frames.
- **MAT framing** (`Mat`, `MatRoundTrip`): TrueHD access units inside IEC 61937-9 payloads, against a packer written as a
  specification.
- **The Auro-Codec** (`AuroBits`, `AuroPayload`, `AuroHeaders`, `AuroBlock`, `AuroRice`, `AuroRiceRoundTrip`, `AuroUnmix`,
  `AuroRestore`, `AuroDecode`): where the side channel's bits are, the two parsers of its header, residual coding, and
  undoing the fold of two or three streams in wrapping 32-bit arithmetic.
- **Its streams** (`AuroTrack`, `AuroOverlap`, `AuroCompleteness`, `AuroDetect`, `AuroLatch`, `AuroCarrier`, `AuroJoin`,
  `AuroUnfold`, `AuroChain`, `AuroHeard`): the ring detector of a channel, the detector and latch over all channels
  (`AuroDetector`), a carrier decoder, and the join of all carriers with latency. `AuroSeal` and `AuroShortest` write a
  block and run it.
- **The stage behind the DTS-HD decoder** (`AuroStage`, `AuroRuns`, `AuroFeeding`, `AuroPipeline`, `AuroNarrow`): hold,
  confirm, replay and unfold; first as a function of the frames that came, and then as the class that drives a detector
  and an unfolder.
- **E-AC-3 presentations** (`Eac3`, `Eac3Assembly`, `Eac3Groups`, `Eac3Drain`): the speculative choice of decoder, and
  grouping a core with its dependents (at most eight, section E.1.3.1.2 of ETSI TS 102 366; JOC in the last, clause 8.2 of
  ETSI TS 103 420).

Each class or loop of the source is a class or loop here, proved against a function of its inputs; the lemmas then prove
what the source promises about that function. Four points where the code and its own comments differ, and one
input it fails, follow the code:

- from the fourth sample on, the three-stream put-back leaves out the held stream, not the derived one
  (`AuroUnmix.RolesRotate`);
- raising an unfolder's latency after a release can leave its frontier behind what was released
  (`AuroUnfold.RaisedLatencyStrands`, a run; `AuroUnfold.Unfolder.SetLatency` says exactly when);
- a latency of the block size once known is enough only while no block is longer by more than one sample
  (`AuroUnfold.CoveredExactly`; `AuroChain.StrandsFirstBlock`, a run; `AuroChain.FirstIsDueNext`);
- an IAMF start without an extension can ask for more than the fifteen bytes its constant names
  (`IamfProbe.PlainStartAsksTooMuch`; `IamfProbe.PlainStartNeeds` says exactly when);
- the replay of held frames reads one column for every speaker of the first frame off each of them, and past the end of
  a later one that has samples but fewer channels; the panic guard then resets the pipeline and every held frame is lost
  (`AuroNarrow.NarrowFrameLosesAll`, a run; `AuroNarrow.PanicsExactly` says exactly when). A later frame with as many
  channels but other speakers is fed under the first one's names (`AuroRuns.FirstFrameNames`).

Names for recurring ideas: a *check* answers claim, reject or need for a candidate start; the *track* is what a detector
with unlimited memory would know; *told* is everything an unfolder was ever given; a *clock* is what decoding one
E-AC-3 unit moves.

## Model

| member | source | states |
|---|---|---|
| Probe.ScanRaw | bridge-common/src/probe.rs:28-43 | the answer is that of the first candidate start the check does not reject, every earlier one being rejected; inside 32 bits its offset is that start, beyond it saturates |
| Probe.SyncPrefix | bridge-common/src/probe.rs:68-77 | nothing exactly when the whole sync word is there, a rejection exactly when the bytes neither hold it nor are a prefix of it, else a request for the whole word |
| Probe.EarliestStartIsUnique | bridge-common/src/probe.rs:24-43 | a stream has at most one earliest start |
| Probe.ClaimIsEarliest | bridge-common/src/probe.rs:122-178 | a claim made on the bytes read so far is the earliest start of the whole stream |
| Probe.WindowCannotPass | bridge-common/src/probe.rs:122-178 | no window of reads can pass over the earliest start, and one that reaches past all that was asked for up to it claims it |
| Probe.BoundedNeeds | bridge-common/src/probe.rs:17-23 | a family that bounds what it asks for bounds it on every stream |
| Probe.ReplayReads | bridge-common/src/probe.rs:122-178 | for every lawful check, stream and read schedule whose windows fit the answer's 32 bits: what is claimed is the earliest start of the whole stream, a stream that answers all that is asked up to its start is claimed by the first read that does, and the loop's assertion never fails |
| Probe.ProbeWindow | bridge-common/src/probe.rs:28-63 | one probe of a window: nothing is passed over, and inside 32 bits offset and need are exact, a pending start asking for more than it was shown |
| Crc.BuildTable | bridge-family-dts/src/probe.rs:106-124 | the table entry of every byte is that byte shifted through the register |
| Crc.TableStepIsSerial | bridge-family-dts/src/probe.rs:125-127 | one table-driven step is eight bit-serial steps, for any polynomial |
| Crc.TableCrc | bridge-family-dolby/src/probe.rs:139-162 | the table-driven checksum of any message, from any start value, is the bit-serial one |
| Crc.SerialUpdate | auro/src/block.rs:151-161 | the bit-by-bit update is one byte of that same register |
| Crc.ZeroIffChecksum | bridge-family-dolby/src/probe.rs:130-136 | the register reads zero after a message exactly when its last two bytes are the checksum of the rest (odd polynomials, which both are) |
| DtsProbe.ParseHeader | dca/src/parser.rs:132-195 | a core header needs eighteen bytes, and a frame it accepts has 96 to 16384 bytes and opens with the sync word |
| DtsProbe.HeaderExtends | dca/src/parser.rs:132-195 | eighteen bytes decide: what follows does not change the header |
| DtsProbe.CoreStartLawful | bridge-family-dts/src/probe.rs:47-68 | the core check keeps its decided answers as bytes arrive and only ever asks for more than it was shown |
| DtsProbe.SubstreamStartLawful | bridge-family-dts/src/probe.rs:72-101 | so does the coreless-substream check, its header CRC included |
| DtsProbe.CandidateIsLawful | bridge-family-dts/src/probe.rs:38-101 | the DTS check is lawful and never asks past one largest frame and a sync word |
| DtsProbe.SubstreamNeeds | bridge-family-dts/src/probe.rs:26-101 | a substream start never asks past 4096 bytes |
| DolbyProbe.LegacyAc3FrameSize | eac3/src/parser.rs:46-52 | every legacy frame size lies between 128 and 3840 bytes |
| DolbyProbe.FrameSizeExtends | bridge-family-dolby/src/probe.rs:112-121 | seven header bytes decide the frame size |
| DolbyProbe.TruehdStartLawful | bridge-family-dolby/src/probe.rs:58-99 | the TrueHD check is lawful and asks for at most 64 bytes, for any major-sync checksum |
| DolbyProbe.Eac3StartLawful | bridge-family-dolby/src/probe.rs:103-137 | the E-AC-3 / AC-3 check is lawful |
| DolbyProbe.MergeLawful | bridge-family-dolby/src/probe.rs:48-56 | taking the smaller of two pending answers keeps the law |
| DolbyProbe.CandidateIsLawful | bridge-family-dolby/src/probe.rs:48-137 | the Dolby check is lawful and never asks past 4096 bytes |
| IamfProbe.ReadLeb128 | bridge-family-iamf/src/probe.rs:113-128 | the loop reads the LEB128 the recursive definition reads, or the same refusal |
| IamfProbe.HeaderFields | bridge-family-iamf/src/probe.rs:76-101 | a pending or refused header never claims; an accepted one has the four-letter code and both profiles at its payload |
| IamfProbe.SequenceHeader | bridge-family-iamf/src/probe.rs:56-73 | the rescan loop decides what its recursive definition decides |
| IamfProbe.CandidateIsLawful | bridge-family-iamf/src/probe.rs:56-128 | the IAMF check, its rescan of later starts included, is lawful |
| IamfProbe.ClaimIsTheLatestReader | bridge-family-iamf/src/probe.rs:56-73 | when a start is claimed, no later start inside its size fields reads the same code |
| IamfProbe.PlainStartNeeds | bridge-family-iamf/src/probe.rs:36-73 | a start without the extension flag asks past fifteen bytes exactly when its size field holds an extended header byte of size 112 or more with no plain one of size 6 or more before it, and the bytes that would be its extension are missing |
| IamfProbe.PlainStartAsksTooMuch | bridge-family-iamf/src/probe.rs:36-73 | nine bytes that are a whole header, of which 115 are asked for |
| Drain.CutDoesNotMatter | bridge-family-dts/src/dts_pipeline.rs:375-539 | for any reader whose moves do not depend on what follows, draining after one part and again after the next is one drain of both |
| Drain.TailIsDrained | bridge-family-dts/src/dts_pipeline.rs:533-539 | what a drain leaves gives nothing more until bytes come |
| Drain.AnyCutIsOnePush | bridge-family-dts/src/dts_pipeline.rs:288-298 | however bytes are cut into pushes, the outputs and the tail left are those of one push of everything |
| DtsDemux.Find | bridge-family-dts/src/dts_pipeline.rs:568-570 | the sync word is found there and nowhere earlier, or nowhere |
| DtsDemux.ParseHeaderIsStable | dca/src/parser.rs:132-195 | the core header parser keeps its answer under more bytes |
| DtsDemux.NextIsStable | bridge-family-dts/src/dts_pipeline.rs:391-440 | a frame, once cut, is cut the same whatever follows it |
| DtsDemux.TurnIsStable | bridge-family-dts/src/dts_pipeline.rs:381-531 | so is a whole turn: search, header, resync past a bad candidate, core or core and substream |
| DtsDemux.DtsPipeline.TakeTurn | bridge-family-dts/src/dts_pipeline.rs:382-425 | one turn of the loop is the reader's step |
| DtsDemux.DtsPipeline.PushRaw | bridge-family-dts/src/dts_pipeline.rs:288-298 | a push hands the decoders exactly the slices draining old buffer and new bytes gives, leaves exactly that tail, and the profile is that of the last call |
| Mat.CopySwappedWords | bridge-family-dolby/src/mat.rs:72-85 | every sixteen-bit word byte-swapped, an odd last byte kept |
| Mat.NextReturn | bridge-family-dolby/src/mat.rs:261-493 | every call returns with a consistent reader, and one that hands anything over or refuses the start has come closer to the end |
| Mat.MatStream.PushPayload | bridge-family-dolby/src/mat.rs:132-140 | a payload replaces the last one, a split chunk staying pending |
| Mat.MatStream.StripPaddingWords | bridge-family-dolby/src/mat.rs:166-205 | exactly the run of zero words is stepped over |
| Mat.MatStream.FullChunkAvailable | bridge-family-dolby/src/mat.rs:207-235 | true exactly when payload end and codes leave the chunk whole |
| Mat.MatStream.TakeChunk | bridge-family-dolby/src/mat.rs:150-164 | the chunk is the swapped bytes at the cursor |
| Mat.MatStream.NextChunk | bridge-family-dolby/src/mat.rs:261-493 | the call returns what the reader, as a value, returns, and leaves the reader it leaves |
| MatRoundTrip.NextReturnDrains | bridge-family-dolby/src/dolby.rs:382-420 | calling for chunks until there are none is draining the reader |
| MatRoundTrip.PushIec61937 | bridge-family-dolby/src/dolby.rs:382-420 | a payload and its chunks give what draining the opened payload gives |
| MatRoundTrip.RoundTrip | bridge-family-dolby/src/mat.rs:132-493 | access units laid out with any zero-word padding, their bytes cut into payloads at any word and the codes let in at their offsets, come back whole, in order, byte-swapped, with nothing pending |
| AuroBits.PayloadLength | auro/src/block.rs:108-128 | the payload of a block has m bits a sample, less 48 in the header and one every sixteenth sample after it |
| AuroBits.TraversalsAgree | auro/src/block.rs:108-128 | the gathered bit at every position is the sample bit the closed form locates; it is a payload bit of the block, and the position can be told from it, so no bit is visited twice |
| AuroBits.EveryPayloadBitIsVisited | auro/src/block.rs:108-128 | every bit that is neither the header's nor reserved has a position |
| AuroBits.LocationEndsWithPayload | auro/src/block.rs:215-226 | the closed form leaves the block exactly where the gathered payload ends |
| AuroBits.ReservedLocation | auro/src/block.rs:130-146 | the raw positions 17m-1, 33m-1, ... are bit 0 of every sixteenth sample after the header |
| AuroPayload.Payload.Gather | auro/src/stream.rs:44-78 | whatever the words held, they then hold the block's payload bits and nothing else |
| AuroPayload.Payload.BitAt | auro/src/stream.rs:82-87 | a position reads its payload bit, or zero past the end |
| AuroPayload.PackBit | auro/src/stream.rs:49-59 | one more bit fills a word or completes and writes it |
| AuroPayload.Room | auro/src/stream.rs:17-18 | a block's payload never exceeds fourteen bits a sample, which is what the words are sized for |
| AuroHeaders.Cursor.Read | auro/src/stream.rs:110-116 | n bits read most significant first |
| AuroHeaders.BitReader.Read | auro/src/block.rs:214-227 | n bits of the payload view through the closed form, or an underrun exactly when they run past the gathered payload |
| AuroHeaders.ReadBitsJoin | auro/src/stream.rs:110-116 | reading fields one by one or together is the same, for every payload |
| AuroHeaders.ReadStream | auro/src/stream.rs:180-287 | the stream parser's loops over the cursor read what its functional form reads |
| AuroHeaders.RunInstructions | auro/src/stream.rs:212-262 | one run of bytecode to its terminator, within the instruction budget |
| AuroHeaders.ReadAdol | auro/src/block.rs:312-330 | the configuration parser's bytecode loop reads what its functional form reads |
| AuroHeaders.CodebookCount | auro/src/stream.rs:167-174 | every defined codebook size lies between 8 and 600 |
| AuroHeaders.HeadersAgree | auro/src/stream.rs:180-287 | when the configuration parser accepts fewer than sixteen ADOL blocks, gap-free ids and an empty fourth slot, the stream parser fails for exactly its own three reasons (an unknown header, a codebook size with no meaning, a codebook that ends past the payload), each exactly when it applies, and otherwise reads the same configuration and finds its codebook where the other stopped |
| AuroHeaders.WordsComeApart | auro/src/stream.rs:186-206 | fields read together as 32-bit words come apart by shift and mask |
| AuroBlock.ReadSync | auro/src/block.rs:69-101 | the sync loop reads the announced size and width, or none |
| AuroBlock.HeaderBounds | auro/src/block.rs:81-101 | whatever a header announces is a block of 16 to 4096 samples borrowing 3 to 14 bits |
| AuroBlock.ParseSyncPrefix | auro/src/block.rs:69-101 | only the first sixteen samples matter |
| AuroBlock.ReservedBitsClear | auro/src/block.rs:132-148 | true exactly when the block is there and bit 0 of every sixteenth sample after the header is clear |
| AuroBlock.ComputeCrc | auro/src/block.rs:166-180 | the loop computes the CCITT register over the block's 24-bit samples, checksum plane masked, inverted |
| AuroBlock.CrcIgnoresItsOwnBits | auro/src/block.rs:166-187 | blocks that differ only in the stored checksum have the same checksum |
| AuroSeal.SealHolds | auro/src/block.rs:166-187 | writing the checksum of a block into its own bit plane makes the stored checksum the computed one, whatever was stored there |
| AuroSeal.SealKeepsSync | auro/src/block.rs:69-101 | and leaves what the header announces as it was |
| AuroSeal.SealKeepsPayload | auro/src/block.rs:108-128 | and every payload bit |
| AuroSeal.SealedIsAccepted | auro/src/block.rs:259-337 | so a sealed block is accepted, with the fields it had, exactly when its reserved bits are clear and its fields can be read |
| AuroBlock.ReadBlock | auro/src/block.rs:259-337 | the block parser refuses truncation, reserved bits, checksum and payload faults in that order and else reads the configuration |
| AuroBlock.AcceptedBlockDecodes | auro/src/block.rs:259-337 | both parsers on one block of samples: same configuration, same stream ids, codebook where the first parser stopped |
| AuroRice.Codebook.Load | auro/src/rice.rs:39-61 | the entries are those the payload holds at the codebook position, sign and magnitude below 32 bits |
| AuroRice.PackedEntryLoads | auro/src/rice.rs:51-60 | packing an entry that fits its width and loading it gives it back |
| AuroRice.ReadUnary | auro/src/rice.rs:91-97 | ones up to the first zero; more than 64 is an error |
| AuroRice.ReadSuffix | auro/src/rice.rs:98-104 | the suffix, least significant bit first |
| AuroRice.DecodeResiduals | auro/src/rice.rs:73-118 | the residuals of every sample are those the decoded indices select, one each or one each from both codebooks interleaved; the position is the one reached, and errors are the reader's |
| AuroRice.SelectsThose | auro/src/rice.rs:73-118 | what is written is fixed by the codebook and the indices alone, whatever the storage held before |
| AuroRiceRoundTrip.RunDecodes | auro/src/rice.rs:73-118 | decoding an encoded run gives its indices and stops at its last bit |
| AuroRiceRoundTrip.RunWasEncoded | auro/src/rice.rs:73-118 | whatever decodes is, bit for bit, the encoding of a legal run |
| AuroRiceRoundTrip.DecodesExactlyEncodings | auro/src/rice.rs:73-118 | the decoder gives indices and end position exactly when the payload holds an encoding of them ending there (adaptive parameter included) |
| AuroRiceRoundTrip.ResidualsRoundTrip | auro/src/rice.rs:39-118 | packed codebook and coded run, laid one behind the other anywhere in a payload, both come back |
| AuroRiceRoundTrip.BookLoads | auro/src/rice.rs:39-61 | a packed codebook loads as it was |
| AuroUnmix.TwoStreamsSum | auro/src/unmix.rs:98-138 | for every carrier, seeds and residuals the two restored streams add up, in wrapping arithmetic, to the carrier without its borrowed bits |
| AuroUnmix.FoldTwo | auro/src/unmix.rs:278-304 | the reference encoder: an honest sum, and residuals that are the derived stream's misses |
| AuroUnmix.PredictorTracks | auro/src/unmix.rs:117-134 | on the encoder's output the predictor base equals the true derived sample at every step, roles alternating |
| AuroUnmix.FirstSamples | auro/src/unmix.rs:105-116 | the first two samples of both streams come back exactly |
| AuroUnmix.FoldTracks | auro/src/unmix.rs:117-134 | from the third sample on one stream comes back less its residual and the other plus it, alternating with parity |
| AuroUnmix.ThreeStreamsSum | auro/src/unmix.rs:140-229 | three restored streams, residuals put back, add up to the carrier at every sample |
| AuroUnmix.MixedSum | auro/src/unmix.rs:150-217 | before the residuals go back, the streams lack exactly the two residuals |
| AuroUnmix.RolesRotate | auro/src/unmix.rs:193-229 | held, fresh and derived roles are i, i+1 and i+2 modulo 3: from the fourth sample on the put-back skips the held stream, not the derived one as the comment there says |
| AuroUnmix.RotationAt | auro/src/unmix.rs:193-217 | the three roles stay a permutation of the streams |
| AuroRestore.Unmix | auro/src/unmix.rs:73-239 | in place: refused, nothing written, exactly when a gain lies outside the table; else each output holds the scaled stream, outputs past the mode untouched |
| AuroRestore.RestoreTwo | auro/src/unmix.rs:98-134 | the two-stream loop leaves both streams in the output slices |
| AuroRestore.MixThree | auro/src/unmix.rs:140-217 | the three-stream loop leaves the mixed streams |
| AuroRestore.PutResidualsBack | auro/src/unmix.rs:218-229 | the put-back loop completes them |
| AuroRestore.ExactScale | auro/src/unmix.rs:54-64 | at an exact gain and short of the clamp, scaling is a shift |
| AuroRestore.TwoOutputsSum | auro/src/unmix.rs:98-138 | two scaled outputs at one exact gain add up to the carrier without its borrowed bits at that gain |
| AuroRestore.ThreeOutputsSum | auro/src/unmix.rs:140-236 | and so do three |
| AuroRestore.BorrowedBitsDoNotMatter | auro/src/unmix.rs:101-134 | whatever is written into the borrowed bits, the predictor runs the same |
| AuroRestore.FoldComesBack | auro/src/unmix.rs:278-304 | the encoder's streams at the decoder's output: less and plus the residual, at their own weight |
| AuroTrack.BlockParserIsLawful | auro/src/block.rs:69-187 | announcements depend on sixteen samples and have bounded size, and a block copied whole is never truncated |
| AuroTrack.SecondLookAgrees | auro/src/detect.rs:164-169 | the copied block carries the announcement it was taken up for |
| AuroTrack.TrackIsSound | auro/src/detect.rs:109-186 | whatever was heard: at most four candidates, every report equals the samples heard where it says, everything complete is settled, valid + rejected + pending equals the candidates taken up |
| AuroTrack.HandedOnOnTime | auro/src/detect.rs:147-186 | a block is handed on with its last sample, or with the seventeenth when it has no more than sixteen |
| AuroCompleteness.AnnouncedBlockIsSent | auro/src/block.rs:69-148 | samples the block parser takes for a block of that length, reserved bits clear, are a block as the theorem wants it |
| AuroCompleteness.HeaderProposes | auro/src/detect.rs:123-139 | the zero behind a header proposes the block's own start, stray ones before it notwithstanding |
| AuroCompleteness.EveryBlockIsFound | auro/src/detect.rs:109-186 | on back-to-back blocks of more than sixteen samples every block is judged once, in order, from its start, and nothing stays pending |
| AuroCompleteness.OnlyTheOpenBlockWaits | auro/src/detect.rs:109-186 | in the middle of a block that block alone is pending, from the sample behind its header on |
| AuroCompleteness.ValidBlocksAreHandedOn | auro/src/detect.rs:109-186 | when every block passes, exactly the blocks are handed on, in order, at their offsets |
| AuroDetect.ChannelDetector.CopyOut | auro/src/detect.rs:100-104 | samples still in the ring are the samples heard |
| AuroDetect.ChannelDetector.Push | auro/src/detect.rs:109-144 | ring and short list refine the track of all that was heard; what is returned is what the track reports new, each due within the call |
| AuroDetect.ChannelDetector.Settle | auro/src/detect.rs:147-186 | every complete candidate is judged, the last moved into its place |
| AuroLatch.LatchesOnFirstThree | auro/src/detect.rs:217-251 | latches on what three announcements in a row agreed on, the first time any three did, and never lets go |
| AuroDetector.Detector.Push | auro/src/detect.rs:217-251 | the next samples of one channel through its own ring detector; the latch then stands where the announcements of every channel so far leave it, and what latched is told once |
| AuroDetector.Detector.HasValidBlock | bridge-family-dts/src/auro_pipeline.rs:229 | whether any channel asked about has had a valid block |
| AuroDetector.ArrivalsAreTracks | auro/src/detect.rs:217-251 | out of the reports as they arrive, those of each channel are in order and number exactly what its own samples come to |
| AuroDetector.LatchSeesEveryChannel | auro/src/detect.rs:217-251 | what the latch sees is the reports of all channels, interleaved as they are completed, less those whose layouts are not known |
| AuroDetector.LatchesAcrossChannels | auro/src/detect.rs:217-251 | so it latches on the first three of them in a row that agree, whatever channels they came from, and on nothing else |
| AuroDecode.BlockDecoder.Decode | auro/src/decode.rs:167-190 | stream header, residuals when the mode has any, unmixing: each error in its place, and on success outputs that are the streams unmixed with exactly the residuals the block codes, all buffers large enough for any block |
| AuroDecode.HeadersAreShapely | auro/src/stream.rs:180-287 | every accepted stream header has at most three streams, 8 to 600 entries, five seeds, three gain codes |
| AuroCarrier.ChannelDecoder.Push | auro/src/decode.rs:117-158 | with what came before, the blocks out are in order exactly those all samples heard come to, however they were cut; each is due within the call, and decoded and failed blocks add up to the validated ones |
| AuroCarrier.CarrierBlocksGrow | auro/src/decode.rs:117-158 | more samples only add blocks to what a carrier comes to, each due among the new samples |
| AuroTrack.ReportsGrow | auro/src/detect.rs:109-186 | more samples only add reports, each exactly when it is due |
| AuroOverlap.FewOverlap | auro/src/detect.rs:123-186 | however candidates overlap, no sample is covered by more than five blocks of its carrier, reported or in waiting |
| AuroJoin.ReleasedIsFinal | auro/src/unfold.rs:99-132 | no later block that starts at or after what was released changes any released sample |
| AuroJoin.OrderDoesNotMatter | auro/src/unfold.rs:116-129 | a sample depends on each carrier's own input alone: with 24-bit values and at most 255 hits the saturating sum does not depend on the order blocks land in |
| AuroJoin.TameSum | auro/src/unfold.rs:118-129 | short of those bounds the sum never saturates |
| AuroJoin.SplitByCarrier | auro/src/unfold.rs:116-129 | adding up in order of arrival or carrier by carrier is the same |
| AuroUnfold.Unfolder.constructor | auro/src/unfold.rs:62-83 | rings for exactly the wanted streams, nothing released |
| AuroUnfold.Unfolder.Feed | auro/src/unfold.rs:106-110 | samples as authored and unclaimed, at their ring slots |
| AuroUnfold.Unfolder.Deliver | auro/src/unfold.rs:111-131 | a decoded block lands in the rings as one more log entry |
| AuroUnfold.Unfolder.Push | auro/src/unfold.rs:99-132 | samples and the blocks they complete in; rings still hold what the unbounded log says, nothing taken before changes |
| AuroUnfold.Unfolder.Frontier | auro/src/unfold.rs:135-143 | the slowest carrier less the latency, or zero |
| AuroUnfold.Unfolder.SampleAt | auro/src/unfold.rs:191-210 | the sole decoded value, else the truncated average of the saturating sum, else the first unclaimed carrier of that stream, else zero |
| AuroUnfold.Unfolder.Take | auro/src/unfold.rs:164-189 | as many frames as lag enough and fit, equal to the unbounded specification; what was taken is cleared for reuse |
| AuroUnfold.Unfolder.SetLatency | auro/src/unfold.rs:135-160 | what was released still lags exactly when nothing was, or the latency grows by no more than is ready |
| AuroUnfold.RaisedLatencyStrands | auro/src/unfold.rs:154-160 | a run: five thousand samples fed and, after finish, taken; the default latency again leaves the frontier at 904, behind them, against the comment |
| AuroUnfold.CoveredExactly | auro/src/unfold.rs:145-160 | blocks of a size, handed over on time, can never start before something was released exactly when that size, and seventeen, are at most one more than the latency |
| AuroUnfold.KeptGrows | auro/src/unfold.rs:99-189 | every frame ever taken stays what all that was told says |
| AuroUnfold.FramesAlike | auro/src/unfold.rs:164-210 | two runs whose carriers give a place alike gave the same frame for it |
| AuroChain.CarrierUnfolder.constructor | auro/src/unfold.rs:62-83 | a decoder a carrier, each with storage of its own, and rings for the wanted streams |
| AuroChain.CarrierUnfolder.Push | auro/src/unfold.rs:99-132 | at any latency that covers the blocks the samples complete: decoders and rings stay in step, what the rings were told of every carrier is exactly what its samples decode to, in order, and nothing lands where something was released |
| AuroChain.CarrierUnfolder.Take | auro/src/unfold.rs:164-189 | as many frames as are ready and fit, decoders undisturbed |
| AuroChain.DefaultCoversAll | auro/src/unfold.rs:20-24 | the default latency covers every block there can be |
| AuroChain.StrandsFirstBlock | auro/src/unfold.rs:154-160 | a run: whenever a carrier's first block is one the latency does not cover, part of it is released before it lands |
| AuroShortest.ShortestIsReported | auro/src/detect.rs:109-186 | sixteen ones that are a block of sixteen samples are reported by the zero behind them, and by nothing before it |
| AuroShortest.ShortestIsDecoded | auro/src/decode.rs:117-190 | sixteen concrete samples, sealed, decode to one stream of sixteen samples once a zero has followed them |
| AuroShortest.ShortestIsStranded | auro/src/unfold.rs:154-160 | a run: on those samples, any latency below sixteen releases part of the block before it lands |
| AuroChain.FirstIsDueNext | auro/src/unfold.rs:135-160 | and never when the latency covers it |
| AuroChain.MoreChangesNothing | auro/src/unfold.rs:99-143 | samples past the latency do not change what a carrier gives or claims at a place |
| AuroChain.FifteenHits | auro/src/unfold.rs:116-129 | a carrier gives a stream at most fifteen values at one place |
| AuroChain.SameSamplesSameFrames | auro/src/unfold.rs:99-210 | the samples of each carrier decide the frames: however they were cut into pushes, the carriers took turns and takes came in between, two runs gave the same frame for every place both released, one of them fed more than the other or not |
| AuroHeard.ToldIsDecoded | auro/src/unfold.rs:99-132 | the blocks of all carriers, put together carrier by carrier, are what their samples decode to |
| AuroHeard.FramesStay | auro/src/unfold.rs:99-189 | frames that lie the latency behind every carrier stay what they were when the carriers are fed more |
| AuroHeard.FramesGrow | auro/src/unfold.rs:99-189 | so the frames of more samples are the frames there were, and then the rest |
| AuroChain.SameStreamsSameFrames | auro/src/unfold.rs:99-210 | the same of two unfolders as they stand, with up to seventeen carriers (or any number, where a place is hit at most 255 times) and any latency that covers what either was fed beyond the other |
| AuroStage.ReadableExactly | bridge-family-dts/src/auro_pipeline.rs:297-304 | reading the first carrier's columns off a frame stays in range exactly when it has no samples or as many channels as there are carriers |
| AuroRuns.InRangeExactly | bridge-family-dts/src/auro_pipeline.rs:296-304 | so a replay stays in range exactly when that is so of every held frame |
| AuroNarrow.PanicsExactly | bridge-family-dts/src/auro_pipeline.rs:170-358 | a frame makes the stage panic exactly when it confirms a carrier of a known layout while some held frame has samples but fewer channels than the first one has speakers |
| AuroNarrow.NarrowFrameLosesAll | bridge-family-dts/src/auro_pipeline.rs:296-304 | a run: a frame of two channels, then one of one channel that confirms the carrier; the replay reads past the second, and neither frame comes out |
| AuroNarrow.RouteBoth | bridge-family-dts/src/auro_pipeline.rs:170-358 | the same run of the stage, its detector and its unfolder: both frames routed, nothing out, nothing held |
| AuroRuns.FirstFrameNames | bridge-family-dts/src/auro_pipeline.rs:289-304 | the carriers are named by the first held frame alone: what a later one with other speakers has is fed under the first one's names, column by column |
| AuroRuns.RunsConserve | bridge-family-dts/src/auro_pipeline.rs:170-358 | after any fair run (no held frame too narrow, carriers fed equally once confirmed): undecided, nothing went out and all input is held within the limit; ruled out, the input went out once each in order; confirmed, samples out are samples in less the latency |
| AuroRuns.RunsHeeded | bridge-family-dts/src/auro_pipeline.rs:170-358 | and once confirmed, the samples that went out are those an unfolder gives for all its carriers were fed, as long as the latency covers their blocks |
| AuroRuns.HoldingChangesNothing | bridge-family-dts/src/auro_pipeline.rs:296-324 | so holding back and replaying changes nothing that is heard: for frames of one layout whose channels are the lossless bed, what comes out is what an unfolder gives for the samples of all frames, whenever the confirmation came |
| AuroRuns.DecisionsStand | bridge-family-dts/src/auro_pipeline.rs:178-201 | both decisions stand until a reset |
| AuroRuns.RingsHaveRoom | auro/src/unfold.rs:99-132 | a frame of at most ring less latency never overruns the unfolder's rings |
| AuroRuns.ReplayedLevel | bridge-family-dts/src/auro_pipeline.rs:296-324 | the held frames replayed have fed every carrier its column of each, and as much has come out as they have samples past the latency |
| AuroRuns.DrainedLevel | bridge-family-dts/src/auro_pipeline.rs:328-358 | what is ready goes out as one frame: carriers fed on together stay level, and as much has gone out as they have come past the latency |
| AuroFeeding.ReadColumn | bridge-family-dts/src/auro_pipeline.rs:302-303 | the column of a frame at one index, or the read past its end exactly when there is one |
| AuroFeeding.PushAll | bridge-family-dts/src/auro_pipeline.rs:190-192 | a carrier's samples in chunks the rings take are the samples at once |
| AuroFeeding.FeedAll | bridge-family-dts/src/auro_pipeline.rs:188-194 | every speaker's samples to the carrier it plays on |
| AuroFeeding.TakenIsHeard | auro/src/unfold.rs:164-189 | what an unfolder took last is what its carriers sound like there, whatever the order their samples came in |
| AuroFeeding.Drain | bridge-family-dts/src/auro_pipeline.rs:328-358 | whatever is ready goes out as one frame, the samples in it being those its carriers sound like |
| AuroFeeding.ReplayAll | bridge-family-dts/src/auro_pipeline.rs:296-315 | the held frames through the unfolder one after the other, or the panic exactly when one lacks a column |
| AuroPipeline.ShortRunsAreAccepted | bridge-family-dts/src/auro_pipeline.rs:170-358 | what the stage is asked below always holds along a fair run of frames no longer than ring less latency whose blocks the latency covers |
| AuroPipeline.DtsAuroState.Route | bridge-family-dts/src/auro_pipeline.rs:170-240 | one frame through the detector or the unfolder: stage and output are those of the run, over a panic a stage as good as new and nothing out |
| AuroPipeline.DtsAuroState.NotACarrier | bridge-family-dts/src/auro_pipeline.rs:243-247 | a frame without lossless output rules the carrier out, releasing what was held |
| AuroPipeline.GiveUp | bridge-family-dts/src/auro_pipeline.rs:249-256 | held frames go out once each in order |
| AuroPipeline.StartUnfolding | bridge-family-dts/src/auro_pipeline.rs:258-326 | a new unfolder with everything held replayed into it, or all of it released when the layout has no known streams |
| Eac3.GuessIsTransparent | bridge-family-dolby/src/eac3_pipeline.rs:90-172 | whatever the guess, a unit comes out as the inspection rule says and moves everything but the guess as the rule does |
| Eac3.StreamsDecodeByTheRule | bridge-family-dolby/src/eac3_pipeline.rs:90-172 | whole streams decode as the rule says, from either guess |
| Eac3.GuessShowsExactly | bridge-family-dolby/src/eac3_pipeline.rs:90-147 | the guess shows in what a unit comes out as exactly when the object decoder finds objects and calls the unit complete where the core decoder, or failing that the inspection, does not, or the reverse |
| Eac3Drain.Eac3Pipeline.DecodeSpeculating | bridge-family-dolby/src/eac3_pipeline.rs:90-147 | the speculative routing: whatever was guessed, a unit the decoders, its header and its inspection agree on comes out as the inspection rule says |
| Eac3Drain.Eac3Pipeline.MergeDependents | bridge-family-dolby/src/eac3_pipeline.rs:384-405 | dependents merged onto the core in bitstream order |
| Eac3Drain.Eac3Pipeline.Drain | bridge-family-dolby/src/dolby.rs:935-965 | the frames out are those the units ought to become, continuing from the group in hand; since the last reset exactly the frames of all drains went out and the one group not known to be complete is in hand; no two frames ever overlap; and the pipeline starts afresh exactly when the extractor breaks or nothing can be made of a unit |
| Eac3Groups.Own | bridge-family-dolby/src/dolby.rs:885-931 | the dependents behind a core: at most the room left, all dependents, none past the first with JOC, and nothing short of that left out |
| Eac3Groups.DependentStep | bridge-family-dolby/src/dolby.rs:713-764 | what one dependent does to the presentation in hand, case by case |
| Eac3Groups.RunGroupsAsExpected | bridge-family-dolby/src/dolby.rs:646-931 | every run of units, whatever header, inspection and decoders say of them: each held core yields exactly one frame of exactly the dependents right behind it (cut after the first JOC or after eight), frames in core order, what is in hand at the end is the one group not known to be complete, and the run breaks off exactly at a unit nothing can be made of |
| Eac3Groups.RegularRunsIgnoreGuess | bridge-family-dolby/src/eac3_pipeline.rs:90-172 | a run of units on which header, inspection and decoders agree becomes the same frames from either guess |
| Eac3Groups.RegularFate | bridge-family-dolby/src/eac3_pipeline.rs:90-172 | such a unit comes to what the inspection rule says |
| Eac3Groups.DroppedDependentsDoNotPlay | bridge-family-dolby/src/dolby.rs:893-918 | a dependent that joins nothing, for want of a core or of room, only counts as dropped, and the second ends the group it came too late for |
| Eac3Groups.FramesPlayInOrder | bridge-family-dolby/src/eac3_pipeline.rs:229-505 | frames never overlap in time and come in the order they play, whatever the units are |

## Left out

- The audio decoders (`eac3`, `dca`, `truehd`, `iamf_dec`): an access unit carries what each decoder answers for it; decoders whose own state makes an answer depend on earlier units are not modelled.
- Floating point: the product of a sample and a linear gain is a function of the gain's table index, relied on only at the exact powers of two (codes 0, 60, 120, 180, 240); the exponential table itself, DRC gains, fold rendering and estimation, and poses are not modelled.
- `exss_substream_size` and `exss_kind` of `dca/src/hd.rs`: functions with a stated law (an answer does not change when more bytes follow); the asset parser behind them is not modelled.
- The checksum of a TrueHD major sync: a parameter of the Dolby check, whose law holds for any.
- Probe.ReplayReads: promises nothing of a run that shows the probe a window of 2^32 - 1 bytes or more at once, because the answer's 32-bit fields saturate there and the host's loop then reads a saturated offset as a position.
- Strict mode of the DTS and Dolby pipelines, panic guards, log throttling, perf counters, diagnostics strings and dumps: the lenient path only; a fatal E-AC-3 unit ends the modelled run, where the host resets the pipeline.
- Sample and frame counters are unbounded numbers, where the source has 64-bit ones.
- AuroUnfold.Unfolder.Push: takes a carrier's completed blocks as an argument; `AuroChain.CarrierUnfolder.Push` decodes them from the samples.
- AuroChain.CarrierUnfolder.Push: asks that the latency cover the blocks the samples complete; what a block that lands on places already released leaves in the rings is not modelled.
- AuroChain.SameStreamsSameFrames: asks, where there are more than seventeen carriers, that a place be hit at most 255 times, because a hit is counted in a byte that saturates.
- AuroRestore.Unmix: the product of a sample and a linear gain is a function it is given, because it is taken in single precision.
- The output rings are one array a kind, indexed by stream and slot, where the source has a pair of arrays for each wanted stream.
- AuroPipeline.DtsAuroState.Route: asks that what a frame brings fits the unfolder's rings, that the latency covers the blocks it completes, and that there are at most seventeen carriers, which `AuroPipeline.ShortRunsAreAccepted` derives for short frames; what the rings give past those bounds is not modelled. A frame is a call of its own: where several come in one packet, those sent out before a panic are lost with it.
- AuroPipeline.StartUnfolding: all columns of a held frame are read before any is pushed, where the source reads and pushes them in turn; the unfolder is dropped in either case when one cannot be read.
- AuroRuns.HoldingChangesNothing: that a frame's channels are the lossless bed exactly is asked of the frames, as the comment in the replay has it; how the decoder makes them is not modelled.
- Which configurations have layouts, and their lists of streams, are a parameter of the detector and the stage; sampling rates, labels and poses of the frames are not modelled.
- The object decoder's note of a presentation without JOC, DRC and dialogue details, channel labels and metadata contents of E-AC-3 frames.
- `eac3_spdif.rs`, `iec61937.rs` of IAMF, IEC 61937 normalisation of DTS, plugin glue, configuration keys, layout tables and everything under `scripts/`: not part of this model.
