# Verified model of the SDDC signal path

A Dafny 4.11 model of the parts of an FX3-based SDR receiver that hold real state or arithmetic: the firmware's DMA
buffer heap and clock programming, and the host's block ring, real-to-IQ conversion, mixers and Soapy stream queue.
`dafny verify dfyconfig.toml` checks everything.

## What is modelled

- **DMA buffer heap** (`Words`, `DmaBitmap`, `DmaBlocks`, `DmaBufMgr`, `DmaFragmentation`, `InUseList`, `DmaHeap`,
  `MemCopy`). The heap keeps one bit per 32-byte cache line in 32-bit words and stores no block lengths: the bit of a
  block's last line stays 0, so a free counts ones. Words are numbers below 2^32 with `|`, `&`, `~` and `<<` defined
  digit by digit. The proof goes from words to lines to a map of live blocks, over every run of allocs and frees of
  arbitrary addresses. The in-use list of the leak checks is a linked structure on the heap; the block move works in
  place on one flat memory.
- **Block ring** (`Modular`, `RingState`, `RingProtocol`, `RingTheorems`, `RingEffects`, `RingRuns`, `RingStart`,
  `RingBuffer`). `RingProtocol` is a step system of one producer, one consumer and one thread calling Stop and Start:
  program counters through the lock-free spin, the mutex and the condition variable, spurious wake-ups, the two stores
  of a commit and the four of Start, and the notify after unlock as a step of its own. `RingBuffer` is the class with
  its fields, each method run alone, with the same ring functions as specification.
- **Real to IQ** (`Complex`, `Spectrum`, `Tuning`, `R2iqStream`, `R2iq`, `Sums`, `Dft`, `Convolution`, `OverlapScrap`,
  `FilterTaps`, `FilteredOutput`). `R2iqStream.Setup.Out` is the block-free meaning: windows of 10240 samples, 8192
  apart, of one stream that starts with 2048 zeros. `R2iq.Converter` is the thread, with its arrays, history, offset and
  counter. In `R2iq` the transforms are arbitrary functions with the right output sizes; from `OverlapScrap` on they are
  discrete Fourier transforms, and the output is what it is for: the input mixed down, filtered and decimated.
- **Mixers** (`Phasors`, `Mixer`, `FineMixer`, `Oscillator`), over reals. `Phasors.Mixed` is the meaning: sample n times
  a start phasor times a rotor to the n. The trigonometric functions are parameters known only by `Trig.Lawful`
  (addition law, unit circle, period, half-angle tangent), and `PI` stands for pi.
- **Stream queue** (`StreamIndices`, `StreamSpec`, `StreamQueue`): the callback, acquire, fragmenting, release and
  discard of the Soapy stream. `StreamSpec` is the meaning, a bounded queue of blocks read in fragments; `StreamQueue`
  is the ring of buffers that refines it.
- **Si5351** (`Si5351`): normalisation, divider choice, PLL fraction and register packing, and a model of the chip's
  registers, so that the claim is about the frequency the chip makes of what it is sent.

## What was found

- The word stored for a region that is not a whole number of status words marks the right lines only when half a word
  remains (`TailWordIsRightForHalfAWord`). Both memory maps give whole words (`SDDC_FX3/cyfxtx.c:70-77`,
  `SDDC_FX3/cyfxtx.c:101-119`), which `BufferManager` requires.
- The comments on the checked heap speak of a 20-byte header and 24 extra bytes (`SDDC_FX3/cyfxtx.c:847`,
  `SDDC_FX3/cyfxtx.c:659`); the structure is 32 bytes (`SDK/fw_lib/1_3_4/inc/cyu3os.h:911-918`), so 36 are added after
  rounding up. The model follows the code.
- A search that starts in the middle of the heap misses runs that straddle its starting word, and only those
  (`MissedRunsStraddle`; `StraddlingRunIsMissed` runs into it from the empty heap in five calls); after any free it
  starts at the top and fails only if nothing fits (`SearchFromTopIsComplete`).
- Start is four stores, and the spin path reads the fields without the mutex. `StartSafety` gives the exact condition:
  neither endpoint holds a block (the producer may hold slot 0), and the ring is stopped or no acquire is entered before
  Start returns. RadioHandler keeps to it: its endpoints begin to run after TurnOn (`Core/RadioHandler.cpp:287-294`). On
  a running ring both endpoints can end up owning slot 0 (`BothCanOwnSlotZero`), and a producer asleep on a full ring
  sleeps on for good (`StartStrandsTheProducer`, `StrandedForGood`).
- The conversion thread may leave its loop with a block taken and not committed
  (`Core/fft_mt_r2iq/fft_mt_r2iq_impl.h:34`), and is started again later. That keeps the ring in order
  (`ForgetKeepsInv`).
- activateStream while a fragment is held abandons a buffer: the read and write indices are one slot apart from then on.
  They agree again only when as many fragments have been abandoned as there are buffers, or a multiple of that
  (`AgreeUnlessAbandoned`, `Reactivate`).
- The doubling loop of the clock generator runs past the R divider's seven steps exactly below 7813 Hz (`Normalise`).
- The zero fill of a fresh output block is said to preserve gaps (`Core/fft_mt_r2iq/fft_mt_r2iq_impl.h:53-56`). There
  are none: every committed block is a piece of the block-free output, at every decimation (`CommittedIsPrefix`).
- Overlap-scrap is exact at every useful sample if and only if the filter's response vanishes outside the 2048 samples
  of overlap (`OverlapIsExact`). The program's filter has 1281 taps at half the input's rate
  (`Core/fft_mt_r2iq/fft_mt_r2iq.cpp:225-240`), and those from tap 1024 on lie beyond the overlap: without decimation
  and with the centre in the middle, all 257 would have to be zero (`TapsBeyondTheOverlap`).
- The thread ignores whether a commit was taken: when the output ring is stopped in the middle of a turn, the block that
  turn completes is lost (`Commit`), and only that one (`BlocksTake2ToTheD`).
- The header asks for sizes that are multiples of 4 (`Core/pffft/pf_mixer.h:126-133`), but the loop of
  shift_limited_unroll_inp_c ends only for multiples of 128 (`InPlaceEnds`, `MixInPlace`).
- The header says sizes for the recursive oscillator must be multiples of 4 (`Core/pffft/pf_mixer.h:249`); the loops
  handle whole groups of 8 and leave the rest alone (`Oscillator.Mix`). Its step is rate * pi where the other mixers
  turn by 2 * rate * pi per sample.

## Model

| member | source | states |
|---|---|---|
| DmaBitmap.MaskedWord | SDDC_FX3/cyfxtx.c:806-823 | or-ing in or and-ing out the computed mask changes exactly bits startbit to endbit of the word, and stays within 32 bits |
| DmaBitmap.SetStatus | SDDC_FX3/cyfxtx.c:797-840 | the word loop ends and gives the value to exactly the lines startPos to startPos + numBits of the whole bitmap |
| DmaBitmap.SameBitmap | SDDC_FX3/cyfxtx.c:818-822 | two bitmaps that agree on every line are the same words |
| DmaBlocks.LinesFor | SDDC_FX3/cyfxtx.c:897-898 | the fewest lines that hold the bytes, but at least 2 |
| DmaBlocks.AllocKeepsMeaning | SDDC_FX3/cyfxtx.c:916-924 | size + 1 clear lines always leave room for a new block from the second one on: disjoint from every live block, never line 0, and marking all but its last line keeps the bitmap the union of the blocks' lines minus each last one |
| DmaBlocks.LengthIsRecovered | SDDC_FX3/cyfxtx.c:1053-1066 | the ones counted from any marked line of a live block end exactly at the block's own last line |
| DmaBlocks.FreeKeepsMeaning | SDDC_FX3/cyfxtx.c:1046-1074 | clearing the run of ones from any line leaves the bitmap of the remaining blocks; a pointer into a block truncates it, a pointer to an unmarked line frees nothing |
| DmaBlocks.BitmapIsDetermined | SDDC_FX3/cyfxtx.c:919-921 | the live blocks determine the bitmap word for word |
| DmaBlocks.OtherBlocksKeepTheirMarks | SDDC_FX3/cyfxtx.c:1046-1068 | a block that stays live keeps every mark it had, its last line clear, whatever happens to others |
| DmaBufMgr.TailWordIsRightForHalfAWord | SDDC_FX3/cyfxtx.c:731-738 | the tail word marks exactly the lines past the region if and only if 16 lines remain |
| DmaBufMgr.SearchFromTopIsComplete | SDDC_FX3/cyfxtx.c:1070-1072 | from position 0 nothing fits if and only if no run of that length exists anywhere |
| DmaBufMgr.ChosenIsNextFit | SDDC_FX3/cyfxtx.c:900-944 | the run chosen is clear, lies on one side of the search position, and no other such run comes before it in the order of the search |
| DmaBufMgr.MissedRunsStraddle | SDDC_FX3/cyfxtx.c:937-942 | a search fails if and only if every long enough run straddles the word it starts in |
| DmaFragmentation.StraddlingRunIsMissed | SDDC_FX3/cyfxtx.c:900-944 | a run of the empty heap of three words meets that: after four allocs and a free, 64 bytes are refused although lines 62 to 65 are clear |
| DmaBufMgr.EmptyHeapServes | SDDC_FX3/cyfxtx.c:900-951 | an empty heap serves every request that leaves a spare line, from the first line on |
| DmaBufMgr.StepStaysSane | SDDC_FX3/cyfxtx.c:852-1079 | one alloc or free, of any address, keeps the live blocks well placed and the bitmap exact |
| DmaBufMgr.EveryRunStaysSane | SDDC_FX3/cyfxtx.c:852-1079 | over every run: live blocks are disjoint, at least 2 lines, inside the region, never line 0, and the bitmap is exactly their lines minus each last one |
| DmaBufMgr.FreeRestartsTheSearch | SDDC_FX3/cyfxtx.c:1070-1072 | after a free of any address the next search misses nothing |
| DmaBufMgr.AllocThenFreeRestores | SDDC_FX3/cyfxtx.c:919-921 | an alloc and the free of its block restore the bitmap word for word and every other block |
| DmaBufMgr.RunsMeet | SDDC_FX3/cyfxtx.c:852-1079 | any two runs that end with the same live blocks end with the same words |
| DmaBufMgr.Search | SDDC_FX3/cyfxtx.c:900-944 | ends; takes the first run of size + 1 clear lines wholly in the words from searchPos on, else the first wholly before; finds nothing if and only if there is neither |
| DmaBufMgr.CountOnes | SDDC_FX3/cyfxtx.c:1053-1066 | the exact length of the run of ones from a line |
| DmaBufMgr.BufferManager.constructor | SDDC_FX3/cyfxtx.c:136 | an uninitialised manager |
| DmaBufMgr.BufferManager.Init | SDDC_FX3/cyfxtx.c:696-745 | sets up an all-clear bitmap once; does nothing when already initialised or when mutex or memory is refused |
| DmaBufMgr.BufferManager.Reserve | SDDC_FX3/cyfxtx.c:881-950 | returns 0 and changes nothing if and only if uninitialised or nothing fits; else the chosen run becomes a live block and searchPos the word where it was completed; in an initialised manager always one alloc step of the run system |
| DmaBufMgr.BufferManager.Release | SDDC_FX3/cyfxtx.c:1046-1074 | succeeds if and only if the address lies inside the region; then exactly one free step of the run system, and the search starts at the top again |
| InUseList.CountsStep | SDDC_FX3/cyfxtx.c:957 | modulo 2^32, allocations minus frees stays the list length |
| InUseList.InUseList.Insert | SDDC_FX3/cyfxtx.c:955-967 | the new block becomes the head of a list that stays doubly linked, with intact signatures and the allocation id |
| InUseList.InUseList.Remove | SDDC_FX3/cyfxtx.c:1019-1043 | a block at any position drops out, the others keep their order and links; reports a damaged signature exactly then |
| InUseList.InUseList.Unlink | SDDC_FX3/cyfxtx.c:1032-1040 | joins the two neighbours to each other and changes no other link |
| InUseList.InUseList.CorruptionCheck | SDDC_FX3/cyfxtx.c:1151-1182 | ends; succeeds if and only if every live block lies in the heap with both signatures intact; otherwise the newest bad block is found |
| InUseList.InUseList.ActiveBlocks | SDDC_FX3/cyfxtx.c:1125-1140 | following prev_blk visits each live block exactly once, newest first, and ends |
| DmaHeap.BlockBytes | SDDC_FX3/cyfxtx.c:888-895 | with checks the least multiple of 4 with room for request, header and footer, otherwise the request |
| DmaHeap.Heap.constructor | SDDC_FX3/cyfxtx.c:154-158 | an empty heap, checks chosen beforehand |
| DmaHeap.Heap.Track | SDDC_FX3/cyfxtx.c:953-971 | the in-use list stays exactly the headers of the live blocks when one is added, each with the size that takes up its block's lines |
| DmaHeap.Heap.Untrack | SDDC_FX3/cyfxtx.c:1019-1043 | ... and when one is removed from any position |
| DmaHeap.Heap.Alloc | SDDC_FX3/cyfxtx.c:852-977 | null if and only if uninitialised or nothing fits, and then nothing changes; else a new live block that holds header, request and footer, linked in with its size and id when checks are on |
| DmaHeap.Heap.Free | SDDC_FX3/cyfxtx.c:985-1079 | checks off: 0 if and only if the address lies inside an initialised region, with one free step; else -1 and no change |
| DmaHeap.Heap.CheckedFree | SDDC_FX3/cyfxtx.c:1017-1074 | checks on, for the pointer of a live block: exactly that block goes, from bitmap and list, and damage is reported exactly when a signature was overwritten |
| MemCopy.MovedAt | SDDC_FX3/cyfxtx.c:551-619 | after the move the destination holds the old source and nothing else has changed |
| MemCopy.MemCopy | SDDC_FX3/cyfxtx.c:551-619 | for every dest, src and count, overlapping or not: the destination ends up with what the source held and no other byte changes |
| MemCopy.CopyDown | SDDC_FX3/cyfxtx.c:557-588 | the unrolled branch from the end back, for a destination at or above the source |
| MemCopy.CopyUp | SDDC_FX3/cyfxtx.c:589-618 | the unrolled branch from the start, for a destination at or below the source |
| RingState.WriteKeeps | Core/dsp/ringbuffer.h:92-95 | writing the next slot while there is room disturbs no committed block |
| RingState.CommitKeeps | Core/dsp/ringbuffer.h:119-120 | a commit appends the block to those waiting |
| RingState.ReleaseKeeps | Core/dsp/ringbuffer.h:150-151 | a release takes the oldest committed block, with the contents it had at commit |
| RingState.AcquireKeeps | Core/dsp/ringbuffer.h:127-143 | a consumer's acquire changes no block and finds the oldest one waiting |
| RingState.EditKeeps | Core/RadioHandler.cpp:58-68 | a consumer that changes the block it holds disturbs no other waiting block |
| RingProtocol.InitiallyInv | Core/dsp/ringbuffer.h:23-32 | the fresh ring meets the invariant |
| RingProtocol.TurnKeepsInv | Core/dsp/ringbuffer.h:96-154 | every step of acquire, commit and release, by either endpoint, keeps the invariant |
| RingProtocol.ControlKeepsInv | Core/dsp/ringbuffer.h:47-61 | every step of Stop and every one of Start's four stores keeps it |
| RingProtocol.CallKeepsInv | Core/dsp/ringbuffer.h:96-143 | so does entering an acquire |
| RingProtocol.FinishKeepsInv | Core/dsp/ringbuffer.h:114-154 | so does entering a commit or release |
| RingProtocol.SpuriousKeepsInv | Core/dsp/ringbuffer.h:107-109 | so does a spurious wake-up |
| RingProtocol.ControlCallKeepsInv | Core/dsp/ringbuffer.h:47-61 | so does entering Stop or, on its callers' conditions, Start |
| RingProtocol.WriteKeepsInv | Core/dsp/ringbuffer.h:92-95 | so does the producer's work on its block outside the mutex |
| RingProtocol.EditKeepsInv | Core/RadioHandler.cpp:58-68 | so does the consumer's work on the block it holds |
| RingProtocol.ForgetKeepsInv | Core/fft_mt_r2iq/fft_mt_r2iq_impl.h:34 | so does an endpoint that leaves its loop with a block in hand, which it never commits or releases |
| RingProtocol.StepKeepsInv | Core/dsp/ringbuffer.h:47-154 | every action of every thread keeps the invariant, if callers keep to their side of Start |
| RingTheorems.RunKeepsInv | Core/dsp/ringbuffer.h:47-154 | the invariant holds in every state of every run |
| RingTheorems.EveryRunIsSafe | Core/dsp/ringbuffer.h:92-154 | in every interleaving: the endpoints never own the same slot and own the one their index names; what the consumer found in the block it holds is the oldest block committed and not released, as it was committed; outside Start, released blocks are a prefix of committed ones and 0 <= count <= size; outside the two stores of a commit or release too, write index = read index + count modulo size |
| RingTheorems.HeldBlockIsStable | Core/dsp/ringbuffer.h:92-95 | no step but the consumer's own work changes the slot it holds |
| RingTheorems.AcquiredIsFound | Core/dsp/ringbuffer.h:127-143 | what a consumer finds is what its slot holds at that moment, except when it takes a block again that it gave up unreleased |
| RingTheorems.NoLostWakeUp | Core/dsp/ringbuffer.h:105-109 | an endpoint asleep with its predicate true has a notify to come; the two are never both asleep with none coming |
| RingTheorems.NoDeadlock | Core/dsp/ringbuffer.h:96-154 | if no thread can move, each endpoint is between calls, holding a block, or asleep with its wait predicate really false, and not both asleep |
| RingTheorems.EnabledMovesExist | Core/dsp/ringbuffer.h:96-154 | in every reachable state the turns NoDeadlock speaks of can really be made |
| RingTheorems.StopWakesEveryone | Core/dsp/ringbuffer.h:55-61 | once Stop has returned no endpoint is asleep, until the next Start |
| RingTheorems.LaterAcquiresReturnNull | Core/dsp/ringbuffer.h:100-110 | an acquire entered while the ring is stopped never gets a block and never sleeps, for as long as it stays stopped |
| RingTheorems.OnlyStartReopens | Core/dsp/ringbuffer.h:52 | only the last store of Start ends that |
| RingTheorems.RefusedCallEnds | Core/dsp/ringbuffer.h:98-110 | ... and ends after at most three turns of its own |
| RingEffects.CallsAreEntered | Core/dsp/ringbuffer.h:96-154 | a call of an acquire, commit or release is entered, and nothing else changes |
| RingEffects.HoldersMove | Core/dsp/ringbuffer.h:92-95 | work on a block changes that slot alone, to the value written; giving a block up and waking up without a notification change only the endpoint's place |
| RingEffects.AcquireOutcome | Core/dsp/ringbuffer.h:96-143 | an acquire returns null only on a stopped ring, else the endpoint's own slot, with room in the ring or a block to read |
| RingEffects.SleepsOnlyWithCause | Core/dsp/ringbuffer.h:105-109 | an acquire goes to sleep only on a full or empty ring that is not stopped |
| RingEffects.CommitOutcome | Core/dsp/ringbuffer.h:114-125 | a commit ends refused by a stopped ring, with nothing changed, or with the content of the producer's slot behind the blocks committed and one more available |
| RingEffects.CommitLooksOnce | Core/dsp/ringbuffer.h:117 | it is refused exactly when the ring is stopped at its one look in the mutex |
| RingEffects.ReleaseOutcome | Core/dsp/ringbuffer.h:145-154 | a release always ends with the oldest waiting block released as it was committed, one less available and the read index moved on |
| RingEffects.CallsEnd | Core/dsp/ringbuffer.h:96-154 | every turn of an endpoint lowers a bound of 203, which is 0 only between calls, with a block in hand, or asleep |
| RingEffects.ControlOutcome | Core/dsp/ringbuffer.h:47-61 | Stop returns only with `stopped` set, and Start only with all four fields reset |
| RingEffects.IsQueue | Core/dsp/ringbuffer.h:92-154 | the blocks waiting are a bounded queue: only a commit appends, the content of the producer's slot; only a release takes the first; no other step changes them |
| RingEffects.ProducersBlockIsStable | Core/dsp/ringbuffer.h:92-95 | while the producer has a block only its own writes change it |
| RingEffects.WrittenIsCommitted | Core/dsp/ringbuffer.h:92-125 | in every run the value last written into a block is the value committed, unless the ring is stopped when the commit looks or the producer's thread ends first |
| RingEffects.FoundIsReleased | Core/dsp/ringbuffer.h:127-154 | in every run, of a consumer's block exactly the one that was oldest at the acquire leaves the ring, whatever was committed meanwhile, unless the consumer's thread ends first |
| RingRuns.CommitOne | Core/dsp/ringbuffer.h:96-125 | from every state with room, run alone, a commit can be made and adds the block in the producer's slot |
| RingRuns.ReleaseOne | Core/dsp/ringbuffer.h:127-154 | from every state with a block waiting, run alone, it can be read and released |
| RingRuns.AnySequencePasses | Core/dsp/ringbuffer.h:92-154 | any sequence of values can be written, committed, read and released, in order, through a fresh ring of any size |
| RingStart.StartSafety | Core/dsp/ringbuffer.h:47-53 | for endpoints between calls: whatever the interleaving during and after Start, callers can rely on the ring if and only if the consumer holds no block, the producer none but slot 0, and either the ring is stopped or no acquire is entered until Start returns |
| RingStart.GoodStart | Core/dsp/ringbuffer.h:47-53 | under these conditions every interleaving keeps the invariant |
| RingStart.BothCanOwnSlotZero | Core/dsp/ringbuffer.h:47-53 | without them, on a running ring, both endpoints can end up owning slot 0 |
| RingStart.StartStrandsASleeper | Core/dsp/ringbuffer.h:47-53 | Start leaves every producer it finds asleep, with nothing else under way, asleep on the empty ring |
| RingStart.StartStrandsTheProducer | Core/dsp/ringbuffer.h:47-53 | a run from any fresh ring, whatever its size, gets there: the producer fills it and falls asleep |
| RingStart.StrandedForGood | Core/dsp/ringbuffer.h:105-109 | it then sleeps on through every continuation without Stop, Start or a spurious wake-up of its own |
| RingBuffer.RingBuffer.constructor | Core/dsp/ringbuffer.h:23-32 | an empty running ring |
| RingBuffer.RingBuffer.Start | Core/dsp/ringbuffer.h:47-53 | empties and reopens the ring |
| RingBuffer.RingBuffer.Stop | Core/dsp/ringbuffer.h:55-61 | sets `stopped` and nothing else |
| RingBuffer.RingBuffer.Acquire | Core/dsp/ringbuffer.h:96-112 | run alone: null if and only if stopped; a wait if and only if running and full, or empty for the consumer; else a free slot, or the slot of the oldest waiting block, and nothing changes |
| RingBuffer.RingBuffer.WriteBlock | Core/dsp/ringbuffer.h:92-95 | the caller's block, and no other, changes |
| RingBuffer.RingBuffer.CommitWriteBlock | Core/dsp/ringbuffer.h:114-125 | refused and without effect when stopped, else the block written joins the waiting ones at the end |
| RingBuffer.RingBuffer.ReleaseReadBlock | Core/dsp/ringbuffer.h:145-154 | without effect on an empty ring, else the oldest block leaves and the others stay |
| RingBuffer.RingBuffer.Push | Core/dsp/ringbuffer.h:156-162 | appends to the waiting blocks, unless stopped or full |
| RingBuffer.RingBuffer.Pop | Core/dsp/ringbuffer.h:164-171 | takes the oldest waiting block, unless stopped or empty |
| Spectrum.ShiftFreq | Core/fft_mt_r2iq/fft_mt_r2iq.h:79-88 | entries start to end become products of the two sources, no other entry changes |
| Spectrum.FillShort | Core/fft_mt_r2iq/fft_mt_r2iq_impl.h:123-182 | for every centre bin and size, in bounds: bin b, j = b - centre bins from the centre with j in [-h, h), lands at j mod 2h as spectrum[b] * filter[j mod HALF]; every index no bin lands at holds zero |
| Spectrum.FillUpper | Core/fft_mt_r2iq/fft_mt_r2iq_impl.h:158-170 | the half from the centre bin up, and its padding |
| Spectrum.FillLower | Core/fft_mt_r2iq/fft_mt_r2iq_impl.h:172-182 | the half below the centre bin, and its padding |
| Spectrum.RotatedBins | Core/fft_mt_r2iq/fft_mt_r2iq_impl.h:123-182 | a sequence with that bin-by-bin content is the short spectrum the later theorems speak of |
| Tuning.SetFreqOffset | Core/fft_mt_r2iq/fft_mt_r2iq.cpp:107-127 | for a request in [0, 1] the multiple of 20 nearest to offset * HALF, and bin / HALF minus residual / ratio is the request exactly; above 1 the last bin, below 0 the first, with no residual |
| Tuning.PhaseContinuity | Core/fft_mt_r2iq/fft_mt_r2iq.cpp:115-120 | n windows advance the phase by whole turns for every n if and only if the bin is a multiple of 5 |
| Tuning.DecimationTables | Core/fft_mt_r2iq/fft_mt_r2iq.cpp:34-46 | ratios 2^d and the short sizes, halved from 5120 |
| Tuning.SizesDivide | Core/fft_mt_r2iq/fft_mt_r2iq_impl.h:7-12 | at every decimation short size * ratio = 5120 and useful size * ratio = 4096 exactly |
| Words.MaskIsMod | Core/fft_mt_r2iq/fft_mt_r2iq_impl.h:225 | masking with 2^d - 1 is the remainder modulo 2^d |
| Words.XorBit | Core/fft_mt_r2iq/fft_mt_r2iq.h:69 | the exclusive or flips exactly the bits of the mask |
| R2iqStream.XorMinus2 | Core/fft_mt_r2iq/fft_mt_r2iq.h:67-70 | xor with -2 on the 16-bit pattern negates odd samples and takes even ones to -x - 2 |
| R2iqStream.Convert | Core/fft_mt_r2iq/fft_mt_r2iq.h:62-77 | with the randomiser on odd samples change their sign, all others are kept |
| R2iqStream.RandomiserUndone | Core/fft_mt_r2iq/fft_mt_r2iq.h:62-77 | conversion recovers every sample the ADC's randomiser scrambled |
| R2iqStream.Setup.Yield | Core/fft_mt_r2iq/fft_mt_r2iq_impl.h:149-221 | a window yields exactly the useful number of samples |
| R2iqStream.YieldAt | Core/fft_mt_r2iq/fft_mt_r2iq_impl.h:207-221 | sample i of it is sample i of the short inverse transform, with Q negated for the lower sideband |
| R2iqStream.OutOfWindow | Core/fft_mt_r2iq/fft_mt_r2iq_impl.h:150-154 | window j starts at sample 8192 j and fills outputs j * useful to (j + 1) * useful |
| R2iqStream.BoundariesAreInvisible | Core/fft_mt_r2iq/fft_mt_r2iq_impl.h:98-102 | a stream may be cut at any window boundary if its last 2048 samples are carried over |
| R2iqStream.NextWindow | Core/fft_mt_r2iq/fft_mt_r2iq_impl.h:143-154 | window k of a stretch adds exactly the output beyond that of the samples before it |
| R2iq.ConvertFloat | Core/fft_mt_r2iq/fft_mt_r2iq.h:62-77 | the converted samples land in place and nothing else changes |
| R2iq.Copy | Core/fft_mt_r2iq/fft_mt_r2iq.h:90-108 | the copied samples, conjugated for the lower sideband, land in place and nothing else changes |
| R2iq.Window | Core/fft_mt_r2iq/fft_mt_r2iq_impl.h:145-221 | one pass of the window loop stores that window's yield at its place and changes nothing else of the output |
| R2iq.WindowFits | Core/fft_mt_r2iq/fft_mt_r2iq_impl.h:207-209 | the first assert of the loop holds for every count, window and decimation |
| R2iq.Turn | Core/fft_mt_r2iq/fft_mt_r2iq_impl.h:224-231 | the offset is the count times the yield of an input block; when the masked counter comes round the output block is exactly full, so the second assert holds |
| R2iq.Converter.constructor | Core/fft_mt_r2iq/fft_mt_r2iq_impl.h:23-32 | the thread starts from a history of zeros with nothing produced |
| R2iq.Converter.Load | Core/fft_mt_r2iq/fft_mt_r2iq_impl.h:66-102 | history and block lie side by side, converted, and the block's last 2048 samples become the history |
| R2iq.Converter.Windows | Core/fft_mt_r2iq/fft_mt_r2iq_impl.h:141-222 | all windows of the loaded samples are stored behind the earlier output, in bounds, as their block-free output |
| R2iq.Converter.BlockAdds | Core/fft_mt_r2iq/fft_mt_r2iq_impl.h:98-102 | what history and block yield is what the block adds to the output of everything heard |
| R2iq.Converter.Account | Core/fft_mt_r2iq/fft_mt_r2iq_impl.h:224-231 | the produced samples are kept; exactly when the counter comes round the block is full, and it is committed unless the ring refuses it |
| R2iq.Converter.Begin | Core/fft_mt_r2iq/fft_mt_r2iq_impl.h:45-57 | taking and clearing an output block loses nothing |
| R2iq.Converter.Process | Core/fft_mt_r2iq/fft_mt_r2iq_impl.h:59-231 | after the loop body, produced output = block-free output of everything heard, for the stream one block longer; the committed blocks are the full ones, short of the last if the ring refused it |
| R2iq.Converter.Commit | Core/dsp/ringbuffer.h:114-117 | a stopped ring drops the full block, and the thread goes on as if it had taken it |
| R2iq.Converter.Iterate | Core/fft_mt_r2iq/fft_mt_r2iq_impl.h:34-234 | one turn of the loop, early exits included, keeps that |
| R2iq.Converter.Run | Core/fft_mt_r2iq/fft_mt_r2iq_impl.h:34-236 | for any number of input blocks: everything up to the exit is heard, in order, and the produced output is the block-free output; it exits exactly when switched off or when it needs an output block and the ring is stopped; only the commit of the last turn can have been refused |
| R2iq.Converter.CommittedIsPrefix | Core/fft_mt_r2iq/fft_mt_r2iq_impl.h:224-231 | the concatenated committed blocks are a prefix of the block-free output |
| R2iq.Converter.CommittedAt | Core/fft_mt_r2iq/fft_mt_r2iq_impl.h:224-231 | block j committed is the j-th stretch of its length of the block-free output |
| R2iq.SamplesAt | Core/fft_mt_r2iq/fft_mt_r2iq_impl.h:98-102 | the input of turn j lies in its place in what was heard |
| R2iq.Converter.BlocksTake2ToTheD | Core/fft_mt_r2iq/fft_mt_r2iq_impl.h:225-231 | one full block for every 2^d input blocks, exactly; all are committed but for the last when it was refused, and that one was completed by the last input block |
| Dft.RootExists | Core/fft_mt_r2iq/fft_mt_r2iq.cpp:262-268 | cosine and sine of multiples of 2 pi / 10240 are a root of unity as the transforms need it |
| Dft.SpacedCancel | Core/fft_mt_r2iq/fft_mt_r2iq.cpp:214-240 | equally spaced powers of a root add up to zero unless they coincide |
| OverlapScrap.WindowIsFiltered | Core/fft_mt_r2iq/fft_mt_r2iq_impl.h:143-189 | with discrete Fourier transforms, sample m of a window is the window mixed down by the centre bin and filtered circularly at position m * 2 * ratio, for every filter, centre bin and decimation |
| OverlapScrap.OnePhase | Core/fft_mt_r2iq/fft_mt_r2iq.cpp:115-120 | for a centre bin that is a multiple of 5 the mixing phase of a window is that of the stream |
| OverlapScrap.StreamIsFiltered | Core/fft_mt_r2iq/fft_mt_r2iq_impl.h:143-221 | every output sample of every stream is the input mixed down with one phase from the first sample on, filtered over its window, decimated by 2 * ratio, mirrored for the lower sideband |
| Convolution.FitsIsExact | Core/fft_mt_r2iq/fft_mt_r2iq_impl.h:143-146 | a response that vanishes outside the overlap filters a window as it filters the line |
| OverlapScrap.OverlapIsExact | Core/fft_mt_r2iq/fft_mt_r2iq_impl.h:143-146 | that holds for every window and every useful sample if and only if the response vanishes at every lag outside the 2048 samples of overlap |
| OverlapScrap.WindowsAreInvisible | Core/fft_mt_r2iq/fft_mt_r2iq_impl.h:143-221 | then every output sample is one and the same filter over the 2049 samples from its own position on |
| FilterTaps.ResponseIsTaps | Core/fft_mt_r2iq/fft_mt_r2iq.cpp:214-240 | without decimation and centred in the middle, the response at even lags is the filter's taps |
| FilterTaps.TapsBeyondTheOverlap | Core/fft_mt_r2iq/fft_mt_r2iq.cpp:225-240 | so overlap-scrap is exact only if the taps from 1024 to 1280 are zero |
| FilteredOutput.CommittedIsFiltered | Core/fft_mt_r2iq/fft_mt_r2iq_impl.h:34-236 | for the conversion thread: every sample of the blocks committed is everything heard, converted, mixed down and filtered that way |
| Phasors.PowerAdd | Core/pffft/pf_mixer.cpp:141-163 | rotating m and then n samples is rotating m + n |
| Phasors.PowerUnit | Core/pffft/pf_mixer.cpp:451-456 | rotations keep the modulus at 1, so that normalisation changes nothing |
| Phasors.MixedSplit | Core/pffft/pf_mixer.cpp:853-855 | a stream may be cut anywhere if the second part starts from the phasor the first ended on |
| Phasors.SplitsAreInvisible | Core/pffft/pf_mixer.cpp:853-855 | any split of a stream into calls gives the output of one call |
| Phasors.Trig.MixedTurns | Core/pffft/pf_mixer.cpp:141-163 | in terms of angles: sample n of a mixed stream is input n turned by phase + n * increment |
| Phasors.Trig.WrapPhase | Core/pffft/pf_mixer.cpp:159-160 | the wrapping loops end, keep the phasor and land in the range |
| Phasors.Trig.Multiples | Core/pffft/pf_mixer.cpp:276 | n phase increments are the n-th power of one |
| Mixer.ShiftMath | Core/pffft/pf_mixer.cpp:141-163 | the one-step rotation stream, the phase moved on by as many samples, and the rest of the output untouched |
| Mixer.FillTable | Core/pffft/pf_mixer.cpp:340-348 | entry i of the table is the rotor to the i + 1, wrapping included |
| Mixer.FillMultiples | Core/pffft/pf_mixer.cpp:236-240 | the same for the table without wrapping |
| Mixer.UnrollData.constructor | Core/pffft/pf_mixer.cpp:333-350 | a table of powers of the rotor of 2 * rate * pi |
| Mixer.UnrollData.Mix | Core/pffft/pf_mixer.cpp:363-382 | the same stream as shift_math_cc, for up to the table's size |
| Mixer.AddFastData.constructor | Core/pffft/pf_mixer.cpp:232-242 | a table of four powers |
| Mixer.AddFastData.Mix | Core/pffft/pf_mixer.cpp:252-280 | that stream one step ahead, for whole groups of four; the returned phase is that of the whole input |
| Mixer.LimitedUnrollData.constructor | Core/pffft/pf_mixer.cpp:413-429 | a table of 128 powers and phase 1 |
| Mixer.LimitedUnrollData.Block | Core/pffft/pf_mixer.cpp:439-450 | a block mixes whole groups of four and leaves the phasor that much further on |
| Mixer.LimitedUnrollData.Mix | Core/pffft/pf_mixer.cpp:432-464 | the same stream, block after block, for whole groups of four of any size; the state is rotated by as many samples |
| Mixer.LimitedUnrollData.MixInPlace | Core/pffft/pf_mixer.cpp:467-508 | the same in place, for any size: whole groups of four are mixed; the loop ends, and the phase is stored, if and only if the size is a multiple of 128 |
| Mixer.InPlaceEnds | Core/pffft/pf_mixer.cpp:475-503 | a count that goes down by 128 a block comes to 0 if and only if it is a multiple of 128 |
| Mixer.Normalised | Core/pffft/pf_mixer.cpp:451-456 | division by the magnitude is the identity on unit phasors |
| FineMixer.LanewiseProduct | Core/pffft/pf_mixer.cpp:829-830 | the vector product multiplies lane by lane |
| FineMixer.ProductOfSamples | Core/pffft/pf_mixer.cpp:815-820 | unpacking, multiplying and packing puts each sample times its lane back in its place |
| FineMixer.LookUp | Core/pffft/pf_mixer.cpp:827-831 | entry e of the table takes all four lanes 4 (e + 1) samples on from the start of the block |
| FineMixer.NormaliseLanes | Core/pffft/pf_mixer.cpp:835-850 | division by the magnitudes is the identity on unit lanes |
| FineMixer.FillTable | Core/pffft/pf_mixer.cpp:757-773 | entry e of the interleaved table holds the rotor to the 4 (e + 1), four times over |
| FineMixer.FirstLanes | Core/pffft/pf_mixer.cpp:778-786 | lane i starts i samples on |
| FineMixer.Quad | Core/pffft/pf_mixer.cpp:812-821 | four samples in place, each times its own phasor |
| FineMixer.FineTune.constructor | Core/pffft/pf_mixer.cpp:750-788 | tables and lanes for the rotor of 2 * relative_freq * pi, starting at the given phase |
| FineMixer.FineTune.Block | Core/pffft/pf_mixer.cpp:807-833 | a block of at most 128 samples, the lanes that much further on |
| FineMixer.FineTune.Mix | Core/pffft/pf_mixer.cpp:792-856 | for every N divisible by 4: output n is input n * start * r^n, and the state is rotated by r^N |
| FineMixer.FineTune.MixCalls | Core/pffft/pf_mixer.cpp:792-856 | for any list of calls, the outputs joined are the output of one call on the inputs joined |
| Oscillator.StepIsRotation | Core/pffft/pf_mixer.cpp:909-912 | the three-line update rotates every phasor if and only if k2 (1 + k1^2) = 2 k1 |
| Oscillator.RotorIsUnit | Core/pffft/pf_mixer.cpp:902-903 | that rotation has modulus 1 |
| Oscillator.StepsRotate | Core/pffft/pf_mixer.cpp:909-912 | over any number of steps the oscillator is the n-fold rotation and u^2 + v^2 never changes |
| Oscillator.HalfAngle | Core/pffft/pf_mixer.cpp:901-903 | the constants from the half-angle tangent rotate by exactly the angle |
| Oscillator.BlockConstants | Core/pffft/pf_mixer.cpp:915-920 | the block constants rotate by the single step to the 8th power, wrapping included |
| Oscillator.Oscillator.SpaceLanes | Core/pffft/pf_mixer.cpp:904-913 | the eight lanes stand one step apart, the first unchanged |
| Oscillator.Oscillator.UpdateRate | Core/pffft/pf_mixer.cpp:898-921 | lanes and constants for the new rate, the phase kept |
| Oscillator.Oscillator.constructor | Core/pffft/pf_mixer.cpp:923-936 | starts at the given phase |
| Oscillator.Oscillator.StepLanes | Core/pffft/pf_mixer.cpp:962-968 | the three loops turn every lane by the block rotation |
| Oscillator.AllOn | Core/pffft/pf_mixer.cpp:962-968 | after that the lanes stand eight samples on, still one step apart |
| Oscillator.Oscillator.Mix | Core/pffft/pf_mixer.cpp:940-971 | the eight-lane loop mixes with the scalar oscillator's sequence, for whole groups of eight |
| Oscillator.Oscillator.MixInPlace | Core/pffft/pf_mixer.cpp:974-1005 | the same in place |
| Oscillator.Oscillator.Generate | Core/pffft/pf_mixer.cpp:1008-1032 | the bare sequence start * r^n |
| StreamIndices.Indices.GapAfter | SoapySDDC/Streaming.cpp:96-202 | storing, taking, giving back and discarding keep write = read - held + count modulo the number of buffers; abandoning a held buffer moves them apart by one slot |
| StreamIndices.AgreeUnlessAbandoned | SoapySDDC/Streaming.cpp:96-107 | over every run the indices agree if and only if the number of fragments abandoned by activateStream is a multiple of the number of buffers |
| StreamSpec.ArrivalsQueue | SoapySDDC/Streaming.cpp:176-184 | the blocks that arrive during a wait are queued from the first on, up to a first one dropped |
| StreamSpec.ConservedByRead | SoapySDDC/Streaming.cpp:118-194 | one read keeps the record of samples: nothing is lost, doubled or reordered between discards |
| StreamSpec.ReadMeans | SoapySDDC/Streaming.cpp:118-194 | a read reports an overflow, a time-out or samples, each exactly when it must; the samples come from the block being read, the oldest one waiting or the first to arrive, as many as asked for or the rest of the block; moreFragments if and only if some is left |
| StreamSpec.NothingLostOrReordered | SoapySDDC/Streaming.cpp:96-202 | for any events in any order: the samples read since the last discard, then the rest of the block being read, are the beginning of those offered since, and unless one was dropped the blocks waiting are exactly the rest |
| StreamSpec.ReadsAreTheStream | SoapySDDC/Streaming.cpp:96-202 | without activation and overflow, all that the reads returned is the beginning of all that the callback brought, and unless a block was just dropped the rest is still there |
| StreamQueue.StreamQueue.constructor | SoapySDDC/Streaming.cpp:69-78 | an empty queue |
| StreamQueue.StreamQueue.ActivateStream | SoapySDDC/Streaming.cpp:96-107 | at any time: asks for a reset; the queue stays consistent if and only if no buffer was held, which is otherwise abandoned |
| StreamQueue.StreamQueue.Reactivate | SoapySDDC/Streaming.cpp:96-107 | after the reset that follows the queue is consistent if and only if no buffer was held or there is only one |
| StreamQueue.StreamQueue.Callback | SoapySDDC/Settings.cpp:36-58 | on a full queue drops the block and records an overflow, else the block is queued behind the others |
| StreamQueue.StreamQueue.Store | SoapySDDC/Settings.cpp:45-54 | the block goes behind the last one queued, never into the slot being read |
| StreamQueue.StreamQueue.Discard | SoapySDDC/Streaming.cpp:162-172 | throws away everything queued; the queue is consistent afterwards if and only if the indices agreed before |
| StreamQueue.StreamQueue.AcquireReadBuffer | SoapySDDC/Streaming.cpp:153-194 | an overflow, a time-out or the oldest block, each exactly when the bounded queue of blocks says so, and the queue it leaves |
| StreamQueue.StreamQueue.Take | SoapySDDC/Streaming.cpp:185-193 | the oldest block, where it lies; the read index moves on, the count does not |
| StreamQueue.StreamQueue.ReleaseReadBuffer | SoapySDDC/Streaming.cpp:196-202 | gives the slot back and keeps the index relation |
| StreamQueue.StreamQueue.ReadStream | SoapySDDC/Streaming.cpp:118-151 | reply and queue are those of the bounded queue of blocks; overflow, time-out and samples each exactly when they must come, and of samples the minimum of what is asked for and what is left |
| StreamQueue.StreamQueue.Deliver | SoapySDDC/Streaming.cpp:136-150 | exactly min(asked, left) samples, the next ones of the block, read from the slot; the block goes back exactly when it is used up |
| StreamQueue.StreamQueue.Session | SoapySDDC/Streaming.cpp:96-202 | for any callbacks, activations between blocks and reads of any size in any order: every reply is the queue's, so what the caller has read is the beginning of what was offered, without gap or duplicate |
| Si5351.PackRoundTrips | SDDC_FX3/driver/Si5351.c:97-104 | decoding the masked and shifted bytes gives the parameters back if and only if P1 fits 18 bits and P2 and P3 fit 20 |
| Si5351.PackIs | SDDC_FX3/driver/Si5351.c:97-104 | what the masks, shifts and ors put into each byte |
| Words.AndShifted | SDDC_FX3/driver/Si5351.c:97-104 | a mask moved up picks the bits moved up |
| Words.OrAdds | SDDC_FX3/driver/Si5351.c:102 | or-ing numbers whose bits do not meet adds them |
| Si5351.Normalise | SDDC_FX3/driver/Si5351.c:156-164 | the doubling loop ends at or above 1 MHz (for the second clock above), and below twice that once it has doubled; seven doublings are enough if and only if the frequency is at least 7813 Hz |
| Si5351.PllRange | SDDC_FX3/driver/Si5351.c:168-172 | the divider is even and in 6..900 and puts the PLL between 675 and 900 MHz |
| Si5351.LargestDivider | SDDC_FX3/driver/Si5351.c:168-170 | no larger even divider keeps the PLL at or below 900 MHz |
| Si5351.PlanHolds | SDDC_FX3/driver/Si5351.c:176-182 | the multiplier lies in 25..33 and num is below denom |
| Si5351.PllDecodes | SDDC_FX3/driver/Si5351.c:82-107 | the PLL bytes decode to P2 < P3 with (P1 + 512) * P3 + P2 = 128 * (mult * P3 + num) |
| Si5351.SynthDecodes | SDDC_FX3/driver/Si5351.c:113-135 | the synthesiser bytes decode to the integer divider and the R divider |
| Si5351.FractionError | SDDC_FX3/driver/Si5351.c:176-182 | the PLL falls short of divider * frequency by less than one step of the fraction |
| Si5351.OutputIsAccurate | SDDC_FX3/driver/Si5351.c:168-182 | so the output is at or below the request by less than 27e6 / (1048575 * divider * 2^r) Hz |
| Si5351.RegistersAreAccurate | SDDC_FX3/driver/Si5351.c:156-190 | the same of the decoded register bytes |
| Si5351.SetFrequency | SDDC_FX3/driver/Si5351.c:137-263 | whatever the chip's registers held: the output runs if and only if the frequency is not 0, on its own PLL, which has been reset; from 7813 Hz to 150 MHz what the chip makes of the registers of the PLL its control register selects and of its own synthesiser is the frequency within that bound; no register of another output or of the other PLL changes |
| Si5351.Program | SDDC_FX3/driver/Si5351.c:184-196 | what the four transfers leave in the chip's 256 registers |
| Si5351.Tune | SDDC_FX3/driver/Si5351.c:156-190 | the bytes for PLL and synthesiser give the frequency within the bound |
| Si5351.SwitchOff | SDDC_FX3/driver/Si5351.c:150-154 | frequency 0 powers the output down and changes nothing else |
| Si5351.OtherOutputStays | SDDC_FX3/driver/Si5351.c:200-259 | programming one clock leaves the other's frequency and running as they were |

## Left out

- USB, I2C and GPIO transfers, the FX3 SDK, ThreadX, FFTW, the Soapy and ExtIO glue, dialogs, the command line: input, output and libraries.
- Mutex acquisition failures of the heap: the locked bodies are modelled. CyU3PMemSet, CyU3PMemCmp and the byte-pool heap would only add easy members.
- DmaBufMgr.BufferManager.Init: the tail word is not part of it, because the region is a whole number of words; the outcomes of the mutex and memory requests are parameters.
- DmaHeap.Heap.Alloc: header and footer are objects beside the block, not bytes inside it; that their bytes lie inside the block's own lines is stated, overwriting them by a caller is not modelled except as damaged signatures. Addresses are numbers without wrap-around.
- RingProtocol.StepKeepsInv: atomics are sequentially consistent, as one total order of steps; one thread calls Stop and Start; the statistics counters and setBlockSize are left out.
- RingTheorems.NoDeadlock: says that some thread can move, not that a scheduler lets it; fairness is not modelled.
- RingBuffer.RingBuffer.Acquire: one thread alone cannot sleep and be woken, so the wait is a result of its own; spin, mutex path and sleep are in RingProtocol.
- RingBuffer.RingBuffer.Push: on a full ring the wait is a result, as in Acquire.
- RingBuffer.RingBuffer.Pop: on an empty ring the wait is a result, as in Acquire.
- RingStart.StartSafety: states with an endpoint inside a call when Start is entered are not covered by the condition, because no caller can tell where in the call it is; one of them is StartStrandsTheProducer.
- WaitUntilNotEmpty and WaitUntilNotFull of the ring: waits whose predicate ignores `stopped`.
- R2iq.Converter.Run: rand mode, sideband, centre bin and decimation are fixed per run, one worker thread runs (N_MAX_R2IQ_THREADS is 1), and both rings appear as what the thread finds in them; an output ring once stopped stays stopped for the run.
- R2iqStream.Setup.Yield: the transforms are arbitrary functions here, and exact discrete Fourier transforms from OverlapScrap on; rounding is not modelled. The filter's taps are arbitrary: KaiserWindow and gain are left out.
- FilterTaps.ResponseIsTaps: assumes a primitive root of unity, which the laws of Trig do not give; other decimations and centre bins cut the filter's spectrum and are not covered.
- Tuning.SetFreqOffset: reals, so binary32 rounding of offset and residual is not modelled.
- Mixer.ShiftMath: reals, with PI as pi itself; rounding, and with it drift and its correction by normalisation, is not modelled. Inputs do not overlap outputs.
- shift_table_cc (its index cast does not support the property), shift_addfast_inp_c and shift_unroll_inp_c, the A and B vector variants and the vector oscillator: the same recurrences.
- Mixer.LimitedUnrollData.MixInPlace: when the size is not a multiple of 128 the loop goes on with a negative count, mixing nothing; the method stops there and says so.
- Oscillator.Oscillator.constructor: excludes the same rates as UpdateRate.
- Oscillator.Oscillator.UpdateRate: rates where the angle of a step or of a block is half a turn are excluded, because the half-angle tangent does not exist.
- StreamQueue.StreamQueue.Session: activation comes between blocks (ActivateStream says what happens otherwise); each method is one atomic step, the callbacks that arrive during a wait being part of the read; races on the unsynchronised indices, time-outs as times and the copy into the caller's memory are not modelled.
- Si5351.SetFrequency: the binary32 quotient of setupPLL is the exact one rounded down (a few num values round up in binary32); below 7813 Hz and above 150 MHz only the registers addressed are stated, not what the chip makes of them.
- Radio model classes, gain tables, sample-rate switching and RadioHandler's shutdown: single-branch device commands, or needing fairness of incoming data.
