# audiomap: the verified bookkeeping core

audiomap is a single-window Win32 sample browser. The user picks a folder. The
program then decodes every `.wav`, `.mp3` and `.flac` file in it to 16-bit PCM
and keeps one record per file in a fixed table of 2000 slots. Each record holds
the file name, a 64-point waveform preview, a zero-crossing rate and an RMS
level, which become the file's map coordinates, and a colour taken from the
crossing rate. The map is rescaled when the folder is dense. An index is kept
sorted by colour. Hovering a point links it to its five nearest neighbours, the
context menu finds the most similar sample, and a click plays the file from an
in-memory WAV image at half volume.

This project models the integer and ordering logic under that interface:

- `Bytes`: little-endian 16- and 32-bit fields, and conversion between bytes and shorts.
- `CArith`: the C conversions the code relies on, meaning truncation toward zero and integer halving.
- `Decoder`: the PCM accumulation loop of `AudioDecoder::Load`.
- `Features`: the crossing count, the waveform preview and the file name of `ProcessFile`.
- `Colour`: the two-segment colour gradient, the blend toward white, `RGB` packing and `CompareSamplesColor`.
- `Catalog`: the table as a value, covering one file's commit, the file loop of `ScanDirectory` with its capacity guard, and the uniform rescale.
- `IndexSort`: `SortSamples`, which fills an index array and sorts it by colour.
- `Bounds`: the min/max scan and range widening of `UpdateBounds`.
- `Neighbours`: the five-slot nearest-neighbour list and the best-match scan of `DrawMap`.
- `Wav`: the volume halving and the 44-byte RIFF/WAVE header of `PlayAudio`, proved against a reader of that layout. The layout is the WAVE form of the *Multimedia Programming Interface and Data Specifications 1.0*, with a 16-byte `fmt ` chunk for WAVE_FORMAT_PCM and a `data` chunk.
- `App`: the global `AppState` as a class. Its methods are `ProcessFile`, `ScanDirectory`, `UpdateBounds`, the folder reload and `PlayAudio`. Each one updates the arrays and fields in place and is proved against the value-level functions of `Catalog`, `Bounds`, `IndexSort` and `Wav`.

The map coordinates and other `float` quantities are reals, and rounding is not
modelled. The C `int` casts are explicit truncation toward zero. The decoding
backend is a value of type `MediaFile` that gives the sequence of results its
`ReadSample` calls return. The directory search is a function from a search
pattern to the names it lists. The file system is a function from a path to its
`MediaFile`. The allocator is a byte budget: an allocation of `n` bytes fails
exactly when `n` exceeds the budget.

Three facts about the code shape the model:

- the files are read one after another on the UI thread, with no concurrent pipeline;
- `UpdateBounds` is a plain min/max with a widening of narrow ranges, with no outlier filtering or padding;
- `SortSamples` uses `qsort`, which is not stable.

## Model

| member | source | states |
|---|---|---|
| Bytes.Le16Load | audiomap.cpp:391-396 | a 16-bit field written little-endian reads back as the value modulo 2^16 |
| Bytes.Le32Load | audiomap.cpp:387-398 | a 32-bit field written little-endian reads back as the value modulo 2^32 |
| Bytes.ShortRoundTrip | audiomap.cpp:259-260 | a signed 16-bit sample stored as two bytes loads back unchanged |
| Bytes.BytesRoundTrip | audiomap.cpp:259-260 | any two bytes read as a short store back as the same two bytes |
| Bytes.ShortsToBytes | audiomap.cpp:397-399 | the PCM image of a short sequence is two bytes per sample |
| Bytes.BytesToShorts | audiomap.cpp:241-242 | a byte buffer gives one in-range short per whole byte pair, so an odd trailing byte is dropped |
| Bytes.BytesToShortsAt | audiomap.cpp:259-260 | short `k` of a buffer is the pair at bytes `2k` and `2k+1` |
| Bytes.ShortsToBytesAppend | audiomap.cpp:399 | the byte image of a sequence with one more sample is the old image followed by that sample's two bytes |
| Bytes.ShortsRoundTrip | audiomap.cpp:259-260 | reading back the byte image of in-range shorts gives the same shorts |
| Bytes.BytesRoundTripAll | audiomap.cpp:259-260 | an even-length buffer read as shorts and written back is unchanged |
| CArith.Trunc | audiomap.cpp:337-344 | the `(int)` cast: the integer nearest zero that is within 1 of the value |
| CArith.Half | audiomap.cpp:346 | C division by 2: the half rounded toward zero |
| Colour.GradientRange | audiomap.cpp:332-345 | for a non-negative rate, red stays in [55,255], green in [100,255] and blue in [100,255] |
| Colour.GradientStops | audiomap.cpp:332-345 | the gradient is (255,100,100) at rate 0, (155,255,100) at rate 1/6 and (55,155,255) from rate 1/3 on |
| Colour.BlueRisesWithRate | audiomap.cpp:336-344 | the blue channel never falls as the crossing rate rises |
| Colour.TowardWhiteHalves | audiomap.cpp:346 | the blend never darkens a byte channel, and halves its distance to 255, rounded up |
| Colour.SampleColourRange | audiomap.cpp:332-346 | every channel of a record's colour lies in [155,255] |
| Colour.PackRoundTrip | audiomap.cpp:346 | `RGB` keeps each byte channel recoverable, red lowest, and the result fits in 24 bits |
| Colour.PackOrder | audiomap.cpp:140-146 | comparing packed colours compares blue, then green, then red |
| Colour.Compare | audiomap.cpp:140-146 | the comparison returns -1, 0 or 1 |
| Colour.Position | audiomap.cpp:332-333 | defines the gradient position: three times the raw crossing rate, capped at 1 |
| Colour.Gradient | audiomap.cpp:332-345 | defines the two-segment gradient with its truncating casts |
| Colour.TowardWhite | audiomap.cpp:346 | defines the blend of one channel, `(c + 255) / 2` |
| Colour.Blend | audiomap.cpp:346 | defines the blend of all three channels |
| Colour.Pack | audiomap.cpp:346 | defines the `RGB` macro, each channel cast to a byte |
| Colour.SampleColour | audiomap.cpp:332-346 | defines the colour a record gets from its raw crossing rate |
| Colour.CompareIsTotalOrder | audiomap.cpp:140-146 | the comparison agrees with `<=`, is antisymmetric and is transitive, as `qsort` needs |
| Decoder.Grown | audiomap.cpp:244-247 | the capacity after a read never shrinks and always fits the shorts held plus the new ones |
| Decoder.Append | audiomap.cpp:241-262 | one locked buffer adds exactly half its byte length in shorts, or fails exactly when the grown buffer exceeds the budget |
| Decoder.Accumulate | audiomap.cpp:224-270 | defines the read loop: stop at a failed or final read, skip a read without data, take a locked buffer, and leave on a refused growth or past 15,000,000 shorts |
| Decoder.Decode | audiomap.cpp:176-282 | defines what `Load` returns: nothing for an unreadable file, a refused first allocation, a refused growth or no samples, and otherwise the samples with the reported or default rate and channels |
| Decoder.AccumulateWithinCapacity | audiomap.cpp:219-270 | the shorts held never exceed the capacity, and the capacity never shrinks |
| Decoder.AccumulateReadsPrefix | audiomap.cpp:224-270 | without a failed growth, the result is a prefix of the stream's PCM up to its first stop, and all of it when no more than 15,000,000 shorts are held |
| Decoder.AccumulateStopsPastCap | audiomap.cpp:269 | a result past 15,000,000 shorts ends at the first read that took it past that limit |
| Decoder.DecodeOutcome | audiomap.cpp:179-282 | the decoder fails exactly on an unreadable file, a refused allocation or an empty stream; otherwise it returns a non-empty prefix of the stream's PCM, and all of it when under the limit |
| Decoder.StreamPcmShorts | audiomap.cpp:259-260 | every decoded sample is a signed 16-bit value |
| Decoder.DecodedShape | audiomap.cpp:213-216 | a successful decode has samples, a positive rate and a positive channel count |
| Decoder.Grow | audiomap.cpp:244-257 | the reallocated buffer has the new capacity and keeps the shorts held |
| Decoder.CopyShorts | audiomap.cpp:259-262 | the `memcpy` appends the buffer's shorts after those held |
| Decoder.TakeData | audiomap.cpp:237-262 | one read in place: the buffer, its count and the failure flag are what `Append` gives |
| Decoder.Load | audiomap.cpp:176-282 | the buffer and outputs of `Load`: null with zeroed outputs on failure, otherwise a fresh buffer whose first `outSamples` shorts are the decoded PCM, with the rate and channels reported |
| Features.CrossingIsSignChange | audiomap.cpp:303 | a negative product of neighbours is exactly a strict change of sign, so a zero sample never counts |
| Features.CrossingsIn | audiomap.cpp:301-304 | defines the crossing count over the first `n` samples |
| Features.CrossingsAreTheSet | audiomap.cpp:301-304 | the loop's count equals the number of indices in [1,n) that cross |
| Features.CrossingsBound | audiomap.cpp:301-304 | there are at most n-1 crossings |
| Features.OneSignedHasNoCrossings | audiomap.cpp:301-304 | a signal that never changes sign has no crossing |
| Features.Stride | audiomap.cpp:298-299 | the preview stride is at least 1 |
| Features.Preview | audiomap.cpp:293-307 | the preview always has 64 slots |
| Features.PreviewFull | audiomap.cpp:298-307 | with at least 64 samples every slot `k` holds sample `k*stride` |
| Features.PreviewShort | audiomap.cpp:298-307 | with fewer than 64 samples the stride is 1, slot `k` is sample `k`, and the slots from `n` on stay 0 |
| Features.SlotOf | audiomap.cpp:305 | sample `i` is stored into slot `k` exactly when `i == k*stride` |
| Features.FilledStep | audiomap.cpp:305-306 | visiting one more sample keeps the buffer equal to the preview of the samples visited |
| Features.Store | audiomap.cpp:305-306 | the conditional store writes only the slot that the sample starts |
| Features.FilledIsPreview | audiomap.cpp:301-307 | after the last sample the buffer is the preview |
| Features.Extract | audiomap.cpp:296-307 | the sample loop counts exactly the crossings and leaves the zeroed buffer holding the preview |
| Features.LastIndexOf | audiomap.cpp:321 | `strrchr`: the position of the last occurrence of the character, or none when it does not occur |
| Features.FileName | audiomap.cpp:321-322 | the file name is a suffix of the path without a backslash, and is preceded by a backslash unless it is the whole path |
| Catalog.SampleOfMetadata | audiomap.cpp:321-346 | a record holds whole frames of the interleaved samples, a duration of frames over rate, two bytes per sample, 16 bits, a 64-slot preview, the name after the last backslash (the whole path when there is none) and a colour with every channel in [155,255] |
| Catalog.RawZcr | audiomap.cpp:310 | the raw crossing rate is the square root, a parameter whose results are never negative, of crossings over samples, so it is never negative |
| Catalog.SampleOf | audiomap.cpp:292-346 | defines the record committed for a decoded file |
| Catalog.SampleFrames | audiomap.cpp:324-329 | the frame count, duration, byte size and sample width of a record |
| Catalog.SampleFrameCount | audiomap.cpp:325 | the frames times the channels cover the samples without a whole frame left over |
| Catalog.SampleDuration | audiomap.cpp:328 | the duration times the rate is the frame count |
| Catalog.SampleNames | audiomap.cpp:321-323 | the preview has 64 slots, the full path is the path and the file name is the backslash-free suffix that follows the last backslash, or the whole path when there is none |
| Catalog.SampleTint | audiomap.cpp:332-346 | the packed colour is the blended gradient, each channel in [155,255] |
| Catalog.Duration | audiomap.cpp:328 | a duration of frames over rate spans the frames |
| Catalog.WholeFrames | audiomap.cpp:325 | integer division into frames drops less than one frame |
| Catalog.Processed | audiomap.cpp:287-348 | a failed decode leaves the table unchanged; a success changes only slot `count` and increments `count` by 1 |
| Catalog.ProcessedRecord | audiomap.cpp:289-329 | after a successful decode, slot `count` holds the path read, its last component as the name, the file's channels and rate, whole frames of its samples, two bytes per sample, 16 bits and its preview |
| Catalog.RecordOf | audiomap.cpp:321-329 | the record made for a decoded file holds the path read, its last component as the name, the file's channels and rate, whole frames of its samples, two bytes per sample, 16 bits and its preview |
| Catalog.Run | audiomap.cpp:412-426 | the file loop never overfills the table |
| Catalog.Pattern | audiomap.cpp:413 | defines the search pattern of one extension |
| Catalog.Path | audiomap.cpp:421 | defines the full path of a listed name |
| Catalog.IsDot | audiomap.cpp:418 | defines the skipped names `.` and `..` |
| Catalog.Listing | audiomap.cpp:410-414 | defines the names the three searches list, one extension after the other |
| Catalog.Successes | audiomap.cpp:417-422 | at most one success per name |
| Catalog.Committed | audiomap.cpp:417-422 | one record per name that decodes |
| Catalog.RunOutcome | audiomap.cpp:412-426 | the count ends at the smaller of 2000 and the old count plus the names that decode; the old records and the slots past the count are untouched; the new records are those files' records, in order |
| Catalog.RunOutcomeHolds | audiomap.cpp:412-426 | the same outcome, proved by induction over the names |
| Catalog.ExtendsShift | audiomap.cpp:417-422 | committing one record, then extending, extends the original table by that record followed by the rest |
| Catalog.FullOutcome | audiomap.cpp:417 | a full table takes nothing |
| Catalog.SkipOutcome | audiomap.cpp:418-422 | a name that is `.`, `..` or fails to decode adds nothing |
| Catalog.TakeOutcome | audiomap.cpp:417-422 | a name that decodes adds its record first, then the rest |
| Catalog.RunTakes | audiomap.cpp:417-422 | a decoded name counts once and its record is the first committed |
| Catalog.RunFull | audiomap.cpp:417 | once the table is full the loop changes nothing |
| Catalog.RunAppend | audiomap.cpp:410-426 | scanning two listings one after the other is scanning their concatenation |
| Catalog.ScaleFactor | audiomap.cpp:429-434 | defines the spread factor: 1, or the logarithm of the count times 2.5 above 50 records |
| Catalog.Rescaled | audiomap.cpp:428-439 | the rescale keeps the count and the table size |
| Catalog.RescaleKeeps | audiomap.cpp:429-439 | a catalog of at most 50 samples is left unchanged, and any rescale keeps colours and the proportion between a point's two coordinates |
| Catalog.Scanned | audiomap.cpp:407-439 | the scan never overfills the table |
| Catalog.ScannedOutcome | audiomap.cpp:407-439 | after the scan, every committed record, old or new, has both coordinates multiplied by the same factor; the new records are the decoded files' records in listing order; the slots past the count are untouched |
| Catalog.RescaledExtends | audiomap.cpp:428-439 | a rescale after the file loop scales exactly the committed records |
| IndexSort.PermutationOfRange | audiomap.cpp:148-151 | an arrangement of [0,count) has every index exactly once, all of them in range |
| IndexSort.IdentityOnce | audiomap.cpp:149 | the identity holds each index below `n` once and nothing else |
| IndexSort.EqualPairCounts | audiomap.cpp:148-151 | two equal entries make their value occur at least twice |
| IndexSort.FillIdentity | audiomap.cpp:149 | the first `count` entries become 0 to count-1 and the rest are untouched |
| IndexSort.SwapDown | audiomap.cpp:150 | one exchange swaps two neighbours and keeps the multiset of indices |
| IndexSort.SiftStart | audiomap.cpp:150 | a new entry behind a sorted run starts its insertion |
| IndexSort.SiftStep | audiomap.cpp:150 | moving an entry past a larger neighbour keeps the run sorted around it |
| IndexSort.SiftDone | audiomap.cpp:150 | an entry no smaller than its left neighbour leaves the run sorted |
| IndexSort.SwapSplit | audiomap.cpp:150 | an exchange inside the first `n` entries leaves the entries from `n` on untouched |
| IndexSort.SiftDown | audiomap.cpp:150 | inserting entry `i` extends the sorted run by one, permuting only the first `i+1` entries |
| IndexSort.SortByKey | audiomap.cpp:150 | the first `count` entries end in non-decreasing colour, as a permutation of themselves, and the rest are untouched |
| IndexSort.SortSamples | audiomap.cpp:148-151 | the first `count` entries become a permutation of [0,count) in non-decreasing colour order |
| Bounds.MinOfIsMinimum | audiomap.cpp:446-454 | the running minimum is below every value seen and is one of them |
| Bounds.MinOf | audiomap.cpp:446-454 | defines the running minimum of the scan, starting at `FLT_MAX` |
| Bounds.MaxOf | audiomap.cpp:446-454 | defines the running maximum of the scan, starting at `-FLT_MAX` |
| Bounds.Widened | audiomap.cpp:456-457 | defines the widening of a span below 0.001 to 0.1 |
| Bounds.AxisBounds | audiomap.cpp:445-457 | defines the range one axis ends with |
| Bounds.MaxOfIsMaximum | audiomap.cpp:446-454 | the running maximum is above every value seen and is one of them |
| Bounds.AxisBoundsContain | audiomap.cpp:445-458 | for a non-empty catalog every coordinate lies within its axis range, each range spans at least 0.001, and each bound is a coordinate unless it was widened |
| Neighbours.SqDist | audiomap.cpp:538-539 | squared distances are never negative |
| Neighbours.FirstAbove | audiomap.cpp:541-542 | the first slot whose distance exceeds the new one, with every slot before it no further |
| Neighbours.Insert | audiomap.cpp:541-547 | the list keeps its five slots |
| Neighbours.Nearest | audiomap.cpp:531-549 | the list always has five slots |
| Neighbours.RankedGrows | audiomap.cpp:534-549 | scanning one more sample keeps a ranked list ranked |
| Neighbours.InsertRanked | audiomap.cpp:541-547 | inserting a qualifying sample keeps the list ranked |
| Neighbours.InsertEntries | audiomap.cpp:541-547 | after an insertion every used slot is a qualifying sample with its distance |
| Neighbours.InsertOrdered | audiomap.cpp:541-547 | after an insertion, used slots come first, ordered by distance and then by scan position |
| Neighbours.InsertSorted | audiomap.cpp:541-547 | inserting into a list of non-decreasing distances keeps it non-decreasing |
| Neighbours.InsertComplete | audiomap.cpp:534-549 | after a sample is scanned, every qualifying sample is listed or the list is full with nearer-or-equal entries |
| Neighbours.InsertKeepsListed | audiomap.cpp:541-547 | an insertion either keeps a listed sample or leaves a full list whose last entry is no further |
| Neighbours.Full | audiomap.cpp:541-547 | a ranked list whose last slot is used has all five used |
| Neighbours.NearestInvariant | audiomap.cpp:531-549 | at every step the list is ranked and complete |
| Neighbours.NearestProperties | audiomap.cpp:531-549 | the list holds at most five distinct samples other than the hovered one, each closer than 0.5 with its distance, in non-decreasing distance with ties in scan order, and lists every qualifying sample unless five nearer-or-equal ones are listed |
| Neighbours.InsertSlot | audiomap.cpp:541-547 | the in-place shift and store of the inner loop is the insertion |
| Neighbours.KNearest | audiomap.cpp:531-549 | the in-place scan produces the specified list |
| Neighbours.BestOfIsFirstMinimum | audiomap.cpp:681-691 | no match exactly when every other sample is at least `FLT_MAX` away; otherwise the first other sample at the least distance |
| Neighbours.BestOf | audiomap.cpp:681-691 | defines the best-match scan state after the first `n` samples |
| Neighbours.NoMatchMeansAlone | audiomap.cpp:681-691 | with finite distances, the scan finds no match exactly when there is no other sample |
| Neighbours.BestMatch | audiomap.cpp:681-691 | the loop returns the scan's match |
| Wav.Quieted | audiomap.cpp:372-373 | halving keeps the buffer length |
| Wav.Quieter | audiomap.cpp:373 | defines the halving of one sample |
| Wav.QuieterIsTruncatedProduct | audiomap.cpp:373 | halving a sample is `(short)(v * 0.5f)`, the product truncated toward zero |
| Wav.QuieterShrinks | audiomap.cpp:373 | halving keeps the sign or gives 0, never grows the magnitude, and keeps a short a short |
| Wav.RiffChunk | audiomap.cpp:386-388 | the RIFF chunk header is 12 bytes |
| Wav.FmtChunk | audiomap.cpp:389-396 | the `fmt ` chunk is 24 bytes |
| Wav.FmtHead | audiomap.cpp:389-392 | the first half of the `fmt ` chunk is 12 bytes |
| Wav.FmtTail | audiomap.cpp:393-396 | the second half of the `fmt ` chunk is 12 bytes |
| Wav.DataChunk | audiomap.cpp:397-398 | the `data` chunk header is 8 bytes |
| Wav.Header | audiomap.cpp:386-398 | the header is 44 bytes |
| Wav.Image | audiomap.cpp:375-399 | the image is 44 plus two bytes per sample |
| Wav.Load16 | audiomap.cpp:391-396 | a 16-bit field that fits loads back unchanged |
| Wav.Load32 | audiomap.cpp:387-398 | a 32-bit field that fits loads back unchanged |
| Wav.RiffReadBack | audiomap.cpp:386-388 | the RIFF chunk reads as `RIFF`, the total size less 8, and `WAVE` |
| Wav.ShiftU16 | audiomap.cpp:386-398 | a 16-bit field reads the same behind any prefix |
| Wav.ShiftU32 | audiomap.cpp:386-398 | a 32-bit field reads the same behind any prefix |
| Wav.FmtHeadReadBack | audiomap.cpp:389-392 | the first half reads as `fmt `, 16, PCM format 1 and the channel count |
| Wav.FmtTailReadBack | audiomap.cpp:393-396 | the second half reads as the rate, the byte rate rate*ch*2, the block alignment ch*2 and 16 bits |
| Wav.FmtReadBack | audiomap.cpp:389-396 | the `fmt ` chunk is a valid PCM format chunk that reads back the channel count and the rate |
| Wav.DataReadBack | audiomap.cpp:397-398 | the `data` chunk reads as `data` and a size that covers the rest of the image |
| Wav.ImageRoundTrip | audiomap.cpp:375-399 | reading the image back gives exactly the channel count, the rate, a data size of two bytes per sample, and the samples |
| Wav.PlayedImageRoundTrip | audiomap.cpp:372-399 | the image `PlayAudio` builds reads back as the halved samples, with the file's format |
| Wav.Put | audiomap.cpp:385-398 | writing at `p` and advancing leaves the bytes before `p` followed by the bytes written |
| Wav.HalveVolume | audiomap.cpp:372-373 | the loop replaces each of the first `samples` shorts by its half and leaves the rest |
| Wav.PutRiff | audiomap.cpp:386-388 | the three writes put the RIFF chunk header at `p` |
| Wav.PutFmt | audiomap.cpp:389-396 | the writes put the `fmt ` chunk at `p` |
| Wav.PutFmtHead | audiomap.cpp:389-392 | the writes put the first half of the `fmt ` chunk at `p` |
| Wav.PutFmtTail | audiomap.cpp:393-396 | the writes put the second half of the `fmt ` chunk at `p` |
| Wav.PutData | audiomap.cpp:397-398 | the writes put the `data` chunk header at `p` |
| Wav.PutHeader | audiomap.cpp:385-398 | the pointer ends at 44 with the header written |
| Wav.Build | audiomap.cpp:385-399 | the buffer holds the image of the samples |
| App.AppState.Snapshot | audiomap.cpp:87-89 | the table and count as a catalog value |
| App.AppState.constructor | audiomap.cpp:132 | the zero-initialised global state |
| App.AppState.Describe | audiomap.cpp:292-346 | the record the fields of slot `count` receive is the one specified for the decoded file |
| App.AppState.ProcessFile | audiomap.cpp:287-350 | the table after processing one file is the specified commit |
| App.AppState.ScanNames | audiomap.cpp:412-426 | the loop over one search's names performs the file loop |
| App.AppState.ScanListing | audiomap.cpp:410-426 | the three searches run the file loop over their names in order |
| App.AppState.Rescale | audiomap.cpp:428-439 | the in-place loop performs the rescale |
| App.AppState.ScanDirectory | audiomap.cpp:407-442 | the table becomes the scan's outcome, and the index holds a permutation of the committed slots in non-decreasing colour |
| App.AppState.UpdateBounds | audiomap.cpp:445-458 | the bounds become the axis ranges of the committed records' coordinates |
| App.AppState.OpenFolder | audiomap.cpp:1069-1079 | reloading scans from an empty catalog, sorts the index so that its first `count` entries are a permutation of the committed slots in non-decreasing colour and the rest are untouched, and recomputes the bounds only when something was loaded |
| App.AppState.PlayAudio | audiomap.cpp:353-404 | an out-of-range index changes nothing; otherwise the old image is dropped and the new one is null on a failed decode or allocation, or else the WAV image of the halved samples |

## Left out

- Float maths are parameters of the `FloatMaths` datatype: the two square roots, the RMS sum `totalSq` (audiomap.cpp:296, 304, 309-310), `powf(x, 0.33f)`, `logf` in the spread factor and the `rand()` jitter. They are floating point and random. Only the integers those steps consume are modelled.
- All drawing in `DrawMap` except the two neighbour scans, including the minimap, list panel, buttons, label layout (`CheckOverlap`, `IsRectOverlap`) and `CreateSineIcon`. These are GDI/GDI+ output.
- `WindowProc` input handling, panning, zoom, smoothing, `UIAnim`, `FpsCounter`, the view offsets, the status message and its timer. These are UI state driven by floats and a clock.
- The Media Foundation reader, `GetFileAttributesExA`, the media-type negotiation and buffer locking. They are foreign calls, replaced by the `MediaFile` value and its read results.
- `FindFirstFileA`/`FindNextFileA` enumeration. It is replaced by a function from the search pattern to the names listed.
- `PickFolder`, a COM dialog, and `PlaySoundA`, an audio output call.
- `calloc`/`free` ownership of `visualData`, `rawData` and `audioMem`. Only the zeroed 64-slot buffer and the replacement of the old image are modelled. A failed 64-float `calloc` in `ProcessFile`, after which the source writes through a null pointer, is not modelled: that allocation (audiomap.cpp:293, 306) always succeeds here.
- Allocation failure is an allocation budget in bytes, not a nondeterministic outcome.
- The fixed `MAX_PATH` buffers the paths are built and copied into, and their overflow when `sprintf` or `strcpy` writes a longer path (audiomap.cpp:322-323, 413, 421). Paths are unbounded strings.
- Wav.ImageRoundTrip and Wav.PlayedImageRoundTrip: require the channel count, rate, byte rate and image size to fit their 16- and 32-bit fields. The source's signed `int` overflow for larger values is not modelled.
- IndexSort.SortSamples: `qsort` is replaced by an insertion sort. Only what `qsort` promises is claimed (sorted and a permutation), not any particular order among equal colours.
- The `samples <= 0` test in `PlayAudio` (audiomap.cpp:366) cannot succeed after a successful `Load`, so the model leaves it out.
- `Neighbours.Point.screenX` is an input: the screen transform that computes it is part of the drawing code.
- Decoder.WellFormed and Catalog.Sound: the backend is assumed never to report a zero channel count or a zero rate, which `Load` would pass on unchecked (audiomap.cpp:213-215). Under that assumption the model does not cover the division by zero in `numSamples / ch` (audiomap.cpp:325), nor the infinite or NaN duration that a zero rate gives a record that is still committed (audiomap.cpp:328).
- Features.LastIndexOf and Features.FileName: paths are sequences of characters, while `strrchr` scans the ANSI bytes of the path (audiomap.cpp:321). So a double-byte character whose trail byte is 0x5C, which `strrchr` takes for a backslash, is not modelled.
- No concurrency is modelled: the program is single-threaded.
