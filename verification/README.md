# emusic: a verified model

A Dafny model of emusic's most intricate machinery, and proofs of what it is
for. Code that updates state in place is a class whose methods are proved
against specification functions; what the source promises is then proved about
those functions, over every input, every run or every interleaving.

- **Playback** (`Worker`, `Stream`, `Output`, `Decoder`, `Chunking`, `Scope`,
  `Channel`, `Ledger`, `Playback`, `FrameTime`). One worker moves samples from the decoder
  through `carry` and a bounded, period-quantised queue to the speaker.
  `Worker.Valid` says that everything decoded since the last seek is what was
  heard followed by what was not, in order, and that clock, recording and
  visualizer count the same frames. Every command and tick keeps it.
- **The spectrum** (`Rings`, `BitReversal`, `Fft`, `Tones`, `RootsOfUnity`). The
  in-place radix-2 transform equals the defining sum, over any ring with roots of
  unity.
- **The rendition cache** (`RenditionKey`, `RenditionCache`, `ReplaceFile`). The
  key's encoding, least-recently-used eviction, and N writers racing to publish
  one file in any interleaving.
- **Library sync** (`Library`, `MergeTracks`, `Refresh`, `Pull`, `Mirror`,
  `MirrorRuns`). The server's versions and tombstones, the app's in-place merge,
  and the command line's truncated, resumable mirror.
- **Songlengths and activity** (`Text`, `Lengths`, `SongLengths`, `Memo`,
  `Activity`). The parser with its printer, the memo around it, and the counts
  of open WebSocket connections.

## Where the code does less than it says

Each of these is kept as the code has it, with the exact condition under which the
promise holds, and what happens when it does not.

- A comment in `pull` says that tracks a truncated run skipped reappear next
  time. The server gives a whole batch one version, so they need not
  (`TiedTrackIsNeverMirrored`). A delta, in any order, can be cut anywhere, from
  every mirror, if and only if versions increase strictly from every place a run
  can get past (`SafeToCutAnywhere`); one saved run is exact if and only if nothing
  was disguised or skipped (`PullCovers`). Pulls without a limit, or from a server
  that changes a track at a time, are exact through every life of server and mirror
  in which sizes tell an id's contents apart (`EveryLifeIsMirrored`).
- A refresh is exact if and only if no track the snapshot holds was deleted with
  its tombstone purged since (`RefreshIsExact`), and so is a whole life of refreshes
  (`SnapshotFollowsServer`). The server purges tombstones after thirty days and a
  client is not told.
- A writer whose `replace_file` has returned finds a file in place, in every
  interleaving, if and only if renames replace their target or there is one writer
  (`ReturnedMeansInPlace`). When all writers are done it is there
  (`QuiescenceLeavesOneFile`).
- A malformed Songlengths line is meant never to cost the other tunes. Parsing
  aborts if and only if some line is an entry with a valid key in which, behind only
  lengths that read, a well-formed one is 2^64 seconds or more (`AbortsExactly`).
- What reads deliver until the first empty or failing one is the same for all buffer
  sizes if and only if nothing is due before what ends the stream (its end, a codec's
  I/O error, or an error that is not skipped), or that does not fail and neither
  samples nor a failure come next behind it (`DecoderSizesMatterExactly`).
- After a seek the worker's clock stands at the decoder's target frame, or one frame
  before it exactly when the target's duration had to be rounded (`SeekLands`).
- A deletion removes every mirrored file whose name begins with its id and a dot, so
  with dotted ids another track's too (`DottedIdsClash`).
- Two deltas merged in turn leave the list of the composed one, not only its map, if and
  only if what comes back comes back in place (`DeltasComposeInOrder`).
- The counts of open connections equal the live guards if and only if every
  connection opened finds its device's entry (`CountsAgreeExactly`).

## How the model stands for the program

Samples, durations in seconds and gains are `real`s; frame counts are unbounded
except where a bound is written out (`FrameTime`, `Decoder`, `Lengths`,
`Activity`). The clock belongs to the environment and may move on by any amount
each time it is read; `Playback.PlayToEnd` only assumes that each tick lasts at
least some positive interval. What packets decode to, where the reader's seeks
land, digests, which downloads fail and what is on disk are parameters. Within
one version a delta lists tracks in the order the batch had them (the server
sorts them by id); the theorems about one pull hold for a delta in any order.

Ghost fields delimit the worker's promises: `intact` holds until a seek fails (which
has dropped the stream by then), `readable` while no error that is not skipped lies
ahead, `exact` while nothing at all ends the stream early. The worker's `ahead` is how far
the output had run ahead of the clock, at most, when a block was decoded since the last
seek; the visualizer's promise (`Playback.Fitting`) is about it. A few facts that most
proofs only hand on are sealed: see `Seals`.

## Model

| member | source | states |
|---|---|---|
| BitReversal.RevReversesBits | crates/lazyaudio/src/scope.rs:96-108 | the index each sample moves to is its own with the bits reversed, bit for bit |
| BitReversal.RevInvolution | crates/lazyaudio/src/scope.rs:104-107 | reversing twice gives the index back, so each pair is swapped once |
| BitReversal.RevSuccessor | crates/lazyaudio/src/scope.rs:97-103 | the carry that runs downwards from the top bit takes the reversal of i-1 to the reversal of i |
| BitReversal.NextReversed | crates/lazyaudio/src/scope.rs:98-103 | the inner loop ends, with `bit` still positive, at the next index's reversal |
| BitReversal.BitReverse | crates/lazyaudio/src/scope.rs:95-108 | both arrays hold in slot i what was in the reversed slot |
| Fft.SumSplits | crates/lazyaudio/src/scope.rs:109-125 | a sum is the sum of its even and of its odd terms, in any ring |
| Fft.LowBin | crates/lazyaudio/src/scope.rs:116-122 | a bin of the lower half is the even half's bin plus the turned bin of the odd half |
| Fft.HighBin | crates/lazyaudio/src/scope.rs:116-122 | and of the upper half, their difference |
| Fft.CooleyTukey | crates/lazyaudio/src/scope.rs:112-123 | the butterflies of one block make the transforms of the even and odd samples the transform of all |
| Fft.BlocksStart | crates/lazyaudio/src/scope.rs:95-109 | bit reversal leaves the transforms of the one-sample blocks |
| Fft.BlocksStep | crates/lazyaudio/src/scope.rs:110-125 | one stage takes the transforms of every block to those of blocks twice as long |
| Fft.ButterflyInPlace | crates/lazyaudio/src/scope.rs:114-121 | two slots become the sum and difference with the product of complex numbers; nothing else changes |
| Fft.BlockInPlace | crates/lazyaudio/src/scope.rs:113-122 | one block is transformed; what is before and behind it is untouched |
| Fft.StageInPlace | crates/lazyaudio/src/scope.rs:112-123 | every block of the stage is |
| Fft.Butterflies | crates/lazyaudio/src/scope.rs:109-125 | from single samples to the whole transform, in as many stages as the size has bits |
| Fft.FftInPlace | crates/lazyaudio/src/scope.rs:93-126 | for every power-of-two length and every input, slot k holds the sum over j of x[j] times the jk-th power of the root |
| UnityRoots.TheyAreRoots | crates/lazyaudio/src/scope.rs:111-114 | in any ring, an element whose 2^(t-1)-th power is minus one gives every twiddle factor the transform of 2^t samples asks for |
| UnityRoots.FourthRootsExist | crates/lazyaudio/src/scope.rs:111-114 | over the complex numbers -i is such an element, so the laws can be met |
| Tones.TonesCancel | crates/lazyaudio/src/scope.rs:132-145 | the turns of a tone sum to zero unless all are whole turns |
| Tones.ToneFillsItsBin | crates/lazyaudio/src/scope.rs:132-145 | a tone centred on a bin fills that bin and leaves every other at zero |
| Scope.Scope.Decoded | crates/lazyaudio/src/scope.rs:26-36 | the history is the last frames decoded, as means; the count of those not played stays right exactly as long as they fit |
| Scope.Scope.Played | crates/lazyaudio/src/scope.rs:39-41 | so many fewer have not played, saturating |
| Scope.Scope.Clear | crates/lazyaudio/src/scope.rs:44-47 | nothing is known |
| Scope.Scope.Samples | crates/lazyaudio/src/scope.rs:51-65 | exactly the last 1024 frames that played, behind zeros if fewer did, or nothing before any |
| Scope.MonoConcat | crates/lazyaudio/src/scope.rs:28-31 | blocks of whole frames are mixed down independently |
| Scope.MonoAdds | crates/lazyaudio/src/scope.rs:28-31 | the mix of two recordings played together is the two mixes together |
| Scope.MonoExchanged | crates/lazyaudio/src/scope.rs:28-31 | exchanging two channels changes nothing in the mix |
| Scope.MonoOnAll | crates/lazyaudio/src/scope.rs:28-31 | what plays the same on all channels is its own mix: with the two laws above, the mix is the mean |
| FrameTime.FramesToDurationIsExact | crates/lazyaudio/src/decode.rs:306-310 | splitting off the seconds gives the exact quotient rounded down, and no product leaves 64 bits |
| FrameTime.ConversionsAreMonotone | crates/lazyaudio/src/decode.rs:306-316 | a later frame never has an earlier time, nor a later time an earlier frame, whatever their size |
| FrameTime.RoundTripLosesAtMostOneFrame | crates/lazyaudio/src/decode.rs:306-316 | frame to duration and back gives the frame if the duration was exact and the one before it if not |
| FrameTime.RoundTripLosesAFrame | crates/lazyaudio/src/decode.rs:306-316 | it does happen, for frame 1 at 44.1 kHz |
| Decoder.Mp3Decoder.DropSkipped | crates/lazyaudio/src/decode.rs:279-284 | as many whole frames are dropped as there are, and the rest stays to be skipped |
| Decoder.Mp3Decoder.DecodeNext | crates/lazyaudio/src/decode.rs:246-275 | always ends; more is pending with nothing still to come lost, or there was nothing left |
| Decoder.Mp3Decoder.Read | crates/lazyaudio/src/decode.rs:192-207 | what is read and what remains are what remained before; whole frames only; short only at the end |
| Decoder.Mp3Decoder.Seek | crates/lazyaudio/src/decode.rs:210-242 | what remains is what the reader delivers less the frames between its landing and the clamped target |
| Decoder.LandingFrame | crates/lazyaudio/src/decode.rs:210-233 | the duration a seek returns stands for its target, or for the frame before it exactly when it was rounded |
| Decoder.SeekGoesTo | crates/lazyaudio/src/decode.rs:210-242 | with a reader that lands at or before what it is asked for, a seek leaves the track from the last frame that begins by the position, or from its known end when that is earlier |
| Decoder.SeekToFrame | crates/lazyaudio/src/decode.rs:210-242 | seeking to the time of a frame leaves the track from that frame, or from the one before it exactly when the time had to be rounded |
| Decoder.NothingPastKnownEnd | crates/lazyaudio/src/decode.rs:211-214 | at or past a known end nothing is left |
| Decoder.StartsEarly | crates/lazyaudio/src/decode.rs:215-219 | the reader is asked for the target less the preroll, or for the beginning |
| Decoder.OnePacket | crates/lazyaudio/src/decode.rs:246-275 | a damaged packet or another stream's costs only itself, an error that is not skipped everything behind it |
| Decoder.SeekInTrack | crates/lazyaudio/src/decode.rs:215-242 | a seek in a track leaves the track from the target frame on if and only if the reader landed at or before it, at a negative frame too; past the end it leaves nothing |
| Decoder.LeavesTrack | crates/lazyaudio/src/decode.rs:215-242 | so it says of what any seek, of any outcome, leaves to be read |
| Chunking.NextRead | crates/lazyaudio/src/decode.rs:189-207 | one read delivers what is due as far as it fits, and stops short only at what ends the stream, which it consumes |
| Chunking.ReadOut | crates/lazyaudio/src/decode.rs:189-207 | reads until the first empty or failing one deliver what the sizes and the stream's stops determine |
| Chunking.DeliversTheDue | crates/lazyaudio/src/decode.rs:189-207 | under that condition all buffers deliver what is due, in order, as far as it fits |
| Chunking.SmallBuffers | crates/lazyaudio/src/decode.rs:196-199 | buffers that end where what is due does find the end of the track there |
| Chunking.LargeBuffers | crates/lazyaudio/src/decode.rs:271-271 | larger ones stop short at a codec I/O error and go on behind it |
| Chunking.SizesMatterExactly | crates/lazyaudio/src/decode.rs:189-207 | sizes do not matter if and only if nothing is due before the stop, or the stop does not fail and neither samples nor a failure come next behind it |
| Chunking.DecoderSizesMatterExactly | crates/lazyaudio/src/decode.rs:246-275 | so it is for every decoder in every state; a stream that nothing ends early is such a one |
| Output.MemorySink.constructor | crates/lazyaudio/src/output.rs:81-88 | a period never exceeds the queue, and both hold at least one frame |
| Output.MemorySink.Open | crates/lazyaudio/src/output.rs:99-115 | refuses exactly formats without rate or channels |
| Output.MemoryOutput.Advance | crates/lazyaudio/src/output.rs:134-159 | queue and recording stay what was accepted, cut where playing has come to: what is due, as far as whole periods are written, never back |
| Output.MemoryOutput.TryWrite | crates/lazyaudio/src/output.rs:175-189 | takes whole frames from the front until the queue is full; an unstarted stream starts exactly when its queue is full |
| Output.MemoryOutput.Start | crates/lazyaudio/src/output.rs:191-197 | a stream that plays is not started again |
| Output.MemoryOutput.Played | crates/lazyaudio/src/output.rs:199-202 | everything due in whole periods is counted, and the recording holds it |
| Output.FullQueueIsPlayable | crates/lazyaudio/src/output.rs:140-146 | a full queue always holds a frame that can play, so it never stays full |
| Output.ElapsedIsWhole | crates/lazyaudio/src/output.rs:138-139 | what is due is the time gone by, less part of a frame; no stream is ever ahead of that (`InTime`, which every call keeps) |
| Channel.Shared.OnEnd | crates/lazyaudio/src/channel.rs:174-184 | the newest registration replaces any other |
| Channel.Shared.FireEnd | crates/lazyaudio/src/channel.rs:61-65 | exactly the registered callback runs, once |
| Channel.Shared.DropGuard | crates/lazyaudio/src/channel.rs:74-84 | dropping an older guard leaves a newer callback in place |
| Channel.Shared.Publish | crates/lazyaudio/src/worker.rs:227-229 | clock and visualizer move on together |
| Streams.Stream.Note | crates/lazyaudio/src/worker.rs:219-229 | samples move from not heard to heard, in order; padding is not counted |
| Streams.Stream.Write | crates/lazyaudio/src/worker.rs:264-273 | what the output takes is kept for a pause to give back; nothing taken means a full queue |
| Streams.Padding | crates/lazyaudio/src/worker.rs:256-261 | the padding fills the last period and one more, and is less than two |
| Streams.Stream.WritePad | crates/lazyaudio/src/worker.rs:275-283 | only silence follows the track; what did not fit stays to be written |
| Streams.Stream.RecordedSoFar | crates/lazyaudio/src/worker.rs:208-215 | the stream's part of the recording is a front of its samples, and silence only behind all of them |
| Ledger.BalancedDecode | crates/lazyaudio/src/worker.rs:293-306 | decoding a block keeps the books: it is the newest of what was not heard |
| Ledger.BalancedPlay | crates/lazyaudio/src/worker.rs:219-230 | playing keeps them: the oldest of what was not heard is now heard |
| Ledger.SampleIsScaled | crates/lazyaudio/src/worker.rs:309-311 | a sample is heard as the nearest 1/32767 towards zero, clipped to the scale, and alike on both sides of zero |
| Ledger.LouderIsLouder | crates/lazyaudio/src/worker.rs:309-311 | a larger sample is never heard as a smaller one |
| Workers.Worker.constructor | crates/lazyaudio/src/worker.rs:79-97 | the books start empty and balanced at frame 0 |
| Workers.Worker.NotePlayed | crates/lazyaudio/src/worker.rs:219-230 | the clock moves with what the speaker played, never back |
| Workers.Worker.Decode | crates/lazyaudio/src/worker.rs:293-306 | a block is carried, or the track has nothing more |
| Workers.Worker.FillQueue | crates/lazyaudio/src/worker.rs:254-274 | the loop ends, with the queue full or the track's end queued, and the books kept |
| Workers.Worker.FinishStream | crates/lazyaudio/src/worker.rs:275-289 | a track shorter than the queue is started; no stream is left waiting |
| Workers.Worker.Refill | crates/lazyaudio/src/worker.rs:251-290 | afterwards the output plays and has something to play; all that was due has been counted |
| Workers.Worker.Retire | crates/lazyaudio/src/worker.rs:208-215 | what was not heard is carried, in order, and the clock stands where the last heard frame put it |
| Workers.Worker.CloseStream | crates/lazyaudio/src/worker.rs:201-216 | a pause loses nothing |
| Workers.Worker.OpenStream | crates/lazyaudio/src/worker.rs:176-198 | the next stream starts where the clock stands, with what was not heard still to play, at the volume last set |
| Workers.Worker.SeekTo | crates/lazyaudio/src/worker.rs:161-174 | the books start anew where the seek landed, about exactly what the decoder then has left from the target frame on, and it fails exactly when the reader does |
| Workers.Worker.Settle | crates/lazyaudio/src/worker.rs:239-248 | the end is announced once, exactly when the last frame has played |
| Workers.Worker.Finish | crates/lazyaudio/src/worker.rs:240-244 | and then all the decoder had to deliver was heard |
| Workers.Worker.Pump | crates/lazyaudio/src/worker.rs:234-249 | keeps the books; either the track ended, announced once and heard whole, or the stream flows on |
| Workers.Worker.HandlePlay | crates/lazyaudio/src/worker.rs:126-135 | resuming continues what was heard; a restart, or playing at the end, starts new books at frame zero; either way the stream flows afterwards, on an active channel, unless the track was at once over |
| Workers.Worker.Handle | crates/lazyaudio/src/worker.rs:124-154 | every command keeps the books: pause, stop and volume lose nothing and decode nothing, a seek starts them anew from its target, a restart from frame zero |
| Workers.Worker.Tick | crates/lazyaudio/src/worker.rs:113-120 | so does a timer tick, also when it gives up on the output |
| Playback.Answer | crates/lazyaudio/src/worker.rs:107-120 | whatever reaches the loop keeps the books, and only a seek, a restart or playing at the end moves the track, with new books from there; a track with a stream is active and plays at the volume last set |
| Playback.Run | crates/lazyaudio/src/worker.rs:100-122 | after every run of commands and ticks, heard, then given back or carried, then still in the decoder is the track from the last seek; between seeks what was heard only grows, the clock never goes back, and the end is announced at most once, with the whole track played; the visualizer's count is right while the queue, one block and what the output ran ahead of the clock fit its history; a track with a stream is active and plays at the volume last asked for |
| Playback.TheRecordingIsTheTrack | crates/lazyaudio/src/worker.rs:4-8 | the speaker played a front of the decoded samples, and silence only behind the last; the clock never runs ahead of it |
| Playback.TheVisualizerAgrees | crates/lazyaudio/src/worker.rs:219-230 | then, after any run, leaving out what the visualizer holds for not played leaves the frames heard |
| Playback.Show | crates/lazyaudio/src/scope.rs:49-65 | and with a window's room more, what is shown is the window of the last frames the speaker played since the seek |
| Playback.FlowingIsPlayable | crates/lazyaudio/src/worker.rs:251-290 | a stream left flowing always has a frame it can play, until the track's end |
| Playback.OneTick | crates/lazyaudio/src/worker.rs:107-120 | each tick ends the track, plays a frame or brings one nearer |
| Playback.PlayToEnd | crates/lazyaudio/src/worker.rs:234-249 | a track left playing, also right after a seek or up to a codec I/O error, ends: all that was decoded is heard and recorded before silence, the clock stands at its end, the end is announced once; with nothing ending it early that is the whole track |
| Playback.PlayFrom | crates/lazyaudio/src/worker.rs:124-169 | seeking in a track, playing and waiting puts the track from the target frame, the last that begins by the position, to its end on the recording, and then silence |
| Playback.PlayFromFrame | crates/lazyaudio/src/worker.rs:124-169 | for the time of a frame, the track from that frame, or from the one before it exactly when the time had to be rounded |
| Playback.SeekLands | crates/lazyaudio/src/worker.rs:161-169 | after a seek the clock stands at the decoder's target frame or one before it, exactly when the duration was rounded |
| Playback.SeekLandsOnFrame | crates/lazyaudio/src/worker.rs:161-169 | of the time of a frame it stands at the frame that is taken for, less one more when that frame's own time is rounded |
| RenditionKeys.BigEndianIsInjective | crates/render/src/cache.rs:66-72 | fixed-width numbers are told apart |
| RenditionKeys.PreimageIsUnambiguous | crates/render/src/cache.rs:60-72 | equal preimages come from equal keys, although numbers may hold zero bytes |
| RenditionKeys.PreimagesAgreeExactly | crates/render/src/cache.rs:60-72 | two keys share a preimage if and only if they are equal, or of one version and the longer track swallows the shorter one with its separators and part of its renderer |
| RenditionKeys.PreimageIsAmbiguous | crates/render/src/cache.rs:60-72 | every track and every renderer have such a pair of keys |
| RenditionKeys.HexIsInjective | crates/render/src/cache.rs:73-77 | the hexadecimal digest tells digests apart |
| RenditionKeys.DistinctKeysHaveDistinctPaths | crates/render/src/cache.rs:104-112 | distinct keys have distinct paths, as far as the digest tells their preimages apart |
| RenditionCaches.SortOrders | crates/render/src/cache.rs:162-166 | sorting puts the files in order of age and path |
| RenditionCaches.OrderIsUnique | crates/render/src/cache.rs:162-166 | which is one order, however the directory is read |
| RenditionCaches.RenditionCache.Entries | crates/render/src/cache.rs:196-223 | every file is listed once, with its size and age |
| RenditionCaches.RenditionCache.Evict | crates/render/src/cache.rs:156-183 | exactly a front of the order goes, the rest fits the cap, one file fewer would not do, and the bytes freed are theirs |
| RenditionCaches.Survivors | crates/render/src/cache.rs:168-181 | a file stays if and only if it and everything after it in the order fit the cap |
| RenditionCaches.RenditionCache.Put | crates/render/src/cache.rs:129-147 | stores under the key and evicts; the newest file stays if and only if it fits the cap on its own, and what was put for other keys, as far as the digest tells them apart, is what it was |
| RenditionCaches.RenditionCache.Get | crates/render/src/cache.rs:115-126 | finds what is there for the key, with the bytes last put for it, and makes it the most recently used |
| ReplaceFile.StepKeepsInvariant | crates/render/src/cache.rs:249-272 | every system call of every writer keeps what all interleavings keep |
| ReplaceFile.DestinationIsComplete | crates/render/src/cache.rs:244-272 | in every interleaving the destination is one finished writer's complete file; once there it is missing only while some writer stands between its remove and its retry |
| ReplaceFile.QuiescenceLeavesOneFile | crates/client/src/cache.rs:171-201 | when all writers are done the destination is there and no temporary file remains |
| ReplaceFile.AloneReplaces | crates/render/src/cache.rs:249-272 | left to itself a writer that has not lost puts its own file in place of whatever was there, where renames replace and where they do not |
| ReplaceFile.TheLastOneWins | crates/client/src/cache.rs:171-201 | when all are done, in every interleaving, the file in place is that of the last rename that found the place free or took it |
| ReplaceFile.NobodyLoses | crates/render/src/cache.rs:247-250 | where renames replace, no writer discards its file |
| ReplaceFile.LosersSeeAFile | crates/client/src/cache.rs:193-197 | when a retry fails another writer's complete file is in place at that moment |
| ReplaceFile.FinishedWithoutAFile | crates/client/src/cache.rs:193-197 | it need not stay: where renames do not replace, any two writers have a run after which one has returned and the other keeps the destination away |
| ReplaceFile.ReturnedMeansInPlace | crates/client/src/cache.rs:171-201 | once a writer has returned a file is in place, in every interleaving, if and only if renames replace or there is at most one writer |
| ReplaceFile.AppearedMeansInPlace | crates/render/src/cache.rs:244-272 | and so once the destination has appeared |
| ReplaceFile.RunsAreBounded | crates/render/src/cache.rs:249-272 | no interleaving is longer than the bytes to write and four calls a writer |
| ReplaceFile.NotDoneIsNotStuck | crates/render/src/cache.rs:249-272 | a writer that is not done always has a call to make: nobody waits |
| Libraries.UpsertOneKeeps | crates/server/src/db/tracks.rs:23-72 | an upsert keeps ids unique, rows in order of version, live and deleted apart, and old rows old |
| Libraries.DeleteOneKeeps | crates/server/src/db/tracks.rs:76-107 | so does a deletion, which leaves its tombstone |
| Libraries.HistoryKeeps | crates/server/src/db/tracks.rs:133-157 | whatever the server does, every change since a version can be told from that version, except deletions whose tombstones were purged |
| Libraries.HistoryStores | crates/server/src/db/tracks.rs:23-107 | through any history the store holds for every id what it was last given, unless told to delete it since |
| Libraries.UnchangedCostsNothing | crates/server/src/db/tracks.rs:16-22 | giving what is there already changes nothing and costs no version |
| MergeTracks.Snapshot.Index | crates/mobile/src/core.rs:381-385 | the index has the last position of every id |
| MergeTracks.Snapshot.Merge | crates/mobile/src/core.rs:380-399 | the in-place merge through the index is the updates in turn, then the deletions |
| MergeTracks.Snapshot.Refresh | crates/mobile/src/core.rs:239-256 | the snapshot is merged with the delta since its version and takes the server's version |
| MergeTracks.FindUpdated | crates/mobile/src/core.rs:386-394 | of several updates of an id the last counts |
| MergeTracks.FindRetained | crates/mobile/src/core.rs:395-398 | exactly the deleted ids are gone |
| MergeTracks.MergeIsMapUpdate | crates/mobile/src/core.rs:379-399 | by id, a merge is the map update: updates over old tracks, less the deletions |
| MergeTracks.MergeKeepsOrder | crates/mobile/src/core.rs:379-399 | survivors keep their order and new ids follow in the order they first occur |
| Refreshes.MergeKeepsIdsUnique | crates/mobile/src/core.rs:380-399 | a merge never makes two tracks of one id |
| Refreshes.MergeIsIdempotent | crates/mobile/src/core.rs:380-399 | a delta that arrives twice changes nothing the second time |
| Refreshes.DeltasCompose | crates/mobile/src/core.rs:380-399 | two merges leave for every id what one merge of the composed delta leaves |
| Refreshes.DeltasComposeInOrder | crates/mobile/src/core.rs:379-399 | and the same list if and only if the ids that come back stood behind every id that stays, and come back in their old order ahead of anything new |
| Refreshes.NothingComesBack | crates/mobile/src/core.rs:379-399 | so it is whenever nothing deleted comes back |
| Refreshes.ComingBackMoves | crates/mobile/src/core.rs:379-399 | and is not when a track is deleted and brought back from in front of one that stays |
| Refreshes.RefreshIsExact | crates/mobile/src/core.rs:239-256 | after any server history, a refresh makes the snapshot the server's library if and only if nothing it holds is gone without a trace |
| Refreshes.OnlyPurgesForget | crates/server/src/db/tracks.rs:189-193 | only purged tombstones are gone without a trace |
| Refreshes.PurgedDeletionIsMissed | crates/server/src/db/tracks.rs:189-193 | a deletion purged before the refresh is missed |
| Refreshes.SnapshotFollowsServer | crates/mobile/src/core.rs:237-256 | through a whole life the snapshot is the server's library after every refresh if and only if no round forgets a track, and never has two tracks of one id |
| Refreshes.RememberedIsNotForgotten | crates/server/src/db/tracks.rs:189-193 | no round does that purges no tombstone of a track that was live when it began |
| Refreshes.FirstRefreshIsExact | crates/mobile/src/core.rs:239-256 | the first refresh always is, purges or not |
| Pulls.Mirror.Pull | crates/client/src/bin/emusic_remote.rs:205-280 | the loop over the delta with its limit, skips, failures, deletions and cursor |
| Pulls.Mirror.Clear | crates/client/src/bin/emusic_remote.rs:254-269 | exactly the files that some deleted id's prefix names are removed, downloads in progress spared |
| Mirrors.RemovesExactly | crates/client/src/bin/emusic_remote.rs:254-269 | a deletion removes a track's file if and only if its id is a safe one that is the track's, or begins it up to a dot, and the file does not look like a download in progress |
| Mirrors.RemovesOnlyItsOwn | crates/client/src/bin/emusic_remote.rs:259-268 | a deletion removes a dotless id's file if and only if it is that id's own |
| Mirrors.NamesAreDistinct | crates/client/src/cache.rs:130-134 | tracks of different dotless ids are mirrored in different files |
| Mirrors.NamesArePlain | crates/client/src/cache.rs:130-157 | the file of a track with a safe id is one path component, and no dot-path |
| Mirrors.DigestsAreSafe | crates/client/src/cache.rs:136-145 | the server's hexadecimal digests are safe ids |
| Mirrors.ExtensionIsFormat | crates/client/src/cache.rs:147-157 | a short format of letters and digits is its own extension, but for its capitals |
| Mirrors.DottedIdsClash | crates/client/src/bin/emusic_remote.rs:259-268 | with dots, deleting one track removes another's file exactly when its id and a dot begin the other's |
| Mirrors.LimitIsKept | crates/client/src/bin/emusic_remote.rs:218-221 | a run never downloads more than its limit |
| Mirrors.PullAt | crates/client/src/bin/emusic_remote.rs:217-269 | whatever the outcome, a live track's file is downloaded if the run got past it and it was not taken for complete, and is left alone otherwise |
| Mirrors.CursorNeverGoesBack | crates/client/src/bin/emusic_remote.rs:271-274 | the cursor never goes back, never passes the server's version and moves only when the run is saved |
| Mirrors.FailedPullKeeps | crates/client/src/bin/emusic_remote.rs:242-245 | a failed run keeps everything that was mirrored |
| Mirrors.PullCovers | crates/client/src/bin/emusic_remote.rs:271-274 | after a saved run every live track up to the cursor is mirrored if and only if nothing was disguised or skipped |
| Mirrors.CuttableSkipsNothing | crates/client/src/bin/emusic_remote.rs:217-224 | a delta whose versions increase strictly from every place a run can get past skips nothing |
| Mirrors.NoLimitSkipsNothing | crates/client/src/bin/emusic_remote.rs:218-221 | nor does a run without a limit, in any order |
| Mirrors.CutIsSkipped | crates/client/src/bin/emusic_remote.rs:271-273 | a later track of no higher version is skipped by the run that stops between, even from the mirror that holds exactly what it should |
| Mirrors.SafeToCutAnywhere | crates/client/src/bin/emusic_remote.rs:271-274 | every saved run, of any limit, from every mirror that covers the cursor and takes nothing for complete wrongly, covers the new cursor, if and only if the delta's versions increase strictly from every place a run can get past |
| MirrorRuns.HistoryAccounts | crates/server/src/db/tracks.rs:74-107 | whatever the server does, an id stays live, or its deletion stays ahead of the cursor, or was purged |
| MirrorRuns.LifeKeeps | crates/client/src/bin/emusic_remote.rs:205-280 | through a life whose saved pulls each meet the condition of `PullCovers`, every live track up to the cursor is mirrored, no file outlives a deletion that was seen, and the cursor never goes back |
| MirrorRuns.PullStaysHonest | crates/client/src/bin/emusic_remote.rs:225-249 | when sizes tell an id's contents apart, a pull leaves no file with a size the id's track can have and other bytes |
| MirrorRuns.LifeIsOrdinary | crates/client/src/bin/emusic_remote.rs:217-249 | then pulls without a limit, and pulls from a server that changes a track at a time, meet that condition throughout |
| MirrorRuns.EveryLifeIsMirrored | crates/client/src/bin/emusic_remote.rs:205-280 | so from nothing, through every such life of changes and pulls, failures included, every live track up to the cursor is mirrored |
| MirrorRuns.OneByOneSkipsNothing | crates/server/src/db/tracks.rs:23-72 | a server that changes one track at a time never gives a delta that can skip |
| MirrorRuns.TruncatedIsProgress | crates/client/src/bin/emusic_remote.rs:218-224 | a truncated run leaves less for the next |
| MirrorRuns.LimitedPullsFinish | crates/client/src/bin/emusic_remote.rs:205-280 | repeated limited runs mirror every live track and leave only files named for live tracks, in at most one run for each track to come and one more |
| MirrorRuns.SkippedStaysMissing | crates/client/src/bin/emusic_remote.rs:271-273 | a skipped track stays missing through every pull until the server changes it |
| MirrorRuns.TiedTrackIsNeverMirrored | crates/server/src/db/tracks.rs:19-30 | it happens from an empty server and mirror, with one batch of two and a limit of one |
| Text.SplitOnceIsUnique | crates/sid/src/songlengths.rs:46-46 | a text is split at its first separator |
| Text.WordsOfJoined | crates/sid/src/songlengths.rs:134-137 | words joined by spaces are those words |
| Text.WordsApart | crates/sid/src/songlengths.rs:134-137 | any blank parts the words before it from those behind it |
| Text.TrimPadded | crates/sid/src/songlengths.rs:37-47 | trimming takes blanks from both ends and nothing else |
| Lengths.PrintedNat | crates/sid/src/songlengths.rs:148-151 | decimal digits read back, without a leading zero |
| Lengths.PrintedLengthReads | crates/sid/src/songlengths.rs:145-161 | every length in milliseconds reads back from its printed form if a duration can hold it; longer ones abort until the minutes overflow |
| SongLengths.ParseMd5 | crates/sid/src/songlengths.rs:120-129 | 32 hexadecimal digits and nothing else are sixteen bytes |
| SongLengths.HexIsRead | crates/sid/src/songlengths.rs:121-129 | a printed digest reads back |
| SongLengths.HexInAnyCase | crates/sid/src/songlengths.rs:121-129 | in capitals or not |
| SongLengths.EntryAmongBlanks | crates/sid/src/songlengths.rs:42-56 | blanks around an entry, or before its sign, do not matter |
| SongLengths.Parse | crates/sid/src/songlengths.rs:40-59 | the loop over lines builds the database of those lines |
| SongLengths.ParseConcat | crates/sid/src/songlengths.rs:40-59 | reading lines after lines is reading both, the later over the earlier |
| SongLengths.TextsConcat | crates/sid/src/songlengths.rs:40-59 | and so for texts |
| SongLengths.IgnoredAnywhere | crates/sid/src/songlengths.rs:36-39 | a blank, comment, section or malformed line changes nothing wherever it stands |
| SongLengths.LastEntryCounts | crates/sid/src/songlengths.rs:56-56 | the last line that names a tune gives its lengths |
| SongLengths.OnlyEntriesCount | crates/sid/src/songlengths.rs:42-56 | a tune no line names is not in the database |
| SongLengths.RoundTrip | crates/sid/src/songlengths.rs:40-59 | printing any tunes, keys in any case and lengths in any of these forms, and reading the text gives back their map |
| Lengths.TokenReads | crates/sid/src/songlengths.rs:145-161 | a token reads, as sixty seconds a minute and the seconds, exactly if it spells minutes and less than a minute of seconds and is short enough, and aborts the reader exactly if it spells 2^64 seconds or more |
| Lengths.NumeralReads | crates/sid/src/songlengths.rs:154-154 | every decimal number reads as what its digits are worth in their places, with or without sign, point and power of ten |
| Lengths.NumeralOf | crates/sid/src/songlengths.rs:154-154 | and nothing else reads as a finite number |
| Lengths.MinutesExactly | crates/sid/src/songlengths.rs:147-150 | the minutes are a 64-bit number printed without a leading zero, or any digits behind a plus sign |
| Lengths.LengthReads | crates/sid/src/songlengths.rs:142-161 | `m:ss` with seconds of any digits below sixty, with or without a point and digits behind it, reads as what it lasts, aborts or is malformed exactly by its size |
| Lengths.MovedLeft | crates/sid/src/songlengths.rs:154-154 | a digit counts a tenth for each place to the right of the point |
| SongLengths.ReadAllAborts | crates/sid/src/songlengths.rs:133-137 | a list of lengths aborts exactly if one is too long behind only such as read |
| SongLengths.EntryAborts | crates/sid/src/songlengths.rs:42-56 | a line aborts exactly if it is an entry with a valid key and such a list; with a bad key it is skipped |
| SongLengths.AbortsExactly | crates/sid/src/songlengths.rs:36-59 | reading aborts if and only if some line does |
| SongLengths.SubtuneOfPrinted | crates/sid/src/songlengths.rs:84-87 | looking up a subtune counts from one, and finds nothing before the first or behind the last |
| SongLengths.TooLongAborts | crates/sid/src/songlengths.rs:160-160 | one such line costs every tune, whatever stands around it |
| Memo.SongLengthsState.SetSongLengthsPath | crates/player/src/backend.rs:356-365 | a changed path forgets the attempt, the same path does not |
| Memo.SongLengthsState.Database | crates/player/src/backend.rs:390-426 | the four cached fields answer as one remembered attempt would, and load only when there is none |
| Memo.OneLoadPerChange | crates/player/src/backend.rs:385-388 | in every run there is at most one load, successful or not, for every change of the path |
| Memo.AnswersFromTheFirstUse | crates/player/src/backend.rs:385-426 | until the path changes again, every use is answered by what the first one found at that path |
| Memo.NoPathNoAnswer | crates/player/src/backend.rs:390-394 | without a path there is no database, whatever was loaded before |
| Activity.ActivityTracker.Touch | crates/server/src/activity.rs:67-83 | a request is recorded, idle devices are swept only when a new one comes |
| Activity.ActivityTracker.WebsocketOpened | crates/server/src/activity.rs:93-101 | one more connection is counted, if the device has an entry |
| Activity.ActivityTracker.DropGuard | crates/server/src/activity.rs:128-134 | one fewer, never below zero |
| Activity.CountAfter | crates/server/src/activity.rs:67-134 | how each operation changes each device's count; the sweep changes none |
| Activity.CountIsNeverOver | crates/server/src/activity.rs:92-134 | in any run whatever no device is counted for more connections than it holds |
| Activity.CountsAgreeExactly | crates/server/src/activity.rs:92-134 | counts equal live guards throughout a run if and only if every connection opened found its entry |
| Activity.LiveGuardKeepsDevice | crates/server/src/activity.rs:70-75 | then a device with a live guard is never forgotten, is active at any time, and a drop never saturates |
| Activity.UncountedGuardHidesAnother | crates/server/src/activity.rs:93-96 | without its entry a connection leads to a device forgotten with a guard alive |
| Activity.TouchedIsRemembered | crates/server/src/activity.rs:67-83 | a device touched less than a day ago still has its entry, as every connection's own request sees to |
| Activity.LastTouchCounts | crates/server/src/activity.rs:67-83 | from its last request on a device is known by that request, active for the window after it or while a connection is counted, and not otherwise |
| Activity.LastTrackCounts | crates/server/src/activity.rs:85-90 | the track shown for it is the one it last asked for |
| Activity.ForgottenExactly | crates/server/src/activity.rs:70-75 | a new device's request forgets exactly the devices without a counted connection whose last request is a day ago; any other request forgets none |

## Left out

- Fft.FftInPlace: the twiddle factors are any roots of unity over the complex numbers (additive in the exponent, halving, minus one at half a turn), standing for the sines and cosines; rounding, the Hann window and the magnitudes of `spectrum` are not modelled.
- Output.MemoryOutput.Advance: the recording's log of gain changes is not modelled, and elapsed frames are a real number rounded down.
- Workers.Worker.OpenStream: a sink that refuses the format or offers another rate cannot occur with the memory sink and is not modelled; nor are output errors from a real device.
- Workers.Worker.SeekTo: a seek that fails has dropped the stream and what it held; `intact` is false from then until a seek lands.
- Workers.Worker.Pump: with a decoder error ahead that is not skipped (`readable` false) only safety is claimed, not that the track is heard to its end.
- Playback.PlayToEnd: assumes no further command, no decoder error that is not skipped, and no seek that failed before; a pause between the last frame and the next tick leaves the worker at the end without announcing it, as the source does.
- Playback.Show: needs either all frames decoded since the seek, or the queue, a block, the window, and how far the output ran ahead of the clock while blocks were decoded, to fit the history of 65536 frames.
- Playback.PlayFrom, Playback.PlayFromFrame: for a reader that lands at or before the target and with nothing that ends the stream early; `SeekInTrack` says that one that lands behind it does not leave the track from the target on.
- Decoder.Mp3Decoder.Read: mixing down packets whose layout differs from the stream's is part of what a packet decodes to.
- ReplaceFile.DestinationIsComplete: a rename fails exactly when the target exists and renames do not replace; other errors, crashes, and eviction running beside writers are not modelled.
- MirrorRuns.EveryLifeIsMirrored: assumes that no id has a dot and that an id never changes to other bytes of an equal size other than zero.
- RenditionCaches.RenditionCache.Evict: files do not vanish meanwhile, paths are compared by character, and the walk over subdirectories is one map.
- RenditionKeys.DistinctKeysHaveDistinctPaths: MD5 is any function to sixteen bytes, assumed to tell the two preimages apart.
- Pulls.Mirror.Pull: the server does not change while a pull runs, the temporary file beside each download is not modelled, and directories in the mirror are not.
- Mirrors.PullCovers: ids without dots (the server's are hexadecimal digests); an equal-sized file with other bytes is what `NothingDisguised` excludes.
- Refreshes.MergeIsIdempotent: for snapshots with unique ids, which every merge keeps.
- Lengths.PrintedLengthReads: durations are exact numbers; rounding to floats and nanoseconds, which moves the bound of 2^64 seconds by about two thousand, is not modelled.
- SongLengths.Parse: reading the file, finding it, and MD5 are not modelled.
- Memo.SongLengthsState.Database: the fallback length and the log message are not modelled.
- Activity.ActivityTracker.Touch: names, addresses and user agents, and the sorting of `active`, are not modelled.
- The download cache's `ensure`, path containment, and device, user interface, network and authentication code.
- `ScanCoordinator`, listen accounting, the remote registry and metadata scoring, which one branch settles.
