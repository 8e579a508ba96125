# Verified models of ffplay, ffmpeg, cmdutils, getopt and wavreader

This project models the logic of five files of the repository and proves what
they are relied on for. `dafny verify dfyconfig.toml` checks the whole project.

| file | what it models |
|---|---|
| `Basics.dfy` | option type, minimum and maximum, bytes |
| `PacketQueue.dfy` | ffplay's linked packet queue with its epoch number ("serial") |
| `DecoderEpochs.dfy` | reader, main and decoder thread around that queue, as a step relation |
| `DecoderFeeds.dfy` | what the codec gets of the queued packets in the runs of `DecoderEpochs.dfy` |
| `FrameQueue.dfy` | ffplay's ring of decoded frames, one producer and one consumer, as a step relation and as a class |
| `AudioFeed.dfy` | the audio callback that reads through a pointer into that ring |
| `PlaybackClock.dfy` | ffplay's external clock |
| `Rounding.dfy`, `VideoSync.dfy` | `do_video_out`: frame-rate conversion and its counters |
| `MuxTimestamps.dfy` | `write_frame`: repair of dts and pts |
| `InputLoop.dfy` | `seek_to_start` and the timestamp shift of looped inputs |
| `ForcedKeyFrames.dfy` | `parse_forced_key_frames` |
| `ReportDump.dfy` | the quoted command line in the report file |
| `CommandLine.dfy` | `split_commandline` |
| `GetOpt.dfy` | the public-domain `getopt`, in the style of section 12.2 (Utility Syntax Guidelines) of the POSIX.1-2008 Base Definitions |
| `WavReader.dfy`, `WavHandle.dfy` | the RIFF/WAVE chunk walker, as functions and as the stdio-based structure |

State that the programs update in place is a class whose methods are proved
against a function on values; the theorems are about that function. Where
threads interleave, every critical section and every unlocked access is a step
of its own, and the theorems hold for all runs.

Conventions. `double` is an exact real, NaN a case of its own; `int64_t` and
counters are mathematical integers; allocation succeeds; codecs, demuxers,
muxers, filters, `opt_default` and time parsing are oracles whose answers are
parameters; clocks and the system time are parameters. Time bases are equal,
so no timestamp is rescaled. `AV_NOPTS_VALUE` is its number in
`MuxTimestamps.dfy`, where it is compared as one, and an option elsewhere.

Findings. Where a promise holds only under a condition, the exact condition is
proved, for the pad bytes one way only:

- The duplicate and drop counters are wrong when the first picture gets all its
  copies booked on a predecessor that does not exist (`FirstPictureMiscounted`),
  when an oversized duplication meets a pending drop (`PendingDropCountedTwice`),
  when the recording time cuts a call short (`RecordingTimeLosesPicture`), and
  when a flush has no saved frame (`EmptyFlushCountsCopies`); `CountersExactly`
  and `BalanceExactly` say that there is no other way.
- Re-basing the external clock takes the system time twice, once to read the
  clock and once to set it, so a running clock steps back by its speed times the
  time in between (`EventSetsBack`, `PauseStepsBack`). It goes unnoticed exactly
  if the clock does not run, is not re-based or no time passes
  (`EventsAreContinuousExactly`); what was lost never exceeds what was played
  (`ClockStaysInBounds`).
- dts order is guarded against the previous packet only, so a packet without a
  dts ends the guarantee (`UnstampedPacketResetsOrder`, `FullOrderKeptExactly`);
  within every stretch of packets that have one it holds (`MuxedTimestampsAdvance`).
- A looped stream overlaps itself exactly when its raw span exceeds the period
  (`AlwaysInOrderExactly`), which a stream that does not set the file duration
  can do (`LongVideoOverlaps`). A stream without timestamps, such as a discarded
  one, adds `INT64_MIN - INT64_MAX`, which C leaves undefined: the model takes
  any value for it. Only a negative one can do harm, to files all of whose
  lengths are zero (`NegativeOverflowOverlaps`, `ContributingInOrderExactly`).
- The WAV reader does not know RIFF's pad bytes: after an odd chunk right before
  the audio it never stands at the audio (`AudioNeverFound`), and below 16 MiB it
  finds no data at all (`OddChunkHidesAudio`). After an odd chunk it reads on
  inside the next chunk header, where stray bytes may pass for a chunk, so no
  simple exact condition exists; the round trip asks all chunks but the last to
  be even.
- A chunk of 2 GiB or more is not skipped (`HugeChunkIsEntered`), and a truncated
  extensible "fmt " chunk leaves its fields behind (`ShortFormatHidesRest`).
- cmdutils.c treats "--" as protecting the next argument alone
  (`MarkerProtectsOneArgument`), not as the end of the options.

## Model

| member | source | states |
|---|---|---|
| PacketQueue.PacketQueue.PutPacket | FFmpeg-sources/ffmpeg-3.0.2/ffplay.c:398-424 | The linked list refines a FIFO sequence: a put appends one entry with the right serial (one higher for a flush packet), an aborted queue refuses and stays as it is; tail pointer, packet count, byte total and serial order stay right, and what was ever accepted is what has left plus what is queued, in order |
| PacketQueue.PacketQueue.Append | FFmpeg-sources/ffmpeg-3.0.2/ffplay.c:415-419 | Linking a node at the tail, into an empty list or not, leaves a proper chain whose last node is the new one |
| PacketQueue.PacketQueue.Unlink | FFmpeg-sources/ffmpeg-3.0.2/ffplay.c:526-530 | Taking the head leaves a proper chain of the rest; the tail pointer is null exactly when nothing is left |
| PacketQueue.PacketQueue.Get | FFmpeg-sources/ffmpeg-3.0.2/ffplay.c:512-547 | A get delivers the oldest entry with its own serial and removes exactly it; it reports an abort, or an empty queue, exactly when that is the case and then changes nothing |
| PacketQueue.PacketQueue.FlushAll | FFmpeg-sources/ffmpeg-3.0.2/ffplay.c:468-483 | A flush releases every queued packet once, front to back, and resets pointers and totals; serial and abort flag survive |
| PacketQueue.PacketQueue.Abort | FFmpeg-sources/ffmpeg-3.0.2/ffplay.c:492-501 | Aborting changes the abort flag only |
| PacketQueue.PacketQueue.Start | FFmpeg-sources/ffmpeg-3.0.2/ffplay.c:503-509 | Starting clears the abort flag and opens a new epoch with a flush packet at the end of the queue |
| PacketQueue.BooksAfterPut | FFmpeg-sources/ffmpeg-3.0.2/ffplay.c:403-420 | After a put the packet count is the length, the byte total the sum over packets and nodes, serials never fall along the queue nor exceed the queue serial, and order of acceptance is kept |
| PacketQueue.BooksAfterPop | FFmpeg-sources/ffmpeg-3.0.2/ffplay.c:525-537 | The same after a get |
| PacketQueue.FootprintFromFront | FFmpeg-sources/ffmpeg-3.0.2/ffplay.c:420-531 | The byte total built up at the tail can be taken down from the head |
| PacketQueue.FootprintIsDataPlusNodes | FFmpeg-sources/ffmpeg-3.0.2/ffplay.c:420-531 | The byte total is the data of the queued packets plus a list node for each; flush and null packets carry no data |
| DecoderEpochs.InvariantHolds | FFmpeg-sources/ffmpeg-3.0.2/ffplay.c:398-638 | In every interleaving of reader, main and decoder thread: epochs chain along the queue from the decoder's serial to the queue's, the packet in the decoder's hands is of the decoder's epoch, one epoch holds packets of one reading position only |
| DecoderEpochs.FedAfterItsFlush | FFmpeg-sources/ffmpeg-3.0.2/ffplay.c:557-590 | A packet reaches the codec only after the codec was flushed for the flush packet of the packet's own serial, with no other flush or reopening between, whatever seeks, aborts and restarts come in between |
| DecoderEpochs.SeekSidesNeverMix | FFmpeg-sources/ffmpeg-3.0.2/ffplay.c:3019-3048 | Any two packets fed to the codec without a flush between them carry the same serial and were read from the same side of every seek, also when a seek meets a stream that is being closed or reopened |
| DecoderEpochs.DecoderStartsOnCurrentPackets | FFmpeg-sources/ffmpeg-3.0.2/ffplay.c:566-583 | In every run the decoder turns to a packet if and only if it is a new packet, or the rest of one, whose serial is the queue's current one; stale packets and flush packets it never decodes |
| DecoderEpochs.EndOfStreamIsCurrent | FFmpeg-sources/ffmpeg-3.0.2/ffplay.c:3079-3081 | finished <= pkt_serial <= queue serial in every reachable state; finished equals the serial of a started queue only if the end was reached after the codec's last flush |
| DecoderEpochs.SeekInvalidatesEndOfStream | FFmpeg-sources/ffmpeg-3.0.2/ffplay.c:3031-3042 | Once a seek has put its flush packet, no earlier end of stream matches the queue serial |
| DecoderEpochs.KeepsEpochs | FFmpeg-sources/ffmpeg-3.0.2/ffplay.c:398-547 | Every single action keeps the chain of epochs and finished <= pkt_serial |
| DecoderEpochs.KeepsHeld | FFmpeg-sources/ffmpeg-3.0.2/ffplay.c:557-638 | Every single action keeps the decoder's packet and the codec's last flush on the decoder's serial |
| DecoderEpochs.KeepsOrigins | FFmpeg-sources/ffmpeg-3.0.2/ffplay.c:3019-3048 | Every single action keeps one reading position per serial |
| DecoderFeeds.NoPacketIsLost | FFmpeg-sources/ffmpeg-3.0.2/ffplay.c:557-590 | In every run, while the queue takes packets and no seek has emptied it, the packets the reader has put in the current epoch are, in order, those fed to the codec, the one in the decoder's hands and those still queued: none lost, repeated or overtaken |
| DecoderFeeds.PacketsAreFedInOrder | FFmpeg-sources/ffmpeg-3.0.2/ffplay.c:557-590 | Of every epoch, through any seeks, aborts and restarts, the codec has been fed a prefix of what the reader put |
| DecoderFeeds.CurrentPacketIsFed | FFmpeg-sources/ffmpeg-3.0.2/ffplay.c:579-590 | A packet looked at while its serial is the queue's becomes the pending one, and the next thing the decoder does, whatever the other threads do meanwhile, is to feed exactly it |
| DecoderFeeds.LeftOverIsFedNext | FFmpeg-sources/ffmpeg-3.0.2/ffplay.c:613-634 | Between two feeds without a flush, the second is the same packet again if and only if the codec left data over or is still draining frames; otherwise it is a new packet |
| DecoderFeeds.DecoderCatchesUp | FFmpeg-sources/ffmpeg-3.0.2/ffplay.c:557-638 | From every reachable state the decoder, left alone, comes to an empty queue with every packet of the current epoch fed |
| DecoderFeeds.CallReturnsExactly | FFmpeg-sources/ffmpeg-3.0.2/ffplay.c:613-638 | A call returns if and only if the codec gave a frame or the end is on record, and the end goes on record if and only if draining a null packet gives no frame |
| DecoderFeeds.FilterEndIsRecorded | FFmpeg-sources/ffmpeg-3.0.2/ffplay.c:2146-2151 | The end of the filters behind the decoder is recorded under the decoder's serial |
| DecoderFeeds.SeekEmptiesQueue | FFmpeg-sources/ffmpeg-3.0.2/ffplay.c:3031-3042 | When a seek has put its flush packet, the queue holds flush packets only, the last of a new epoch |
| DecoderFeeds.SeekReachesOpenStreams | FFmpeg-sources/ffmpeg-3.0.2/ffplay.c:3031-3042 | A seek goes on to empty the queue of an open stream and leaves that of a closed one alone |
| DecoderFeeds.SeekReplacesQueue | FFmpeg-sources/ffmpeg-3.0.2/ffplay.c:3019-3048 | A whole seek replaces the queue of an open stream by the flush packet of a new epoch and touches neither decoder nor codec; a queue being aborted is only emptied |
| DecoderFeeds.OriginCountsSeeks | FFmpeg-sources/ffmpeg-3.0.2/ffplay.c:3019-3048 | The reading position stamped on packets is the number of seeks before them |
| DecoderFeeds.ReaderPutsWhatItReads | FFmpeg-sources/ffmpeg-3.0.2/ffplay.c:398-424 | A packet read while the queue takes packets is queued last, under the queue's serial |
| DecoderFeeds.DecoderEnds | FFmpeg-sources/ffmpeg-3.0.2/ffplay.c:492-501 | After an abort the decoder thread ends within four steps of its own, from wherever it is |
| DecoderFeeds.StreamCanBeReopened | FFmpeg-sources/ffmpeg-3.0.2/ffplay.c:492-509 | From every running state a stream can be closed and opened again, after which the queue holds the flush packet of a new epoch and nothing else |
| FrameQueue.RunKeepsInv | FFmpeg-sources/ffmpeg-3.0.2/ffplay.c:700-784 | Every interleaving of one producer and one consumer, with the indices moved outside the lock, keeps the ring in order: live slots hold the pushed frames in push order |
| FrameQueue.IndexLaw | FFmpeg-sources/ffmpeg-3.0.2/ffplay.c:747-770 | windex = rindex + size + [push half done] - [next half done] modulo the queue size, in every such state |
| FrameQueue.PeeksAreSafe | FFmpeg-sources/ffmpeg-3.0.2/ffplay.c:700-745 | Under the checks their callers make, peek, peek-next and peek-last return the frames in push order, whatever the producer is doing, and never the slot being written |
| FrameQueue.ReleaseIsSafe | FFmpeg-sources/ffmpeg-3.0.2/ffplay.c:757-763 | The slot being released is emptied and is never the one being written |
| FrameQueue.StepKeepsInv | FFmpeg-sources/ffmpeg-3.0.2/ffplay.c:715-778 | Each step of either thread keeps index law and contents |
| FrameQueue.NobodyIsStuck | FFmpeg-sources/ffmpeg-3.0.2/ffplay.c:715-778 | The producer waits for a full queue only, the consumer for an empty one only; every call in progress can go on |
| FrameQueue.QueueFillsUp | FFmpeg-sources/ffmpeg-3.0.2/ffplay.c:715-755 | The queue takes as many frames as it has slots, and holds them in push order |
| FrameQueue.FrameQueue.PeekWritable | FFmpeg-sources/ffmpeg-3.0.2/ffplay.c:715-729 | Grants the write slot exactly when there is room |
| FrameQueue.FrameQueue.Push | FFmpeg-sources/ffmpeg-3.0.2/ffplay.c:747-755 | An uninterrupted push is its two visible steps and appends the written frame |
| FrameQueue.FrameQueue.Next | FFmpeg-sources/ffmpeg-3.0.2/ffplay.c:757-770 | With keep-last the first call only marks the frame as shown; otherwise the head is released, passed and uncounted |
| FrameQueue.FrameQueue.Previous | FFmpeg-sources/ffmpeg-3.0.2/ffplay.c:772-784 | Stepping back makes exactly the last shown frame count as remaining again |
| AudioFeed.DeliveredIsConcatenation | FFmpeg-sources/ffmpeg-3.0.2/ffplay.c:2539-2566 | With a decoder filling the queue at any time, the bytes the callback has copied out of queue slots are the buffers it took, one after another, short only of the unread rest of the last; frames appear in queue order, at most once, with the bytes they were queued with |
| AudioFeed.RunIsSound | FFmpeg-sources/ffmpeg-3.0.2/ffplay.c:2438-2566 | In every reachable state, with a decoder filling the queue at any time, a buffer that is not used up still holds the bytes it was taken with, and one that lies in a queue slot lies in the slot at rindex: the frame behind audio_buf stays until the callback asks for the next |
| AudioFeed.TakenFramesAreJudged | FFmpeg-sources/ffmpeg-3.0.2/ffplay.c:2438-2441 | The frame returned by the peek is still the one at rindex, with the serial it was queued with, when the loop compares serials after frame_queue_next |
| AudioFeed.EveryFrameIsJudged | FFmpeg-sources/ffmpeg-3.0.2/ffplay.c:2430-2441 | No frame is passed over: frames are judged in queue order, each once; one is played if and only if its serial is the packet queue's as read; the output is made of exactly the played frames, in order, and silence |
| AudioFeed.CallbackGoesOn | FFmpeg-sources/ffmpeg-3.0.2/ffplay.c:2430-2566 | In every reachable state the callback has a next step |
| AudioFeed.NextFrameIsTaken | FFmpeg-sources/ffmpeg-3.0.2/ffplay.c:2430-2441 | With its buffer used up and a frame queued, the callback can take that frame and judge it, whatever the decoder is at |
| AudioFeed.PlayerRunsAreQueueRuns | FFmpeg-sources/ffmpeg-3.0.2/ffplay.c:2438-2439 | Every run of player and decoder is a run of the queue's own steps |
| AudioFeed.KeepsBuffer | FFmpeg-sources/ffmpeg-3.0.2/ffplay.c:2505-2510 | No action, of the decoder or the callback, changes or frees a buffer that is not used up |
| AudioFeed.AudioOutput.Callback | FFmpeg-sources/ffmpeg-3.0.2/ffplay.c:2532-2566 | A callback delivers exactly the requested number of bytes, the next ones of the concatenated buffers |
| AudioFeed.CallbackSizesDoNotMatter | FFmpeg-sources/ffmpeg-3.0.2/ffplay.c:2539-2566 | Two outputs over the same buffers agree wherever both have delivered, whatever lengths were asked for |
| PlaybackClock.ReadingIsLinear | FFmpeg-sources/ffmpeg-3.0.2/ffplay.c:1313-1331 | The drift formula is base plus speed times elapsed time, and the base itself while paused |
| PlaybackClock.EventSetsBack | FFmpeg-sources/ffmpeg-3.0.2/ffplay.c:1313-1343 | A pause toggle or speed adjustment, reading the system time once to read the clock and again to set it, sets the clock back by exactly its rate times the time in between |
| PlaybackClock.EventsAreContinuousExactly | FFmpeg-sources/ffmpeg-3.0.2/ffplay.c:1339-1436 | An event leaves the reading alone if and only if the clock is unset, paused or not re-based, or no time passes between the two system times |
| PlaybackClock.PauseStepsBack | FFmpeg-sources/ffmpeg-3.0.2/ffplay.c:1434-1435 | A clock at normal speed, read at 1.0 and set at 1.5, goes from 1.5 back to 1.0 |
| PlaybackClock.ClockShowsTimePlayed | FFmpeg-sources/ffmpeg-3.0.2/ffplay.c:1313-1436 | After any run of toggles and adjustments the clock shows its start plus the sum of speed times unpaused time, less exactly what the re-basings lost |
| PlaybackClock.ClockStaysInBounds | FFmpeg-sources/ffmpeg-3.0.2/ffplay.c:1313-1436 | Seen between events, whatever the gaps between the two system times, the clock never runs back and never gains more than one per cent on the wall clock |
| PlaybackClock.PausedClockStands | FFmpeg-sources/ffmpeg-3.0.2/ffplay.c:1317-1318 | While paused it stands still through any number of adjustments |
| PlaybackClock.SpeedStaysInRange | FFmpeg-sources/ffmpeg-3.0.2/ffplay.c:1396-1408 | Every adjustment keeps the speed within 0.900 and 1.010 |
| PlaybackClock.SpeedFollowsQueues | FFmpeg-sources/ffmpeg-3.0.2/ffplay.c:1396-1408 | From the packet counts alone: at most 2 packets in an open stream slow the clock by 0.001, not below 0.900; more than 10 in every open stream speed it up by 0.001, not above 1.010; otherwise it moves 0.001 towards 1.0 or stays there |
| PlaybackClock.FreshClock | FFmpeg-sources/ffmpeg-3.0.2/ffplay.c:1313-1352 | A clock reads NaN until it is set, then runs at normal speed, and reads NaN for any other queue serial than the one it was set with |
| PlaybackClock.ExternalClock.CheckSpeed | FFmpeg-sources/ffmpeg-3.0.2/ffplay.c:1396-1409 | Re-bases the clock and changes its speed in the direction and by the amount that the packet counts of the open streams call for |
| PlaybackClock.ExternalClock.SetClockSpeed | FFmpeg-sources/ffmpeg-3.0.2/ffplay.c:1333-1343 | Reads at one time, sets at another, then changes the speed |
| PlaybackClock.ExternalClock.Toggle | FFmpeg-sources/ffmpeg-3.0.2/ffplay.c:1434-1435 | Reads at one time, sets at another, then flips the pause flag |
| PlaybackClock.ExternalClock.GetClock | FFmpeg-sources/ffmpeg-3.0.2/ffplay.c:1313-1323 | The reading, NaN until the clock was first set |
| PlaybackClock.ExternalClock.SetClockAt | FFmpeg-sources/ffmpeg-3.0.2/ffplay.c:1325-1331 | Sets base, time, drift and serial, and nothing else |
| Rounding.Rint | FFmpeg-sources/ffmpeg-3.0.2/ffmpeg.c:1009-1012 | lrint: the nearest integer, ties to even |
| VideoSync.Median | FFmpeg-sources/ffmpeg-3.0.2/ffmpeg.c:952-954 | The median of three |
| VideoSync.BalanceExactly | FFmpeg-sources/ffmpeg-3.0.2/ffmpeg.c:1029-1052 | A call keeps frames sent + last_dropped = received + dup - drop if and only if it neither stops for the recording time nor flushes without a saved frame, and an oversized duplication meets a picture and no pending drop |
| VideoSync.FramesAreConserved | FFmpeg-sources/ffmpeg-3.0.2/ffmpeg.c:1029-1219 | Over any run of such calls the balance holds, and with the last report's addition sent = received + dup - drop |
| VideoSync.CountersExactly | FFmpeg-sources/ffmpeg-3.0.2/ffmpeg.c:1037-1052 | A call keeps the meaning of the counters (dup: copies beyond each picture's first; drop: pictures never shown) if and only if it keeps the balance and is not a first picture whose copies are all booked on a missing predecessor |
| VideoSync.CountersAreExact | FFmpeg-sources/ffmpeg-3.0.2/ffmpeg.c:1029-1219 | Over any run of such calls the counters mean exactly that |
| VideoSync.DropsAreNeverShown | FFmpeg-sources/ffmpeg-3.0.2/ffmpeg.c:1607-1608 | The drops of the last report are as many as the received pictures that appear nowhere in the output |
| VideoSync.FirstPictureMiscounted | FFmpeg-sources/ffmpeg-3.0.2/ffmpeg.c:1008-1065 | A first picture that starts 2.3 ticks late and has no duration is sent twice and still reported as dropped, with two duplicates |
| VideoSync.PendingDropCountedTwice | FFmpeg-sources/ffmpeg-3.0.2/ffmpeg.c:1029-1052 | From the start: one picture on time, one late, one oversized give one frame sent, no duplicate and three drops for three pictures |
| VideoSync.RecordingTimeLosesPicture | FFmpeg-sources/ffmpeg-3.0.2/ffmpeg.c:1055-1072 | From the start: a picture at the end of the recording time is neither sent nor counted as dropped |
| VideoSync.EmptyFlushCountsCopies | FFmpeg-sources/ffmpeg-3.0.2/ffmpeg.c:952-1072 | From the start: two oversized pictures and a flush give two duplicates and two drops, and nothing sent |
| VideoSync.EncoderTimestampsIncrease | FFmpeg-sources/ffmpeg-3.0.2/ffmpeg.c:981-1069 | For arbitrary input timestamps, durations and early exits the pts handed to the encoder strictly increase in CFR, VSCFR and VFR mode, and are consecutive integers in CFR and VSCFR |
| VideoSync.PlanNeverGoesBack | FFmpeg-sources/ffmpeg-3.0.2/ffmpeg.c:981-1019 | The rounding of sync_opts never moves it back, and in the constant-rate modes not at all once a frame was sent |
| VideoSync.DriftIsBounded | FFmpeg-sources/ffmpeg-3.0.2/ffmpeg.c:956-1013 | With no threshold, cap or early exit, after every picture its end lies at most 0.5 ticks (1.0 in VSCFR) beyond the output; if picture ends never fall and start at 0 or later, the output never runs more than 2.1 ticks ahead |
| VideoSync.StepDrift | FFmpeg-sources/ffmpeg-3.0.2/ffmpeg.c:981-1013 | One picture keeps both drift bounds, through the clipping branch and the VSCFR start-up jump; how many frames it gets is ConstantRateOutput |
| VideoSync.TakesOverNearStart | FFmpeg-sources/ffmpeg-3.0.2/ffmpeg.c:1008-1012 | In CFR mode a late picture is first shown between 1.1 and 0.1 ticks before its start; the picture before fills the ticks up to there |
| VideoSync.VfrTracksInput | FFmpeg-sources/ffmpeg-3.0.2/ffmpeg.c:1014-1019 | In VFR mode a picture is dropped exactly when it ends 0.6 ticks before the next free one, and is otherwise stamped within 0.6 ticks of the time it covers |
| VideoSync.ConstantRateOutput | FFmpeg-sources/ffmpeg-3.0.2/ffmpeg.c:956-1013 | At a constant rate, over the picture's times alone: no frame if it ends more than 1.1 ticks before the output or below the drop threshold, one up to 1.1 ticks beyond, otherwise the nearest integer of the gap, ties to even, up to the frame cap; the first ones, to the nearest integer of start less 0.6, show the saved picture of a late start; pts are consecutive |
| VideoSync.VscfrStartsAtPicture | FFmpeg-sources/ffmpeg-3.0.2/ffmpeg.c:994-1001 | VSCFR starts at the nearest tick to a late first picture and fills its duration |
| VideoSync.VariableRateOutput | FFmpeg-sources/ffmpeg-3.0.2/ffmpeg.c:1014-1019 | VFR: no frame if the picture ends 0.6 ticks before the output, otherwise one, at the nearest tick to its start if it ends more than 0.6 beyond the output and at the next free tick if not |
| VideoSync.PassthroughOutput | FFmpeg-sources/ffmpeg-3.0.2/ffmpeg.c:1020-1023 | Passthrough and drop mode: one frame at the nearest tick |
| VideoSync.FlushOutput | FFmpeg-sources/ffmpeg-3.0.2/ffmpeg.c:950-955 | The flush repeats the saved picture as often as the median of the last three counts says |
| VideoSync.HistoryIsLastThree | FFmpeg-sources/ffmpeg-3.0.2/ffmpeg.c:1032-1035 | Those counts are what the last three calls planned for the saved picture, newest first, oversized calls included |
| VideoSync.RecordingTimeCuts | FFmpeg-sources/ffmpeg-3.0.2/ffmpeg.c:1068-1075 | The recording time takes away exactly the frames at or after its end |
| VideoSync.OutputStream.Decide | FFmpeg-sources/ffmpeg-3.0.2/ffmpeg.c:950-1030 | The in-place computation of drift, clipping and counts is the plan the theorems are about |
| VideoSync.OutputStream.Count | FFmpeg-sources/ffmpeg-3.0.2/ffmpeg.c:1032-1052 | Drop and duplicate counting, and the oversized-duplication exit that leaves last_dropped as it was |
| VideoSync.OutputStream.SendCopies | FFmpeg-sources/ffmpeg-3.0.2/ffmpeg.c:1054-1219 | The sending loop hands over the granted number of copies, the saved picture first, at consecutive pts, and saves the new picture only if it was not cut short |
| VideoSync.OutputStream.DoVideoOut | FFmpeg-sources/ffmpeg-3.0.2/ffmpeg.c:916-1219 | The whole call takes the stream to the state the theorems speak of |
| MuxTimestamps.MuxedTimestampsAdvance | FFmpeg-sources/ffmpeg-3.0.2/ffmpeg.c:698-733 | Audio and video to a muxer that uses timestamps, for any packets: in every stretch of packets with a dts the dts strictly increase (never fall under AVFMT_TS_NONSTRICT), and no pts lies before its dts |
| MuxTimestamps.RepairedFollows | FFmpeg-sources/ffmpeg-3.0.2/ffmpeg.c:698-733 | The same for one packet against the one before |
| MuxTimestamps.RepairIsLeast | FFmpeg-sources/ffmpeg-3.0.2/ffmpeg.c:698-733 | Audio and video leave with the least dts allowed: the larger of the dts asked for (beyond its pts, the next free one moved into the packet's span) and the last one, plus one for a strict muxer; a pts leaves as the larger of itself and that dts |
| MuxTimestamps.RepairOfOthers | FFmpeg-sources/ffmpeg-3.0.2/ffmpeg.c:649-733 | Other streams are not held to the last dts; packets without dts and muxers without timestamps pass untouched; discarding removes both timestamps |
| MuxTimestamps.PacketsAreWritten | FFmpeg-sources/ffmpeg-3.0.2/ffmpeg.c:660-734 | Over any run every packet is written once, up to the frame cap where packets are counted, each repaired against the dts of the one before |
| MuxTimestamps.GuessClampsNextDts | FFmpeg-sources/ffmpeg-3.0.2/ffmpeg.c:705-709 | The sum-minus-min-minus-max guess is last_mux_dts + 1 clamped to [pts, dts] |
| MuxTimestamps.GoodTimestampsUntouched | FFmpeg-sources/ffmpeg-3.0.2/ffmpeg.c:699-732 | Packets already in order pass through unchanged |
| MuxTimestamps.FullOrderKeptExactly | FFmpeg-sources/ffmpeg-3.0.2/ffmpeg.c:646-719 | Order among all stamped packets survives a packet, of any audio or video stream, if and only if timestamps are discarded, the frame cap is reached, the packet has no dts, the packet before it had one, or its own is late enough for all before it |
| MuxTimestamps.UnstampedPacketResetsOrder | FFmpeg-sources/ffmpeg-3.0.2/ffmpeg.c:710-733 | Across a packet without a dts the order is not kept: dts 10, none, 5 leaves as 10, none, 5 |
| MuxTimestamps.OutputStream.WriteFrame | FFmpeg-sources/ffmpeg-3.0.2/ffmpeg.c:635-733 | The in-place repairs, the discarding of timestamps and the frame cap take the stream to the state the theorems speak of; a repaired dts is the least one allowed |
| InputLoop.ShiftIsPeriodic | FFmpeg-sources/ffmpeg-3.0.2/ffmpeg.c:3685-3744 | When the same packets are replayed, the second pass is shifted by the longest contributing stream and every later one by exactly one period more, the longest last-frame-plus-span among contributing streams that have timestamps |
| InputLoop.ContributingStreamsInOrder | FFmpeg-sources/ffmpeg-3.0.2/ffmpeg.c:3713-3738 | For every k and every stream that sets the file duration and has a last frame (or any, unless the overflow is negative), no pts of pass k comes after a pts of pass k + 1, whatever discarded or untimed streams the file has |
| InputLoop.ContributingInOrderExactly | FFmpeg-sources/ffmpeg-3.0.2/ffmpeg.c:3667-3738 | For such a stream of any length all passes are in order if and only if the longest length is positive or the last contributing length is not negative |
| InputLoop.PassesInOrderExactly | FFmpeg-sources/ffmpeg-3.0.2/ffmpeg.c:3926-3934 | For any stream, two consecutive passes are in order if and only if its raw span fits into the shift between them |
| InputLoop.AlwaysInOrderExactly | FFmpeg-sources/ffmpeg-3.0.2/ffmpeg.c:3926-3934 | For any stream, all passes are in order if and only if the file duration cannot be negative and the raw span fits into the period |
| InputLoop.IrregularStepsBack | FFmpeg-sources/ffmpeg-3.0.2/ffmpeg.c:3666-3682 | Where it can be negative the second pass starts before the first |
| InputLoop.NegativeOverflowOverlaps | FFmpeg-sources/ffmpeg-3.0.2/ffmpeg.c:3666-3735 | A file of two streams for which it is |
| InputLoop.LongVideoOverlaps | FFmpeg-sources/ffmpeg-3.0.2/ffmpeg.c:3717-3724 | A video stream longer than the audio does overlap itself |
| InputLoop.PassExtremes | FFmpeg-sources/ffmpeg-3.0.2/ffmpeg.c:3927-3931 | What one pass does to max_pts and min_pts |
| InputLoop.LengthIsPeriodic | FFmpeg-sources/ffmpeg-3.0.2/ffmpeg.c:3666-3738 | The loop over the streams adds exactly the period to the kept duration, but not below the longest stream without timestamps, with the exact case in which the result is negative |
| InputLoop.LoopCountsDown | FFmpeg-sources/ffmpeg-3.0.2/ffmpeg.c:3740-3774 | A positive loop count falls by one with every pass and stops at zero, a negative one never changes; another pass follows if and only if it is not zero |
| InputLoop.InputFile.ProcessPacket | FFmpeg-sources/ffmpeg-3.0.2/ffmpeg.c:3811-3934 | Shifts a timestamp and widens the stream's range; discarded streams, streams that appeared later and packets without pts change nothing |
| InputLoop.InputFile.Rewind | FFmpeg-sources/ffmpeg-3.0.2/ffmpeg.c:3685-3744 | The two loops over the streams compute the new duration, audio streams alone when there is audio |
| ForcedKeyFrames.ParseForcedKeyFrames | FFmpeg-sources/ffmpeg-3.0.2/ffmpeg.c:2670-2731 | Gives up exactly when an item is malformed or the array would outgrow an int; otherwise every write is in bounds, index meets size at the end, and the array is the sorted permutation of the requested times, for any mix of times and chapters items, zero chapters included |
| ForcedKeyFrames.AddItem | FFmpeg-sources/ffmpeg-3.0.2/ffmpeg.c:2690-2722 | One item fills exactly the room set aside for it: index + (n - i) = size before and after, also when a chapters item resizes the array |
| ForcedKeyFrames.ItemsAskFor | FFmpeg-sources/ffmpeg-3.0.2/ffmpeg.c:2694-2722 | A time asks for itself, "chapters" for every chapter start, "chapters" with a time for every start that much later; a malformed time for nothing |
| ForcedKeyFrames.CountItems | FFmpeg-sources/ffmpeg-3.0.2/ffmpeg.c:2677-2680 | Commas plus one is the number of items |
| ForcedKeyFrames.SplitCountsCommas | FFmpeg-sources/ffmpeg-3.0.2/ffmpeg.c:2677-2680 | Splitting at commas gives one item more than there are commas |
| ForcedKeyFrames.SplitJoins | FFmpeg-sources/ffmpeg-3.0.2/ffmpeg.c:2688-2692 | Joining the items with commas gives back the string, and no item holds a comma |
| ForcedKeyFrames.WriteChapters | FFmpeg-sources/ffmpeg-3.0.2/ffmpeg.c:2706-2712 | One entry per chapter, shifted, after the entries already there |
| ForcedKeyFrames.SortArray | FFmpeg-sources/ffmpeg-3.0.2/ffmpeg.c:2728 | The array is sorted and a permutation of what it was |
| ReportDump.CommandLineReadsBack | FFmpeg-sources/ffmpeg-3.0.2/cmdutils.c:455-508 | A reader recovers every argument list, empty arguments and all byte values included, from the printed line |
| ReportDump.PrintingIsInjective | FFmpeg-sources/ffmpeg-3.0.2/cmdutils.c:504-508 | Distinct command lines never print alike |
| ReportDump.ShellReadsArgument | FFmpeg-sources/ffmpeg-3.0.2/cmdutils.c:455-477 | A POSIX shell reads a printed argument, quoted or not, as one word equal to the argument, if that is printable and not empty |
| ReportDump.ReportStaysPrintable | FFmpeg-sources/ffmpeg-3.0.2/cmdutils.c:455-477 | The report holds printable characters only, and an argument goes unquoted if and only if it is made of '+' to ':', '@' to 'Z', '_' and 'a' to 'z' |
| ReportDump.QuotedReads | FFmpeg-sources/ffmpeg-3.0.2/cmdutils.c:467-476 | A quoted argument reads back, whatever follows its closing quote |
| ReportDump.EscapeReads | FFmpeg-sources/ffmpeg-3.0.2/cmdutils.c:469-474 | Each escaped byte reads back as itself and never starts with a quote |
| ReportDump.Report.DumpArgument | FFmpeg-sources/ffmpeg-3.0.2/cmdutils.c:455-477 | Prints an argument plain or quoted, after what was printed before |
| ReportDump.Report.DumpEscaped | FFmpeg-sources/ffmpeg-3.0.2/cmdutils.c:468-475 | Prints the escapes byte by byte |
| ReportDump.Report.DumpCommandLine | FFmpeg-sources/ffmpeg-3.0.2/cmdutils.c:504-507 | Prints the arguments with a space between neighbours and a newline at the end |
| CommandLine.ItemsSpellArguments | FFmpeg-sources/ffmpeg-3.0.2/cmdutils.c:748-828 | No argument is used twice or skipped: the items of the parse spell out the arguments, all of them unless there is an error |
| CommandLine.WrittenItemsParse | FFmpeg-sources/ffmpeg-3.0.2/cmdutils.c:735-839 | Options, files and "--" markers in any mixture parse back to themselves if and only if each is properly written given its neighbours: any file name after "--", an exiting option without value at the very end, a negated option whose next word is no value for a codec or format option |
| CommandLine.EveryOptionPlacedOnce | FFmpeg-sources/ffmpeg-3.0.2/cmdutils.c:674-686 | Each table option lands in exactly one place: the global list, one closed group or the open group |
| CommandLine.OptionReachesNextFile | FFmpeg-sources/ffmpeg-3.0.2/cmdutils.c:644-686 | An option marked OPT_PERFILE, OPT_SPEC or OPT_OFFSET is in the group closed by the next separator or bare argument |
| CommandLine.OptionsPlacedByFlags | FFmpeg-sources/ffmpeg-3.0.2/cmdutils.c:674-686 | After any command line the global list holds only options without any of the three marks, every group only options with one |
| CommandLine.ListsKeepOrder | FFmpeg-sources/ffmpeg-3.0.2/cmdutils.c:674-686 | Global options, options of a group and codec options keep command-line order |
| CommandLine.GroupsInOrder | FFmpeg-sources/ffmpeg-3.0.2/cmdutils.c:644-669 | The groups of a definition stand in the order they were closed, each with exactly what came since the close before |
| CommandLine.ParsedGroupsInRange | FFmpeg-sources/ffmpeg-3.0.2/cmdutils.c:624-636 | Every close names an existing group definition |
| CommandLine.MarkerProtectsOneArgument | FFmpeg-sources/ffmpeg-3.0.2/cmdutils.c:755-765 | After "--" the next argument is a file whatever it looks like, and only the next |
| CommandLine.FindOption | FFmpeg-sources/ffmpeg-3.0.2/cmdutils.c:199-210 | The first table entry named like the part of the key before a colon |
| CommandLine.MatchSeparator | FFmpeg-sources/ffmpeg-3.0.2/cmdutils.c:624-636 | The first group definition with this separator |
| CommandLine.FirstItem | FFmpeg-sources/ffmpeg-3.0.2/cmdutils.c:748-828 | An item takes only arguments that are there, from the front |
| CommandLine.OptionParseContext.FinishGroup | FFmpeg-sources/ffmpeg-3.0.2/cmdutils.c:644-669 | Closing a group moves the open options into the list of its definition and starts afresh |
| CommandLine.OptionParseContext.AddOpt | FFmpeg-sources/ffmpeg-3.0.2/cmdutils.c:674-686 | An option goes to the end of the open group if it has one of the three marks, and to the end of the global list if not |
| CommandLine.OptionParseContext.HandleDash | FFmpeg-sources/ffmpeg-3.0.2/cmdutils.c:768-824 | The chain of lookups for a word with a dash does what the grammar says, and changes nothing when it reports an error |
| CommandLine.OptionParseContext.Split | FFmpeg-sources/ffmpeg-3.0.2/cmdutils.c:735-839 | The loop over argv leaves the context in which every item of the grammar is placed, and reports the grammar's error |
| GetOpt.Scanner.GetOpt | FFmpeg-sources/ffmpeg-3.0.2/compat/getopt.c:41-84 | Each call reports the first event of the recursive parse of what is left and leaves the rest; sp stays 1 or inside the word at optind; words left, then characters left, fall on every call that is not EOF |
| GetOpt.Scanner.GetAll | FFmpeg-sources/ffmpeg-3.0.2/compat/getopt.c:41-84 | Calling until EOF yields the recursive parse of the whole argument list, with optind at the operands |
| GetOpt.Scanner.BeginWord | FFmpeg-sources/ffmpeg-3.0.2/compat/getopt.c:47-55 | EOF at the end, at an operand or at "--", which is stepped over |
| GetOpt.Scanner.TakeArgument | FFmpeg-sources/ffmpeg-3.0.2/compat/getopt.c:65-75 | The argument is the rest of the word or the next word; a missing one leaves optarg alone |
| GetOpt.Scanner.Advance | FFmpeg-sources/ffmpeg-3.0.2/compat/getopt.c:77-80 | The next character of the cluster, or the next word |
| GetOpt.WrittenOptionsParse | FFmpeg-sources/ffmpeg-3.0.2/compat/getopt.c:41-84 | Letters written in any grouping, known or not, with arguments attached or separate, parse back to themselves, unknown ones as illegal, with the operands intact, closed by "--" or by the first operand |
| GetOpt.MissingArgumentIsReported | FFmpeg-sources/ffmpeg-3.0.2/compat/getopt.c:65-71 | An option at the very end without its argument is reported as such, after everything before it |
| GetOpt.OptionStringIsRead | FFmpeg-sources/ffmpeg-3.0.2/compat/getopt.c:57-65 | A letter takes an argument if and only if a colon follows its first occurrence in the option string |
| GetOpt.WordParses | FFmpeg-sources/ffmpeg-3.0.2/compat/getopt.c:56-83 | The same for one word |
| WavReader.WavRoundTrip | FFmpeg-sources/mstorsjo-fdk-aac-50a98d1/wavreader.c:86-192 | For a RIFF/WAVE file of good chunks in any order, all but the last of even length, opening recovers the header and reads of any sizes deliver exactly the audio, and no more |
| WavReader.OpenRecovers | FFmpeg-sources/mstorsjo-fdk-aac-50a98d1/wavreader.c:86-157 | For the same files: the last "fmt " gives the header, the reader stands at the audio of the last "data" and knows its length; what is missing stays zero |
| WavReader.OpenRecoversStream | FFmpeg-sources/mstorsjo-fdk-aac-50a98d1/wavreader.c:92-140 | With an unknown outer length, or a "data" chunk of length 0, the reader stops at the audio in streaming mode with the header read |
| WavReader.OtherFilesAreSkipped | FFmpeg-sources/mstorsjo-fdk-aac-50a98d1/wavreader.c:96-105 | A file whose chunk is not RIFF, or not of the form WAVE, yields no header and no audio, whatever it holds |
| WavReader.ShortFormatHidesRest | FFmpeg-sources/mstorsjo-fdk-aac-50a98d1/wavreader.c:116-154 | After a "fmt " chunk that is too short the rest of the file is ignored: header and audio are those before it, but an extensible one has left its first fields behind |
| WavReader.MissingBytesAreOnes | FFmpeg-sources/mstorsjo-fdk-aac-50a98d1/wavreader.c:50-64 | A number cut short by the end of the file has ones for its missing bits |
| WavReader.SignedWraps | FFmpeg-sources/mstorsjo-fdk-aac-50a98d1/wavreader.c:121-133 | Header fields kept in an int are the 32-bit value modulo 2^32 |
| WavReader.HugeChunkIsEntered | FFmpeg-sources/mstorsjo-fdk-aac-50a98d1/wavreader.c:66-147 | A chunk of 2 GiB or more, possible in a stream of unknown length, is not skipped: the int counter is negative and the walk goes on inside the chunk |
| WavReader.OddChunkHidesAudio | FFmpeg-sources/mstorsjo-fdk-aac-50a98d1/wavreader.c:107-150 | An odd chunk right before the audio (below 16 MiB) hides it: the pad byte is read as part of the tag and no data is found |
| WavReader.AudioNeverFound | FFmpeg-sources/mstorsjo-fdk-aac-50a98d1/wavreader.c:86-157 | With an odd chunk right before audio of any length the reader ends at the start of the file or beyond the first byte of the audio, never at it |
| WavReader.OpenLater | FFmpeg-sources/mstorsjo-fdk-aac-50a98d1/wavreader.c:86-157 | Wherever the walk stands, the audio it ends at is the one it has, or lies beyond |
| WavReader.ChunksRead | FFmpeg-sources/mstorsjo-fdk-aac-50a98d1/wavreader.c:107-150 | The inner loop takes any run of even chunks one by one, and position plus remaining length stays put |
| WavReader.SubChunkReads | FFmpeg-sources/mstorsjo-fdk-aac-50a98d1/wavreader.c:107-149 | One round takes one chunk, with its effect on header, data length and data position |
| WavReader.FormatChunkReads | FFmpeg-sources/mstorsjo-fdk-aac-50a98d1/wavreader.c:116-136 | The "fmt " fields, plain or extensible, and the rest skipped |
| WavReader.HeaderReadsBack | FFmpeg-sources/mstorsjo-fdk-aac-50a98d1/wavreader.c:121-133 | A written "fmt " body reads back as the header, plain and extensible |
| WavReader.ReadsDeliverAudio | FFmpeg-sources/mstorsjo-fdk-aac-50a98d1/wavreader.c:182-192 | Any sequence of read sizes concatenates to the prefix of the audio of that total length |
| WavReader.ReadsDeliverStream | FFmpeg-sources/mstorsjo-fdk-aac-50a98d1/wavreader.c:182-192 | In streaming mode reads deliver the rest of the file |
| WavHandle.WavHandle.OpenWav | FFmpeg-sources/mstorsjo-fdk-aac-50a98d1/wavreader.c:86-157 | The nested loops over the stream end in the state the theorems speak of |
| WavHandle.WavHandle.ReadSubChunks | FFmpeg-sources/mstorsjo-fdk-aac-50a98d1/wavreader.c:107-150 | The inner loop |
| WavHandle.WavHandle.ReadSubChunk | FFmpeg-sources/mstorsjo-fdk-aac-50a98d1/wavreader.c:108-149 | One round of it: tag, length, the three kinds of chunk, and every break |
| WavHandle.WavHandle.ReadFormatChunk | FFmpeg-sources/mstorsjo-fdk-aac-50a98d1/wavreader.c:116-136 | The field-by-field read of "fmt " with both length checks |
| WavHandle.WavHandle.ReadInt | FFmpeg-sources/mstorsjo-fdk-aac-50a98d1/wavreader.c:50-64 | A little-endian number; at the end of the file the missing bits are ones |
| WavHandle.WavHandle.ReadTag | FFmpeg-sources/mstorsjo-fdk-aac-50a98d1/wavreader.c:41-48 | Four bytes, or the end-of-file flag raised |
| WavHandle.WavHandle.Skip | FFmpeg-sources/mstorsjo-fdk-aac-50a98d1/wavreader.c:66-70 | Skips bytes that are there; a count beyond an int skips nothing |
| WavHandle.ReadBack | FFmpeg-sources/mstorsjo-fdk-aac-50a98d1/wavreader.c:86-192 | Opening a written file, asking for its header and reading in pieces of any sizes returns the header written, the length of the audio, whether format and sample rate are set, and the audio |
| WavHandle.WavHandle.Read | FFmpeg-sources/mstorsjo-fdk-aac-50a98d1/wavreader.c:182-192 | At most what is left, unless streaming |

## Left out

- DecoderEpochs: the check of a packet's stream index against the open stream, a separate unlocked read, is not a step; a packet of the old stream may be queued for the new one.
- DecoderEpochs: pts reordering and `next_pts` inside `decoder_decode_frame`; they do not touch serials.
- AudioFeed.AudioOutput.Callback: needs a bound on how many empty buffers follow each other, because the loop of the program does not end without one; muting and mixing at lower volume are not modelled.
- AudioFeed: the packet queue's serial is whatever the callback reads, not tied to a queue; resampling is memory of the player's own with arbitrary contents.
- DecoderFeeds.NoPacketIsLost: says nothing while a seek is between emptying the queue and putting its flush packet, or while the stream is being closed: the packets queued then are meant to be lost, and PacketsAreFedInOrder still holds.
- DecoderFeeds.DecoderCatchesUp: shows that the decoder can go on, not that a scheduler lets it; no fairness is modelled.
- FrameQueue: `frame_queue_last_pos` and the allocation handshake of `queue_picture`; waiting is a step that is not enabled.
- PlaybackClock: audio and video clock, and re-basing by seeks and by `sync_clock_to_slave`, which start a new run of the external clock.
- VideoSync: the derivation of a picture's duration from frame rates, the resolution of VSYNC_AUTO, forced key frames and the encoder itself.
- VideoSync: passthrough and drop mode hand on the rounded input timestamps, so no order is claimed for them.
- MuxTimestamps: side data, bit-stream filters, and the exit on non-monotonous dts under `-xerror`.
- InputLoop: time-base conversion, wrap and discontinuity correction; the last frame lengths are the same in every pass.
- InputLoop.ContributingStreamsInOrder: leaves out streams of length zero next to an overflow below zero; ContributingInOrderExactly says when they stay in order.
- ForcedKeyFrames: the comparison of "chapters" with an item shorter than it is taken as unequal, without a read past its end.
- ForcedKeyFrames.SortArray: the algorithm of the library's `qsort` is not modelled, only its result.
- ReportDump.ShellReadsArgument: an empty argument prints as nothing, which a shell would drop, and a byte that is not printable as `\x` and two digits, which a shell does not read back; the report's own reader recovers both.
- CommandLine: the dictionaries that codec and format options go to, kept as the list of accepted pairs; the later steps of `parse_optgroup`.
- WavReader.WavRoundTrip: asks all chunks but the last to be of even length, because the program does not skip pad bytes; OddChunkHidesAudio shows what happens otherwise.
- WavReader.OddChunkHidesAudio: is about audio below 16 MiB, where the misread length exceeds the file; AudioNeverFound is about any length.
- WavReader.AudioNeverFound: is about an odd chunk directly before the audio; elsewhere the misread header may by chance be followed by a readable one.
- GetOpt: the messages on stderr, and what a call after EOF does.
- WavReader: opening of the file itself and offsets wider than a 32-bit `long`; several RIFF chunks in one file are modelled but not part of the round trip.
- The programs under `master-progs`, the toolchain wrapper, the hardware-acceleration wrappers, filter and option configuration, SDL display and event code: glue over foreign interfaces that would only add easy members.
