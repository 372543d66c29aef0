# dtplayer core, modelled and proved in Dafny

The media player is a set of threads that hand bytes and packets to each other
through small bounded buffers and hand-written flags. This project models those
buffers, the reassembly of elementary streams from transport packets, and the
protocols between the threads, and proves what they are for.

`dafny verify dfyconfig.toml` checks everything.

## What is modelled

| files | part of the player |
|---|---|
| `Circular`, `CacheRing`, `StreamCache`, `CachedStream`, `CachedRuns` | the seekable stream cache: ring, object, and the system of fill thread, reader and real stream, with the runs that lead it astray |
| `Pes`, `PesPlay`, `PesStream`, `Timestamps` | PES reassembly in the TS demuxer, PTS and PCR fields |
| `DropHandshake` | the start-up handshake that decides whether audio or video catches up |
| `PacketPath`, `PortQueue` | demuxer to port queues, with the pause, seek and resume of the I/O thread |
| `ByteFifo`, `DtBuffer`, `PcmPipeline` | the PCM ring buffer and the way of PCM to the audio device |
| `DtQueue` | the doubly linked queue with positional operations |
| `HostClock`, `RenderLoop` | the presentation clock and the video render loop |
| `TsRegistry`, `TsStream`, `AdtsScan` | PIDs, tables and program maps; ADTS header scans |
| `Common` | what several of them share |

Code that works in place is a class with those fields or a method with that loop.
Where a property ranges over several operations, each method is proved to perform
a function on values, and the property is proved of the function. Protocols
between threads are state machines whose steps are single accesses to shared data;
a theorem about a run holds for every interleaving.

Three steps are coarser than one access. The fill thread's space test and the write
it guards (stream_cache.c:438-443) are one step: a backward seek between them
would change the length written. The head of the I/O loop (dtplayer_io.c:91-105)
is one step: a resume between lines 92 and 97 would keep the old packet. The write
to a port queue (dtport.c:72-113) is one step, although its gate reads the queue
lengths without a lock; `PacketPath.GateStaysOpen` shows that nothing another
thread does in between shuts the gate again.

## Where the code falls short of its intent

Each of these is proved as an exact condition, most with a concrete run into the
failure.

* `cache_write` (stream_cache.c:132-191) breaks the window in two situations: when
  the history fills the whole ring and starts where it ends, no eviction test
  fires; and the straight branch subtracts the old history size where the old
  history position is meant. `CacheRing.WriteIsMeantIff` says that the write does
  what the layout comment (lines 15-35) describes if and only if neither occurs,
  and `CacheRing.FullHistoryRun` and `CacheRing.MiscountedEvictionRun` are runs
  that end before the storage and in a wrong byte. `CacheRing.WriteMeant` is the
  write without the two mistakes: with it the window invariant holds in every run
  (`CachedStream.MeantRunKeepsWindow`) and transparency needs no condition on
  writes; for the C write transparency is proved under the condition.
* The seek distance goes through `abs`, that is through a 32-bit integer
  (stream_cache.c:557,561). The seek is exact if and only if it misses the cache or
  covers less than 2^31 bytes (`CachedStream.SeekKeepsSyncIff`); over 2^32 bytes it
  counts as no seek at all (`CachedRuns.LongSeekRun`).
* A seek that misses the cache sets the position even when the real seek failed
  (`CachedRuns.FailedSeekRun`), and a relative one is forwarded to a stream that
  stands further ahead (`CachedRuns.RelativeSeekRun`; stream_cache.c:569-584).
  `CachedStream.ReaderKeepsSyncIff` has both conditions.
* The frame that comes out of `handle_ts_pkt` depends on how the packet was cut
  into transport payloads if and only if one of two things holds. Either the
  stream type is 0x15 and at least five payload bytes follow a header, or the
  payload exceeds the announced room and that room is less than the 184 bytes of
  a transport payload (`Pes.FragmentationIndependenceIff`,
  `Pes.DifferingCutsRun`). On streams of other types a packet that is longer than
  announced but announces 184 bytes or more always comes out whole, and so does
  every packet whose length field is right (`Pes.RoundTrip`).
  `Pes.CutYieldsThePacketIff` says of each single cut whether it costs payload,
  `Pes.CutYieldsExactly` what comes out.
* Both sides of the drop handshake wait for the time limit if and only if the gap
  is audio's to close and rounds to no bytes (`DropHandshake.BothWaitIff`,
  `DropHandshake.BothWaitRun`); no format of eighty samples a second or more does
  that. The video side's "drop" discards no picture
  (`DropHandshake.VideoQueuesEveryPicture`).
* A seek hangs if the stream ends, and the I/O thread is gone, between the seek's
  look at the thread's status and its raising the pause flag (dtplayer.c:431-433,
  dtplayer_io.c:47-50). A thread still alive then acknowledges within four accesses
  (`PacketPath.AwaitIsLeftIff`, `PacketPath.HangingSeekRun`).
* `queue_pop_nth` reads through a null pointer exactly on the last of two or more
  items (`DtQueue.Queue.PopNth`).
* A new version of a table already received is appended as a second entry for its
  PID, once per repetition of the section, because the second search loop of
  `ts__table_decode` walks its own cursor to null (table.c:82-92).
  `TsRegistry.SectionKeepsUniqueIff` has the condition,
  `TsRegistry.NewVersionKeepsGrowing` the growth, `TsRegistry.SecondMapRun` a
  stream that does it.
* The AAC probe tries no start that an earlier chain covers, so it can miss a
  chain of more than five hundred frames (demuxer_aac.c:142-162): `AdtsScan.Probe`
  says which starts it tries, `AdtsScan.HiddenChainRun` is a stream it rejects.
* `host_update_vpts` compares ticks with a threshold in milliseconds
  (dthost.c:139-160), so the clock follows video to 100 ticks, not to 100 ms.

## Model

| member | source | states |
|---|---|---|
| CacheRing.ReadMovesWindow | dtstream/stream/stream_cache.c:91-120 | a read hands out the first bytes ahead, as many as there are or are wanted, and moves them into the history; the window invariant survives |
| CacheRing.WriteMeantMovesWindow | dtstream/stream/stream_cache.c:15-35 | the write as the layout comment means it appends to the read-ahead, drops history only from its old end, no more than it must and never below the reserve |
| CacheRing.WriteIsMeantIff | dtstream/stream/stream_cache.c:132-191 | the C write keeps the window, and equals the intended write, if and only if neither hazard is present |
| CacheRing.WriteMovesHeld | dtstream/stream/stream_cache.c:132-191 | for input that fits: what is held afterwards is what was held and the input, less the oldest history |
| CacheRing.SeekMovesWindow | dtstream/stream/stream_cache.c:201-303 | exactly which seeks the cache serves; a served seek moves the split between history and read-ahead by the step and changes no held byte, a refused one changes nothing |
| CacheRing.WindowIsModular | dtstream/stream/stream_cache.c:45-58 | `rp` and `wp` lie `pre_size` and `pre_size + level` behind `pre_rp` modulo the ring size |
| CacheRing.FullHistoryRun | dtstream/stream/stream_cache.c:150-168 | a run of reads and writes after which a short backward seek puts the read position in front of the storage |
| CacheRing.MiscountedEvictionRun | dtstream/stream/stream_cache.c:150-158 | a run after which an accepted backward seek reads byte 18 of the stream at offset 8 |
| StreamCache.Cache.constructor | dtstream/stream/stream_cache.c:60-89 | a new cache is empty and valid |
| StreamCache.Cache.Read | dtstream/stream/stream_cache.c:91-120 | the method in place performs the value operation, fills only the front of the output, and moves the read bytes from the read-ahead to the history |
| StreamCache.Cache.Write | dtstream/stream/stream_cache.c:132-191 | the method in place performs the value operation; validity survives exactly off the hazards, and then the read-ahead grows by the input and the history keeps its newest part, at least the reserve |
| StreamCache.Cache.Evict | dtstream/stream/stream_cache.c:140-186 | the history part of the write, branch by branch |
| StreamCache.Cache.Seek | dtstream/stream/stream_cache.c:201-303 | the method in place performs the value operation and keeps the held bytes |
| StreamCache.Cache.Reset | dtstream/stream/stream_cache.c:305-312 | both windows become empty, the storage is untouched |
| CachedStream.ProtocolKept | dtstream/stream/stream_cache.c:366-458 | the pause protocol's invariant on flag, status, thread positions and fetched bytes survives every single access of either thread |
| CachedStream.HaltedFillIsInert | dtstream/stream/stream_cache.c:366-383 | from the acknowledged pause to the resume the fill thread touches neither cache nor real stream and holds no bytes |
| CachedStream.WrittenBytesAreFresh | dtstream/stream/stream_cache.c:393-458 | in every run, bytes the fill thread writes were fetched after the last cache reset |
| CachedStream.FetchedSinceReset | dtstream/stream/stream_cache.c:393-458 | in every run, bytes in hand are exactly those of the last fetch, and no step since then emptied the cache |
| CachedStream.FillKeepsSyncIff | dtstream/stream/stream_cache.c:393-458 | a step of the fill thread keeps cache and source in step if and only if it is no hazardous write |
| CachedStream.Step32IsExactIff | dtstream/stream/stream_cache.c:554-563 | `abs` reports a 64-bit distance exactly if and only if it is less than 2^31 |
| CachedStream.SeekKeepsSyncIff | dtstream/stream/stream_cache.c:539-587 | a seek keeps the reader's position right if and only if it misses the cache or covers less than 2^31 bytes |
| CachedStream.ServedIff | dtstream/stream/stream_cache.c:201-303 | which seeks of less than 2^31 bytes the cache serves, and how they move the window |
| CachedStream.ReaderKeepsSyncIff | dtstream/stream/stream_cache.c:567-584 | the stages of a missed seek keep the position right if and only if the real seek succeeds from the right position, or fails without harm |
| CachedStream.ReadKeepsSync | dtstream/stream/stream_cache.c:514-537 | a read returns the source's bytes at the reader's position |
| CachedStream.StepKeepsSyncIff | dtstream/stream/stream_cache.c:393-587 | any step keeps cache, fill thread and reader in step with the source if and only if it is good |
| CachedStream.CacheRefinesFile | dtstream/stream/stream_file.c:48-83 | in every interleaving of good steps, every read and seek is one of the plain file: reads return the source at the position and advance it, seeks set it |
| CachedStream.MeantRunKeepsWindow | dtstream/stream/stream_cache.c:15-35 | with the write as meant, the window invariant holds in every run, good or not |
| CachedRuns.MissedSeek | dtstream/stream/stream_cache.c:567-587 | every missed seek can run to its end, with an empty cache and the real stream where the real seek left it |
| CachedRuns.NothingFetched | dtstream/stream/stream_cache.c:393-458 | a fetch that brings nothing leaves everything as it was |
| CachedRuns.FullCacheWaits | dtstream/stream/stream_cache.c:438-447 | bytes without room are kept and offered again |
| CachedRuns.EndOfStreamIdles | dtstream/stream/stream_cache.c:428-434 | at the end of the stream the thread says so, turns idle and stays idle |
| CachedRuns.LongSeekRun | dtstream/stream/stream_cache.c:554-565 | a run in which the cache serves a seek over 2^32 bytes by not moving |
| CachedRuns.FailedSeekRun | dtstream/stream/stream_cache.c:567-584 | a run in which, after a refused real seek to the end, the first byte of the source is read there |
| CachedRuns.RelativeSeekRun | dtstream/stream/stream_cache.c:567-584 | a run in which, after a missed relative seek, the byte behind the one at the position is read |
| Timestamps.ParsePtsInvertsField | dtdemux/demuxer/demuxer_ts.c:641-645 | every 33-bit time comes back from the five-byte field of section 2.4.3.6 of ISO/IEC 13818-1 |
| Timestamps.PcrPartsInvertField | dtdemux/demuxer/ts/stream.c:246-253 | base and extension come back from the six-byte field of section 2.4.3.4 |
| Timestamps.PcrTimeIsBaseIff | dtdemux/demuxer/ts/stream.c:229-256 | the time taken from the reference is its base for extensions below 300 and one more for those above |
| Pes.StartTurn | dtdemux/demuxer/demuxer_ts.c:697-744 | the first six bytes are collected across payloads and lead to the payload of a headerless packet or to the header, with the announced room |
| Pes.FlagsTurn | dtdemux/demuxer/demuxer_ts.c:746-763 | the flag and length bytes are collected across payloads and fix the header's size |
| Pes.FillTurn | dtdemux/demuxer/demuxer_ts.c:764-827 | the header is completed across payloads and yields the packet's own times |
| Pes.PayloadTurn | dtdemux/demuxer/demuxer_ts.c:828-858 | payload is appended, growing the buffer when the announced room is exceeded |
| Pes.AbsorbTracks | dtdemux/demuxer/demuxer_ts.c:691-863 | however the bytes up to an offset arrived, the state says the same about them |
| Pes.ReassemblyYieldsThePacket | dtdemux/demuxer/demuxer_ts.c:663-866 | under the condition, every cut into transport payloads hands out exactly the payload and times |
| Pes.CutYieldsThePacketIff | dtdemux/demuxer/demuxer_ts.c:663-866 | for every packet and every way of cutting it: the next start unit hands out the payload and times if and only if the piece with the first payload bytes exceeds no room and lets nothing be cut off; otherwise the frame is short or there is none |
| Pes.CutYieldsExactly | dtdemux/demuxer/demuxer_ts.c:663-866 | for every packet and every cut, exactly which bytes come out: the first payload to arrive is clipped to the announced room and loses five bytes where a metadata header is cut off |
| Pes.FragmentationIndependenceIff | dtdemux/demuxer/demuxer_ts.c:663-866 | all cuts into payloads of at most 184 bytes yield one and the same frame if and only if no metadata header can be cut off, and the payload fits the announced room or the room holds a transport payload; single bytes always yield the packet |
| Pes.DifferingCutsRun | dtdemux/demuxer/demuxer_ts.c:815-852 | two packets for which the cut behind the header loses payload that single bytes keep |
| Pes.RoundTrip | dtdemux/demuxer/demuxer_ts.c:663-866 | for every stream id but the seven without a header and padding, named by value: what a multiplexer put into a packet, with no time, one or both, comes back as payload and times, for all cuts into transport payloads |
| Pes.HeaderlessRoundTrip | dtdemux/demuxer/demuxer_ts.c:720-737 | for the seven ids of program_stream_map, private_stream_2, ECM, EMM, directory, DSMCC and type E: the payload starts at the seventh byte and has no times |
| Pes.NoPacketNoFrame | dtdemux/demuxer/demuxer_ts.c:706-743 | bytes without the start code, padding, or less than six bytes yield no frame, however they are cut |
| Pes.FramesHaveData | dtdemux/demuxer/demuxer_ts.c:682-689 | only a start unit hands out a frame, and no frame is empty |
| Pes.ExtendedIdInverts | dtdemux/demuxer/demuxer_ts.c:789-808 | the stream id extension is found behind every combination of optional fields, exactly if the header is long enough, the field has a length and it is an id |
| Pes.NoExtensionNoId | dtdemux/demuxer/demuxer_ts.c:789-808 | without an extension, or with a pack header or no second extension in it, there is no such id |
| PesPlay.StreamPlays | dtdemux/demuxer/demuxer_ts.c:663-866 | over a whole stream of packets, each cut without loss, the frames come out in order, each once |
| PesStream.Stream.Classify | dtdemux/demuxer/demuxer_ts.c:706-743 | start code, padding stream, length field and stream id decide phase and buffer |
| PesStream.Stream.Complete | dtdemux/demuxer/demuxer_ts.c:776-813 | times and extension are read out of the header bytes |
| PesStream.Stream.Reserve | dtdemux/demuxer/demuxer_ts.c:829-852 | room for more payload: the buffer grows and keeps its bytes, or a first piece is clipped |
| PesStream.Stream.Append | dtdemux/demuxer/demuxer_ts.c:828-858 | the method in place performs the payload turn |
| PesStream.Stream.AbsorbAll | dtdemux/demuxer/demuxer_ts.c:691-863 | the loop over one payload ends and performs the value machine's turns |
| PesStream.Stream.Handle | dtdemux/demuxer/demuxer_ts.c:663-866 | the method in place hands out the frame and leaves the state the value machine prescribes |
| DropHandshake.NeverBothDrop | dtaudio/dtaudio_decoder.c:287-340 | in every interleaving, never do both sides act as the dropper |
| DropHandshake.BothWaitIff | dtvideo/dtvideo_decoder.c:249-316 | with both decided and the phase open, both wait if and only if the gap is audio's and rounds to no bytes |
| DropHandshake.BothWaitRun | dtaudio/dtaudio_decoder.c:304-317 | a run, from the start, into both sides waiting |
| DropHandshake.WaitingLasts | dtvideo/dtvideo_decoder.c:250-265 | once both wait, only the time limit ends it |
| DropHandshake.RealFormatsNeverBothWait | dtaudio/dtaudio_decoder.c:304-317 | with eighty samples a second or more over all channels, both never wait |
| DropHandshake.AudioDropsItsGoal | dtaudio/dtaudio_decoder.c:304-338 | in numbers: audio drops nothing unless video starts 101 ms to 30 s after it; less than one chunk more than the PCM of the gap at two bytes a sample; and at the end of the phase no less but for rounding to 16 bytes, unless the time limit cut it short |
| DropHandshake.DropSizeIsLargest | dtaudio/dtaudio_decoder.c:315-316 | the drop size is the largest multiple of 16 bytes within the PCM of the gap |
| DropHandshake.AudioLosesNothing | dtaudio/dtaudio_decoder.c:331-354 | every PCM byte decoded was dropped, handed on or is in hand |
| DropHandshake.GapDecides | dtvideo/dtvideo_decoder.c:278-297 | by the gap alone, in numbers: which side drops, and which side ends the phase without a drop |
| DropHandshake.FlagIsRaisedWhenDue | dthost/dthost_api.c:162-170 | the flag is raised by the time limit, for a gap that needs no drop, after audio has dropped the gap, or at a picture of audio's first time; by nothing else |
| DropHandshake.ThreeAccessesDecide | dtaudio/dtaudio_decoder.c:292-322 | with the other's time published, a thread has decided after three accesses |
| DropHandshake.AudioFinishes | dtaudio/dtaudio_decoder.c:331-338 | a dropping audio thread drops each chunk whole and ends the phase with the one that reaches the goal |
| DropHandshake.VideoFinishes | dtvideo/dtvideo_decoder.c:308-320 | a dropping video thread ends the phase exactly at the first picture due at audio's start and queues every picture |
| DropHandshake.TimeLimitFinishes | dtvideo/dtvideo_decoder.c:260-265 | the time limit ends the phase |
| DropHandshake.OpenThreadsPassOn | dtvideo/dtvideo_decoder.c:318-320 | with the phase over, chunks and pictures are handed on |
| DropHandshake.VideoQueuesEveryPicture | dtvideo/dtvideo_decoder.c:308-320 | every decoded picture but the one in hand has been queued |
| DropHandshake.FlagEndsThePhase | dthost/dthost_api.c:162-179 | once the host's flag is set it stays set, and each thread leaves its loop within five accesses |
| DropHandshake.RunKeepsInv | dthost/dthost_api.c:119-179 | the invariant tying both threads' copies to the host record holds in every run |
| PacketPath.ProtocolKept | dtplayer/dtplayer_io.c:45-61 | the invariant of pause, resume and restart survives every step |
| PacketPath.SeekIsClean | dtplayer/dtplayer.c:431-448 | a packet that enters a port queue was read since the demuxer was last positioned, and after a seek the first is a video key frame |
| PacketPath.QueuesHoldNothingOld | dtplayer/dtplayer.c:431-448 | at any time every queued packet was read since the demuxer was last positioned |
| PacketPath.NoKeyNothingPasses | dtplayer/dtplayer_io.c:123-138 | after a seek nothing is accepted, queued or taken before a video key frame has been read |
| PacketPath.AwaitIsLeftIff | dtplayer/dtplayer_io.c:45-55 | a live I/O thread acknowledges the pause within four accesses even if the stream ends meanwhile; with a dead one the seek waits on |
| PacketPath.HangingSeekRun | dtplayer/dtplayer.c:431-433 | a run into a seek that waits for a dead I/O thread |
| PacketPath.HangingSeekStaysHung | dtplayer/dtplayer_io.c:47-50 | from then on it waits in every run |
| PacketPath.GateStaysOpen | dtport/dtport.c:72-92 | once the unlocked gate test lets a packet pass, no step of another thread shuts the gate |
| PacketPath.AcceptedFromKeyOn | dtplayer/dtplayer_io.c:123-138 | the packets accepted after a seek are those read from the first video key frame on, none left out |
| PacketPath.NothingLostOrDoubled | dtplayer/dtplayer_io.c:89-167 | per kind and in order, accepted packets are taken, flushed, queued, lost to the pause (one at most) or in hand; outside a seek none is flushed or lost; only subtitles without a track go elsewhere, into no queue |
| PacketPath.PacketPasses | dtplayer/dtplayer_io.c:106-166 | one turn of the loop: where a packet of each kind ends up, in terms of queue lengths and sizes alone |
| PacketPath.RefusedIsRetried | dtplayer/dtplayer_io.c:102-105 | a refused packet is offered again before anything is read |
| PacketPath.TakeTakesOldest | dtport/dtport.c:115-137 | a consumer gets the oldest packet of its kind and touches no other queue |
| PacketPath.SeekCompletes | dtplayer/dtplayer.c:431-455 | the seek of a live thread runs to its end: paused, queues emptied, reading anew for a key frame |
| PacketPath.SeekRevives | dtplayer/dtplayer.c:446-451 | the seek of a finished thread ends with a new one |
| PacketPath.EndOfStreamQuits | dtplayer/dtplayer_io.c:111-115 | at the end of the stream the thread leaves |
| PacketPath.QueuesStayBounded | dtport/dt_packet_queue.c:47-70 | audio and video queue never hold more than their limit plus the last packet |
| PacketPath.WriteKeepsKept | dtport/dtport.c:72-113 | an accepted packet lands at the end of the queue of its kind and nowhere else |
| PortQueue.PacketQueue.PutFrame | dtport/dt_packet_queue.c:19-45 | the linked list grows by the packet at its end; count and size follow |
| PortQueue.PacketQueue.Put | dtport/dt_packet_queue.c:47-70 | a packet is refused exactly when the queue has reached the limit of the packet's kind |
| PortQueue.PacketQueue.GetFrame | dtport/dt_packet_queue.c:72-97 | the first packet comes out and the rest stays, or nothing from an empty list |
| PortQueue.PacketQueue.Flush | dtport/dt_packet_queue.c:120-139 | the walk lets go of every packet once, in order, and leaves an empty list |
| ByteFifo.GetTakesFirst | dtutils/dt_buffer.c:83-117 | a get removes exactly the first bytes, as many as there are or are wanted |
| ByteFifo.PutAppends | dtutils/dt_buffer.c:119-152 | a put appends exactly the first bytes that fit |
| ByteFifo.RingIsAQueue | dtutils/dt_buffer.c:83-152 | over any sequence of calls the ring hands out what a bounded queue would |
| DtBuffer.Buffer.Get | dtutils/dt_buffer.c:83-117 | the method in place takes the first bytes into the front of the output |
| DtBuffer.Buffer.Put | dtutils/dt_buffer.c:119-152 | the method in place appends the bytes that fit |
| DtBuffer.Buffer.Reinit | dtutils/dt_buffer.c:27-34 | the buffer is empty afterwards |
| PcmPipeline.StepConserves | dtaudio/dtaudio_decoder.c:354-387 | each pass of either thread keeps device, staging, ring and rest together equal to all PCM kept |
| PcmPipeline.StepMoves | dtaudio/dtaudio_output.c:188-263 | what each pass moves: a refill all that fits, a fetch a unit or what there is, a device write what the device took |
| PcmPipeline.DeviceHearsThePcm | dtaudio/dtaudio_output.c:188-263 | in every interleaving the device has a prefix of the kept PCM, and the rest is on its way in order |
| PcmPipeline.Pipeline.Decode | dtaudio/dtaudio_decoder.c:331-354 | a chunk is kept whole or, in the drop phase, discarded whole |
| PcmPipeline.Pipeline.Refill | dtaudio/dtaudio_decoder.c:377-383 | as much of the chunk as fits is appended to the ring, the rest is left for the next pass |
| PcmPipeline.Pipeline.Fetch | dtaudio/dtaudio_output.c:200-207 | an empty staging buffer is filled with the first unit of the ring, or with all there is |
| PcmPipeline.Pipeline.Play | dtaudio/dtaudio_output.c:247-262 | after a partial device write the remaining bytes move to the front |
| DtQueue.Queue.PushHead | dtutils/dt_queue.c:145-169 | the item becomes the first; the doubly linked invariant holds |
| DtQueue.Queue.PushTail | dtutils/dt_queue.c:176-201 | the item becomes the last |
| DtQueue.Queue.GetNodeLinkNth | dtutils/dt_queue.c:420-442 | the walk from either end reaches the node at index n - 1 |
| DtQueue.Queue.PushNth | dtutils/dt_queue.c:208-240 | the item is inserted at the clamped position |
| DtQueue.Queue.PopHead | dtutils/dt_queue.c:247-272 | the first item comes out |
| DtQueue.Queue.PopTail | dtutils/dt_queue.c:300-326 | the last item comes out |
| DtQueue.Queue.PopNth | dtutils/dt_queue.c:333-365 | the item at the clamped position comes out; the call faults exactly on the last of two or more |
| DtQueue.Queue.PeekHead | dtutils/dt_queue.c:372-379 | the first item, or nothing |
| DtQueue.Queue.PeekTail | dtutils/dt_queue.c:386-393 | the last item, or nothing |
| DtQueue.Queue.PeekNth | dtutils/dt_queue.c:400-418 | the item at the clamped position, or nothing |
| DtQueue.Queue.Flush | dtutils/dt_queue.c:113-127 | every item is let go once, last first, and the queue is empty |
| DtQueue.PopMeansWhatPushPut | dtutils/dt_queue.c:208-365 | popping at n means the item pushed at n, for every n; it faults exactly after a push one past a nonempty queue's end |
| HostClock.LastDistanceDecides | dthost/dthost.c:97-108 | the sync mode is fixed, in ticks, by the last gap outside the millisecond at the limit: 5001 ms or more makes video the master, less than 5000 ms audio |
| HostClock.QuotientLeavesRest | dthost/dthost.c:42-51 | C division: the remainder has the sign of the dividend and is less than the divisor |
| HostClock.Host.UpdateApts | dthost/dthost.c:53-120 | in ticks: with sync on, output open and clock known, the clock ends within 9000 ticks of the audio time, moved only if it was not, unless the gap is 5001 ms or more; the gap is measured in whole ms, jumps of 90 minutes flagged, the rest left alone |
| HostClock.Host.UpdateVpts | dthost/dthost.c:122-171 | in ticks: with sync off or a gap of 5001 ms or more, the clock ends within 100 ticks of the video time, moved only if it was not; else it stays |
| HostClock.Host.UpdateSystime | dthost/dthost.c:193-207 | the clock runs on from its last setting by 9 ticks per 100 us, rounded towards it |
| HostClock.Host.ResetSystime | dthost/dthost.c:180-191 | the clock and its origin are set |
| RenderLoop.Output.Pass | dtvideo/dtvideo_output.c:251-356 | a pass takes the first picture exactly when it is due or a minute or more from the remembered one, and drops it exactly when only the former holds and its successor is due too |
| RenderLoop.SteadyStreamIsOnTime | dtvideo/dtvideo_output.c:283-335 | on a stream without such jumps nothing is shown early, and nothing is dropped unless its successor was due |
| RenderLoop.Output.Push | dtvideo/dtvideo_decoder.c:318-320 | pushed pictures keep their order; every picture meets one fate or stays queued |
| TsRegistry.SectionKeepsUniqueIff | dtdemux/demuxer/ts/table.c:57-107 | a section leaves one entry per PID if and only if it is no new version of a received table |
| TsRegistry.EntryOfSection | dtdemux/demuxer/ts/table.c:57-107 | which entry a section goes to and what it then holds; only a repeated version of a received table goes nowhere |
| TsRegistry.NewVersionKeepsGrowing | dtdemux/demuxer/ts/table.c:57-107 | each repetition of a new version adds an entry that is never found again |
| TsRegistry.SecondMapRun | dtdemux/demuxer/ts/table.c:57-107 | association, map and the map's next version leave two maps for one PID |
| TsRegistry.RegisteringKeepsUnique | dtdemux/demuxer/ts/pid.c:7-49 | registering and updating keep each PID in the list once |
| TsRegistry.ProgramKeepsUnique | dtdemux/demuxer/ts/pat.c:25-58 | an association entry leaves at most one map table per PID and each PID once |
| TsRegistry.StreamsKeepUnique | dtdemux/demuxer/ts/pmt.c:39-97 | whatever the section holds, PIDs stay unique and the map lists exactly the PIDs visited, each once |
| TsRegistry.LoopInvertsEncoding | dtdemux/demuxer/ts/pmt.c:39-77 | for a well-formed section the loop visits exactly the encoded streams and ends with no bytes left |
| TsRegistry.MapRoundTrip | dtdemux/demuxer/ts/pmt.c:18-79 | decoding an encoded map section gives back the clock's PID and the streams |
| TsRegistry.ProgramsInvertEncoding | dtdemux/demuxer/ts/pat.c:28-33 | the association's loop reads back exactly the programs that were encoded |
| TsRegistry.NewPidIsKnown | dtdemux/demuxer/ts/pid.c:20-49 | five PIDs are known for what they carry, all others are open |
| TsRegistry.LastDescriptionStands | dtdemux/demuxer/ts/pmt.c:53-71 | after a map, the record of each PID it lists has the type, subtype and owner of its last description |
| TsRegistry.UnnamedStay | dtdemux/demuxer/ts/pmt.c:53-71 | the record of a PID the map does not list stays as it was |
| TsRegistry.StreamIsDescribed | dtdemux/demuxer/ts/pmt.c:53-71 | one description: its record, exactly when a clock mark survives it, and no other record |
| TsRegistry.ClockIsMarked | dtdemux/demuxer/ts/pmt.c:20-32 | the clock's PID is marked and owned by the map, and its type reset only if open or another map's |
| TsRegistry.ListedInOrder | dtdemux/demuxer/ts/pmt.c:81-97 | streams on PIDs of their own are listed in the map's order |
| TsRegistry.ProgramIsRegistered | dtdemux/demuxer/ts/pat.c:34-53 | a program's PID carries sections, and its table is found or added with its number |
| TsStream.Stream.PidGet | dtdemux/demuxer/ts/pid.c:7-18 | the search finds the PID's record or reports none |
| TsStream.Stream.TableGet | dtdemux/demuxer/ts/table.c:109-122 | the search finds the first table with this id and PID |
| TsStream.Stream.TableDecode | dtdemux/demuxer/ts/table.c:57-96 | an expected table is replaced, a repeated version skipped, anything else appended |
| TsStream.Stream.AddPid | dtdemux/demuxer/ts/pmt.c:81-97 | a PID not yet listed is appended to the map's list |
| TsStream.Stream.PmtDecode | dtdemux/demuxer/ts/pmt.c:9-79 | the method in place registers the clock and the streams its section holds, whatever the section, and ends |
| TsStream.Stream.StreamLoop | dtdemux/demuxer/ts/pmt.c:39-77 | the loop registers the streams up to the end, a length that is too long, or the end of the data |
| TsStream.Stream.PatDecode | dtdemux/demuxer/ts/pat.c:20-58 | in place, whatever the section: every PID it names is registered for sections and every program has its map table |
| AdtsScan.LengthsAgree | dtdemux/demuxer/demuxer_aac.c:119-150 | the probe and the header parser compute the same frame length |
| AdtsScan.HeaderRoundTrip | dtdemux/demuxer/demuxer_aac.c:104-124 | every header a sender can write is recognised with its 13-bit length, and turned down by the parser exactly for the four rate indices without a rate |
| AdtsScan.SyncIff | dtdemux/demuxer/demuxer_aac.c:146-147 | exactly four second bytes make a sync word with layer zero |
| AdtsScan.ChainCountsFrames | dtdemux/demuxer/demuxer_aac.c:145-157 | the chain goes through every frame of a stream of frames |
| AdtsScan.ChainIsMaximal | dtdemux/demuxer/demuxer_aac.c:142-157 | a chain consists of headers, one where the last frame ends, and stops where there is none |
| AdtsScan.FollowChain | dtdemux/demuxer/demuxer_aac.c:145-157 | the inner loop counts the maximal chain |
| AdtsScan.Probe | dtdemux/demuxer/demuxer_aac.c:126-180 | the stream is taken for AAC if and only if three frames follow each other from the start, or more than five hundred from some start that no chain tried before covers or ends at |
| AdtsScan.NextTried | dtdemux/demuxer/demuxer_aac.c:142-157 | behind a chain that was tried comes the next start, and none before it |
| AdtsScan.HiddenChainRun | dtdemux/demuxer/demuxer_aac.c:142-173 | a stream with 501 frames in a row that the probe rejects, because the first lies under a false header |
| AdtsScan.EstimateScan | dtdemux/demuxer/demuxer_aac.c:182-238 | the scan ends although it steps back; it counts usable headers only and misses none up to where it stops |

## Left out

- `stream_cache_read` end-of-stream reporting, and whether data ever arrives: only what is read is modelled, not that a read eventually gets something.
- Steps in which a copy would leave the storage are not taken by `CachedStream`; they need a window that is already broken.
- Packets whose header announces times it is too short to carry: the C code then reads bytes left over from the header before; `Pes.State` keeps those bytes, the theorems leave such packets out.
- Sizes and positions of the cache are unbounded integers except for the 32-bit seek distance; the C fields fit because they never exceed the ring size.
- `fix_pre_size` is any size below the ring size; the C code computes a fifth of it in floating point.
- Closing the cache and opening it: the run starts with an empty cache and the fill thread about to be told to run.
- Every read of the real stream in `CachedStream` returns what the source holds; which part of it, and when it reports the end, is open.
- What follows a failed demuxer seek: the C code resumes I/O on a host it has already freed, so a run ends there.
- Two I/O threads at once: a thread that hit the end is taken to be gone before a seek starts the next one.
- `player_dec_reset` and the pause and resume of playback, which do not involve the packet path's own pause protocol in new ways.
- The mark `ts__pat_decode` sets on the PID its own section came on (pat.c:16-19).
- The chain of table versions: it is never built, because no caller passes a received table as the reference (see `TsRegistry.SectionAdded`).
- The stream type table (types.c) is a parameter of `TsStream.Stream`.
- Time stamps and clock values are mathematical integers; readings of the machine clock and the time limit of the video thread come in from outside.
- `UpdateApts`: the distance to an unknown video time is computed without 64-bit wrap-around.
- Pictures without a time stamp, which the render loop estimates in floating point, and the fixed-duration render mode.
- The latency test of the refill loop: it delays a pass and changes nothing.
- The decoders, devices and demuxers themselves (FFmpeg, FAAD, ALSA, SDL and the rest): they appear as steps that deliver or accept some number of bytes.
- `ts_read_frame`, `ts_open`, `ts_setup_info` and the packet header parsing around the PCR: I/O, logging and plain field extraction.
- `dt_event.c`, ini parsing, logging, plugin registration, the subtitle pipeline (a smaller copy of video), malloc failure and mutex mechanics.
