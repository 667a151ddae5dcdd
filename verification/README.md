# Verified model of the mirakc-arib stream engines

mirakc-arib cuts, filters and records ISDB transport streams. Its engines are small machines that are
fed one 188-byte packet at a time: each packet may carry a PCR and may complete tables, and the engine
answers by passing packets on, by writing to a file, or by sending messages. This project models those
machines in Dafny, in their own imperative form, and proves what holds over whole runs.

| file | models |
|---|---|
| `Pcr.dfy`, `Clock.dfy`, `ClockRuns.dfy` | 27 MHz clock references modulo 2^33 * 300 (section 2.4.3.5 of ISO/IEC 13818-1), their comparison, and the stream clock as a refinement of an unbounded tick counter |
| `PacketSource.dfy` | the buffered reader with resynchronisation, as a refinement of a scan of the whole stream |
| `ByteRing.dfy`, `Messages.dfy`, `Recording.dfy`, `RecordingRuns.dfy` | the ring file sink as a refinement of a plain byte ring, and the recorder's message protocol over it |
| `Bits.dfy`, `Sections.dfy`, `GroupLogs.dfy`, `Ledger.dfy`, `EitSchedule.dfy`, `EitProgress.dfy`, `EitCollector.dfy` | collection of EIT schedules (section 5.2.4 of ETSI EN 300 468, section 4.1.4 of ETSI TS 101 211): bitmaps and versions as a picture of the sections written, and what any run writes, completes and stops at |
| `ServiceFilter.dfy`, `StartSeeker.dfy`, `SeekerTables.dfy`, `ProgramFilter.dfy`, `ProgramRuns.dfy`, `ProgramTables.dfy`, `ProgramSamples.dfy` | the packet filters, each against what its tables say, and their whole runs |
| `Pipeline.dfy` | what program filter and recorder may assume behind the service filter |
| `Tables.dfy`, `Sink.dfy` | packets, tables, and what receives the output |

`dafny verify dfyconfig.toml` checks the whole project.

## How the model relates to the program

- An engine is a class with the program's fields. Ghost fields hold the history (the bytes accepted,
  the sections that arrived, the unwrapped clock), `Valid()` ties them to the real fields, and every
  method says what it does to them. A method at the end of each file drives the engine over arbitrary
  input and states the result for all runs.
- Where a table handler only updates fields, its effect is a step of a small value (`Known`, `Heard`),
  and feeding a packet is the fold of those steps. What an engine sends is a step of a larger one
  (`Tape`, `Run`), and the theorems on whole runs say what these mean in terms of the inputs.
- Those theorems do not mention the steps: they speak of the last PAT, PMT, CAT or EIT among the tables, of
  header fields, and of numbers. `KnownMeans`, `HeardMeans`, `ClockMeans`, `ShowsStream`, `CompleteByNumbers`,
  `CollectedByNumbers`, `DoneByNumbers` and `TransitionIsFirstChange` are of this kind, and `Filter` is stated so.
- The demultiplexer is an assumption: feeding a packet yields any sequence of typed tables. `Fed`,
  `PatFed` and `ValidInput` state what an engine may assume of them. For the start seeker it is that a table
  began no later than the packet being fed; which PIDs it watches is part of the model. For program filter
  and recorder it is that a PMT comes from the current PMT PID, and that an accepted PAT lists the service.
  That follows from what `ServiceFiltering.Filter` proves, by `Pipeline.FilteredIsFed`, since they are
  connected behind a service filter (`src/main.cc:1360-1392`); the start seeker is not (`src/main.cc:1400-1406`).
- The local wall clock, the sizes of reads and writes, failures of the file and the answers of a sink are
  arbitrary. A read error counts as the end of the data. How many packets a PMT takes is part of the PMT.
- Times are integers in milliseconds, integers are unbounded except the eight-bit gap counter and the
  unsigned 64-bit sum of the start seeker, and division and remainder truncate toward zero where an operand
  can be negative.
- Program assertions that can fail are modelled as the outcome `Abort`: the one of the start seeker that a PAT
  lists the service (`src/start_seeker.hh:200`), the one on the PID of PMT packets (`src/program_filter.hh:201`
  and `:247`), and, in start seeker and program filter, those on the range of PCRs in the comparison
  (`src/tsduck_helper.hh:88-89`) and in the conversion of times (`src/program_filter.hh:567`). The other ones are Dafny assertions or preconditions that callers discharge, except for ranges
  that the option parser checks (`src/main.cc:1249-1281`).

## What was found

- `ComparePcr` moves only its right operand to the next epoch. It agrees with the true order exactly when
  the left position is not in a later epoch (`CompareAgreesIff`, with a counterexample in
  `CompareMisorders`), although its comment promises all positions within half a period.
- The program filter inherits this: a program that ends, or starts, just before a wrap is not ended, or
  not started, by the PCRs after it (`EndsIff` and `StartsIff` say exactly when; `EndIsMissed` and
  `StartIsMissed` are runs).
- A PCR field can hold values above the maximum, and the recorder ignores them. The start seeker and the
  program filter compare them, and abort. The program filter also stores one while its clock has no time,
  and aborts on the next TOT; and it aborts on the first EIT with its event if its clock PCR option is out
  of range, which the option parser does not check (`src/main.cc:1198`). `Seek` and `AbortsIff` say exactly
  when; `BadPcrAborts`, `StoredPcrAborts` and `BadClockAborts` are runs, with the value that
  `test/service_recorder_test.cc:76-106` feeds to the recorder.
- The start seeker asserts that every PAT lists its service, and a comment says that the service filter
  ensures it, but it is connected straight to the packet source. So a service ID that is not in the PAT
  aborts the process, while seeking with nothing sent, and after a packet or duration limit in the middle of
  the stream; after a transition it cannot happen any more (`SeekStart`, `SafeAfterTransition`;
  `OtherServiceAborts` has both cases).
- The start seeker ignores what its sink answers when it sends the packets that it held back: a refusal drops
  the rest of them, and streaming goes on behind the gap (`SeekStart`).
- One wrap flag makes `Clock::Now` exact, and monotone, exactly while the position is below two periods
  (`ShownIsMonotoneIff`; `SecondWrapIsLost` has a run on which it goes back by a period).
- The gap counter is not reset by invalidation, so right after a resynchronisation a single large gap can
  invalidate the clock again (`CounterSurvivesResync` says exactly when).
- Versions of EIT sections are stored per index within a segment, survive a reset, and are not checked at the
  last index. So a new version of a section is written again if and only if it is not the last one of its
  segment (`NewVersionIff`, `NewVersionIsNewIff`; `NewVersionOfLastIsIgnored` has both cases), and sections
  of different segments overwrite each other's versions. While headers agree, each section is written once.
- The completion flag of the whole collection is sound but not complete: a time update can complete
  everything without the flag being recomputed (`FlagLags`; `FlagLagsIff` says exactly when).
- The segments that a time update makes unused are forgotten again when the first section of that group
  arrives, even if the service was known before, and whenever its last table index changes. So what counts
  is the time since the group last started over (`PastIsLargest`, `TimeBeforeGroup`).
- A black-listed stream that also carries the PCR is not dropped completely: its packets without a PCR,
  and those that arrive while the clock has no time, pass (`LeaksIff`, `BlackListLeaks`).
- The assertion on PMT packets in the program filter fails if and only if the PAT has changed the PMT PID
  and the new PMT has not arrived when a PMT packet is due (`AbortsIff`; `AbortIsReachable` has a run).
- The recorder does not record the packet that completes its preparation, and never enters its final state.

## Model

| member | source | states |
|---|---|---|
| `Pcr.CompareAgreesIff` | src/tsduck_helper.hh:87-97 | for any two unwrapped positions less than half a period apart, the sign of the wrapped comparison is the sign of their difference if and only if the left one is not in a later wrap epoch |
| `Pcr.CompareMisorders` | src/tsduck_helper.hh:87-97 | the input on which the comparison fails: one tick past the wrap against one tick before it compares as smaller |
| `Pcr.ComparesReachedIff` | src/tsduck_helper.hh:87-97 | for positions less than half a period apart the comparison says "at or past" if and only if the left one is, and has not wrapped since |
| `Pcr.CompareIsCongruent` | src/tsduck_helper.hh:87-97 | for all positions the result is congruent to the true difference modulo the period |
| `Pcr.TimeRoundTrip` | src/base.hh:105-120 | a time converted to a PCR and back is the same time, once the whole periods that were removed are put back, before and after the baseline alike |
| `Clocks.ClockBaseline.TimeToPcr` | src/base.hh:111-120 | terminates for every time, with the valid PCR congruent to the baseline PCR plus 27000 ticks per millisecond |
| `Clocks.Clock.constructor` | src/base.hh:164-172 | a default clock refines the fresh unwrapped clock |
| `Clocks.Clock.Now` | src/base.hh:186-199 | when ready, the reported time is exactly what a last PCR and a single wrap flag leave of an unbounded tick counter; it is the time of that counter if and only if the position since the last sync is below two periods |
| `Clocks.Clock.SetPid` | src/base.hh:201-204 | one step of the unwrapped clock; the refinement is kept |
| `Clocks.Clock.UpdateTime` | src/base.hh:206-212 | one step of the unwrapped clock: the span restarts at the last accepted PCR |
| `Clocks.Clock.UpdatePcr` | src/base.hh:214-244 | one step of the unwrapped clock: accept a gap below a second, count a larger one in eight bits, invalidate above the threshold; the wrap flag stays exact |
| `Clocks.DeltaIsGap` | src/base.hh:256-261 | the wrapped delta is the forward distance of the unwrapped positions around the period |
| `Clocks.AcceptedPosition` | src/base.hh:234-239 | an accepted PCR is the new position wrapped, and it is smaller than the last one exactly when the position has just passed a period |
| `Clocks.LostPeriods` | src/base.hh:186-194 | what one wrap flag can tell: elapsed milliseconds are right below two periods and wrong from there on |
| `Clocks.Replay` | src/base.hh:186-244 | every run of PID, PCR and time updates from a default clock: readiness is that of the unbounded clock, the reported time is determined, and it is right exactly while the position is below two periods |
| `Clocks.TracksSteadyStream` | src/base.hh:214-244 | on any stream of PCRs less than a second apart the accepted ticks are the true ticks, across any number of wraps |
| `Clocks.MonotoneBetweenSyncs` | src/base.hh:186-244 | between synchronisations the unbounded time, which is the reported one below two periods, never goes back, whatever PCRs arrive; losing readiness loses the time too |
| `Clocks.StepGoesBackIff` | src/base.hh:186-199 | a PCR puts the reported time back if and only if it takes the position to a second or later wrap |
| `Clocks.ShownIsMonotoneIff` | src/base.hh:186-244 | between synchronisations the reported time never goes back if and only if the position stays below two periods |
| `Clocks.SecondWrapIsLost` | src/base.hh:186-244 | a run from a default clock with nothing but regular PCRs after its time, on which the reported time is one period too early and goes back |
| `Clocks.BurstIsDebounced` | src/base.hh:216-231 | stray PCRs up to the threshold change nothing but the counter; the one beyond it invalidates the clock |
| `Clocks.CounterSurvivesResync` | src/base.hh:263-268 | after any events that make a clock ready again, in whatever order, a large gap leaves it ready if and only if the surviving eight-bit counter was below the threshold or wraps from 255 |
| `Clocks.ResyncsEitherWay` | src/base.hh:206-244 | a PCR and a time make an invalidated clock ready, to the same state whichever comes first, and not before the second |
| `ClockRuns.ShowsStream` | src/base.hh:186-244 | after any events, another PID and then any steady stream of PCRs with times in between: ready if and only if there is a PCR and a time, and shown is the last time plus the milliseconds from the last PCR before it, or else the first one, to the last PCR, while fewer than two wraps lie between |
| `ClockRuns.ShowsTime` | src/base.hh:206-212 | whatever came before, a clock that is ready right after a time shows that time |
| `ClockRuns.FourAreIgnored` | src/base.hh:216-231 | PCRs a second or more ahead are ignored four times and the fifth one makes the clock give up; 26999999 ticks ahead is accepted |
| `PacketSource.FirstAlignedIsLeast` | src/packet_source.hh:148-163 | the resynchronisation target has no aligned offset before it within the drop limit |
| `PacketSource.NextStartIff` | src/packet_source.hh:92-171 | a packet starts at a byte 0x47; otherwise at the first offset within 376 bytes that has this byte there and 188, 376 and 564 bytes further, if 940 bytes are left |
| `PacketSource.JoinedPackets` | src/packet_source.hh:92-110 | once at the first of some joined packets the scan of the stream delivers exactly those |
| `PacketSource.ScanRoundTrip` | src/packet_source.hh:92-171 | packets written one after the other, possibly behind garbage that the resynchronisation skips, come back as they were |
| `PacketSource.InputFile.Read` | src/file.hh:35-35 | a read delivers any positive amount of what is left, or nothing at the end |
| `PacketSource.FileSource.constructor` | src/packet_source.hh:86-88 | an empty window at the start of the file |
| `PacketSource.FileSource.Compact` | src/packet_source.hh:118-125 | moving the buffered bytes to the front changes neither the window nor the cursor |
| `PacketSource.FileSource.FillBuffer` | src/packet_source.hh:112-139 | succeeds if and only if the stream still holds that many bytes, and consumes none; indices stay in bounds and the free-space assertion holds |
| `PacketSource.FileSource.Resync` | src/packet_source.hh:141-171 | succeeds if and only if enough bytes are left and an aligned offset exists below the drop limit, and then stands at the first one |
| `PacketSource.FileSource.Take` | src/packet_source.hh:105-106 | the packet is the next 188 bytes of the stream |
| `PacketSource.FileSource.GetNextPacket` | src/packet_source.hh:92-110 | delivers the next packet of the scan of the whole stream, or nothing where the scan ends; never called after the end |
| `PacketSource.FeedPackets` | src/packet_source.hh:43-60 | for every way of splitting the reads, the sink gets the packets of the scan, all of them or up to and including the one it refuses |
| `ByteRing.RingPosStep` | src/ring_file_sink.hh:124-132 | the ring position after some more bytes, with the return to the front at the end of the ring |
| `ByteRing.CellBlock` | src/ring_file_sink.hh:143-150 | bytes that do not cross the end of the ring overwrite exactly one block of the plain ring |
| `ByteRing.ImageBlock` | src/ring_file_sink.hh:143-150 | writing the next bytes of the stream at the ring position turns the ring image of n bytes into that of n + k |
| `ByteRing.LastRingfulIsKept` | src/ring_file_sink.hh:69-185 | the last ringful of the stream is in the ring, byte for byte |
| `ByteRing.UntouchedCell` | src/ring_file_sink.hh:69-185 | an offset that the stream has not reached keeps what it had |
| `Recording.File.Write` | src/file.hh:36-36 | a write may be short, and fails only on an unreliable file; what it wrote replaces exactly those bytes at the cursor |
| `Recording.File.Sync` | src/file.hh:37-37 | a successful sync makes the current contents durable |
| `Recording.File.Trunc` | src/file.hh:38-38 | a successful truncation keeps the bytes below the size |
| `Recording.File.Seek` | src/file.hh:39-39 | a successful seek moves the cursor and nothing else |
| `Recording.RingFileSink.constructor` | src/ring_file_sink.hh:36-48 | starts as the plain ring at offset zero over the contents of the file |
| `Recording.RingFileSink.SetPosition` | src/ring_file_sink.hh:95-112 | starts over as the plain ring at any chunk boundary inside the ring |
| `Recording.RingFileSink.RingPosition` | src/ring_file_sink.hh:91-93 | the reported position is (start + bytes accepted) modulo the ring size |
| `Recording.RingFileSink.BufferFill` | src/ring_file_sink.hh:124-132 | the buffer holds the bytes accepted modulo 8192 |
| `Recording.RingFileSink.BlockFits` | src/ring_file_sink.hh:138-156 | a whole buffer always fits before the end of the chunk and of the ring |
| `Recording.RingFileSink.FullBuffer` | src/ring_file_sink.hh:138-160 | a full buffer ends on a block boundary, and at the end of the ring only when the chunk ends too |
| `Recording.RingFileSink.AtStart` | src/service_recorder.hh:282-286 | before the first byte the position is a chunk boundary |
| `Recording.RingFileSink.FillBuffer` | src/ring_file_sink.hh:124-132 | takes what fits and keeps file and buffer together equal to the plain ring; the bounds assertions hold |
| `Recording.RingFileSink.WriteBuffer` | src/ring_file_sink.hh:141-151 | for every pattern of short writes, the file becomes the ring image of everything accepted |
| `Recording.RingFileSink.WriteBlock` | src/ring_file_sink.hh:138-156 | after the write the buffer is empty, the file holds everything, and the chunk assertion holds |
| `Recording.RingFileSink.EndChunk` | src/ring_file_sink.hh:158-169 | at the chunk boundary the chunk is durable before the observer hears of it, and it hears exactly one event-update and one chunk, at the time of the clock; both assertions hold |
| `Recording.RingFileSink.Rewind` | src/ring_file_sink.hh:171-182 | at the end of the ring the file is cut there and the sink is at its front, otherwise nothing happens |
| `Recording.RingFileSink.CloseBlock` | src/ring_file_sink.hh:138-169 | the buffer is in the file, a complete chunk is durable and reported, and the position is that of the plain ring |
| `Recording.RingFileSink.Flush` | src/ring_file_sink.hh:138-185 | keeps the plain ring, and reports at most one chunk |
| `Recording.RingFileSink.Accept` | src/ring_file_sink.hh:73-80 | one turn of the packet loop: some bytes are accepted, in order, the plain ring is kept, and a packet reports at most one chunk |
| `Recording.RingFileSink.AcceptAll` | src/ring_file_sink.hh:73-84 | the pieces of a packet join the stream in order, up to a failing file operation, and report at most one chunk |
| `Recording.RingFileSink.HandlePacket` | src/ring_file_sink.hh:69-85 | the whole packet joins the stream, in order, or a part of it if a file operation fails; the plain ring is kept, and at most one chunk is reported |
| `Recording.WritePackets` | src/ring_file_sink.hh:69-185 | every run without a failing file operation, which is every run over a reliable file: ring position (p + n) mod size, buffer fill n mod 8192 with the last bytes of the stream, and each file offset the last byte mapped to it |
| `Recording.StorePackets` | src/ring_file_sink.hh:69-85 | packets join the stream in order until an operation fails |
| `Messages.Append` | src/service_recorder.hh:359-445 | a legal next message keeps a whole message sequence well formed |
| `Messages.ChunkPositions` | src/service_recorder.hh:385-405 | in every well-formed sequence the last chunk position is a multiple of the chunk size inside the ring |
| `Messages.ChunksAdvance` | src/service_recorder.hh:128-144 | of two consecutive chunk messages the second is one chunk further modulo the ring, comes right after an event-update with the same time and position, and when exactly its chunks are durable in the file |
| `Messages.EventsTile` | src/service_recorder.hh:308-357 | between two consecutive event-starts there is exactly one event-end, for the first event, with the time and position of the second start |
| `Messages.FirstEventStartsAtFirstChunk` | src/service_recorder.hh:276-302 | an event-start with no event-end before it is the first one, and has the time and position of the first chunk message |
| `Messages.StillOpen` | src/service_recorder.hh:308-350 | without an event-end a started event stays open |
| `Messages.NothingHappens` | src/service_recorder.hh:308-357 | without event messages the open event and the boundary stay |
| `Recording.ServiceRecorder.constructor` | src/service_recorder.hh:57-73 | becomes the observer of a sink that has recorded nothing |
| `Recording.ServiceRecorder.Start` | src/service_recorder.hh:75-87 | the recording starts over the file as it is, at the start position, with a start message |
| `Recording.ServiceRecorder.Send` | src/service_recorder.hh:359-445 | a legal message keeps the trace well formed |
| `Recording.ServiceRecorder.OnEndOfChunk` | src/service_recorder.hh:128-144 | sends an event-update and then a chunk message, both with the latest time of the clock and the position; the event is never missing |
| `Recording.ServiceRecorder.HandleTable` | src/service_recorder.hh:153-274 | what each kind of table changes: PMT PID, clock PID, clock time, or the latest event |
| `Recording.ServiceRecorder.FeedTables` | src/service_recorder.hh:113-113 | tables are heard in order |
| `Recording.ServiceRecorder.HandlePcr` | src/service_recorder.hh:103-111 | a valid PCR on the PID of the clock is one step of the clock |
| `Recording.ServiceRecorder.OnPreparing` | src/service_recorder.hh:276-306 | recording begins, with the chunk message and the event that is running, if and only if the clock is ready and an event is known; both position assertions hold |
| `Recording.RingFileSink.ChunksDone` | src/ring_file_sink.hh:155-169 | as many chunks are closed as whole chunks were accepted |
| `Recording.ServiceRecorder.ChunksReported` | src/service_recorder.hh:128-144 | one chunk message for the start of the recording and one for every whole chunk of the stream |
| `Recording.ServiceRecorder.Begin` | src/service_recorder.hh:284-302 | the first chunk message, and an event-start unless the event is already over |
| `Recording.ServiceRecorder.EndEvent` | src/service_recorder.hh:329-330 | ends the open event at the ring position and moves the boundary there |
| `Recording.ServiceRecorder.StartEvent` | src/service_recorder.hh:407-412 | starts an event at the boundary |
| `Recording.ServiceRecorder.FollowEvents` | src/service_recorder.hh:308-349 | exactly the event messages that are due: an end and a start on a new event ID, an end at the end time of the event, otherwise none; a running event is within its time |
| `Recording.ServiceRecorder.FollowClock` | src/service_recorder.hh:308-349 | exactly the event messages due at the time of the clock and the position of the ring |
| `Recording.ServiceRecorder.OnRecording` | src/service_recorder.hh:308-351 | exactly the messages due come first, at the time of the clock and the position before the packet; then the packet is recorded, and a chunk that it finishes is reported |
| `Recording.ServiceRecorder.HandlePacket` | src/service_recorder.hh:100-126 | PCR first, tables second, then the state decides; preparation ends exactly when clock and event are known, and every message that is sent is determined |
| `Recording.ServiceRecorder.HandleInput` | src/service_recorder.hh:100-126 | one packet is one step of the tape, which holds all messages, what was heard and how much was recorded; a failing file leaves the event messages and maybe the report of that step |
| `Recording.ServiceRecorder.FollowInputs` | src/service_recorder.hh:100-126 | a run follows the tape to its end, or to the input on which the file fails |
| `Recording.ServiceRecorder.FollowNext` | src/service_recorder.hh:100-126 | the next input keeps the run on the tape, or stops it on the failing file |
| `Recording.EndRecording` | src/service_recorder.hh:89-93 | the stop message ends a recording without a failure, whose messages, stream and file are then determined |
| `Recording.BeginIsFirst` | src/service_recorder.hh:276-306 | recording begins after the first input at which clock and event are known, and only then |
| `Recording.TapeMeans` | src/service_recorder.hh:100-126 | what the tape has heard is the fold of all inputs, and it has recorded exactly the packets after the one that made clock and event known |
| `Recording.ServiceRecorder.End` | src/service_recorder.hh:89-93 | the stop message says whether the file is broken |
| `Recording.Record` | src/service_recorder.hh:75-126 | every run of recorder over ring. Without a failing file operation: all messages are those of the tape for the inputs, the stream is exactly the packets after the one that made clock and event known, the file is the ring image of it up to the last full buffer, with one chunk message for the start and one per whole chunk. With one: the run stops at that input with a part of its messages and bytes, and the stop message says so. In both cases the sequence is well formed and stamped with prefixes of the stream |
| `RecordingRuns.HeardMeans` | src/service_recorder.hh:153-274 | the event that is heard is the first one in the last valid EIT of the service that has any, and the clock is on the PCR PID of its last valid PMT |
| `RecordingRuns.ClockMeans` | src/service_recorder.hh:100-113 | the clock of the recorder is a default clock after exactly these events, in order: for each packet its PCR if it is on the PCR PID and below 2576980377600, then its PMTs with another PCR PID and its times |
| `RecordingRuns.BegunIff` | src/service_recorder.hh:276-281 | a recording has begun if and only if after some input the clock was ready and there was an event |
| `RecordingRuns.BeginMeans` | src/service_recorder.hh:282-302 | a recording begins with an event-start if and only if the event has no duration or now is before start + 1000 * duration |
| `RecordingRuns.FollowMeans` | src/service_recorder.hh:308-349 | which event messages are due, with start + 1000 * duration written out, and that an event runs exactly if it has been started and not ended |
| `RecordingRuns.SendsOrBegins` | src/service_recorder.hh:276-351 | for every input of every run: before the recording nothing, at its beginning the chunk and maybe the event, afterwards exactly the event messages that the latest event before and after the input, the time and the open event make due; updates are about the latest event |
| `RecordingRuns.RecordedEnds` | src/service_recorder.hh:325-343 | in the messages of every recording each event-end either comes at the time of an input with another event ID, or at start + 1000 * duration, not before it, of an event with a duration |
| `RecordingRuns.BrokenEnds` | src/service_recorder.hh:325-343 | the same for a recording that a failing file has broken off |
| `RecordingRuns.SampleBegins` | src/service_recorder.hh:290-302 | a recording that begins at ten seconds in an event from zero: its first messages for every duration |
| `Bits.FullIff` | src/eit_collector.hh:198-205 | a bitmap equals 0xFF if and only if every bit is set |
| `Bits.SetBit` | src/eit_collector.hh:83-87 | setting a bit sets that bit and no other |
| `Sections.TripleIsInjective` | src/tsduck_helper.hh:136-140 | the packed triple identifies network, stream and service |
| `Sections.CompleteIff` | src/eit_collector.hh:74-107 | with consistent headers, complete means that something arrived and every section from the current segment to the last one arrived: order and repetition do not matter |
| `Sections.CompleteByNumbers` | src/eit_collector.hh:74-107 | in terms of section_number, last_section_number and segment_last_section_number: a table is complete if and only if something arrived and every number that exists from the current segment on did |
| `EitProgress.TableProgress.constructor` | src/eit_collector.hh:51-55 | nothing arrived, nothing unused, no version stored, not complete |
| `EitProgress.TableProgress.Reset` | src/eit_collector.hh:59-65 | forgets what arrived and what was unused; every stored version survives |
| `EitProgress.TableProgress.Unuse` | src/eit_collector.hh:67-72 | a disused table is complete |
| `EitProgress.TableProgress.MarkSegments` | src/eit_collector.hh:79-81 | whole segments become unused, and no other bit changes |
| `EitProgress.TableProgress.MarkSections` | src/eit_collector.hh:83-85 | the sections after the last one of a segment become unused, and no other bit changes |
| `EitProgress.TableProgress.MarkCollected` | src/eit_collector.hh:87-87 | one section becomes collected, and no other bit changes |
| `EitProgress.TableProgress.StoreVersion` | src/eit_collector.hh:89-95 | the version is stored at each index of the segment from this section to the last, and nowhere else |
| `EitProgress.TableProgress.CheckCompleted` | src/eit_collector.hh:198-205 | true if and only if every bit is collected or unused |
| `EitProgress.TableProgress.Update` | src/eit_collector.hh:74-98 | the bitmaps stay the exact picture of the set of sections that arrived, the flag equals its recomputation, and the version is stored at exactly the indexes from this section to the last |
| `EitProgress.TableProgress.UpdateUnused` | src/eit_collector.hh:100-107 | segments before the hour are past; the flag equals its recomputation and can only become true |
| `EitProgress.TableProgress.Refresh` | src/eit_collector.hh:97-97 | the recomputed flag says whether the set of arrived sections is complete |
| `EitProgress.TableProgress.CheckCollected` | src/eit_collector.hh:109-120 | true if and only if the section arrived and the stored versions up to, but not including, the last index agree |
| `EitProgress.TableProgress.CountSections` | src/eit_collector.hh:149-160 | the number of different section numbers that arrived |
| `EitProgress.TableGroupProgress.constructor` | src/eit_collector.hh:229-232 | eight separate empty tables |
| `EitProgress.TableGroupProgress.CompletedIff` | src/eit_collector.hh:266-271 | a group is complete before anything arrives, and then if and only if each table up to the last one is complete |
| `EitProgress.TableGroupProgress.DoneIff` | src/eit_collector.hh:266-271 | the same in terms of every section that the group was ever updated with |
| `EitProgress.TableGroupProgress.ResetTables` | src/eit_collector.hh:236-238 | every table is reset |
| `EitProgress.TableGroupProgress.DisuseTables` | src/eit_collector.hh:239-241 | exactly the tables after the last one are disused |
| `EitProgress.TableGroupProgress.Restart` | src/eit_collector.hh:235-243 | a changed last table index forgets everything and disuses the tables after it |
| `EitProgress.TableGroupProgress.MakeConsistent` | src/eit_collector.hh:235-243 | the group starts over if and only if the section is the first one or says another last table index |
| `EitProgress.TableGroupProgress.Refresh` | src/eit_collector.hh:248-248 | the flag equals its recomputation |
| `EitProgress.TableGroupProgress.CheckCompleted` | src/eit_collector.hh:308-315 | true if and only if every table is complete |
| `EitProgress.TableGroupProgress.Join` | src/eit_collector.hh:245-245 | the section joins its own table and no other |
| `EitProgress.TableGroupProgress.Update` | src/eit_collector.hh:234-249 | the section joins the log; what the tables hold is what the log says since the last table index last changed, and the stored versions are those of the last sections that reach each index |
| `EitProgress.TableGroupProgress.UpdateFirst` | src/eit_collector.hh:252-252 | time passes for the first table only, and completes but never undoes |
| `EitProgress.TableGroupProgress.UpdateUnused` | src/eit_collector.hh:251-254 | time passing never undoes completion, and the flag equals its recomputation |
| `EitProgress.TableGroupProgress.CheckCollected` | src/eit_collector.hh:256-264 | for every section and every history: true if and only if the last table index agrees, the section is held, and the version last stored at each index from it to before the last one is its own |
| `GroupLogs.CurrentIff` | src/eit_collector.hh:235-245 | a group holds a section if and only if no section since has said another last table index |
| `GroupLogs.NewVersionIff` | src/eit_collector.hh:109-120 | a section that is held, in a version that its table has not been given, counts as collected if and only if it is the last one of its segment, or past it |
| `GroupLogs.LastVersionIs` | src/eit_collector.hh:89-95 | the version at an index is that of the last section with section_number mod 8 <= index <= segment_last_section_number mod 8 |
| `GroupLogs.CollectedByNumbers` | src/eit_collector.hh:109-120 | when a section counts as collected, for every history, in terms of the header fields: it is held since the last table ID last changed, and its version is the last one stored at each index from its own to that of the last section, exclusive |
| `EitProgress.TableGroupProgress.CountSections` | src/eit_collector.hh:284-290 | the sum over the tables |
| `Ledger.CountNumbers` | src/eit_collector.hh:149-160 | within one table, different keys are different section numbers |
| `Ledger.FiledTogether` | src/tsduck_helper.hh:136-140 | two sections are filed under the same packed triple if and only if they belong to the same network, stream and service |
| `Ledger.KeyIff` | src/tsduck_helper.hh:136-168 | what tells schedule sections apart, in header fields: triple, table ID modulo 16 and section number |
| `Ledger.GroupIff` | src/tsduck_helper.hh:166-168 | two sections are in one group if and only if they are of one service and both in tables 0x50-0x57 or 0x60-0x67, or both not |
| `Ledger.CollectedIff` | src/eit_collector.hh:109-120 | on headers that agree on versions, last table indexes and last sections, a section counts as collected if and only if its key (network, stream, service, basic or extra, table, number) was written |
| `EitCollection.ServiceProgress.Update` | src/eit_collector.hh:330-336 | the section joins its group, and the other group is untouched |
| `EitCollection.ServiceProgress.UpdateUnused` | src/eit_collector.hh:338-341 | time passes for both groups and never undoes completion |
| `EitCollection.ServiceProgress.CheckCollected` | src/eit_collector.hh:343-348 | the exact answer of the group that the section belongs to |
| `EitCollection.ServiceProgress.CountSections` | src/eit_collector.hh:364-366 | the sum over both groups |
| `EitCollection.CollectProgress.Update` | src/eit_collector.hh:380-383 | the section joins its group and no other service changes; the flag is then exact |
| `EitCollection.CollectProgress.Store` | src/eit_collector.hh:381-381 | looking up a service creates it if it is missing, and the section joins it |
| `EitCollection.CollectProgress.Insert` | src/eit_collector.hh:381-381 | a new service is empty and shares nothing with the others |
| `EitCollection.CollectProgress.UpdateService` | src/eit_collector.hh:381-381 | only the group of the section changes |
| `EitCollection.CollectProgress.UpdateUnused` | src/eit_collector.hh:385-389 | time passes for every service; the flag is not recomputed but stays sound |
| `EitCollection.CollectProgress.PassTime` | src/eit_collector.hh:386-388 | time passes for one service, and the flag stays sound |
| `EitCollection.CollectProgress.CheckCompleted` | src/eit_collector.hh:428-435 | true if and only if every service is complete |
| `EitCollection.CollectProgress.AllCompletedIff` | src/eit_collector.hh:428-435 | all services are complete if and only if every group that something was written from is complete, by what was written since its last table index last changed and the segments that are past |
| `EitCollection.CollectProgress.CheckCollected` | src/eit_collector.hh:391-396 | the exact answer of the group that the section is filed under; false for an unknown service |
| `EitCollection.CollectProgress.CountSections` | src/eit_collector.hh:419-425 | equals the number of different keys that the groups hold of what was written |
| `EitCollection.CollectProgress.CountService` | src/eit_collector.hh:421-423 | equals the number of different keys that the groups of that service hold |
| `EitCollection.GroupTotal` | src/eit_collector.hh:284-290 | the count of a group is the number of different keys that its tables hold |
| `EitCollection.EitCollector.constructor` | src/eit_collector.hh:448-459 | nothing written, nothing held |
| `EitCollection.EitCollector.HandleSection` | src/eit_collector.hh:490-538 | a section is written if and only if it is wanted and does not count as collected by what was written before, whatever its version; exactly then the flag is recomputed, the waiting starts again, and a changed last table index starts the group over |
| `EitCollection.EitCollector.Write` | src/eit_collector.hh:578-588 | the section is written and joins the progress, and the flag is then exact |
| `EitCollection.EitCollector.HandleTime` | src/eit_collector.hh:563-572 | every service moves on to the hour; what is held, what is written and the flag stay; the first time starts the waiting |
| `EitCollection.EitCollector.HandleInput` | src/eit_collector.hh:476-572 | after each input what is written, past, flagged and timed is what the inputs up to there say |
| `EitCollection.EitCollector.HandleAndCheck` | src/eit_collector.hh:476-487 | the run stops if and only if a packet has ended with the flag set or the time limit reached, and the collector is not streaming |
| `EitCollection.EitCollector.HandleInputs` | src/eit_collector.hh:476-487 | the run ends after the first packet that leaves the flag set or the time limit reached, if it is not a streaming one, and what is written, past and flagged is determined by the inputs up to there |
| `EitCollection.EitCollector.Count` | src/eit_collector.hh:467-474 | the reported count is the number of different keys still held |
| `EitCollection.EitCollector.CompleteAt` | src/eit_collector.hh:428-435 | after any part of any run, all services are complete if and only if every group written from is, with the segments past that its time updates say |
| `Schedules.WrittenDraws` | src/eit_collector.hh:526-537 | on a coherent run what is written are wanted sections, one for each wanted key, and no key twice |
| `Schedules.CoherentCount` | src/eit_collector.hh:419-425 | on a coherent run nothing that was written is forgotten, so the count is the number of sections written |
| `Schedules.NewVersionIsNewIff` | src/eit_collector.hh:109-120 | in every run, a wanted section that its group holds, in a version new to its table, is written again if and only if its index is below the last one of its segment |
| `Schedules.NextVersionIsWritten` | src/eit_collector.hh:109-120 | for every section, sent in version 0 and then in version 1 to an empty collector, exactly what is written |
| `Schedules.NewVersionOfLastIsIgnored` | src/eit_collector.hh:109-120 | two pairs of sections: version 1 of the first section of a segment is written, version 1 of its last one is not |
| `Schedules.VersionsMix` | src/eit_collector.hh:89-120 | a run on which a section is written again because one of another segment has stored its version at a shared index |
| `Schedules.PastIsLargest` | src/eit_collector.hh:100-107 | in every run, the segments that are past for a group are the largest hour / 3 of the times since it last started over |
| `Schedules.HourSegment` | src/eit_collector.hh:101-101 | hour / 3 is the three-hour segment of the day |
| `Schedules.WantedIff` | src/eit_collector.hh:495-525 | which table IDs and services are asked for |
| `Schedules.TimedOutIff` | src/eit_collector.hh:563-603 | the time limit is reached if and only if the last time is that long after the last one before the last written section, or after the first time if nothing was written since |
| `Schedules.DoneByNumbers` | src/eit_collector.hh:266-315 | in terms of table IDs and section numbers: a group is done if and only if of every table up to last_table_id something was written and everything that exists, of the first table from the current segment on |
| `Schedules.NothingPastUnseen` | src/eit_collector.hh:234-254 | nothing is past for a group that nothing was written from |
| `Schedules.TimeBeforeGroup` | src/eit_collector.hh:234-254 | time that passed before the first section of a group does not count for it, even if the other group of the service was there |
| `EitCollection.CollectAll` | src/eit_collector.hh:476-603 | every run, in any order, with repetitions, mixed versions, changed headers, time updates and any number of sections per packet: what is written is decided by the last versions stored and the last table indexes; the count is that of the keys held; the flag is set if and only if every group written from was complete when the last section was written; a collector that is not streaming stops after the first packet that leaves it set or the time limit reached; on a coherent schedule each wanted key is written exactly once and counted |
| `EitCollection.TrackTable` | src/eit_collector.hh:74-107 | any run of sections and time updates on one table with consistent headers ends complete if and only if something arrived and no section number that exists, in a three-hour segment of the day that no time has passed, is missing |
| `Schedules.LateTable` | src/eit_collector.hh:100-107 | a table that is complete once the first segment is past, and not before |
| `EitCollection.FlagLags` | src/eit_collector.hh:385-389 | a reachable progress where every service is complete and the flag is not set |
| `Schedules.FlagLagsIff` | src/eit_collector.hh:385-389 | for every run, a set flag means that everything is complete; when everything is complete the flag is not set if and only if nothing was written, or time has overtaken something that was missing when the last section was written |
| `EitCollection.CollectProgress.Refresh` | src/eit_collector.hh:382-382 | the recomputed flag is exact |
| `Sinks.Sink.HandlePacket` | src/packet_sink.hh:42-42 | a sink gets the packet whether or not it goes on; an accepting one always goes on |
| `ServiceFiltering.ServiceFilter.constructor` | src/service_filter.hh:52-65 | nothing is known and the fixed tables are watched |
| `ServiceFiltering.ServiceFilter.HandlePat` | src/service_filter.hh:191-265 | which PAT changes what; afterwards the demultiplexer watches exactly the fixed tables and the PMT PID, and the PSI filter is exactly the fixed PIDs and the PMT PID |
| `ServiceFiltering.ServiceFilter.HandleCat` | src/service_filter.hh:267-291 | the EMM filter is the set of safe CA PIDs of the last valid CAT |
| `ServiceFiltering.ServiceFilter.HandlePmt` | src/service_filter.hh:293-356 | the content filter is the set of safe PCR, CA and stream PIDs of the last valid PMT of the service |
| `ServiceFiltering.ServiceFilter.HandleTables` | src/service_filter.hh:172-189 | tables are heard in order, and the exactness of demultiplexer and filters is kept |
| `ServiceFiltering.ServiceFilter.HandlePacket` | src/service_filter.hh:94-122 | what the tables up to this packet say decides: nothing, the packet as it came, or the PAT of the one service; the assertions hold |
| `ServiceFiltering.KnownMeans` | src/service_filter.hh:191-375 | in every run the filters hold exactly the PCR, CA and stream PIDs of the last valid PMT of the service, the CA PIDs of the last valid CAT and the PMT PID of the last usable PAT, each without null and fixed PIDs; it is done exactly if a PAT lacked the service or a time reached the limit |
| `ServiceFiltering.OutputMeans` | src/service_filter.hh:94-122 | for every packet of every run, what is sent for it by the tables up to it |
| `ServiceFiltering.Filter` | src/service_filter.hh:94-170 | every run, without mention of the state of the filter: each packet is forwarded as it came, replaced by the PAT of the one service, or dropped, as the last PAT, CAT and PMT among the tables up to it say, until a table ends the run or the sink refuses; no null PID, no PAT but that of the service with a usable PMT PID, which is what the engines behind it assert |
| `StartSeeking.StartSeeker.constructor` | src/start_seeker.hh:42-46 | nothing heard, nothing held, and only the PAT watched |
| `StartSeeking.StartSeeker.HandlePat` | src/start_seeker.hh:181-217 | an acceptable PAT sets the PMT PID and moves the demultiplexer to it; it aborts if and only if it does not list the service |
| `StartSeeking.StartSeeker.HandlePmt` | src/start_seeker.hh:219-269 | a PMT of the service sets PCR PID and streams, and marks a transition if and only if known video or known audio streams differ; a transition stops watching PAT and PMT |
| `StartSeeking.StartSeeker.HandleTables` | src/start_seeker.hh:168-179 | tables on watched PIDs are heard in order, up to one that aborts, and indices stay within what was fed |
| `StartSeeking.SafeAfterTransition` | src/start_seeker.hh:261-268 | once a transition is heard, no later PAT can abort the process |
| `StartSeeking.EndPcrIsSetOnce` | src/start_seeker.hh:117-134 | the end PCR is (first PCR + 27000 * duration) modulo 2^64 modulo 2576980377600, and unset before |
| `SeekerTables.TransitionIsFirstChange` | src/start_seeker.hh:181-269 | for every run on a regular stream: a transition is heard if and only if a PMT has other video or other audio streams than the PMT before it, which had some; it is where the first such PMT begins, with the last PAT before it, and nothing aborts |
| `SeekerTables.CutsAtOtherVideo` | src/start_seeker.hh:248-268 | a run on which added audio is no transition and other video is one |
| `StartSeeking.StartSeeker.SendPackets` | src/start_seeker.hh:152-162 | the sink gets what is held from the index on, in order, up to and including the first packet that it refuses; nothing stays held |
| `StartSeeking.StartSeeker.StartAll` | src/start_seeker.hh:105-109 | streaming begins with everything held, as far as the sink takes it |
| `StartSeeking.StartSeeker.StartCut` | src/start_seeker.hh:97-102 | streaming begins with the PAT packet, whose refusal is ignored, and everything from the transition on, as far as the sink takes it |
| `StartSeeking.StartSeeker.DoStreaming` | src/start_seeker.hh:164-166 | the packet is passed on, and only here a refusal ends the run |
| `StartSeeking.StartSeeker.Seek` | src/start_seeker.hh:92-146 | streaming starts if and only if there is a transition, or the packet limit or the end PCR is reached; until then the end PCR is set once, by the first PCR; aborts if and only if nothing of this happens and a PCR out of range is compared with the end PCR |
| `StartSeeking.LaterPcr` | src/start_seeker.hh:131-131 | the end PCR is always a valid one, and that of the PCR plus the duration unless the sum leaves the unsigned 64-bit numbers |
| `StartSeeking.StartSeeker.HandlePacket` | src/start_seeker.hh:70-84 | seeking ends exactly at a transition, the packet limit or the end PCR; aborts if and only if a PAT does not list the service, or a PCR out of range is compared; never more than the packet limit is held; what any sink has got |
| `StartSeeking.StartSeeker.End` | src/start_seeker.hh:59-63 | whatever is held is sent, up to a refusal |
| `StartSeeking.SeekStart` | src/start_seeker.hh:59-217 | every run into any sink: seeking ends with the first input that hears a transition, reaches the packet limit or reaches the end PCR, and with no other; an accepting sink gets the input, or, if and only if that input hears a transition, the PAT packet and the input from the transition on; a refusal of a held packet drops those held behind it and does not end the run, one of a streamed packet ends it; the process aborts exactly at the first PAT that is heard and does not list the service, or, while seeking, the first PCR out of range that is compared, with nothing sent while seeking and everything before that input otherwise |
| `StartSeeking.BadPcrAborts` | src/start_seeker.hh:138-138 | a run that aborts: PAT, PMT, a PCR, and then the PCR 2576980377600, with any duration and no limit on packets |
| `StartSeeking.OtherServiceAborts` | src/start_seeker.hh:200-200 | a run that aborts on a PAT that lists another service: with nothing sent while seeking, and with a limit of one packet after that packet was sent |
| `ProgramFiltering.ProgramFilter.constructor` | src/program_filter.hh:60-79 | the clock of the options is known, whatever its PCR, and everything else is not |
| `ProgramFiltering.ProgramFilter.ConvertTimeToPcr` | src/program_filter.hh:564-576 | the same conversion as that of the clock baseline, for every time; aborts if and only if the PCR of the clock is out of range |
| `ProgramFiltering.ProgramFilter.UpdatePcrRange` | src/program_filter.hh:553-562 | the cached range is that of a fresh conversion, or the process aborts, if and only if the PCR of the clock is out of range |
| `ProgramFiltering.ProgramFilter.UpdateEventTime` | src/program_filter.hh:508-521 | the event with its margins, and the cached range stays current unless the process aborts on a clock out of range |
| `ProgramFiltering.ProgramFilter.UpdateClockPcr` | src/program_filter.hh:523-534 | any PCR becomes that of the clock; the cached range stays current unless the process aborts, which it does if and only if time and event are known and the PCR is out of range |
| `ProgramFiltering.ProgramFilter.UpdateClockTime` | src/program_filter.hh:536-547 | the clock time; the cached range stays current unless the process aborts on a PCR out of range that was stored before |
| `ProgramFiltering.ProgramFilter.HandlePat` | src/program_filter.hh:284-329 | an acceptable PAT sets the PMT PID and nothing else |
| `ProgramFiltering.ProgramFilter.HandlePmt` | src/program_filter.hh:331-431 | a PMT sets the PCR PID, makes the clock unknown if that changed, and gives the black list and the packets of the PMT without the listed streams, from the first one on; afterwards the clock PID is the PCR PID |
| `ProgramFiltering.ProgramFilter.HandleEit` | src/program_filter.hh:433-487 | the event asked for, present or following, sets the event time; without it exactly when to give up; aborts if and only if the clock cannot convert the event |
| `ProgramFiltering.ProgramFilter.HandleTot` | src/program_filter.hh:489-506 | the time sets an unknown clock, and a waiting filter gives up past its limit; aborts if and only if a PCR out of range was waiting for that time |
| `ProgramFiltering.ProgramFilter.HandleTable` | src/program_filter.hh:265-282 | each table does what its kind does, and the caches stay current or the process aborts |
| `ProgramFiltering.ProgramFilter.HandleTables` | src/program_filter.hh:107-107 | tables are heard in order, up to one that aborts; in every reachable state the cached range equals a fresh conversion and the clock PID is the PCR PID |
| `ProgramFiltering.ProgramFilter.SendPats` | src/program_filter.hh:186-195 | the saved PAT, in order, unless PATs were already passed on |
| `ProgramFiltering.ProgramFilter.SendPmtCycle` | src/program_filter.hh:197-205 | one full cycle of PMT packets; the assertion on their PID fails if and only if the PMT PID has changed since they were loaded |
| `ProgramFiltering.ProgramFilter.Begin` | src/program_filter.hh:184-208 | saved PAT, full PMT cycle and the packet, in this order; aborts if and only if the PMT PID has changed since the PMT was loaded |
| `ProgramFiltering.ProgramFilter.SyncClock` | src/program_filter.hh:164-171 | usable if and only if a time is known; the PCR, whatever it is, is taken exactly when the clock needs one |
| `ProgramFiltering.ProgramFilter.Judge` | src/program_filter.hh:162-208 | a PCR while waiting: undecided without a time, aborting out of range, over at or past the end of the freshly converted event, early before its start, otherwise the program begins, or aborts if and only if the PMT PID has changed |
| `ProgramFiltering.ProgramFilter.Watch` | src/program_filter.hh:132-208 | a waiting filter saves PAT packets, and judges exactly the PCRs on the PCR PID once the event is known |
| `ProgramFiltering.ProgramFilter.WaitReady` | src/program_filter.hh:124-209 | one step of the run: only PATs before the start, the retry flag if and only if stopped, and exactly when it begins, ends or aborts |
| `ProgramFiltering.ProgramFilter.CheckEnd` | src/program_filter.hh:219-242 | a PCR within the program: aborting out of range, held without a time, over at or past the end of the freshly converted event, otherwise going on |
| `ProgramFiltering.ProgramFilter.DoStreaming` | src/program_filter.hh:211-256 | one step of the run: exactly what is sent for each packet, and exactly when it ends or aborts |
| `ProgramFiltering.Run.LeaksIff` | src/program_filter.hh:219-253 | while streaming, a black-listed packet gets through if and only if it has the PCR PID and is not used as a PCR |
| `ProgramFiltering.ProgramFilter.HandlePacket` | src/program_filter.hh:105-116 | tables first, then the state: what an accepting sink gets, what is held, known and loaded, and how the packet ends, are one step of the run; a refusing sink gets a beginning of it; exactly when it aborts; streaming is never left, and retried never |
| `ProgramRuns.DecideByPosition` | src/program_filter.hh:173-182 | for PCRs within half a period of both ends the wrapped comparisons decide by the unwrapped positions, where a PCR counts as at or past an end if it is, and has not wrapped since |
| `ProgramRuns.WaitingPhase` | src/program_filter.hh:124-182 | until a PCR reaches the window, PATs are all that is sent or kept |
| `ProgramRuns.BeginPhase` | src/program_filter.hh:184-208 | the first PCR inside the window starts the stream with saved PAT, PMT cycle and packet |
| `ProgramRuns.StreamingPhase` | src/program_filter.hh:211-256 | until a PCR reaches the end, packets are streamed one by one |
| `ProgramRuns.EndPhase` | src/program_filter.hh:238-241 | a PCR at or past the end sends nothing and ends the run |
| `ProgramRuns.WindowOpens` | src/program_filter.hh:124-256 | a run that reaches the window, from first packet to last |
| `ProgramRuns.WindowStaysShut` | src/program_filter.hh:124-176 | a run whose first decisive PCR is already past the end, or that has none, sends only PATs |
| `ProgramRuns.WindowCloses` | src/program_filter.hh:211-256 | a streaming run up to the first PCR at or past the end |
| `ProgramRuns.ProgramWindow` | src/program_filter.hh:124-256 | with clock and event fixed, everything that is sent in a whole run, in which the PMT may be loaded again and then starts its packets over, and when it begins and ends |
| `ProgramRuns.EndsIff` | src/program_filter.hh:173-178 | with clock and event fixed, a run ends if and only if some PCR is at or past the end and has not wrapped since; otherwise it goes on |
| `ProgramRuns.StartsIff` | src/program_filter.hh:180-208 | with clock and event fixed, a run streams if and only if some PCR is at or past the start, has not wrapped since, and none up to it is in that way at or past the end |
| `ProgramSamples.EndIsMissed` | src/program_filter.hh:238-241 | a run from the constructor that streams a PCR a tick past the end of the event, which has wrapped, and goes on |
| `ProgramSamples.StartIsMissed` | src/program_filter.hh:180-182 | a run from the constructor whose PCR lies between start and end of the event, past the wrap, and does not start the program |
| `ProgramRuns.WaitsUntil` | src/program_filter.hh:124-209 | a run that is not over still knows what it knew, and streams if and only if it is past the first PCR in the window |
| `ProgramRuns.SavedIsLatest` | src/program_filter.hh:134-142 | the PAT that is sent is made of the PAT packets since the last one that starts a PAT |
| `ProgramRuns.CycleTurns` | src/program_filter.hh:244-249 | PMT packets come round and round: after that many packets, so many whole turns and the rest |
| `ProgramTables.KnownMeans` | src/program_filter.hh:284-547 | while a run goes on, in terms of the tables alone: the event window, the PCR PID, the black list, the packets of the PMT, the PMT PID and the time of the clock are those of the last PAT, PMT and EIT of the service and of the first time since the PCR PID last changed |
| `ProgramTables.WindowIsThatOfLastEit` | src/program_filter.hh:433-521 | the window is start - margin to start + 1000 * duration + margin of the event in the last EIT of the service that has it as its present or following one; others leave it |
| `ProgramTables.GivesUpIff` | src/program_filter.hh:433-506 | a waiting filter gives up if and only if a table of the input is an EIT without events, without the event and without a following one or a time to wait until, or a time past that |
| `ProgramSamples.FollowingEvent` | src/program_filter.hh:469-474 | a run that takes the window of the following event, not that of the present one |
| `ProgramSamples.LastPcrCounts` | src/program_filter.hh:523-547 | a run in which the first time after a change of the PCR PID belongs to the last PCR before it |
| `ProgramRuns.StreamProgram` | src/program_filter.hh:105-256 | the machine itself sends exactly that window into an accepting sink, with any tables on the way that leave what is known as it is, repeated PMTs included |
| `ProgramRuns.BlackListLeaks` | src/program_filter.hh:211-256 | of a black-listed stream, a streaming run sends exactly the packets without a PCR if it carries the PCR, and nothing otherwise |
| `ProgramRuns.AbortsIff` | src/program_filter.hh:105-256 | for every state and input, into an accepting sink: aborts if and only if the tables make it convert an event with a clock out of range, or, unless told to stop, it compares a PCR out of range, or sends PMT packets that are not on the current PMT PID |
| `ProgramSamples.AbortIsReachable` | src/program_filter.hh:244-248 | a run from the constructor that aborts: PAT, PMT, EIT and start PCR, then a PAT that moves the PMT, and a packet on its new PID before the new PMT |
| `ProgramSamples.BadPcrAborts` | src/program_filter.hh:175-175 | a run from the constructor that aborts: PAT, PMT, EIT and the PCR 2576980377600 |
| `ProgramSamples.BadClockAborts` | src/program_filter.hh:564-567 | a run that aborts on its EIT, because the PCR of the clock option is 2576980377600 |
| `ProgramSamples.StoredPcrAborts` | src/program_filter.hh:536-567 | a run that takes the PCR 2576980377600 for a clock without a time, goes on, and aborts on the next TOT |
| `ProgramRuns.FeedInputs` | src/program_filter.hh:97-256 | inputs are fed up to the first one that ends the run |
| `ProgramRuns.RunFilter` | src/program_filter.hh:97-256 | every run into any sink, with any PCRs, changes of event, clock and PMT: an accepting sink gets exactly what the fold of the inputs says, and the run goes on, ends or aborts as that says; a refusing one gets a beginning of it; exit code 222 if and only if the filter was told to stop before streaming began, otherwise that of the sink; in the first case, and whenever nothing was streamed to an accepting sink, only PAT packets were sent |
| `Pipeline.FilteredIsFed` | src/service_filter.hh:94-170 | what the service filter lets through meets everything that program filter and recorder, which are the engines behind it (src/main.cc:1360-1392), require of PATs |

## Left out

- Decoding of descriptors and ARIB strings, and building of JSON: messages and sections are typed values.
- Demultiplexer, table parser and packetizer: tables arrive as values, packets of a modified PAT or PMT are identified by its contents and, for a PMT, their place in the cycle, and the number of packets of a modified PMT comes with the table.
- Option parsing and the POSIX file: their range checks are preconditions and their results are arbitrary.
- The scanners, printers and collectors for logos, PES, services, airtime, program metadata, present and following events and PCR synchronisation, and the standard output sink: single-branch logic or the same in kind as what is here.
- The clock that starts from a given baseline (`src/base.hh:170`): the runs here start from a default clock.
- The checks of the EIT collector for a valid and current section of sufficient size: an invalid section is one that never arrives.
- The counter of changed last table indexes and the progress display: they only feed the log.
- Membership of PIDs in the demultiplexers of recorder and program filter: it is covered by the assumption on tables; that of service filter and start seeker is modelled.
- Overflow of 64-bit integers when a time is converted to a PCR: times are unbounded.
- Fixed arrays inside the progress classes are sequence fields that the loops reassign; in-place update of the buffers of packet source and ring sink is kept.
- The order in which a map is iterated: the loops over services take any order.
- Loops over the streams of a PMT are set comprehensions, and so is the erasure of other services from a PAT.
- Exit codes of service filter and ring sink, which follow directly from their error flags.
- Recording.Record: does not say at which time messages are sent while the clock is not ready, because it then follows the local wall clock, nor what the file holds after one of its operations has failed.
- ProgramRuns.ProgramWindow: holds for PCRs within half a period of both ends, because the comparison is meaningless beyond that.
