/**
 What the recorder says about events, in terms of the tables of the stream and the times of its messages
 alone: which event is the latest one, when it begins, and when it ends.
 */
module RecordingRuns {
  import opened Tables
  import opened Pcr
  import opened Clocks
  import opened ByteRing
  import opened Messages
  import opened Recording

  /** A table that tells the present event of the service. */
  predicate IsEitOf(sid: int, t: Table) {
    t.Eit? && t.valid && t.sid == sid && t.events != []
  }

  ghost predicate LastEit(sid: int, tables: seq<Table>, j: int) {
    0 <= j < |tables| && IsEitOf(sid, tables[j]) && forall i :: j < i < |tables| ==> !IsEitOf(sid, tables[i])
  }

  /** The present event of the last EIT of the service. */
  ghost predicate IsLatest(sid: int, tables: seq<Table>, e: Event) {
    exists j :: LastEit(sid, tables, j) && tables[j].events[0] == e
  }

  // What is heard

  lemma LastEitNext(sid: int, tables: seq<Table>, t: Table)
    ensures forall j :: LastEit(sid, tables + [t], j) <==>
                        if IsEitOf(sid, t) then j == |tables| else LastEit(sid, tables, j)
  {
    var next := tables + [t];
    forall j
      ensures LastEit(sid, next, j) <==> if IsEitOf(sid, t) then j == |tables| else LastEit(sid, tables, j)
    {
      if LastEit(sid, next, j) && j < |tables| {
        assert !IsEitOf(sid, next[|tables|]);
        assert forall i :: j < i < |tables| ==> next[i] == tables[i];
      }
    }
  }

  lemma LatestNext(sid: int, tables: seq<Table>, t: Table, e: Event)
    ensures IsLatest(sid, tables + [t], e) <==>
            if IsEitOf(sid, t) then t.events[0] == e else IsLatest(sid, tables, e)
  {
    LastEitNext(sid, tables, t);
    if IsEitOf(sid, t) {
      assert LastEit(sid, tables + [t], |tables|);
    } else {
      assert forall j :: LastEit(sid, tables, j) ==> (tables + [t])[j] == tables[j];
    }
  }

  /** The PID of the PCR is that of the last PMT. */
  ghost predicate IsPcrPid(sid: int, tables: seq<Table>, pid: Pid) {
    if exists j :: LastPmt(sid, tables, j) then exists j :: LastPmt(sid, tables, j) && tables[j].pcrPid == pid
    else pid == 0x1FFF
  }

  lemma PcrPidNext(sid: int, tables: seq<Table>, t: Table, pid: Pid)
    ensures IsPcrPid(sid, tables + [t], pid) <==>
            if IsPmtOf(sid, t) then t.pcrPid == pid else IsPcrPid(sid, tables, pid)
  {
    LastPmtNext(sid, tables, t);
    if IsPmtOf(sid, t) {
      assert LastPmt(sid, tables + [t], |tables|);
    } else {
      assert forall j :: LastPmt(sid, tables, j) ==> LastPmt(sid, tables + [t], j) && (tables + [t])[j] == tables[j];
    }
  }

  /** What is heard is what the tables have said. */
  ghost predicate Agrees(sid: int, tables: seq<Table>, h: Heard) {
    && (forall e: Event :: h.event == Some(e) <==> IsLatest(sid, tables, e))
    && IsPcrPid(sid, tables, h.clock.pid)
  }

  lemma AgreesNext(sid: int, tables: seq<Table>, t: Table, h: Heard)
    requires Agrees(sid, tables, h)
    ensures Agrees(sid, tables + [t], h.AfterTable(sid, t))
  {
    forall e: Event
      ensures h.AfterTable(sid, t).event == Some(e) <==> IsLatest(sid, tables + [t], e)
    {
      LatestNext(sid, tables, t, e);
    }
    PcrPidNext(sid, tables, t, h.AfterTable(sid, t).clock.pid);
  }

  lemma {:induction false} AgreesAfter(sid: int, before: seq<Table>, tables: seq<Table>, h: Heard, n: nat)
    requires n <= |tables| && Agrees(sid, before, h)
    ensures Agrees(sid, before + tables[..n], h.AfterTables(sid, tables, n))
  {
    if n == 0 {
      assert before + tables[..0] == before;
    } else {
      AgreesAfter(sid, before, tables, h, n - 1);
      assert before + tables[..n] == before + tables[..n - 1] + [tables[n - 1]];
      AgreesNext(sid, before + tables[..n - 1], tables[n - 1], h.AfterTables(sid, tables, n - 1));
    }
  }

  /** The event that was heard is the latest one, and the clock follows the PCR PID of the last PMT. */
  lemma {:induction false} HeardMeans(sid: int, inputs: seq<Input>, n: nat)
    requires n <= |inputs|
    ensures Agrees(sid, AllTables(inputs, n), HeardAt(sid, inputs, n))
  {
    if n > 0 {
      HeardMeans(sid, inputs, n - 1);
      var tables, h := inputs[n - 1].tables, HeardAt(sid, inputs, n - 1).AfterPcr(inputs[n - 1].packet);
      AgreesAfter(sid, AllTables(inputs, n - 1), tables, h, |tables|);
      assert tables[..|tables|] == tables;
    }
  }

  // What the clock is told

  /** A PMT with another PCR PID, and a time, are events for the clock. */
  function TableEvent(sid: int, pid: Pid, t: Table): seq<ClockEvent> {
    if IsPmtOf(sid, t) && (pid == 0x1FFF || pid != t.pcrPid) then [PidEvent(t.pcrPid)]
    else if t.Tot? && t.valid then [TimeEvent(t.time)]
    else []
  }

  /** The PCR PID after these tables, if it was `pid` before. */
  function PidAfter(sid: int, pid: Pid, tables: seq<Table>, n: nat): Pid
    requires n <= |tables|
  {
    if n == 0 then pid
    else if IsPmtOf(sid, tables[n - 1]) then tables[n - 1].pcrPid
    else PidAfter(sid, pid, tables, n - 1)
  }

  ghost function TableEvents(sid: int, pid: Pid, tables: seq<Table>, n: nat): seq<ClockEvent>
    requires n <= |tables|
  {
    if n == 0 then []
    else TableEvents(sid, pid, tables, n - 1) + TableEvent(sid, PidAfter(sid, pid, tables, n - 1), tables[n - 1])
  }

  ghost function PidAt(sid: int, inputs: seq<Input>, n: nat): Pid
    requires n <= |inputs|
  {
    if n == 0 then 0x1FFF
    else PidAfter(sid, PidAt(sid, inputs, n - 1), inputs[n - 1].tables, |inputs[n - 1].tables|)
  }

  /** A PCR counts if it is on the PCR PID and in range. */
  function PcrEvent(pid: Pid, packet: Packet): seq<ClockEvent> {
    if packet.pid == pid != 0x1FFF && packet.pcr.Some? && 0 <= packet.pcr.value < 2_576_980_377_600 then
      [ClockEvent.PcrEvent(packet.pcr.value)]
    else []
  }

  /** What an input tells the clock: first the PCR of its packet, then its tables. */
  ghost function InputEvents(sid: int, pid: Pid, input: Input): seq<ClockEvent> {
    PcrEvent(pid, input.packet) + TableEvents(sid, pid, input.tables, |input.tables|)
  }

  /** Everything that the first `n` inputs tell the clock, in order. */
  ghost function ClockEvents(sid: int, inputs: seq<Input>, n: nat): seq<ClockEvent>
    requires n <= |inputs|
  {
    if n == 0 then []
    else
      var pid, input := PidAt(sid, inputs, n - 1), inputs[n - 1];
      ClockEvents(sid, inputs, n - 1) + InputEvents(sid, pid, input)
  }

  ghost predicate AllEventsValid(events: seq<ClockEvent>) {
    forall e <- events :: ValidEvent(e)
  }

  lemma {:induction false} TableEventMeans(sid: int, h: Heard, t: Table)
    requires h.clock.Valid()
    ensures AllEventsValid(TableEvent(sid, h.clock.pid, t))
    ensures h.AfterTable(sid, t).clock == h.clock.AfterAll(TableEvent(sid, h.clock.pid, t))
    ensures h.AfterTable(sid, t).clock.pid == if IsPmtOf(sid, t) then t.pcrPid else h.clock.pid
  {
    OneEvent(h.clock, TableEvent(sid, h.clock.pid, t));
  }

  lemma {:induction false} TableEventsMean(sid: int, h: Heard, tables: seq<Table>, n: nat)
    requires n <= |tables| && h.clock.Valid()
    ensures AllEventsValid(TableEvents(sid, h.clock.pid, tables, n))
    ensures h.AfterTables(sid, tables, n).clock == h.clock.AfterAll(TableEvents(sid, h.clock.pid, tables, n))
    ensures h.AfterTables(sid, tables, n).clock.pid == PidAfter(sid, h.clock.pid, tables, n)
  {
    if n > 0 {
      TableEventsMean(sid, h, tables, n - 1);
      var g, t := h.AfterTables(sid, tables, n - 1), tables[n - 1];
      TableEventMeans(sid, g, t);
      AfterAllSplit(h.clock, TableEvents(sid, h.clock.pid, tables, n - 1), TableEvent(sid, g.clock.pid, t));
    }
  }

  lemma {:induction false} PcrEventMeans(h: Heard, packet: Packet)
    requires h.clock.Valid()
    ensures AllEventsValid(PcrEvent(h.clock.pid, packet))
    ensures h.AfterPcr(packet).clock == h.clock.AfterAll(PcrEvent(h.clock.pid, packet))
    ensures h.AfterPcr(packet).clock.pid == h.clock.pid
  {
    OneEvent(h.clock, PcrEvent(h.clock.pid, packet));
  }

  lemma {:induction false} InputEventsMean(sid: int, h: Heard, input: Input)
    requires h.clock.Valid()
    ensures
      && AllEventsValid(InputEvents(sid, h.clock.pid, input))
      && h.After(sid, input.packet, input.tables).clock == h.clock.AfterAll(InputEvents(sid, h.clock.pid, input))
      && h.After(sid, input.packet, input.tables).clock.pid == PidAfter(sid, h.clock.pid, input.tables, |input.tables|)
  {
    PcrEventMeans(h, input.packet);
    TableEventsMean(sid, h.AfterPcr(input.packet), input.tables, |input.tables|);
    AfterAllSplit(h.clock, PcrEvent(h.clock.pid, input.packet),
                  TableEvents(sid, h.clock.pid, input.tables, |input.tables|));
  }

  lemma {:induction false} OneEvent(c: Ideal, events: seq<ClockEvent>)
    requires c.Valid() && |events| <= 1 && AllEventsValid(events)
    ensures c.AfterAll(events) == if events == [] then c else c.After(events[0])
  {
    if events != [] {
      assert events[..0] == [];
    }
  }

  /** The clock is the one that these events make of a default clock. */
  ghost predicate IsClockAfter(events: seq<ClockEvent>, c: Ideal) {
    AllEventsValid(events) && c == FRESH.AfterAll(events)
  }

  lemma {:induction false} ClockNext(sid: int, h: Heard, g: Heard, input: Input, before: seq<ClockEvent>,
                                     all: seq<ClockEvent>)
    requires h.clock.Valid() && g == h.After(sid, input.packet, input.tables)
    requires IsClockAfter(before, h.clock) && all == before + InputEvents(sid, h.clock.pid, input)
    ensures IsClockAfter(all, g.clock)
    ensures g.clock.pid == PidAfter(sid, h.clock.pid, input.tables, |input.tables|)
  {
    InputEventsMean(sid, h, input);
    AfterAllSplit(FRESH, before, InputEvents(sid, h.clock.pid, input));
  }

  /** The clock of the recorder is the unbounded clock after everything that the inputs tell it. */
  lemma {:induction false} ClockMeans(sid: int, inputs: seq<Input>, n: nat)
    requires n <= |inputs|
    ensures IsClockAfter(ClockEvents(sid, inputs, n), HeardAt(sid, inputs, n).clock)
    ensures HeardAt(sid, inputs, n).clock.pid == PidAt(sid, inputs, n)
  {
    if n > 0 {
      ClockMeans(sid, inputs, n - 1);
      ClockNext(sid, HeardAt(sid, inputs, n - 1), HeardAt(sid, inputs, n), inputs[n - 1],
                ClockEvents(sid, inputs, n - 1), ClockEvents(sid, inputs, n));
    }
  }

  // Which event messages are sent

  /** An event has been started and not ended. */
  ghost predicate IsOpen(out: seq<Message>) {
    exists i :: 0 <= i < |out| && out[i].EventStart? && forall j :: i < j < |out| ==> !out[j].EventEnd?
  }

  lemma OpenNext(out: seq<Message>, m: Message)
    ensures IsOpen(out + [m]) <==> m.EventStart? || (IsOpen(out) && !m.EventEnd?)
  {
    var next := out + [m];
    if m.EventStart? {
      assert next[|out|].EventStart?;
    }
    if IsOpen(out) && !m.EventEnd? {
      var i :| 0 <= i < |out| && out[i].EventStart? && forall j :: i < j < |out| ==> !out[j].EventEnd?;
      assert next[i].EventStart? && forall j :: i < j < |next| ==> !next[j].EventEnd?;
    }
    if IsOpen(next) && !m.EventStart? {
      var i :| 0 <= i < |next| && next[i].EventStart? && forall j :: i < j < |next| ==> !next[j].EventEnd?;
      assert i < |out| && next[i] == out[i] && !next[|out|].EventEnd?;
      assert forall j :: i < j < |out| ==> next[j] == out[j];
    }
  }

  /** `next` is `out` with `events` and then messages that neither start nor end an event. */
  ghost predicate Adds(out: seq<Message>, events: seq<Message>, next: seq<Message>) {
    && out + events <= next
    && forall i :: |out| + |events| <= i < |next| ==> !next[i].EventStart? && !next[i].EventEnd?
  }

  /** The event is over at `now`; one without a duration never is. */
  predicate IsOver(e: Event, now: int) {
    e.duration > 0 && now >= e.start + 1000 * e.duration
  }

  /**
   The event messages of a packet at time `now` and position `pos`, when the latest event was `current` and is
   `latest` now. An update is about the latest event.
   */
  ghost predicate Sends(out: seq<Message>, current: Event, latest: Event, now: int, pos: nat, next: seq<Message>) {
    && (forall i :: |out| <= i < |next| && next[i].EventUpdate? ==> next[i].event == latest)
    && if latest.id != current.id then
      if IsOpen(out) then Adds(out, [EventEnd(current, now, pos), EventStart(latest, now, pos)], next)
      else exists t, p :: Adds(out, [EventStart(latest, t, p)], next)
    else if IsOpen(out) && IsOver(latest, now) then
      Adds(out, [EventEnd(latest, latest.start + 1000 * latest.duration, pos)], next)
    else Adds(out, [], next)
  }

  /** The event messages that are due, with the number of milliseconds written out. */
  lemma FollowMeans(log: Log, current: Event, latest: Event, now: int, pos: nat)
    requires log.started <==> IsOpen(log.out)
    ensures
      var next := log.Follow(current, latest, now, pos);
      && Sends(log.out, current, latest, now, pos, next.out)
      && (next.started <==> IsOpen(next.out))
  {
    var next := log.Follow(current, latest, now, pos);
    var events := EventMessages(log.started, current, latest, now, pos, log.boundary);
    assert next.out == log.out + events && Adds(log.out, events, next.out);
    if |events| == 1 {
      OpenNext(log.out, events[0]);
      assert events == [events[0]];
    } else if |events| == 2 {
      OpenNext(log.out, events[0]);
      OpenNext(log.out + [events[0]], events[1]);
      assert next.out == log.out + [events[0]] + [events[1]];
    } else {
      assert next.out == log.out;
    }
    if latest.id != current.id && !log.started {
      assert events == [EventStart(latest, log.boundary.time, log.boundary.pos)];
    }
  }

  lemma ReportMeans(log: Log, out: seq<Message>, current: Event, latest: Event, now: int, pos: nat, time: int, p: nat)
    requires Sends(out, current, latest, now, pos, log.out) && (log.started <==> IsOpen(log.out))
    ensures
      var next := log.Report(latest, time, p);
      Sends(out, current, latest, now, pos, next.out) && (next.started <==> IsOpen(next.out))
  {
    var update, chunk := EventUpdate(latest, time, p), Chunk(time, p);
    OpenNext(log.out, update);
    OpenNext(log.out + [update], chunk);
    var next := log.Report(latest, time, p).out;
    assert next == log.out + [update] + [chunk];
    forall events | Adds(out, events, log.out)
      ensures Adds(out, events, next)
    {
    }
  }

  /** The recording begins with the first chunk, and with the event unless it is over. */
  ghost predicate Begins(e: Event, now: int, pos: nat, out: seq<Message>) {
    out == [Message.Start, Chunk(now, pos)] + if IsOver(e, now) then [] else [EventStart(e, now, pos)]
  }

  lemma BeginMeans(e: Event, now: int, pos: nat)
    ensures
      var next := BLANK.log.Begin(e, now, pos);
      Begins(e, now, pos, next.out) && (next.started <==> IsOpen(next.out))
  {
    var next := BLANK.log.Begin(e, now, pos);
    if IsOver(e, now) {
      assert next.out == [Message.Start, Chunk(now, pos)];
    } else {
      assert next.out == [Message.Start, Chunk(now, pos), EventStart(e, now, pos)];
      assert next.out[2].EventStart?;
    }
  }

  // Whole recordings

  ghost function OutAt(l: Layout, sid: int, inputs: seq<Input>, times: seq<Times>, n: nat): seq<Message>
    requires l.Valid() && n <= |inputs| && n <= |times|
  {
    TapeAt(l, sid, inputs, times, n).log.out
  }

  /** The recording has begun within the first `n` inputs: PCR, time and event were known after one of them. */
  ghost predicate HasBegun(sid: int, inputs: seq<Input>, n: nat)
    requires n <= |inputs|
  {
    BeginBy(sid, inputs, n).Some?
  }

  lemma {:induction false} TapeIsBlank(l: Layout, sid: int, inputs: seq<Input>, times: seq<Times>, n: nat)
    requires l.Valid() && n <= |inputs| && n <= |times|
    ensures !HasBegun(sid, inputs, n) ==> TapeAt(l, sid, inputs, times, n).log == BLANK.log
  {
    if n > 0 {
      TapeIsBlank(l, sid, inputs, times, n - 1);
      TapeMeans(l, sid, inputs, times, n);
      TapeMeans(l, sid, inputs, times, n - 1);
    }
  }

  /** The latest event after the first `n` inputs. */
  ghost predicate IsLatestAt(sid: int, inputs: seq<Input>, n: nat, e: Event)
    requires n <= |inputs|
  {
    IsLatest(sid, AllTables(inputs, n), e)
  }

  lemma LatestIsHeard(sid: int, inputs: seq<Input>, n: nat)
    requires n <= |inputs|
    ensures forall e: Event :: HeardAt(sid, inputs, n).event == Some(e) <==> IsLatestAt(sid, inputs, n, e)
  {
    HeardMeans(sid, inputs, n);
  }

  lemma {:induction false} TapeHears(l: Layout, sid: int, inputs: seq<Input>, times: seq<Times>, n: nat)
    requires l.Valid() && n <= |inputs| && n <= |times|
    ensures forall e: Event :: TapeAt(l, sid, inputs, times, n).heard.event == Some(e)
                               <==> IsLatestAt(sid, inputs, n, e)
  {
    TapeMeans(l, sid, inputs, times, n);
    LatestIsHeard(sid, inputs, n);
  }

  /** Input `n`, after the recording has begun, sends the event messages that are due. */
  ghost predicate SendsAt(l: Layout, sid: int, inputs: seq<Input>, times: seq<Times>, n: nat)
    requires l.Valid() && n < |inputs| && n < |times| && HasBegun(sid, inputs, n)
  {
    var m, pos := n + 1, RingPos(l.start, l.RingSize(), 188 * (n - BeginBy(sid, inputs, n).value));
    exists current, latest :: IsLatestAt(sid, inputs, n, current) && IsLatestAt(sid, inputs, m, latest)
      && Sends(OutAt(l, sid, inputs, times, n), current, latest, times[n].now, pos, OutAt(l, sid, inputs, times, m))
  }

  /** Input `n` begins the recording. */
  ghost predicate BeginsAt(l: Layout, sid: int, inputs: seq<Input>, times: seq<Times>, n: nat)
    requires l.Valid() && n < |inputs| && n < |times|
  {
    var m := n + 1;
    exists e :: IsLatestAt(sid, inputs, m, e) && Begins(e, times[n].now, l.start, OutAt(l, sid, inputs, times, m))
  }

  lemma {:induction false} RecordsNext(l: Layout, sid: int, inputs: seq<Input>, times: seq<Times>, n: nat)
    requires l.Valid() && n < |inputs| && n < |times| && HasBegun(sid, inputs, n)
    requires
      var log := TapeAt(l, sid, inputs, times, n).log;
      log.started <==> IsOpen(log.out)
    ensures
      var log := TapeAt(l, sid, inputs, times, n + 1).log;
      log.started <==> IsOpen(log.out)
    ensures SendsAt(l, sid, inputs, times, n)
  {
    var m := n + 1;
    TapeMeans(l, sid, inputs, times, n);
    TapeHears(l, sid, inputs, times, n);
    TapeHears(l, sid, inputs, times, m);
    var tape, next := TapeAt(l, sid, inputs, times, n), TapeAt(l, sid, inputs, times, m);
    RecordingStep(tape, next, l, sid, inputs[n], times[n]);
    assert IsLatestAt(sid, inputs, n, tape.heard.event.value) && IsLatestAt(sid, inputs, m, next.heard.event.value);
  }

  lemma {:induction false} BeginsNext(l: Layout, sid: int, inputs: seq<Input>, times: seq<Times>, n: nat)
    requires l.Valid() && n < |inputs| && n < |times| && !HasBegun(sid, inputs, n) && HasBegun(sid, inputs, n + 1)
    ensures
      var log := TapeAt(l, sid, inputs, times, n + 1).log;
      log.started <==> IsOpen(log.out)
    ensures BeginsAt(l, sid, inputs, times, n)
  {
    TapeMeans(l, sid, inputs, times, n);
    TapeIsBlank(l, sid, inputs, times, n);
    LatestIsHeard(sid, inputs, n + 1);
    var m, e := n + 1, HeardAt(sid, inputs, n + 1).event.value;
    BeginMeans(e, times[n].now, l.start);
    assert IsLatestAt(sid, inputs, m, e);
  }

  /** In the log, an event runs exactly if it has been started and not ended. */
  lemma {:induction false} StartedMeans(l: Layout, sid: int, inputs: seq<Input>, times: seq<Times>, n: nat)
    requires l.Valid() && n <= |inputs| && n <= |times|
    ensures
      var log := TapeAt(l, sid, inputs, times, n).log;
      log.started <==> IsOpen(log.out)
  {
    if n > 0 {
      StartedMeans(l, sid, inputs, times, n - 1);
      if HasBegun(sid, inputs, n - 1) {
        RecordsNext(l, sid, inputs, times, n - 1);
      } else if HasBegun(sid, inputs, n) {
        BeginsNext(l, sid, inputs, times, n - 1);
      } else {
        TapeIsBlank(l, sid, inputs, times, n);
      }
    }
  }

  /** What each input of a run adds to the messages about events. */
  lemma {:induction false} SendsOrBegins(l: Layout, sid: int, inputs: seq<Input>, times: seq<Times>, n: nat)
    requires l.Valid() && n < |inputs| && n < |times|
    ensures HasBegun(sid, inputs, n) ==> SendsAt(l, sid, inputs, times, n)
    ensures !HasBegun(sid, inputs, n) && HasBegun(sid, inputs, n + 1) ==> BeginsAt(l, sid, inputs, times, n)
    ensures !HasBegun(sid, inputs, n + 1) ==> OutAt(l, sid, inputs, times, n + 1) == [Message.Start]
  {
    StartedMeans(l, sid, inputs, times, n);
    if HasBegun(sid, inputs, n) {
      RecordsNext(l, sid, inputs, times, n);
    } else if HasBegun(sid, inputs, n + 1) {
      BeginsNext(l, sid, inputs, times, n);
    } else {
      TapeIsBlank(l, sid, inputs, times, n + 1);
    }
  }

  /** A packet that is recorded. */
  lemma {:induction false} RecordingStep(tape: Tape, next: Tape, l: Layout, sid: int, input: Input, t: Times)
    requires tape.Valid() && l.Valid() && tape.recorded.Some? && (tape.log.started <==> IsOpen(tape.log.out))
    requires next == tape.After(l, sid, input, t)
    ensures next.log.started <==> IsOpen(next.log.out)
    ensures Sends(tape.log.out, tape.heard.event.value, next.heard.event.value, t.now,
                  RingPos(l.start, l.RingSize(), tape.recorded.value), next.log.out)
  {
    var pos := RingPos(l.start, l.RingSize(), tape.recorded.value);
    var due := tape.Due(l, sid, input, t);
    FollowMeans(tape.log, tape.heard.event.value, next.heard.event.value, t.now, pos);
    assert Sends(tape.log.out, tape.heard.event.value, next.heard.event.value, t.now, pos, due.out);
    if next.log != due {
      var p := RingPos(l.start, l.RingSize(), (tape.recorded.value / l.chunkSize + 1) * l.chunkSize);
      ReportMeans(due, tape.log.out, tape.heard.event.value, next.heard.event.value, t.now, pos, t.chunk, p);
    }
  }

  // The messages of a recording about the end of an event

  /** An event-end was caused by the ID of the next event, or by its own time. */
  ghost predicate IsEndExplained(sid: int, inputs: seq<Input>, times: seq<Times>, k: nat, m: Message)
    requires k < |inputs| && k < |times| && m.EventEnd?
  {
    || (IsLatestAt(sid, inputs, k, m.event) && !SameEventAt(sid, inputs, k + 1, m.event.id) && m.time == times[k].now)
    || (&& IsLatestAt(sid, inputs, k + 1, m.event) && SameEventAt(sid, inputs, k, m.event.id)
        && m.event.duration > 0 && m.time == m.event.start + 1000 * m.event.duration && m.time <= times[k].now)
  }

  /** The latest event has this ID. */
  ghost predicate SameEventAt(sid: int, inputs: seq<Input>, n: nat, id: int)
    requires n <= |inputs|
  {
    exists e :: IsLatestAt(sid, inputs, n, e) && e.id == id
  }

  ghost predicate AllEndsExplained(sid: int, inputs: seq<Input>, times: seq<Times>, n: nat, out: seq<Message>)
    requires n <= |inputs| && n <= |times|
  {
    forall i :: 0 <= i < |out| && out[i].EventEnd? ==>
      exists k :: 0 <= k < n && IsEndExplained(sid, inputs, times, k, out[i])
  }

  ghost predicate EndsExplainedAt(l: Layout, sid: int, inputs: seq<Input>, times: seq<Times>, n: nat)
    requires l.Valid() && n <= |inputs| && n <= |times|
  {
    AllEndsExplained(sid, inputs, times, n, OutAt(l, sid, inputs, times, n))
  }

  lemma LatestIsUnique(sid: int, inputs: seq<Input>, n: nat, e: Event)
    requires n <= |inputs| && IsLatestAt(sid, inputs, n, e)
    ensures forall id :: SameEventAt(sid, inputs, n, id) <==> e.id == id
  {
    LatestIsHeard(sid, inputs, n);
  }

  /** The event messages of input `n` are explained by it. */
  lemma {:induction false} NextEndsExplained(sid: int, inputs: seq<Input>, times: seq<Times>, n: nat, out: seq<Message>,
                                             next: seq<Message>, current: Event, latest: Event, pos: nat)
    requires n < |inputs| && n < |times| && AllEndsExplained(sid, inputs, times, n, out)
    requires IsLatestAt(sid, inputs, n, current) && IsLatestAt(sid, inputs, n + 1, latest)
    requires Sends(out, current, latest, times[n].now, pos, next)
    ensures AllEndsExplained(sid, inputs, times, n + 1, next)
  {
    LatestIsUnique(sid, inputs, n, current);
    LatestIsUnique(sid, inputs, n + 1, latest);
    forall i | 0 <= i < |next| && next[i].EventEnd?
      ensures exists k :: 0 <= k < n + 1 && IsEndExplained(sid, inputs, times, k, next[i])
    {
      if i < |out| {
        assert next[i] == out[i];
        var k :| 0 <= k < n && IsEndExplained(sid, inputs, times, k, out[i]);
      } else {
        assert i == |out|;
        assert IsEndExplained(sid, inputs, times, n, next[i]);
      }
    }
  }

  lemma {:induction false} EndsExplainedNext(l: Layout, sid: int, inputs: seq<Input>, times: seq<Times>, n: nat)
    requires l.Valid() && n < |inputs| && n < |times| && HasBegun(sid, inputs, n)
    requires EndsExplainedAt(l, sid, inputs, times, n)
    ensures EndsExplainedAt(l, sid, inputs, times, n + 1)
  {
    SendsOrBegins(l, sid, inputs, times, n);
    var m, pos := n + 1, RingPos(l.start, l.RingSize(), 188 * (n - BeginBy(sid, inputs, n).value));
    var out, next := OutAt(l, sid, inputs, times, n), OutAt(l, sid, inputs, times, m);
    var current, latest :| IsLatestAt(sid, inputs, n, current) && IsLatestAt(sid, inputs, m, latest)
      && Sends(out, current, latest, times[n].now, pos, next);
    NextEndsExplained(sid, inputs, times, n, out, next, current, latest, pos);
  }

  lemma {:induction false} EndsExplained(l: Layout, sid: int, inputs: seq<Input>, times: seq<Times>, n: nat)
    requires l.Valid() && n <= |inputs| && n <= |times|
    ensures EndsExplainedAt(l, sid, inputs, times, n)
  {
    if n > 0 {
      EndsExplained(l, sid, inputs, times, n - 1);
      if HasBegun(sid, inputs, n - 1) {
        EndsExplainedNext(l, sid, inputs, times, n - 1);
      } else {
        NoEndsYet(l, sid, inputs, times, n - 1);
      }
    }
  }

  lemma {:induction false} NoEndsYet(l: Layout, sid: int, inputs: seq<Input>, times: seq<Times>, n: nat)
    requires l.Valid() && n < |inputs| && n < |times| && !HasBegun(sid, inputs, n)
    ensures EndsExplainedAt(l, sid, inputs, times, n + 1)
  {
    SendsOrBegins(l, sid, inputs, times, n);
  }

  /** In the messages of every recording, each event-end is explained. */
  lemma {:induction false} RecordedEnds(l: Layout, sid: int, inputs: seq<Input>, times: seq<Times>, out: seq<Message>,
                                        stream: seq<Byte>, image: seq<Byte>)
    requires l.Valid() && IsRecorded(l, sid, inputs, times, out, stream, image)
    ensures AllEndsExplained(sid, inputs, times, |inputs|, out)
  {
    EndsExplained(l, sid, inputs, times, |inputs|);
  }

  /** Also in those of one that the file has broken off. */
  lemma {:induction false} BrokenEnds(l: Layout, sid: int, inputs: seq<Input>, times: seq<Times>, out: seq<Message>,
                                      stream: seq<Byte>)
    requires l.Valid() && |times| <= |inputs| && IsBroken(l, sid, inputs, times, out, stream)
    ensures AllEndsExplained(sid, inputs, times, |times|, out)
  {
    var n, sent := |times| - 1, out[..|out| - 1];
    FailedEnds(l, sid, inputs, times, n, sent);
    assert forall i :: 0 <= i < |out| - 1 ==> out[i] == sent[i];
  }

  lemma {:induction false} FailedEnds(l: Layout, sid: int, inputs: seq<Input>, times: seq<Times>, n: nat,
                                      sent: seq<Message>)
    requires l.Valid() && n < |inputs| && n < |times|
    requires TapeAt(l, sid, inputs, times, n).Fails(l, sid, inputs[n], times[n], sent)
    ensures AllEndsExplained(sid, inputs, times, n + 1, sent)
  {
    EndsExplained(l, sid, inputs, times, n);
    StartedMeans(l, sid, inputs, times, n);
    TapeHears(l, sid, inputs, times, n);
    var tape := TapeAt(l, sid, inputs, times, n);
    FailedStep(tape, l, sid, inputs[n], times[n], sent);
    TapeMeans(l, sid, inputs, times, n);
    LatestIsHeard(sid, inputs, n + 1);
    var current, latest := tape.heard.event.value, HeardAt(sid, inputs, n + 1).event.value;
    NextEndsExplained(sid, inputs, times, n, tape.log.out, sent, current, latest,
                      RingPos(l.start, l.RingSize(), tape.recorded.value));
  }

  lemma {:induction false} FailedStep(tape: Tape, l: Layout, sid: int, input: Input, t: Times, out: seq<Message>)
    requires tape.Valid() && l.Valid() && tape.Fails(l, sid, input, t, out)
    requires tape.log.started <==> IsOpen(tape.log.out)
    ensures Sends(tape.log.out, tape.heard.event.value, tape.heard.After(sid, input.packet, input.tables).event.value,
                  t.now, RingPos(l.start, l.RingSize(), tape.recorded.value), out)
  {
    var pos := RingPos(l.start, l.RingSize(), tape.recorded.value);
    var current, latest := tape.heard.event.value, tape.heard.After(sid, input.packet, input.tables).event.value;
    FollowMeans(tape.log, current, latest, t.now, pos);
    var p := RingPos(l.start, l.RingSize(), (tape.recorded.value / l.chunkSize + 1) * l.chunkSize);
    ReportMeans(tape.Due(l, sid, input, t), tape.log.out, current, latest, t.now, pos, t.chunk, p);
  }

  /** After `m` inputs the clock is ready, and there is an event. */
  ghost predicate CanBegin(sid: int, inputs: seq<Input>, m: nat)
    requires m <= |inputs|
  {
    HeardAt(sid, inputs, m).clock.Ready() && exists e :: IsLatestAt(sid, inputs, m, e)
  }

  /** A recording has begun if and only if after some input the clock was ready and there was an event. */
  lemma {:induction false} BegunIff(sid: int, inputs: seq<Input>, n: nat)
    requires n <= |inputs|
    ensures HasBegun(sid, inputs, n) <==> exists m :: 0 <= m <= n && CanBegin(sid, inputs, m)
  {
    BeginIsFirst(sid, inputs, n);
    forall m: nat | m <= n
      ensures CanBegin(sid, inputs, m) <==> HeardAt(sid, inputs, m).Complete()
    {
      LatestIsHeard(sid, inputs, m);
      if HeardAt(sid, inputs, m).event.Some? {
        assert IsLatestAt(sid, inputs, m, HeardAt(sid, inputs, m).event.value);
      }
    }
    if HasBegun(sid, inputs, n) {
      assert CanBegin(sid, inputs, BeginBy(sid, inputs, n).value);
    }
  }

  // A recording that begins within an event

  /** PMT, time, PCR and EIT of service 1: at ten seconds, an event that began at zero. */
  function Sample(duration: int): seq<Input> {
    [Plain(0x200, None, [Pmt(0x200, 0, true, 1, 0x100, [], map[], 1)]),
     Plain(PID_TOT, None, [Tot(true, 10_000)]),
     Plain(0x100, Some(0), []),
     Plain(PID_EIT, None, [Eit(true, 1, [Event(1, 0, duration), Event(2, 10_000, 60)])])]
  }

  lemma {:induction false} OneTable(h: Heard, t: Table)
    ensures h.AfterTables(1, [t], 1) == h.AfterTable(1, t)
  {
    assert h.AfterTables(1, [t], 0) == h;
  }

  lemma {:induction false} SampleIsHeard(duration: int)
    ensures
      var clock := FRESH.(pid := 0x100, time := 10_000, timeReady := true, span := Some(Span(0, 0)));
      && HeardAt(1, Sample(duration), 3) == Heard(None, PID_NULL, clock)
      && HeardAt(1, Sample(duration), 4) == Heard(Some(Event(1, 0, duration)), PID_NULL, clock)
    ensures HeardAt(1, Sample(duration), 0).event.None? && HeardAt(1, Sample(duration), 1).event.None?
    ensures HeardAt(1, Sample(duration), 2).event.None?
  {
    var inputs := Sample(duration);
    assert HeardAt(1, inputs, 0) == NOTHING_HEARD;
    OneTable(NOTHING_HEARD, inputs[0].tables[0]);
    var h1 := NOTHING_HEARD.(clock := FRESH.(pid := 0x100));
    assert HeardAt(1, inputs, 1) == h1;
    OneTable(h1, inputs[1].tables[0]);
    var h2 := h1.(clock := h1.clock.(time := 10_000, timeReady := true));
    assert HeardAt(1, inputs, 2) == h2;
    var h3 := h2.(clock := h2.clock.(span := Some(Span(0, 0))));
    assert HeardAt(1, inputs, 3) == h3;
    OneTable(h3, inputs[3].tables[0]);
  }

  /**
   The recording begins with the fourth input, and with the event if and only if it has no duration or lasts
   longer than ten seconds.
   */
  lemma {:induction false} SampleBegins(l: Layout, duration: int, times: seq<Times>)
    requires l.Valid() && |times| == 4 && TimeLegal(1, Sample(duration), 3, times[3])
    ensures OutAt(l, 1, Sample(duration), times, 4) ==
            [Message.Start, Chunk(10_000, l.start)]
            + if duration <= 0 || 10 < duration then [EventStart(Event(1, 0, duration), 10_000, l.start)] else []
  {
    var inputs := Sample(duration);
    SampleIsHeard(duration);
    BeginIsFirst(1, inputs, 4);
    assert BeginBy(1, inputs, 3).None? by {
      BeginIsFirst(1, inputs, 3);
    }
    TapeIsBlank(l, 1, inputs, times, 3);
    TapeMeans(l, 1, inputs, times, 3);
    BeginMeans(Event(1, 0, duration), times[3].now, l.start);
  }
}
