/**
 The program filter: waits until the PCR reaches the start of an event, sends the saved PAT and a full
 PMT cycle, and then streams until the PCR reaches its end. The PCR range is cached and must follow
 every change of the clock and of the event.
 */
module ProgramFiltering {
  import opened Tables
  import opened Pcr
  import opened Sinks

  const EXIT_RETRY := 222

  datatype State = Waiting | Streaming

  /** What is sent on: a packet as it came, or a packet of the modified PMT. */
  datatype Forwarded =
    | Original(packet: Packet)
    | PmtPacket(pid: Pid, streams: map<Pid, Stream>, index: nat)

  /** The packets of the loaded PMT, sent round and round. */
  datatype Cycle = Cycle(pid: Pid, streams: map<Pid, Stream>, size: nat, next: nat) {
    predicate Valid() {
      next < size
    }

    function Packet(): Forwarded {
      PmtPacket(pid, streams, next)
    }

    function Advance(): Cycle {
      this.(next := if next + 1 == size then 0 else next + 1)
    }
  }

  const NO_CYCLE: Cycle := Cycle(PID_NULL, map[], 1, 0)

  datatype Settings = Settings(
    sid: int, eid: int, clockPid: Pid, clockPcr: int, clockTime: int,
    audioTags: set<int>, videoTags: set<int>, startMargin: int, endMargin: int,
    waitUntil: Option<int>, preStreaming: bool)

  /** The stream is not among those asked for. */
  predicate Excluded(videoTags: set<int>, audioTags: set<int>, s: Stream) {
    match s.kind
    case Video => videoTags != {} && (s.tag.None? || s.tag.value !in videoTags)
    case Audio => audioTags != {} && (s.tag.None? || s.tag.value !in audioTags)
    case OtherStream => false
  }

  function ExcludedPids(option: Settings, streams: map<Pid, Stream>): set<Pid> {
    set p | p in streams && Excluded(option.videoTags, option.audioTags, streams[p])
  }

  predicate IsPat(f: Forwarded) {
    f.Original? && f.packet.pid == PID_PAT
  }

  predicate AllPats(sent: seq<Forwarded>) {
    forall i :: 0 <= i < |sent| ==> IsPat(sent[i])
  }

  /** A PAT is carried by a PAT packet, and an accepted one lists the service with a usable PID. */
  predicate PatFed(sid: int, packet: Packet, t: Table) {
    t.Pat? && Acceptable(t) ==>
      packet.pid == PID_PAT && sid in t.pmts && t.pmts[sid] != PID_PAT && t.pmts[sid] != PID_NULL
  }

  /** What the demultiplexer and the service filter upstream guarantee of a table in a packet. */
  predicate Fed(sid: int, pmtPid: Pid, packet: Packet, t: Table) {
    && PatFed(sid, packet, t)
    && (t.Pmt? ==> t.source == packet.pid == pmtPid && pmtPid != PID_NULL)
  }

  /** The event asked for, if it is the present or the following one. */
  function Wanted(eid: int, events: seq<Event>): Option<Event> {
    if events == [] then None
    else if events[0].id == eid then Some(events[0])
    else if |events| >= 2 && events[1].id == eid then Some(events[1])
    else None
  }

  /** What the tables have said; the PCR range is not part of it, since it follows from the rest. */
  datatype Known = Known(
    pmtPid: Pid, pcrPid: Option<Pid>, clockPid: Pid, clockPcr: Option<int>, clockTime: Option<int>,
    event: Option<(int, int)>, blackList: set<Pid>, loaded: Option<Cycle>, stop: bool)
  {
    /** The event cannot be converted, because the clock has a PCR that is out of range. */
    predicate IsBroken() {
      event.Some? && clockTime.Some? && clockPcr.Some? && !ValidPcr(clockPcr.value)
    }

    function AfterPat(option: Settings, t: Table): Known
      requires t.Pat?
    {
      if Acceptable(t) && option.sid in t.pmts then this.(pmtPid := t.pmts[option.sid]) else this
    }

    /** Another PCR PID makes the clock unknown; excluded streams are black-listed and left out. */
    function AfterPmt(option: Settings, t: Table): Known
      requires t.Pmt?
    {
      if !t.valid || t.sid != option.sid then this
      else
        var excluded := ExcludedPids(option, t.streams);
        var same := clockPid == t.pcrPid;
        this.(pcrPid := Some(t.pcrPid), clockPid := t.pcrPid,
              clockPcr := if same then clockPcr else None, clockTime := if same then clockTime else None,
              blackList := excluded, loaded := Some(Fresh(option, t)))
    }

    /** The event moves the window; without it a waiting filter may give up. */
    function AfterEit(option: Settings, waiting: bool, t: Table): Known
      requires t.Eit?
    {
      if !t.valid || t.sid != option.sid then this
      else if t.events == [] then this.(stop := true)
      else
        match Wanted(option.eid, t.events)
        case Some(e) =>
          this.(event := Some((e.start - option.startMargin, e.start + e.duration * 1000 + option.endMargin)))
        case None =>
          this.(stop := stop || (waiting && (|t.events| < 2 || option.waitUntil.None?)))
    }

    /** The first time sets the clock; a waiting filter gives up past its limit. */
    function AfterTot(option: Settings, waiting: bool, t: Table): Known
      requires t.Tot?
    {
      if !t.valid then this
      else
        this.(stop := stop || (waiting && option.waitUntil.Some? && t.time > option.waitUntil.value),
              clockTime := if clockTime.Some? then clockTime else Some(t.time))
    }

    /** One table; the process aborts on a clock or an event that cannot be converted, and hears no more. */
    function AfterTable(option: Settings, waiting: bool, t: Table): Known {
      if IsBroken() then this
      else
      match t
      case Pat(_, _, _, _, _) => AfterPat(option, t)
      case Pmt(_, _, _, _, _, _, _, _) => AfterPmt(option, t)
      case Eit(_, _, _) => AfterEit(option, waiting, t)
      case Tot(_, _) => AfterTot(option, waiting, t)
      case Cat(_, _) => this
    }

    function AfterTables(option: Settings, waiting: bool, tables: seq<Table>, n: nat): Known
      requires n <= |tables|
    {
      if n == 0 then this
      else AfterTables(option, waiting, tables, n - 1).AfterTable(option, waiting, tables[n - 1])
    }

    predicate HasPcr(packet: Packet) {
      pcrPid == Some(packet.pid) && packet.pcr.Some?
    }

    /**
     A PCR is out of range, before the start of the program, past its end, or within it; the event is
     converted afresh.
     */
    function Decide(packet: Packet): Decision {
      if !HasPcr(packet) || event.None? || clockTime.None? then Hold
      else if !ValidPcr(packet.pcr.value) then Bad
      else
        var pcr := packet.pcr.value;
        var base := if clockPcr.Some? then clockPcr.value else pcr;
        if ComparePcr(pcr, PcrAt(base, clockTime.value, event.value.1)) >= 0 then Over
        else if ComparePcr(pcr, PcrAt(base, clockTime.value, event.value.0)) < 0 then Hold
        else Go
    }

    /** The packets of the loaded PMT are not on the current PMT PID. */
    predicate IsStale() {
      loaded.Some? && loaded.value.pid != pmtPid
    }

    /** A packet on the PCR PID that streaming passes on without looking further. */
    predicate Unjudged(packet: Packet) {
      pcrPid == Some(packet.pid) && (packet.pcr.None? || clockTime.None?)
    }

    /** A packet that a waiting filter does not look at, because PATs are passed on. */
    predicate PassesPat(pre: bool, packet: Packet) {
      pre && packet.pid == PID_PAT
    }

    /** How handling the packet ends if the sink takes everything. */
    function Result(pre: bool, streaming: bool, packet: Packet): Outcome {
      if stop then Finish
      else if streaming then
        if Unjudged(packet) then Continue
        else if Decide(packet) == Over then Finish
        else if Decide(packet) == Bad then Abort
        else if packet.pid == pmtPid && IsStale() then Abort
        else Continue
      else if PassesPat(pre, packet) then Continue
      else
        match Decide(packet)
        case Hold => Continue
        case Over => Finish
        case Bad => Abort
        case Go => if IsStale() then Abort else Continue
    }

    /** A clock that is not complete takes the PCR of a packet that is looked at. */
    function Synced(pre: bool, streaming: bool, packet: Packet): Known {
      if stop || !HasPcr(packet) || (!streaming && (event.None? || PassesPat(pre, packet))) then this
      else if clockPcr.Some? && clockTime.Some? then this
      else this.(clockPcr := Some(packet.pcr.value))
    }
  }

  function NothingKnown(option: Settings): Known {
    Known(PID_NULL, None, option.clockPid, Some(option.clockPcr), Some(option.clockTime), None, {}, None, false)
  }

  /** A filter that nothing has been fed to. */
  function AtRest(option: Settings): Run {
    Run(NothingKnown(option), false, [], NO_CYCLE, [], Continue)
  }

  /** The table makes the filter load new PMT packets. */
  predicate Loads(sid: int, t: Table) {
    t.Pmt? && t.valid && t.sid == sid
  }

  /** The packets of a PMT without the excluded streams. */
  function Fresh(option: Settings, t: Table): Cycle
    requires t.Pmt?
  {
    Cycle(t.source, t.streams - ExcludedPids(option, t.streams), t.packets, 0)
  }

  function Given<T>(ready: bool, value: T): Option<T> {
    if ready then Some(value) else None
  }

  function Originals(packets: seq<Packet>): seq<Forwarded> {
    seq(|packets|, i requires 0 <= i < |packets| => Original(packets[i]))
  }

  function CyclePackets(c: Cycle): seq<Forwarded> {
    seq(c.size, i requires 0 <= i => PmtPacket(c.pid, c.streams, i))
  }

  class ProgramFilter {
    const option: Settings
    const sink: Sink<Forwarded>
    var state: State
    var lastPat: seq<Packet>
    var blackList: set<Pid>
    var cycle: Option<Cycle>
    var clockPid: Pid
    var clockPcr: int
    var clockTime: int
    var pmtPid: Pid
    var pcrPid: Pid
    var eventStart: int
    var eventEnd: int
    var startPcr: int
    var endPcr: int
    var pcrPidReady: bool
    var eventTimeReady: bool
    var clockPcrReady: bool
    var clockTimeReady: bool
    var stop: bool
    var retry: bool

    constructor (option: Settings, sink: Sink<Forwarded>)
      requires sink.received == []
      ensures Valid() && this.option == option && this.sink == sink
      ensures !retry && Snapshot() == AtRest(option)
    {
      this.option, this.sink := option, sink;
      state, lastPat, blackList, cycle := Waiting, [], {}, None;
      clockPid, clockPcr, clockTime := option.clockPid, option.clockPcr, option.clockTime;
      pmtPid, pcrPid := PID_NULL, PID_NULL;
      eventStart, eventEnd, startPcr, endPcr := 0, 0, 0, 0;
      pcrPidReady, eventTimeReady, clockPcrReady, clockTimeReady := false, false, true, true;
      stop, retry := false, false;
    }

    /** The cached range is what a fresh conversion of the current event times would give. */
    ghost predicate RangeIsCurrent()
      reads this
    {
      && ValidPcr(startPcr) && ValidPcr(endPcr)
      && (eventTimeReady && clockPcrReady && clockTimeReady ==>
            && ValidPcr(clockPcr)
            && startPcr == PcrAt(clockPcr, clockTime, eventStart)
            && endPcr == PcrAt(clockPcr, clockTime, eventEnd))
    }

    /** After a PMT the clock follows its PCR PID and its packets are loaded. */
    ghost predicate PmtIsLoaded()
      reads this
    {
      && pmtPid != PID_PAT
      && (pcrPidReady ==> clockPid == pcrPid && cycle.Some? && pmtPid != PID_NULL)
      && (cycle.Some? ==> cycle.value.Valid() && (state == Waiting ==> cycle.value.next == 0))
      && (state == Streaming ==> pcrPidReady && eventTimeReady)
    }

    ghost predicate Consistent()
      reads this
    {
      RangeIsCurrent() && PmtIsLoaded()
    }

    /** Nothing but PATs is sent before streaming, and streaming is never retried. */
    ghost predicate Valid()
      reads this, sink
    {
      && Consistent()
      && (state == Waiting && !option.preStreaming && pmtPid != PID_NULL ==> lastPat != [])
      && (forall i :: 0 <= i < |lastPat| ==> lastPat[i].pid == PID_PAT)
      && (state == Waiting ==> AllPats(sink.received))
      && (state == Streaming ==> !retry)
    }

    ghost function Knows(): Known
      reads this
    {
      Known(pmtPid, Given(pcrPidReady, pcrPid), clockPid,
            Given(clockPcrReady, clockPcr), Given(clockTimeReady, clockTime),
            Given(eventTimeReady, (eventStart, eventEnd)), blackList,
            if cycle.Some? then Some(cycle.value.(next := 0)) else None, stop)
    }

    predicate NeedClockSync()
      reads this
    {
      !clockTimeReady || !clockPcrReady
    }

    /** The same conversion as the clock baseline's; aborts if the PCR of the clock is out of range. */
    method ConvertTimeToPcr(t: int) returns (ok: bool, p: int)
      requires clockPcrReady && clockTimeReady
      ensures ok <==> ValidPcr(clockPcr)
      ensures ok ==> p == PcrAt(clockPcr, clockTime, t)
    {
      if !ValidPcr(clockPcr) {
        return false, 0;
      }
      ok := true;
      var ms := t - clockTime;
      p := clockPcr + ms * TICKS_PER_MS;
      while p < 0
        invariant Wrap(p) == PcrAt(clockPcr, clockTime, t)
        decreases -p
      {
        WrapIgnoresPeriods(p, 1);
        p := p + PCR_UPPER_BOUND;
      }
      p := TruncMod(p, PCR_UPPER_BOUND);
    }

    /** Aborts exactly if the PCR of the clock is out of range. */
    method UpdatePcrRange() returns (ok: bool)
      requires eventTimeReady && clockPcrReady && clockTimeReady
      modifies this`startPcr, this`endPcr
      ensures ok <==> !Knows().IsBroken()
      ensures ok ==> RangeIsCurrent()
    {
      var from, to;
      ok, from := ConvertTimeToPcr(eventStart);
      if ok {
        ok, to := ConvertTimeToPcr(eventEnd);
        startPcr, endPcr := from, to;
      }
    }

    method UpdateEventTime(e: Event) returns (ok: bool)
      requires RangeIsCurrent()
      modifies this`eventStart, this`eventEnd, this`eventTimeReady, this`startPcr, this`endPcr
      ensures ok <==> !Knows().IsBroken()
      ensures ok ==> RangeIsCurrent()
      ensures eventTimeReady
      ensures eventStart == e.start - option.startMargin
      ensures eventEnd == e.start + e.duration * 1000 + option.endMargin
    {
      var duration := e.duration * 1000 + option.endMargin;
      eventStart := e.start - option.startMargin;
      eventEnd := e.start + duration;
      eventTimeReady := true;
      ok := true;
      if clockTimeReady && clockPcrReady {
        ok := UpdatePcrRange();
      }
    }

    method UpdateClockPcr(pcr: int) returns (ok: bool)
      requires RangeIsCurrent() && NeedClockSync()
      modifies this`clockPcr, this`clockPcrReady, this`startPcr, this`endPcr
      ensures ok <==> !Knows().IsBroken()
      ensures ok ==> RangeIsCurrent()
      ensures clockPcrReady && clockPcr == pcr
    {
      clockPcr := pcr;
      clockPcrReady := true;
      ok := true;
      if eventTimeReady && clockTimeReady {
        ok := UpdatePcrRange();
      }
    }

    method UpdateClockTime(time: int) returns (ok: bool)
      requires RangeIsCurrent() && !clockTimeReady
      modifies this`clockTime, this`clockTimeReady, this`startPcr, this`endPcr
      ensures ok <==> !Knows().IsBroken()
      ensures ok ==> RangeIsCurrent()
      ensures clockTimeReady && clockTime == time
    {
      clockTime := time;
      clockTimeReady := true;
      ok := true;
      if eventTimeReady && clockPcrReady {
        ok := UpdatePcrRange();
      }
    }

    method HandlePat(t: Table)
      requires t.Pat? && Consistent()
      requires Acceptable(t) ==> option.sid in t.pmts && t.pmts[option.sid] != PID_PAT && t.pmts[option.sid] != PID_NULL
      modifies this`pmtPid
      ensures Consistent() && Knows() == old(Knows()).AfterPat(option, t)
    {
      if Acceptable(t) {
        pmtPid := t.pmts[option.sid];
      }
    }

    /** A PMT sets the PCR PID, the black list and the packets of the PMT without the listed streams. */
    method HandlePmt(t: Table)
      requires t.Pmt? && Consistent() && t.source == pmtPid && pmtPid != PID_NULL
      modifies this`pcrPid, this`pcrPidReady, this`clockPid, this`clockPcrReady, this`clockTimeReady
      modifies this`blackList, this`cycle
      ensures Consistent() && Knows() == old(Knows()).AfterPmt(option, t)
      ensures cycle == if Loads(option.sid, t) then Some(Fresh(option, t)) else old(cycle)
    {
      if !t.valid || t.sid != option.sid {
        return;
      }
      pcrPid := t.pcrPid;
      pcrPidReady := true;
      if clockPid != pcrPid {
        clockPid := pcrPid;
        clockPcrReady := false;
        clockTimeReady := false;
      }
      blackList := ExcludedPids(option, t.streams);
      cycle := Some(Cycle(t.source, t.streams - blackList, t.packets, 0));
    }

    /** The event is looked for among the present and the following one; without it we may give up. */
    method HandleEit(t: Table) returns (ok: bool)
      requires t.Eit? && Consistent()
      modifies this`eventStart, this`eventEnd, this`eventTimeReady, this`startPcr, this`endPcr, this`stop
      ensures ok <==> !Knows().IsBroken()
      ensures ok ==> Consistent()
      ensures Knows() == old(Knows()).AfterEit(option, state == Waiting, t)
    {
      ok := true;
      if !t.valid || t.sid != option.sid {
        return;
      }
      if t.events == [] {
        stop := true;
        return;
      }
      if t.events[0].id == option.eid {
        ok := UpdateEventTime(t.events[0]);
        return;
      }
      if |t.events| < 2 {
        if state == Streaming {
          return;
        }
        stop := true;
        return;
      }
      if t.events[1].id == option.eid {
        ok := UpdateEventTime(t.events[1]);
        return;
      }
      if state == Streaming {
        return;
      }
      if option.waitUntil.None? {
        stop := true;
      }
    }

    method HandleTot(t: Table) returns (ok: bool)
      requires t.Tot? && Consistent()
      modifies this`clockTime, this`clockTimeReady, this`startPcr, this`endPcr, this`stop
      ensures ok <==> !Knows().IsBroken()
      ensures ok ==> Consistent()
      ensures Knows() == old(Knows()).AfterTot(option, state == Waiting, t)
    {
      ok := true;
      if !t.valid {
        return;
      }
      if state == Waiting {
        if option.waitUntil.Some? && t.time > option.waitUntil.value {
          stop := true;
        }
      }
      if clockTimeReady {
        return;
      }
      ok := UpdateClockTime(t.time);
    }

    /** The tables of a packet, one after the other, until one of them aborts the process. */
    method HandleTables(packet: Packet, tables: seq<Table>) returns (ok: bool)
      requires Consistent()
      requires forall i :: 0 <= i < |tables| ==> Fed(option.sid, pmtPid, packet, tables[i])
      modifies this
      ensures ok ==> Consistent() && (pmtPid == old(pmtPid) || packet.pid == PID_PAT)
      ensures state == old(state) && retry == old(retry) && lastPat == old(lastPat)
      ensures Snapshot().(outcome := if ok then Continue else Abort) == old(Snapshot()).Heard(option, tables, |tables|)
    {
      ok := true;
      for i := 0 to |tables|
        invariant ok && (Consistent() <==> true) && (pmtPid == old(pmtPid) || packet.pid == PID_PAT)
        invariant state == old(state) && retry == old(retry) && lastPat == old(lastPat)
        invariant Snapshot() == old(Snapshot()).Heard(option, tables, i)
      {
        assert Fed(option.sid, old(pmtPid), packet, tables[i]);
        ghost var before := Snapshot();
        ok := HandleTable(packet, tables[i]);
        assert Snapshot().(outcome := if ok then Continue else Abort) == before.HeardTable(option, tables[i]);
        if !ok {
          old(Snapshot()).HeardStays(option, tables, i + 1, |tables|);
          return;
        }
      }
    }

    method HandleTable(packet: Packet, t: Table) returns (ok: bool)
      requires Consistent()
      requires PatFed(option.sid, packet, t)
      requires t.Pmt? ==> t.source == pmtPid && pmtPid != PID_NULL
      modifies this
      ensures ok <==> !Knows().IsBroken()
      ensures ok ==> Consistent()
      ensures state == old(state) && retry == old(retry) && lastPat == old(lastPat)
      ensures pmtPid == if t.Pat? && Acceptable(t) then t.pmts[option.sid] else old(pmtPid)
      ensures Knows() == old(Knows()).AfterTable(option, state == Waiting, t)
      ensures cycle == if Loads(option.sid, t) then Some(Fresh(option, t)) else old(cycle)
    {
      ok := true;
      match t {
        case Pat(_, _, _, _, _) => HandlePat(t);
        case Pmt(_, _, _, _, _, _, _, _) => HandlePmt(t);
        case Eit(_, _, _) => ok := HandleEit(t);
        case Tot(_, _) => ok := HandleTot(t);
        case Cat(_, _) =>
      }
    }

    method SendPats() returns (ok: bool)
      requires !option.preStreaming ==> lastPat != []
      modifies this`lastPat, sink
      ensures sink.accepting ==> ok
      ensures ok && !option.preStreaming ==> lastPat == []
      ensures option.preStreaming ==> lastPat == old(lastPat)
      ensures !ok ==> lastPat != [] && !option.preStreaming
      ensures ok ==> sink.received == old(sink.received) + if option.preStreaming then [] else Originals(old(lastPat))
      ensures !ok ==> sink.received <= old(sink.received) + Originals(old(lastPat))
    {
      ok := true;
      if option.preStreaming {
        return;
      }
      assert lastPat != [];
      var i := 0;
      while i < |lastPat|
        invariant 0 <= i <= |lastPat| && lastPat == old(lastPat)
        invariant sink.received == old(sink.received) + Originals(lastPat)[..i]
      {
        ok := sink.HandlePacket(Original(lastPat[i]));
        if !ok {
          return;
        }
        i := i + 1;
      }
      lastPat := [];
    }

    /** Sends one full cycle of PMT packets, unless the PMT PID has changed since they were loaded. */
    method SendPmtCycle() returns (o: Outcome)
      requires cycle.Some? && cycle.value.Valid() && cycle.value.next == 0
      modifies this`cycle, sink
      ensures o == Abort <==> old(cycle).value.pid != pmtPid
      ensures cycle.Some? && cycle.value.pid == old(cycle).value.pid
      ensures sink.accepting ==> o != Finish
      ensures o == Continue ==> cycle == old(cycle)
      ensures o == Abort ==> sink.received == old(sink.received) && cycle == Some(old(cycle).value.Advance())
      ensures o == Continue ==> sink.received == old(sink.received) + CyclePackets(old(cycle).value)
      ensures o == Finish ==> sink.received <= old(sink.received) + CyclePackets(old(cycle).value)
    {
      var sent := 0;
      while true
        invariant cycle.Some? && cycle.value == old(cycle).value.(next := sent) && 0 <= sent < cycle.value.size
        invariant sent > 0 ==> old(cycle).value.pid == pmtPid
        invariant sink.received == old(sink.received) + CyclePackets(old(cycle).value)[..sent]
        decreases cycle.value.size - sent
      {
        var packet := cycle.value.Packet();
        cycle := Some(cycle.value.Advance());
        if packet.pid != pmtPid {
          return Abort;
        }
        var ok := sink.HandlePacket(packet);
        if !ok {
          return Finish;
        }
        sent := sent + 1;
        if cycle.value.next == 0 {
          return Continue;
        }
      }
    }

    /** The saved PAT, a full PMT cycle, and the packet that starts the program. */
    method Begin(packet: Packet) returns (o: Outcome)
      requires PmtIsLoaded() && pcrPidReady && eventTimeReady && state == Waiting
      requires !option.preStreaming ==> lastPat != []
      modifies this`lastPat, this`cycle, this`state, sink
      ensures o == Continue ==> PmtIsLoaded()
      ensures o == Abort <==> old(Knows()).IsStale() && (option.preStreaming || lastPat == [])
      ensures sink.accepting ==> o != Finish
      ensures o == Continue || sink.accepting ==>
                Snapshot().(outcome := o) == old(Snapshot()).Opened(option.preStreaming, packet)
      ensures sink.received <= old(Snapshot()).Opened(option.preStreaming, packet).sent
      ensures state == Streaming ==> !old(Knows()).IsStale()
    {
      var ok := SendPats();
      if !ok {
        return Finish;
      }
      o := SendPmtCycle();
      if o != Continue {
        return;
      }
      state := Streaming;
      ok := sink.HandlePacket(Original(packet));
      o := if ok then Continue else Finish;
    }

    /** Keeps the packets of the latest PAT. */
    method SavePat(packet: Packet)
      modifies this`lastPat
      ensures lastPat == Saved(old(lastPat), packet)
    {
      if packet.pid == PID_PAT {
        if packet.pusi {
          lastPat := [];
        }
        lastPat := lastPat + [packet];
      }
    }

    /** Catches the clock up with a PCR if it needs to; says whether the clock can be used. */
    method SyncClock(pcr: int) returns (ok: bool, synced: bool)
      requires Consistent()
      modifies this`clockPcr, this`clockPcrReady, this`startPcr, this`endPcr
      ensures ok <==> !Knows().IsBroken()
      ensures ok ==> Consistent()
      ensures synced == !NeedClockSync() == old(clockTimeReady)
      ensures Knows() == if old(NeedClockSync()) then old(Knows()).(clockPcr := Some(pcr)) else old(Knows())
    {
      ok := true;
      if NeedClockSync() {
        ok := UpdateClockPcr(pcr);
      }
      synced := !NeedClockSync();
    }

    /**
     Judges a PCR while waiting. Without a time for the clock nothing can be said; otherwise the PCR is
     out of range, the program is over, not started yet, or begins with this packet.
     */
    method Judge(packet: Packet) returns (o: Outcome)
      requires Consistent() && state == Waiting && !stop && Knows().HasPcr(packet) && eventTimeReady
      requires !Knows().PassesPat(option.preStreaming, packet)
      requires !option.preStreaming ==> lastPat != []
      modifies this`clockPcr, this`clockPcrReady, this`startPcr, this`endPcr, this`lastPat, this`cycle, this`state, sink
      ensures o == Continue ==> Consistent()
      ensures o == Continue || sink.accepting ==>
                Snapshot().(outcome := o) == old(Snapshot()).Judged(option.preStreaming, packet)
      ensures sink.received <= old(Snapshot()).Judged(option.preStreaming, packet).sent
      ensures o == Abort <==>
              old(Knows()).Result(option.preStreaming, false, packet) == Abort
              && (option.preStreaming || lastPat == [] || old(Knows()).Decide(packet) == Bad)
      ensures state == Streaming ==> old(Knows()).Decide(packet) == Go && !old(Knows()).IsStale()
    {
      var pcr := packet.pcr.value;
      var ok, synced := SyncClock(pcr);
      if !ok {
        return Abort;
      }
      if !synced {
        return Continue;
      }
      if !ValidPcr(pcr) {
        return Abort;
      }
      if ComparePcr(pcr, endPcr) >= 0 {
        return Finish;
      }
      if ComparePcr(pcr, startPcr) < 0 {
        return Continue;
      }
      o := Begin(packet);
    }

    /** Before the start: PAT packets are kept or passed on, everything else is dropped. */
    method WaitReady(packet: Packet) returns (o: Outcome)
      requires Consistent() && state == Waiting && !retry
      requires !option.preStreaming && pmtPid != PID_NULL && packet.pid != PID_PAT ==> lastPat != []
      modifies this, sink
      ensures o == Continue ==> Consistent()
      ensures retry == old(stop) && stop == old(stop) && pmtPid == old(pmtPid)
      ensures retry ==> o == Finish && state == Waiting && sink.received == old(sink.received)
      ensures o == Continue || sink.accepting ==>
                Snapshot().(outcome := o) == old(Snapshot()).Step(option.preStreaming, packet)
      ensures sink.received <= old(Snapshot()).Step(option.preStreaming, packet).sent
      ensures o == Abort <==>
              old(Knows()).Result(option.preStreaming, false, packet) == Abort
              && (option.preStreaming || lastPat == [] || old(Knows()).Decide(packet) == Bad)
      ensures state == Streaming ==> old(Snapshot()).Step(option.preStreaming, packet).streaming
    {
      if stop {
        retry := true;
        return Finish;
      }
      if packet.pid == PID_PAT && option.preStreaming {
        var ok := sink.HandlePacket(Original(packet));
        return if ok then Continue else Finish;
      }
      o := Watch(packet);
    }

    /** Looks for a PCR while waiting. */
    method Watch(packet: Packet) returns (o: Outcome)
      requires Consistent() && state == Waiting && !stop && !Knows().PassesPat(option.preStreaming, packet)
      requires !option.preStreaming && pmtPid != PID_NULL && packet.pid != PID_PAT ==> lastPat != []
      modifies this`clockPcr, this`clockPcrReady, this`startPcr, this`endPcr, this`lastPat, this`cycle, this`state, sink
      ensures o == Continue ==> Consistent()
      ensures o == Continue || sink.accepting ==>
                Snapshot().(outcome := o) == old(Snapshot()).Step(option.preStreaming, packet)
      ensures sink.received <= old(Snapshot()).Step(option.preStreaming, packet).sent
      ensures o == Abort <==>
              old(Knows()).Result(option.preStreaming, false, packet) == Abort
              && (option.preStreaming || lastPat == [] || old(Knows()).Decide(packet) == Bad)
      ensures state == Streaming ==> old(Snapshot()).Step(option.preStreaming, packet).streaming
    {
      if !option.preStreaming {
        SavePat(packet);
      }
      if !pcrPidReady || !eventTimeReady {
        return Continue;
      }
      if packet.pid != pcrPid {
        return Continue;
      }
      if packet.pcr.None? {
        return Continue;
      }
      o := Judge(packet);
    }

    method Forward(f: Forwarded) returns (o: Outcome)
      modifies sink
      ensures o != Abort && sink.received == old(sink.received) + [f]
      ensures sink.accepting ==> o == Continue
    {
      var ok := sink.HandlePacket(f);
      o := if ok then Continue else Finish;
    }

    /** A PCR within the program: it is held until the clock has a time, is over, or goes on. */
    method CheckEnd(packet: Packet) returns (verdict: Decision)
      requires Consistent() && eventTimeReady && !stop && Knows().HasPcr(packet)
      modifies this`clockPcr, this`clockPcrReady, this`startPcr, this`endPcr
      ensures verdict != Bad ==> Consistent()
      ensures Knows() == old(Knows()).Synced(option.preStreaming, true, packet)
      ensures
        var d := old(Knows()).Decide(packet);
        verdict == if !old(clockTimeReady) then Hold else if d == Bad || d == Over then d else Go
    {
      var ok, synced := SyncClock(packet.pcr.value);
      if !ok {
        return Bad;
      }
      if !synced {
        return Hold;
      }
      if !ValidPcr(packet.pcr.value) {
        return Bad;
      }
      return if ComparePcr(packet.pcr.value, endPcr) >= 0 then Over else Go;
    }

    /** Within the program: PMT packets are replaced and black-listed streams dropped. */
    method DoStreaming(packet: Packet) returns (o: Outcome)
      requires Consistent() && state == Streaming && !retry
      modifies this, sink
      ensures o != Abort ==> Consistent()
      ensures state == Streaming && !retry
      ensures stop == old(stop) && lastPat == old(lastPat) && pmtPid == old(pmtPid)
      ensures Snapshot() == old(Snapshot()).Step(option.preStreaming, packet).(outcome := Continue)
      ensures o == Continue || sink.accepting ==> o == old(Knows()).Result(option.preStreaming, true, packet)
      ensures o == Abort <==> old(Knows()).Result(option.preStreaming, true, packet) == Abort
    {
      if stop {
        return Finish;
      }
      if packet.pid == pcrPid {
        if packet.pcr.None? {
          o := Forward(Original(packet));
          return;
        }
        var verdict := CheckEnd(packet);
        match verdict {
          case Bad =>
            return Abort;
          case Hold =>
            o := Forward(Original(packet));
            return;
          case Over =>
            return Finish;
          case Go =>
        }
      }
      o := Relay(packet);
    }

    /** PMT packets are replaced by those that are loaded, and black-listed streams dropped. */
    method Relay(packet: Packet) returns (o: Outcome)
      requires PmtIsLoaded() && state == Streaming
      modifies this`cycle, sink
      ensures PmtIsLoaded()
      ensures Snapshot() == old(Snapshot()).Relayed(packet)
      ensures o == Abort <==> packet.pid == pmtPid && old(Knows()).IsStale()
      ensures sink.accepting ==> o != Finish
    {
      if packet.pid == pmtPid {
        var pmtPacket := cycle.value.Packet();
        cycle := Some(cycle.value.Advance());
        if pmtPacket.pid != pmtPid {
          return Abort;
        }
        o := Forward(pmtPacket);
        return;
      }
      if packet.pid in blackList {
        return Continue;
      }
      o := Forward(Original(packet));
    }

    /** The tables are heard first; then what is known decides. */
    method HandlePacket(packet: Packet, tables: seq<Table>) returns (o: Outcome)
      requires Valid() && !retry
      requires forall i :: 0 <= i < |tables| ==> Fed(option.sid, pmtPid, packet, tables[i])
      modifies this, sink
      ensures o == Continue ==> Valid() && !retry
      ensures retry ==> o == Finish && state == Waiting && AllPats(sink.received)
      ensures state == Waiting && sink.accepting ==> AllPats(sink.received)
      ensures
        var heard := old(Snapshot()).Heard(option, tables, |tables|);
        var next := heard.Step(option.preStreaming, packet);
        && (o == Continue || sink.accepting ==> Snapshot().(outcome := o) == next)
        && sink.received <= next.sent
        && (old(state) == Streaming ==> state == Streaming) && (state == Streaming ==> next.streaming)
        && (retry <==> heard.outcome == Continue && heard.known.stop && !heard.streaming)
        && (o == Abort ==> next.outcome == Abort)
        && (o == Abort <==>
              || heard.outcome == Abort
              || (heard.known.Result(option.preStreaming, heard.streaming, packet) == Abort
                  && (heard.streaming || option.preStreaming || lastPat == [] || heard.known.Decide(packet) == Bad)))
    {
      var ok := HandleTables(packet, tables);
      if !ok {
        return Abort;
      }
      ghost var heard := Snapshot();
      match state {
        case Waiting => o := WaitReady(packet);
        case Streaming => o := DoStreaming(packet);
      }
      heard.StepKeeps(option.preStreaming, packet);
    }

    function GetExitCode(sinkCode: int): int
      reads this
    {
      if retry then EXIT_RETRY else sinkCode
    }

    ghost function Snapshot(): Run
      reads this, sink
    {
      Run(Knows(), state == Streaming, lastPat, if cycle.Some? then cycle.value else NO_CYCLE, sink.received, Continue)
    }
  }

  /** A filter whose sink takes everything: also what it holds and what it has sent. */
  datatype Run = Run(
    known: Known, streaming: bool, lastPat: seq<Packet>, cycle: Cycle, sent: seq<Forwarded>, outcome: Outcome)
  {
    /** A table has been heard: a PMT may bring new packets, and a clock that cannot be used aborts. */
    function HeardTable(option: Settings, t: Table): Run {
      if outcome != Continue then this
      else
        var k := known.AfterTable(option, !streaming, t);
        this.(known := k, cycle := if Loads(option.sid, t) then Fresh(option, t) else cycle,
              outcome := if k.IsBroken() then Abort else Continue)
    }

    function Heard(option: Settings, tables: seq<Table>, n: nat): Run
      requires n <= |tables|
    {
      if n == 0 then this else Heard(option, tables, n - 1).HeardTable(option, tables[n - 1])
    }

    lemma {:induction false} HeardStays(option: Settings, tables: seq<Table>, n: nat, m: nat)
      requires n <= m <= |tables| && Heard(option, tables, n).outcome != Continue
      ensures Heard(option, tables, m) == Heard(option, tables, n)
    {
      if n < m {
        HeardStays(option, tables, n, m - 1);
      }
    }

    /** Tables and packet of an input have been handled. */
    function Handled(option: Settings, input: Input): Run {
      Heard(option, input.tables, |input.tables|).Step(option.preStreaming, input.packet)
    }

    /** A packet within the program has been passed on, replaced or dropped. */
    function Relayed(packet: Packet): Run {
      if packet.pid == known.pmtPid then
        this.(cycle := cycle.Advance(), sent := sent + if known.IsStale() then [] else [cycle.Packet()])
      else if packet.pid in known.blackList then this
      else this.(sent := sent + [Original(packet)])
    }

    /** A packet has been handled while streaming. */
    function Streamed(pre: bool, packet: Packet): Run
    {
      var next := this.(known := known.Synced(pre, true, packet), outcome := known.Result(pre, true, packet));
      if known.Unjudged(packet) then next.(sent := sent + [Original(packet)])
      else if known.Decide(packet) == Over || known.Decide(packet) == Bad then next
      else next.Relayed(packet)
    }

    /** The program has begun with the packet, or the process has aborted on the PMT packets. */
    function Opened(pre: bool, packet: Packet): Run {
      var opening := sent + if pre then [] else Originals(lastPat);
      var kept := if pre then lastPat else [];
      if known.IsStale() then
        this.(lastPat := kept, cycle := cycle.Advance(), sent := opening, outcome := Abort)
      else
        this.(streaming := true, lastPat := kept, sent := opening + CyclePackets(cycle) + [Original(packet)])
    }

    /** A packet has been judged while waiting. */
    function Judged(pre: bool, packet: Packet): Run
    {
      var next := this.(known := known.Synced(pre, false, packet));
      if known.Decide(packet) == Go then next.Opened(pre, packet)
      else next.(outcome := known.Result(pre, false, packet))
    }

    function Step(pre: bool, packet: Packet): Run
    {
      if outcome != Continue then this
      else if known.stop then this.(outcome := Finish)
      else if streaming then Streamed(pre, packet)
      else if known.PassesPat(pre, packet) then this.(sent := sent + [Original(packet)])
      else this.(lastPat := if pre then lastPat else Saved(lastPat, packet)).Judged(pre, packet)
    }

    /** A black-listed packet gets through exactly when it has the PCR PID but is not used as a PCR. */
    lemma LeaksIff(pre: bool, packet: Packet)
      requires streaming && outcome == Continue && packet.pid in known.blackList && packet.pid != known.pmtPid
      ensures Step(pre, packet).sent ==
              if !known.stop && known.Unjudged(packet) then sent + [Original(packet)] else sent
    {
    }

    /** One packet: what it decides, and that a waiting filter keeps and sends nothing but PATs. */
    lemma StepKeeps(pre: bool, packet: Packet)
      requires outcome == Continue
      ensures
        var next := Step(pre, packet);
        && next.outcome == known.Result(pre, streaming, packet)
        && (next.outcome != Continue ==> next.streaming == streaming)
        && (!streaming && next.outcome == Continue ==>
              if next.streaming then next.lastPat == [] || next.lastPat == lastPat
              else next.lastPat == if pre then lastPat else Saved(lastPat, packet))
        && (!next.streaming && AllPats(sent) && (forall i :: 0 <= i < |lastPat| ==> lastPat[i].pid == PID_PAT) ==>
              AllPats(next.sent))
    {
    }
  }

  /** Before the start of the program, after its end, within it, or a PCR that is out of range. */
  datatype Decision = Hold | Over | Go | Bad

  function Saved(lastPat: seq<Packet>, packet: Packet): seq<Packet> {
    if packet.pid != PID_PAT then lastPat
    else if packet.pusi then [packet]
    else lastPat + [packet]
  }
}
