/**
 The start seeker: holds packets back until the streams of the service change, or a limit on packets
 or duration is reached, and then starts streaming from there.
 */
module StartSeeking {
  import opened Tables
  import opened Pcr
  import opened Sinks

  datatype State = Seeking | Streaming

  /** Where streaming starts when the content changes: a PAT packet, and the first PMT packet. */
  datatype Cut = Cut(pat: nat, transition: nat)

  /** All of the input, or the PAT packet and the input from the transition on. */
  ghost function Expected(input: seq<Packet>, cut: Option<Cut>): seq<Packet>
    requires cut.Some? ==> cut.value.pat < |input| && cut.value.transition <= |input|
  {
    match cut
    case None => input
    case Some(c) => [input[c.pat]] + input[c.transition..]
  }

  /** As much of `all` as was sent before a sink refused; what it answers to the first `from` is ignored. */
  ghost predicate Flushed(sent: seq<Packet>, answers: seq<bool>, all: seq<Packet>, from: nat) {
    && |answers| == |sent| && sent <= all
    && (forall i :: from <= i < |answers| - 1 ==> answers[i])
    && (|sent| < |all| ==> from < |sent| && !answers[|sent| - 1])
  }

  /**
   What the tables have said: where the PAT and the transition are, which streams there are, which PIDs
   the demultiplexer watches, and whether the process has aborted on a PAT without the service.
   */
  datatype Heard = Heard(
    pat: nat, transition: nat, pmtPid: Pid, pcrPid: Pid, video: set<Pid>, audio: set<Pid>, demux: set<Pid>, lost: bool)
  {
    /** A PMT with other video or other audio streams than before, of which there were some. */
    predicate Changes(t: Table)
      requires t.Pmt?
    {
      (video != {} && video != StreamPids(t, Video)) || (audio != {} && audio != StreamPids(t, Audio))
    }

    /** A PAT sets the PMT PID, unless it does not list the service, which aborts. */
    function AfterPat(sid: int, t: Table): Heard
      requires t.Pat?
    {
      if !Acceptable(t) then this
      else if sid !in t.pmts then this.(lost := true)
      else
        var others := if pmtPid != PID_NULL then demux - {pmtPid} else demux;
        this.(pat := t.first, pmtPid := t.pmts[sid], demux := others + {t.pmts[sid]})
    }

    /** A transition also stops watching PAT and PMT. */
    function AfterPmt(sid: int, t: Table): Heard
      requires t.Pmt?
    {
      if !t.valid || t.sid != sid then this
      else
        var next := this.(pcrPid := t.pcrPid, video := StreamPids(t, Video), audio := StreamPids(t, Audio));
        if Changes(t) then next.(transition := t.first, pmtPid := PID_NULL, demux := demux - {pmtPid} - {PID_PAT})
        else next
    }

    /** Tables are heard on the watched PIDs, and none after the process has aborted. */
    function AfterTable(sid: int, t: Table): Heard {
      if lost then this
      else if t.Pat? && t.source in demux then AfterPat(sid, t)
      else if t.Pmt? && t.source in demux then AfterPmt(sid, t)
      else this
    }

    function AfterTables(sid: int, tables: seq<Table>, n: nat): Heard
      requires n <= |tables|
    {
      if n == 0 then this else AfterTables(sid, tables, n - 1).AfterTable(sid, tables[n - 1])
    }

    lemma {:induction false} LostStays(sid: int, tables: seq<Table>, n: nat, m: nat)
      requires n <= m <= |tables| && AfterTables(sid, tables, n).lost
      ensures AfterTables(sid, tables, m) == AfterTables(sid, tables, n)
    {
      if n < m {
        LostStays(sid, tables, n, m - 1);
      }
    }

    /** Once the PAT is not watched any more, nothing can abort on it. */
    lemma {:induction false} DeafStays(sid: int, tables: seq<Table>, n: nat)
      requires n <= |tables| && PID_PAT !in demux && !lost
      ensures PID_PAT !in AfterTables(sid, tables, n).demux && !AfterTables(sid, tables, n).lost
    {
      if n > 0 {
        DeafStays(sid, tables, n - 1);
      }
    }

    lemma {:induction false} TransitionIsDeaf(sid: int, tables: seq<Table>, n: nat)
      requires n <= |tables| && (transition > 0 ==> PID_PAT !in demux)
      ensures AfterTables(sid, tables, n).transition > 0 ==> PID_PAT !in AfterTables(sid, tables, n).demux
    {
      if n > 0 {
        TransitionIsDeaf(sid, tables, n - 1);
      }
    }
  }

  /** Nothing but the PAT is watched at first. */
  const NOTHING_HEARD: Heard := Heard(0, 0, PID_NULL, PID_NULL, {}, {}, {PID_PAT}, false)

  function StreamPids(t: Table, kind: Kind): set<Pid>
    requires t.Pmt?
  {
    set p | p in t.streams && t.streams[p].kind == kind
  }

  predicate HasPcr(pcrPid: Pid, packet: Packet) {
    packet.pid == pcrPid != PID_NULL && packet.pcr.Some?
  }

  /** The PCR of the packet is compared with the end PCR, if there is one, and has reached it. */
  predicate ReachesEnd(pcrPid: Pid, endPcr: int, packet: Packet)
    requires endPcr <= MAX_PCR
  {
    HasPcr(pcrPid, packet) && endPcr >= 0 && ValidPcr(packet.pcr.value) && ComparePcr(packet.pcr.value, endPcr) >= 0
  }

  /** The PCR of the packet is compared with the end PCR, and is out of range. */
  predicate IsBad(pcrPid: Pid, endPcr: int, packet: Packet) {
    HasPcr(pcrPid, packet) && endPcr >= 0 && !ValidPcr(packet.pcr.value)
  }

  /** One past the largest unsigned number of 64 bits. */
  const WORD: int := 0x1_0000_0000_0000_0000

  /** The PCR one duration later, in unsigned arithmetic: a sum below zero wraps around first. */
  function LaterPcr(pcr: int, maxDuration: int): (later: int)
    ensures ValidPcr(later)
    ensures 0 <= pcr + maxDuration * TICKS_PER_MS < WORD ==> later == PcrAt(pcr, 0, maxDuration)
  {
    (pcr + maxDuration * TICKS_PER_MS) % WORD % PCR_UPPER_BOUND
  }

  /** The first PCR, whatever it is, sets the end PCR. */
  function NextEndPcr(maxDuration: int, pcrPid: Pid, endPcr: int, packet: Packet): (next: int)
    requires endPcr <= MAX_PCR
    ensures next <= MAX_PCR
  {
    if HasPcr(pcrPid, packet) && endPcr < 0 then LaterPcr(packet.pcr.value, maxDuration) else endPcr
  }

  class StartSeeker {
    const sid: int
    const maxDuration: int
    const maxPackets: nat
    const sink: Sink<Packet>
    var state: State
    var packets: seq<Packet>
    var pmtPid: Pid
    var pcrPid: Pid
    var videoPids: set<Pid>
    var audioPids: set<Pid>
    var endPcr: int
    var transitionIndex: nat
    var patIndex: nat

    var demux: set<Pid>

    /** Every packet so far, and where the output was cut, if it was. */
    ghost var input: seq<Packet>
    ghost var cut: Option<Cut>
    /** How many packets there were when streaming began, and how much was sent of them then. */
    ghost var begun: nat
    ghost var flushed: nat
    /** The process has aborted on a PAT. */
    ghost var lost: bool

    constructor (sid: int, maxDuration: int, maxPackets: nat, sink: Sink<Packet>)
      requires sink.received == [] && sink.answers == []
      ensures Valid() && input == [] && this.sink == sink && this.maxPackets == maxPackets && this.sid == sid
      ensures Hears() == NOTHING_HEARD && state == Seeking && cut == None && endPcr == -1
      ensures this.maxDuration == maxDuration
    {
      this.sid, this.maxDuration, this.maxPackets, this.sink := sid, maxDuration, maxPackets, sink;
      state, packets, pmtPid, pcrPid := Seeking, [], PID_NULL, PID_NULL;
      videoPids, audioPids, endPcr, transitionIndex, patIndex := {}, {}, -1, 0, 0;
      demux := {PID_PAT};
      input, cut, begun, flushed, lost := [], None, 0, 0, false;
    }

    /** While seeking, everything is held back; afterwards, the sink has what it should. */
    ghost predicate Valid()
      reads this, sink
    {
      && endPcr <= MAX_PCR && !lost
      && match state
         case Seeking =>
           && packets == input && sink.received == [] && sink.answers == [] && cut.None? && transitionIndex == 0
           && (patIndex == 0 || patIndex < |packets|)
           && (maxPackets != 0 ==> |packets| < maxPackets)
         case Streaming =>
           packets == [] && HasSent()
    }

    /** What was held when streaming began, up to a refusal, and then every packet. */
    ghost predicate HasSent()
      reads this, sink
    {
      && begun <= |input| && (cut.Some? ==> cut.value.pat < begun && 0 < cut.value.transition < begun)
      && Delivered(sink.received, sink.answers, input, cut, begun, flushed)
      && (sink.accepting ==> flushed == |Expected(input[..begun], cut)|)
    }

    ghost function Hears(): Heard
      reads this
    {
      Heard(patIndex, transitionIndex, pmtPid, pcrPid, videoPids, audioPids, demux, lost)
    }

    /** Aborts on a PAT that does not list the service. */
    method HandlePat(t: Table) returns (ok: bool)
      requires t.Pat? && !lost
      modifies this`pmtPid, this`patIndex, this`demux, this`lost
      ensures Hears() == old(Hears()).AfterPat(sid, t) && ok == !lost
    {
      ok := true;
      if !Acceptable(t) {
        return;
      }
      if sid !in t.pmts {
        lost := true;
        return false;
      }
      if pmtPid != PID_NULL {
        demux := demux - {pmtPid};
        pmtPid := PID_NULL;
      }
      pmtPid := t.pmts[sid];
      demux := demux + {pmtPid};
      patIndex := t.first;
    }

    /** The transition is where the first PMT with other video or other audio streams begins. */
    method HandlePmt(t: Table)
      requires t.Pmt?
      modifies this`pcrPid, this`videoPids, this`audioPids, this`transitionIndex, this`pmtPid, this`demux
      ensures Hears() == old(Hears()).AfterPmt(sid, t)
    {
      if !t.valid || t.sid != sid {
        return;
      }
      pcrPid := t.pcrPid;
      var video, audio := StreamPids(t, Video), StreamPids(t, Audio);
      var changed := false;
      if videoPids != {} && videoPids != video {
        changed := true;
      }
      if audioPids != {} && audioPids != audio {
        changed := true;
      }
      videoPids := video;
      audioPids := audio;
      if changed {
        transitionIndex := t.first;
        demux := demux - {pmtPid};
        demux := demux - {PID_PAT};
        pmtPid := PID_NULL;
      }
    }

    /**
     Tables on watched PIDs, up to one that aborts. They began in a packet up to the one being fed, whose
     index is `index`.
     */
    method HandleTables(tables: seq<Table>, ghost index: nat) returns (ok: bool)
      requires !lost && forall i :: 0 <= i < |tables| ==> Fed(tables[i], index)
      modifies this`pmtPid, this`patIndex, this`pcrPid, this`videoPids, this`audioPids, this`transitionIndex
      modifies this`demux, this`lost
      ensures Hears() == old(Hears()).AfterTables(sid, tables, |tables|) && ok == !lost
      ensures old(patIndex) <= index && old(transitionIndex) <= index ==> patIndex <= index && transitionIndex <= index
    {
      ok := true;
      for i := 0 to |tables|
        invariant Hears() == old(Hears()).AfterTables(sid, tables, i) && ok && !lost
        invariant old(patIndex) <= index && old(transitionIndex) <= index ==>
            patIndex <= index && transitionIndex <= index
      {
        assert Fed(tables[i], index);
        ok := HandleTable(tables[i]);
        if !ok {
          old(Hears()).LostStays(sid, tables, i + 1, |tables|);
          return;
        }
      }
    }

    /** The demultiplexer delivers tables of the watched PIDs only. */
    method HandleTable(t: Table) returns (ok: bool)
      requires !lost
      modifies this`pmtPid, this`patIndex, this`pcrPid, this`videoPids, this`audioPids, this`transitionIndex
      modifies this`demux, this`lost
      ensures Hears() == old(Hears()).AfterTable(sid, t) && ok == !lost
    {
      ok := true;
      match t {
        case Pat(source, _, _, _, _) =>
          if source in demux {
            ok := HandlePat(t);
          }
        case Pmt(source, _, _, _, _, _, _, _) =>
          if source in demux {
            HandlePmt(t);
          }
        case _ =>
      }
    }

    /** Sends the held packets from `index` on, until the sink refuses one, and forgets them all. */
    method SendPackets(index: nat) returns (ok: bool)
      requires index <= |packets| && |sink.answers| == |sink.received|
      modifies this`packets, sink
      ensures packets == []
      ensures
        var n := |old(sink.received)|;
        && n <= |sink.received| == |sink.answers|
        && sink.received[..n] == old(sink.received) && sink.answers[..n] == old(sink.answers)
        && Flushed(sink.received[n..], sink.answers[n..], old(packets)[index..], 0)
      ensures sink.accepting ==> ok && |sink.received| == |old(sink.received)| + |old(packets)| - index
    {
      ok := true;
      var i := index;
      ghost var n := |sink.received|;
      while ok && i < |packets|
        invariant index <= i <= |packets| && packets == old(packets)
        invariant |sink.answers| == |sink.received| == n + i - index
        invariant sink.received == old(sink.received) + packets[index..i]
        invariant sink.answers[..n] == old(sink.answers)
        invariant forall j :: n <= j < |sink.answers| - 1 ==> sink.answers[j]
        invariant i > index ==> sink.answers[|sink.answers| - 1] == ok
        invariant i == index ==> ok
        invariant sink.accepting ==> ok
      {
        ok := sink.HandlePacket(packets[i]);
        i := i + 1;
      }
      assert sink.received[n..] == packets[index..i] == packets[index..][..i - index];
      packets := [];
    }

    /** Everything held is sent, and streaming begins. */
    method StartAll()
      requires packets == input && sink.received == [] && sink.answers == [] && cut.None?
      modifies this`packets, this`state, this`begun, this`flushed, sink
      ensures state == Streaming && packets == [] && HasSent() && begun == |input|
    {
      var sent := SendPackets(0);
      state := Streaming;
      begun, flushed := |input|, |sink.received|;
      assert input[..begun] == input[0..] == input;
      assert sink.received[0..] == sink.received == sink.received[..flushed];
      assert sink.answers[0..] == sink.answers == sink.answers[..flushed];
    }

    /** The PAT packet and everything from the transition on is sent, and streaming begins. */
    method StartCut()
      requires packets == input && sink.received == [] && sink.answers == [] && cut.None?
      requires patIndex < |packets| && 0 < transitionIndex < |packets|
      modifies this`packets, this`state, this`cut, this`begun, this`flushed, sink
      ensures state == Streaming && packets == [] && HasSent() && begun == |input|
      ensures cut == Some(Cut(patIndex, transitionIndex))
    {
      cut := Some(Cut(patIndex, transitionIndex));
      var sent := sink.HandlePacket(packets[patIndex]);
      sent := SendPackets(transitionIndex);
      state := Streaming;
      begun, flushed := |input|, |sink.received|;
      assert input[..begun] == input;
      assert sink.received == [input[patIndex]] + sink.received[1..] && sink.answers[1..] + [] == sink.answers[1..];
      assert sink.received[..flushed] == sink.received && sink.answers[..flushed] == sink.answers;
      FlushedAfter(sink.received, sink.answers, Expected(input, cut));
    }

    /**
     Starts streaming at a transition, or with everything at the packet or the duration limit; a PCR that
     is out of range aborts the process when it is compared with the end PCR.
     */
    method Seek(packet: Packet) returns (o: Outcome)
      requires state == Seeking && packets == input && sink.received == [] && sink.answers == [] && cut.None? && !lost
      requires patIndex <= |packets| && transitionIndex <= |packets| && endPcr <= MAX_PCR
      requires maxPackets != 0 ==> |packets| < maxPackets
      modifies this`state, this`packets, this`input, this`cut, this`begun, this`flushed, this`endPcr, sink
      ensures Valid() && input == old(input) + [packet] && (state == Streaming ==> begun == |input|)
      ensures o == Continue || (o == Abort && state == Seeking)
      ensures o == Abort <==>
              && old(transitionIndex) == 0
              && (maxPackets == 0 || |input| != maxPackets)
              && IsBad(pcrPid, old(endPcr), packet)
      ensures state == Streaming <==>
              || old(transitionIndex) > 0
              || (maxPackets != 0 && |input| == maxPackets)
              || ReachesEnd(pcrPid, old(endPcr), packet)
      ensures cut == if old(transitionIndex) > 0 then Some(Cut(old(patIndex), old(transitionIndex))) else None
      ensures state == Seeking ==> endPcr == NextEndPcr(maxDuration, pcrPid, old(endPcr), packet)
    {
      o := Continue;
      packets := packets + [packet];
      input := input + [packet];
      if transitionIndex > 0 {
        StartCut();
        return;
      }
      if maxPackets != 0 {
        if maxPackets == |packets| {
          StartAll();
          return;
        }
        assert |packets| < maxPackets;
      }
      if pcrPid == PID_NULL || pcrPid != packet.pid || packet.pcr.None? {
        return;
      }
      if endPcr < 0 {
        endPcr := LaterPcr(packet.pcr.value, maxDuration);
        return;
      }
      if !ValidPcr(packet.pcr.value) {
        return Abort;
      }
      if ComparePcr(packet.pcr.value, endPcr) < 0 {
        return;
      }
      StartAll();
    }

    /** Passes a packet on once streaming has begun. */
    method DoStreaming(packet: Packet) returns (o: Outcome)
      requires Valid() && state == Streaming
      modifies this`input, sink
      ensures Valid() && input == old(input) + [packet]
      ensures o == if sink.answers[|sink.answers| - 1] then Continue else Finish
      ensures sink.answers[..|sink.answers| - 1] == old(sink.answers)
      ensures sink.accepting ==> o == Continue
    {
      ghost var n := |sink.received|;
      var more := sink.HandlePacket(packet);
      o := if more then Continue else Finish;
      input := input + [packet];
      DeliveredNext(old(sink.received), old(sink.answers), old(input), cut, begun, flushed, packet, more);
    }

    /** Aborts if the tables do, or, while seeking, on a PCR out of range that is compared with the end PCR. */
    method HandlePacket(packet: Packet, tables: seq<Table>) returns (o: Outcome)
      requires Valid() && forall i :: 0 <= i < |tables| ==> Fed(tables[i], |input|)
      modifies this, sink
      ensures Hears() == old(Hears()).AfterTables(sid, tables, |tables|)
      ensures !lost ==> Valid() && input == old(input) + [packet]
      ensures maxPackets != 0 ==> |packets| <= maxPackets
      ensures o == Abort <==>
              || Hears().lost
              || (&& old(state) == Seeking && Hears().transition == 0
                  && (maxPackets == 0 || |input| != maxPackets)
                  && IsBad(Hears().pcrPid, old(endPcr), packet))
      ensures o == Abort ==> state == old(state) && sink.received == old(sink.received)
      ensures old(state) == Streaming ==>
                state == Streaming && cut == old(cut) && begun == old(begun) && flushed == old(flushed)
      // Without the service nothing more happens.
      ensures lost ==> input == old(input) && sink.answers == old(sink.answers)
      // Seeking ends at a transition, which makes the cut, or at the limit on packets or on duration.
      ensures old(state) == Seeking && !lost ==>
                && cut == CutOf(Hears())
                && (state == Streaming <==>
                    || Hears().transition > 0
                    || (maxPackets != 0 && |input| == maxPackets)
                    || ReachesEnd(Hears().pcrPid, old(endPcr), packet))
                && (state == Streaming ==> begun == |input|)
                && (state == Seeking ==> endPcr == NextEndPcr(maxDuration, Hears().pcrPid, old(endPcr), packet))
      // Only a refusal of a streamed packet is passed on.
      ensures o == Finish ==> old(state) == Streaming && !sink.accepting
      ensures old(state) == Streaming && !lost ==>
                && |sink.answers| > 0 && sink.answers[..|sink.answers| - 1] == old(sink.answers)
                && o == if sink.answers[|sink.answers| - 1] then Continue else Finish
    {
      var ok := HandleTables(tables, |input|);
      if !ok {
        return Abort;
      }
      match state {
        case Seeking =>
          o := Seek(packet);
        case Streaming =>
          o := DoStreaming(packet);
      }
    }

    /** The seeker has handled the first `n` inputs of a run, and sought in the first `sought` of them. */
    ghost predicate Follows(inputs: seq<Input>, n: nat, sought: nat)
      requires sought <= n <= |inputs|
      reads this
    {
      && input == PacketsOf(inputs)[..n] && Hears() == HeardAt(sid, inputs, n) && !lost
      && cut == CutOf(HeardAt(sid, inputs, sought))
      && match state
         case Seeking =>
           && sought == n && SeeksTo(sid, maxDuration, maxPackets, inputs, n)
           && endPcr == EndPcrAt(sid, maxDuration, inputs, n)
         case Streaming =>
           && sought > 0 && SeeksTo(sid, maxDuration, maxPackets, inputs, sought - 1)
           && EndsAt(sid, maxDuration, maxPackets, inputs, sought) && begun == sought
    }

    /** What was answered to the streamed packets: nothing but the last one can have been refused. */
    ghost predicate Answered(o: Outcome)
      reads this, sink
    {
      state == Streaming ==>
        && flushed <= |sink.answers|
        && (forall i :: flushed <= i < |sink.answers| - 1 ==> sink.answers[i])
        && (o == Finish <==> flushed < |sink.answers| && !sink.answers[|sink.answers| - 1])
        && (o == Finish ==> !sink.accepting)
    }

    /** The process has aborted on input `n - 1`; while seeking everything was still held back. */
    ghost predicate IsDead(inputs: seq<Input>, n: nat, sought: nat)
      requires sought <= n <= |inputs|
      reads this, sink
    {
      && 0 < sought && SeeksTo(sid, maxDuration, maxPackets, inputs, sought - 1)
      && if sought == n then
          DiesAt(sid, maxDuration, maxPackets, inputs, n) && sink.received == [] && sink.answers == []
        else
          && EndsAt(sid, maxDuration, maxPackets, inputs, sought)
          && LostAt(sid, inputs, n) && !LostAt(sid, inputs, n - 1)
          && state == Streaming && HasSent() && Answered(Continue)
          && begun == sought && cut == CutOf(HeardAt(sid, inputs, sought)) && input == PacketsOf(inputs)[..n - 1]
    }

    /** The seeker has handled the first `n` inputs, the last of which ended with `o`. */
    ghost predicate Stands(inputs: seq<Input>, n: nat, sought: nat, o: Outcome)
      requires sought <= n <= |inputs|
      reads this, sink
    {
      if o == Abort then IsDead(inputs, n, sought)
      else Valid() && Follows(inputs, n, sought) && Answered(o) && (o == Finish ==> state == Streaming)
    }

    /** The next input of a run. */
    method HandleInput(inputs: seq<Input>, n: nat, sought: nat) returns (next: nat, o: Outcome)
      requires AllValid(inputs) && sought <= n < |inputs| && Stands(inputs, n, sought, Continue)
      modifies this, sink
      ensures next <= n + 1 && Stands(inputs, n + 1, next, o)
    {
      match state {
        case Seeking =>
          o := SeekInput(inputs, n);
          next := n + 1;
        case Streaming =>
          o := StreamInput(inputs, n, sought);
          next := sought;
      }
    }

    method SeekInput(inputs: seq<Input>, n: nat) returns (o: Outcome)
      requires Valid() && AllValid(inputs) && n < |inputs| && Follows(inputs, n, n) && state == Seeking
      modifies this, sink
      ensures if o == Abort then IsDead(inputs, n + 1, n + 1)
              else o == Continue && Valid() && Follows(inputs, n + 1, n + 1) && Answered(Continue)
    {
      assert ValidInput(inputs[n], n);
      PrefixStep(PacketsOf(inputs), n);
      o := HandlePacket(inputs[n].packet, inputs[n].tables);
    }

    method StreamInput(inputs: seq<Input>, n: nat, sought: nat) returns (o: Outcome)
      requires Valid() && AllValid(inputs) && sought <= n < |inputs| && Follows(inputs, n, sought)
      requires Answered(Continue) && state == Streaming
      modifies this, sink
      ensures state == Streaming
      ensures if o == Abort then IsDead(inputs, n + 1, sought)
              else Valid() && Follows(inputs, n + 1, sought) && Answered(o)
    {
      assert ValidInput(inputs[n], n);
      PrefixStep(PacketsOf(inputs), n);
      o := HandlePacket(inputs[n].packet, inputs[n].tables);
    }

    /** All inputs, one after the other, until one of them ends the run. */
    method HandleInputs(inputs: seq<Input>) returns (sought: nat, used: nat, o: Outcome)
      requires AllValid(inputs) && Stands(inputs, 0, 0, Continue)
      modifies this, sink
      ensures sought <= used <= |inputs| && (o == Continue ==> used == |inputs|) && Stands(inputs, used, sought, o)
    {
      sought, used, o := 0, 0, Continue;
      while used < |inputs| && o == Continue
        // An equivalence keeps the predicate whole, which makes it cheap to maintain.
        invariant sought <= used <= |inputs| && (Stands(inputs, used, sought, o) <==> true)
      {
        sought, o := HandleInput(inputs, used, sought);
        used := used + 1;
      }
    }

    lemma {:induction false} DeadMeans(inputs: seq<Input>, n: nat, sought: nat)
      requires sought <= n <= |inputs| && IsDead(inputs, n, sought)
      ensures RunsTo(sid, maxDuration, maxPackets, inputs, sought, n, true)
      ensures sought < n ==>
                && CutOf(HeardAt(sid, inputs, sought)).None?
                && Output(sink.received, sink.answers, PacketsOf(inputs)[..n - 1], None, sought, sink.accepting)
    {
      assert !LostAt(sid, inputs, n - 1) by {
        if sought == n && n > 1 {
          assert !DiesAt(sid, maxDuration, maxPackets, inputs, n - 1);
        }
      }
      NotLostBefore(sid, inputs, n - 1);
      if sought < n {
        if HeardAt(sid, inputs, sought).transition > 0 {
          SafeAfterTransition(sid, inputs, sought, n);
        }
        OutputMeans();
      }
    }

    lemma {:induction false} AliveMeans(inputs: seq<Input>, n: nat, sought: nat)
      requires sought <= n <= |inputs| && Follows(inputs, n, sought)
      ensures RunsTo(sid, maxDuration, maxPackets, inputs, sought, n, false)
    {
      NotLostBefore(sid, inputs, n);
      if state == Seeking && n > 0 {
        assert !DiesAt(sid, maxDuration, maxPackets, inputs, n);
        assert forall m :: 0 < m <= n - 1 ==> !EndsAt(sid, maxDuration, maxPackets, inputs, m);
      }
    }

    /** What the sink has of a streaming seeker. */
    lemma OutputMeans()
      requires state == Streaming && HasSent()
      requires forall i :: flushed <= i < |sink.answers| - 1 ==> sink.answers[i]
      ensures Output(sink.received, sink.answers, input, cut, begun, sink.accepting)
    {
      assert |sink.received[flushed..]| == |input[begun..]|;
      if sink.accepting {
        DeliveredAll(sink.received, sink.answers, input, cut, begun, flushed);
      }
    }

    /** The end of a run that has not aborted. */
    method EndRun(inputs: seq<Input>, n: nat, sought: nat, ghost o: Outcome)
      requires sought <= n <= |inputs| && Stands(inputs, n, sought, o)
      requires o != Abort && (o == Continue ==> n == |inputs|)
      modifies this`packets, sink
      ensures Output(sink.received, sink.answers, PacketsOf(inputs)[..n], CutOf(HeardAt(sid, inputs, sought)), sought,
                     sink.accepting)
      ensures n < |inputs| ==>
                !sink.accepting && sought < n && sink.answers != [] && !sink.answers[|sink.answers| - 1]
    {
      assert state == Streaming ==> |sink.received[flushed..]| == |input[begun..]|;
      End();
      DoneMeans(inputs, n, sought, o);
    }

    /** Everything has been sent that will be. */
    lemma {:induction false} DoneMeans(inputs: seq<Input>, n: nat, sought: nat, o: Outcome)
      requires sought <= n <= |inputs| && Follows(inputs, n, sought) && (o == Continue ==> n == |inputs|)
      requires o != Abort && (o == Finish ==> state == Streaming)
      requires if state == Streaming then HasSent() && Answered(o)
               else Flushed(sink.received, sink.answers, input, 0) && (sink.accepting ==> sink.received == input)
      ensures Output(sink.received, sink.answers, PacketsOf(inputs)[..n], CutOf(HeardAt(sid, inputs, sought)), sought,
                     sink.accepting)
    {
      if state == Streaming {
        OutputMeans();
      } else {
        assert input[..sought] == input && input[sought..] == [];
        assert sink.received[..|sink.received|] == sink.received && sink.answers[..|sink.answers|] == sink.answers;
        assert n > 0 ==> !EndsAt(sid, maxDuration, maxPackets, inputs, n);
        assert CutOf(HeardAt(sid, inputs, sought)).None?;
      }
    }

    /** Whatever is still held is sent, up to a refusal. */
    method End()
      requires Valid()
      modifies this`packets, sink
      ensures state == Streaming ==> sink.received == old(sink.received) && sink.answers == old(sink.answers)
      ensures state == Seeking ==>
                && Flushed(sink.received, sink.answers, input, 0)
                && (sink.accepting ==> sink.received == input)
    {
      assert packets[0..] == packets;
      var sent := SendPackets(0);
      assert sink.received[0..] == sink.received && sink.answers[0..] == sink.answers;
      assert state == Streaming ==> sink.received == sink.received[..|old(sink.received)|];
    }
  }

  /** The sink got what was held when streaming began, up to a refusal, and every packet since. */
  ghost predicate Delivered(received: seq<Packet>, answers: seq<bool>, input: seq<Packet>, cut: Option<Cut>, begun: nat,
                            flushed: nat)
    requires begun <= |input| && (cut.Some? ==> cut.value.pat < begun && cut.value.transition <= begun)
  {
    && flushed <= |received| == |answers|
    && Flushed(received[..flushed], answers[..flushed], Expected(input[..begun], cut), if cut.Some? then 1 else 0)
    && received[flushed..] == input[begun..]
  }

  lemma {:induction false} FlushedAfter(sent: seq<Packet>, answers: seq<bool>, all: seq<Packet>)
    requires |sent| == |answers| > 0 && |all| > 0 && sent[0] == all[0] && Flushed(sent[1..], answers[1..], all[1..], 0)
    ensures Flushed(sent, answers, all, 1)
  {
    assert sent == [sent[0]] + sent[1..] && all == [all[0]] + all[1..];
    forall i | 1 <= i < |answers| - 1
      ensures answers[i]
    {
      assert answers[i] == answers[1..][i - 1];
    }
  }

  lemma {:induction false} DeliveredNext(received: seq<Packet>, answers: seq<bool>, input: seq<Packet>,
                                         cut: Option<Cut>, begun: nat, flushed: nat, packet: Packet, more: bool)
    requires begun <= |input| && (cut.Some? ==> cut.value.pat < begun && cut.value.transition <= begun)
    requires Delivered(received, answers, input, cut, begun, flushed)
    ensures Delivered(received + [packet], answers + [more], input + [packet], cut, begun, flushed)
    ensures (input + [packet])[..begun] == input[..begun]
  {
    assert (received + [packet])[..flushed] == received[..flushed];
    assert (answers + [more])[..flushed] == answers[..flushed];
    assert (received + [packet])[flushed..] == received[flushed..] + [packet];
    assert (input + [packet])[begun..] == input[begun..] + [packet];
    assert (input + [packet])[..begun] == input[..begun];
  }

  /** An accepting sink has everything, or the cut input. */
  lemma {:induction false} DeliveredAll(received: seq<Packet>, answers: seq<bool>, input: seq<Packet>,
                                        cut: Option<Cut>, begun: nat, flushed: nat)
    requires begun <= |input| && (cut.Some? ==> cut.value.pat < begun && cut.value.transition <= begun)
    requires Delivered(received, answers, input, cut, begun, flushed) && flushed == |Expected(input[..begun], cut)|
    ensures received == Expected(input, cut)
  {
    assert received == received[..flushed] + received[flushed..];
    assert received[..flushed] == Expected(input[..begun], cut);
    ExpectedNext(input, cut, begun);
  }

  lemma {:induction false} ExpectedNext(input: seq<Packet>, cut: Option<Cut>, begun: nat)
    requires begun <= |input| && (cut.Some? ==> cut.value.pat < begun && cut.value.transition <= begun)
    ensures Expected(input, cut) == Expected(input[..begun], cut) + input[begun..]
  {
    if cut.Some? {
      var n := cut.value.transition;
      assert input[n..] == input[..begun][n..] + input[begun..];
    } else {
      assert input == input[..begun] + input[begun..];
    }
  }

  /**
   All that a sink got of an input, of which it got the first part, of `begun` packets, at once: a part of
   that up to a refusal, and then packet by packet, of which it can have refused the last one only.
   */
  ghost predicate Output(received: seq<Packet>, answers: seq<bool>, input: seq<Packet>, cut: Option<Cut>, begun: nat,
                         accepting: bool) {
    && begun <= |input| && (cut.Some? ==> cut.value.pat < begun && 0 < cut.value.transition < begun)
    && |input| - begun <= |received|
    && var flushed := |received| - (|input| - begun);
       && Delivered(received, answers, input, cut, begun, flushed)
       && (forall i :: flushed <= i < |answers| - 1 ==> answers[i])
       && (accepting ==> received == Expected(input, cut))
  }

  /** A table began in a packet up to the one being fed. */
  predicate Fed(t: Table, index: nat) {
    t.Pat? || t.Pmt? ==> t.first <= index
  }

  predicate ValidInput(input: Input, index: nat) {
    forall i :: 0 <= i < |input.tables| ==> Fed(input.tables[i], index)
  }

  function PacketsOf(inputs: seq<Input>): seq<Packet> {
    seq(|inputs|, i requires 0 <= i < |inputs| => inputs[i].packet)
  }

  lemma PrefixStep(all: seq<Packet>, i: nat)
    requires i < |all|
    ensures all[..i + 1] == all[..i] + [all[i]]
  {
  }

  ghost function HeardAt(sid: int, inputs: seq<Input>, n: nat): Heard
    requires n <= |inputs|
  {
    if n == 0 then NOTHING_HEARD
    else HeardAt(sid, inputs, n - 1).AfterTables(sid, inputs[n - 1].tables, |inputs[n - 1].tables|)
  }

  /** One of the first `n` inputs has a PAT that is heard and does not list the service. */
  ghost predicate LostAt(sid: int, inputs: seq<Input>, n: nat)
    requires n <= |inputs|
  {
    HeardAt(sid, inputs, n).lost
  }

  /** A service that is lost stays lost. */
  lemma {:induction false} LostSince(sid: int, inputs: seq<Input>, n: nat, m: nat)
    requires n <= m <= |inputs| && LostAt(sid, inputs, n)
    ensures HeardAt(sid, inputs, m) == HeardAt(sid, inputs, n)
  {
    if n < m {
      LostSince(sid, inputs, n, m - 1);
      HeardAt(sid, inputs, m - 1).LostStays(sid, inputs[m - 1].tables, 0, |inputs[m - 1].tables|);
    }
  }

  lemma {:induction false} NotLostBefore(sid: int, inputs: seq<Input>, n: nat)
    requires n <= |inputs| && !LostAt(sid, inputs, n)
    ensures forall m :: 0 <= m <= n ==> !LostAt(sid, inputs, m)
  {
    forall m | 0 <= m <= n
      ensures !LostAt(sid, inputs, m)
    {
      if LostAt(sid, inputs, m) {
        LostSince(sid, inputs, m, n);
      }
    }
  }

  lemma {:induction false} DeafAt(sid: int, inputs: seq<Input>, n: nat)
    requires n <= |inputs|
    ensures HeardAt(sid, inputs, n).transition > 0 ==> PID_PAT !in HeardAt(sid, inputs, n).demux
  {
    if n > 0 {
      DeafAt(sid, inputs, n - 1);
      HeardAt(sid, inputs, n - 1).TransitionIsDeaf(sid, inputs[n - 1].tables, |inputs[n - 1].tables|);
    }
  }

  lemma {:induction false} StaysDeaf(sid: int, inputs: seq<Input>, n: nat, m: nat)
    requires n <= m <= |inputs| && PID_PAT !in HeardAt(sid, inputs, n).demux && !LostAt(sid, inputs, n)
    ensures PID_PAT !in HeardAt(sid, inputs, m).demux && !LostAt(sid, inputs, m)
  {
    if n < m {
      StaysDeaf(sid, inputs, n, m - 1);
      HeardAt(sid, inputs, m - 1).DeafStays(sid, inputs[m - 1].tables, |inputs[m - 1].tables|);
    }
  }

  /** After a transition no PAT can abort the process any more. */
  lemma {:induction false} SafeAfterTransition(sid: int, inputs: seq<Input>, n: nat, m: nat)
    requires n <= m <= |inputs| && HeardAt(sid, inputs, n).transition > 0 && !LostAt(sid, inputs, n)
    ensures !LostAt(sid, inputs, m)
  {
    DeafAt(sid, inputs, n);
    StaysDeaf(sid, inputs, n, m);
  }

  /** The end PCR after `n` inputs, as far as the seeker is still seeking. */
  ghost function EndPcrAt(sid: int, maxDuration: int, inputs: seq<Input>, n: nat): (endPcr: int)
    requires n <= |inputs|
    ensures endPcr <= MAX_PCR
  {
    if n == 0 then -1
    else
      var pcrPid, endPcr := HeardAt(sid, inputs, n).pcrPid, EndPcrAt(sid, maxDuration, inputs, n - 1);
      NextEndPcr(maxDuration, pcrPid, endPcr, inputs[n - 1].packet)
  }

  /** Input `i` has the first PCR on the PCR PID. */
  ghost predicate IsFirstPcr(sid: int, inputs: seq<Input>, i: int) {
    && 0 <= i < |inputs| && HasPcr(HeardAt(sid, inputs, i + 1).pcrPid, inputs[i].packet)
    && forall k :: 0 <= k < i ==> !HasPcr(HeardAt(sid, inputs, k + 1).pcrPid, inputs[k].packet)
  }

  /** The end PCR is set once, by the first PCR: one duration later, in unsigned numbers of 64 bits. */
  lemma {:induction false} EndPcrIsSetOnce(sid: int, maxDuration: int, inputs: seq<Input>, i: nat, n: nat)
    requires i <= n <= |inputs|
    ensures (forall k :: 0 <= k < i ==> !HasPcr(HeardAt(sid, inputs, k + 1).pcrPid, inputs[k].packet)) ==>
              EndPcrAt(sid, maxDuration, inputs, i) == -1
    ensures i < n && IsFirstPcr(sid, inputs, i) ==>
              EndPcrAt(sid, maxDuration, inputs, n) ==
              (inputs[i].packet.pcr.value + 27_000 * maxDuration) % 0x1_0000_0000_0000_0000 % 2_576_980_377_600
  {
    if i == n {
      if n > 0 {
        EndPcrIsSetOnce(sid, maxDuration, inputs, n - 1, n - 1);
      }
    } else {
      EndPcrIsSetOnce(sid, maxDuration, inputs, i, n - 1);
    }
  }

  /** Input `n - 1` ends seeking: there is a transition, or the limit on packets or on duration is reached. */
  ghost predicate EndsAt(sid: int, maxDuration: int, maxPackets: nat, inputs: seq<Input>, n: nat)
    requires 0 < n <= |inputs|
  {
    && !LostAt(sid, inputs, n)
    && (|| HeardAt(sid, inputs, n).transition > 0
        || (maxPackets != 0 && n == maxPackets)
        || ReachesEnd(HeardAt(sid, inputs, n).pcrPid, EndPcrAt(sid, maxDuration, inputs, n - 1), inputs[n - 1].packet))
  }

  /** Input `n - 1` would not end seeking but by its PCR, and that is out of range. */
  ghost predicate BadAt(sid: int, maxDuration: int, maxPackets: nat, inputs: seq<Input>, n: nat)
    requires 0 < n <= |inputs|
  {
    && HeardAt(sid, inputs, n).transition == 0
    && (maxPackets == 0 || n != maxPackets)
    && IsBad(HeardAt(sid, inputs, n).pcrPid, EndPcrAt(sid, maxDuration, inputs, n - 1), inputs[n - 1].packet)
  }

  /** Input `n - 1` aborts a seeking process: it has a PAT without the service, or a PCR out of range. */
  ghost predicate DiesAt(sid: int, maxDuration: int, maxPackets: nat, inputs: seq<Input>, n: nat)
    requires 0 < n <= |inputs|
  {
    LostAt(sid, inputs, n) || BadAt(sid, maxDuration, maxPackets, inputs, n)
  }

  ghost predicate AllValid(inputs: seq<Input>) {
    forall i :: 0 <= i < |inputs| ==> ValidInput(inputs[i], i)
  }

  /** No input before number `n` ends seeking or aborts. */
  ghost predicate SeeksTo(sid: int, maxDuration: int, maxPackets: nat, inputs: seq<Input>, n: nat)
    requires n <= |inputs|
  {
    forall m :: 0 < m <= n ==>
      !EndsAt(sid, maxDuration, maxPackets, inputs, m) && !DiesAt(sid, maxDuration, maxPackets, inputs, m)
  }

  /**
   The run has sought in the first `sought` inputs and handled the first `used`: before the last of those no
   PAT lacked the service, seeking ended where it should, and it is known when the process has aborted.
   */
  ghost predicate RunsTo(sid: int, maxDuration: int, maxPackets: nat, inputs: seq<Input>, sought: nat, used: nat,
                         aborted: bool)
    requires sought <= used <= |inputs|
  {
    && (sought > 0 ==> SeeksTo(sid, maxDuration, maxPackets, inputs, sought - 1))
    && (sought < used ==> sought > 0 && EndsAt(sid, maxDuration, maxPackets, inputs, sought))
    && (forall n :: 0 <= n < used ==> !LostAt(sid, inputs, n))
    && (aborted <==>
        || LostAt(sid, inputs, used)
        || (sought > 0 && sought == used && BadAt(sid, maxDuration, maxPackets, inputs, sought)))
  }

  lemma {:induction false} LimitHolds(sid: int, maxDuration: int, maxPackets: nat, inputs: seq<Input>, sought: nat,
                                      used: nat, aborted: bool)
    requires sought <= used <= |inputs| && RunsTo(sid, maxDuration, maxPackets, inputs, sought, used, aborted)
    ensures maxPackets != 0 ==> sought <= maxPackets
  {
    assert 0 < maxPackets < sought ==> EndsAt(sid, maxDuration, maxPackets, inputs, maxPackets);
  }

  ghost function CutOf(h: Heard): Option<Cut> {
    if h.transition > 0 then Some(Cut(h.pat, h.transition)) else None
  }

  /**
   Every run into any sink. Seeking ends with the first input, if any, that hears a transition or reaches a
   limit, and `sought` inputs are handled until then. Nothing is lost, repeated or reordered but by one
   cut, which is made if and only if that input hears a transition, and by a refusal of a held packet,
   which drops the ones held behind it, but does not end the run.

   The process aborts if and only if a PAT does not list the service before a transition is heard, or,
   before seeking ends, a PCR out of range is compared with the end PCR. While seeking nothing has been
   sent then.
   */
  method SeekStart(sid: int, maxDuration: int, maxPackets: nat, accepting: bool, inputs: seq<Input>)
    returns (received: seq<Packet>, answers: seq<bool>, sought: nat, used: nat, aborted: bool)
    requires AllValid(inputs)
    ensures sought <= used <= |inputs| && RunsTo(sid, maxDuration, maxPackets, inputs, sought, used, aborted)
    ensures maxPackets != 0 ==> sought <= maxPackets
    ensures used < |inputs| && !aborted ==>
              !accepting && sought < used && answers != [] && !answers[|answers| - 1]
    ensures aborted && sought == used ==> received == []
    ensures !(aborted && sought == used) ==>
              var last, cut := if aborted then used - 1 else used, CutOf(HeardAt(sid, inputs, sought));
              && (aborted ==> cut.None?)
              && Output(received, answers, PacketsOf(inputs)[..last], cut, sought, accepting)
  {
    var sink := new Sink(accepting);
    var seeker := new StartSeeker(sid, maxDuration, maxPackets, sink);
    var o;
    sought, used, o := seeker.HandleInputs(inputs);
    aborted := o == Abort;
    if aborted {
      seeker.DeadMeans(inputs, used, sought);
    } else {
      seeker.AliveMeans(inputs, used, sought);
      seeker.EndRun(inputs, used, sought, o);
    }
    LimitHolds(sid, maxDuration, maxPackets, inputs, sought, used, aborted);
    received, answers := sink.received, sink.answers;
  }

  // Runs that abort

  lemma {:induction false} OneTable(h: Heard, t: Table)
    ensures h.AfterTables(1, [t], 1) == h.AfterTable(1, t)
  {
    assert h.AfterTables(1, [t], 0) == h;
  }

  /** PAT, PMT, a PCR that sets the end PCR, and one that is out of range. */
  const BAD_PACKET: seq<Input> := [
    Plain(PID_PAT, None, [Pat(PID_PAT, 0, true, 1, map[1 := 0x200])]),
    Plain(0x200, None, [Pmt(0x200, 1, true, 1, 0x100, [], map[], 1)]),
    Plain(0x100, Some(0), []),
    Plain(0x100, Some(2_576_980_377_600), [])]

  lemma {:induction false} BadPacketHeard(n: nat)
    requires n <= 4
    ensures
      var h := HeardAt(1, BAD_PACKET, n);
      && h.transition == 0 && h.video == {} && h.audio == {} && !h.lost && PID_PAT in h.demux
      && (n > 0 ==> 0x200 in h.demux) && h.pcrPid == if n < 2 then PID_NULL else 0x100
  {
    if n > 0 {
      BadPacketHeard(n - 1);
      if n <= 2 {
        OneTable(HeardAt(1, BAD_PACKET, n - 1), BAD_PACKET[n - 1].tables[0]);
      }
    }
  }

  /** With any duration and no limit on packets, the fourth input aborts. */
  lemma {:induction false} BadPcrAborts(maxDuration: int)
    ensures AllValid(BAD_PACKET) && |BAD_PACKET| == 4 && !ValidPcr(2_576_980_377_600)
    ensures SeeksTo(1, maxDuration, 0, BAD_PACKET, 3) && DiesAt(1, maxDuration, 0, BAD_PACKET, 4)
    ensures !LostAt(1, BAD_PACKET, 4)
  {
    forall n: nat | n <= 4
      ensures HeardAt(1, BAD_PACKET, n).transition == 0 && !LostAt(1, BAD_PACKET, n)
      ensures HeardAt(1, BAD_PACKET, n).pcrPid == if n < 2 then PID_NULL else 0x100
    {
      BadPacketHeard(n);
    }
    assert EndPcrAt(1, maxDuration, BAD_PACKET, 0) == -1;
    assert EndPcrAt(1, maxDuration, BAD_PACKET, 1) == -1;
    assert EndPcrAt(1, maxDuration, BAD_PACKET, 2) == -1;
    assert EndPcrAt(1, maxDuration, BAD_PACKET, 3) >= 0;
  }

  /** A packet, and a PAT that lists another service only. */
  const OTHER_SERVICE: seq<Input> := [
    Plain(0x100, None, []),
    Plain(PID_PAT, None, [Pat(PID_PAT, 1, true, 1, map[2 := 0x200])])]

  /**
   The PAT aborts the process: with nothing sent, without a limit on packets; and after the first packet
   has been sent, with a limit of one.
   */
  lemma {:induction false} OtherServiceAborts(maxDuration: int)
    ensures AllValid(OTHER_SERVICE) && |OTHER_SERVICE| == 2
    ensures !LostAt(1, OTHER_SERVICE, 1) && LostAt(1, OTHER_SERVICE, 2)
    ensures SeeksTo(1, maxDuration, 0, OTHER_SERVICE, 1) && DiesAt(1, maxDuration, 0, OTHER_SERVICE, 2)
    ensures SeeksTo(1, maxDuration, 1, OTHER_SERVICE, 0) && EndsAt(1, maxDuration, 1, OTHER_SERVICE, 1)
  {
    assert HeardAt(1, OTHER_SERVICE, 0) == NOTHING_HEARD;
    assert HeardAt(1, OTHER_SERVICE, 1) == NOTHING_HEARD;
    OneTable(NOTHING_HEARD, OTHER_SERVICE[1].tables[0]);
  }
}
