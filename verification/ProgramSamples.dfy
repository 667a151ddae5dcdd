/** Runs of the program filter, from its start, on which its rules bite. */
module ProgramSamples {
  import opened Tables
  import opened Pcr
  import opened Sinks
  import opened ProgramFiltering
  import opened ProgramRuns

  /** The first value that a PCR must not have, although its field can hold it. */
  const BAD_PCR: int := 2_576_980_377_600

  /** A filter for event 1 of service 1, whose clock showed `clockPcr` on PID 0x100 at time zero. */
  function Sample(clockPcr: int): Settings {
    Settings(1, 1, 0x100, clockPcr, 0, {}, {}, 0, 0, None, false)
  }

  /** PAT, PMT and EIT of a service with its PCR on `pcrPid`. */
  function Prelude(pcrPid: Pid, event: Event): seq<Input> {
    [Plain(PID_PAT, None, [Pat(PID_PAT, 0, true, 1, map[1 := 0x200])]),
     Plain(0x200, None, [Pmt(0x200, 1, true, 1, pcrPid, [], map[], 1)]),
     Plain(PID_EIT, None, [Eit(true, 1, [event])])]
  }

  const CYCLE: Cycle := Cycle(0x200, map[], 1, 0)

  /** What is known after the prelude; the clock is lost if its PID has changed. */
  function Prepared(clockPcr: int, pcrPid: Pid, event: Event): Known {
    var same := pcrPid == 0x100;
    Known(0x200, Some(pcrPid), pcrPid, if same then Some(clockPcr) else None, if same then Some(0) else None,
          Some((event.start, event.start + event.duration * 1000)), {}, Some(CYCLE), false)
  }

  function AfterPrelude(clockPcr: int, pcrPid: Pid, event: Event): Run {
    Run(Prepared(clockPcr, pcrPid, event), false, [Plain(PID_PAT, None, []).packet], CYCLE, [],
        if pcrPid == 0x100 && !ValidPcr(clockPcr) then Abort else Continue)
  }

  /** A packet without a PCR, and its table, while the filter waits. */
  lemma {:induction false} TableInput(r: Run, clockPcr: int, packet: Packet, t: Table)
    requires !r.streaming && r.outcome == Continue && packet.pcr.None?
    requires !r.known.AfterTable(Sample(clockPcr), true, t).stop
    ensures
      var heard := r.HeardTable(Sample(clockPcr), t);
      r.Handled(Sample(clockPcr), Input(packet, [t])) ==
      heard.(lastPat := if heard.outcome == Continue then Saved(r.lastPat, packet) else r.lastPat)
  {
    var heard := r.HeardTable(Sample(clockPcr), t);
    assert r.Heard(Sample(clockPcr), [t], 0) == r;
    assert r.Heard(Sample(clockPcr), [t], 1) == heard;
  }

  /** The run before the PMT and before the EIT of the prelude. */
  function BeforePmt(clockPcr: int): Run {
    var r := AtRest(Sample(clockPcr));
    r.(known := r.known.(pmtPid := 0x200), lastPat := [Plain(PID_PAT, None, []).packet])
  }

  function BeforeEit(clockPcr: int, pcrPid: Pid): Run {
    BeforePmt(clockPcr).(known := Prepared(clockPcr, pcrPid, Event(1, 0, 0)).(event := None), cycle := CYCLE)
  }

  lemma {:induction false} HandlesPat(clockPcr: int, pcrPid: Pid, event: Event)
    ensures AtRest(Sample(clockPcr)).Handled(Sample(clockPcr), Prelude(pcrPid, event)[0]) == BeforePmt(clockPcr)
  {
    var input := Prelude(pcrPid, event)[0];
    TableInput(AtRest(Sample(clockPcr)), clockPcr, input.packet, input.tables[0]);
  }

  lemma {:induction false} HandlesPmt(clockPcr: int, pcrPid: Pid, event: Event)
    ensures BeforePmt(clockPcr).Handled(Sample(clockPcr), Prelude(pcrPid, event)[1]) == BeforeEit(clockPcr, pcrPid)
  {
    var input := Prelude(pcrPid, event)[1];
    var empty: map<Pid, Stream> := map[];
    assert ExcludedPids(Sample(clockPcr), empty) == {} && empty - {} == empty;
    assert Fresh(Sample(clockPcr), input.tables[0]) == CYCLE;
    TableInput(BeforePmt(clockPcr), clockPcr, input.packet, input.tables[0]);
  }

  lemma {:induction false} HandlesEit(clockPcr: int, pcrPid: Pid, event: Event)
    requires event.id == 1
    ensures BeforeEit(clockPcr, pcrPid).Handled(Sample(clockPcr), Prelude(pcrPid, event)[2]) ==
            AfterPrelude(clockPcr, pcrPid, event)
  {
    var input := Prelude(pcrPid, event)[2];
    TableInput(BeforeEit(clockPcr, pcrPid), clockPcr, input.packet, input.tables[0]);
  }

  /** The tables of the prelude, one by one. */
  lemma {:induction false} PreludeRuns(clockPcr: int, pcrPid: Pid, event: Event, inputs: seq<Input>)
    requires Prelude(pcrPid, event) <= inputs && event.id == 1
    ensures RunAt(Sample(clockPcr), inputs, 0) == AtRest(Sample(clockPcr))
    ensures RunAt(Sample(clockPcr), inputs, 1) == BeforePmt(clockPcr)
    ensures RunAt(Sample(clockPcr), inputs, 2) == BeforeEit(clockPcr, pcrPid)
    ensures RunAt(Sample(clockPcr), inputs, 3) == AfterPrelude(clockPcr, pcrPid, event)
    ensures forall n :: 0 <= n < 3 ==> ValidInput(Sample(clockPcr), inputs, n)
  {
    var prelude := Prelude(pcrPid, event);
    assert inputs[0] == prelude[0] && inputs[1] == prelude[1] && inputs[2] == prelude[2];
    HandlesPat(clockPcr, pcrPid, event);
    HandlesPmt(clockPcr, pcrPid, event);
    HandlesEit(clockPcr, pcrPid, event);
  }

  /** A packet without tables. */
  lemma {:induction false} PlainInput(r: Run, option: Settings, input: Input)
    requires input.tables == []
    ensures r.Handled(option, input) == r.Step(option.preStreaming, input.packet)
  {
  }

  /** An input that completes no PMT. */
  lemma {:induction false} NoPmt(option: Settings, inputs: seq<Input>, n: nat)
    requires n < |inputs| && forall t :: t in inputs[n].tables ==> !t.Pmt? && PatFed(option.sid, inputs[n].packet, t)
    ensures ValidInput(option, inputs, n)
  {
  }

  /** A packet that streaming passes on. */
  lemma {:induction false} Passes(r: Run, option: Settings, input: Input)
    requires input.tables == [] && r.streaming && r.outcome == Continue && !r.known.stop
    requires r.known.HasPcr(input.packet) && r.known.clockPcr.Some? && r.known.clockTime.Some?
    requires r.known.Decide(input.packet) == Hold || r.known.Decide(input.packet) == Go
    requires input.packet.pid != r.known.pmtPid && input.packet.pid !in r.known.blackList
    ensures r.Handled(option, input) == r.(sent := r.sent + [Original(input.packet)])
  {
  }

  // Runs that abort

  const EVENT: Event := Event(1, 0, 10)

  /** What has been sent once a packet without further tables has started the program. */
  function Opened(pcr: int): seq<Forwarded> {
    [Original(Plain(PID_PAT, None, []).packet), CYCLE.Packet(), Original(Plain(0x100, Some(pcr), []).packet)]
  }

  /** The first PCR inside the window starts the program of a prelude. */
  lemma {:induction false} Starts(clockPcr: int, event: Event, pcr: int)
    requires ValidPcr(clockPcr) && Prepared(clockPcr, 0x100, event).Decide(Plain(0x100, Some(pcr), []).packet) == Go
    ensures AfterPrelude(clockPcr, 0x100, event).Handled(Sample(clockPcr), Plain(0x100, Some(pcr), [])) ==
            AfterPrelude(clockPcr, 0x100, event).(streaming := true, lastPat := [], sent := Opened(pcr))
  {
    var r, input := AfterPrelude(clockPcr, 0x100, event), Plain(0x100, Some(pcr), []);
    PlainInput(r, Sample(clockPcr), input);
    assert Originals(r.lastPat) == [Original(Plain(PID_PAT, None, []).packet)];
    assert CyclePackets(CYCLE) == [CYCLE.Packet()];
  }

  /**
   The program has begun; then a PAT moves the PMT to another PID, and a packet on that PID arrives before
   the PMT that it belongs to is complete.
   */
  const MOVING_PMT: seq<Input> := Prelude(0x100, EVENT) + [
    Plain(0x100, Some(0), []),
    Plain(PID_PAT, None, [Pat(PID_PAT, 4, true, 1, map[1 := 0x201])]),
    Plain(0x201, None, [])]

  lemma {:induction false} BeginsAtZero()
    ensures AfterPrelude(0, 0x100, EVENT).Handled(Sample(0), Plain(0x100, Some(0), [])) ==
            AfterPrelude(0, 0x100, EVENT).(streaming := true, lastPat := [], sent := Opened(0))
  {
    assert PcrAt(0, 0, 0) == 0 && PcrAt(0, 0, 10000) == 270_000_000;
    Starts(0, EVENT, 0);
  }

  lemma {:induction false} Moves(r: Run, t: Table)
    requires r.streaming && r.outcome == Continue && !r.known.stop && !r.known.IsBroken()
    requires t == Pat(PID_PAT, 4, true, 1, map[1 := 0x201])
    requires r.known.pcrPid == Some(0x100) && PID_PAT !in r.known.blackList
    ensures r.Handled(Sample(0), Plain(PID_PAT, None, [t])) ==
            r.(known := r.known.(pmtPid := 0x201), sent := r.sent + [Original(Plain(PID_PAT, None, []).packet)])
  {
    var heard := r.HeardTable(Sample(0), t);
    assert r.Heard(Sample(0), [t], 0) == r;
    assert r.Heard(Sample(0), [t], 1) == heard;
  }

  lemma {:induction false} Stale(r: Run, input: Input)
    requires r.streaming && r.outcome == Continue && !r.known.stop && r.known.IsStale()
    requires input.tables == [] && input.packet.pid == r.known.pmtPid && r.known.pcrPid != Some(r.known.pmtPid)
    ensures r.Handled(Sample(0), input).outcome == Abort
  {
  }

  /** The assertion on PMT packets fails after five inputs that go on. */
  lemma {:induction false} AbortIsReachable()
    ensures ValidRun(Sample(0), MOVING_PMT) && |MOVING_PMT| == 6
    ensures RunAt(Sample(0), MOVING_PMT, 5).outcome == Continue && RunAt(Sample(0), MOVING_PMT, 6).outcome == Abort
  {
    PreludeRuns(0, 0x100, EVENT, MOVING_PMT);
    BeginsAtZero();
    var r := RunAt(Sample(0), MOVING_PMT, 4);
    assert r == AfterPrelude(0, 0x100, EVENT).(streaming := true, lastPat := [], sent := Opened(0));
    Moves(r, MOVING_PMT[4].tables[0]);
    Stale(RunAt(Sample(0), MOVING_PMT, 5), MOVING_PMT[5]);
    NoPmt(Sample(0), MOVING_PMT, 3);
    NoPmt(Sample(0), MOVING_PMT, 4);
    NoPmt(Sample(0), MOVING_PMT, 5);
  }

  /** A PCR out of range that is compared with the event. */
  const BAD_PACKET: seq<Input> := Prelude(0x100, EVENT) + [Plain(0x100, Some(BAD_PCR), [])]

  lemma {:induction false} BadPcrAborts()
    ensures !ValidPcr(BAD_PCR) && ValidRun(Sample(0), BAD_PACKET) && |BAD_PACKET| == 4
    ensures RunAt(Sample(0), BAD_PACKET, 3).outcome == Continue && RunAt(Sample(0), BAD_PACKET, 4).outcome == Abort
  {
    PreludeRuns(0, 0x100, EVENT, BAD_PACKET);
    PlainInput(RunAt(Sample(0), BAD_PACKET, 3), Sample(0), BAD_PACKET[3]);
    NoPmt(Sample(0), BAD_PACKET, 3);
  }

  /** The clock that the filter is started with is out of range, which matters once the event is known. */
  lemma {:induction false} BadClockAborts()
    ensures
      var inputs := Prelude(0x100, EVENT);
      && ValidRun(Sample(BAD_PCR), inputs)
      && RunAt(Sample(BAD_PCR), inputs, 2).outcome == Continue && RunAt(Sample(BAD_PCR), inputs, 3).outcome == Abort
  {
    PreludeRuns(BAD_PCR, 0x100, EVENT, Prelude(0x100, EVENT));
  }

  /** A PCR out of range is stored for a clock that has no time, and aborts when the time comes. */
  const LATE_TIME: seq<Input> := Prelude(0x101, EVENT) + [
    Plain(0x101, Some(BAD_PCR), []),
    Plain(PID_TOT, None, [Tot(true, 0)])]

  lemma {:induction false} StoredPcrAborts()
    ensures ValidRun(Sample(0), LATE_TIME) && |LATE_TIME| == 5
    ensures RunAt(Sample(0), LATE_TIME, 4).outcome == Continue && RunAt(Sample(0), LATE_TIME, 5).outcome == Abort
  {
    PreludeRuns(0, 0x101, EVENT, LATE_TIME);
    var r := AfterPrelude(0, 0x101, EVENT);
    PlainInput(r, Sample(0), LATE_TIME[3]);
    assert RunAt(Sample(0), LATE_TIME, 4) == r.(known := r.known.(clockPcr := Some(BAD_PCR)));
    TableInput(RunAt(Sample(0), LATE_TIME, 4), 0, LATE_TIME[4].packet, LATE_TIME[4].tables[0]);
    NoPmt(Sample(0), LATE_TIME, 3);
    NoPmt(Sample(0), LATE_TIME, 4);
  }

  // Runs that miss an end of the window

  /** The clock shows the last PCR before the wrap at the end of the event. */
  const LAST_TICK: Event := Event(1, -1000, 1)

  /** A PCR one tick before the end, and one a tick after it, which has wrapped. */
  const PAST_THE_END: seq<Input> :=
    Prelude(0x100, LAST_TICK) + [Plain(0x100, Some(MAX_PCR - 1), []), Plain(0x100, Some(0), [])]

  lemma LastTick()
    ensures
      var k := Prepared(MAX_PCR, 0x100, LAST_TICK);
      && k.Decide(Plain(0x100, Some(MAX_PCR - 1), []).packet) == Go
      && k.Decide(Plain(0x100, Some(0), []).packet) == Hold && Wrap(PCR_UPPER_BOUND) == 0
      && Bounded(k, PCR_UPPER_BOUND - 1 - TICKS_PER_SEC, PCR_UPPER_BOUND - 1)
  {
    assert Wrap(PCR_UPPER_BOUND) == 0;
    assert PcrAt(MAX_PCR, 0, 0) == MAX_PCR && PcrAt(MAX_PCR, 0, -1000) == MAX_PCR - 27_000_000;
  }

  lemma {:induction false} LastTickRuns()
    ensures ValidRun(Sample(MAX_PCR), PAST_THE_END) && |PAST_THE_END| == 5
    ensures RunAt(Sample(MAX_PCR), PAST_THE_END, 5) ==
            AfterPrelude(MAX_PCR, 0x100, LAST_TICK).(
              streaming := true, lastPat := [], sent := Opened(MAX_PCR - 1) + [Original(PAST_THE_END[4].packet)])
  {
    var option, inputs := Sample(MAX_PCR), PAST_THE_END;
    PreludeRuns(MAX_PCR, 0x100, LAST_TICK, inputs);
    LastTick();
    Starts(MAX_PCR, LAST_TICK, MAX_PCR - 1);
    var r := AfterPrelude(MAX_PCR, 0x100, LAST_TICK).(streaming := true, lastPat := [], sent := Opened(MAX_PCR - 1));
    assert RunAt(option, inputs, 4) == r;
    Passes(r, option, inputs[4]);
    NoPmt(option, inputs, 3);
    NoPmt(option, inputs, 4);
  }

  /** The end of the event is a tick before the last PCR, and still the stream goes on. */
  lemma {:induction false} EndIsMissed()
    ensures
      var r, packet := RunAt(Sample(MAX_PCR), PAST_THE_END, 5), PAST_THE_END[4].packet;
      var end, x := PCR_UPPER_BOUND - 1, PCR_UPPER_BOUND;
      && Bounded(r.known, end - TICKS_PER_SEC, end) && r.known.HasPcr(packet) && packet.pcr == Some(Wrap(x)) && x > end
      && r.streaming && r.outcome == Continue && r.sent == Opened(MAX_PCR - 1) + [Original(packet)]
  {
    LastTickRuns();
    LastTick();
  }

  /** The event starts a second before the wrap and lasts eleven. */
  const ACROSS: Event := Event(1, -1000, 11)

  const PAST_THE_START: seq<Input> := Prelude(0x100, ACROSS) + [Plain(0x100, Some(0), [])]

  lemma Across()
    ensures
      var k := Prepared(MAX_PCR, 0x100, ACROSS);
      && k.Decide(Plain(0x100, Some(0), []).packet) == Hold && Wrap(PCR_UPPER_BOUND) == 0
      && Bounded(k, PCR_UPPER_BOUND - 1 - TICKS_PER_SEC, PCR_UPPER_BOUND - 1 + 10 * TICKS_PER_SEC)
  {
    assert Wrap(PCR_UPPER_BOUND) == 0 && Wrap(PCR_UPPER_BOUND + 269_999_999) == 269_999_999;
    assert PcrAt(MAX_PCR, 0, 10000) == 269_999_999 && PcrAt(MAX_PCR, 0, -1000) == MAX_PCR - 27_000_000;
  }

  lemma {:induction false} AcrossRuns()
    ensures ValidRun(Sample(MAX_PCR), PAST_THE_START) && |PAST_THE_START| == 4
    ensures RunAt(Sample(MAX_PCR), PAST_THE_START, 4) == AfterPrelude(MAX_PCR, 0x100, ACROSS)
  {
    var option, inputs := Sample(MAX_PCR), PAST_THE_START;
    PreludeRuns(MAX_PCR, 0x100, ACROSS, inputs);
    Across();
    PlainInput(AfterPrelude(MAX_PCR, 0x100, ACROSS), option, inputs[3]);
    NoPmt(option, inputs, 3);
  }

  /** The last PCR lies between the start and the end of the event, and still the program does not start. */
  lemma {:induction false} StartIsMissed()
    ensures
      var r, packet := RunAt(Sample(MAX_PCR), PAST_THE_START, 4), PAST_THE_START[3].packet;
      var x := PCR_UPPER_BOUND;
      var start, end := x - 1 - TICKS_PER_SEC, x - 1 + 10 * TICKS_PER_SEC;
      && Bounded(r.known, start, end) && r.known.HasPcr(packet) && packet.pcr == Some(Wrap(x)) && start < x < end
      && !r.streaming && r.outcome == Continue && r.sent == []
  {
    AcrossRuns();
    Across();
  }

  // Runs that take the right event and the right PCR

  /** PAT, PMT and an EIT that tells the event as the one that follows. */
  const FOLLOWING: seq<Input> := Prelude(0x100, EVENT)[..2] + [
    Plain(PID_EIT, None, [Eit(true, 1, [Event(5, 0, 1800), Event(1, 1_800_000, 1800)])])]

  /** The window is that of the following event, half an hour after the clock was set. */
  lemma {:induction false} FollowingEvent()
    ensures ValidRun(Sample(0), FOLLOWING) && |FOLLOWING| == 3
    ensures RunAt(Sample(0), FOLLOWING, 3).outcome == Continue
    ensures RunAt(Sample(0), FOLLOWING, 3).known.event == Some((1_800_000, 3_600_000))
  {
    FollowingPrelude();
    TableInput(BeforeEit(0, 0x100), 0, FOLLOWING[2].packet, FOLLOWING[2].tables[0]);
    NoPmt(Sample(0), FOLLOWING, 2);
  }

  lemma {:induction false} FollowingPrelude()
    ensures |FOLLOWING| == 3 && RunAt(Sample(0), FOLLOWING, 2) == BeforeEit(0, 0x100)
    ensures forall n :: 0 <= n < 2 ==> ValidInput(Sample(0), FOLLOWING, n)
  {
    var prelude := Prelude(0x100, EVENT);
    assert FOLLOWING[0] == prelude[0] && FOLLOWING[1] == prelude[1];
    HandlesPat(0, 0x100, EVENT);
    HandlesPmt(0, 0x100, EVENT);
    assert RunAt(Sample(0), FOLLOWING, 0) == AtRest(Sample(0));
    assert RunAt(Sample(0), FOLLOWING, 1) == BeforePmt(0);
  }

  /** The PCR PID changes; two PCRs and then a time come. */
  function Resync(a: int, b: int, time: int): seq<Input> {
    Prelude(0x101, EVENT) + [
      Plain(0x101, Some(a), []),
      Plain(0x101, Some(b), []),
      Plain(PID_TOT, None, [Tot(true, time)])]
  }

  /** A clock without a time takes every PCR. */
  lemma {:induction false} TakesPcr(before: Option<int>, pcr: int)
    ensures
      var r := AfterPrelude(0, 0x101, EVENT);
      r.(known := r.known.(clockPcr := before)).Handled(Sample(0), Plain(0x101, Some(pcr), [])) ==
      r.(known := r.known.(clockPcr := Some(pcr)))
  {
    var r := AfterPrelude(0, 0x101, EVENT);
    PlainInput(r.(known := r.known.(clockPcr := before)), Sample(0), Plain(0x101, Some(pcr), []));
  }

  lemma {:induction false} TakesBoth(a: int, b: int, time: int)
    ensures
      var r := AfterPrelude(0, 0x101, EVENT);
      RunAt(Sample(0), Resync(a, b, time), 5) == r.(known := r.known.(clockPcr := Some(b)))
  {
    var option, inputs, r := Sample(0), Resync(a, b, time), AfterPrelude(0, 0x101, EVENT);
    PreludeRuns(0, 0x101, EVENT, inputs);
    TakesPcr(None, a);
    assert r == r.(known := r.known.(clockPcr := None));
    assert RunAt(option, inputs, 4) == r.(known := r.known.(clockPcr := Some(a)));
    TakesPcr(Some(a), b);
  }

  /** The time belongs to the last PCR before it. */
  lemma {:induction false} LastPcrCounts(a: int, b: int, time: int)
    requires ValidPcr(b)
    ensures
      var r := RunAt(Sample(0), Resync(a, b, time), 6);
      r.outcome == Continue && r.known.clockPcr == Some(b) && r.known.clockTime == Some(time)
  {
    var inputs, r := Resync(a, b, time), AfterPrelude(0, 0x101, EVENT);
    TakesBoth(a, b, time);
    TableInput(r.(known := r.known.(clockPcr := Some(b))), 0, inputs[5].packet, inputs[5].tables[0]);
  }
}
