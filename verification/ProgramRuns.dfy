/**
 Whole runs of the program filter: the window it streams while nothing changes clock or event, how any
 run ends, and what its exit code says.
 */
module ProgramRuns {
  import opened Tables
  import opened Pcr
  import opened Sinks
  import opened ProgramFiltering

  // The window of a program

  /** A packet with its tables and, if it has a PCR, the unwrapped position of that PCR. */
  datatype Timed = Timed(input: Input, x: int) {
    function Packet(): Packet {
      input.packet
    }
  }

  predicate Near(x: int, y: int) {
    -PCR_UPPER_BOUND < 2 * (x - y) < PCR_UPPER_BOUND
  }

  /** Clock and event are known and usable, and the PMT is loaded and still the right one. */
  predicate Ready(k: Known) {
    && k.pcrPid.Some? && k.pcrPid.value != PID_PAT && k.event.Some? && k.clockPcr.Some? && k.clockTime.Some?
    && k.loaded.Some? && !k.IsStale() && !k.stop && !k.IsBroken()
  }

  /** The PCR range of the event is that of the unwrapped positions `start` and `end`. */
  predicate Bounded(k: Known, start: int, end: int) {
    && Ready(k)
    && PcrAt(k.clockPcr.value, k.clockTime.value, k.event.value.0) == Wrap(start)
    && PcrAt(k.clockPcr.value, k.clockTime.value, k.event.value.1) == Wrap(end)
  }

  /** PCRs are within half a period of both ends of the window. */
  predicate Placed(k: Known, item: Timed, start: int, end: int) {
    k.HasPcr(item.Packet()) ==>
      item.Packet().pcr.value == Wrap(item.x) && Near(item.x, start) && Near(item.x, end)
  }

  /** The tables of the item leave what is known as it is, clock and event included. */
  ghost predicate Calm(option: Settings, k: Known, waiting: bool, item: Timed) {
    var tables := item.input.tables;
    && k.AfterTables(option, waiting, tables, |tables|) == k
    && forall i :: 0 <= i < |tables| ==> Fed(option.sid, k.pmtPid, item.Packet(), tables[i])
  }

  ghost predicate SteadyAt(option: Settings, k: Known, items: seq<Timed>, i: nat, start: int, end: int)
    requires i < |items|
  {
    && Placed(k, items[i], start, end)
    && Calm(option, k, i <= FirstIn(k, items, start, end, 0), items[i])
  }

  /** Whatever tables come, none changes what is known. */
  ghost predicate Steady(option: Settings, k: Known, items: seq<Timed>, start: int, end: int) {
    Bounded(k, start, end) && forall i :: 0 <= i < |items| ==> SteadyAt(option, k, items, i, start, end)
  }

  /** A waiting run whose PMT packets are those that were loaded. */
  predicate Idle(r: Run) {
    !r.streaming && r.outcome == Continue && r.known.loaded == Some(r.cycle) && r.cycle.next == 0
  }

  /** The wrapped comparisons decide by the unwrapped positions, as long as these have not wrapped since. */
  lemma DecideByPosition(k: Known, item: Timed, start: int, end: int)
    requires Bounded(k, start, end) && Placed(k, item, start, end)
    ensures k.Decide(item.Packet()) ==
            if !k.HasPcr(item.Packet()) then Hold
            else if Reached(item.x, end) then Over
            else if !Reached(item.x, start) then Hold
            else Go
  {
    if k.HasPcr(item.Packet()) {
      ComparesReachedIff(item.x, end);
      ComparesReachedIff(item.x, start);
    }
  }

  ghost predicate StepAt(option: Settings, runs: seq<Run>, items: seq<Timed>, i: nat)
    requires i < |items| < |runs|
  {
    runs[i + 1] == runs[i].Handled(option, items[i].input)
  }

  /** The run before each of the items, and after the last one. */
  ghost predicate Trace(option: Settings, runs: seq<Run>, items: seq<Timed>) {
    |runs| == |items| + 1 && forall i :: 0 <= i < |items| ==> StepAt(option, runs, items, i)
  }

  /** A run that begins to wait for a program from `start` to `end`, with clock and event fixed. */
  ghost predicate IsProgram(option: Settings, runs: seq<Run>, items: seq<Timed>, start: int, end: int) {
    Trace(option, runs, items) && Idle(runs[0]) && Steady(option, runs[0].known, items, start, end)
  }

  /** Every run has its trace. */
  ghost function RunsFrom(option: Settings, r: Run, items: seq<Timed>, n: nat): (runs: seq<Run>)
    requires n <= |items|
    ensures |runs| == n + 1 && runs[0] == r
    ensures forall i :: 0 <= i < n ==> runs[i + 1] == runs[i].Handled(option, items[i].input)
  {
    if n == 0 then [r]
    else
      var runs := RunsFrom(option, r, items, n - 1);
      runs + [runs[n - 1].Handled(option, items[n - 1].input)]
  }

  lemma IsTrace(option: Settings, r: Run, items: seq<Timed>)
    ensures Trace(option, RunsFrom(option, r, items, |items|), items)
  {
  }

  predicate LoadsAmong(sid: int, tables: seq<Table>, n: nat)
    requires n <= |tables|
  {
    n > 0 && (Loads(sid, tables[n - 1]) || LoadsAmong(sid, tables, n - 1))
  }

  /** The same PMT, loaded again, starts its packets over. */
  function Reloaded(sid: int, c: Cycle, item: Timed): Cycle {
    if LoadsAmong(sid, item.input.tables, |item.input.tables|) then c.(next := 0) else c
  }

  /** What tables make of a run, table by table. */
  lemma {:induction false} HeardMeans(option: Settings, r: Run, tables: seq<Table>, n: nat)
    requires n <= |tables| && r.outcome == Continue && !r.known.IsBroken()
    requires r.known.loaded == Some(r.cycle.(next := 0))
    ensures
      var h, k := r.Heard(option, tables, n), r.known.AfterTables(option, !r.streaming, tables, n);
      && h == r.(known := k, cycle := h.cycle, outcome := if k.IsBroken() then Abort else Continue)
      && (!k.IsBroken() ==>
            k.loaded == Some(h.cycle.(next := 0)) &&
            h.cycle == if LoadsAmong(option.sid, tables, n) then h.cycle.(next := 0) else r.cycle)
  {
    if n > 0 {
      HeardMeans(option, r, tables, n - 1);
    }
  }

  /** Tables that leave what is known can only start the packets of the PMT over. */
  lemma {:induction false} CalmStep(option: Settings, s: Run, item: Timed)
    requires s.outcome == Continue && !s.known.IsBroken() && s.known.loaded == Some(s.cycle.(next := 0))
    requires Calm(option, s.known, !s.streaming, item)
    ensures s.Handled(option, item.input) ==
            s.(cycle := Reloaded(option.sid, s.cycle, item)).Step(option.preStreaming, item.Packet())
  {
    HeardMeans(option, s, item.input.tables, |item.input.tables|);
  }

  ghost function Pats(pre: bool, items: seq<Timed>, n: nat): seq<Forwarded>
    requires n <= |items|
  {
    if n == 0 then []
    else Pats(pre, items, n - 1)
         + if pre && items[n - 1].Packet().pid == PID_PAT then [Original(items[n - 1].Packet())] else []
  }

  ghost function SavedPat(pre: bool, lastPat: seq<Packet>, items: seq<Timed>, n: nat): seq<Packet>
    requires n <= |items|
  {
    if n == 0 || pre then lastPat
    else Saved(SavedPat(pre, lastPat, items, n - 1), items[n - 1].Packet())
  }

  /** The PAT packets among items `from` to `n`. */
  ghost function PatPackets(items: seq<Timed>, from: nat, n: nat): seq<Packet>
    requires from <= n <= |items|
  {
    if n == from then []
    else PatPackets(items, from, n - 1) + if items[n - 1].Packet().pid == 0x0000 then [items[n - 1].Packet()] else []
  }

  /** Item `j` is the last PAT packet before item `n` that starts a PAT. */
  ghost predicate StartsPat(items: seq<Timed>, j: int, n: int) {
    && 0 <= j < n <= |items| && items[j].Packet().pid == 0x0000 && items[j].Packet().pusi
    && forall i :: j < i < n ==> !(items[i].Packet().pid == 0x0000 && items[i].Packet().pusi)
  }

  /** The saved PAT is made of the packets since the last one that starts a PAT. */
  lemma {:induction false} SavedIsLatest(lastPat: seq<Packet>, items: seq<Timed>, j: nat, n: nat)
    requires StartsPat(items, j, n)
    ensures SavedPat(false, lastPat, items, n) == PatPackets(items, j, n)
  {
    if j < n - 1 {
      SavedIsLatest(lastPat, items, j, n - 1);
    } else {
      assert PatPackets(items, j, j) == [];
    }
  }

  /** A packet within the program that is passed on as it came although its stream may be black-listed. */
  predicate Slips(k: Known, packet: Packet) {
    k.pcrPid == Some(packet.pid) && packet.pcr.None?
  }

  /** What streaming makes of a packet that does not end it, with PMT packet `c` next. */
  function Emit(k: Known, c: Cycle, packet: Packet): seq<Forwarded> {
    if Slips(k, packet) then [Original(packet)]
    else if packet.pid == k.pmtPid then [c.Packet()]
    else if packet.pid in k.blackList then []
    else [Original(packet)]
  }

  /** The PMT packets after a packet that streaming does not end at. */
  function Turned(k: Known, c: Cycle, packet: Packet): Cycle {
    if packet.pid == k.pmtPid && !Slips(k, packet) then c.Advance() else c
  }

  ghost function CycleAt(sid: int, k: Known, c: Cycle, items: seq<Timed>, from: nat, n: nat): (d: Cycle)
    requires from <= n <= |items|
    ensures d.(next := 0) == c.(next := 0)
  {
    if n == from then c
    else Turned(k, Reloaded(sid, CycleAt(sid, k, c, items, from, n - 1), items[n - 1]), items[n - 1].Packet())
  }

  /** A PMT is loaded if and only if one of the tables is a usable one of the service. */
  lemma {:induction false} LoadsIff(sid: int, tables: seq<Table>, n: nat)
    requires n <= |tables|
    ensures LoadsAmong(sid, tables, n) <==> exists i :: 0 <= i < n && IsPmtOf(sid, tables[i])
  {
    if n > 0 {
      LoadsIff(sid, tables, n - 1);
    }
  }

  /** How many packets among items `from` to `n` are replaced by PMT packets. */
  ghost function PmtCount(k: Known, items: seq<Timed>, from: nat, n: nat): nat
    requires from <= n <= |items|
  {
    if n == from then 0
    else
      var packet := items[n - 1].Packet();
      PmtCount(k, items, from, n - 1)
      + if packet.pid == k.pmtPid && !(k.pcrPid == Some(packet.pid) && packet.pcr.None?) then 1 else 0
  }

  /** After `turns` whole turns and `next` more packets, `count` packets have been sent since packet `first`. */
  ghost predicate IsTurned(first: nat, count: nat, size: nat, turns: nat, next: nat) {
    first + count == turns * size + next && next < size
  }

  /** The packets of the PMT come round and round, as long as it is not loaded again. */
  lemma {:induction false} CycleTurns(sid: int, k: Known, c: Cycle, items: seq<Timed>, from: nat, n: nat)
    requires from <= n <= |items| && c.next < c.size
    requires forall i :: from <= i < n ==> !LoadsAmong(sid, items[i].input.tables, |items[i].input.tables|)
    ensures exists turns: nat :: IsTurned(c.next, PmtCount(k, items, from, n), c.size, turns,
                                     CycleAt(sid, k, c, items, from, n).next)
  {
    if n == from {
      assert IsTurned(c.next, PmtCount(k, items, from, n), c.size, 0, CycleAt(sid, k, c, items, from, n).next);
    } else {
      CycleTurns(sid, k, c, items, from, n - 1);
      var d, count := CycleAt(sid, k, c, items, from, n - 1), PmtCount(k, items, from, n - 1);
      var turns: nat :| IsTurned(c.next, count, c.size, turns, d.next);
      if PmtCount(k, items, from, n) > count {
        turns := TurnNext(c.next, count, c.size, turns, d.next);
      }
      assert IsTurned(c.next, PmtCount(k, items, from, n), c.size, turns, CycleAt(sid, k, c, items, from, n).next);
    }
  }

  lemma TurnNext(first: nat, count: nat, size: nat, turns: nat, next: nat) returns (more: nat)
    requires IsTurned(first, count, size, turns, next)
    ensures IsTurned(first, count + 1, size, more, if next + 1 == size then 0 else next + 1)
  {
    more := if next + 1 == size then turns + 1 else turns;
    assert (turns + 1) * size == turns * size + size;
  }

  /** What streaming adds to `sent` for items `from` to `n`. */
  ghost function Streamed(sid: int, sent: seq<Forwarded>, k: Known, c: Cycle, items: seq<Timed>, from: nat, n: nat)
    : seq<Forwarded>
    requires from <= n <= |items|
  {
    if n == from then sent
    else
      Streamed(sid, sent, k, c, items, from, n - 1)
      + Emit(k, Reloaded(sid, CycleAt(sid, k, c, items, from, n - 1), items[n - 1]), items[n - 1].Packet())
  }

  ghost predicate NotOver(k: Known, items: seq<Timed>, from: nat, n: nat, end: int)
    requires n <= |items|
  {
    forall i :: from <= i < n && k.HasPcr(items[i].Packet()) ==> !Reached(items[i].x, end)
  }

  /** Until a PCR reaches the window, PATs are all that is sent or kept. */
  lemma {:induction false} WaitingPhase(option: Settings, runs: seq<Run>, items: seq<Timed>, n: nat,
                                        start: int, end: int)
    requires IsProgram(option, runs, items, start, end)
    requires n <= FirstIn(runs[0].known, items, start, end, 0)
    ensures
      var pre := option.preStreaming;
      runs[n] ==
      runs[0].(lastPat := SavedPat(pre, runs[0].lastPat, items, n), sent := runs[0].sent + Pats(pre, items, n))
  {
    if n > 0 {
      WaitingPhase(option, runs, items, n - 1, start, end);
      assert SteadyAt(option, runs[0].known, items, n - 1, start, end);
      assert StepAt(option, runs, items, n - 1);
      CalmStep(option, runs[n - 1], items[n - 1]);
      DecideByPosition(runs[0].known, items[n - 1], start, end);
    }
  }

  lemma {:induction false} StreamingStep(s: Run, pre: bool, item: Timed, start: int, end: int)
    requires Bounded(s.known, start, end) && Placed(s.known, item, start, end)
    requires s.streaming && s.outcome == Continue
    requires s.known.HasPcr(item.Packet()) ==> !Reached(item.x, end)
    ensures s.Step(pre, item.Packet()) ==
            s.(sent := s.sent + Emit(s.known, s.cycle, item.Packet()), cycle := Turned(s.known, s.cycle, item.Packet()))
  {
    DecideByPosition(s.known, item, start, end);
  }

  /** A run that streams with what is known and the packets of the loaded PMT. */
  predicate Flowing(k: Known, s: Run) {
    s.known == k && s.streaming && s.outcome == Continue && k.loaded == Some(s.cycle.(next := 0))
  }

  /** Until a PCR reaches the end, packets are streamed. */
  lemma {:induction false} StreamingPhase(option: Settings, runs: seq<Run>, items: seq<Timed>, from: nat, n: nat,
                                          start: int, end: int)
    requires IsProgram(option, runs, items, start, end)
    requires FirstIn(runs[0].known, items, start, end, 0) < from <= n <= |items|
    requires NotOver(runs[0].known, items, from, n, end)
    requires Flowing(runs[0].known, runs[from])
    ensures
      var s := runs[from];
      runs[n] == s.(sent := Streamed(option.sid, s.sent, runs[0].known, s.cycle, items, from, n),
                    cycle := CycleAt(option.sid, runs[0].known, s.cycle, items, from, n))
    ensures Flowing(runs[0].known, runs[n])
  {
    if from < n {
      StreamingPhase(option, runs, items, from, n - 1, start, end);
      var s, item := runs[n - 1], items[n - 1];
      assert SteadyAt(option, runs[0].known, items, n - 1, start, end);
      assert StepAt(option, runs, items, n - 1);
      CalmStep(option, s, item);
      StreamingStep(s.(cycle := Reloaded(option.sid, s.cycle, item)), option.preStreaming, item, start, end);
    }
  }

  /** After the end nothing more happens. */
  lemma {:induction false} OverPhase(option: Settings, runs: seq<Run>, items: seq<Timed>, n: nat, m: nat)
    requires Trace(option, runs, items) && n <= m <= |items| && runs[n].outcome != Continue
    ensures runs[m] == runs[n]
  {
    if n < m {
      OverPhase(option, runs, items, n, m - 1);
      var tables := items[m - 1].input.tables;
      assert StepAt(option, runs, items, m - 1);
      runs[m - 1].HeardStays(option, tables, 0, |tables|);
    }
  }

  /** The first item whose PCR has reached the start or the end of the window, or the end of the items. */
  ghost function FirstIn(k: Known, items: seq<Timed>, start: int, end: int, n: nat): (begin: nat)
    requires n <= |items|
    ensures n <= begin <= |items|
    ensures forall i :: n <= i < begin && k.HasPcr(items[i].Packet()) ==>
              !Reached(items[i].x, start) && !Reached(items[i].x, end)
    ensures begin < |items| ==>
              k.HasPcr(items[begin].Packet()) && (Reached(items[begin].x, start) || Reached(items[begin].x, end))
    decreases |items| - n
  {
    if n == |items| then n
    else if k.HasPcr(items[n].Packet()) && (Reached(items[n].x, start) || Reached(items[n].x, end)) then n
    else FirstIn(k, items, start, end, n + 1)
  }

  /** The first item from `from` on whose PCR has reached the end, or the end of the items. */
  ghost function FirstOver(k: Known, items: seq<Timed>, end: int, from: nat): (n: nat)
    requires from <= |items|
    ensures from <= n <= |items| && NotOver(k, items, from, n, end)
    ensures n < |items| ==> k.HasPcr(items[n].Packet()) && Reached(items[n].x, end)
    decreases |items| - from
  {
    if from == |items| then from
    else if k.HasPcr(items[from].Packet()) && Reached(items[from].x, end) then from
    else FirstOver(k, items, end, from + 1)
  }

  /** What has been sent once item `n` has started the stream. */
  ghost function Opening(r: Run, pre: bool, items: seq<Timed>, n: nat): seq<Forwarded>
    requires n < |items|
  {
    r.sent + Pats(pre, items, n)
    + (if pre then [] else Originals(SavedPat(pre, r.lastPat, items, n)))
    + CyclePackets(r.cycle)
    + [Original(items[n].Packet())]
  }

  /** Everything sent by the end of a program from `start` to `end`. */
  ghost function WindowSent(option: Settings, r: Run, items: seq<Timed>, start: int, end: int): seq<Forwarded> {
    var begin := FirstIn(r.known, items, start, end, 0);
    if begin == |items| || Reached(items[begin].x, end) then r.sent + Pats(option.preStreaming, items, begin)
    else
      Streamed(option.sid, Opening(r, option.preStreaming, items, begin), r.known, r.cycle, items, begin + 1,
               FirstOver(r.known, items, end, begin + 1))
  }

  /**
   With clock and event fixed: only PATs before the first PCR inside the window, then the saved PAT, a
   full PMT cycle and that packet, then the stream, and nothing from the first PCR at or past the end.
   A PCR counts as at or past an end if it is, and has not wrapped since. The PMT may be loaded again,
   which starts its packets over.
   */
  lemma {:induction false} ProgramWindow(option: Settings, runs: seq<Run>, items: seq<Timed>, start: int, end: int)
    requires IsProgram(option, runs, items, start, end)
    ensures
      var final := runs[|items|];
      var begin := FirstIn(runs[0].known, items, start, end, 0);
      && final.sent == WindowSent(option, runs[0], items, start, end)
      && final.outcome == (if FirstOver(runs[0].known, items, end, 0) < |items| then Finish else Continue)
      && (final.streaming <==> begin < |items| && !Reached(items[begin].x, end))
  {
    var begin := FirstIn(runs[0].known, items, start, end, 0);
    FirstOverSkips(runs[0].known, items, end, 0, begin);
    if begin < |items| && !Reached(items[begin].x, end) {
      FirstOverSkips(runs[0].known, items, end, begin, begin + 1);
      WindowOpens(option, runs, items, start, end);
    } else {
      WindowStaysShut(option, runs, items, start, end);
    }
  }

  lemma {:induction false} WindowStaysShut(option: Settings, runs: seq<Run>, items: seq<Timed>, start: int, end: int)
    requires IsProgram(option, runs, items, start, end)
    requires
      var begin := FirstIn(runs[0].known, items, start, end, 0);
      begin < |items| ==> Reached(items[begin].x, end)
    ensures
      var final := runs[|items|];
      var begin := FirstIn(runs[0].known, items, start, end, 0);
      && final.sent == runs[0].sent + Pats(option.preStreaming, items, begin) && !final.streaming
      && final.outcome == if begin < |items| then Finish else Continue
  {
    var begin := FirstIn(runs[0].known, items, start, end, 0);
    WaitingPhase(option, runs, items, begin, start, end);
    if begin < |items| {
      EndPhase(option, runs, items, begin, |items|, start, end);
    }
  }

  lemma {:induction false} WindowOpens(option: Settings, runs: seq<Run>, items: seq<Timed>, start: int, end: int)
    requires IsProgram(option, runs, items, start, end)
    requires
      var begin := FirstIn(runs[0].known, items, start, end, 0);
      begin < |items| && !Reached(items[begin].x, end)
    ensures
      var final := runs[|items|];
      var begin := FirstIn(runs[0].known, items, start, end, 0);
      var stop := FirstOver(runs[0].known, items, end, begin + 1);
      && final.sent ==
         Streamed(option.sid, Opening(runs[0], option.preStreaming, items, begin), runs[0].known, runs[0].cycle, items,
                  begin + 1, stop)
      && final.outcome == (if stop < |items| then Finish else Continue) && final.streaming
  {
    BeginPhase(option, runs, items, start, end);
    WindowCloses(option, runs, items, FirstIn(runs[0].known, items, start, end, 0) + 1, start, end);
  }

  /** Once streaming, the stream goes on to the first PCR at or past the end. */
  lemma {:induction false} WindowCloses(option: Settings, runs: seq<Run>, items: seq<Timed>, from: nat,
                                        start: int, end: int)
    requires IsProgram(option, runs, items, start, end)
    requires FirstIn(runs[0].known, items, start, end, 0) < from <= |items|
    requires Flowing(runs[0].known, runs[from])
    ensures
      var s, final := runs[from], runs[|items|];
      var stop := FirstOver(runs[0].known, items, end, from);
      && final.sent == Streamed(option.sid, s.sent, runs[0].known, s.cycle, items, from, stop)
      && final.outcome == (if stop < |items| then Finish else Continue) && final.streaming
  {
    var stop := FirstOver(runs[0].known, items, end, from);
    StreamingPhase(option, runs, items, from, stop, start, end);
    if stop < |items| {
      EndPhase(option, runs, items, stop, |items|, start, end);
    }
  }

  lemma {:induction false} BeginStep(s: Run, pre: bool, packet: Packet)
    requires !s.streaming && s.outcome == Continue && Ready(s.known)
    requires s.known.HasPcr(packet) && s.known.Decide(packet) == Go
    ensures
      var next := s.Step(pre, packet);
      && next == s.(streaming := true, lastPat := next.lastPat, sent := next.sent)
      && next.sent == s.sent + (if pre then [] else Originals(s.lastPat)) + CyclePackets(s.cycle) + [Original(packet)]
  {
  }

  /** The first PCR inside the window starts the stream. */
  lemma {:induction false} BeginPhase(option: Settings, runs: seq<Run>, items: seq<Timed>, start: int, end: int)
    requires IsProgram(option, runs, items, start, end)
    requires
      var begin := FirstIn(runs[0].known, items, start, end, 0);
      begin < |items| && !Reached(items[begin].x, end)
    ensures
      var begin := FirstIn(runs[0].known, items, start, end, 0);
      var s := runs[begin + 1];
      && Flowing(runs[0].known, s) && s.cycle == runs[0].cycle
      && s.sent == Opening(runs[0], option.preStreaming, items, begin)
  {
    var begin := FirstIn(runs[0].known, items, start, end, 0);
    WaitingPhase(option, runs, items, begin, start, end);
    assert SteadyAt(option, runs[0].known, items, begin, start, end);
    var s := runs[begin];
    assert StepAt(option, runs, items, begin);
    CalmStep(option, s, items[begin]);
    DecideByPosition(runs[0].known, items[begin], start, end);
    BeginStep(s, option.preStreaming, items[begin].Packet());
  }

  /** A PCR at or past the end sends nothing and ends the run. */
  lemma {:induction false} EndPhase(option: Settings, runs: seq<Run>, items: seq<Timed>, n: nat, m: nat,
                                    start: int, end: int)
    requires IsProgram(option, runs, items, start, end) && n < m <= |items|
    requires
      var s := runs[n];
      && s.known == runs[0].known && s.outcome == Continue && runs[0].known.loaded == Some(s.cycle.(next := 0))
      && (s.streaming <==> n > FirstIn(runs[0].known, items, start, end, 0))
    requires runs[0].known.HasPcr(items[n].Packet()) && Reached(items[n].x, end)
    ensures
      var s, final := runs[n], runs[m];
      final.outcome == Finish && final.sent == s.sent && final.streaming == s.streaming
  {
    assert SteadyAt(option, runs[0].known, items, n, start, end);
    assert StepAt(option, runs, items, n);
    CalmStep(option, runs[n], items[n]);
    DecideByPosition(runs[0].known, items[n], start, end);
    OverPhase(option, runs, items, n + 1, m);
  }

  lemma {:induction false} FirstOverSkips(k: Known, items: seq<Timed>, end: int, from: nat, n: nat)
    requires from <= n <= |items| && NotOver(k, items, from, n, end)
    ensures FirstOver(k, items, end, from) == FirstOver(k, items, end, n)
    decreases n - from
  {
    if from < n {
      FirstOverSkips(k, items, end, from + 1, n);
    }
  }

  // What the wrap does to the window

  /** The run ends if and only if some PCR is at or past the end, and has not wrapped since. */
  lemma {:induction false} EndsIff(option: Settings, runs: seq<Run>, items: seq<Timed>, start: int, end: int)
    requires IsProgram(option, runs, items, start, end)
    ensures runs[|items|].outcome ==
            if exists i :: 0 <= i < |items| && runs[0].known.HasPcr(items[i].Packet())
                           && items[i].x >= end && Epoch(items[i].x) <= Epoch(end)
            then Finish else Continue
  {
    ProgramWindow(option, runs, items, start, end);
    var n := FirstOver(runs[0].known, items, end, 0);
    assert n < |items| ==> items[n].x >= end && Epoch(items[n].x) <= Epoch(end);
    assert NotOver(runs[0].known, items, 0, n, end);
  }

  /**
   The program is streamed if and only if some PCR is at or past the start, and has not wrapped since,
   and none up to it is in that way at or past the end.
   */
  lemma {:induction false} StartsIff(option: Settings, runs: seq<Run>, items: seq<Timed>, start: int, end: int)
    requires IsProgram(option, runs, items, start, end)
    ensures runs[|items|].streaming <==>
            exists n :: 0 <= n < |items| && runs[0].known.HasPcr(items[n].Packet())
                        && items[n].x >= start && Epoch(items[n].x) <= Epoch(start)
                        && NotOver(runs[0].known, items, 0, n + 1, end)
  {
    ProgramWindow(option, runs, items, start, end);
    var begin := FirstIn(runs[0].known, items, start, end, 0);
    if begin < |items| && !Reached(items[begin].x, end) {
      assert NotOver(runs[0].known, items, 0, begin + 1, end);
    }
  }

  // When exactly the process aborts

  lemma {:induction false} HeardAborts(r: Run, option: Settings, tables: seq<Table>, n: nat)
    requires n <= |tables| && r.outcome == Continue && !r.known.IsBroken()
    ensures
      var k := r.known.AfterTables(option, !r.streaming, tables, n);
      && r.Heard(option, tables, n).known == k && r.Heard(option, tables, n).streaming == r.streaming
      && r.Heard(option, tables, n).outcome == if k.IsBroken() then Abort else Continue
  {
    if n > 0 {
      HeardAborts(r, option, tables, n - 1);
    }
  }

  /** The filter compares the PCR of the packet with the event. */
  predicate Compares(k: Known, pre: bool, streaming: bool, packet: Packet) {
    k.HasPcr(packet) && k.event.Some? && k.clockTime.Some? && (streaming || !k.PassesPat(pre, packet))
  }

  /** The filter sends packets of the PMT. */
  predicate SendsPmt(k: Known, pre: bool, streaming: bool, packet: Packet) {
    if streaming then packet.pid == k.pmtPid && !k.Unjudged(packet) && k.Decide(packet) != Over
    else !k.PassesPat(pre, packet) && k.Decide(packet) == Go
  }

  /**
   With a sink that takes everything an input aborts the process if and only if the tables make it
   convert an event with a clock that is out of range, or, unless it was told to stop, it compares a PCR
   that is out of range, or it sends PMT packets that are not on the current PMT PID.
   */
  lemma {:induction false} AbortsIff(r: Run, option: Settings, input: Input)
    requires r.outcome == Continue && !r.known.IsBroken()
    ensures
      var pre, packet := option.preStreaming, input.packet;
      var k := r.known.AfterTables(option, !r.streaming, input.tables, |input.tables|);
      r.Handled(option, input).outcome == Abort <==>
      || k.IsBroken()
      || (!k.stop && Compares(k, pre, r.streaming, packet) && !ValidPcr(packet.pcr.value))
      || (!k.stop && SendsPmt(k, pre, r.streaming, packet) && k.IsStale())
  {
    HeardAborts(r, option, input.tables, |input.tables|);
    var heard := r.Heard(option, input.tables, |input.tables|);
    if heard.outcome == Continue {
      heard.StepKeeps(option.preStreaming, input.packet);
    }
  }

  // Black-listed streams

  /** The packets of one PID among the first `n` that were sent. */
  ghost function OfPid(sent: seq<Forwarded>, pid: Pid, n: nat): seq<Packet>
    requires n <= |sent|
  {
    if n == 0 then []
    else OfPid(sent, pid, n - 1)
         + if sent[n - 1].Original? && sent[n - 1].packet.pid == pid then [sent[n - 1].packet] else []
  }

  lemma {:induction false} OfPidPrefix(a: seq<Forwarded>, b: seq<Forwarded>, pid: Pid, n: nat)
    requires n <= |a|
    ensures OfPid(a + b, pid, n) == OfPid(a, pid, n)
  {
    if n > 0 {
      OfPidPrefix(a, b, pid, n - 1);
    }
  }

  ghost function AllOfPid(sent: seq<Forwarded>, pid: Pid): seq<Packet> {
    OfPid(sent, pid, |sent|)
  }

  /** The packets of one PID that slip through, after those in `sent`. */
  ghost function Slipping(sent: seq<Packet>, k: Known, items: seq<Timed>, pid: Pid, from: nat, n: nat): seq<Packet>
    requires from <= n <= |items|
  {
    if n == from then sent
    else
      var packet := items[n - 1].Packet();
      Slipping(sent, k, items, pid, from, n - 1) + if packet.pid == pid && Slips(k, packet) then [packet] else []
  }

  /**
   A streaming run leaks exactly the packets without a PCR of a black-listed stream that carries the
   PCR; of any other black-listed stream it sends nothing.
   */
  lemma {:induction false} BlackListLeaks(sid: int, sent: seq<Forwarded>, k: Known, c: Cycle, items: seq<Timed>,
                                          pid: Pid, from: nat, n: nat)
    requires from <= n <= |items| && pid in k.blackList && pid != k.pmtPid
    ensures AllOfPid(Streamed(sid, sent, k, c, items, from, n), pid) ==
            Slipping(AllOfPid(sent, pid), k, items, pid, from, n)
    ensures k.pcrPid != Some(pid) ==> AllOfPid(Streamed(sid, sent, k, c, items, from, n), pid) == AllOfPid(sent, pid)
  {
    if from < n {
      BlackListLeaks(sid, sent, k, c, items, pid, from, n - 1);
      var d := Reloaded(sid, CycleAt(sid, k, c, items, from, n - 1), items[n - 1]);
      OfPidStep(Streamed(sid, sent, k, c, items, from, n - 1), k, d, items[n - 1].Packet(), pid);
    }
  }

  lemma OfPidStep(sent: seq<Forwarded>, k: Known, c: Cycle, packet: Packet, pid: Pid)
    requires pid in k.blackList && pid != k.pmtPid
    ensures AllOfPid(sent + Emit(k, c, packet), pid) ==
            AllOfPid(sent, pid) + if packet.pid == pid && Slips(k, packet) then [packet] else []
  {
    OfPidPrefix(sent, Emit(k, c, packet), pid, |sent|);
  }

  // How any run ends

  /** Every run into a sink that takes everything, as far as the first `n` inputs. */
  ghost function RunAt(option: Settings, inputs: seq<Input>, n: nat): Run
    requires n <= |inputs|
  {
    if n == 0 then AtRest(option) else RunAt(option, inputs, n - 1).Handled(option, inputs[n - 1])
  }

  /** The same once the tables of input `n` have been heard. */
  ghost function HeardAt(option: Settings, inputs: seq<Input>, n: nat): Run
    requires n < |inputs|
  {
    RunAt(option, inputs, n).Heard(option, inputs[n].tables, |inputs[n].tables|)
  }

  /** Nothing has ended the run before input `n`. */
  ghost predicate GoesOn(option: Settings, inputs: seq<Input>, n: nat)
    requires n <= |inputs|
  {
    RunAt(option, inputs, n).outcome == Continue
  }

  /** As long as the run goes on, PMTs come on the PID that the latest PAT gives. */
  ghost predicate ValidInput(option: Settings, inputs: seq<Input>, n: nat)
    requires n < |inputs|
  {
    var r, input := RunAt(option, inputs, n), inputs[n];
    r.outcome == Continue ==>
      forall i :: 0 <= i < |input.tables| ==> Fed(option.sid, r.known.pmtPid, input.packet, input.tables[i])
  }

  ghost predicate ValidRun(option: Settings, inputs: seq<Input>) {
    forall i :: 0 <= i < |inputs| ==> ValidInput(option, inputs, i)
  }

  lemma {:induction false} RunStays(option: Settings, inputs: seq<Input>, n: nat, m: nat)
    requires n <= m <= |inputs| && RunAt(option, inputs, n).outcome != Continue
    ensures RunAt(option, inputs, m) == RunAt(option, inputs, n)
  {
    if n < m {
      RunStays(option, inputs, n, m - 1);
      RunAt(option, inputs, m - 1).HeardStays(option, inputs[m - 1].tables, 0, |inputs[m - 1].tables|);
    }
  }

  /** The filter gives up before the program has begun. */
  predicate GivesUp(heard: Run) {
    heard.outcome == Continue && heard.known.stop && !heard.streaming
  }

  /** The filter has been fed `n` inputs, the last of which ended with `o`. */
  ghost predicate Follows(filter: ProgramFilter, inputs: seq<Input>, n: nat, o: Outcome)
    requires n <= |inputs|
    reads filter, filter.sink
  {
    var r, accepting, received := RunAt(filter.option, inputs, n), filter.sink.accepting, filter.sink.received;
    && (o == Continue ==> filter.Valid() && !filter.retry)
    && (accepting || o == Continue ==> filter.Snapshot().(outcome := o) == r)
    && received <= r.sent && (o == Abort ==> r.outcome == Abort)
    && (filter.retry <==> n > 0 && GivesUp(HeardAt(filter.option, inputs, n - 1)))
    && (filter.retry || (accepting && filter.state == Waiting) ==> filter.state == Waiting && AllPats(received))
  }

  method FeedInput(filter: ProgramFilter, inputs: seq<Input>, n: nat) returns (o: Outcome)
    requires n < |inputs| && Follows(filter, inputs, n, Continue) && ValidInput(filter.option, inputs, n)
    modifies filter, filter.sink
    ensures Follows(filter, inputs, n + 1, o) && GoesOn(filter.option, inputs, n)
  {
    o := filter.HandlePacket(inputs[n].packet, inputs[n].tables);
  }

  /** Feeds the inputs one after the other until one of them ends the run. */
  method FeedInputs(filter: ProgramFilter, inputs: seq<Input>) returns (used: nat, o: Outcome)
    requires Follows(filter, inputs, 0, Continue) && ValidRun(filter.option, inputs)
    modifies filter, filter.sink
    ensures used <= |inputs| && Follows(filter, inputs, used, o) && (used == |inputs| || o != Continue)
    ensures forall n :: 0 <= n < used ==> GoesOn(filter.option, inputs, n)
  {
    o, used := Continue, 0;
    while used < |inputs| && o == Continue
      // An equivalence keeps the predicate whole, which makes it cheap to maintain.
      invariant 0 <= used <= |inputs| && (Follows(filter, inputs, used, o) <==> true)
      invariant forall n :: 0 <= n < used ==> GoesOn(filter.option, inputs, n)
    {
      assert ValidInput(filter.option, inputs, used);
      o := FeedInput(filter, inputs, used);
      used := used + 1;
    }
  }

  /**
   Every run, into any sink. What an accepting one gets, and how the run ends, is what the inputs say,
   whatever happens to clock, event and PMT on the way; a refusing one gets a beginning of it, and lets
   the process abort only where it would have anyway. The retry code is returned exactly if the filter
   was told to stop before streaming began. Then, and whenever an accepting sink has not been streamed
   to, nothing but PATs was sent.
   */
  method RunFilter(option: Settings, accepting: bool, inputs: seq<Input>, sinkCode: int)
    returns (code: int, received: seq<Forwarded>, streamed: bool, used: nat, o: Outcome)
    requires ValidRun(option, inputs) && sinkCode != 222
    ensures used <= |inputs| && (used == |inputs| || o != Continue)
    ensures forall n :: 0 <= n < used ==> GoesOn(option, inputs, n)
    ensures
      var final := RunAt(option, inputs, |inputs|);
      accepting || o == Continue ==> received == final.sent && streamed == final.streaming && o == final.outcome
    ensures received <= RunAt(option, inputs, used).sent
    ensures o == Abort ==> RunAt(option, inputs, used).outcome == Abort
    ensures code == if used > 0 && GivesUp(HeardAt(option, inputs, used - 1)) then 222 else sinkCode
    ensures code == 222 || (accepting && !streamed) ==> !streamed && AllPats(received)
  {
    var sink := new Sink(accepting);
    var filter := new ProgramFilter(option, sink);
    used, o := FeedInputs(filter, inputs);
    if o != Continue && accepting {
      RunStays(option, inputs, used, |inputs|);
    }
    code, received, streamed := filter.GetExitCode(sinkCode), sink.received, filter.state == Streaming;
  }

  /** The machine itself, into an accepting sink: it sends what the window says, and stops at its end. */
  method StreamProgram(filter: ProgramFilter, items: seq<Timed>, ghost start: int, ghost end: int)
    returns (finished: bool)
    requires filter.Valid() && filter.state == Waiting && !filter.retry && filter.sink.accepting
    requires Steady(filter.option, filter.Knows(), items, start, end)
    modifies filter, filter.sink
    ensures filter.sink.received == WindowSent(filter.option, old(filter.Snapshot()), items, start, end)
    ensures finished <==> FirstOver(old(filter.Knows()), items, end, 0) < |items|
  {
    ghost var runs := RunsFrom(filter.option, filter.Snapshot(), items, |items|);
    IsTrace(filter.option, filter.Snapshot(), items);
    finished := false;
    var i := 0;
    while i < |items| && !finished
      invariant 0 <= i <= |items|
      invariant !finished ==> (filter.Valid() <==> true) && !filter.retry
      invariant runs[i] == filter.Snapshot().(outcome := if finished then Finish else Continue)
    {
      finished := StreamItem(filter, runs, items, i, start, end);
      i := i + 1;
    }
    if finished {
      OverPhase(filter.option, runs, items, i, |items|);
    }
    ProgramWindow(filter.option, runs, items, start, end);
  }

  /** The next item is one step of the run. */
  method StreamItem(filter: ProgramFilter, ghost runs: seq<Run>, items: seq<Timed>, i: nat, ghost start: int,
                    ghost end: int)
    returns (finished: bool)
    requires filter.Valid() && !filter.retry && filter.sink.accepting && i < |items|
    requires IsProgram(filter.option, runs, items, start, end) && runs[i] == filter.Snapshot()
    modifies filter, filter.sink
    ensures !finished ==> filter.Valid() && !filter.retry
    ensures runs[i + 1] == filter.Snapshot().(outcome := if finished then Finish else Continue)
  {
    assert SteadyAt(filter.option, runs[0].known, items, i, start, end) && StepAt(filter.option, runs, items, i);
    WaitsUntil(filter.option, runs, items, i, start, end);
    NeverAborts(filter.option, runs, items, i + 1, start, end);
    var o := filter.HandlePacket(items[i].input.packet, items[i].input.tables);
    finished := o == Finish;
  }

  /** While a run goes on nothing changes what is known; it waits until the program begins, and then streams. */
  lemma {:induction false} WaitsUntil(option: Settings, runs: seq<Run>, items: seq<Timed>, n: nat,
                                      start: int, end: int)
    requires IsProgram(option, runs, items, start, end) && n <= |items|
    requires runs[n].outcome == Continue
    ensures runs[n].known == runs[0].known
    ensures runs[n].streaming <==> n > FirstIn(runs[0].known, items, start, end, 0)
  {
    var begin := FirstIn(runs[0].known, items, start, end, 0);
    if n <= begin {
      WaitingPhase(option, runs, items, n, start, end);
    } else if Reached(items[begin].x, end) {
      WaitingPhase(option, runs, items, begin, start, end);
      EndPhase(option, runs, items, begin, n, start, end);
    } else {
      BeginPhase(option, runs, items, start, end);
      var stop := FirstOver(runs[0].known, items, end, begin + 1);
      if n <= stop {
        StreamingPhase(option, runs, items, begin + 1, n, start, end);
      } else {
        StreamingPhase(option, runs, items, begin + 1, stop, start, end);
        EndPhase(option, runs, items, stop, n, start, end);
      }
    }
  }

  lemma {:induction false} NeverAborts(option: Settings, runs: seq<Run>, items: seq<Timed>, n: nat,
                                       start: int, end: int)
    requires IsProgram(option, runs, items, start, end) && n <= |items|
    ensures runs[n].outcome != Abort
  {
    ProgramWindow(option, runs, items, start, end);
    if runs[n].outcome == Abort {
      OverPhase(option, runs, items, n, |items|);
    }
  }
}
