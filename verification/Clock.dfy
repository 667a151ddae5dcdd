/**
 The transport stream clock: a baseline (PCR, time) pair, the last accepted PCR and one wrap flag.

 The machine is compared with an `Ideal` clock that never wraps: it counts the ticks accepted since
 the last synchronisation in an unbounded counter.
 */
module Clocks {
  import opened Pcr
  import opened Tables

  /** Consecutive large gaps that are tolerated before the clock gives up. */
  const GAP_COUNT_THRESHOLD := 4

  /** Ticks accepted since the synchronisation at PCR `origin`. */
  datatype Span = Span(origin: int, elapsed: int) {
    predicate Valid() {
      ValidPcr(origin) && elapsed >= 0
    }

    function Position(): int {
      origin + elapsed
    }

    /** What is left of the position: the last PCR, and whether it has wrapped at all. */
    function Seen(): int {
      Wrap(Position()) + if Position() >= PCR_UPPER_BOUND then PCR_UPPER_BOUND else 0
    }
  }

  datatype ClockEvent = PidEvent(pid: Pid) | PcrEvent(pcr: int) | TimeEvent(time: int)

  predicate ValidEvent(e: ClockEvent) {
    e.PcrEvent? ==> ValidPcr(e.pcr)
  }

  /** A clock with an unbounded tick counter. `gaps` is an eight-bit counter. */
  datatype Ideal = Ideal(pid: Pid, time: int, timeReady: bool, span: Option<Span>, gaps: int) {
    predicate Valid() {
      && (span.Some? ==> span.value.Valid())
      && 0 <= gaps < 256
    }

    predicate Ready() {
      timeReady && span.Some?
    }

    /** The time the stream has reached. */
    function Now(): int
      requires Ready()
    {
      time + span.value.elapsed / TICKS_PER_MS
    }

    /** The time that a single wrap flag makes of it: past the second wrap, whole periods are missing. */
    function Shown(): int
      requires Ready()
    {
      time + TruncDiv(span.value.Seen() - span.value.origin, TICKS_PER_MS)
    }

    /** Ticks from the last accepted PCR to `pcr`, going forward around the period. */
    function Gap(pcr: int): (gap: int)
      requires Valid() && Ready()
      ensures ValidPcr(gap)
    {
      Wrap(pcr - span.value.Position())
    }

    function AfterPid(p: Pid): Ideal {
      this.(pid := p, timeReady := false, span := None)
    }

    function AfterTime(t: int): Ideal {
      this.(time := t, timeReady := true,
            span := if span.Some? then Some(Span(Wrap(span.value.Position()), 0)) else None)
    }

    function AfterPcr(pcr: int): (c: Ideal)
      requires Valid() && ValidPcr(pcr)
      ensures c.Valid()
    {
      if !Ready() then
        this.(span := Some(Span(pcr, 0)))
      else if Gap(pcr) < TICKS_PER_SEC then
        this.(span := Some(Span(span.value.origin, span.value.elapsed + Gap(pcr))), gaps := 0)
      else
        var g := (gaps + 1) % 256;
        if g <= GAP_COUNT_THRESHOLD then
          this.(gaps := g)
        else
          this.(gaps := g, timeReady := false, span := None)
    }

    function After(e: ClockEvent): (c: Ideal)
      requires Valid() && ValidEvent(e)
      ensures c.Valid()
    {
      match e
      case PidEvent(p) => AfterPid(p)
      case TimeEvent(t) => AfterTime(t)
      case PcrEvent(pcr) => AfterPcr(pcr)
    }

    function AfterAll(events: seq<ClockEvent>): (c: Ideal)
      requires Valid() && forall e <- events :: ValidEvent(e)
      ensures c.Valid()
    {
      if events == [] then this
      else AfterAll(events[..|events| - 1]).After(events[|events| - 1])
    }
  }

  const FRESH: Ideal := Ideal(PID_NULL, 0, false, None, 0)

  class ClockBaseline {
    var time: int
    var pcr: int
    var pid: Pid
    var pcrReady: bool
    var timeReady: bool

    constructor ()
      ensures pid == PID_NULL && !pcrReady && !timeReady && pcr == 0 && time == 0
    {
      time, pcr, pid, pcrReady, timeReady := 0, 0, PID_NULL, false, false;
    }

    predicate HasPid()
      reads this
    {
      pid != PID_NULL
    }

    predicate IsReady()
      reads this
    {
      pcrReady && timeReady
    }

    function PcrToTime(p: int): int
      requires IsReady()
      reads this
    {
      TimeAt(pcr, time, p)
    }

    /** The loop brings a tick count before the baseline into range; the result never leaves it. */
    method TimeToPcr(t: int) returns (p: int)
      requires IsReady()
      ensures p == PcrAt(pcr, time, t)
    {
      var ms := t - time;
      p := pcr + ms * TICKS_PER_MS;
      while p < 0
        invariant Wrap(p) == PcrAt(pcr, time, t)
        decreases -p
      {
        WrapIgnoresPeriods(p, 1);
        p := p + PCR_UPPER_BOUND;
      }
      p := TruncMod(p, PCR_UPPER_BOUND);
    }

    method SetPid(p: Pid)
      modifies this
      ensures pid == p && !pcrReady && !timeReady && time == old(time) && pcr == old(pcr)
    {
      pid := p;
      pcrReady := false;
      timeReady := false;
    }

    method SetPcr(p: int)
      requires ValidPcr(p)
      modifies this
      ensures pcr == p && pcrReady && timeReady == old(timeReady) && time == old(time) && pid == old(pid)
    {
      pcr := p;
      pcrReady := true;
    }

    method SetTime(t: int)
      modifies this
      ensures time == t && timeReady && pcrReady == old(pcrReady) && pcr == old(pcr) && pid == old(pid)
    {
      time := t;
      timeReady := true;
    }

    method Invalidate()
      modifies this
      ensures !pcrReady && !timeReady && time == old(time) && pcr == old(pcr) && pid == old(pid)
    {
      pcrReady := false;
      timeReady := false;
    }
  }

  /** The local wall clock, of which nothing is assumed. */
  method CurrentLocalTime() returns (t: int) {
    t := *;
  }

  class Clock {
    const baseline: ClockBaseline
    var baselineLocalTime: int
    var lastPcr: int
    var gapCount: int
    var ready: bool
    var wrapped: bool
    ghost var ideal: Ideal

    /** The wrapped representation stands for the unbounded counter of `ideal`. */
    ghost predicate Valid()
      reads this, baseline
    {
      && ValidPcr(lastPcr)
      && ideal.Valid()
      && baseline.pid == ideal.pid
      && baseline.time == ideal.time
      && baseline.timeReady == ideal.timeReady
      && gapCount == ideal.gaps
      && ready == baseline.pcrReady == ideal.span.Some?
      && (ideal.span.Some? ==>
            && baseline.pcr == ideal.span.value.origin
            && lastPcr == Wrap(ideal.span.value.Position())
            && wrapped == (ideal.span.value.Position() >= PCR_UPPER_BOUND))
    }

    constructor ()
      ensures Valid() && ideal == FRESH && fresh(baseline)
    {
      baseline := new ClockBaseline();
      baselineLocalTime, lastPcr, gapCount, ready, wrapped := 0, 0, 0, false, false;
      ideal := FRESH;
    }

    predicate HasPid()
      reads this, baseline
    {
      baseline.HasPid()
    }

    predicate IsReady()
      reads this, baseline
    {
      ready && baseline.IsReady()
    }

    /**
     When ready, the reported time is that of the unbounded clock exactly as long as the position has
     passed at most one wrap; beyond that the single flag has lost a whole period.
     */
    method Now() returns (t: int)
      requires Valid()
      ensures IsReady() == ideal.Ready()
      ensures IsReady() ==> t == ideal.Shown()
      ensures IsReady() ==>
                (t == ideal.Now() <==> ideal.span.value.Position() < 2 * PCR_UPPER_BOUND)
    {
      if IsReady() {
        var last := lastPcr;
        if wrapped {
          last := last + PCR_UPPER_BOUND;
          assert last > 0;
        }
        t := baseline.PcrToTime(last);
        LostPeriods(ideal.span.value);
      } else {
        var local := CurrentLocalTime();
        t := baseline.time + (local - baselineLocalTime);
      }
    }

    method SetPid(pid: Pid)
      requires Valid()
      modifies this, baseline
      ensures Valid() && ideal == old(ideal).AfterPid(pid)
    {
      baseline.SetPid(pid);
      ready := false;
      ideal := ideal.AfterPid(pid);
    }

    method UpdateTime(time: int)
      requires Valid()
      modifies this, baseline
      ensures Valid() && ideal == old(ideal).AfterTime(time)
    {
      baseline.SetTime(time);
      var local := CurrentLocalTime();
      baselineLocalTime := local;
      if ready {
        SyncPcr();
      }
      ideal := ideal.AfterTime(time);
    }

    method UpdatePcr(pcr: int)
      requires Valid() && ValidPcr(pcr)
      modifies this, baseline
      ensures Valid() && ideal == old(ideal).AfterPcr(pcr)
    {
      ghost var before := ideal;
      ideal := ideal.AfterPcr(pcr);
      if IsReady() {
        var gap := ComputeDelta(pcr, lastPcr);
        DeltaIsGap(before, pcr);
        assert gap >= 0;
        if gap >= TICKS_PER_SEC {
          gapCount := (gapCount + 1) % 256;
          if gapCount <= GAP_COUNT_THRESHOLD {
            return;
          }
          Invalidate();
          return;
        } else {
          gapCount := 0;
          AcceptedPosition(before, pcr);
        }
      }
      if pcr < lastPcr {
        wrapped := true;
      }
      lastPcr := pcr;
      ready := true;
      if !baseline.IsReady() {
        SyncPcr();
      }
    }

    method Invalidate()
      modifies this, baseline
      ensures lastPcr == 0 && !ready && !wrapped && !baseline.pcrReady && !baseline.timeReady
      ensures baseline.pid == old(baseline.pid) && baseline.time == old(baseline.time)
      ensures gapCount == old(gapCount) && ideal == old(ideal)
    {
      baseline.Invalidate();
      lastPcr := 0;
      ready := false;
      wrapped := false;
    }

    method SyncPcr()
      requires ValidPcr(lastPcr)
      modifies this, baseline
      ensures baseline.pcr == lastPcr && baseline.pcrReady && !wrapped
      ensures baseline.pid == old(baseline.pid) && baseline.time == old(baseline.time)
      ensures baseline.timeReady == old(baseline.timeReady)
      ensures lastPcr == old(lastPcr) && ready == old(ready) && gapCount == old(gapCount)
      ensures ideal == old(ideal)
    {
      baseline.SetPcr(lastPcr);
      wrapped := false;
    }
  }

  function ComputeDelta(pcr: int, base: int): int {
    if pcr < base then PCR_UPPER_BOUND - base + pcr else pcr - base
  }

  lemma DeltaIsGap(c: Ideal, pcr: int)
    requires c.Valid() && c.Ready() && ValidPcr(pcr)
    ensures ComputeDelta(pcr, Wrap(c.span.value.Position())) == c.Gap(pcr)
  {
    var p := c.span.value.Position();
    Unwrapped(p);
    var d := ComputeDelta(pcr, Wrap(p));
    var k := Epoch(p) + (if pcr < Wrap(p) then 1 else 0);
    assert d == (pcr - p) + k * PCR_UPPER_BOUND;
    WrapIgnoresPeriods(pcr - p, k);
  }

  /** An accepted PCR is the new position wrapped, and it is smaller exactly when an epoch ended. */
  lemma AcceptedPosition(c: Ideal, pcr: int)
    requires c.Valid() && c.Ready() && ValidPcr(pcr)
    requires c.Gap(pcr) < TICKS_PER_SEC
    ensures
      var p := c.span.value.Position();
      var q := p + c.Gap(pcr);
      && pcr == Wrap(q)
      && (q >= PCR_UPPER_BOUND <==> p >= PCR_UPPER_BOUND || pcr < Wrap(p))
  {
    var p := c.span.value.Position();
    DeltaIsGap(c, pcr);
    Unwrapped(p);
    var k := Epoch(p) + (if pcr < Wrap(p) then 1 else 0);
    assert p + c.Gap(pcr) == pcr + k * PCR_UPPER_BOUND;
    WrapIgnoresPeriods(pcr, k);
  }

  /** With one wrap flag the elapsed milliseconds are exact below two periods and wrong above. */
  lemma LostPeriods(s: Span)
    requires s.Valid()
    ensures TruncDiv(s.Seen() - s.origin, TICKS_PER_MS) == s.elapsed / TICKS_PER_MS
            <==> s.Position() < 2 * PCR_UPPER_BOUND
  {
    Unwrapped(s.Position());
  }

  // Whole runs

  /** Every run from a default clock: readiness, and the exact condition for the reported time. */
  method Replay(events: seq<ClockEvent>) returns (ready: bool, now: int)
    requires forall e <- events :: ValidEvent(e)
    ensures ready == FRESH.AfterAll(events).Ready()
    ensures ready ==>
              var c := FRESH.AfterAll(events);
              && now == c.Shown()
              && (now == c.Now() <==> c.span.value.Position() < 2 * PCR_UPPER_BOUND)
  {
    var clock := new Clock();
    for i := 0 to |events|
      invariant fresh(clock) && fresh(clock.baseline) && clock.Valid()
      invariant clock.ideal == FRESH.AfterAll(events[..i])
    {
      assert events[..i + 1][..i] == events[..i];
      assert ValidEvent(events[i]);
      match events[i]
      case PidEvent(p) => clock.SetPid(p);
      case TimeEvent(t) => clock.UpdateTime(t);
      case PcrEvent(pcr) => clock.UpdatePcr(pcr);
    }
    assert events[..|events|] == events;
    ready := clock.IsReady();
    now := clock.Now();
  }

  ghost function PcrEvents(xs: seq<int>): (events: seq<ClockEvent>)
    ensures |events| == |xs| && forall e <- events :: ValidEvent(e)
  {
    seq(|xs|, i requires 0 <= i < |xs| => PcrEvent(Wrap(xs[i])))
  }

  ghost function Before(from: int, xs: seq<int>, i: nat): int
    requires i < |xs|
  {
    if i == 0 then from else xs[i - 1]
  }

  /** Unwrapped positions that continue from `from` in forward steps of less than a second. */
  ghost predicate Steady(from: int, xs: seq<int>) {
    forall i :: 0 <= i < |xs| ==> 0 <= xs[i] - Before(from, xs, i) < TICKS_PER_SEC
  }

  lemma SteadyStep(c: Ideal, x: int)
    requires c.Valid() && c.Ready()
    requires 0 <= x - c.span.value.Position() < TICKS_PER_SEC
    ensures c.AfterPcr(Wrap(x)) ==
            c.(span := Some(Span(c.span.value.origin, x - c.span.value.origin)), gaps := 0)
  {
    Unwrapped(x);
    WrapIgnoresPeriods(x - c.span.value.Position(), -Epoch(x));
  }

  /** On a steady stream the clock counts the true ticks, across any number of wraps. */
  lemma {:induction false} TracksSteadyStream(c: Ideal, xs: seq<int>)
    requires c.Valid() && c.Ready() && xs != []
    requires Steady(c.span.value.Position(), xs)
    ensures c.AfterAll(PcrEvents(xs)) ==
            c.(span := Some(Span(c.span.value.origin, xs[|xs| - 1] - c.span.value.origin)), gaps := 0)
  {
    var from := c.span.value.Position();
    var n := |xs| - 1;
    var init := xs[..n];
    assert PcrEvents(xs)[..n] == PcrEvents(init);
    assert 0 <= xs[n] - Before(from, xs, n) < TICKS_PER_SEC;
    if n > 0 {
      forall i | 0 <= i < n
        ensures 0 <= init[i] - Before(from, init, i) < TICKS_PER_SEC
      {
        assert Before(from, init, i) == Before(from, xs, i);
      }
      TracksSteadyStream(c, init);
    }
    SteadyStep(c.AfterAll(PcrEvents(init)), xs[n]);
  }

  /** Between synchronisations the unbounded time never goes back, whatever PCRs arrive. */
  lemma {:induction false} MonotoneBetweenSyncs(c: Ideal, pcrs: seq<int>)
    requires c.Valid() && c.Ready()
    ensures
      var d := c.AfterAll(PcrEvents(pcrs));
      d.Ready() ==>
        && d.time == c.time
        && d.span.value.origin == c.span.value.origin
        && d.span.value.elapsed >= c.span.value.elapsed
        && d.Now() >= c.Now()
    ensures !c.AfterAll(PcrEvents(pcrs)).Ready() ==> !c.AfterAll(PcrEvents(pcrs)).timeReady
  {
    if pcrs != [] {
      var n := |pcrs| - 1;
      assert PcrEvents(pcrs)[..n] == PcrEvents(pcrs[..n]);
      MonotoneBetweenSyncs(c, pcrs[..n]);
    }
  }

  /** The clock after each of the PCRs shows no earlier time than before it. */
  ghost predicate NeverGoesBack(c: Ideal, pcrs: seq<int>)
    requires c.Valid()
  {
    pcrs == [] ||
    var init := c.AfterAll(PcrEvents(pcrs[..|pcrs| - 1]));
    var next := init.AfterPcr(Wrap(pcrs[|pcrs| - 1]));
    NeverGoesBack(c, pcrs[..|pcrs| - 1]) && (init.Ready() && next.Ready() ==> next.Shown() >= init.Shown())
  }

  /** One PCR puts the shown time back exactly when it takes the position to a second or later wrap. */
  lemma StepGoesBackIff(c: Ideal, pcr: int)
    requires c.Valid() && c.Ready() && ValidPcr(pcr) && c.AfterPcr(pcr).Ready()
    ensures
      var p, q := c.span.value.Position(), c.AfterPcr(pcr).span.value.Position();
      c.AfterPcr(pcr).Shown() < c.Shown() <==> Epoch(q) > Epoch(p) && q >= 2 * PCR_UPPER_BOUND
  {
    var p, q := c.span.value.Position(), c.AfterPcr(pcr).span.value.Position();
    assert 0 <= q - p < TICKS_PER_SEC;
    Unwrapped(p);
    Unwrapped(q);
  }

  lemma FirstStepBack(c: Ideal, pcr: int)
    requires c.Valid() && c.Ready() && ValidPcr(pcr) && c.AfterPcr(pcr).Ready()
    ensures
      var p, q := c.span.value.Position(), c.AfterPcr(pcr).span.value.Position();
      p <= q && (p < 2 * PCR_UPPER_BOUND ==> (c.AfterPcr(pcr).Shown() >= c.Shown() <==> q < 2 * PCR_UPPER_BOUND))
  {
    StepGoesBackIff(c, pcr);
  }

  /**
   The time that the clock reports between synchronisations: it never goes back if and only if the
   position stays below two periods.
   */
  lemma {:induction false} ShownIsMonotoneIff(c: Ideal, pcrs: seq<int>)
    requires c.Valid() && c.Ready() && c.span.value.Position() < 2 * PCR_UPPER_BOUND
    requires c.AfterAll(PcrEvents(pcrs)).Ready()
    ensures NeverGoesBack(c, pcrs) <==> c.AfterAll(PcrEvents(pcrs)).span.value.Position() < 2 * PCR_UPPER_BOUND
  {
    if pcrs != [] {
      var n := |pcrs| - 1;
      assert PcrEvents(pcrs)[..n] == PcrEvents(pcrs[..n]);
      var init := c.AfterAll(PcrEvents(pcrs[..n]));
      assert c.AfterAll(PcrEvents(pcrs)) == init.AfterPcr(Wrap(pcrs[n]));
      MonotoneBetweenSyncs(c, pcrs[..n]);
      assert init.Ready();
      ShownIsMonotoneIff(c, pcrs[..n]);
      FirstStepBack(init, Wrap(pcrs[n]));
    }
  }

  // A stream on which the reported time is wrong

  /** A regular interval between PCRs, less than a second; a period has 2^17 of them. */
  const INTERVAL := 19_660_800

  function RegularPcrs(n: nat): (xs: seq<int>)
    ensures |xs| == n && Steady(0, xs)
  {
    seq(n, i => (i + 1) * INTERVAL)
  }

  lemma {:induction false} AfterAllSplit(c: Ideal, a: seq<ClockEvent>, b: seq<ClockEvent>)
    requires c.Valid() && (forall e <- a :: ValidEvent(e)) && forall e <- b :: ValidEvent(e)
    ensures forall e <- a + b :: ValidEvent(e)
    ensures c.AfterAll(a + b) == c.AfterAll(a).AfterAll(b)
  {
    if b == [] {
      assert a + b == a;
    } else {
      assert (a + b)[..|a + b| - 1] == a + b[..|b| - 1];
      AfterAllSplit(c, a, b[..|b| - 1]);
    }
  }

  /** A default clock that gets a PCR and a time, and then `n` regular PCRs. */
  ghost function RegularRun(n: nat): (events: seq<ClockEvent>)
    ensures forall e <- events :: ValidEvent(e)
  {
    [PcrEvent(0), TimeEvent(0)] + PcrEvents(RegularPcrs(n))
  }

  lemma RegularClock(n: nat)
    requires n > 0
    ensures FRESH.AfterAll(RegularRun(n)) == FRESH.(timeReady := true, span := Some(Span(0, n * INTERVAL)))
  {
    var start := [PcrEvent(0), TimeEvent(0)];
    var synced := FRESH.(timeReady := true, span := Some(Span(0, 0)));
    assert start[..1] == [PcrEvent(0)] && start[..1][..0] == [];
    assert FRESH.AfterAll(start[..1]) == FRESH.AfterPcr(0);
    assert FRESH.AfterAll(start) == synced;
    var xs := RegularPcrs(n);
    TracksSteadyStream(synced, xs);
    AfterAllSplit(FRESH, start, PcrEvents(xs));
  }

  /**
   After two periods of regular PCRs the reported time is one period too early, and earlier than what
   was reported one PCR before.
   */
  lemma SecondWrapIsLost(n: nat)
    requires n * INTERVAL == 2 * PCR_UPPER_BOUND
    ensures
      var c, d := FRESH.AfterAll(RegularRun(n - 1)), FRESH.AfterAll(RegularRun(n));
      && c.Ready() && d.Ready() && d.Now() == 2 * PCR_UPPER_BOUND / TICKS_PER_MS
      && d.Shown() == PCR_UPPER_BOUND / TICKS_PER_MS < c.Shown()
  {
    RegularClock(n - 1);
    RegularClock(n);
    var c, d := FRESH.AfterAll(RegularRun(n - 1)), FRESH.AfterAll(RegularRun(n));
    TwoPeriods(c, d);
  }

  lemma TwoPeriods(c: Ideal, d: Ideal)
    requires c.Ready() && c.time == 0 && c.span.value == Span(0, 2 * PCR_UPPER_BOUND - INTERVAL)
    requires d.Ready() && d.time == 0 && d.span.value == Span(0, 2 * PCR_UPPER_BOUND)
    ensures d.Now() == 2 * PCR_UPPER_BOUND / TICKS_PER_MS
    ensures d.Shown() == PCR_UPPER_BOUND / TICKS_PER_MS < c.Shown()
  {
  }

  /** PCRs that all lie a second or more ahead of the last accepted one. */
  ghost predicate Burst(c: Ideal, pcrs: seq<int>)
    requires c.Valid() && c.Ready()
  {
    forall i :: 0 <= i < |pcrs| ==> c.Gap(Wrap(pcrs[i])) >= TICKS_PER_SEC
  }

  /**
   A burst of stray PCRs only moves the counter while it stays within the threshold, so readiness,
   the last PCR and the reported time survive; the PCR that exceeds it invalidates the clock.
   */
  lemma {:induction false} BurstIsDebounced(c: Ideal, pcrs: seq<int>)
    requires c.Valid() && c.Ready() && Burst(c, pcrs)
    ensures c.gaps + |pcrs| <= GAP_COUNT_THRESHOLD ==>
              c.AfterAll(PcrEvents(pcrs)) == c.(gaps := c.gaps + |pcrs|)
    ensures c.gaps + |pcrs| == GAP_COUNT_THRESHOLD + 1 && pcrs != [] ==>
              c.AfterAll(PcrEvents(pcrs)) ==
              c.(gaps := GAP_COUNT_THRESHOLD + 1, timeReady := false, span := None)
  {
    if pcrs != [] {
      var n := |pcrs| - 1;
      assert PcrEvents(pcrs)[..n] == PcrEvents(pcrs[..n]);
      BurstIsDebounced(c, pcrs[..n]);
      var stray := Wrap(pcrs[n]);
      assert c.Gap(stray) >= TICKS_PER_SEC;
      var before := c.AfterAll(PcrEvents(pcrs[..n]));
      assert c.AfterAll(PcrEvents(pcrs)) == before.AfterPcr(stray);
    }
  }

  /** The events leave the clock not ready, at least until the last of them. */
  ghost predicate NotReadyBefore(c: Ideal, events: seq<ClockEvent>)
    requires c.Valid() && forall e <- events :: ValidEvent(e)
  {
    forall n :: 0 <= n < |events| ==> !c.AfterAll(events[..n]).Ready()
  }

  /** Only a clock that is ready counts gaps. */
  lemma {:induction false} CounterIsKept(c: Ideal, events: seq<ClockEvent>)
    requires c.Valid() && (forall e <- events :: ValidEvent(e)) && NotReadyBefore(c, events)
    ensures c.AfterAll(events).gaps == c.gaps
    decreases |events|
  {
    if events != [] {
      var n := |events| - 1;
      assert forall m :: 0 <= m < n ==> events[..n][..m] == events[..m];
      CounterIsKept(c, events[..n]);
    }
  }

  /**
   The counter survives any resynchronisation, in whatever order PID, PCR and time come: a large gap right
   after it invalidates the clock again, unless the counter had stopped short of the threshold or wraps
   around its eight bits.
   */
  lemma {:induction false} CounterSurvivesResync(c: Ideal, events: seq<ClockEvent>, stray: int)
    requires c.Valid() && (forall e <- events :: ValidEvent(e)) && NotReadyBefore(c, events)
    requires c.AfterAll(events).Ready() && ValidPcr(stray) && c.AfterAll(events).Gap(stray) >= TICKS_PER_SEC
    ensures
      var synced := c.AfterAll(events);
      && synced.gaps == c.gaps
      && (synced.AfterPcr(stray).Ready() <==> c.gaps < GAP_COUNT_THRESHOLD || c.gaps == 255)
  {
    CounterIsKept(c, events);
  }

  /** A PCR and a time resynchronise an invalidated clock, whichever comes first. */
  lemma {:induction false} ResyncsEitherWay(c: Ideal, pcr: int, time: int)
    requires c.Valid() && !c.timeReady && c.span.None? && ValidPcr(pcr)
    ensures
      var a, b := [PcrEvent(pcr), TimeEvent(time)], [TimeEvent(time), PcrEvent(pcr)];
      && NotReadyBefore(c, a) && NotReadyBefore(c, b)
      && c.AfterAll(a) == c.AfterAll(b) && c.AfterAll(a).Ready()
  {
    var a, b := [PcrEvent(pcr), TimeEvent(time)], [TimeEvent(time), PcrEvent(pcr)];
    assert a[..0] == b[..0] == [] && a[..1] == [a[0]] && b[..1] == [b[0]];
    assert c.AfterAll([]) == c && [a[0]][..0] == [b[0]][..0] == [];
    assert c.AfterAll([a[0]]) == c.After(a[0]) && c.AfterAll([b[0]]) == c.After(b[0]);
    assert Wrap(pcr) == pcr;
  }
}
