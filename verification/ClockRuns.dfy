/**
 What the clock shows after a stream of PCRs and times, in terms of the stream alone: the positions of the
 PCRs, the times, and their order.
 */
module ClockRuns {
  import opened Tables
  import opened Pcr
  import opened Clocks

  /** A PCR, by its unwrapped position in ticks of 27 MHz, or a time in milliseconds. */
  datatype Moment = Tick(x: int) | At(time: int)

  function EventOf(m: Moment): (e: ClockEvent)
    ensures ValidEvent(e)
  {
    match m
    case Tick(x) => PcrEvent(Wrap(x))
    case At(time) => TimeEvent(time)
  }

  ghost function EventsOf(ms: seq<Moment>): (events: seq<ClockEvent>)
    ensures |events| == |ms| && forall e <- events :: ValidEvent(e)
  {
    seq(|ms|, i requires 0 <= i < |ms| => EventOf(ms[i]))
  }

  /** Moment `i` is the last PCR before moment `n`. */
  ghost predicate IsLastTick(ms: seq<Moment>, i: int, n: int) {
    0 <= i < n <= |ms| && ms[i].Tick? && forall k :: i < k < n ==> !ms[k].Tick?
  }

  /** Moment `i` is the last time before moment `n`. */
  ghost predicate IsLastTime(ms: seq<Moment>, i: int, n: int) {
    0 <= i < n <= |ms| && ms[i].At? && forall k :: i < k < n ==> !ms[k].At?
  }

  /** PCRs go forward, in steps of less than a second. */
  ghost predicate IsSteady(ms: seq<Moment>) {
    forall i, j :: 0 <= j < |ms| && ms[j].Tick? && IsLastTick(ms, i, j) ==> 0 <= ms[j].x - ms[i].x < 27_000_000
  }

  /** The PCR that time `a` belongs to: the last one before it, or else the first one. */
  ghost predicate IsBase(ms: seq<Moment>, a: int, b: int, n: int) {
    && 0 <= b < n <= |ms| && ms[b].Tick?
    && (IsLastTick(ms, b, a) || (a < b && forall k :: 0 <= k < b ==> !ms[k].Tick?))
  }

  /** The clock `c` has seen the first `n` moments, the last time `a`, its PCR `b` and the last PCR `z`. */
  ghost predicate Shows(c: Ideal, ms: seq<Moment>, n: int, a: int, b: int, z: int) {
    && IsLastTime(ms, a, n) && IsBase(ms, a, b, n) && IsLastTick(ms, z, n)
    && c.timeReady && c.time == ms[a].time
    && c.span == Some(Span(Wrap(ms[b].x), ms[z].x - ms[b].x))
  }

  /** The clock has not seen a PCR and a time yet. */
  ghost predicate Waits(c: Ideal, ms: seq<Moment>, n: int) {
    && 0 <= n <= |ms|
    && (c.timeReady <==> exists a :: IsLastTime(ms, a, n))
    && (c.span.Some? <==> exists z :: IsLastTick(ms, z, n))
    && !c.Ready()
    && (forall a :: IsLastTime(ms, a, n) ==> c.time == ms[a].time)
    && (forall z :: IsLastTick(ms, z, n) ==> c.span == Some(Span(Wrap(ms[z].x), 0)))
  }

  ghost predicate Follows(c: Ideal, ms: seq<Moment>, n: int) {
    c.Valid() && (Waits(c, ms, n) || exists a, b, z :: Shows(c, ms, n, a, b, z))
  }

  /** A PCR less than a second ahead of the last one is counted as it is. */
  lemma NextTick(c: Ideal, x0: int, x: int, y: int)
    requires c.Valid() && c.Ready() && c.span.value == Span(Wrap(x0), x - x0) && 0 <= y - x < 27_000_000
    ensures c.AfterPcr(Wrap(y)) == c.(span := Some(Span(Wrap(x0), y - x0)), gaps := 0)
  {
    var p := c.span.value.Position();
    Unwrapped(x0);
    Unwrapped(y);
    assert Wrap(y) - p == (y - x) + (Epoch(x0) - Epoch(y)) * PCR_UPPER_BOUND;
    WrapIgnoresPeriods(y - x, Epoch(x0) - Epoch(y));
  }

  /** A time starts counting at the last PCR. */
  lemma NextTime(c: Ideal, x0: int, x: int, time: int)
    requires c.Valid() && c.span == Some(Span(Wrap(x0), x - x0))
    ensures c.AfterTime(time) == c.(time := time, timeReady := true, span := Some(Span(Wrap(x), 0)))
  {
    Unwrapped(x0);
    WrapIgnoresPeriods(x, -Epoch(x0));
  }

  lemma TickStep(c: Ideal, ms: seq<Moment>, n: nat)
    requires n < |ms| && ms[n].Tick? && IsSteady(ms) && Follows(c, ms, n)
    ensures Follows(c.AfterPcr(Wrap(ms[n].x)), ms, n + 1)
  {
    var d, m := c.AfterPcr(Wrap(ms[n].x)), n + 1;
    assert IsLastTick(ms, n, m);
    assert forall z :: IsLastTick(ms, z, m) ==> z == n;
    assert forall a :: IsLastTime(ms, a, n) <==> IsLastTime(ms, a, m);
    if Waits(c, ms, n) {
      if c.timeReady {
        var a :| IsLastTime(ms, a, n);
        assert forall k :: 0 <= k < n ==> !ms[k].Tick? by {
          NoTicks(ms, n);
        }
        assert Shows(d, ms, m, a, n, n);
      } else {
        assert Waits(d, ms, m);
      }
    } else {
      var a, b, z :| Shows(c, ms, n, a, b, z);
      NextTick(c, ms[b].x, ms[z].x, ms[n].x);
      assert Shows(d, ms, m, a, b, n);
    }
  }

  /** If there is no last PCR, there is none at all. */
  lemma {:induction false} NoTicks(ms: seq<Moment>, n: nat)
    requires n <= |ms| && forall z :: !IsLastTick(ms, z, n)
    ensures forall k :: 0 <= k < n ==> !ms[k].Tick?
  {
    if n > 0 {
      var m := n - 1;
      assert !IsLastTick(ms, m, n);
      forall z
        ensures !IsLastTick(ms, z, m)
      {
        assert !IsLastTick(ms, z, n);
      }
      NoTicks(ms, m);
    }
  }

  lemma TimeStep(c: Ideal, ms: seq<Moment>, n: nat)
    requires n < |ms| && ms[n].At? && Follows(c, ms, n)
    ensures Follows(c.AfterTime(ms[n].time), ms, n + 1)
  {
    var d, m := c.AfterTime(ms[n].time), n + 1;
    assert IsLastTime(ms, n, m);
    assert forall a :: IsLastTime(ms, a, m) ==> a == n;
    assert forall z :: IsLastTick(ms, z, n) <==> IsLastTick(ms, z, m);
    if Waits(c, ms, n) {
      if c.span.Some? {
        var z :| IsLastTick(ms, z, n);
        NextTime(c, ms[z].x, ms[z].x, ms[n].time);
        assert Shows(d, ms, m, n, z, z);
      }
    } else {
      var a, b, z :| Shows(c, ms, n, a, b, z);
      NextTime(c, ms[b].x, ms[z].x, ms[n].time);
      assert Shows(d, ms, m, n, z, z);
    }
  }

  lemma {:induction false} FollowsMoments(c: Ideal, ms: seq<Moment>, n: nat)
    requires n <= |ms| && IsSteady(ms) && c.Valid() && !c.timeReady && c.span.None?
    ensures Follows(c.AfterAll(EventsOf(ms)[..n]), ms, n)
  {
    var events := EventsOf(ms);
    if n > 0 {
      FollowsMoments(c, ms, n - 1);
      assert events[..n][..n - 1] == events[..n - 1];
      var d := c.AfterAll(events[..n - 1]);
      match ms[n - 1]
      case Tick(x) => TickStep(d, ms, n - 1);
      case At(time) => TimeStep(d, ms, n - 1);
    } else {
      assert events[..0] == [];
    }
  }

  /**
   After any events, another PID, and then a steady stream of PCRs with times anywhere in between: the clock
   is ready if and only if there is a PCR and a time. The last time belongs to the last PCR before it, or to
   the first one, if that came later. What is shown is that time and the milliseconds from that PCR to the
   last one, as long as there are fewer than two wraps between them.
   */
  lemma {:induction false} ShowsStream(before: seq<ClockEvent>, pid: Pid, ms: seq<Moment>)
    requires (forall e <- before :: ValidEvent(e)) && IsSteady(ms)
    ensures forall e <- before + [PidEvent(pid)] + EventsOf(ms) :: ValidEvent(e)
    ensures
      var c := FRESH.AfterAll(before + [PidEvent(pid)] + EventsOf(ms));
      && (c.Ready() <==> (exists i :: 0 <= i < |ms| && ms[i].Tick?) && exists i :: 0 <= i < |ms| && ms[i].At?)
      && forall a, b, z :: IsLastTime(ms, a, |ms|) && IsBase(ms, a, b, |ms|) && IsLastTick(ms, z, |ms|) ==>
           && c.Ready()
           && (ms[b].x % 2_576_980_377_600 + ms[z].x - ms[b].x < 2 * 2_576_980_377_600 ==>
                 c.Shown() == ms[a].time + (ms[z].x - ms[b].x) / 27_000)
  {
    var c := FRESH.AfterAll(before + [PidEvent(pid)]);
    AfterAllSplit(FRESH, before, [PidEvent(pid)]);
    assert [PidEvent(pid)][..0] == [];
    assert FRESH.AfterAll(before).AfterAll([PidEvent(pid)]) == FRESH.AfterAll(before).AfterPid(pid);
    AfterAllSplit(FRESH, before + [PidEvent(pid)], EventsOf(ms));
    FollowsMoments(c, ms, |ms|);
    assert EventsOf(ms)[..|ms|] == EventsOf(ms);
    FollowsMeans(c.AfterAll(EventsOf(ms)), ms);
  }

  lemma {:induction false} LastTickExists(ms: seq<Moment>, n: nat, i: nat)
    requires i < n <= |ms| && ms[i].Tick?
    ensures exists z :: IsLastTick(ms, z, n)
  {
    if ms[n - 1].Tick? {
      assert IsLastTick(ms, n - 1, n);
    } else {
      LastTickExists(ms, n - 1, i);
      var z :| IsLastTick(ms, z, n - 1);
      assert IsLastTick(ms, z, n);
    }
  }

  lemma {:induction false} LastTimeExists(ms: seq<Moment>, n: nat, i: nat)
    requires i < n <= |ms| && ms[i].At?
    ensures exists a :: IsLastTime(ms, a, n)
  {
    if ms[n - 1].At? {
      assert IsLastTime(ms, n - 1, n);
    } else {
      LastTimeExists(ms, n - 1, i);
      var a :| IsLastTime(ms, a, n - 1);
      assert IsLastTime(ms, a, n);
    }
  }

  lemma FollowsMeans(c: Ideal, ms: seq<Moment>)
    requires Follows(c, ms, |ms|)
    ensures c.Ready() <==> (exists i :: 0 <= i < |ms| && ms[i].Tick?) && exists i :: 0 <= i < |ms| && ms[i].At?
    ensures forall a, b, z :: IsLastTime(ms, a, |ms|) && IsBase(ms, a, b, |ms|) && IsLastTick(ms, z, |ms|) ==>
              && c.Ready()
              && (ms[b].x % 2_576_980_377_600 + ms[z].x - ms[b].x < 2 * 2_576_980_377_600 ==>
                    c.Shown() == ms[a].time + (ms[z].x - ms[b].x) / 27_000)
  {
    if i :| 0 <= i < |ms| && ms[i].Tick? {
      LastTickExists(ms, |ms|, i);
    }
    if i :| 0 <= i < |ms| && ms[i].At? {
      LastTimeExists(ms, |ms|, i);
    }
    forall a, b, z | IsLastTime(ms, a, |ms|) && IsBase(ms, a, b, |ms|) && IsLastTick(ms, z, |ms|)
      ensures c.Ready()
      ensures ms[b].x % 2_576_980_377_600 + ms[z].x - ms[b].x < 2 * 2_576_980_377_600 ==>
                c.Shown() == ms[a].time + (ms[z].x - ms[b].x) / 27_000
    {
      if !Waits(c, ms, |ms|) {
        var a', b', z' :| Shows(c, ms, |ms|, a', b', z');
        BaseIsUnique(ms, a, b, b', |ms|);
        assert a' == a && z' == z;
        LostPeriods(c.span.value);
      }
    }
  }

  lemma BaseIsUnique(ms: seq<Moment>, a: int, b: int, b': int, n: int)
    requires IsBase(ms, a, b, n) && IsBase(ms, a, b', n)
    ensures b == b'
  {
  }

  /** Whatever came before, a clock that is ready right after a time shows that time. */
  lemma {:induction false} ShowsTime(events: seq<ClockEvent>, time: int)
    requires forall e <- events :: ValidEvent(e)
    ensures forall e <- events + [TimeEvent(time)] :: ValidEvent(e)
    ensures
      var c := FRESH.AfterAll(events + [TimeEvent(time)]);
      c.Ready() ==> c.Shown() == time
  {
    AfterAllSplit(FRESH, events, [TimeEvent(time)]);
    var c := FRESH.AfterAll(events);
    assert [TimeEvent(time)][..0] == [];
    assert c.AfterAll([TimeEvent(time)]) == c.AfterTime(time);
  }

  /** A PCR that is `gap` ticks ahead, `n` times. */
  function Strays(gap: int, n: nat): (xs: seq<int>)
    ensures |xs| == n
  {
    seq(n, i => gap)
  }

  /**
   PCRs a second or more ahead are ignored four times, and the fifth one makes the clock give up; one that
   is a tick less ahead is accepted at once.
   */
  lemma {:induction false} FourAreIgnored(time: int, gap: int)
    requires 27_000_000 <= gap < 2_576_980_377_600
    ensures
      var c := FRESH.AfterPcr(0).AfterTime(time);
      && (forall n: nat :: n <= 4 ==>
            && c.AfterAll(PcrEvents(Strays(gap, n))).Ready() && c.AfterAll(PcrEvents(Strays(gap, n))).Shown() == time)
      && !c.AfterAll(PcrEvents(Strays(gap, 5))).Ready()
      && c.AfterPcr(26_999_999).Ready() && c.AfterPcr(26_999_999).Shown() == time + 999
  {
    var c := FRESH.AfterPcr(0).AfterTime(time);
    assert Wrap(gap) == gap && c.Gap(gap) == gap;
    forall n: nat | n <= 5
      ensures Burst(c, Strays(gap, n))
    {
    }
    forall n: nat | n <= 4
      ensures c.AfterAll(PcrEvents(Strays(gap, n))) == c.(gaps := n)
    {
      BurstIsDebounced(c, Strays(gap, n));
    }
    BurstIsDebounced(c, Strays(gap, 5));
    NextTick(c, 0, 0, 26_999_999);
    assert Wrap(26_999_999) == 26_999_999;
  }
}
