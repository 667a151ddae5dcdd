/**
 What the program filter knows, in terms of the tables of the stream alone: which event it waits for, which
 packets of the PMT it sends, which streams it drops, which time its clock has, and when it gives up.
 */
module ProgramTables {
  import opened Tables
  import opened Pcr
  import opened Sinks
  import opened ProgramFiltering
  import opened ProgramRuns

  // The event

  /** The table tells event `e`, which is the one asked for, as the present or the following one. */
  ghost predicate IsAsked(option: Settings, t: Table, e: Event) {
    && t.Eit? && t.valid && t.sid == option.sid && e.id == option.eid
    && (|| (|t.events| > 0 && t.events[0] == e)
        || (|t.events| > 1 && t.events[0].id != option.eid && t.events[1] == e))
  }

  ghost predicate Asks(option: Settings, t: Table) {
    exists e :: IsAsked(option, t, e)
  }

  ghost predicate LastAsking(option: Settings, tables: seq<Table>, j: int) {
    0 <= j < |tables| && Asks(option, tables[j]) && forall i :: j < i < |tables| ==> !Asks(option, tables[i])
  }

  /** The window is that of the event, with the margins, in the last table that tells it. */
  ghost predicate IsWindow(option: Settings, tables: seq<Table>, start: int, end: int) {
    exists j, e :: LastAsking(option, tables, j) && IsAsked(option, tables[j], e)
                   && start == e.start - option.startMargin && end == e.start + 1000 * e.duration + option.endMargin
  }

  lemma LastAskingNext(option: Settings, tables: seq<Table>, t: Table)
    ensures forall j :: LastAsking(option, tables + [t], j) <==>
                        if Asks(option, t) then j == |tables| else LastAsking(option, tables, j)
  {
    var next := tables + [t];
    forall j
      ensures LastAsking(option, next, j) <==> if Asks(option, t) then j == |tables| else LastAsking(option, tables, j)
    {
      if LastAsking(option, next, j) && j < |tables| {
        assert !Asks(option, next[|tables|]);
        assert forall i :: j < i < |tables| ==> next[i] == tables[i];
      }
    }
  }

  lemma WindowNext(option: Settings, tables: seq<Table>, t: Table, start: int, end: int)
    ensures IsWindow(option, tables + [t], start, end) <==>
            if Asks(option, t) then
              exists e :: IsAsked(option, t, e) && start == e.start - option.startMargin
                          && end == e.start + 1000 * e.duration + option.endMargin
            else IsWindow(option, tables, start, end)
  {
    var next := tables + [t];
    LastAskingNext(option, tables, t);
    if Asks(option, t) {
      assert LastAsking(option, next, |tables|) && next[|tables|] == t;
    } else {
      assert forall j :: LastAsking(option, tables, j) ==> next[j] == tables[j];
    }
  }

  ghost predicate EventAgrees(option: Settings, tables: seq<Table>, event: Option<(int, int)>) {
    forall start, end :: event == Some((start, end)) <==> IsWindow(option, tables, start, end)
  }

  lemma EventNext(option: Settings, tables: seq<Table>, t: Table, waiting: bool, k: Known)
    requires EventAgrees(option, tables, k.event) && !k.IsBroken()
    ensures EventAgrees(option, tables + [t], k.AfterTable(option, waiting, t).event)
  {
    var event := k.AfterTable(option, waiting, t).event;
    forall start, end
      ensures event == Some((start, end)) <==> IsWindow(option, tables + [t], start, end)
    {
      WindowNext(option, tables, t, start, end);
      if t.Eit? && |t.events| > 0 && IsAsked(option, t, t.events[0]) {
        assert Asks(option, t);
      } else if t.Eit? && |t.events| > 1 && IsAsked(option, t, t.events[1]) {
        assert Asks(option, t);
      }
    }
  }

  // The PMT

  /** A video or audio stream that is not among those asked for. */
  predicate IsUnasked(option: Settings, s: Stream) {
    || (s.kind == Video && option.videoTags != {} && !(s.tag.Some? && s.tag.value in option.videoTags))
    || (s.kind == Audio && option.audioTags != {} && !(s.tag.Some? && s.tag.value in option.audioTags))
  }

  /** The black list, and the packets that are sent in place of the PMT. */
  ghost predicate IsLoaded(option: Settings, t: Table, blackList: set<Pid>, c: Cycle)
    requires t.Pmt?
  {
    && (forall p: Pid :: p in blackList <==> p in t.streams && IsUnasked(option, t.streams[p]))
    && c.pid == t.source && c.size == t.packets && c.next == 0
    && (forall p: Pid :: p in c.streams <==> p in t.streams && !IsUnasked(option, t.streams[p]))
    && forall p: Pid :: p in c.streams ==> c.streams[p] == t.streams[p]
  }

  /** What is known of the PMT is what the last one of the service says. */
  ghost predicate PmtAgrees(option: Settings, tables: seq<Table>, k: Known) {
    && (forall j :: LastPmt(option.sid, tables, j) ==>
          && k.pcrPid == Some(tables[j].pcrPid) && k.clockPid == tables[j].pcrPid
          && k.loaded.Some? && IsLoaded(option, tables[j], k.blackList, k.loaded.value))
    && ((forall j :: !LastPmt(option.sid, tables, j)) ==>
          k.pcrPid.None? && k.clockPid == option.clockPid && k.blackList == {} && k.loaded.None?)
  }

  lemma PmtNext(option: Settings, tables: seq<Table>, t: Table, waiting: bool, k: Known)
    requires PmtAgrees(option, tables, k) && !k.IsBroken()
    ensures PmtAgrees(option, tables + [t], k.AfterTable(option, waiting, t))
  {
    var next := tables + [t];
    LastPmtNext(option.sid, tables, t);
    if IsPmtOf(option.sid, t) {
      assert LastPmt(option.sid, next, |tables|);
      FreshMeans(option, t);
    } else {
      var after := k.AfterTable(option, waiting, t);
      assert after.pcrPid == k.pcrPid && after.clockPid == k.clockPid && after.blackList == k.blackList;
      assert forall j :: LastPmt(option.sid, tables, j) ==> LastPmt(option.sid, next, j) && next[j] == tables[j];
    }
  }

  lemma FreshMeans(option: Settings, t: Table)
    requires t.Pmt?
    ensures IsLoaded(option, t, ExcludedPids(option, t.streams), Fresh(option, t))
  {
  }

  // The PMT PID

  predicate IsPatOf(sid: int, t: Table) {
    t.Pat? && t.source == 0x0000 && t.valid && t.tsid != 0 && sid in t.pmts
  }

  ghost predicate LastPat(sid: int, tables: seq<Table>, j: int) {
    0 <= j < |tables| && IsPatOf(sid, tables[j]) && forall i :: j < i < |tables| ==> !IsPatOf(sid, tables[i])
  }

  /** The PMT PID is the one that the last PAT gives the service. */
  ghost predicate PatAgrees(sid: int, tables: seq<Table>, pid: Pid) {
    && (forall j :: LastPat(sid, tables, j) ==> pid == tables[j].pmts[sid])
    && ((forall j :: !LastPat(sid, tables, j)) ==> pid == 0x1FFF)
  }

  lemma PatNext(option: Settings, tables: seq<Table>, t: Table, waiting: bool, k: Known)
    requires PatAgrees(option.sid, tables, k.pmtPid) && !k.IsBroken()
    ensures PatAgrees(option.sid, tables + [t], k.AfterTable(option, waiting, t).pmtPid)
  {
    var sid, next := option.sid, tables + [t];
    forall j
      ensures LastPat(sid, next, j) <==> if IsPatOf(sid, t) then j == |tables| else LastPat(sid, tables, j)
    {
      if LastPat(sid, next, j) && j < |tables| {
        assert !IsPatOf(sid, next[|tables|]);
        assert forall i :: j < i < |tables| ==> next[i] == tables[i];
      }
    }
    if IsPatOf(sid, t) {
      assert LastPat(sid, next, |tables|);
    } else {
      assert forall j :: LastPat(sid, tables, j) ==> LastPat(sid, next, j) && next[j] == tables[j];
    }
  }

  // The time of the clock

  /** The PCR PID before table `n`: that of the last PMT before it, or that of the options. */
  ghost function PidBefore(option: Settings, tables: seq<Table>, n: nat): Pid
    requires n <= |tables|
  {
    if n == 0 then option.clockPid
    else if IsPmtOf(option.sid, tables[n - 1]) then tables[n - 1].pcrPid
    else PidBefore(option, tables, n - 1)
  }

  /** Table `j` is a PMT with another PCR PID. */
  ghost predicate IsChange(option: Settings, tables: seq<Table>, j: int) {
    && 0 <= j < |tables| && IsPmtOf(option.sid, tables[j])
    && tables[j].pcrPid != PidBefore(option, tables, j)
  }

  /** Since table `c` there was no such change. */
  ghost predicate LastChange(option: Settings, tables: seq<Table>, c: int) {
    IsChange(option, tables, c) && forall i :: c < i < |tables| ==> !IsChange(option, tables, i)
  }

  predicate IsTot(t: Table) {
    t.Tot? && t.valid
  }

  /** Table `u` is the first time after table `c`. */
  ghost predicate FirstTot(tables: seq<Table>, c: int, u: int) {
    -1 <= c < u < |tables| && IsTot(tables[u]) && forall i :: c < i < u ==> !IsTot(tables[i])
  }

  /**
   The time of the clock is the first one after the last change of the PCR PID, and not known before; without
   any change it is that of the options.
   */
  ghost predicate TimeAgrees(option: Settings, tables: seq<Table>, time: Option<int>) {
    && (forall c, u :: LastChange(option, tables, c) && FirstTot(tables, c, u) ==> time == Some(tables[u].time))
    && (forall c :: LastChange(option, tables, c) && (forall u :: !FirstTot(tables, c, u)) ==> time.None?)
    && ((forall c :: !LastChange(option, tables, c)) ==> time == Some(option.clockTime))
  }

  lemma {:induction false} PidPrefix(option: Settings, tables: seq<Table>, t: Table, n: nat)
    requires n <= |tables|
    ensures PidBefore(option, tables + [t], n) == PidBefore(option, tables, n)
  {
    if n > 0 {
      PidPrefix(option, tables, t, n - 1);
    }
  }

  lemma ChangeNext(option: Settings, tables: seq<Table>, t: Table)
    ensures
      var changes := IsPmtOf(option.sid, t) && t.pcrPid != PidBefore(option, tables, |tables|);
      forall c :: LastChange(option, tables + [t], c) <==>
                  if changes then c == |tables| else LastChange(option, tables, c)
  {
    var next := tables + [t];
    forall j | 0 <= j <= |tables|
      ensures PidBefore(option, next, j) == PidBefore(option, tables, j)
    {
      PidPrefix(option, tables, t, j);
    }
    assert forall j :: 0 <= j < |tables| ==> next[j] == tables[j];
    assert forall j :: 0 <= j < |tables| ==> (IsChange(option, next, j) <==> IsChange(option, tables, j));
    forall c
      ensures LastChange(option, next, c) <==> if IsChange(option, next, |tables|) then c == |tables|
                                               else LastChange(option, tables, c)
    {
      if LastChange(option, next, c) && c < |tables| {
        assert !IsChange(option, next, |tables|);
      }
    }
  }

  lemma FirstTotNext(tables: seq<Table>, t: Table, c: int)
    requires -1 <= c < |tables|
    ensures forall u :: FirstTot(tables, c, u) ==> FirstTot(tables + [t], c, u)
    ensures IsTot(t) && (forall u :: !FirstTot(tables, c, u)) ==> FirstTot(tables + [t], c, |tables|)
    ensures !IsTot(t) ==> forall u :: FirstTot(tables + [t], c, u) ==> FirstTot(tables, c, u)
    ensures forall u, v :: FirstTot(tables + [t], c, u) && FirstTot(tables + [t], c, v) ==> u == v
  {
    var next := tables + [t];
    assert forall j :: 0 <= j < |tables| ==> next[j] == tables[j];
    if IsTot(t) && forall u :: !FirstTot(tables, c, u) {
      NoTots(tables, c, |tables|);
    }
  }

  lemma {:induction false} NoTots(tables: seq<Table>, c: int, n: int)
    requires -1 <= c < n <= |tables| && forall u :: !FirstTot(tables, c, u)
    ensures forall i :: c < i < n ==> !IsTot(tables[i])
    decreases n
  {
    if c < n - 1 {
      NoTots(tables, c, n - 1);
      assert !FirstTot(tables, c, n - 1);
    }
  }

  lemma TimeNext(option: Settings, tables: seq<Table>, t: Table, waiting: bool, k: Known)
    requires TimeAgrees(option, tables, k.clockTime) && k.clockPid == PidBefore(option, tables, |tables|)
    requires !k.IsBroken()
    ensures
      var after, next := k.AfterTable(option, waiting, t), tables + [t];
      TimeAgrees(option, next, after.clockTime) && after.clockPid == PidBefore(option, next, |next|)
  {
    var after, next := k.AfterTable(option, waiting, t), tables + [t];
    PidPrefix(option, tables, t, |tables|);
    ChangeNext(option, tables, t);
    if IsPmtOf(option.sid, t) && t.pcrPid != k.clockPid {
      assert forall u :: !FirstTot(next, |tables|, u);
      assert LastChange(option, next, |tables|);
    } else if c :| LastChange(option, tables, c) {
      FirstTotNext(tables, t, c);
      assert forall d :: LastChange(option, next, d) ==> d == c;
      if u :| FirstTot(tables, c, u) {
        assert next[u] == tables[u] && FirstTot(next, c, u);
      } else if IsTot(t) {
        assert FirstTot(next, c, |tables|) && next[|tables|] == t;
      }
    } else {
      assert forall d :: !LastChange(option, next, d);
    }
  }

  // Whole runs

  ghost predicate Agrees(option: Settings, tables: seq<Table>, k: Known) {
    && EventAgrees(option, tables, k.event) && PmtAgrees(option, tables, k)
    && PatAgrees(option.sid, tables, k.pmtPid)
    && TimeAgrees(option, tables, k.clockTime) && k.clockPid == PidBefore(option, tables, |tables|)
  }

  lemma AgreesNext(option: Settings, tables: seq<Table>, t: Table, waiting: bool, k: Known)
    requires Agrees(option, tables, k) && !k.IsBroken()
    ensures Agrees(option, tables + [t], k.AfterTable(option, waiting, t))
  {
    EventNext(option, tables, t, waiting, k);
    PmtNext(option, tables, t, waiting, k);
    PatNext(option, tables, t, waiting, k);
    TimeNext(option, tables, t, waiting, k);
  }

  lemma {:induction false} NotBrokenBefore(option: Settings, waiting: bool, k: Known, tables: seq<Table>, n: nat,
                                           m: nat)
    requires n <= m <= |tables| && !k.AfterTables(option, waiting, tables, m).IsBroken()
    ensures !k.AfterTables(option, waiting, tables, n).IsBroken()
  {
    if n < m {
      NotBrokenBefore(option, waiting, k, tables, n, m - 1);
    }
  }

  lemma {:induction false} AgreesAfter(option: Settings, before: seq<Table>, tables: seq<Table>, waiting: bool,
                                       k: Known, n: nat)
    requires n <= |tables| && Agrees(option, before, k) && !k.AfterTables(option, waiting, tables, n).IsBroken()
    ensures Agrees(option, before + tables[..n], k.AfterTables(option, waiting, tables, n))
  {
    if n == 0 {
      assert before + tables[..0] == before;
    } else {
      NotBrokenBefore(option, waiting, k, tables, n - 1, n);
      AgreesAfter(option, before, tables, waiting, k, n - 1);
      assert before + tables[..n] == before + tables[..n - 1] + [tables[n - 1]];
      AgreesNext(option, before + tables[..n - 1], tables[n - 1], waiting,
                 k.AfterTables(option, waiting, tables, n - 1));
    }
  }

  /** Only the PCR of the clock is not a matter of tables. */
  lemma AgreesAnyPcr(option: Settings, tables: seq<Table>, k: Known, pcr: Option<int>)
    requires Agrees(option, tables, k)
    ensures Agrees(option, tables, k.(clockPcr := pcr))
  {
  }

  /** A run that goes on has neither been told to stop nor a clock that cannot be used. */
  lemma {:induction false} GoesOnMeans(option: Settings, inputs: seq<Input>, n: nat)
    requires n <= |inputs| && GoesOn(option, inputs, n)
    ensures !RunAt(option, inputs, n).known.stop && !RunAt(option, inputs, n).known.IsBroken()
    ensures n > 0 ==> GoesOn(option, inputs, n - 1)
  {
    if n > 0 {
      if !GoesOn(option, inputs, n - 1) {
        RunStays(option, inputs, n - 1, n);
      }
      GoesOnMeans(option, inputs, n - 1);
      var r, tables := RunAt(option, inputs, n - 1), inputs[n - 1].tables;
      HeardAborts(r, option, tables, |tables|);
      StepGoesOn(r.Heard(option, tables, |tables|), option.preStreaming, inputs[n - 1].packet);
    }
  }

  lemma {:induction false} StepGoesOn(h: Run, pre: bool, packet: Packet)
    requires h.outcome == Continue ==> !h.known.IsBroken()
    requires h.Step(pre, packet).outcome == Continue
    ensures
      var k := h.Step(pre, packet).known;
      && h.outcome == Continue && !k.stop && !k.IsBroken() && k == h.known.(clockPcr := k.clockPcr)
  {
  }

  /** While a run goes on, what it knows is what the tables have said. */
  lemma {:induction false} KnownMeans(option: Settings, inputs: seq<Input>, n: nat)
    requires n <= |inputs| && GoesOn(option, inputs, n)
    ensures Agrees(option, AllTables(inputs, n), RunAt(option, inputs, n).known)
  {
    if n > 0 {
      GoesOnMeans(option, inputs, n);
      GoesOnMeans(option, inputs, n - 1);
      KnownMeans(option, inputs, n - 1);
      var r, tables := RunAt(option, inputs, n - 1), inputs[n - 1].tables;
      HeardAborts(r, option, tables, |tables|);
      var h := r.Heard(option, tables, |tables|);
      StepGoesOn(h, option.preStreaming, inputs[n - 1].packet);
      AgreesAfter(option, AllTables(inputs, n - 1), tables, !r.streaming, r.known, |tables|);
      assert tables[..|tables|] == tables;
      AgreesAnyPcr(option, AllTables(inputs, n), h.known, RunAt(option, inputs, n).known.clockPcr);
    }
  }

  /** The window at any input of a run that goes on is that of the last table that tells the event. */
  lemma {:induction false} WindowIsThatOfLastEit(option: Settings, inputs: seq<Input>, n: nat)
    requires n <= |inputs| && GoesOn(option, inputs, n)
    ensures forall start, end ::
              RunAt(option, inputs, n).known.event == Some((start, end)) <==>
              IsWindow(option, AllTables(inputs, n), start, end)
  {
    KnownMeans(option, inputs, n);
  }

  // When the filter gives up

  /**
   The table makes a filter give up: it tells no event at all; or, while the filter waits, not the one asked
   for and no other to wait for, or a time past the limit.
   */
  predicate GivesUpOn(option: Settings, waiting: bool, t: Table) {
    || (t.Eit? && t.valid && t.sid == option.sid && t.events == [])
    || (&& waiting && t.Eit? && t.valid && t.sid == option.sid
        && |t.events| == 1 && t.events[0].id != option.eid)
    || (&& waiting && t.Eit? && t.valid && t.sid == option.sid && option.waitUntil.None?
        && |t.events| >= 2 && t.events[0].id != option.eid && t.events[1].id != option.eid)
    || (waiting && t.Tot? && t.valid && option.waitUntil.Some? && t.time > option.waitUntil.value)
  }

  lemma {:induction false} StopsAfter(option: Settings, waiting: bool, k: Known, tables: seq<Table>, n: nat)
    requires n <= |tables| && !k.stop && !k.AfterTables(option, waiting, tables, n).IsBroken()
    ensures k.AfterTables(option, waiting, tables, n).stop <==>
            exists i :: 0 <= i < n && GivesUpOn(option, waiting, tables[i])
  {
    if n > 0 {
      NotBrokenBefore(option, waiting, k, tables, n - 1, n);
      StopsAfter(option, waiting, k, tables, n - 1);
      var before, t := k.AfterTables(option, waiting, tables, n - 1), tables[n - 1];
      assert before.AfterTable(option, waiting, t).stop <==> before.stop || GivesUpOn(option, waiting, t);
    }
  }

  /** A filter gives up before the program begins if and only if one of the tables of the input makes it. */
  lemma {:induction false} GivesUpIff(option: Settings, inputs: seq<Input>, n: nat)
    requires n < |inputs| && GoesOn(option, inputs, n)
    ensures GivesUp(HeardAt(option, inputs, n)) <==>
            && HeardAt(option, inputs, n).outcome == Continue && !RunAt(option, inputs, n).streaming
            && exists i :: 0 <= i < |inputs[n].tables| && GivesUpOn(option, true, inputs[n].tables[i])
  {
    GoesOnMeans(option, inputs, n);
    var r, tables := RunAt(option, inputs, n), inputs[n].tables;
    HeardAborts(r, option, tables, |tables|);
    if HeardAt(option, inputs, n).outcome == Continue {
      StopsAfter(option, !r.streaming, r.known, tables, |tables|);
    }
  }
}
