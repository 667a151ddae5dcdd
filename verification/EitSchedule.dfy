/**
 What a run of sections and times asks of an EIT collector: which sections are to be written, which
 groups are complete when, and after which packet to stop.
 */
module Schedules {
  import opened Sections
  import opened GroupLogs
  import opened Ledger

  datatype Settings = Settings(
    sids: set<int>, xsids: set<int>, collectActual: bool, collectOthers: bool, timeLimit: int, streaming: bool)

  /** Schedule tables of the actual stream have IDs 0x50 to 0x5F, those of others 0x60 to 0x6F. */
  predicate Wanted(option: Settings, e: Section) {
    && ((0x50 <= e.tid <= 0x5F && option.collectActual) || (0x60 <= e.tid <= 0x6F && option.collectOthers))
    && (option.sids != {} ==> e.sid in option.sids)
    && (option.xsids != {} ==> e.sid !in option.xsids)
  }

  /** Which sections are asked for: those of tables 0x50 to 0x5F, of tables 0x60 to 0x6F, or of both. */
  lemma WantedIff(option: Settings, e: Section)
    ensures option.sids == {} && option.xsids == {} ==>
              (Wanted(option, e) <==>
               (e.tid / 16 == 5 && option.collectActual) || (e.tid / 16 == 6 && option.collectOthers))
    ensures option.sids != {} && e.sid !in option.sids ==> !Wanted(option, e)
    ensures e.sid in option.xsids ==> !Wanted(option, e)
    ensures (option.sids == {} || e.sid in option.sids) && e.sid !in option.xsids ==>
              Wanted(option, e) == Wanted(option.(sids := {}, xsids := {}), e)
  {
  }

  /** A section or a time completed by the current packet, or the end of that packet. */
  datatype CollectInput = SectionInput(section: Section) | TimeInput(time: int) | PacketEnd

  predicate ValidInput(input: CollectInput) {
    input.SectionInput? ==> input.section.Valid()
  }

  ghost predicate ValidInputs(inputs: seq<CollectInput>) {
    forall i :: 0 <= i < |inputs| ==> ValidInput(inputs[i])
  }

  /** The hour of the day; times are in milliseconds from a midnight. */
  function HourOf(time: int): (hour: int)
    ensures 0 <= hour < 24
  {
    time / 3_600_000 % 24
  }

  /** The three-hour segment of the day that a time falls into. */
  lemma HourSegment(time: int)
    ensures HourOf(time) / 3 == time % 86_400_000 / 10_800_000
  {
    var day, rest := time / 86_400_000, time % 86_400_000;
    assert time == 86_400_000 * day + rest;
    assert time / 3_600_000 == 24 * day + rest / 3_600_000;
  }

  function Later(past: int, hour: int): int {
    if hour / 3 > past then hour / 3 else past
  }

  predicate WantedAt(option: Settings, inputs: seq<CollectInput>, i: nat)
    requires i < |inputs|
  {
    inputs[i].SectionInput? && Wanted(option, inputs[i].section)
  }

  // What is written

  /** Input `i` is a wanted section that does not count as collected by what was written before. */
  ghost predicate IsNew(option: Settings, inputs: seq<CollectInput>, i: nat)
    requires i < |inputs|
    decreases i, 1
  {
    WantedAt(option, inputs, i) &&
    !Collected(GroupLog(WrittenAt(option, inputs, i), inputs[i].section), inputs[i].section)
  }

  /** What is to be written of the first `n` inputs. */
  ghost function WrittenAt(option: Settings, inputs: seq<CollectInput>, n: nat): seq<Section>
    requires n <= |inputs|
    decreases n, 0
  {
    if n == 0 then []
    else if IsNew(option, inputs, n - 1) then WrittenAt(option, inputs, n - 1) + [inputs[n - 1].section]
    else WrittenAt(option, inputs, n - 1)
  }

  /** How many inputs there were when the last section was written; zero, if there was none. */
  ghost function LastNew(option: Settings, inputs: seq<CollectInput>, n: nat): (m: nat)
    requires n <= |inputs|
    ensures m <= n && (m > 0 ==> IsNew(option, inputs, m - 1))
    ensures forall i :: m <= i < n ==> !IsNew(option, inputs, i)
  {
    if n == 0 then 0
    else if IsNew(option, inputs, n - 1) then n
    else LastNew(option, inputs, n - 1)
  }

  // What is complete

  /** Section `e` starts a group with these sections over. */
  ghost predicate StartsOver(log: seq<Section>, e: Section) {
    log == [] || log[|log| - 1].LastTableIndex() != e.LastTableIndex()
  }

  /** Input `i` starts the group of `e` over. */
  ghost predicate RestartAt(option: Settings, inputs: seq<CollectInput>, e: Section, i: nat)
    requires i < |inputs|
  {
    && IsNew(option, inputs, i) && SameGroup(inputs[i].section, e)
    && StartsOver(GroupLog(WrittenAt(option, inputs, i), e), inputs[i].section)
  }

  /** Input `t` is a time, and something has been written from the group of `e` before it. */
  ghost predicate TimeFor(option: Settings, inputs: seq<CollectInput>, e: Section, t: nat)
    requires t < |inputs|
  {
    inputs[t].TimeInput? && GroupLog(WrittenAt(option, inputs, t), e) != []
  }

  /** The largest number of three-hour segments that a time has passed since the group last started over. */
  ghost function PastSince(option: Settings, inputs: seq<CollectInput>, e: Section, n: nat): (past: int)
    requires n <= |inputs|
    ensures 0 <= past < 8
  {
    if n == 0 then 0
    else if TimeFor(option, inputs, e, n - 1) then
      Later(PastSince(option, inputs, e, n - 1), HourOf(inputs[n - 1].time))
    else if RestartAt(option, inputs, e, n - 1) then 0
    else PastSince(option, inputs, e, n - 1)
  }

  /**
   Every table of a group is complete by what it holds; in the first one the first `past` segments do
   not matter any more.
   */
  ghost predicate GroupDone(log: seq<Section>, past: int)
    requires log != []
  {
    forall i :: 0 <= i <= log[|log| - 1].LastTableIndex() ==>
      Complete(InTableAt(Current(log, |log|), i), if i == 0 then past else 0)
  }

  ghost predicate DoneFor(written: seq<Section>, e: Section, past: int) {
    GroupLog(written, e) != [] && GroupDone(GroupLog(written, e), past)
  }

  /** Every group that something was written from is complete at the time of input `n`. */
  ghost predicate DoneAt(option: Settings, inputs: seq<CollectInput>, n: nat)
    requires n <= |inputs|
  {
    var written := WrittenAt(option, inputs, n);
    forall e :: e in written ==> DoneFor(written, e, PastSince(option, inputs, e, n))
  }

  /** Every group was complete when the last section was written. */
  ghost predicate FlagAt(option: Settings, inputs: seq<CollectInput>, n: nat)
    requires n <= |inputs|
  {
    var m := LastNew(option, inputs, n);
    m > 0 && DoneAt(option, inputs, m)
  }

  // When to stop

  /** The last time among the first `n` inputs; the clock of the collector starts at zero. */
  ghost function TimeAt(inputs: seq<CollectInput>, n: nat): int
    requires n <= |inputs|
  {
    if n == 0 then 0
    else if inputs[n - 1].TimeInput? then inputs[n - 1].time
    else TimeAt(inputs, n - 1)
  }

  /** How many inputs there were with the first time; zero, if there is none among the first `n`. */
  ghost function FirstTime(inputs: seq<CollectInput>, n: nat): (m: nat)
    requires n <= |inputs|
    ensures m <= n && (m > 0 ==> inputs[m - 1].TimeInput?)
    ensures forall i :: 0 <= i < (if m == 0 then n else m - 1) ==> !inputs[i].TimeInput?
  {
    if n == 0 then 0
    else if FirstTime(inputs, n - 1) > 0 then FirstTime(inputs, n - 1)
    else if inputs[n - 1].TimeInput? then n
    else 0
  }

  /** The waiting for a section began with the last one written, or with the first time. */
  ghost function WaitingSince(option: Settings, inputs: seq<CollectInput>, n: nat): (m: nat)
    requires n <= |inputs|
    ensures m <= n
  {
    var written, first := LastNew(option, inputs, n), FirstTime(inputs, n);
    if written > first then written else first
  }

  /** No section has been written for as long as the time limit. */
  ghost predicate TimedOutAt(option: Settings, inputs: seq<CollectInput>, n: nat)
    requires n <= |inputs|
  {
    TimeAt(inputs, n) - TimeAt(inputs, WaitingSince(option, inputs, n)) >= option.timeLimit
  }

  /** A packet ends after `n` inputs with the flag set or the time over, and that matters. */
  ghost predicate StopsAt(option: Settings, inputs: seq<CollectInput>, n: nat)
    requires n <= |inputs|
  {
    && !option.streaming && n > 0 && inputs[n - 1].PacketEnd?
    && (FlagAt(option, inputs, n) || TimedOutAt(option, inputs, n))
  }

  /** Input `t` is the last time before input `n`. */
  ghost predicate IsLastTime(inputs: seq<CollectInput>, t: int, n: int) {
    0 <= t < n <= |inputs| && inputs[t].TimeInput? && forall i :: t < i < n ==> !inputs[i].TimeInput?
  }

  /**
   The waiting began at time `u`: it was the last time before the last section that was written, or it was
   the first time of all, and no section has been written since.
   */
  ghost predicate WaitsFrom(option: Settings, inputs: seq<CollectInput>, u: int, n: nat)
    requires n <= |inputs|
  {
    && 0 <= u < n && inputs[u].TimeInput?
    && (|| (exists s :: 0 <= s < n && IsNew(option, inputs, s) && IsLastTime(inputs, u, s)
                        && forall i :: s < i < n ==> !IsNew(option, inputs, i))
        || ((forall i :: 0 <= i < u ==> !inputs[i].TimeInput?) && forall i :: u < i < n ==> !IsNew(option, inputs, i)))
  }

  lemma {:induction false} WaitedSince(option: Settings, inputs: seq<CollectInput>, u: int, n: nat)
    requires n <= |inputs| && WaitsFrom(option, inputs, u, n)
    ensures TimeAt(inputs, WaitingSince(option, inputs, n)) == inputs[u].time
  {
    if s :| 0 <= s < n && IsNew(option, inputs, s) && IsLastTime(inputs, u, s)
            && forall i :: s < i < n ==> !IsNew(option, inputs, i) {
      assert LastNew(option, inputs, n) == s + 1 && FirstTime(inputs, n) <= u + 1;
      LastTimeIs(inputs, u, s);
      assert TimeAt(inputs, s + 1) == inputs[u].time;
    } else {
      LastTimeIs(inputs, u, u + 1);
      assert FirstTime(inputs, n) == u + 1 && LastNew(option, inputs, n) <= u + 1;
    }
  }

  /** The time limit is reached if and only if the last time is that long after the one the waiting began at. */
  lemma {:induction false} TimedOutIff(option: Settings, inputs: seq<CollectInput>, t: int, u: int, n: nat)
    requires n <= |inputs| && IsLastTime(inputs, t, n) && WaitsFrom(option, inputs, u, n)
    ensures TimedOutAt(option, inputs, n) <==> inputs[t].time - inputs[u].time >= option.timeLimit
  {
    LastTimeIs(inputs, t, n);
    WaitedSince(option, inputs, u, n);
  }

  lemma {:induction false} LastTimeIs(inputs: seq<CollectInput>, t: int, n: nat)
    requires IsLastTime(inputs, t, n)
    ensures TimeAt(inputs, n) == inputs[t].time
  {
    if t < n - 1 {
      LastTimeIs(inputs, t, n - 1);
    }
  }

  // Properties of runs

  lemma {:induction false} WrittenValid(option: Settings, inputs: seq<CollectInput>, n: nat)
    requires n <= |inputs| && ValidInputs(inputs)
    ensures AllValid(WrittenAt(option, inputs, n))
  {
    if n > 0 {
      WrittenValid(option, inputs, n - 1);
      assert ValidInput(inputs[n - 1]);
    }
  }

  lemma {:induction false} NothingWritten(option: Settings, inputs: seq<CollectInput>, m: nat, n: nat)
    requires m <= n <= |inputs| && forall i :: m <= i < n ==> !IsNew(option, inputs, i)
    ensures WrittenAt(option, inputs, n) == WrittenAt(option, inputs, m)
  {
    if m < n {
      NothingWritten(option, inputs, m, n - 1);
    }
  }

  /** Nothing is past for a group that nothing was written from. */
  lemma {:induction false} NothingPastUnseen(option: Settings, inputs: seq<CollectInput>, e: Section, n: nat)
    requires n <= |inputs| && GroupLog(WrittenAt(option, inputs, n), e) == []
    ensures PastSince(option, inputs, e, n) == 0
  {
    if n > 0 {
      if IsNew(option, inputs, n - 1) {
        NextLog(WrittenAt(option, inputs, n - 1), inputs[n - 1].section, e);
      }
      NothingPastUnseen(option, inputs, e, n - 1);
    }
  }

  lemma {:induction false} SameGroupSamePast(option: Settings, inputs: seq<CollectInput>, a: Section, b: Section,
                                             n: nat)
    requires n <= |inputs| && SameGroup(a, b)
    ensures PastSince(option, inputs, a, n) == PastSince(option, inputs, b, n)
  {
    if n > 0 {
      SameGroupSamePast(option, inputs, a, b, n - 1);
      SameLog(WrittenAt(option, inputs, n - 1), a, b, |WrittenAt(option, inputs, n - 1)|);
    }
  }

  /** Input `t` is a time for the group, which has not started over since. */
  ghost predicate HourSince(option: Settings, inputs: seq<CollectInput>, e: Section, t: nat, n: nat)
    requires t < n <= |inputs|
  {
    TimeFor(option, inputs, e, t) && forall i :: t < i < n ==> !RestartAt(option, inputs, e, i)
  }

  /** No time since the group last started over has passed more segments, and one has passed that many. */
  lemma {:induction false} PastIsLargest(option: Settings, inputs: seq<CollectInput>, e: Section, n: nat)
    requires n <= |inputs|
    ensures forall t: nat :: t < n && HourSince(option, inputs, e, t, n) ==>
              inputs[t].time % 86_400_000 / 10_800_000 <= PastSince(option, inputs, e, n)
    ensures PastSince(option, inputs, e, n) == 0 ||
            exists t: nat :: t < n && HourSince(option, inputs, e, t, n)
                             && inputs[t].time % 86_400_000 / 10_800_000 == PastSince(option, inputs, e, n)
  {
    if n > 0 {
      PastIsLargest(option, inputs, e, n - 1);
      forall t: nat | t < n - 1 && !RestartAt(option, inputs, e, n - 1)
        ensures HourSince(option, inputs, e, t, n - 1) <==> HourSince(option, inputs, e, t, n)
      {
      }
      assert TimeFor(option, inputs, e, n - 1) ==> HourSince(option, inputs, e, n - 1, n);
      if inputs[n - 1].TimeInput? {
        HourSegment(inputs[n - 1].time);
      }
    }
  }

  // When exactly the flag lags

  /** While nothing is written, time only moves on. */
  lemma {:induction false} PastGrows(option: Settings, inputs: seq<CollectInput>, e: Section, m: nat, n: nat)
    requires m <= n <= |inputs| && forall i :: m <= i < n ==> !IsNew(option, inputs, i)
    ensures PastSince(option, inputs, e, m) <= PastSince(option, inputs, e, n)
  {
    if m < n {
      PastGrows(option, inputs, e, m, n - 1);
    }
  }

  /** A section of the first table of a group that was still missing, and has become past since. */
  ghost predicate IsOvertaken(log: seq<Section>, past: int, now: int, s: int, i: int) {
    InTable(s, i) && s < now && !Settled(InTableAt(Current(log, |log|), 0), past, s, i)
  }

  /** Since input `m`, time has overtaken a section that was missing from a group written from. */
  ghost predicate Overtaken(option: Settings, inputs: seq<CollectInput>, m: nat, n: nat)
    requires m <= n <= |inputs|
  {
    var written := WrittenAt(option, inputs, m);
    exists e, s, i :: e in written && IsOvertaken(GroupLog(written, e), PastSince(option, inputs, e, m),
                                                  PastSince(option, inputs, e, n), s, i)
  }

  lemma SettledLater(table: set<Section>, past: int, now: int)
    requires past <= now
    ensures forall s, i :: Settled(table, past, s, i) ==> Settled(table, now, s, i)
    ensures Complete(table, past) ==> Complete(table, now)
  {
  }

  /** Between two times a group becomes done only by overtaking. */
  lemma DoneLater(log: seq<Section>, past: int, now: int)
    requires past <= now && log != []
    ensures GroupDone(log, past) ==> GroupDone(log, now)
    ensures GroupDone(log, now) ==> (GroupDone(log, past) <==> !exists s, i :: IsOvertaken(log, past, now, s, i))
  {
    var table := InTableAt(Current(log, |log|), 0);
    SettledLater(table, past, now);
    if GroupDone(log, past) {
      assert Complete(table, past);
    }
    if GroupDone(log, now) {
      assert Complete(table, now);
      if !Complete(table, past) {
        var s, i :| InTable(s, i) && !Settled(table, past, s, i);
        assert Settled(table, now, s, i);
        assert IsOvertaken(log, past, now, s, i);
      }
    }
  }

  /**
   The flag is sound: when it is set, everything is complete. When everything is complete it is not set
   if and only if nothing was ever written, or time has overtaken something that was missing when the
   last section was written.
   */
  lemma FlagLagsIff(option: Settings, inputs: seq<CollectInput>, n: nat)
    requires n <= |inputs|
    ensures FlagAt(option, inputs, n) ==> DoneAt(option, inputs, n)
    ensures
      var m := LastNew(option, inputs, n);
      DoneAt(option, inputs, n) ==> (!FlagAt(option, inputs, n) <==> m == 0 || Overtaken(option, inputs, m, n))
  {
    var m := LastNew(option, inputs, n);
    NothingWritten(option, inputs, m, n);
    var written := WrittenAt(option, inputs, n);
    forall e | e in written
      ensures
        var past, now := PastSince(option, inputs, e, m), PastSince(option, inputs, e, n);
        && (DoneFor(written, e, past) ==> DoneFor(written, e, now))
        && (DoneFor(written, e, now) ==>
              (DoneFor(written, e, past) <==> !exists s, i :: IsOvertaken(GroupLog(written, e), past, now, s, i)))
    {
      AllInLog(written, e);
      PastGrows(option, inputs, e, m, n);
      DoneLater(GroupLog(written, e), PastSince(option, inputs, e, m), PastSince(option, inputs, e, n));
    }
  }

  // Coherent runs

  /** The sections among the first `n` inputs that the collector is asked for. */
  ghost function WantedSections(option: Settings, inputs: seq<CollectInput>, n: nat): seq<Section>
    requires n <= |inputs|
  {
    if n == 0 then []
    else if WantedAt(option, inputs, n - 1) then WantedSections(option, inputs, n - 1) + [inputs[n - 1].section]
    else WantedSections(option, inputs, n - 1)
  }

  ghost predicate CoherentRun(option: Settings, inputs: seq<CollectInput>) {
    Coherent(WantedSections(option, inputs, |inputs|))
  }

  /** `written` holds wanted sections only, and one for each wanted key. */
  ghost predicate Draws(written: seq<Section>, wanted: seq<Section>) {
    && (forall e :: e in written ==> e in wanted)
    && forall e :: e in wanted ==> HasKey(written, e)
  }

  lemma {:induction false} WantedGrows(option: Settings, inputs: seq<CollectInput>, n: nat, m: nat)
    requires n <= m <= |inputs|
    ensures forall e :: e in WantedSections(option, inputs, n) ==> e in WantedSections(option, inputs, m)
  {
    if n < m {
      WantedGrows(option, inputs, n, m - 1);
    }
  }

  lemma KeysGrow(written: seq<Section>, e: Section)
    ensures HasKey(written + [e], e)
    ensures forall a :: HasKey(written, a) ==> HasKey(written + [e], a)
  {
    assert e in written + [e];
    forall a | HasKey(written, a)
      ensures HasKey(written + [e], a)
    {
      var w :| w in written && KeyOf(w) == KeyOf(a);
      assert w in written + [e];
    }
  }

  /** On a coherent run each wanted key is written exactly once. */
  lemma {:induction false} WrittenDraws(option: Settings, inputs: seq<CollectInput>, n: nat)
    requires n <= |inputs| && CoherentRun(option, inputs)
    ensures UniqueKeys(WrittenAt(option, inputs, n))
    ensures Draws(WrittenAt(option, inputs, n), WantedSections(option, inputs, n))
    ensures Coherent(WrittenAt(option, inputs, n))
  {
    WantedGrows(option, inputs, n, |inputs|);
    if n > 0 {
      WrittenDraws(option, inputs, n - 1);
      if WantedAt(option, inputs, n - 1) {
        var written, e := WrittenAt(option, inputs, n - 1), inputs[n - 1].section;
        assert e in WantedSections(option, inputs, n);
        WantedGrows(option, inputs, n - 1, n);
        CollectedIff(written, e);
        if IsNew(option, inputs, n - 1) {
          UniqueStep(written, e);
          KeysGrow(written, e);
        }
      }
    }
  }

  /** On a coherent run everything that was written is held, so the keys held are as many. */
  lemma CoherentCount(written: seq<Section>)
    requires Coherent(written) && UniqueKeys(written)
    ensures |KeysOf(HeldOf(written))| == |written|
  {
    forall w | w in written
      ensures InCurrent(written, w)
    {
      var log := GroupLog(written, w);
      AllInLog(written, w);
      assert SameGroup(w, w) && w in log;
      forall a, b | a in log && b in log
        ensures a.LastTableIndex() == b.LastTableIndex()
      {
        assert Agree(a, b);
      }
      AllCurrent(log, |log|);
      assert log[..|log|] == log;
    }
    assert HeldOf(written) == set w | w in written;
    CountWritten(written);
  }

  // Completion in terms of the header fields

  /** All sections of the group of `e` have the last table ID `lastId`, and their tables are described. */
  ghost predicate IsGroupDescribed(written: seq<Section>, e: Section, lastId: int, lastNumbers: seq<int>,
                                   lasts: seq<seq<int>>) {
    && 0 <= lastId < 256 && |lastNumbers| == |lasts| == 8
    && (forall i :: 0 <= i < 8 ==> IsDescribed(lastNumbers[i], lasts[i], {}))
    && forall w :: w in written && SameGroup(w, e) ==>
        && w.Valid() && w.lastTableId == lastId && w.tid / 8 == lastId / 8
        && w.lastNumber == lastNumbers[w.tid % 8] && w.segmentLastNumber == lasts[w.tid % 8][w.number / 8]
  }

  ghost predicate HasTable(written: seq<Section>, e: Section, tid: int) {
    exists w :: w in written && SameGroup(w, e) && w.tid == tid
  }

  ghost predicate HasSection(written: seq<Section>, e: Section, tid: int, n: int) {
    exists w :: w in written && SameGroup(w, e) && w.tid == tid && w.number == n
  }

  ghost function TableOf(written: seq<Section>, e: Section, tid: int): set<Section> {
    set w | w in written && SameGroup(w, e) && w.tid == tid
  }

  /** Of table `tid` something was written, and everything that is expected of it. */
  ghost predicate IsTableDone(written: seq<Section>, e: Section, tid: int, past: int, lastNumber: int, last: seq<int>)
    requires |last| == 32
  {
    && HasTable(written, e, tid)
    && forall n :: IsExpected(lastNumber, last, past, n) ==> HasSection(written, e, tid, n)
  }

  /**
   A group is done if and only if every table up to the last one is; of the first table, whose ID is a
   multiple of eight, nothing is expected of the segments that are past.
   */
  lemma {:induction false} DoneByNumbers(written: seq<Section>, e: Section, past: int, lastId: int,
                                         lastNumbers: seq<int>, lasts: seq<seq<int>>)
    requires e in written && 0 <= past < 8 && IsGroupDescribed(written, e, lastId, lastNumbers, lasts)
    ensures DoneFor(written, e, past) <==>
            forall i :: 0 <= i <= lastId % 8 ==>
              IsTableDone(written, e, lastId - lastId % 8 + i, if i == 0 then past else 0, lastNumbers[i], lasts[i])
  {
    var log := GroupLog(written, e);
    DescribedGroup(written, e, lastId, lastNumbers, lasts);
    forall i | 0 <= i <= lastId % 8
      ensures Complete(InTableAt(Current(log, |log|), i), if i == 0 then past else 0) <==>
              IsTableDone(written, e, lastId - lastId % 8 + i, if i == 0 then past else 0, lastNumbers[i], lasts[i])
    {
      TableByNumbers(written, e, past, lastId, lastNumbers, lasts, i);
    }
  }

  /** The log of a described group is all of it. */
  lemma {:induction false} DescribedGroup(written: seq<Section>, e: Section, lastId: int, lastNumbers: seq<int>,
                                          lasts: seq<seq<int>>)
    requires e in written && IsGroupDescribed(written, e, lastId, lastNumbers, lasts)
    ensures
      var log := GroupLog(written, e);
      && log != [] && log[|log| - 1].LastTableIndex() == lastId % 8
      && Current(log, |log|) == set w | w in written && SameGroup(w, e)
  {
    var log := GroupLog(written, e);
    AllInLog(written, e);
    assert SameGroup(e, e) && e in log && log[|log| - 1] in log;
    AllCurrent(log, |log|);
    assert log[..|log|] == log;
  }

  lemma {:induction false} TableByNumbers(written: seq<Section>, e: Section, past: int, lastId: int,
                                          lastNumbers: seq<int>, lasts: seq<seq<int>>, i: int)
    requires e in written && 0 <= past < 8 && IsGroupDescribed(written, e, lastId, lastNumbers, lasts)
    requires 0 <= i <= lastId % 8
    ensures
      var log, tid := GroupLog(written, e), lastId - lastId % 8 + i;
      Complete(InTableAt(Current(log, |log|), i), if i == 0 then past else 0) <==>
      IsTableDone(written, e, tid, if i == 0 then past else 0, lastNumbers[i], lasts[i])
  {
    var log, tid := GroupLog(written, e), lastId - lastId % 8 + i;
    DescribedGroup(written, e, lastId, lastNumbers, lasts);
    forall w | w in written && SameGroup(w, e)
      ensures w.TableIndex() == i <==> w.tid == tid
    {
      assert w.tid / 8 == lastId / 8;
    }
    var table := TableOf(written, e, tid);
    assert InTableAt(Current(log, |log|), i) == table;
    assert IsDescribed(lastNumbers[i], lasts[i], {});
    CompleteByNumbers(table, if i == 0 then past else 0, lastNumbers[i], lasts[i]);
    assert HasTable(written, e, tid) <==> table != {} by {
      if w :| w in written && SameGroup(w, e) && w.tid == tid {
        assert w in table;
      }
    }
    forall n
      ensures HasNumber(table, n) <==> HasSection(written, e, tid, n)
    {
      if w :| w in written && SameGroup(w, e) && w.tid == tid && w.number == n {
        assert w in table;
      }
    }
  }

  // Inputs on which the rules bite

  /** A table whose only section is the first one of its second, and last, segment. */
  const LATE: Section := Section(1, 1, 1, 0x50, 0x50, 8, 8, 8, 0)

  /** A section of the other group of the same service. */
  const OTHER: Section := LATE.(tid := 0x58, lastTableId := 0x58)

  /** The first and the last section of a segment of two. */
  const FIRST: Section := Section(1, 1, 1, 0x50, 0x50, 0, 1, 1, 0)
  const LAST: Section := FIRST.(number := 1)

  lemma LateTable(arrived: set<Section>)
    requires arrived == {LATE}
    ensures !Complete(arrived, 0) && Complete(arrived, 1)
  {
    assert LATE in arrived;
    assert InTable(0, 0) && !Settled(arrived, 0, 0, 0);
    forall s, i | InTable(s, i)
      ensures Settled(arrived, 1, s, i)
    {
      if s == 1 && i == 0 {
        assert Arrived(arrived, 1, 0);
      } else if s >= 1 {
        assert LATE.Excludes(s, i);
      }
    }
  }

  lemma OneSection(e: Section)
    ensures GroupLog([e], e) == [e] && Current([e], 1) == {e}
  {
    assert SameGroup(e, e) && LogOf([e], e, 0) == [] && Current([e], 0) == {};
  }

  /**
   A wanted section that its group holds, in a version that the group has not been given for the table,
   is written again if and only if it is not the last one of its segment, nor past it.
   */
  lemma {:induction false} NewVersionIsNewIff(option: Settings, inputs: seq<CollectInput>, i: nat)
    requires i < |inputs| && ValidInputs(inputs) && WantedAt(option, inputs, i)
    requires
      var e := inputs[i].section;
      var log := GroupLog(WrittenAt(option, inputs, i), e);
      && log != [] && log[|log| - 1].LastTableIndex() == e.LastTableIndex()
      && IsFresh(log, e) && Contains(Current(log, |log|), e)
    ensures IsNew(option, inputs, i) <==> inputs[i].section.Index() < inputs[i].section.LastIndex()
  {
    assert ValidInput(inputs[i]);
    NewVersionIff(GroupLog(WrittenAt(option, inputs, i), inputs[i].section), inputs[i].section);
  }

  /** A new version of the first of two sections is written, one of the second is not. */
  lemma NewVersionOfLastIsIgnored(option: Settings)
    requires Wanted(option, FIRST) && Wanted(option, LAST)
    ensures
      var inputs := [SectionInput(FIRST), SectionInput(FIRST.(version := 1))];
      WrittenAt(option, inputs, 2) == [FIRST, FIRST.(version := 1)]
    ensures
      var inputs := [SectionInput(LAST), SectionInput(LAST.(version := 1))];
      WrittenAt(option, inputs, 2) == [LAST]
  {
    NextVersionIsWritten(option, FIRST);
    NextVersionIsWritten(option, LAST);
  }

  lemma NextVersionIsWritten(option: Settings, e: Section)
    requires Wanted(option, e) && e.Valid() && e.version == 0
    ensures
      var inputs := [SectionInput(e), SectionInput(e.(version := 1))];
      WrittenAt(option, inputs, 2) == [e] + if e.Index() < e.LastIndex() then [e.(version := 1)] else []
  {
    var next := e.(version := 1);
    var inputs := [SectionInput(e), SectionInput(next)];
    assert WrittenAt(option, inputs, 0) == [] && GroupLog([], e) == [];
    assert IsNew(option, inputs, 0);
    assert WrittenAt(option, inputs, 1) == [e];
    OneSection(e);
    SameLog([e], e, next, 1);
    assert e in Current([e], 1) && Contains(Current([e], 1), next);
    NewVersionIff([e], next);
  }

  /** The first section of a segment of three, and the second and last one of another segment. */
  const OPENING: Section := Section(1, 1, 1, 0x50, 0x50, 0, 9, 2, 0)
  const CLOSING: Section := OPENING.(number := 9, segmentLastNumber := 9, version := 1)

  /** Segments share the versions of their indexes: after the other one, the first one is written again. */
  lemma {:induction false} VersionsMix(option: Settings)
    requires Wanted(option, OPENING)
    ensures
      var inputs := [SectionInput(OPENING), SectionInput(CLOSING), SectionInput(OPENING)];
      WrittenAt(option, inputs, 3) == [OPENING, CLOSING, OPENING]
  {
    var inputs := [SectionInput(OPENING), SectionInput(CLOSING), SectionInput(OPENING)];
    var log := [OPENING, CLOSING];
    assert WrittenAt(option, inputs, 0) == [] && GroupLog([], OPENING) == [] && GroupLog([], CLOSING) == [];
    assert IsNew(option, inputs, 0);
    assert WrittenAt(option, inputs, 1) == [OPENING];
    OneSection(OPENING);
    SameLog([OPENING], OPENING, CLOSING, 1);
    assert !Contains(Current([OPENING], 1), CLOSING);
    assert IsNew(option, inputs, 1);
    assert WrittenAt(option, inputs, 2) == log;
    NextLog([OPENING], CLOSING, OPENING);
    assert [OPENING] + [CLOSING] == log && GroupLog(log, OPENING) == log;
    assert LastVersion(log, 0, 1, 2) == 1;
    assert IsNew(option, inputs, 2);
  }

  /**
   Time that passes before the first section of a group does not count for it, even if the service is
   already known: three o'clock has passed, and still everything is expected of the first segment.
   */
  lemma TimeBeforeGroup(option: Settings, time: int)
    requires Wanted(option, LATE) && Wanted(option, OTHER) && HourOf(time) == 3
    ensures SameService(LATE, OTHER) && !SameGroup(LATE, OTHER)
    ensures
      var inputs := [SectionInput(OTHER), TimeInput(time), SectionInput(LATE)];
      PastSince(option, inputs, LATE, 3) == 0 && PastSince(option, inputs, OTHER, 3) == 1
  {
    var inputs := [SectionInput(OTHER), TimeInput(time), SectionInput(LATE)];
    assert WrittenAt(option, inputs, 0) == [] && GroupLog([], OTHER) == [] && GroupLog([], LATE) == [];
    assert IsNew(option, inputs, 0);
    assert WrittenAt(option, inputs, 1) == [OTHER];
    OneSection(OTHER);
    NextLog([], OTHER, LATE);
    assert [] + [OTHER] == [OTHER];
    assert GroupLog([OTHER], LATE) == [];
    assert PastSince(option, inputs, OTHER, 1) == 0 && PastSince(option, inputs, LATE, 1) == 0;
    assert TimeFor(option, inputs, OTHER, 1) && !TimeFor(option, inputs, LATE, 1);
    assert PastSince(option, inputs, OTHER, 2) == 1 && PastSince(option, inputs, LATE, 2) == 0;
  }
}
