/**
 The service filter: three sets of PIDs, kept up to date by the tables of the stream, decide which
 packets pass; the PAT is replaced by one that lists only the chosen service. Which packets those are is
 then said in terms of the tables alone, with the numbers that the standards assign to PIDs.
 */
module ServiceFiltering {
  import opened Tables
  import opened Sinks

  const PSI_PIDS: set<Pid> :=
    {PID_PAT, PID_CAT, PID_NIT, PID_SDT, PID_EIT, PID_RST, PID_TOT, PID_BIT, PID_CDT}

  /** What the filter sends on: a packet as it came, or a packet of the modified PAT. */
  datatype Forwarded = Original(packet: Packet) | PatPacket(pmts: map<int, Pid>)

  /** A PID that a table may add to a filter. */
  predicate IsSafeDynamicPid(pid: Pid) {
    pid != PID_NULL && pid !in PSI_PIDS
  }

  /** Downstream never sees the null PID, nor a PAT with any other service or without this one. */
  predicate Harmless(sid: int, f: Forwarded) {
    match f
    case Original(packet) => packet.pid != PID_NULL && packet.pid != PID_PAT
    case PatPacket(pmts) => pmts.Keys == {sid} && IsSafeDynamicPid(pmts[sid])
  }

  /**
   What the tables have said so far: the PMT PID, if one is known, the PIDs of the content and of the
   EMMs, and whether the filter is done. This is all that decides the fate of a packet.
   */
  datatype Known = Known(pmtPid: Option<Pid>, content: set<Pid>, emm: set<Pid>, done: bool, error: bool) {
    function AfterTable(sid: int, timeLimit: Option<int>, t: Table): Known {
      match t
      case Pat(_, _, _, _, pmts) =>
        if !Acceptable(t) then this
        else if sid !in pmts then this.(done := true, error := true)
        else if IsSafeDynamicPid(pmts[sid]) then this.(pmtPid := Some(pmts[sid]))
        else this
      case Cat(valid, caPids) =>
        if valid then this.(emm := Safe(set p | p in caPids)) else this
      case Pmt(_, _, valid, service, pcrPid, caPids, streams, _) =>
        if !valid || service != sid then this
        else this.(content := Safe({pcrPid} + (set p | p in caPids) + streams.Keys))
      case Tot(valid, time) =>
        if valid && timeLimit.Some? && time >= timeLimit.value then this.(done := true) else this
      case Eit(_, _, _) => this
    }

    function AfterTables(sid: int, timeLimit: Option<int>, tables: seq<Table>, n: nat): Known
      requires n <= |tables|
    {
      if n == 0 then this
      else AfterTables(sid, timeLimit, tables, n - 1).AfterTable(sid, timeLimit, tables[n - 1])
    }

    predicate Passes(pid: Pid) {
      pid in content || pid in emm || (pmtPid.Some? && (pid in PSI_PIDS || pid == pmtPid.value))
    }

    /** What becomes of a packet. */
    function Sent(sid: int, packet: Packet): seq<Forwarded> {
      if done || !Passes(packet.pid) then []
      else if packet.pid == PID_PAT && pmtPid.Some? then [PatPacket(map[sid := pmtPid.value])]
      else [Original(packet)]
    }
  }

  const NOTHING_KNOWN := Known(None, {}, {}, false, false)

  function Safe(pids: set<Pid>): set<Pid> {
    set p | p in pids && IsSafeDynamicPid(p)
  }

  class ServiceFilter {
    const sid: int
    const timeLimit: Option<int>
    const sink: Sink<Forwarded>
    var demux: set<Pid>
    var psiFilter: set<Pid>
    var contentFilter: set<Pid>
    var emmFilter: set<Pid>
    var pmtPid: Pid
    var pat: map<int, Pid>
    var done: bool
    var error: bool

    constructor (sid: int, timeLimit: Option<int>, sink: Sink<Forwarded>)
      requires sink.received == []
      ensures Valid() && this.sid == sid && this.timeLimit == timeLimit && this.sink == sink
      ensures Knows() == NOTHING_KNOWN && sink.received == []
    {
      this.sid, this.timeLimit, this.sink := sid, timeLimit, sink;
      demux := {PID_PAT, PID_CAT};
      if timeLimit.Some? {
        demux := demux + {PID_TOT};
      }
      psiFilter, contentFilter, emmFilter := {}, {}, {};
      pmtPid, pat, done, error := PID_NULL, map[], false, false;
    }

    /** The demultiplexer watches the fixed tables and the current PMT, and nothing else. */
    ghost predicate DemuxExact()
      reads this
    {
      && (pmtPid != PID_NULL ==> IsSafeDynamicPid(pmtPid))
      && demux == {PID_PAT, PID_CAT} + (if timeLimit.Some? then {PID_TOT} else {})
                  + (if pmtPid != PID_NULL then {pmtPid} else {})
    }

    /** The PSI filter is empty, or the fixed PIDs and the PMT PID; then the modified PAT is loaded. */
    ghost predicate FiltersExact()
      reads this
    {
      && psiFilter == (if pmtPid == PID_NULL then {} else PSI_PIDS + {pmtPid})
      && (pmtPid != PID_NULL ==> pat == map[sid := pmtPid])
      && (forall p :: p in contentFilter ==> IsSafeDynamicPid(p))
      && (forall p :: p in emmFilter ==> IsSafeDynamicPid(p))
    }

    ghost predicate Valid()
      reads this, sink
    {
      && DemuxExact() && FiltersExact()
      && forall i :: 0 <= i < |sink.received| ==> Harmless(sid, sink.received[i])
    }

    ghost function Knows(): Known
      reads this
    {
      Known(if pmtPid == PID_NULL then None else Some(pmtPid), contentFilter, emmFilter, done, error)
    }

    predicate CheckFilterForDrop(pid: Pid)
      reads this
    {
      pid !in contentFilter && pid !in psiFilter && pid !in emmFilter
    }

    method HandlePat(t: Table)
      requires t.Pat? && DemuxExact() && FiltersExact()
      modifies this
      ensures DemuxExact() && FiltersExact()
      ensures Knows() == old(Knows()).AfterTable(sid, timeLimit, t)
    {
      if !Acceptable(t) {
        return;
      }
      if sid !in t.pmts {
        done := true;
        error := true;
        return;
      }
      var newPmtPid := t.pmts[sid];
      if !IsSafeDynamicPid(newPmtPid) {
        return;
      }
      psiFilter := {};
      if pmtPid != PID_NULL {
        demux := demux - {pmtPid};
        pmtPid := PID_NULL;
      }
      pmtPid := newPmtPid;
      demux := demux + {pmtPid};
      pat := map s | s in t.pmts && s == sid :: t.pmts[s];
      assert pat == map[sid := newPmtPid];
      psiFilter := psiFilter + PSI_PIDS;
      psiFilter := psiFilter + {pmtPid};
    }

    method HandleCat(t: Table)
      requires t.Cat?
      modifies this`emmFilter
      ensures Knows() == old(Knows()).AfterTable(sid, timeLimit, t)
    {
      if !t.valid {
        return;
      }
      emmFilter := {};
      for i := 0 to |t.caPids|
        invariant emmFilter == set p | p in t.caPids[..i] && IsSafeDynamicPid(p)
      {
        if IsSafeDynamicPid(t.caPids[i]) {
          emmFilter := emmFilter + {t.caPids[i]};
        }
      }
      assert t.caPids[..|t.caPids|] == t.caPids;
    }

    method HandlePmt(t: Table)
      requires t.Pmt?
      modifies this`contentFilter
      ensures Knows() == old(Knows()).AfterTable(sid, timeLimit, t)
    {
      if !t.valid || t.sid != sid {
        return;
      }
      contentFilter := {};
      if IsSafeDynamicPid(t.pcrPid) {
        contentFilter := contentFilter + {t.pcrPid};
      }
      for i := 0 to |t.caPids|
        invariant contentFilter == set p | (p == t.pcrPid || p in t.caPids[..i]) && IsSafeDynamicPid(p)
      {
        if IsSafeDynamicPid(t.caPids[i]) {
          contentFilter := contentFilter + {t.caPids[i]};
        }
      }
      assert t.caPids[..|t.caPids|] == t.caPids;
      contentFilter := contentFilter + set p | p in t.streams.Keys && IsSafeDynamicPid(p);
    }

    method HandleTot(t: Table)
      requires t.Tot?
      modifies this`done
      ensures Knows() == old(Knows()).AfterTable(sid, timeLimit, t)
    {
      if !t.valid || timeLimit.None? || t.time < timeLimit.value {
        return;
      }
      done := true;
    }

    method HandleTables(tables: seq<Table>)
      requires Valid()
      modifies this
      ensures Valid() && Knows() == old(Knows()).AfterTables(sid, timeLimit, tables, |tables|)
    {
      for i := 0 to |tables|
        invariant Valid() && Knows() == old(Knows()).AfterTables(sid, timeLimit, tables, i)
      {
        match tables[i] {
          case Pat(_, _, _, _, _) => HandlePat(tables[i]);
          case Cat(_, _) => HandleCat(tables[i]);
          case Pmt(_, _, _, _, _, _, _, _) => HandlePmt(tables[i]);
          case Tot(_, _) => HandleTot(tables[i]);
          case Eit(_, _, _) =>
        }
      }
    }

    /** The tables are heard first; then what is known decides. */
    method HandlePacket(packet: Packet, tables: seq<Table>) returns (more: bool)
      requires Valid()
      modifies this, sink
      ensures Valid() && (done ==> !more)
      ensures Knows() == old(Knows()).AfterTables(sid, timeLimit, tables, |tables|)
      ensures sink.received == old(sink.received) + Knows().Sent(sid, packet)
      ensures sink.accepting && !done ==> more
    {
      HandleTables(tables);
      if done {
        return false;
      }
      if CheckFilterForDrop(packet.pid) {
        return true;
      }
      if packet.pid == PID_PAT {
        more := sink.HandlePacket(PatPacket(pat));
        return;
      }
      assert packet.pid != PID_NULL;
      more := sink.HandlePacket(Original(packet));
    }
  }

  ghost function KnownAt(sid: int, timeLimit: Option<int>, inputs: seq<Input>, n: nat): Known
    requires n <= |inputs|
  {
    if n == 0 then NOTHING_KNOWN
    else
      var tables := inputs[n - 1].tables;
      KnownAt(sid, timeLimit, inputs, n - 1).AfterTables(sid, timeLimit, tables, |tables|)
  }

  ghost function SentBy(sid: int, timeLimit: Option<int>, inputs: seq<Input>, n: nat): seq<Forwarded>
    requires n <= |inputs|
  {
    if n == 0 then []
    else SentBy(sid, timeLimit, inputs, n - 1) + KnownAt(sid, timeLimit, inputs, n).Sent(sid, inputs[n - 1].packet)
  }

  // What passes, by the tables of the stream alone

  /** PAT, CAT, NIT, SDT, EIT, RST, TOT, BIT and CDT. */
  predicate IsFixed(pid: Pid) {
    pid in [0x0000, 0x0001, 0x0010, 0x0011, 0x0012, 0x0013, 0x0014, 0x0024, 0x0029]
  }

  /** A PID that a table can assign. */
  predicate IsAssigned(pid: Pid) {
    pid != 0x1FFF && !IsFixed(pid)
  }

  /** A PAT that gives the service a PMT PID that can be used. */
  predicate IsPatOf(sid: int, t: Table) {
    t.Pat? && t.source == 0x0000 && t.valid && t.tsid != 0 && sid in t.pmts && IsAssigned(t.pmts[sid])
  }

  ghost predicate LastPat(sid: int, tables: seq<Table>, j: int) {
    0 <= j < |tables| && IsPatOf(sid, tables[j]) && forall i :: j < i < |tables| ==> !IsPatOf(sid, tables[i])
  }

  predicate IsCat(t: Table) {
    t.Cat? && t.valid
  }

  ghost predicate LastCat(tables: seq<Table>, j: int) {
    0 <= j < |tables| && IsCat(tables[j]) && forall i :: j < i < |tables| ==> !IsCat(tables[i])
  }

  /** The PID carries the PCR, an ECM or a stream, as the last PMT of the service says. */
  ghost predicate IsContent(sid: int, tables: seq<Table>, pid: Pid) {
    && IsAssigned(pid)
    && exists j :: LastPmt(sid, tables, j)
                   && (pid == tables[j].pcrPid || pid in tables[j].caPids || pid in tables[j].streams)
  }

  /** The PID carries an EMM, as the last CAT says. */
  ghost predicate IsEmm(tables: seq<Table>, pid: Pid) {
    IsAssigned(pid) && exists j :: LastCat(tables, j) && pid in tables[j].caPids
  }

  /** The last PAT that can be used puts the PMT of the service on the PID. */
  ghost predicate IsPmtPid(sid: int, tables: seq<Table>, pid: Pid) {
    exists j :: LastPat(sid, tables, j) && tables[j].pmts[sid] == pid
  }

  /** A PAT without the service, or a time at or past the limit. */
  predicate Finishes(sid: int, timeLimit: Option<int>, t: Table) {
    || (t.Pat? && t.source == 0x0000 && t.valid && t.tsid != 0 && sid !in t.pmts)
    || (t.Tot? && t.valid && timeLimit.Some? && t.time >= timeLimit.value)
  }

  ghost predicate IsFinished(sid: int, timeLimit: Option<int>, tables: seq<Table>) {
    exists j :: 0 <= j < |tables| && Finishes(sid, timeLimit, tables[j])
  }

  /** What becomes of a packet after these tables. */
  ghost predicate IsOutput(sid: int, timeLimit: Option<int>, tables: seq<Table>, packet: Packet, sent: seq<Forwarded>) {
    if IsFinished(sid, timeLimit, tables) then sent == []
    else if IsContent(sid, tables, packet.pid) || IsEmm(tables, packet.pid) then sent == [Original(packet)]
    else if packet.pid == 0x0000 then
      if exists pid :: IsPmtPid(sid, tables, pid) then
        exists pid :: IsPmtPid(sid, tables, pid) && sent == [PatPacket(map[sid := pid])]
      else sent == []
    else if IsPmtPid(sid, tables, packet.pid) || (IsFixed(packet.pid) && exists pid :: IsPmtPid(sid, tables, pid)) then
      sent == [Original(packet)]
    else sent == []
  }

  lemma LastPatNext(sid: int, tables: seq<Table>, t: Table)
    ensures forall j :: LastPat(sid, tables + [t], j) <==>
                        if IsPatOf(sid, t) then j == |tables| else LastPat(sid, tables, j)
  {
    var next := tables + [t];
    forall j
      ensures LastPat(sid, next, j) <==> if IsPatOf(sid, t) then j == |tables| else LastPat(sid, tables, j)
    {
      if LastPat(sid, next, j) && j < |tables| {
        assert !IsPatOf(sid, next[|tables|]);
        assert forall i :: j < i < |tables| ==> next[i] == tables[i];
      }
    }
  }

  lemma LastCatNext(tables: seq<Table>, t: Table)
    ensures forall j :: LastCat(tables + [t], j) <==> if IsCat(t) then j == |tables| else LastCat(tables, j)
  {
    var next := tables + [t];
    forall j
      ensures LastCat(next, j) <==> if IsCat(t) then j == |tables| else LastCat(tables, j)
    {
      if LastCat(next, j) && j < |tables| {
        assert !IsCat(next[|tables|]);
        assert forall i :: j < i < |tables| ==> next[i] == tables[i];
      }
    }
  }

  /** What is known is what the tables have said. */
  ghost predicate Agrees(sid: int, timeLimit: Option<int>, tables: seq<Table>, k: Known) {
    && (forall p: Pid :: p in k.content <==> IsContent(sid, tables, p))
    && (forall p: Pid :: p in k.emm <==> IsEmm(tables, p))
    && (forall p: Pid :: k.pmtPid == Some(p) <==> IsPmtPid(sid, tables, p))
    && (k.done <==> IsFinished(sid, timeLimit, tables))
  }

  lemma ContentNext(sid: int, tables: seq<Table>, t: Table, pid: Pid)
    ensures IsContent(sid, tables + [t], pid) <==>
            if IsPmtOf(sid, t) then IsAssigned(pid) && (pid == t.pcrPid || pid in t.caPids || pid in t.streams)
            else IsContent(sid, tables, pid)
  {
    LastPmtNext(sid, tables, t);
    if IsPmtOf(sid, t) {
      assert LastPmt(sid, tables + [t], |tables|);
    } else {
      assert forall j :: LastPmt(sid, tables, j) ==> (tables + [t])[j] == tables[j];
    }
  }

  lemma EmmNext(tables: seq<Table>, t: Table, pid: Pid)
    ensures IsEmm(tables + [t], pid) <==>
            if IsCat(t) then IsAssigned(pid) && pid in t.caPids else IsEmm(tables, pid)
  {
    LastCatNext(tables, t);
    if IsCat(t) {
      assert LastCat(tables + [t], |tables|);
    } else {
      assert forall j :: LastCat(tables, j) ==> (tables + [t])[j] == tables[j];
    }
  }

  lemma PmtPidNext(sid: int, tables: seq<Table>, t: Table, pid: Pid)
    ensures IsPmtPid(sid, tables + [t], pid) <==>
            if IsPatOf(sid, t) then pid == t.pmts[sid] else IsPmtPid(sid, tables, pid)
  {
    LastPatNext(sid, tables, t);
    if IsPatOf(sid, t) {
      assert LastPat(sid, tables + [t], |tables|);
    } else {
      assert forall j :: LastPat(sid, tables, j) ==> (tables + [t])[j] == tables[j];
    }
  }

  lemma FinishedNext(sid: int, timeLimit: Option<int>, tables: seq<Table>, t: Table)
    ensures IsFinished(sid, timeLimit, tables + [t]) <==>
            IsFinished(sid, timeLimit, tables) || Finishes(sid, timeLimit, t)
  {
    var next := tables + [t];
    assert next[|tables|] == t && forall j :: 0 <= j < |tables| ==> next[j] == tables[j];
  }

  lemma AgreesNext(sid: int, timeLimit: Option<int>, tables: seq<Table>, t: Table, k: Known)
    requires Agrees(sid, timeLimit, tables, k)
    ensures Agrees(sid, timeLimit, tables + [t], k.AfterTable(sid, timeLimit, t))
  {
    forall p: Pid
      ensures p in k.AfterTable(sid, timeLimit, t).content <==> IsContent(sid, tables + [t], p)
      ensures p in k.AfterTable(sid, timeLimit, t).emm <==> IsEmm(tables + [t], p)
      ensures k.AfterTable(sid, timeLimit, t).pmtPid == Some(p) <==> IsPmtPid(sid, tables + [t], p)
    {
      ContentNext(sid, tables, t, p);
      EmmNext(tables, t, p);
      PmtPidNext(sid, tables, t, p);
    }
    FinishedNext(sid, timeLimit, tables, t);
  }

  lemma {:induction false} AgreesAfter(sid: int, timeLimit: Option<int>, before: seq<Table>, tables: seq<Table>,
                                       k: Known, n: nat)
    requires n <= |tables| && Agrees(sid, timeLimit, before, k)
    ensures Agrees(sid, timeLimit, before + tables[..n], k.AfterTables(sid, timeLimit, tables, n))
  {
    if n == 0 {
      assert before + tables[..0] == before;
    } else {
      AgreesAfter(sid, timeLimit, before, tables, k, n - 1);
      assert before + tables[..n] == before + tables[..n - 1] + [tables[n - 1]];
      AgreesNext(sid, timeLimit, before + tables[..n - 1], tables[n - 1],
                 k.AfterTables(sid, timeLimit, tables, n - 1));
    }
  }

  /** What the filter knows before any packet is what the tables up to it have said. */
  lemma {:induction false} KnownMeans(sid: int, timeLimit: Option<int>, inputs: seq<Input>, n: nat)
    requires n <= |inputs|
    ensures Agrees(sid, timeLimit, AllTables(inputs, n), KnownAt(sid, timeLimit, inputs, n))
  {
    if n > 0 {
      KnownMeans(sid, timeLimit, inputs, n - 1);
      var tables := inputs[n - 1].tables;
      AgreesAfter(sid, timeLimit, AllTables(inputs, n - 1), tables, KnownAt(sid, timeLimit, inputs, n - 1), |tables|);
      assert tables[..|tables|] == tables;
    }
  }

  /** What is sent for packet `n` of a run follows from the tables up to it. */
  lemma {:induction false} OutputMeans(sid: int, timeLimit: Option<int>, inputs: seq<Input>, n: nat)
    requires n < |inputs|
    ensures IsOutput(sid, timeLimit, AllTables(inputs, n + 1), inputs[n].packet, OutputAt(sid, timeLimit, inputs, n))
  {
    KnownMeans(sid, timeLimit, inputs, n + 1);
    var k, pid := KnownAt(sid, timeLimit, inputs, n + 1), inputs[n].packet.pid;
    assert k.pmtPid.Some? ==> IsPmtPid(sid, AllTables(inputs, n + 1), k.pmtPid.value);
    assert pid in PSI_PIDS <==> IsFixed(pid);
  }

  ghost function OutputAt(sid: int, timeLimit: Option<int>, inputs: seq<Input>, n: nat): seq<Forwarded>
    requires n < |inputs|
  {
    KnownAt(sid, timeLimit, inputs, n + 1).Sent(sid, inputs[n].packet)
  }

  ghost function Flatten(outputs: seq<seq<Forwarded>>, n: nat): seq<Forwarded>
    requires n <= |outputs|
  {
    if n == 0 then [] else Flatten(outputs, n - 1) + outputs[n - 1]
  }

  lemma {:induction false} FlattenIsSent(sid: int, timeLimit: Option<int>, inputs: seq<Input>,
                                         outputs: seq<seq<Forwarded>>, n: nat)
    requires n <= |outputs| <= |inputs|
    requires forall i :: 0 <= i < |outputs| ==> outputs[i] == OutputAt(sid, timeLimit, inputs, i)
    ensures Flatten(outputs, n) == SentBy(sid, timeLimit, inputs, n)
  {
    if n > 0 {
      FlattenIsSent(sid, timeLimit, inputs, outputs, n - 1);
    }
  }

  /** The outputs of the inputs of a run follow from the tables. */
  ghost predicate AreOutputs(sid: int, timeLimit: Option<int>, inputs: seq<Input>, outputs: seq<seq<Forwarded>>) {
    && |outputs| <= |inputs|
    && forall n :: 0 <= n < |outputs| ==>
        IsOutput(sid, timeLimit, AllTables(inputs, n + 1), inputs[n].packet, outputs[n])
  }

  /** The outputs, input by input, of the first `used` inputs. */
  lemma {:induction false} OutputsMean(sid: int, timeLimit: Option<int>, inputs: seq<Input>, used: nat,
                                       outputs: seq<seq<Forwarded>>)
    requires used <= |inputs|
    requires outputs == seq(used, i requires 0 <= i < used => OutputAt(sid, timeLimit, inputs, i))
    ensures Flatten(outputs, used) == SentBy(sid, timeLimit, inputs, used)
    ensures AreOutputs(sid, timeLimit, inputs, outputs)
  {
    FlattenIsSent(sid, timeLimit, inputs, outputs, used);
    forall n | 0 <= n < |outputs|
      ensures IsOutput(sid, timeLimit, AllTables(inputs, n + 1), inputs[n].packet, outputs[n])
    {
      OutputMeans(sid, timeLimit, inputs, n);
    }
  }

  /**
   Every run, whatever tables the stream carries: for each packet `outputs` has what the tables up to it
   say, until one of them ends the run or the sink refuses, and nothing harmful reaches the sink.
   */
  method Filter(sid: int, timeLimit: Option<int>, accepting: bool, inputs: seq<Input>)
    returns (received: seq<Forwarded>, used: nat, ghost outputs: seq<seq<Forwarded>>)
    ensures used == |outputs| <= |inputs| && received == Flatten(outputs, used)
    ensures AreOutputs(sid, timeLimit, inputs, outputs)
    ensures forall n :: 0 <= n < used ==> !IsFinished(sid, timeLimit, AllTables(inputs, n))
    ensures accepting && used < |inputs| ==> IsFinished(sid, timeLimit, AllTables(inputs, used))
    ensures forall i :: 0 <= i < |received| ==> Harmless(sid, received[i])
  {
    var sink := new Sink(accepting);
    var filter := new ServiceFilter(sid, timeLimit, sink);
    var more := true;
    used := 0;
    while more && used < |inputs|
      invariant 0 <= used <= |inputs| && fresh(filter) && fresh(sink) && sink.accepting == accepting
      invariant filter.Valid() && filter.sink == sink && filter.sid == sid && filter.timeLimit == timeLimit
      invariant filter.Knows() == KnownAt(sid, timeLimit, inputs, used) && (more || !accepting || filter.done)
      invariant sink.received == SentBy(sid, timeLimit, inputs, used)
      invariant forall n :: 0 <= n < used ==> !KnownAt(sid, timeLimit, inputs, n).done
      invariant more ==> !filter.done
    {
      more := filter.HandlePacket(inputs[used].packet, inputs[used].tables);
      used := used + 1;
    }
    received := sink.received;
    outputs := seq(used, i requires 0 <= i < used => OutputAt(sid, timeLimit, inputs, i));
    OutputsMean(sid, timeLimit, inputs, used, outputs);
    forall n | 0 <= n <= used
      ensures IsFinished(sid, timeLimit, AllTables(inputs, n)) <==> KnownAt(sid, timeLimit, inputs, n).done
    {
      KnownMeans(sid, timeLimit, inputs, n);
    }
  }
}
