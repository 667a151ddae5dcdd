/**
 Where the start seeker cuts, in terms of the tables of a regular stream alone: at the first PMT whose video
 or audio streams are other ones than those of the PMT before it.
 */
module SeekerTables {
  import opened Tables
  import opened StartSeeking

  /** A PAT that the seeker accepts. */
  predicate IsPat(t: Table) {
    t.Pat? && t.source == 0x0000 && t.valid && t.tsid != 0
  }

  /** The PMT of the service is always on `pid`, and never comes before a PAT. */
  ghost predicate IsRegular(sid: int, pid: Pid, tables: seq<Table>) {
    && pid != 0x0000 && pid != 0x1FFF
    && forall j :: 0 <= j < |tables| ==> IsRegularAt(sid, pid, tables, j)
  }

  ghost predicate IsRegularAt(sid: int, pid: Pid, tables: seq<Table>, j: nat)
    requires j < |tables|
  {
    && (IsPat(tables[j]) ==> sid in tables[j].pmts && tables[j].pmts[sid] == pid)
    && (IsPmtOf(sid, tables[j]) ==> tables[j].source == pid && exists i :: 0 <= i < j && IsPat(tables[i]))
  }

  predicate IsOfKind(t: Table, kind: Kind, p: Pid)
    requires t.Pmt?
  {
    p in t.streams && t.streams[p].kind == kind
  }

  /** `a` has streams of the kind, and `b` has not the same ones. */
  ghost predicate Differs(a: Table, b: Table, kind: Kind)
    requires a.Pmt? && b.Pmt?
  {
    && (exists p: Pid :: IsOfKind(a, kind, p))
    && exists p: Pid :: IsOfKind(a, kind, p) != IsOfKind(b, kind, p)
  }

  /** Table `i` is the last PMT of the service before table `n`. */
  ghost predicate IsLastPmt(sid: int, tables: seq<Table>, i: int, n: int) {
    0 <= i < n <= |tables| && IsPmtOf(sid, tables[i]) && forall k :: i < k < n ==> !IsPmtOf(sid, tables[k])
  }

  ghost predicate IsLastPat(tables: seq<Table>, i: int, n: int) {
    0 <= i < n <= |tables| && IsPat(tables[i]) && forall k :: i < k < n ==> !IsPat(tables[k])
  }

  /** Table `j` is a PMT of the service with other video or other audio streams than the one before it. */
  ghost predicate IsChange(sid: int, tables: seq<Table>, j: int) {
    && 0 <= j < |tables| && IsPmtOf(sid, tables[j])
    && exists i :: IsLastPmt(sid, tables, i, j)
                   && (Differs(tables[i], tables[j], Video) || Differs(tables[i], tables[j], Audio))
  }

  ghost predicate IsFirstChange(sid: int, tables: seq<Table>, j: int) {
    IsChange(sid, tables, j) && forall k :: 0 <= k < j ==> !IsChange(sid, tables, k)
  }

  /** The demultiplexer watches the PAT and, after the first one, the PMT. */
  ghost predicate Watches(pid: Pid, tables: seq<Table>, n: nat, h: Heard)
    requires n <= |tables|
  {
    && (forall i :: IsLastPat(tables, i, n) ==>
          h.pat == tables[i].first && h.pmtPid == pid && h.demux == {0x0000, pid})
    && ((forall i :: !IsLastPat(tables, i, n)) ==> h.pmtPid == 0x1FFF && h.demux == {0x0000})
  }

  /** The streams are those of the last PMT. */
  ghost predicate Knows(sid: int, tables: seq<Table>, n: nat, h: Heard)
    requires n <= |tables|
  {
    && (forall i :: IsLastPmt(sid, tables, i, n) ==>
          && h.pcrPid == tables[i].pcrPid
          && (forall p: Pid :: p in h.video <==> IsOfKind(tables[i], Video, p))
          && (forall p: Pid :: p in h.audio <==> IsOfKind(tables[i], Audio, p)))
    && ((forall i :: !IsLastPmt(sid, tables, i, n)) ==> h.pcrPid == 0x1FFF && h.video == {} && h.audio == {})
  }

  /** What is heard before the first change. */
  ghost predicate IsQuiet(sid: int, pid: Pid, tables: seq<Table>, n: nat, h: Heard)
    requires n <= |tables|
  {
    !h.lost && h.transition == 0 && Watches(pid, tables, n, h) && Knows(sid, tables, n, h)
  }

  lemma {:induction false} PatExists(tables: seq<Table>, n: nat, i: nat)
    requires i < n <= |tables| && IsPat(tables[i])
    ensures exists k :: IsLastPat(tables, k, n)
  {
    if IsPat(tables[n - 1]) {
      assert IsLastPat(tables, n - 1, n);
    } else {
      PatExists(tables, n - 1, i);
      var k :| IsLastPat(tables, k, n - 1);
      assert IsLastPat(tables, k, n);
    }
  }

  lemma PatStep(sid: int, pid: Pid, tables: seq<Table>, n: nat, h: Heard)
    requires IsRegular(sid, pid, tables) && n < |tables| && IsQuiet(sid, pid, tables, n, h) && IsPat(tables[n])
    ensures IsQuiet(sid, pid, tables, n + 1, h.AfterTable(sid, tables[n]))
  {
    var m := n + 1;
    assert IsRegularAt(sid, pid, tables, n) && IsLastPat(tables, n, m);
    assert forall i :: IsLastPat(tables, i, m) ==> i == n;
    assert forall i :: IsLastPmt(sid, tables, i, n) <==> IsLastPmt(sid, tables, i, m);
    var next := h.AfterTable(sid, tables[n]);
    assert next == h.AfterPat(sid, tables[n]);
    if i :| IsLastPat(tables, i, n) {
      assert next.demux == {0x0000, pid};
    } else {
      assert next.demux == {0x0000, pid};
    }
  }

  /** A PMT of a regular stream is heard. */
  lemma PmtIsHeard(sid: int, pid: Pid, tables: seq<Table>, n: nat, h: Heard)
    requires IsRegular(sid, pid, tables) && n < |tables| && IsQuiet(sid, pid, tables, n, h)
    requires IsPmtOf(sid, tables[n])
    ensures h.demux == {0x0000, pid} && h.pmtPid == pid && h.AfterTable(sid, tables[n]) == h.AfterPmt(sid, tables[n])
    ensures h.Changes(tables[n]) <==> IsChange(sid, tables, n)
  {
    assert IsRegularAt(sid, pid, tables, n);
    var i :| 0 <= i < n && IsPat(tables[i]);
    PatExists(tables, n, i);
    var k :| IsLastPat(tables, k, n);
    ChangesIff(sid, tables, n, h);
  }

  lemma ChangeStep(sid: int, pid: Pid, tables: seq<Table>, n: nat, h: Heard)
    requires IsRegular(sid, pid, tables) && n < |tables| && IsQuiet(sid, pid, tables, n, h)
    requires IsChange(sid, tables, n)
    ensures
      var next := h.AfterTable(sid, tables[n]);
      next.transition == tables[n].first && next.demux == {} && !next.lost && next.pat == h.pat
  {
    PmtIsHeard(sid, pid, tables, n, h);
  }

  lemma PmtStep(sid: int, pid: Pid, tables: seq<Table>, n: nat, h: Heard)
    requires IsRegular(sid, pid, tables) && n < |tables| && IsQuiet(sid, pid, tables, n, h)
    requires IsPmtOf(sid, tables[n]) && !IsChange(sid, tables, n)
    ensures IsQuiet(sid, pid, tables, n + 1, h.AfterTable(sid, tables[n]))
  {
    var m, next := n + 1, h.AfterTable(sid, tables[n]);
    PmtIsHeard(sid, pid, tables, n, h);
    assert forall j :: IsLastPat(tables, j, n) <==> IsLastPat(tables, j, m);
    assert Watches(pid, tables, m, next);
    assert IsLastPmt(sid, tables, n, m) && forall j :: IsLastPmt(sid, tables, j, m) ==> j == n;
    assert Knows(sid, tables, m, next);
  }

  /** The test of the seeker is the difference to the PMT before. */
  lemma ChangesIff(sid: int, tables: seq<Table>, n: nat, h: Heard)
    requires n < |tables| && IsPmtOf(sid, tables[n])
    requires forall i :: IsLastPmt(sid, tables, i, n) ==>
               && (forall p: Pid :: p in h.video <==> IsOfKind(tables[i], Video, p))
               && (forall p: Pid :: p in h.audio <==> IsOfKind(tables[i], Audio, p))
    requires (forall i :: !IsLastPmt(sid, tables, i, n)) ==> h.video == {} && h.audio == {}
    ensures h.Changes(tables[n]) <==> IsChange(sid, tables, n)
  {
    var t := tables[n];
    if i :| IsLastPmt(sid, tables, i, n) {
      assert forall k :: IsLastPmt(sid, tables, k, n) ==> k == i;
      KindDiffers(tables[i], t, Video, h.video);
      KindDiffers(tables[i], t, Audio, h.audio);
    }
  }

  lemma KindDiffers(a: Table, b: Table, kind: Kind, pids: set<Pid>)
    requires a.Pmt? && b.Pmt? && forall p: Pid :: p in pids <==> IsOfKind(a, kind, p)
    ensures pids != {} && pids != StreamPids(b, kind) <==> Differs(a, b, kind)
  {
    if pids != {} && pids != StreamPids(b, kind) {
      var p :| p in pids;
      assert IsOfKind(a, kind, p);
      if q :| q in pids && q !in StreamPids(b, kind) {
        assert IsOfKind(a, kind, q) != IsOfKind(b, kind, q);
      } else {
        var q :| q in StreamPids(b, kind) && q !in pids;
        assert IsOfKind(a, kind, q) != IsOfKind(b, kind, q);
      }
    }
    if Differs(a, b, kind) {
      var p: Pid :| IsOfKind(a, kind, p);
      assert p in pids;
      var q: Pid :| IsOfKind(a, kind, q) != IsOfKind(b, kind, q);
      assert q in pids <==> q !in StreamPids(b, kind);
    }
  }

  lemma OtherStep(sid: int, pid: Pid, tables: seq<Table>, n: nat, h: Heard)
    requires n < |tables| && IsQuiet(sid, pid, tables, n, h)
    requires !IsPat(tables[n]) && !IsPmtOf(sid, tables[n])
    ensures IsQuiet(sid, pid, tables, n + 1, h.AfterTable(sid, tables[n]))
  {
    var m := n + 1;
    assert forall i :: IsLastPat(tables, i, n) <==> IsLastPat(tables, i, m);
    assert forall i :: IsLastPmt(sid, tables, i, n) <==> IsLastPmt(sid, tables, i, m);
    assert h.AfterTable(sid, tables[n]) == h;
  }

  lemma {:induction false} QuietBefore(sid: int, pid: Pid, tables: seq<Table>, n: nat)
    requires IsRegular(sid, pid, tables) && n <= |tables| && forall k :: 0 <= k < n ==> !IsChange(sid, tables, k)
    ensures IsQuiet(sid, pid, tables, n, NOTHING_HEARD.AfterTables(sid, tables, n))
  {
    if n > 0 {
      QuietBefore(sid, pid, tables, n - 1);
      QuietStep(sid, pid, tables, n - 1, NOTHING_HEARD.AfterTables(sid, tables, n - 1));
    } else {
      assert Watches(pid, tables, 0, NOTHING_HEARD) && Knows(sid, tables, 0, NOTHING_HEARD);
    }
  }

  lemma QuietStep(sid: int, pid: Pid, tables: seq<Table>, n: nat, h: Heard)
    requires IsRegular(sid, pid, tables) && n < |tables| && IsQuiet(sid, pid, tables, n, h) && !IsChange(sid, tables, n)
    ensures IsQuiet(sid, pid, tables, n + 1, h.AfterTable(sid, tables[n]))
  {
    if IsPat(tables[n]) {
      PatStep(sid, pid, tables, n, h);
    } else if IsPmtOf(sid, tables[n]) {
      PmtStep(sid, pid, tables, n, h);
    } else {
      OtherStep(sid, pid, tables, n, h);
    }
  }

  lemma {:induction false} StaysDeafened(sid: int, tables: seq<Table>, n: nat, m: nat)
    requires n <= m <= |tables| && NOTHING_HEARD.AfterTables(sid, tables, n).demux == {}
    ensures NOTHING_HEARD.AfterTables(sid, tables, m) == NOTHING_HEARD.AfterTables(sid, tables, n)
  {
    if n < m {
      StaysDeafened(sid, tables, n, m - 1);
    }
  }

  lemma {:induction false} HearsFirstChange(sid: int, pid: Pid, tables: seq<Table>, j: nat)
    requires IsRegular(sid, pid, tables) && IsFirstChange(sid, tables, j)
    ensures
      var h := NOTHING_HEARD.AfterTables(sid, tables, |tables|);
      && !h.lost && h.transition == tables[j].first
      && forall i :: IsLastPat(tables, i, j) ==> h.pat == tables[i].first
  {
    QuietBefore(sid, pid, tables, j);
    var h := NOTHING_HEARD.AfterTables(sid, tables, j);
    ChangeStep(sid, pid, tables, j, h);
    assert forall i :: IsLastPat(tables, i, j) ==> h.pat == tables[i].first;
    StaysDeafened(sid, tables, j + 1, |tables|);
  }

  /**
   Of a regular stream the seeker hears a transition if and only if there is a change; then it is where the
   first PMT that changes something begins, and the PAT packet is that of the last PAT before it. No table of
   a regular stream aborts the process.
   */
  lemma {:induction false} TransitionIsFirstChange(sid: int, pid: Pid, inputs: seq<Input>, n: nat)
    requires n <= |inputs| && IsRegular(sid, pid, AllTables(inputs, n))
    ensures
      var h, tables := HeardAt(sid, inputs, n), AllTables(inputs, n);
      && !h.lost
      && ((forall j :: !IsChange(sid, tables, j)) ==> h.transition == 0)
      && forall j, i :: IsFirstChange(sid, tables, j) && IsLastPat(tables, i, j) ==>
           h.transition == tables[j].first && h.pat == tables[i].first
  {
    var tables := AllTables(inputs, n);
    HeardIsFlat(sid, inputs, n);
    if k :| IsChange(sid, tables, k) {
      var j := FirstChange(sid, tables, k);
      HearsFirstChange(sid, pid, tables, j);
      assert forall l :: IsFirstChange(sid, tables, l) ==> l == j;
    } else {
      QuietBefore(sid, pid, tables, |tables|);
    }
  }

  lemma {:induction false} FirstChange(sid: int, tables: seq<Table>, k: nat) returns (j: nat)
    requires IsChange(sid, tables, k)
    ensures IsFirstChange(sid, tables, j)
  {
    if i :| 0 <= i < k && IsChange(sid, tables, i) {
      j := FirstChange(sid, tables, i);
    } else {
      j := k;
    }
  }

  /** What the seeker has heard after some inputs is what their tables, in order, make it hear. */
  lemma {:induction false} HeardIsFlat(sid: int, inputs: seq<Input>, n: nat)
    requires n <= |inputs|
    ensures HeardAt(sid, inputs, n) == NOTHING_HEARD.AfterTables(sid, AllTables(inputs, n), |AllTables(inputs, n)|)
  {
    if n > 0 {
      HeardIsFlat(sid, inputs, n - 1);
      AfterMore(sid, AllTables(inputs, n - 1), inputs[n - 1].tables, |inputs[n - 1].tables|);
    }
  }

  lemma {:induction false} AfterFirst(sid: int, a: seq<Table>, b: seq<Table>, n: nat)
    requires n <= |a|
    ensures NOTHING_HEARD.AfterTables(sid, a + b, n) == NOTHING_HEARD.AfterTables(sid, a, n)
  {
    if n > 0 {
      AfterFirst(sid, a, b, n - 1);
    }
  }

  lemma {:induction false} AfterMore(sid: int, a: seq<Table>, b: seq<Table>, n: nat)
    requires n <= |b|
    ensures NOTHING_HEARD.AfterTables(sid, a + b, |a| + n) ==
            NOTHING_HEARD.AfterTables(sid, a, |a|).AfterTables(sid, b, n)
  {
    if n == 0 {
      AfterFirst(sid, a, b, |a|);
    } else {
      AfterMore(sid, a, b, n - 1);
      assert (a + b)[|a| + n - 1] == b[n - 1];
    }
  }

  // A stream with a change

  function PmtWith(first: nat, streams: map<Pid, Stream>): Input {
    Plain(0x200, None, [Pmt(0x200, first, true, 1, 0x100, [], streams, 1)])
  }

  const VIDEO: Stream := Stream(Video, None)
  const AUDIO: Stream := Stream(Audio, None)

  /** A PAT, a PMT with video, the same with audio too, and one with other video. */
  const CHANGING: seq<Input> := [
    Plain(PID_PAT, None, [Pat(PID_PAT, 0, true, 1, map[1 := 0x200])]),
    PmtWith(1, map[0x111 := VIDEO]),
    PmtWith(2, map[0x111 := VIDEO, 0x112 := AUDIO]),
    PmtWith(3, map[0x121 := VIDEO, 0x112 := AUDIO])]

  lemma {:induction false} ChangingTables(n: nat)
    requires n <= 4
    ensures |AllTables(CHANGING, n)| == n
    ensures forall i :: 0 <= i < n ==> AllTables(CHANGING, n)[i] == CHANGING[i].tables[0]
  {
    if n > 0 {
      ChangingTables(n - 1);
    }
  }

  /** Audio that appears is no transition, other video is one: everything from the fourth packet on is sent. */
  lemma {:induction false} CutsAtOtherVideo()
    ensures HeardAt(1, CHANGING, 3).transition == 0
    ensures HeardAt(1, CHANGING, 4).transition == 3 && HeardAt(1, CHANGING, 4).pat == 0
    ensures !HeardAt(1, CHANGING, 4).lost
  {
    ChangingTables(3);
    ChangingTables(4);
    var t3, t4 := AllTables(CHANGING, 3), AllTables(CHANGING, 4);
    assert IsPat(t3[0]) && IsPat(t4[0]);
    assert forall j :: 0 <= j < 3 ==> IsRegularAt(1, 0x200, t3, j);
    assert forall j :: 0 <= j < 4 ==> IsRegularAt(1, 0x200, t4, j);
    assert !IsChange(1, t3, 0) && !IsChange(1, t3, 1);
    assert IsLastPmt(1, t3, 1, 2) && IsLastPmt(1, t4, 1, 2) && IsLastPmt(1, t4, 2, 3) && IsLastPat(t4, 0, 3);
    SameVideo(t3[1], t3[2]);
    assert !IsChange(1, t3, 2);
    TransitionIsFirstChange(1, 0x200, CHANGING, 3);
    assert IsOfKind(t4[2], Video, 0x111) && !IsOfKind(t4[3], Video, 0x111);
    assert Differs(t4[2], t4[3], Video);
    assert IsFirstChange(1, t4, 3);
    TransitionIsFirstChange(1, 0x200, CHANGING, 4);
  }

  lemma SameVideo(a: Table, b: Table)
    requires a == CHANGING[1].tables[0] && b == CHANGING[2].tables[0]
    ensures !Differs(a, b, Video) && !Differs(a, b, Audio)
  {
  }
}
