/**
 EIT schedule sections and what a set of them says about a table: which sections have arrived and
 which ones do not exist. A table has up to 32 segments of up to 8 sections, and a group has up to
 8 tables (section 5.2.4 of ETSI EN 300 468 and section 4.1.4 of ETSI TS 101 211).
 */
module Sections {
  const NUM_SEGMENTS := 32
  const SEGMENT_SIZE := 8
  const NUM_TABLES := 8
  const NO_VERSION := 0xFF

  datatype Section = Section(
    nid: int, tsid: int, sid: int, tid: int, lastTableId: int,
    number: int, lastNumber: int, segmentLastNumber: int, version: int)
  {
    /** The ranges of the header fields; a version has five bits. */
    predicate Valid() {
      && 0 <= nid < 0x10000 && 0 <= tsid < 0x10000 && 0 <= sid < 0x10000
      && 0 <= tid < 256 && 0 <= lastTableId < 256
      && 0 <= number < 256 && 0 <= lastNumber < 256 && 0 <= segmentLastNumber < 256
      && 0 <= version < 32
    }

    function ServiceTriple(): int {
      nid * 0x1_0000_0000_0000 + tsid * 0x1_0000_0000 + sid * 0x1_0000
    }

    predicate IsBasic() {
      tid % 16 < 8
    }

    function TableIndex(): int {
      tid % 8
    }

    function LastTableIndex(): int {
      lastTableId % 8
    }

    function Segment(): int {
      number / 8
    }

    function Index(): int {
      number % 8
    }

    function LastSegment(): int {
      lastNumber / 8
    }

    function LastIndex(): int {
      segmentLastNumber % 8
    }

    /** The section says that section `i` of segment `s` does not exist. */
    predicate Excludes(s: int, i: int) {
      s > LastSegment() || (s == Segment() && i > LastIndex())
    }
  }

  /** The packed triple identifies the service. */
  lemma TripleIsInjective(a: Section, b: Section)
    requires a.Valid() && b.Valid() && a.ServiceTriple() == b.ServiceTriple()
    ensures a.nid == b.nid && a.tsid == b.tsid && a.sid == b.sid
  {
    var x, y := a.tsid * 0x1_0000_0000 + a.sid * 0x1_0000, b.tsid * 0x1_0000_0000 + b.sid * 0x1_0000;
    assert 0 <= x < 0x1_0000_0000_0000 && 0 <= y < 0x1_0000_0000_0000;
  }

  predicate InTable(s: int, i: int) {
    0 <= s < NUM_SEGMENTS && 0 <= i < SEGMENT_SIZE
  }

  ghost predicate Arrived(arrived: set<Section>, s: int, i: int) {
    exists e :: e in arrived && e.Segment() == s && e.Index() == i
  }

  ghost predicate Excluded(arrived: set<Section>, s: int, i: int) {
    exists e :: e in arrived && e.Excludes(s, i)
  }

  /** Nothing more is expected of section `i` of segment `s`. */
  ghost predicate Settled(arrived: set<Section>, past: int, s: int, i: int) {
    Arrived(arrived, s, i) || s < past || Excluded(arrived, s, i)
  }

  ghost predicate Complete(arrived: set<Section>, past: int) {
    forall s, i :: InTable(s, i) ==> Settled(arrived, past, s, i)
  }

  /** The headers describe one table: last segment `m`, and last index `l[s]` in segment `s`. */
  ghost predicate Describes(m: int, l: seq<int>, arrived: set<Section>) {
    && 0 <= m < NUM_SEGMENTS && |l| == NUM_SEGMENTS
    && (forall s :: 0 <= s < NUM_SEGMENTS ==> 0 <= l[s] < SEGMENT_SIZE)
    && forall e :: e in arrived ==>
        e.Valid() && e.LastSegment() == m && e.LastIndex() == l[e.Segment()]
  }

  /**
   With consistent headers a table is complete exactly when something arrived and every section from
   segment `past` to the last one arrived: neither order nor repetition matters.
   */
  lemma CompleteIff(arrived: set<Section>, past: int, m: int, l: seq<int>)
    requires Describes(m, l, arrived) && 0 <= past < 8
    ensures Complete(arrived, past) <==>
            && arrived != {}
            && forall s, i :: past <= s <= m && 0 <= i <= l[s] ==> Arrived(arrived, s, i)
  {
    if Complete(arrived, past) {
      assert InTable(31, 0) && Settled(arrived, past, 31, 0);
      forall s, i | past <= s <= m && 0 <= i <= l[s]
        ensures Arrived(arrived, s, i)
      {
        assert InTable(s, i) && Settled(arrived, past, s, i);
      }
    }
    if arrived != {} && forall s, i :: past <= s <= m && 0 <= i <= l[s] ==> Arrived(arrived, s, i) {
      var any :| any in arrived;
      forall s, i | InTable(s, i)
        ensures Settled(arrived, past, s, i)
      {
        if s > m {
          assert any.Excludes(s, i);
        } else if past <= s && i > l[s] {
          assert Arrived(arrived, s, 0);
          var e :| e in arrived && e.Segment() == s && e.Index() == 0;
          assert e.Excludes(s, i);
        }
      }
    }
  }

  // The same in terms of the header fields

  /** Section number `n` has arrived. */
  ghost predicate HasNumber(arrived: set<Section>, n: int) {
    exists e :: e in arrived && e.number == n
  }

  /** All sections of the table say the same last number, and those of segment `s` the last number `last[s]` in it. */
  ghost predicate IsDescribed(lastNumber: int, last: seq<int>, arrived: set<Section>) {
    && 0 <= lastNumber < 256 && |last| == 32 && (forall s :: 0 <= s < 32 ==> 8 * s <= last[s] < 8 * s + 8)
    && forall e :: e in arrived ==>
        e.Valid() && e.lastNumber == lastNumber && e.segmentLastNumber == last[e.number / 8]
  }

  /** Section number `n` exists, and does not belong to one of the first `past` segments. */
  predicate IsExpected(lastNumber: int, last: seq<int>, past: int, n: int)
    requires |last| == 32
  {
    0 <= n < 256 && past <= n / 8 <= lastNumber / 8 && n <= last[n / 8]
  }

  /** A table is complete if and only if something arrived and every section that is expected did. */
  lemma CompleteByNumbers(arrived: set<Section>, past: int, lastNumber: int, last: seq<int>)
    requires IsDescribed(lastNumber, last, arrived) && 0 <= past < 8
    ensures Complete(arrived, past) <==>
            arrived != {} && forall n :: IsExpected(lastNumber, last, past, n) ==> HasNumber(arrived, n)
  {
    var m, l := lastNumber / 8, seq(32, s requires 0 <= s < 32 => last[s] - 8 * s);
    forall e | e in arrived
      ensures e.LastSegment() == m && e.LastIndex() == l[e.Segment()]
    {
      assert last[e.number / 8] == 8 * (e.number / 8) + l[e.number / 8];
    }
    CompleteIff(arrived, past, m, l);
    if forall n :: IsExpected(lastNumber, last, past, n) ==> HasNumber(arrived, n) {
      forall s, i | past <= s <= m && 0 <= i <= l[s]
        ensures Arrived(arrived, s, i)
      {
        NumberInTable(arrived, s, i);
        assert IsExpected(lastNumber, last, past, 8 * s + i);
      }
    }
    if forall s, i :: past <= s <= m && 0 <= i <= l[s] ==> Arrived(arrived, s, i) {
      forall n | IsExpected(lastNumber, last, past, n)
        ensures HasNumber(arrived, n)
      {
        NumberInTable(arrived, n / 8, n % 8);
        assert Arrived(arrived, n / 8, n % 8);
      }
    }
  }

  lemma NumberInTable(arrived: set<Section>, s: int, i: int)
    requires 0 <= i < 8
    ensures (8 * s + i) / 8 == s && (8 * s + i) % 8 == i
    ensures Arrived(arrived, s, i) <==> HasNumber(arrived, 8 * s + i)
  {
    if Arrived(arrived, s, i) {
      var e :| e in arrived && e.Segment() == s && e.Index() == i;
      assert e.number == 8 * s + i;
    }
  }
}
