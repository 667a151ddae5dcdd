/**
 The progress of EIT schedule collection: bitmaps of collected and unused sections per table, with
 cached completion flags on tables, groups of tables, and the whole collection.
 */
module EitProgress {
  import opened Bits
  import opened Sections
  import opened GroupLogs
  import opened Schedules

  class TableProgress {
    var collected: seq<bv8>
    var unused: seq<bv8>
    var versions: seq<int>
    var completed: bool

    /** The sections updated since the last reset, and the segments before the current time. */
    ghost var arrived: set<Section>
    ghost var past: int
    ghost var disused: bool

    ghost predicate Shape()
      reads this
    {
      && |collected| == |unused| == NUM_SEGMENTS && |versions| == 256
      && 0 <= past < 8
      && forall e :: e in arrived ==> e.Valid()
    }

    ghost predicate CollectedBits()
      requires Shape()
      reads this
    {
      forall s, i :: InTable(s, i) ==> (Bit(collected[s], i) <==> Arrived(arrived, s, i))
    }

    ghost predicate UnusedBits()
      requires Shape()
      reads this
    {
      forall s, i :: InTable(s, i) ==> (Bit(unused[s], i) <==> disused || s < past || Excluded(arrived, s, i))
    }

    ghost predicate Valid()
      reads this
    {
      && Shape() && CollectedBits() && UnusedBits()
      && (completed <==> disused || Complete(arrived, past))
    }

    constructor ()
      ensures Valid() && arrived == {} && past == 0 && !disused
      ensures forall i :: 0 <= i < 256 ==> versions[i] == NO_VERSION
    {
      collected := seq(NUM_SEGMENTS, _ => 0);
      unused := seq(NUM_SEGMENTS, _ => 0);
      versions := seq(256, _ => NO_VERSION);
      completed := false;
      arrived, past, disused := {}, 0, false;
      new;
      assert InTable(31, 0) && !Settled(arrived, past, 31, 0);
      forall s, i | InTable(s, i)
        ensures !Bit(collected[s], i) && !Bit(unused[s], i)
      {
        ConstantBits(i);
      }
    }

    /** Forgets what has arrived, though not the versions. */
    method Reset()
      requires Valid()
      modifies this
      ensures Valid() && arrived == {} && past == 0 && !disused && versions == old(versions)
    {
      var i := 0;
      while i < NUM_SEGMENTS
        invariant 0 <= i <= NUM_SEGMENTS
        invariant |collected| == |unused| == NUM_SEGMENTS && versions == old(versions)
        invariant forall s :: 0 <= s < i ==> collected[s] == 0 && unused[s] == 0
      {
        collected := collected[i := 0];
        unused := unused[i := 0];
        i := i + 1;
      }
      completed := false;
      arrived, past, disused := {}, 0, false;
      assert InTable(31, 0) && !Settled(arrived, past, 31, 0);
      forall s, i | InTable(s, i)
        ensures !Bit(collected[s], i) && !Bit(unused[s], i)
      {
        ConstantBits(i);
      }
    }

    method Unuse()
      requires Valid()
      modifies this
      ensures Valid() && arrived == old(arrived) && past == old(past) && disused && versions == old(versions)
    {
      MarkSegments(0, NUM_SEGMENTS);
      completed := true;
      disused := true;
    }

    /** Marks whole segments as unused. */
    method MarkSegments(from: int, to: int)
      requires |unused| == NUM_SEGMENTS && 0 <= from && to <= NUM_SEGMENTS
      modifies this`unused
      ensures |unused| == NUM_SEGMENTS
      ensures forall s, i :: InTable(s, i) ==>
                (Bit(unused[s], i) <==> Bit(old(unused)[s], i) || from <= s < to)
    {
      var k := from;
      while k < to
        invariant from <= k && (if from <= to then k <= to else k == from)
        invariant |unused| == NUM_SEGMENTS
        invariant forall s :: 0 <= s < NUM_SEGMENTS ==>
            unused[s] == if from <= s < k then FULL else old(unused)[s]
      {
        unused := unused[k := FULL];
        k := k + 1;
      }
      forall s, i | InTable(s, i)
        ensures Bit(unused[s], i) <==> Bit(old(unused)[s], i) || from <= s < to
      {
        assert unused[s] == if from <= s < to then FULL else old(unused)[s];
        ConstantBits(i);
      }
    }

    /** Marks the sections of a segment after its last one as unused. */
    method MarkSections(segment: int, last: int)
      requires |unused| == NUM_SEGMENTS && InTable(segment, last)
      modifies this`unused
      ensures |unused| == NUM_SEGMENTS
      ensures forall s, i :: InTable(s, i) ==>
                (Bit(unused[s], i) <==> Bit(old(unused)[s], i) || (s == segment && i > last))
    {
      var k := last + 1;
      while k < SEGMENT_SIZE
        invariant last < k <= SEGMENT_SIZE
        invariant |unused| == NUM_SEGMENTS
        invariant forall s :: 0 <= s < NUM_SEGMENTS && s != segment ==> unused[s] == old(unused)[s]
        invariant forall i: nat :: i < SEGMENT_SIZE ==>
            (Bit(unused[segment], i) <==> Bit(old(unused)[segment], i) || last < i < k)
      {
        ghost var before := unused[segment];
        unused := unused[segment := unused[segment] | Mask(k)];
        forall i: nat | i < SEGMENT_SIZE
          ensures Bit(unused[segment], i) <==> Bit(old(unused)[segment], i) || last < i < k + 1
        {
          SetBit(before, k, i);
        }
        k := k + 1;
      }
    }

    method MarkCollected(segment: int, index: int)
      requires |collected| == NUM_SEGMENTS && InTable(segment, index)
      modifies this`collected
      ensures |collected| == NUM_SEGMENTS
      ensures forall s, i :: InTable(s, i) ==>
                (Bit(collected[s], i) <==> Bit(old(collected)[s], i) || (s == segment && i == index))
    {
      collected := collected[segment := collected[segment] | Mask(index)];
      forall i: nat | i < SEGMENT_SIZE
        ensures Bit(collected[segment], i) <==> Bit(old(collected)[segment], i) || i == index
      {
        SetBit(old(collected)[segment], index, i);
      }
    }

    method StoreVersion(e: Section)
      requires |versions| == 256 && e.Valid()
      modifies this`versions
      ensures |versions| == 256
      ensures forall i :: 0 <= i < 256 ==>
                versions[i] == if e.Index() <= i <= e.LastIndex() then e.version else old(versions)[i]
    {
      var k := e.Index();
      while k <= e.LastIndex()
        invariant e.Index() <= k
        invariant k <= e.LastIndex() + 1 || k == e.Index()
        invariant |versions| == 256
        invariant forall i :: 0 <= i < 256 ==>
            versions[i] == if e.Index() <= i < k then e.version else old(versions)[i]
      {
        versions := versions[k := e.version];
        k := k + 1;
      }
    }

    method CheckCompleted() returns (r: bool)
      requires |collected| == |unused| == NUM_SEGMENTS
      ensures r <==> forall s, i :: InTable(s, i) ==> Bit(collected[s], i) || Bit(unused[s], i)
    {
      var k := 0;
      while k < NUM_SEGMENTS
        invariant 0 <= k <= NUM_SEGMENTS
        invariant forall s, i :: InTable(s, i) && s < k ==> Bit(collected[s], i) || Bit(unused[s], i)
      {
        RowIsFull(collected[k], unused[k]);
        if collected[k] | unused[k] != FULL {
          ghost var i: nat :| i < 8 && !(Bit(collected[k], i) || Bit(unused[k], i));
          assert InTable(k, i);
          return false;
        }
        k := k + 1;
      }
      return true;
    }

    method Update(e: Section)
      requires Valid() && e.Valid()
      modifies this
      ensures Valid() && arrived == old(arrived) + {e} && past == old(past) && disused == old(disused)
      ensures forall i :: 0 <= i < 256 ==>
                versions[i] == if e.Index() <= i <= e.LastIndex() then e.version else old(versions)[i]
    {
      MarkSegments(e.LastSegment() + 1, NUM_SEGMENTS);
      MarkSections(e.Segment(), e.LastIndex());
      MarkCollected(e.Segment(), e.Index());
      StoreVersion(e);
      arrived := arrived + {e};
      Grown(old(arrived), e);
      Refresh();
    }

    method UpdateUnused(hour: int)
      requires Valid() && 0 <= hour < 24
      modifies this
      ensures Valid() && arrived == old(arrived) && disused == old(disused) && versions == old(versions)
      ensures past == if hour / 3 > old(past) then hour / 3 else old(past)
      ensures old(completed) ==> completed
    {
      var segment := hour / 3;
      MarkSegments(0, segment);
      past := if segment > past then segment else past;
      Refresh();
    }

    /** Recomputes the cached flag. */
    method Refresh()
      requires Shape() && CollectedBits() && UnusedBits()
      modifies this`completed
      ensures completed <==> disused || Complete(arrived, past)
    {
      completed := CheckCompleted();
      forall s, i | InTable(s, i)
        ensures Bit(collected[s], i) || Bit(unused[s], i) <==> disused || Settled(arrived, past, s, i)
      {
      }
      if completed && !disused {
        assert forall s, i :: InTable(s, i) ==> Bit(collected[s], i) || Bit(unused[s], i);
      }
    }

    /** Says whether the section is already there, as far as bitmap and stored versions tell. */
    method CheckCollected(e: Section) returns (r: bool)
      requires Valid() && e.Valid()
      ensures r <==> Arrived(arrived, e.Segment(), e.Index())
                     && forall i :: e.Index() <= i < e.LastIndex() ==> versions[i] == e.version
    {
      var k := e.Index();
      while k < e.LastIndex()
        invariant e.Index() <= k <= SEGMENT_SIZE
        invariant forall i :: e.Index() <= i < k ==> versions[i] == e.version
      {
        if versions[k] == NO_VERSION {
          return false;
        }
        if versions[k] != e.version {
          return false;
        }
        k := k + 1;
      }
      assert InTable(e.Segment(), e.Index());
      return collected[e.Segment()] & Mask(e.Index()) != 0;
    }

    method CountSections() returns (n: nat)
      requires Valid()
      ensures n == |Numbers(arrived)|
    {
      n := 0;
      ghost var seen: set<int> := {};
      var k := 0;
      while k < NUM_SEGMENTS
        invariant 0 <= k <= NUM_SEGMENTS && n == |seen|
        invariant Below(seen, arrived, 8 * k)
      {
        var j := 0;
        while j < SEGMENT_SIZE
          invariant 0 <= j <= SEGMENT_SIZE && n == |seen|
          invariant Below(seen, arrived, 8 * k + j)
        {
          NumberOf(k, j);
          BelowStep(seen, arrived, 8 * k + j);
          if collected[k] & Mask(j) != 0 {
            n := n + 1;
            seen := seen + {8 * k + j};
          }
          j := j + 1;
        }
        k := k + 1;
      }
      BelowAll(seen, arrived);
    }

    lemma NumberOf(s: int, i: int)
      requires Valid() && InTable(s, i)
      ensures 8 * s + i in Numbers(arrived) <==> Bit(collected[s], i)
    {
      if Arrived(arrived, s, i) {
        var e :| e in arrived && e.Segment() == s && e.Index() == i;
        assert e.number == 8 * s + i;
      }
    }
  }

  /** The numbers of the sections that have arrived. */
  ghost function Numbers(arrived: set<Section>): set<int> {
    set e | e in arrived :: e.number
  }

  /** `seen` is the part of the arrived numbers below `n`. */
  ghost predicate Below(seen: set<int>, arrived: set<Section>, n: int) {
    && seen <= Numbers(arrived)
    && (forall x :: x in seen ==> x < n)
    && forall x :: x in Numbers(arrived) && x < n ==> x in seen
  }

  lemma BelowStep(seen: set<int>, arrived: set<Section>, n: int)
    requires Below(seen, arrived, n)
    ensures n !in seen
    ensures Below(if n in Numbers(arrived) then seen + {n} else seen, arrived, n + 1)
  {
  }

  lemma BelowAll(seen: set<int>, arrived: set<Section>)
    requires Below(seen, arrived, 256) && forall e :: e in arrived ==> e.Valid()
    ensures seen == Numbers(arrived)
  {
    forall x | x in Numbers(arrived)
      ensures x in seen
    {
      var e :| e in arrived && e.number == x;
      assert e.Valid();
    }
  }

  lemma Grown(arrived: set<Section>, e: Section)
    ensures forall s, i :: Arrived(arrived + {e}, s, i) <==>
                           Arrived(arrived, s, i) || (e.Segment() == s && e.Index() == i)
    ensures forall s, i :: Excluded(arrived + {e}, s, i) <==> Excluded(arrived, s, i) || e.Excludes(s, i)
  {
    forall s, i
      ensures Arrived(arrived + {e}, s, i) <==> Arrived(arrived, s, i) || (e.Segment() == s && e.Index() == i)
    {
      assert forall a :: a in arrived ==> a in arrived + {e};
      assert e in arrived + {e};
    }
    forall s, i
      ensures Excluded(arrived + {e}, s, i) <==> Excluded(arrived, s, i) || e.Excludes(s, i)
    {
      assert forall a :: a in arrived ==> a in arrived + {e};
      assert e in arrived + {e};
    }
  }

  lemma RowIsFull(a: bv8, b: bv8)
    ensures a | b == FULL <==> forall i: nat :: i < 8 ==> Bit(a, i) || Bit(b, i)
  {
    FullIff(a | b);
    forall i: nat | i < 8
      ensures Bit(a | b, i) <==> Bit(a, i) || Bit(b, i)
    {
      OrBit(a, b, i);
    }
  }

  ghost predicate IsEmpty(t: TableProgress)
    reads t
  {
    && t.Valid() && t.arrived == {} && t.past == 0 && !t.disused
    && forall i :: 0 <= i < 256 ==> t.versions[i] == NO_VERSION
  }

  class TableGroupProgress {
    const tables: seq<TableProgress>
    var last: int
    var completed: bool

    /** Every section that the group was updated with. */
    ghost var log: seq<Section>
    /** The sections updated since the last table index was last set. */
    ghost var arrived: set<Section>
    /** The segments of the first table that lie before the current time. */
    ghost var past: int

    /** Everything the group owns. */
    ghost const repr: set<object>

    ghost predicate Distinct() {
      && |tables| == NUM_TABLES && this in repr
      && (forall i :: 0 <= i < NUM_TABLES ==> tables[i] in repr)
      && forall i, j :: 0 <= i < j < NUM_TABLES ==> tables[i] != tables[j]
    }

    ghost predicate TableValid(i: int)
      requires Distinct() && 0 <= i < NUM_TABLES
      reads this`last, this`arrived, this`past, this`log, tables[i]
    {
      && tables[i].Valid()
      && tables[i].past == (if i == 0 then past else 0)
      && tables[i].arrived == InTableAt(arrived, i)
      && tables[i].disused == (0 <= last < i)
      && Versioned(tables[i].versions, i)
    }

    /** The stored versions are those of the last sections. */
    ghost predicate Versioned(versions: seq<int>, i: int)
      requires |versions| == 256
      reads this`log
    {
      forall j :: 0 <= j < 256 ==> versions[j] == LastVersion(log, i, j, |log|)
    }

    ghost predicate Valid()
      reads repr
    {
      && Distinct()
      && -1 <= last < NUM_TABLES
      && (forall i :: 0 <= i < NUM_TABLES ==> TableValid(i))
      && (completed <==> forall i :: 0 <= i < NUM_TABLES ==> tables[i].completed)
      && (forall e :: e in arrived ==> e.Valid() && e.LastTableIndex() == last)
      && last == (if log == [] then -1 else log[|log| - 1].LastTableIndex())
      && arrived == Current(log, |log|)
    }

    constructor ()
      ensures Valid() && log == [] && past == 0 && fresh(repr)
    {
      var ts: seq<TableProgress> := [];
      ghost var owned: set<object> := {};
      for i := 0 to NUM_TABLES
        invariant |ts| == i && fresh(owned)
        invariant forall j :: 0 <= j < i ==> ts[j] in owned
        invariant forall j, k :: 0 <= j < k < i ==> ts[j] != ts[k]
        invariant forall j :: 0 <= j < i ==> IsEmpty(ts[j])
      {
        var t := new TableProgress();
        ts := ts + [t];
        owned := owned + {t};
      }
      tables := ts;
      repr := {this} + owned;
      last, completed, arrived, past, log := -1, false, {}, 0, [];
      new;
      forall i | 0 <= i < NUM_TABLES
        ensures TableValid(i) && !tables[i].completed
      {
        assert IsEmpty(tables[i]);
        assert InTableAt({}, i) == {};
        assert InTable(31, 0) && !Settled({}, 0, 31, 0);
      }
      assert !tables[0].completed;
    }

    predicate IsCompleted()
      reads this
    {
      last < 0 || completed
    }

    /** A group counts as complete before anything arrives, and then when each of its tables is. */
    lemma CompletedIff()
      requires Valid()
      ensures IsCompleted() <==>
              last < 0 || forall i :: 0 <= i <= last ==> Complete(InTableAt(arrived, i), if i == 0 then past else 0)
    {
      forall i | 0 <= i < NUM_TABLES
        ensures tables[i].completed <==>
                (0 <= last < i) || Complete(InTableAt(arrived, i), if i == 0 then past else 0)
      {
        assert TableValid(i);
      }
    }

    /** The same in terms of the sections that the group was updated with. */
    lemma DoneIff()
      requires Valid()
      ensures IsCompleted() <==> log == [] || GroupDone(log, past)
    {
      CompletedIff();
    }

    ghost predicate IsReset(i: int)
      requires Distinct() && 0 <= i < NUM_TABLES
      reads this`log, tables[i]
    {
      && tables[i].Valid() && tables[i].arrived == {} && tables[i].past == 0 && !tables[i].disused
      && Versioned(tables[i].versions, i)
    }

    method ResetTables()
      requires Distinct() && forall i :: 0 <= i < NUM_TABLES ==> TableValid(i)
      modifies tables
      ensures forall i :: 0 <= i < NUM_TABLES ==> IsReset(i)
    {
      for i := 0 to NUM_TABLES
        invariant forall j :: 0 <= j < i ==> IsReset(j)
        invariant forall j :: i <= j < NUM_TABLES ==> TableValid(j)
      {
        assert TableValid(i);
        tables[i].Reset();
      }
    }

    /** Forgets everything and marks the tables after `lastIndex` as unused. */
    method Restart(lastIndex: int)
      requires Distinct() && forall i :: 0 <= i < NUM_TABLES ==> TableValid(i)
      requires 0 <= lastIndex < NUM_TABLES
      modifies this`last, this`arrived, this`past, tables
      ensures last == lastIndex && arrived == {} && past == 0
      ensures forall i :: 0 <= i < NUM_TABLES ==> TableValid(i)
    {
      ResetTables();
      DisuseTables(lastIndex);
      last, arrived, past := lastIndex, {}, 0;
      forall i | 0 <= i < NUM_TABLES
        ensures TableValid(i)
      {
        assert if i <= lastIndex then IsReset(i) else IsDisused(i);
        assert InTableAt({}, i) == {};
      }
    }

    ghost predicate IsDisused(i: int)
      requires Distinct() && 0 <= i < NUM_TABLES
      reads this`log, tables[i]
    {
      && tables[i].Valid() && tables[i].arrived == {} && tables[i].past == 0 && tables[i].disused
      && Versioned(tables[i].versions, i)
    }

    method DisuseTables(lastIndex: int)
      requires Distinct() && forall i :: 0 <= i < NUM_TABLES ==> IsReset(i)
      requires 0 <= lastIndex < NUM_TABLES
      modifies tables
      ensures forall i :: 0 <= i <= lastIndex ==> IsReset(i)
      ensures forall i :: lastIndex < i < NUM_TABLES ==> IsDisused(i)
    {
      for i := lastIndex + 1 to NUM_TABLES
        invariant forall j :: 0 <= j <= lastIndex || i <= j < NUM_TABLES ==> IsReset(j)
        invariant forall j :: lastIndex < j < i ==> IsDisused(j)
      {
        assert IsReset(i);
        tables[i].Unuse();
      }
    }

    method CheckCompleted() returns (r: bool)
      requires |tables| == NUM_TABLES
      ensures r <==> forall i :: 0 <= i < NUM_TABLES ==> tables[i].completed
    {
      for i := 0 to NUM_TABLES
        invariant forall j :: 0 <= j < i ==> tables[j].completed
      {
        if !tables[i].completed {
          return false;
        }
      }
      return true;
    }

    /** A changed last table index starts the group over; otherwise the section joins its table. */
    method Update(e: Section)
      requires Valid() && e.Valid()
      modifies repr
      ensures Valid() && log == old(log) + [e]
      ensures past == if Restarts(log, |log| - 1) then 0 else old(past)
    {
      NextCurrent(log, e);
      MakeConsistent(e);
      Join(e);
      last := e.LastTableIndex();
      Refresh();
    }

    /** Recomputes the flag. */
    method Refresh()
      requires Distinct() && -1 <= last < NUM_TABLES && forall i :: 0 <= i < NUM_TABLES ==> TableValid(i)
      requires forall e :: e in arrived ==> e.Valid() && e.LastTableIndex() == last
      requires last == if log == [] then -1 else log[|log| - 1].LastTableIndex()
      requires arrived == Current(log, |log|)
      modifies this`completed
      ensures Valid()
    {
      completed := CheckCompleted();
    }

    /** Starts over unless the section says the same last table index as those before. */
    method MakeConsistent(e: Section)
      requires Valid() && e.Valid()
      modifies this`last, this`arrived, this`past, this`completed, tables
      ensures last == e.LastTableIndex() && forall i :: 0 <= i < NUM_TABLES ==> TableValid(i)
      ensures
        var same := log != [] && log[|log| - 1].LastTableIndex() == e.LastTableIndex();
        arrived == (if same then old(arrived) else {}) && past == if same then old(past) else 0
    {
      if last < 0 || last != e.LastTableIndex() {
        Restart(e.LastTableIndex());
        completed := false;
      }
    }

    method Join(e: Section)
      requires Distinct() && e.Valid() && last == e.LastTableIndex()
      requires forall i :: 0 <= i < NUM_TABLES ==> TableValid(i)
      modifies this`arrived, this`log, tables
      ensures arrived == old(arrived) + {e} && log == old(log) + [e]
      ensures forall i :: 0 <= i < NUM_TABLES ==> TableValid(i)
    {
      var k := e.TableIndex();
      assert TableValid(k);
      tables[k].Update(e);
      arrived := arrived + {e};
      log := log + [e];
      forall i | 0 <= i < NUM_TABLES
        ensures TableValid(i)
      {
        assert old(TableValid(i));
        assert InTableAt(arrived, i) == InTableAt(old(arrived), i) + (if i == k then {e} else {});
        forall j | 0 <= j < 256
          ensures tables[i].versions[j] == LastVersion(log, i, j, |log|)
        {
          NextVersion(old(log), e, i, j);
        }
      }
    }

    /** Time passing can complete the group but never undoes completion. */
    method UpdateUnused(hour: int)
      requires Valid() && 0 <= hour < 24
      modifies repr
      ensures Valid() && log == old(log)
      ensures past == if hour / 3 > old(past) then hour / 3 else old(past)
      ensures old(completed) ==> completed
    {
      UpdateFirst(hour);
      completed := CheckCompleted();
    }

    method UpdateFirst(hour: int)
      requires Distinct() && forall i :: 0 <= i < NUM_TABLES ==> TableValid(i)
      requires 0 <= hour < 24
      modifies this`past, tables
      ensures past == if hour / 3 > old(past) then hour / 3 else old(past)
      ensures forall i :: 0 <= i < NUM_TABLES ==> TableValid(i)
      ensures forall i :: 0 <= i < NUM_TABLES && old(tables[i].completed) ==> tables[i].completed
    {
      assert TableValid(0);
      tables[0].UpdateUnused(hour);
      past := if hour / 3 > past then hour / 3 else past;
      forall i | 0 < i < NUM_TABLES
        ensures TableValid(i)
      {
        assert old(TableValid(i));
      }
    }

    method CheckCollected(e: Section) returns (r: bool)
      requires Valid() && e.Valid()
      ensures r <==> Collected(log, e)
    {
      if last < 0 {
        return false;
      }
      if last != e.LastTableIndex() {
        return false;
      }
      assert TableValid(e.TableIndex());
      r := tables[e.TableIndex()].CheckCollected(e);
      InTheTable(arrived, e);
    }

    ghost function Total(n: int): int
      requires Distinct() && 0 <= n <= NUM_TABLES
      reads tables
      decreases n
    {
      if n == 0 then 0 else Total(n - 1) + |Numbers(tables[n - 1].arrived)|
    }

    method CountSections() returns (n: int)
      requires Valid()
      ensures n == Total(NUM_TABLES)
    {
      n := 0;
      for i := 0 to NUM_TABLES
        invariant n == Total(i)
      {
        assert TableValid(i);
        var c := tables[i].CountSections();
        n := n + c;
      }
    }
  }
}
