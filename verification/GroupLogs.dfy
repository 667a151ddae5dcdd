/**
 The sections that a group of tables was updated with, in order: which of them still count, which
 versions they leave, and when a section counts as collected.
 */
module GroupLogs {
  import opened Sections

  /** The arrived sections of table `i` of a group. */
  ghost function InTableAt(arrived: set<Section>, i: int): set<Section> {
    set e | e in arrived && e.TableIndex() == i
  }

  /** A section with the same table and number is there. */
  ghost predicate Contains(arrived: set<Section>, e: Section) {
    exists a :: a in arrived && a.TableIndex() == e.TableIndex() && a.number == e.number
  }

  /**
   What is there of the first `n` sections of a group: those since the last table index was last
   changed.
   */
  ghost function Current(log: seq<Section>, n: nat): set<Section>
    requires n <= |log|
  {
    if n == 0 then {}
    else {log[n - 1]} + if Restarts(log, n - 1) then {} else Current(log, n - 1)
  }

  /** Section `i` starts the group over: it is the first one, or says another last table index. */
  ghost predicate Restarts(log: seq<Section>, i: nat)
    requires i < |log|
  {
    i == 0 || log[i - 1].LastTableIndex() != log[i].LastTableIndex()
  }

  /** The version that was last stored at index `i` of a table. */
  ghost function LastVersion(log: seq<Section>, table: int, i: int, n: nat): int
    requires n <= |log|
  {
    if n == 0 then NO_VERSION
    else
      var e := log[n - 1];
      if e.TableIndex() == table && e.Index() <= i <= e.LastIndex() then e.version
      else LastVersion(log, table, i, n - 1)
  }

  /**
   When a section counts as collected by a group with these sections: the last table index agrees, the
   section is there, and the versions stored from its index up to the last one, exclusive, are its own.
   */
  ghost predicate Collected(log: seq<Section>, e: Section) {
    && log != [] && log[|log| - 1].LastTableIndex() == e.LastTableIndex()
    && Contains(Current(log, |log|), e)
    && forall i :: e.Index() <= i < e.LastIndex() ==> LastVersion(log, e.TableIndex(), i, |log|) == e.version
  }

  lemma {:induction false} CurrentPrefix(log: seq<Section>, e: Section, n: nat)
    requires n <= |log|
    ensures Current(log + [e], n) == Current(log, n)
  {
    if n > 0 {
      CurrentPrefix(log, e, n - 1);
    }
  }

  lemma NextCurrent(log: seq<Section>, e: Section)
    ensures
      var same := log != [] && log[|log| - 1].LastTableIndex() == e.LastTableIndex();
      && Current(log + [e], |log| + 1) == {e} + (if same then Current(log, |log|) else {})
      && (Restarts(log + [e], |log|) <==> !same)
  {
    CurrentPrefix(log, e, |log|);
  }

  lemma {:induction false} VersionPrefix(log: seq<Section>, e: Section, table: int, i: int, n: nat)
    requires n <= |log|
    ensures LastVersion(log + [e], table, i, n) == LastVersion(log, table, i, n)
  {
    if n > 0 {
      VersionPrefix(log, e, table, i, n - 1);
    }
  }

  lemma NextVersion(log: seq<Section>, e: Section, table: int, i: int)
    ensures LastVersion(log + [e], table, i, |log| + 1) ==
            if table == e.TableIndex() && e.Index() <= i <= e.LastIndex() then e.version
            else LastVersion(log, table, i, |log|)
  {
    VersionPrefix(log, e, table, i, |log|);
  }

  /** Section `j` of the log stores its version at index `i` of table `table`. */
  predicate Stores(e: Section, table: int, i: int) {
    e.tid % 8 == table && e.number % 8 <= i <= e.segmentLastNumber % 8
  }

  /** The version at an index is that of the last section that reaches from its own index to it. */
  lemma {:induction false} LastVersionIs(log: seq<Section>, table: int, i: int, n: nat, j: nat)
    requires j < n <= |log| && Stores(log[j], table, i) && forall k :: j < k < n ==> !Stores(log[k], table, i)
    ensures LastVersion(log, table, i, n) == log[j].version
  {
    if j < n - 1 {
      assert !Stores(log[n - 1], table, i);
      LastVersionIs(log, table, i, n - 1, j);
    }
  }

  lemma {:induction false} NoVersionYet(log: seq<Section>, table: int, i: int, n: nat)
    requires n <= |log| && forall k :: 0 <= k < n ==> !Stores(log[k], table, i)
    ensures LastVersion(log, table, i, n) == 0xFF
  {
    if n > 0 {
      assert !Stores(log[n - 1], table, i);
      NoVersionYet(log, table, i, n - 1);
    }
  }

  /** A section is there exactly if the last table index has not changed since it came. */
  lemma {:induction false} CurrentIff(log: seq<Section>, n: nat, a: Section)
    requires n <= |log|
    ensures a in Current(log, n) <==> exists j :: 0 <= j < n && log[j] == a && Unchanged(log, j, n)
  {
    if n > 0 {
      CurrentIff(log, n - 1, a);
      assert Unchanged(log, n - 1, n);
      if a in Current(log, n) && a != log[n - 1] {
        var j :| 0 <= j < n - 1 && log[j] == a && Unchanged(log, j, n - 1);
        assert Unchanged(log, j, n);
      }
      if exists j :: 0 <= j < n - 1 && log[j] == a && Unchanged(log, j, n) {
        var j :| 0 <= j < n - 1 && log[j] == a && Unchanged(log, j, n);
        assert log[n - 2].LastTableIndex() == log[n - 1].LastTableIndex() == log[j].LastTableIndex();
        assert Unchanged(log, j, n - 1);
      }
    }
  }

  /** The sections `j` to `n` say the same last table index. */
  ghost predicate Unchanged(log: seq<Section>, j: int, n: int)
    requires 0 <= j < n <= |log|
  {
    forall m :: j <= m < n ==> log[m].LastTableIndex() == log[j].LastTableIndex()
  }

  /** Section `j` of the log has the number of `e` in its table, and no later one says another last table. */
  ghost predicate Holds(log: seq<Section>, e: Section, j: int) {
    && 0 <= j < |log| && log[j].tid % 8 == e.tid % 8 && log[j].number == e.number
    && forall m :: j <= m < |log| ==> log[m].lastTableId % 8 == e.lastTableId % 8
  }

  /** The last section that stores a version at index `i` of the table of `e` has its version. */
  ghost predicate HasVersion(log: seq<Section>, e: Section, i: int) {
    exists j :: 0 <= j < |log| && Stores(log[j], e.tid % 8, i) && log[j].version == e.version
                && forall k :: j < k < |log| ==> !Stores(log[k], e.tid % 8, i)
  }

  /**
   When a section counts as collected, by the header fields: the same section is held, and at each index from
   its own to that of the last section of its segment, exclusive, its version is the one that is stored.
   */
  lemma {:induction false} CollectedByNumbers(log: seq<Section>, e: Section)
    requires e.Valid()
    ensures Collected(log, e) <==>
            && (exists j :: Holds(log, e, j))
            && forall i :: e.number % 8 <= i < e.segmentLastNumber % 8 ==> HasVersion(log, e, i)
  {
    forall i
      ensures LastVersion(log, e.TableIndex(), i, |log|) == e.version <==> HasVersion(log, e, i)
    {
      VersionByNumbers(log, e, i);
    }
    HeldByNumbers(log, e);
  }

  lemma {:induction false} VersionByNumbers(log: seq<Section>, e: Section, i: int)
    requires e.Valid()
    ensures LastVersion(log, e.TableIndex(), i, |log|) == e.version <==> HasVersion(log, e, i)
  {
    if k :| 0 <= k < |log| && Stores(log[k], e.tid % 8, i) {
      var j := LastStoring(log, e.tid % 8, i, |log|, k);
      LastVersionIs(log, e.tid % 8, i, |log|, j);
    } else {
      NoVersionYet(log, e.tid % 8, i, |log|);
    }
  }

  lemma {:induction false} LastStoring(log: seq<Section>, table: int, i: int, n: nat, k: nat) returns (j: nat)
    requires k < n <= |log| && Stores(log[k], table, i)
    ensures k <= j < n && Stores(log[j], table, i) && forall m :: j < m < n ==> !Stores(log[m], table, i)
  {
    if Stores(log[n - 1], table, i) {
      j := n - 1;
    } else {
      j := LastStoring(log, table, i, n - 1, k);
    }
  }

  lemma {:induction false} HeldByNumbers(log: seq<Section>, e: Section)
    ensures (&& log != [] && log[|log| - 1].LastTableIndex() == e.LastTableIndex()
             && Contains(Current(log, |log|), e))
            <==> exists j :: Holds(log, e, j)
  {
    if log != [] && log[|log| - 1].LastTableIndex() == e.LastTableIndex() && Contains(Current(log, |log|), e) {
      var a :| a in Current(log, |log|) && a.TableIndex() == e.TableIndex() && a.number == e.number;
      CurrentIff(log, |log|, a);
      var j :| 0 <= j < |log| && log[j] == a && Unchanged(log, j, |log|);
      assert Holds(log, e, j);
    }
    if j :| Holds(log, e, j) {
      assert Unchanged(log, j, |log|);
      CurrentIff(log, |log|, log[j]);
      assert log[j] in Current(log, |log|);
    }
  }

  /** No section of the table in the log has this version. */
  ghost predicate IsFresh(log: seq<Section>, e: Section) {
    forall j :: 0 <= j < |log| && log[j].TableIndex() == e.TableIndex() ==> log[j].version != e.version
  }

  lemma {:induction false} FreshVersion(log: seq<Section>, e: Section, i: int, n: nat)
    requires n <= |log| && IsFresh(log, e) && e.Valid()
    ensures LastVersion(log, e.TableIndex(), i, n) != e.version
  {
    if n > 0 {
      FreshVersion(log, e, i, n - 1);
    }
  }

  /**
   A new version of a section that is there counts as collected if and only if the section is the last
   one of its segment, or past it.
   */
  lemma NewVersionIff(log: seq<Section>, e: Section)
    requires e.Valid() && IsFresh(log, e) && Contains(Current(log, |log|), e)
    requires log != [] && log[|log| - 1].LastTableIndex() == e.LastTableIndex()
    ensures Collected(log, e) <==> e.Index() >= e.LastIndex()
  {
    if e.Index() < e.LastIndex() {
      FreshVersion(log, e, e.Index(), |log|);
    }
  }

  /** A section is contained in a group exactly if its number has arrived in its table. */
  lemma InTheTable(arrived: set<Section>, e: Section)
    requires e.Valid() && forall a :: a in arrived ==> a.Valid()
    ensures Contains(arrived, e) <==> Arrived(InTableAt(arrived, e.TableIndex()), e.Segment(), e.Index())
  {
    var table := InTableAt(arrived, e.TableIndex());
    if Contains(arrived, e) {
      var a :| a in arrived && a.TableIndex() == e.TableIndex() && a.number == e.number;
      assert a in table;
    }
    if Arrived(table, e.Segment(), e.Index()) {
      var a :| a in table && a.Segment() == e.Segment() && a.Index() == e.Index();
      assert a.number == e.number;
    }
  }
}
