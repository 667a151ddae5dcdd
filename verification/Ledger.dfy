/**
 The sections that a collector has written: which service and table each of them belongs to, what its
 groups hold of them, and what it means for headers to be coherent.
 */
module Ledger {
  import opened Sections
  import opened GroupLogs

  /** What identifies a section: network, stream and service, basic or extra, table, and section number. */
  datatype Key = Key(nid: int, tsid: int, sid: int, basic: bool, table: int, number: int)

  function KeyOf(e: Section): Key {
    Key(e.nid, e.tsid, e.sid, e.IsBasic(), e.TableIndex(), e.number)
  }

  predicate SameService(a: Section, b: Section) {
    a.nid == b.nid && a.tsid == b.tsid && a.sid == b.sid
  }

  predicate SameGroup(a: Section, b: Section) {
    SameService(a, b) && a.IsBasic() == b.IsBasic()
  }

  predicate SameTable(a: Section, b: Section) {
    SameGroup(a, b) && a.TableIndex() == b.TableIndex()
  }

  /** The section is filed under a packed triple. */
  predicate InGroup(e: Section, triple: int, basic: bool) {
    e.ServiceTriple() == triple && e.IsBasic() == basic
  }

  /** What is filed under a packed triple is what belongs to the service. */
  lemma FiledTogether(a: Section, b: Section)
    requires a.Valid() && b.Valid()
    ensures InGroup(a, b.ServiceTriple(), b.IsBasic()) <==> SameGroup(a, b)
  {
    if a.ServiceTriple() == b.ServiceTriple() {
      TripleIsInjective(a, b);
    }
  }

  /** What tells sections of schedule tables apart, by their header fields. */
  lemma KeyIff(a: Section, b: Section)
    requires 0x50 <= a.tid <= 0x6F && 0x50 <= b.tid <= 0x6F
    ensures KeyOf(a) == KeyOf(b) <==>
            a.nid == b.nid && a.tsid == b.tsid && a.sid == b.sid && a.tid % 16 == b.tid % 16 && a.number == b.number
  {
  }

  /** Tables 0x50 to 0x57 and 0x60 to 0x67 of a service are its basic ones, the other ones its extra ones. */
  lemma GroupIff(a: Section, b: Section)
    requires 0x50 <= a.tid <= 0x6F && 0x50 <= b.tid <= 0x6F
    ensures SameGroup(a, b) <==>
            && a.nid == b.nid && a.tsid == b.tsid && a.sid == b.sid
            && ((a.tid <= 0x57 || 0x60 <= a.tid <= 0x67) <==> (b.tid <= 0x57 || 0x60 <= b.tid <= 0x67))
  {
  }

  ghost predicate AllValid(sections: seq<Section>) {
    forall e :: e in sections ==> e.Valid()
  }

  /** The first `n` sections that are filed under a packed triple, in order. */
  ghost function Filed(written: seq<Section>, triple: int, basic: bool, n: nat): seq<Section>
    requires n <= |written|
  {
    if n == 0 then []
    else Filed(written, triple, basic, n - 1) + if InGroup(written[n - 1], triple, basic) then [written[n - 1]] else []
  }

  /** The sections of the group of `e` among the first `n`, in order. */
  ghost function LogOf(written: seq<Section>, e: Section, n: nat): (log: seq<Section>)
    requires n <= |written|
    ensures forall a :: a in log ==> a in written && SameGroup(a, e)
  {
    if n == 0 then []
    else LogOf(written, e, n - 1) + if SameGroup(written[n - 1], e) then [written[n - 1]] else []
  }

  ghost function GroupLog(written: seq<Section>, e: Section): seq<Section> {
    LogOf(written, e, |written|)
  }

  lemma {:induction false} FiledIsLog(written: seq<Section>, e: Section, n: nat)
    requires n <= |written| && AllValid(written) && e.Valid()
    ensures Filed(written, e.ServiceTriple(), e.IsBasic(), n) == LogOf(written, e, n)
  {
    if n > 0 {
      FiledIsLog(written, e, n - 1);
      assert written[n - 1] in written;
      FiledTogether(written[n - 1], e);
    }
  }

  lemma {:induction false} FiledPrefix(written: seq<Section>, a: Section, triple: int, basic: bool, n: nat)
    requires n <= |written|
    ensures Filed(written + [a], triple, basic, n) == Filed(written, triple, basic, n)
  {
    if n > 0 {
      FiledPrefix(written, a, triple, basic, n - 1);
    }
  }

  lemma {:induction false} LogPrefix(written: seq<Section>, a: Section, e: Section, n: nat)
    requires n <= |written|
    ensures LogOf(written + [a], e, n) == LogOf(written, e, n)
  {
    if n > 0 {
      LogPrefix(written, a, e, n - 1);
    }
  }

  /** One more section joins the log of its group and no other. */
  lemma NextLog(written: seq<Section>, a: Section, e: Section)
    ensures GroupLog(written + [a], e) == GroupLog(written, e) + if SameGroup(a, e) then [a] else []
  {
    LogPrefix(written, a, e, |written|);
  }

  lemma {:induction false} SameLog(written: seq<Section>, a: Section, b: Section, n: nat)
    requires n <= |written| && SameGroup(a, b)
    ensures LogOf(written, a, n) == LogOf(written, b, n)
  {
    if n > 0 {
      SameLog(written, a, b, n - 1);
    }
  }

  lemma {:induction false} InLog(written: seq<Section>, e: Section, n: nat, i: nat)
    requires i < n <= |written| && SameGroup(written[i], e)
    ensures written[i] in LogOf(written, e, n)
  {
    if i < n - 1 {
      InLog(written, e, n - 1, i);
    }
  }

  lemma AllInLog(written: seq<Section>, e: Section)
    ensures forall a :: a in written && SameGroup(a, e) ==> a in GroupLog(written, e)
  {
    forall a | a in written && SameGroup(a, e)
      ensures a in GroupLog(written, e)
    {
      var i :| 0 <= i < |written| && written[i] == a;
      InLog(written, e, |written|, i);
    }
  }

  // Coherent headers

  /** Two headers can belong to the same, unchanging schedule. */
  predicate Agree(a: Section, b: Section) {
    && (SameGroup(a, b) ==> a.LastTableIndex() == b.LastTableIndex())
    && (SameTable(a, b) ==> a.version == b.version)
    && (SameTable(a, b) && a.Segment() == b.Segment() ==> a.LastIndex() == b.LastIndex())
  }

  ghost predicate Coherent(sections: seq<Section>) {
    forall a, b :: a in sections && b in sections ==> Agree(a, b)
  }

  ghost predicate UniqueKeys(sections: seq<Section>) {
    forall i, j :: 0 <= i < j < |sections| ==> KeyOf(sections[i]) != KeyOf(sections[j])
  }

  ghost predicate HasKey(written: seq<Section>, e: Section) {
    exists w :: w in written && KeyOf(w) == KeyOf(e)
  }

  /** With one last table index nothing is ever forgotten. */
  lemma {:induction false} AllCurrent(log: seq<Section>, n: nat)
    requires n <= |log| && forall a, b :: a in log && b in log ==> a.LastTableIndex() == b.LastTableIndex()
    ensures Current(log, n) == set a | a in log[..n]
  {
    if n > 0 {
      AllCurrent(log, n - 1);
      assert log[n - 1] in log && (n > 1 ==> log[n - 2] in log);
      assert log[..n] == log[..n - 1] + [log[n - 1]];
    }
  }

  /** With one version per table, that version is stored wherever a section of the table reaches. */
  lemma {:induction false} OneVersion(log: seq<Section>, e: Section, i: int, n: nat, j: nat)
    requires j < n <= |log| && log[j].TableIndex() == e.TableIndex() && log[j].Index() <= i <= log[j].LastIndex()
    requires forall a :: a in log && a.TableIndex() == e.TableIndex() ==> a.version == e.version
    ensures LastVersion(log, e.TableIndex(), i, n) == e.version
  {
    assert log[n - 1] in log;
    if j < n - 1 {
      OneVersion(log, e, i, n - 1, j);
    }
  }

  /** On coherent headers a section counts as collected if and only if its key has been written. */
  lemma CollectedIff(written: seq<Section>, e: Section)
    requires Coherent(written + [e])
    ensures Collected(GroupLog(written, e), e) <==> HasKey(written, e)
  {
    var log := GroupLog(written, e);
    AllInLog(written, e);
    forall a | a in written
      ensures Agree(a, e)
    {
      assert a in written + [e] && e in written + [e];
    }
    assert forall a :: a in log ==> a.LastTableIndex() == e.LastTableIndex();
    AllCurrent(log, |log|);
    assert log[..|log|] == log;
    if HasKey(written, e) {
      var w :| w in written && KeyOf(w) == KeyOf(e);
      assert w in log;
      var j :| 0 <= j < |log| && log[j] == w;
      assert log[|log| - 1] in log && Contains(Current(log, |log|), e);
      forall i | e.Index() <= i < e.LastIndex()
        ensures LastVersion(log, e.TableIndex(), i, |log|) == e.version
      {
        OneVersion(log, e, i, |log|, j);
      }
    }
  }

  lemma UniqueStep(written: seq<Section>, e: Section)
    requires UniqueKeys(written) && !HasKey(written, e)
    ensures UniqueKeys(written + [e])
  {
    forall i, j | 0 <= i < j < |written + [e]|
      ensures KeyOf((written + [e])[i]) != KeyOf((written + [e])[j])
    {
      assert written[i] in written;
    }
  }

  // Counting what is held

  ghost function KeysOf(sections: set<Section>): set<Key> {
    set a | a in sections :: KeyOf(a)
  }

  /** What the groups still hold of what was written. */
  ghost function HeldOf(written: seq<Section>): set<Section> {
    set w | w in written && InCurrent(written, w)
  }

  ghost predicate InCurrent(written: seq<Section>, w: Section) {
    var log := GroupLog(written, w);
    w in Current(log, |log|)
  }

  lemma {:induction false} CurrentInLog(log: seq<Section>, n: nat)
    requires n <= |log|
    ensures forall a :: a in Current(log, n) ==> a in log
  {
    if n > 0 {
      CurrentInLog(log, n - 1);
    }
  }

  /** Tables hold different numbers, so a table has as many keys as numbers. */
  lemma {:induction false} KeysAreNumbers(numbers: set<int>, e: Section)
    ensures |set x | x in numbers :: KeyOf(e).(number := x)| == |numbers|
  {
    if numbers != {} {
      Inhabited(numbers);
      var x :| x in numbers;
      KeysAreNumbers(numbers - {x}, e);
      var rest := set y | y in numbers - {x} :: KeyOf(e).(number := y);
      assert (set y | y in numbers :: KeyOf(e).(number := y)) == rest + {KeyOf(e).(number := x)};
      assert KeyOf(e).(number := x) !in rest;
    }
  }

  lemma CountNumbers(table: set<Section>)
    requires forall a, b :: a in table && b in table ==> SameTable(a, b)
    ensures |KeysOf(table)| == |set a | a in table :: a.number|
  {
    if table != {} {
      var e :| e in table;
      var numbers := set a | a in table :: a.number;
      KeysAreNumbers(numbers, e);
      assert KeysOf(table) == set x | x in numbers :: KeyOf(e).(number := x);
    }
  }

  /** Sections with different keys are counted apart. */
  lemma CountApart(a: set<Section>, b: set<Section>)
    requires forall x, y :: x in a && y in b ==> KeyOf(x) != KeyOf(y)
    ensures |KeysOf(a + b)| == |KeysOf(a)| + |KeysOf(b)|
  {
    assert KeysOf(a + b) == KeysOf(a) + KeysOf(b);
    assert KeysOf(a) !! KeysOf(b);
  }

  /** If no key was written twice and all is held, the count is the number of written sections. */
  lemma {:induction false} CountWritten(written: seq<Section>)
    requires UniqueKeys(written)
    ensures |KeysOf(set w | w in written)| == |written|
  {
    if written != [] {
      var n := |written| - 1;
      var init, last := written[..n], written[n];
      forall i, j | 0 <= i < j < n
        ensures KeyOf(init[i]) != KeyOf(init[j])
      {
        assert init[i] == written[i] && init[j] == written[j];
      }
      CountWritten(init);
      assert (set w | w in written) == (set w | w in init) + {last};
      forall x | x in init
        ensures KeyOf(x) != KeyOf(last)
      {
        var i :| 0 <= i < n && written[i] == x;
      }
      CountApart(set w | w in init, {last});
      assert KeysOf({last}) == {KeyOf(last)};
    }
  }

  lemma Inhabited(keys: set<int>)
    ensures keys == {} || exists k :: k in keys
  {
    assert (forall k :: k !in keys) ==> keys == {};
  }
}
