/**
 Collecting EIT schedules of many services: a section is written unless the progress says that it
 has been collected, and the collection ends when every service is complete or nothing has been
 written for too long.
 */
module EitCollection {
  import opened Sections
  import opened GroupLogs
  import opened EitProgress
  import opened Ledger
  import opened Schedules

  class ServiceProgress {
    const basic: TableGroupProgress
    const extra: TableGroupProgress

    /** Everything the service owns. */
    ghost const repr: set<object>

    ghost predicate Valid()
      reads repr
    {
      && basic.repr <= repr && extra.repr <= repr && basic.repr !! extra.repr
      && basic.Valid() && extra.Valid()
    }

    constructor ()
      ensures Valid() && basic.log == extra.log == [] && fresh(repr)
    {
      var b := new TableGroupProgress();
      var x := new TableGroupProgress();
      basic, extra := b, x;
      repr := {this} + b.repr + x.repr;
    }

    function Group(isBasic: bool): TableGroupProgress {
      if isBasic then basic else extra
    }

    predicate IsCompleted()
      reads basic, extra
    {
      basic.IsCompleted() && extra.IsCompleted()
    }

    method Update(e: Section)
      requires Valid() && e.Valid()
      modifies Group(e.IsBasic()).repr
      ensures Valid() && Group(e.IsBasic()).log == old(Group(e.IsBasic()).log) + [e]
      ensures Group(e.IsBasic()).past ==
              if StartsOver(old(Group(e.IsBasic()).log), e) then 0 else old(Group(e.IsBasic()).past)
    {
      if e.IsBasic() {
        basic.Update(e);
      } else {
        extra.Update(e);
      }
    }

    /** Time passing never undoes completion. */
    method UpdateUnused(hour: int)
      requires Valid() && 0 <= hour < 24
      modifies repr
      ensures Valid() && basic.log == old(basic.log) && extra.log == old(extra.log)
      ensures basic.past == Later(old(basic.past), hour) && extra.past == Later(old(extra.past), hour)
      ensures old(IsCompleted()) ==> IsCompleted()
    {
      basic.UpdateUnused(hour);
      extra.UpdateUnused(hour);
    }

    method CheckCollected(e: Section) returns (r: bool)
      requires Valid() && e.Valid()
      ensures r <==> Collected(Group(e.IsBasic()).log, e)
    {
      if e.IsBasic() {
        r := basic.CheckCollected(e);
      } else {
        r := extra.CheckCollected(e);
      }
    }

    method CountSections() returns (n: int)
      requires Valid()
      ensures n == basic.Total(NUM_TABLES) + extra.Total(NUM_TABLES)
    {
      var b := basic.CountSections();
      var x := extra.CountSections();
      n := b + x;
    }
  }

  /** The sections that each group was updated with, by packed triple and kind. */
  type Logs = map<(int, bool), seq<Section>>

  ghost function LogAt(logs: Logs, k: int, b: bool): seq<Section> {
    if (k, b) in logs then logs[(k, b)] else []
  }

  /** A section joins its group. */
  ghost function AfterSection(logs: Logs, e: Section): Logs {
    var k, b := e.ServiceTriple(), e.IsBasic();
    logs[(k, b) := LogAt(logs, k, b) + [e]]
  }

  /** Starting a group over also forgets which segments were past. */
  ghost function RestartedPasts(logs: Logs, pasts: map<(int, bool), int>, e: Section): map<(int, bool), int> {
    var k, b := e.ServiceTriple(), e.IsBasic();
    if StartsOver(LogAt(logs, k, b), e) then pasts[(k, b) := 0] else pasts
  }

  lemma OtherLogs(logs: Logs, pasts: map<(int, bool), int>, e: Section, j: int)
    requires j != e.ServiceTriple()
    ensures forall b :: LogAt(AfterSection(logs, e), j, b) == LogAt(logs, j, b)
    ensures forall b :: (j, b) in RestartedPasts(logs, pasts, e) <==> (j, b) in pasts
    ensures forall b :: (j, b) in pasts ==> RestartedPasts(logs, pasts, e)[(j, b)] == pasts[(j, b)]
  {
  }

  /** Time passes for the groups of service `k`. */
  ghost function LaterPasts(pasts: map<(int, bool), int>, k: int, hour: int): (later: map<(int, bool), int>)
    ensures later.Keys == pasts.Keys
  {
    map g | g in pasts :: if g.0 == k then Later(pasts[g], hour) else pasts[g]
  }

  /** Time has passed for the groups of the services in `done`. */
  ghost function PassedPasts(pasts: map<(int, bool), int>, done: set<int>, hour: int): map<(int, bool), int> {
    map g | g in pasts :: if g.0 in done then Later(pasts[g], hour) else pasts[g]
  }

  lemma PassNext(pasts: map<(int, bool), int>, done: set<int>, k: int, hour: int)
    requires k !in done
    ensures LaterPasts(PassedPasts(pasts, done, hour), k, hour) == PassedPasts(pasts, done + {k}, hour)
  {
  }

  lemma OtherPasts(pasts: map<(int, bool), int>, k: int, hour: int, j: int)
    requires j != k
    ensures forall b :: (j, b) in LaterPasts(pasts, k, hour) <==> (j, b) in pasts
    ensures forall b :: (j, b) in pasts ==> LaterPasts(pasts, k, hour)[(j, b)] == pasts[(j, b)]
  {
  }

  lemma AllPass(pasts: map<(int, bool), int>, done: set<int>, hour: int)
    requires forall g :: g in pasts ==> g.0 in done
    ensures
      var passed := PassedPasts(pasts, done, hour);
      passed.Keys == pasts.Keys && forall g :: g in passed ==> passed[g] == Later(pasts[g], hour)
  {
  }

  ghost function PastOf(pasts: map<(int, bool), int>, e: Section): int {
    if (e.ServiceTriple(), e.IsBasic()) in pasts then pasts[(e.ServiceTriple(), e.IsBasic())] else 0
  }

  class CollectProgress {
    var services: map<int, ServiceProgress>
    var completed: bool

    /** Everything the services own; no two of them share anything. */
    ghost var footprint: set<object>
    ghost var logs: Logs
    /** The segments before the current time, in the first table of each group that has a log. */
    ghost var pasts: map<(int, bool), int>

    ghost predicate Separate()
      reads this`services, this`footprint
    {
      && this !in footprint
      && (forall k :: k in services ==> services[k].repr <= footprint)
      && forall j, k :: j in services && k in services && j != k ==> services[j].repr !! services[k].repr
    }

    ghost predicate ServiceValid(k: int)
      requires k in services
      reads this`services, this`logs, this`pasts, services[k].repr
    {
      && services[k].Valid()
      && services[k].basic.log == LogAt(logs, k, true)
      && services[k].extra.log == LogAt(logs, k, false)
      && ((k, true) in pasts ==> services[k].basic.past == pasts[(k, true)])
      && ((k, false) in pasts ==> services[k].extra.past == pasts[(k, false)])
    }

    ghost predicate ServicesValid()
      reads this`services, this`footprint, this`logs, this`pasts, footprint
    {
      && Separate()
      && (forall k :: k in services ==> ServiceValid(k))
      && (forall p :: p in logs ==> p.0 in services)
      && pasts.Keys == logs.Keys
    }

    /** The flag is sound: when it is set, every service is complete. */
    ghost predicate Valid()
      reads this, footprint
    {
      ServicesValid() && (completed ==> AllCompleted())
    }

    ghost predicate AllCompleted()
      requires ServicesValid()
      reads this`services, this`footprint, this`logs, this`pasts, footprint
    {
      forall k :: k in services ==> services[k].IsCompleted()
    }

    constructor ()
      ensures Valid() && services == map[] && !completed && footprint == {} && logs == map[] && pasts == map[]
    {
      services, completed, footprint, logs, pasts := map[], false, {}, map[], map[];
    }

    method CheckCompleted() returns (r: bool)
      requires ServicesValid()
      ensures r <==> AllCompleted()
    {
      var todo := services.Keys;
      while todo != {}
        invariant todo <= services.Keys
        invariant forall k :: k in services && k !in todo ==> services[k].IsCompleted()
        decreases todo
      {
        Inhabited(todo);
        var k :| k in todo;
        if !services[k].IsCompleted() {
          return false;
        }
        todo := todo - {k};
      }
      return true;
    }

    method Update(e: Section)
      requires Valid() && e.Valid()
      modifies this, footprint
      ensures Valid() && fresh(footprint - old(footprint))
      ensures completed == AllCompleted()
      ensures services.Keys == old(services.Keys) + {e.ServiceTriple()}
      ensures logs == AfterSection(old(logs), e) && pasts == RestartedPasts(old(logs), old(pasts), e)
    {
      Store(e);
      Refresh();
    }

    /** Recomputes the flag. */
    method Refresh()
      requires ServicesValid()
      modifies this`completed
      ensures Valid() && completed == AllCompleted()
    {
      completed := CheckCompleted();
    }

    method Store(e: Section)
      requires ServicesValid() && e.Valid()
      modifies this`services, this`footprint, this`logs, this`pasts, footprint
      ensures ServicesValid() && fresh(footprint - old(footprint))
      ensures services.Keys == old(services.Keys) + {e.ServiceTriple()}
      ensures logs == AfterSection(old(logs), e) && pasts == RestartedPasts(old(logs), old(pasts), e)
    {
      var k := e.ServiceTriple();
      if k !in services {
        Insert(k);
      }
      UpdateService(k, e);
    }

    /** A map lookup that creates the missing entry. */
    method Insert(k: int)
      requires ServicesValid() && k !in services
      modifies this`services, this`footprint
      ensures ServicesValid() && services.Keys == old(services.Keys) + {k}
      ensures fresh(services[k].repr) && footprint == old(footprint) + services[k].repr
    {
      var s := new ServiceProgress();
      services := services[k := s];
      footprint := footprint + s.repr;
      forall j | j in services
        ensures ServiceValid(j)
      {
        assert j in old(services) ==> old(ServiceValid(j));
      }
    }

    method UpdateService(k: int, e: Section)
      requires ServicesValid() && e.Valid() && k in services && k == e.ServiceTriple()
      modifies this`logs, this`pasts, services[k].repr
      ensures ServicesValid()
      ensures logs == AfterSection(old(logs), e) && pasts == RestartedPasts(old(logs), old(pasts), e)
    {
      assert ServiceValid(k);
      services[k].Update(e);
      pasts := RestartedPasts(logs, pasts, e);
      logs := AfterSection(logs, e);
      assert ServiceValid(k);
      forall j | j in services && j != k
        ensures ServiceValid(j)
      {
        OtherLogs(old(logs), old(pasts), e, j);
        assert old(ServiceValid(j)) && services[j].repr !! services[k].repr;
      }
    }

    /** Time passing leaves the flag as it is, although it may complete services. */
    method UpdateUnused(hour: int)
      requires Valid() && 0 <= hour < 24
      modifies this`pasts, footprint
      ensures Valid() && services == old(services) && logs == old(logs) && completed == old(completed)
      ensures pasts == PassedPasts(old(pasts), services.Keys, hour)
    {
      var todo := services.Keys;
      ghost var done: set<int> := {};
      while todo != {}
        // An equivalence keeps the predicate whole, which makes it cheap to maintain.
        invariant todo <= services.Keys && (Valid() <==> true)
        invariant done !! todo && done + todo == services.Keys
        invariant pasts == PassedPasts(old(pasts), done, hour)
        decreases todo
      {
        Inhabited(todo);
        var k :| k in todo;
        PassNext(old(pasts), done, k, hour);
        PassTime(k, hour);
        todo, done := todo - {k}, done + {k};
      }
    }

    method PassTime(k: int, hour: int)
      requires Valid() && k in services && 0 <= hour < 24
      modifies this`pasts, services[k].repr
      ensures Valid()
      ensures pasts == LaterPasts(old(pasts), k, hour)
    {
      assert ServiceValid(k);
      services[k].UpdateUnused(hour);
      pasts := LaterPasts(pasts, k, hour);
      assert ServiceValid(k);
      forall j | j in services && j != k
        ensures ServiceValid(j) && services[j].IsCompleted() == old(services[j].IsCompleted())
      {
        OtherPasts(old(pasts), k, hour, j);
        assert old(ServiceValid(j)) && services[j].repr !! services[k].repr;
      }
    }

    /** All services are complete exactly when every group that something was written from is. */
    lemma AllCompletedIff(written: seq<Section>)
      requires ServicesValid() && Records(logs, written)
      ensures AllCompleted() <==> forall e :: e in written ==> DoneFor(written, e, PastOf(pasts, e))
    {
      if AllCompleted() {
        forall e | e in written
          ensures DoneFor(written, e, PastOf(pasts, e))
        {
          FiledGroup(written, e);
        }
      }
      if forall e :: e in written ==> DoneFor(written, e, PastOf(pasts, e)) {
        forall k | k in services
          ensures services[k].IsCompleted()
        {
          GroupCompleted(written, k, true);
          GroupCompleted(written, k, false);
        }
      }
    }

    /** The group that a written section is filed under. */
    lemma FiledGroup(written: seq<Section>, e: Section)
      requires ServicesValid() && Records(logs, written) && e in written
      ensures
        var k, b := e.ServiceTriple(), e.IsBasic();
        && k in services && (k, b) in logs
        && (services[k].Group(b).IsCompleted() <==> DoneFor(written, e, PastOf(pasts, e)))
    {
      var k, b := e.ServiceTriple(), e.IsBasic();
      RecordedLog(logs, written, e);
      assert ServiceValid(k);
      services[k].Group(b).DoneIff();
    }

    lemma GroupCompleted(written: seq<Section>, k: int, b: bool)
      requires ServicesValid() && Records(logs, written) && k in services
      requires forall e :: e in written ==> DoneFor(written, e, PastOf(pasts, e))
      ensures services[k].Group(b).IsCompleted()
    {
      assert ServiceValid(k);
      var log := services[k].Group(b).log;
      if log != [] {
        assert IsFiled(logs, written, k, b);
        FiledMembers(written, k, b, |written|);
        assert log[0] in log;
        FiledGroup(written, log[0]);
      }
    }

    method CheckCollected(e: Section) returns (r: bool)
      requires Valid() && e.Valid()
      ensures r <==> Collected(LogAt(logs, e.ServiceTriple(), e.IsBasic()), e)
    {
      if e.ServiceTriple() !in services {
        return false;
      }
      assert ServiceValid(e.ServiceTriple());
      r := services[e.ServiceTriple()].CheckCollected(e);
    }

    /** The number of different keys that the groups hold. */
    method CountSections(ghost written: seq<Section>) returns (n: int)
      requires Valid() && Records(logs, written)
      ensures n == |KeysOf(HeldOf(written))|
    {
      n := 0;
      var todo := services.Keys;
      HeldByNone(written, todo);
      while todo != {}
        // An equivalence keeps the predicate whole, which makes it cheap to maintain.
        invariant (Valid() <==> true) && (Records(logs, written) <==> true)
        invariant todo <= services.Keys && n == CountBy(written, services.Keys - todo)
        decreases todo
      {
        Inhabited(todo);
        var k :| k in todo;
        var c := CountService(k, written);
        n := n + c;
        HeldApart(logs, written, services.Keys, todo, k);
        todo := todo - {k};
      }
      HeldByAll(logs, written, services.Keys);
    }

    method CountService(k: int, ghost written: seq<Section>) returns (n: int)
      requires Valid() && k in services && Records(logs, written)
      ensures n == CountBy(written, {k})
    {
      assert ServiceValid(k);
      n := services[k].CountSections();
      ghost var s := services[k];
      GroupHolds(s.basic, logs, written, k, true);
      GroupHolds(s.extra, logs, written, k, false);
      GroupTotal(s.basic, k, true, NUM_TABLES);
      GroupTotal(s.extra, k, false, NUM_TABLES);
      HeldInBoth(written, k, s.basic.arrived, s.extra.arrived);
    }
  }

  /** Each group has exactly the written sections that are filed under it, in order. */
  ghost predicate Records(logs: Logs, written: seq<Section>) {
    AllValid(written) && forall k, b :: IsFiled(logs, written, k, b)
  }

  ghost predicate IsFiled(logs: Logs, written: seq<Section>, k: int, b: bool) {
    LogAt(logs, k, b) == Filed(written, k, b, |written|)
  }

  lemma {:induction false} FiledMembers(written: seq<Section>, k: int, b: bool, n: nat)
    requires n <= |written|
    ensures forall a :: a in Filed(written, k, b, n) ==> a in written && InGroup(a, k, b)
  {
    if n > 0 {
      FiledMembers(written, k, b, n - 1);
    }
  }

  /** The log of a section is the one that is filed for it. */
  lemma RecordedLog(logs: Logs, written: seq<Section>, e: Section)
    requires Records(logs, written) && e.Valid()
    ensures LogAt(logs, e.ServiceTriple(), e.IsBasic()) == GroupLog(written, e)
    ensures e in written ==> e in GroupLog(written, e) && (e.ServiceTriple(), e.IsBasic()) in logs
  {
    assert IsFiled(logs, written, e.ServiceTriple(), e.IsBasic());
    FiledIsLog(written, e, |written|);
    AllInLog(written, e);
    assert SameGroup(e, e);
  }

  lemma FileNext(logs: Logs, written: seq<Section>, e: Section, k: int, b: bool)
    requires Records(logs, written)
    ensures IsFiled(AfterSection(logs, e), written + [e], k, b)
  {
    FiledPrefix(written, e, k, b, |written|);
    assert IsFiled(logs, written, k, b);
    assert (written + [e])[|written|] == e;
  }

  lemma RecordsStep(logs: Logs, written: seq<Section>, e: Section)
    requires Records(logs, written) && e.Valid()
    ensures Records(AfterSection(logs, e), written + [e])
  {
    forall k, b
      ensures IsFiled(AfterSection(logs, e), written + [e], k, b)
    {
      FileNext(logs, written, e, k, b);
    }
  }

  // Counting

  /** What the groups of some services hold. */
  ghost function HeldBy(written: seq<Section>, services: set<int>): set<Section> {
    set w | w in written && w.ServiceTriple() in services && InCurrent(written, w)
  }

  ghost function CountBy(written: seq<Section>, services: set<int>): nat {
    |KeysOf(HeldBy(written, services))|
  }

  lemma HeldByNone(written: seq<Section>, all: set<int>)
    ensures CountBy(written, all - all) == 0
  {
    assert HeldBy(written, all - all) == {};
  }

  lemma HeldApart(logs: Logs, written: seq<Section>, all: set<int>, todo: set<int>, k: int)
    requires k in todo && todo <= all && Records(logs, written)
    ensures CountBy(written, all - (todo - {k})) == CountBy(written, all - todo) + CountBy(written, {k})
  {
    var a, b := HeldBy(written, all - todo), HeldBy(written, {k});
    assert HeldBy(written, all - (todo - {k})) == a + b;
    CountApart(a, b);
  }

  lemma HeldByAll(logs: Logs, written: seq<Section>, done: set<int>)
    requires Records(logs, written) && forall p :: p in logs ==> p.0 in done
    ensures CountBy(written, done - {}) == |KeysOf(HeldOf(written))|
  {
    forall w | w in written
      ensures w.ServiceTriple() in done
    {
      RecordedLog(logs, written, w);
    }
    assert HeldBy(written, done - {}) == HeldOf(written);
  }

  /** What a group holds is what is current of the sections filed under it. */
  lemma GroupHolds(g: TableGroupProgress, logs: Logs, written: seq<Section>, k: int, b: bool)
    requires g.Valid() && Records(logs, written) && g.log == LogAt(logs, k, b)
    ensures g.arrived == set w | w in written && InGroup(w, k, b) && InCurrent(written, w)
    ensures forall e :: e in g.log ==> InGroup(e, k, b)
  {
    assert IsFiled(logs, written, k, b);
    FiledMembers(written, k, b, |written|);
    CurrentInLog(g.log, |g.log|);
    forall w | w in written && InGroup(w, k, b)
      ensures InCurrent(written, w) <==> w in g.arrived
    {
      RecordedLog(logs, written, w);
    }
  }

  lemma HeldInBoth(written: seq<Section>, k: int, basic: set<Section>, extra: set<Section>)
    requires basic == set w | w in written && InGroup(w, k, true) && InCurrent(written, w)
    requires extra == set w | w in written && InGroup(w, k, false) && InCurrent(written, w)
    ensures CountBy(written, {k}) == |KeysOf(basic)| + |KeysOf(extra)|
  {
    assert HeldBy(written, {k}) == basic + extra;
    CountApart(basic, extra);
  }

  ghost function InTables(arrived: set<Section>, n: int): set<Section> {
    set e | e in arrived && e.TableIndex() < n
  }

  lemma TableTotal(g: TableGroupProgress, k: int, b: bool, i: int)
    requires g.Valid() && 0 <= i < NUM_TABLES && forall e :: e in g.log ==> InGroup(e, k, b)
    ensures |Numbers(g.tables[i].arrived)| == |KeysOf(InTableAt(g.arrived, i))|
  {
    assert g.TableValid(i);
    var table := InTableAt(g.arrived, i);
    CurrentInLog(g.log, |g.log|);
    forall x, y | x in table && y in table
      ensures SameTable(x, y)
    {
      FiledTogether(x, y);
    }
    CountNumbers(table);
  }

  /** The count of a group is the number of different keys in its tables. */
  lemma {:induction false} GroupTotal(g: TableGroupProgress, k: int, b: bool, n: int)
    requires g.Valid() && 0 <= n <= NUM_TABLES && forall e :: e in g.log ==> InGroup(e, k, b)
    ensures g.Total(n) == |KeysOf(InTables(g.arrived, n))|
    ensures n == NUM_TABLES ==> InTables(g.arrived, n) == g.arrived
    decreases n
  {
    if n == 0 {
      assert InTables(g.arrived, 0) == {};
    } else {
      GroupTotal(g, k, b, n - 1);
      TableTotal(g, k, b, n - 1);
      var table := InTableAt(g.arrived, n - 1);
      assert InTables(g.arrived, n) == InTables(g.arrived, n - 1) + table;
      CountApart(InTables(g.arrived, n - 1), table);
    }
  }

  class EitCollector {
    const option: Settings
    const progress: CollectProgress
    var written: seq<Section>
    var timestamp: int
    var lastUpdated: int
    var hasTimestamp: bool

    constructor (option: Settings)
      ensures Valid() && this.option == option && written == [] && timestamp == lastUpdated == 0 && !hasTimestamp
      ensures fresh(progress) && progress.footprint == {} && !progress.completed
    {
      this.option := option;
      progress := new CollectProgress();
      written, timestamp, lastUpdated, hasTimestamp := [], 0, 0, false;
    }

    /** The progress has exactly what was written. */
    ghost predicate Valid()
      reads this, progress, progress.footprint
    {
      && progress.Valid() && this !in progress.footprint
      && Records(progress.logs, written)
    }

    /** A wanted section is written, and updates the progress, exactly if it does not count as collected. */
    method HandleSection(e: Section)
      requires Valid() && e.Valid()
      modifies this`written, this`lastUpdated, progress, progress.footprint
      ensures Valid() && fresh(progress.footprint - old(progress.footprint))
      ensures
        if Wanted(option, e) && !Collected(GroupLog(old(written), e), e) then
          && written == old(written) + [e] && lastUpdated == timestamp
          && progress.completed == progress.AllCompleted()
          && progress.pasts == RestartedPasts(old(progress.logs), old(progress.pasts), e)
        else
          && written == old(written) && lastUpdated == old(lastUpdated)
          && progress.completed == old(progress.completed) && progress.pasts == old(progress.pasts)
    {
      if !Wanted(option, e) {
        return;
      }
      RecordedLog(progress.logs, written, e);
      var collected := progress.CheckCollected(e);
      if !collected {
        Write(e);
      }
    }

    /** Writes the section and updates the progress with it. */
    method Write(e: Section)
      requires Valid() && e.Valid()
      modifies this`written, this`lastUpdated, progress, progress.footprint
      ensures Valid() && fresh(progress.footprint - old(progress.footprint))
      ensures written == old(written) + [e] && lastUpdated == timestamp
      ensures progress.pasts == RestartedPasts(old(progress.logs), old(progress.pasts), e)
      ensures progress.completed == progress.AllCompleted()
    {
      RecordsStep(progress.logs, written, e);
      written := written + [e];
      lastUpdated := timestamp;
      progress.Update(e);
    }

    predicate IsCompleted()
      reads this, progress
    {
      !option.streaming && progress.completed
    }

    predicate CheckTimeout()
      reads this
    {
      !option.streaming && timestamp - lastUpdated >= option.timeLimit
    }

    /** Every service moves on to the hour; the first time starts the waiting. */
    method HandleTime(time: int)
      requires Valid()
      modifies this`timestamp, this`lastUpdated, this`hasTimestamp, progress`pasts, progress.footprint
      ensures Valid() && progress.completed == old(progress.completed)
      ensures progress.pasts.Keys == old(progress.pasts.Keys)
      ensures forall g :: g in progress.pasts ==> progress.pasts[g] == Later(old(progress.pasts)[g], HourOf(time))
      ensures timestamp == time && hasTimestamp && lastUpdated == if old(hasTimestamp) then old(lastUpdated) else time
    {
      timestamp := time;
      AllPass(progress.pasts, progress.services.Keys, HourOf(time));
      progress.UpdateUnused(HourOf(timestamp));
      if !hasTimestamp {
        lastUpdated := timestamp;
        hasTimestamp := true;
      }
    }

    /** The collector has handled the first `n` inputs of a run. */
    ghost predicate Handled(inputs: seq<CollectInput>, n: nat)
      requires n <= |inputs|
      reads this, progress, progress.footprint
    {
      && Valid()
      && written == WrittenAt(option, inputs, n)
      && Timed(option, inputs, n, progress.pasts)
      && progress.completed == FlagAt(option, inputs, n)
      && Clocked(inputs, n)
    }

    ghost predicate Clocked(inputs: seq<CollectInput>, n: nat)
      requires n <= |inputs|
      reads this
    {
      && timestamp == TimeAt(inputs, n) && hasTimestamp == (FirstTime(inputs, n) > 0)
      && lastUpdated == TimeAt(inputs, WaitingSince(option, inputs, n))
    }

    /** The next input of a run. */
    method HandleInput(inputs: seq<CollectInput>, n: nat)
      requires ValidInputs(inputs) && n < |inputs| && Handled(inputs, n)
      modifies this, progress, progress.footprint
      ensures Handled(inputs, n + 1) && fresh(progress.footprint - old(progress.footprint))
    {
      assert ValidInput(inputs[n]);
      match inputs[n] {
        case PacketEnd =>
          NotNew(option, inputs, n, progress.pasts);
        case TimeInput(time) =>
          HandleNextTime(inputs, n, time);
        case SectionInput(e) =>
          HandleNextSection(inputs, n, e);
      }
    }

    method HandleNextTime(inputs: seq<CollectInput>, n: nat, time: int)
      requires n < |inputs| && Handled(inputs, n) && inputs[n] == TimeInput(time)
      modifies this`timestamp, this`lastUpdated, this`hasTimestamp, progress`pasts, progress.footprint
      ensures Handled(inputs, n + 1)
    {
      forall e | e in written
        ensures (e.ServiceTriple(), e.IsBasic()) in progress.pasts
      {
        RecordedLog(progress.logs, written, e);
      }
      HandleTime(time);
      TimeNotNew(option, inputs, n);
      TimeStep(option, inputs, n, old(progress.pasts), progress.pasts);
    }

    method HandleNextSection(inputs: seq<CollectInput>, n: nat, e: Section)
      requires n < |inputs| && Handled(inputs, n) && inputs[n] == SectionInput(e) && e.Valid()
      modifies this, progress, progress.footprint
      ensures Handled(inputs, n + 1) && fresh(progress.footprint - old(progress.footprint))
    {
      ghost var isNew := IsNew(option, inputs, n);
      HandleSection(e);
      if isNew {
        Collects(inputs, n, e, old(progress.logs), old(progress.pasts));
      } else {
        NotNew(option, inputs, n, progress.pasts);
      }
    }

    /** The collector has written the next section of a run. */
    lemma {:induction false} Collects(inputs: seq<CollectInput>, n: nat, e: Section, logs: Logs,
                                      pasts: map<(int, bool), int>)
      requires n < |inputs| && inputs[n] == SectionInput(e) && e.Valid() && IsNew(option, inputs, n)
      requires Records(logs, WrittenAt(option, inputs, n)) && pasts.Keys == logs.Keys
      requires Timed(option, inputs, n, pasts)
      requires Valid() && written == WrittenAt(option, inputs, n) + [e]
      requires progress.pasts == RestartedPasts(logs, pasts, e) && progress.completed == progress.AllCompleted()
      requires timestamp == lastUpdated == TimeAt(inputs, n) && hasTimestamp == (FirstTime(inputs, n) > 0)
      ensures Handled(inputs, n + 1)
    {
      SectionStep(option, inputs, n, logs, pasts);
      assert written == WrittenAt(option, inputs, n + 1);
      CompleteByTimes(inputs, n + 1);
    }

    /** All services are complete exactly if the groups written from are, by the times of the run. */
    lemma {:induction false} CompleteByTimes(inputs: seq<CollectInput>, n: nat)
      requires n <= |inputs| && Valid() && written == WrittenAt(option, inputs, n)
      requires Timed(option, inputs, n, progress.pasts)
      ensures progress.AllCompleted() <==> DoneAt(option, inputs, n)
    {
      progress.AllCompletedIff(written);
    }

    /** The next input of a run, and the check after a packet. */
    method HandleAndCheck(inputs: seq<CollectInput>, n: nat) returns (stop: bool)
      requires ValidInputs(inputs) && n < |inputs| && Handled(inputs, n)
      modifies this, progress, progress.footprint
      ensures Handled(inputs, n + 1) && fresh(progress.footprint - old(progress.footprint))
      ensures stop == StopsAt(option, inputs, n + 1)
    {
      HandleInput(inputs, n);
      stop := inputs[n].PacketEnd? && (IsCompleted() || CheckTimeout());
    }

    /** Handles the inputs one after the other until a packet ends that leaves nothing to wait for. */
    method HandleInputs(inputs: seq<CollectInput>) returns (used: nat)
      requires ValidInputs(inputs) && Handled(inputs, 0)
      modifies this, progress, progress.footprint
      ensures used <= |inputs| && Handled(inputs, used)
      ensures forall n :: 0 < n < used ==> !StopsAt(option, inputs, n)
      ensures used == |inputs| || StopsAt(option, inputs, used)
    {
      for i := 0 to |inputs|
        // An equivalence keeps the predicate whole, which makes it cheap to maintain.
        invariant (Handled(inputs, i) <==> true) && fresh(progress.footprint - old(progress.footprint))
        invariant forall n :: 0 < n <= i ==> !StopsAt(option, inputs, n)
      {
        var stop := HandleAndCheck(inputs, i);
        if stop {
          return i + 1;
        }
      }
      return |inputs|;
    }

    /** The count that is reported at the end. */
    method Count() returns (count: int)
      requires Valid()
      ensures count == |KeysOf(HeldOf(written))|
    {
      count := progress.CountSections(written);
    }

    /** Whether everything is complete after `n` inputs; the flag may say otherwise. */
    lemma {:induction false} CompleteAt(inputs: seq<CollectInput>, n: nat)
      requires n <= |inputs| && Handled(inputs, n)
      ensures progress.AllCompleted() <==> DoneAt(option, inputs, n)
    {
      CompleteByTimes(inputs, n);
    }
  }

  /** The times that the groups have seen are those of the run. */
  ghost predicate Timed(option: Settings, inputs: seq<CollectInput>, n: nat, pasts: map<(int, bool), int>)
    requires n <= |inputs|
  {
    forall e :: e in WrittenAt(option, inputs, n) ==> PastOf(pasts, e) == PastSince(option, inputs, e, n)
  }

  /** An input that is neither new nor a time changes nothing. */
  lemma {:induction false} NotNew(option: Settings, inputs: seq<CollectInput>, n: nat, pasts: map<(int, bool), int>)
    requires n < |inputs| && !IsNew(option, inputs, n) && !inputs[n].TimeInput?
    requires Timed(option, inputs, n, pasts)
    ensures WrittenAt(option, inputs, n + 1) == WrittenAt(option, inputs, n)
    ensures Timed(option, inputs, n + 1, pasts)
    ensures FlagAt(option, inputs, n + 1) == FlagAt(option, inputs, n)
    ensures TimeAt(inputs, n + 1) == TimeAt(inputs, n) && FirstTime(inputs, n + 1) == FirstTime(inputs, n)
    ensures WaitingSince(option, inputs, n + 1) == WaitingSince(option, inputs, n)
  {
    assert LastNew(option, inputs, n + 1) == LastNew(option, inputs, n);
  }

  /** A time writes nothing, and the first one starts the waiting. */
  lemma {:induction false} TimeNotNew(option: Settings, inputs: seq<CollectInput>, n: nat)
    requires n < |inputs| && inputs[n].TimeInput?
    ensures WrittenAt(option, inputs, n + 1) == WrittenAt(option, inputs, n)
    ensures FlagAt(option, inputs, n + 1) == FlagAt(option, inputs, n)
    ensures FirstTime(inputs, n + 1) > 0
    ensures WaitingSince(option, inputs, n + 1) ==
            if FirstTime(inputs, n) > 0 then WaitingSince(option, inputs, n) else n + 1
  {
    assert LastNew(option, inputs, n + 1) == LastNew(option, inputs, n);
  }

  /** A time moves every group on that has been seen. */
  lemma {:induction false} TimeStep(option: Settings, inputs: seq<CollectInput>, n: nat,
                                    before: map<(int, bool), int>, after: map<(int, bool), int>)
    requires n < |inputs| && inputs[n].TimeInput? && Timed(option, inputs, n, before)
    requires after.Keys == before.Keys
    requires forall g :: g in after ==> after[g] == Later(before[g], HourOf(inputs[n].time))
    requires forall e :: e in WrittenAt(option, inputs, n) ==> (e.ServiceTriple(), e.IsBasic()) in before
    ensures Timed(option, inputs, n + 1, after)
  {
    TimeNotNew(option, inputs, n);
    var written := WrittenAt(option, inputs, n);
    forall e | e in written
      ensures PastOf(after, e) == PastSince(option, inputs, e, n + 1)
    {
      AllInLog(written, e);
      assert SameGroup(e, e) && e in GroupLog(written, e);
      assert PastOf(before, e) == PastSince(option, inputs, e, n);
    }
  }

  /** A new section joins its group; if it starts it over, no segment is past. */
  lemma {:induction false} SectionStep(option: Settings, inputs: seq<CollectInput>, n: nat, logs: Logs,
                                       pasts: map<(int, bool), int>)
    requires n < |inputs| && IsNew(option, inputs, n) && inputs[n].section.Valid()
    requires Records(logs, WrittenAt(option, inputs, n)) && pasts.Keys == logs.Keys && Timed(option, inputs, n, pasts)
    ensures Timed(option, inputs, n + 1, RestartedPasts(logs, pasts, inputs[n].section))
    ensures LastNew(option, inputs, n + 1) == n + 1 && WaitingSince(option, inputs, n + 1) == n + 1
    ensures TimeAt(inputs, n + 1) == TimeAt(inputs, n) && FirstTime(inputs, n + 1) == FirstTime(inputs, n)
  {
    var written, e := WrittenAt(option, inputs, n), inputs[n].section;
    RecordedLog(logs, written, e);
    forall w | w in written + [e]
      ensures PastOf(RestartedPasts(logs, pasts, e), w) == PastSince(option, inputs, w, n + 1)
    {
      GroupStep(option, inputs, n, logs, pasts, w);
    }
  }

  lemma {:induction false} GroupStep(option: Settings, inputs: seq<CollectInput>, n: nat, logs: Logs,
                                     pasts: map<(int, bool), int>, w: Section)
    requires n < |inputs| && IsNew(option, inputs, n) && inputs[n].section.Valid() && w.Valid()
    requires pasts.Keys == logs.Keys && Timed(option, inputs, n, pasts)
    requires
      var e := inputs[n].section;
      LogAt(logs, e.ServiceTriple(), e.IsBasic()) == GroupLog(WrittenAt(option, inputs, n), e)
    requires SameGroup(w, inputs[n].section) || w in WrittenAt(option, inputs, n)
    ensures PastOf(RestartedPasts(logs, pasts, inputs[n].section), w) == PastSince(option, inputs, w, n + 1)
  {
    var written, e := WrittenAt(option, inputs, n), inputs[n].section;
    FiledTogether(w, e);
    if SameGroup(w, e) {
      SameLog(written, w, e, |written|);
      GroupPast(option, inputs, n, pasts, w);
    } else {
      assert PastOf(pasts, w) == PastSince(option, inputs, w, n);
    }
  }

  lemma {:induction false} GroupPast(option: Settings, inputs: seq<CollectInput>, n: nat,
                                     pasts: map<(int, bool), int>, w: Section)
    requires n <= |inputs| && Timed(option, inputs, n, pasts)
    ensures
      PastSince(option, inputs, w, n) == if GroupLog(WrittenAt(option, inputs, n), w) == [] then 0 else PastOf(pasts, w)
  {
    var written := WrittenAt(option, inputs, n);
    var log := GroupLog(written, w);
    if log == [] {
      NothingPastUnseen(option, inputs, w, n);
    } else {
      assert log[0] in log;
      SameGroupSamePast(option, inputs, log[0], w, n);
      assert PastOf(pasts, log[0]) == PastSince(option, inputs, log[0], n);
    }
  }

  /**
   Every run, in whatever order sections come and come again and time passes. What is written is what is
   new, by the versions and the last table indexes written before, and the count is that of the different
   keys still held. The flag is set exactly if every group written from was complete when the last section
   was written. The collector stops after the first packet that leaves the flag set or the time limit
   reached, unless it is streaming. On a coherent schedule each wanted key is written exactly once.
   */
  method CollectAll(option: Settings, inputs: seq<CollectInput>)
    returns (written: seq<Section>, count: int, used: nat, completed: bool)
    requires ValidInputs(inputs)
    ensures used <= |inputs|
    ensures written == WrittenAt(option, inputs, used) && count == |KeysOf(HeldOf(written))|
    ensures completed == FlagAt(option, inputs, used)
    ensures forall n :: 0 < n < used ==> !StopsAt(option, inputs, n)
    ensures used == |inputs| || StopsAt(option, inputs, used)
    ensures CoherentRun(option, inputs) ==>
              && UniqueKeys(written) && count == |written|
              && (forall e :: e in written ==> e in WantedSections(option, inputs, used))
              && (forall e :: e in WantedSections(option, inputs, used) ==> HasKey(written, e))
  {
    var collector := new EitCollector(option);
    used := collector.HandleInputs(inputs);
    count := collector.Count();
    written, completed := collector.written, collector.progress.completed;
    if CoherentRun(option, inputs) {
      WrittenDraws(option, inputs, used);
      CoherentCount(written);
    }
  }

  // One table, in any order

  ghost function SectionsIn(inputs: seq<CollectInput>, n: nat): set<Section>
    requires n <= |inputs|
  {
    if n == 0 then {}
    else SectionsIn(inputs, n - 1) + if inputs[n - 1].SectionInput? then {inputs[n - 1].section} else {}
  }

  /** The largest number of whole three-hour segments that any time update has passed. */
  ghost function PastIn(inputs: seq<CollectInput>, n: nat): (past: int)
    requires n <= |inputs|
    ensures past >= 0
  {
    if n == 0 then 0
    else if inputs[n - 1].TimeInput? then Later(PastIn(inputs, n - 1), HourOf(inputs[n - 1].time))
    else PastIn(inputs, n - 1)
  }

  method Apply(table: TableProgress, input: CollectInput)
    requires table.Valid() && ValidInput(input)
    modifies table
    ensures table.Valid() && table.disused == old(table.disused)
    ensures table.arrived == old(table.arrived) + if input.SectionInput? then {input.section} else {}
    ensures table.past == if input.TimeInput? then Later(old(table.past), HourOf(input.time)) else old(table.past)
  {
    match input
    case SectionInput(e) => table.Update(e);
    case TimeInput(time) => table.UpdateUnused(HourOf(time));
    case PacketEnd =>
  }

  /** No time has passed segment `s`, a three-hour segment of the day. */
  ghost predicate NotPast(inputs: seq<CollectInput>, n: nat, s: int)
    requires n <= |inputs|
  {
    forall i :: 0 <= i < n && inputs[i].TimeInput? ==> inputs[i].time % 86_400_000 / 10_800_000 <= s
  }

  lemma {:induction false} PastInMeans(inputs: seq<CollectInput>, n: nat, s: int)
    requires n <= |inputs| && s >= 0
    ensures PastIn(inputs, n) <= s <==> NotPast(inputs, n, s)
  {
    if n > 0 {
      PastInMeans(inputs, n - 1, s);
      if inputs[n - 1].TimeInput? {
        HourSegment(inputs[n - 1].time);
      }
    }
  }

  /** Of the table something has arrived, and every section that exists and that no time has passed. */
  ghost predicate HasAll(inputs: seq<CollectInput>, lastNumber: int, last: seq<int>)
    requires |last| == 32
  {
    var arrived := SectionsIn(inputs, |inputs|);
    && arrived != {}
    && forall n :: IsExpected(lastNumber, last, 0, n) && NotPast(inputs, |inputs|, n / 8) ==> HasNumber(arrived, n)
  }

  /**
   Any run of sections and time updates on one table with consistent headers: it ends complete exactly
   when something arrived and nothing that exists from the current segment on is missing.
   */
  method TrackTable(inputs: seq<CollectInput>, ghost lastNumber: int, ghost last: seq<int>) returns (completed: bool)
    requires ValidInputs(inputs) && IsDescribed(lastNumber, last, SectionsIn(inputs, |inputs|))
    ensures completed <==> HasAll(inputs, lastNumber, last)
  {
    var table := new TableProgress();
    for n := 0 to |inputs|
      invariant fresh(table) && table.Valid() && !table.disused
      invariant table.arrived == SectionsIn(inputs, n) && table.past == PastIn(inputs, n)
    {
      assert ValidInput(inputs[n]);
      Apply(table, inputs[n]);
    }
    CompleteByNumbers(table.arrived, table.past, lastNumber, last);
    forall n | IsExpected(lastNumber, last, 0, n)
      ensures IsExpected(lastNumber, last, table.past, n) <==> NotPast(inputs, |inputs|, n / 8)
    {
      PastInMeans(inputs, |inputs|, n / 8);
    }
    completed := table.completed;
  }

  // The collection flag can lag

  /** Once three o'clock has passed, nothing is missing any more, but the flag is not looked at again. */
  method FlagLags() returns (progress: CollectProgress)
    ensures progress.Valid() && progress.AllCompleted() && !progress.completed
  {
    progress := new CollectProgress();
    progress.Update(LATE);
    LateLog();
    LateProgress(progress);
    progress.UpdateUnused(3);
    LateProgress(progress);
  }

  lemma LateLog()
    ensures AfterSection(map[], LATE) == map[(LATE.ServiceTriple(), true) := [LATE]]
    ensures RestartedPasts(map[], map[], LATE) == map[(LATE.ServiceTriple(), true) := 0]
  {
    assert LogAt(map[], LATE.ServiceTriple(), true) + [LATE] == [LATE];
  }

  lemma LateProgress(p: CollectProgress)
    requires p.ServicesValid() && p.services.Keys == {LATE.ServiceTriple()}
    requires p.logs == map[(LATE.ServiceTriple(), true) := [LATE]]
    requires p.pasts.Keys == p.logs.Keys && 0 <= p.pasts[(LATE.ServiceTriple(), true)] <= 1
    ensures p.AllCompleted() <==> p.pasts[(LATE.ServiceTriple(), true)] == 1
  {
    var k := LATE.ServiceTriple();
    assert (k, true) in p.pasts;
    assert p.ServiceValid(k);
    LateGroup(p.services[k].basic);
    assert p.services[k].extra.IsCompleted();
    assert p.AllCompleted() <==> p.services[k].IsCompleted();
  }

  lemma LateGroup(g: TableGroupProgress)
    requires g.Valid() && g.log == [LATE] && 0 <= g.past <= 1
    ensures g.IsCompleted() <==> g.past == 1
  {
    g.CompletedIff();
    OneSection(LATE);
    assert g.arrived == {LATE} && g.last == 0;
    assert InTableAt(g.arrived, 0) == {LATE};
    LateTable({LATE});
  }
}
