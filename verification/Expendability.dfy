/** `IsExpendable` over whole runs: how many collections it may ignore, and that it never changes its mind. */
module Expendability {
  import opened Basics
  import opened TopologyDefs
  import opened TopologyModel
  import opened TopologyInvariants

  /** The device table alone, along a run. */
  ghost function RunTable(t: Table, es: seq<Event>): Table {
    if es == [] then t else StepTable(RunTable(t, es[..|es| - 1]), es[|es| - 1])
  }

  lemma {:induction false} TableOfRun(s: Topo, es: seq<Event>)
    ensures RunFrom(s, es).table == RunTable(s.table, es)
  {
    if es != [] {
      TableOfRun(s, es[..|es| - 1]);
    }
  }

  lemma {:induction false} RunTableEvolves(t: Table, es: seq<Event>)
    ensures Evolves(t, RunTable(t, es))
  {
    if es != [] {
      var u := RunTable(t, es[..|es| - 1]);
      RunTableEvolves(t, es[..|es| - 1]);
      StepTableEvolves(u, es[|es| - 1]);
      EvolvesTransitive(t, u, RunTable(t, es));
    }
  }

  // ---------------------------------------------------------------- nMin

  /** The runtime instances of the collection named `c`. */
  ghost function Instances(t: Table, c: string): set<CollectionId> {
    set k | k in t.names && t.names[k] == c
  }

  ghost function IgnoredInstances(t: Table, c: string): set<CollectionId> {
    Instances(t, c) * t.ignoredCollections
  }

  ghost function Survivors(t: Table, c: string): set<CollectionId> {
    Instances(t, c) - t.ignoredCollections
  }

  /** A collection counts as ignored exactly when all its devices are, and a device that is not
      expendable is only ever ignored along with its collection. */
  ghost predicate IgnoredAsWhole(t: Table) {
    forall i :: 0 <= i < |t.devices| ==>
      (t.devices[i].collectionId in t.ignoredCollections ==> t.devices[i].ignored) &&
      (t.devices[i].ignored ==> t.devices[i].expendable || t.devices[i].collectionId in t.ignoredCollections)
  }

  function Max(a: int, b: int): int {
    if a < b then b else a
  }

  function Min(a: int, b: int): int {
    if a < b then a else b
  }

  /** The bookkeeping of collection `c`, with `n` and `nMin` taken from the state `t0` before the run. */
  ghost predicate NMinInv(t0: Table, t: Table, c: string)
    requires c in t0.info
  {
    var n, nMin, k := t0.info[c].nCurrent, t0.info[c].nMin, |IgnoredInstances(t, c)|;
    && c in t.info
    && t.info[c].nMin == nMin
    && t.info[c].nCurrent <= n - k
    && (nMin == 0 ==> k == 0)
    && k <= Max(0, n - nMin)
    && (nMin != 0 && t.info[c].nCurrent >= nMin ==> t.info[c].nCurrent == n - k)
  }

  lemma IgnoredInstancesGrow(t: Table, k: CollectionId, c: string, u: Table)
    requires u.names == t.names && u.ignoredCollections == t.ignoredCollections + {k} && k !in t.ignoredCollections
    ensures |IgnoredInstances(u, c)| == |IgnoredInstances(t, c)| + (if k in Instances(t, c) then 1 else 0)
  {
    assert IgnoredInstances(u, c) == IgnoredInstances(t, c) + (if k in Instances(t, c) then {k} else {});
  }

  lemma AfterVerdictWhole(t: Table, i: nat)
    requires IgnoredAsWhole(t) && i < |t.devices|
    ensures IgnoredAsWhole(AfterVerdict(t, i))
  {
  }

  /** A verdict that ignores nothing may lower nCurrent, but only when nMin is 0 or no longer met. */
  lemma RefusalNMin(t0: Table, t: Table, i: nat, c: string)
    requires c in t0.info && NMinInv(t0, t, c) && i < |t.devices|
    requires t.devices[i].ignored || t.devices[i].expendable || !CanIgnoreCollection(t, t.devices[i])
    ensures NMinInv(t0, AfterVerdict(t, i), c)
  {
  }

  lemma IgnoringNMin(t0: Table, t: Table, i: nat, c: string)
    requires c in t0.info && NMinInv(t0, t, c) && i < |t.devices|
    requires !t.devices[i].ignored && !t.devices[i].expendable && CanIgnoreCollection(t, t.devices[i])
    requires t.devices[i].collectionId !in t.ignoredCollections
    ensures NMinInv(t0, AfterVerdict(t, i), c)
  {
    IgnoredInstancesGrow(t, t.devices[i].collectionId, c, AfterVerdict(t, i));
  }

  lemma AfterVerdictNMin(t0: Table, t: Table, i: nat, c: string)
    requires c in t0.info && NMinInv(t0, t, c) && IgnoredAsWhole(t) && i < |t.devices|
    ensures NMinInv(t0, AfterVerdict(t, i), c)
  {
    if t.devices[i].ignored || t.devices[i].expendable || !CanIgnoreCollection(t, t.devices[i]) {
      RefusalNMin(t0, t, i, c);
    } else {
      IgnoringNMin(t0, t, i, c);
    }
  }

  /** A step up to the verdict, if it asks for one. */
  ghost function BeforeVerdict(t: Table, e: Event): Table {
    if IsReport(t, e) then Absorb(t, e) else StepTable(t, e)
  }

  /** It touches neither the collections nor what a verdict depends on. */
  lemma BeforeVerdictKeeps(t: Table, e: Event)
    ensures var u := BeforeVerdict(t, e);
      && u.names == t.names && u.info == t.info && u.ignoredCollections == t.ignoredCollections &&
        |u.devices| == |t.devices|
      && forall i :: 0 <= i < |t.devices| ==>
           u.devices[i].collectionId == t.devices[i].collectionId && u.devices[i].ignored == t.devices[i].ignored &&
           u.devices[i].expendable == t.devices[i].expendable
  {
  }

  lemma BeforeVerdictNMin(t0: Table, t: Table, e: Event, c: string)
    requires c in t0.info && NMinInv(t0, t, c) && IgnoredAsWhole(t)
    ensures NMinInv(t0, BeforeVerdict(t, e), c) && IgnoredAsWhole(BeforeVerdict(t, e))
  {
    BeforeVerdictKeeps(t, e);
    assert IgnoredInstances(BeforeVerdict(t, e), c) == IgnoredInstances(t, c);
  }

  lemma StepTableNMin(t0: Table, t: Table, e: Event, c: string)
    requires c in t0.info && NMinInv(t0, t, c) && IgnoredAsWhole(t)
    ensures NMinInv(t0, StepTable(t, e), c) && IgnoredAsWhole(StepTable(t, e))
  {
    BeforeVerdictNMin(t0, t, e, c);
    if Asked(t, e) {
      AfterVerdictNMin(t0, Absorb(t, e), t.index[e.id], c);
      AfterVerdictWhole(Absorb(t, e), t.index[e.id]);
    }
  }

  lemma {:induction false} TableNMin(t0: Table, es: seq<Event>, c: string)
    requires c in t0.info && t0.ignoredCollections == {}
    requires forall i :: 0 <= i < |t0.devices| ==> !t0.devices[i].ignored
    ensures var t, n, nMin := RunTable(t0, es), t0.info[c].nCurrent, t0.info[c].nMin;
      && |IgnoredInstances(t, c)| <= Max(0, n - nMin)
      && (nMin == 0 ==> IgnoredInstances(t, c) == {})
      && c in t.info
      && (t.info[c].nCurrent >= nMin > 0 ==> t.info[c].nCurrent == n - |IgnoredInstances(t, c)|)
    ensures NMinInv(t0, RunTable(t0, es), c) && IgnoredAsWhole(RunTable(t0, es))
  {
    if es == [] {
      assert IgnoredInstances(t0, c) == {};
    } else {
      TableNMin(t0, es[..|es| - 1], c);
      StepTableNMin(t0, RunTable(t0, es[..|es| - 1]), es[|es| - 1], c);
    }
  }

  /** nMin safety: in every run at most max(0, n - nMin) instances of a collection are ignored as a whole,
      none if nMin is 0, and as long as nCurrent has not fallen below nMin it is exactly n minus their number. */
  lemma NMinSafety(s: Topo, es: seq<Event>, c: string)
    requires Initial(s) && c in s.table.info
    ensures var t, n, nMin := RunFrom(s, es).table, s.table.info[c].nCurrent, s.table.info[c].nMin;
      && |IgnoredInstances(t, c)| <= Max(0, n - nMin)
      && (nMin == 0 ==> IgnoredInstances(t, c) == {})
      && c in t.info
      && (t.info[c].nCurrent >= nMin > 0 ==> t.info[c].nCurrent == n - |IgnoredInstances(t, c)|)
  {
    TableOfRun(s, es);
    TableNMin(s.table, es, c);
  }

  // ---------------------------------------------------------------- instances that can be ignored as a whole

  /** A device of collection `k` is not expendable: its failure is a failure of the collection. */
  ghost predicate HasHard(t: Table, k: CollectionId) {
    k != 0 && exists i :: 0 <= i < |t.devices| && t.devices[i].collectionId == k && !t.devices[i].expendable
  }

  /** The instances of the collection named `c` that have such a device. */
  ghost function Fallible(t: Table, c: string): set<CollectionId> {
    set k | k in Instances(t, c) && HasHard(t, k)
  }

  ghost predicate OnlyFallible(t: Table) {
    forall k :: k in t.ignoredCollections ==> HasHard(t, k)
  }

  lemma EvolvesKeepsHard(t: Table, u: Table, k: CollectionId)
    requires Evolves(t, u)
    ensures HasHard(t, k) <==> HasHard(u, k)
  {
    if HasHard(t, k) {
      var i :| 0 <= i < |t.devices| && t.devices[i].collectionId == k && !t.devices[i].expendable;
      assert SameDevice(t.devices[i], u.devices[i]);
    }
    if HasHard(u, k) {
      var i :| 0 <= i < |u.devices| && u.devices[i].collectionId == k && !u.devices[i].expendable;
      assert SameDevice(t.devices[i], u.devices[i]);
    }
  }

  lemma StepTableFallible(t: Table, e: Event)
    requires OnlyFallible(t)
    ensures OnlyFallible(StepTable(t, e))
  {
    StepTableEvolves(t, e);
    forall k | k in StepTable(t, e).ignoredCollections ensures HasHard(StepTable(t, e), k) {
      if k !in t.ignoredCollections {
        assert Absorb(t, e).devices[t.index[e.id]].collectionId == k;
        assert t.devices[t.index[e.id]].collectionId == k && !t.devices[t.index[e.id]].expendable;
      }
      EvolvesKeepsHard(t, StepTable(t, e), k);
    }
  }

  /** Only instances with a device that is not expendable are ever ignored as a whole. */
  lemma {:induction false} RunTableFallible(t: Table, es: seq<Event>)
    requires OnlyFallible(t)
    ensures OnlyFallible(RunTable(t, es))
  {
    if es != [] {
      RunTableFallible(t, es[..|es| - 1]);
      StepTableFallible(RunTable(t, es[..|es| - 1]), es[|es| - 1]);
    }
  }

  lemma IgnoredAreFallible(t0: Table, es: seq<Event>, c: string)
    requires t0.ignoredCollections == {}
    ensures IgnoredInstances(RunTable(t0, es), c) <= Fallible(t0, c)
  {
    var t := RunTable(t0, es);
    RunTableFallible(t0, es);
    RunTableEvolves(t0, es);
    forall k | k in IgnoredInstances(t, c) ensures k in Fallible(t0, c) {
      EvolvesKeepsHard(t0, t, k);
    }
  }

  /** The fewest instances of `c` that a run from `t` can leave. */
  ghost function FewestLeft(t: Table, c: string): int
    requires c in t.info
  {
    |Instances(t, c)| - Min(|Fallible(t, c)|, Max(0, t.info[c].nCurrent - t.info[c].nMin))
  }

  lemma SurvivorsCount(t: Table, c: string)
    ensures |Survivors(t, c)| == |Instances(t, c)| - |IgnoredInstances(t, c)|
  {
    assert Instances(t, c) == Survivors(t, c) + IgnoredInstances(t, c);
  }

  lemma IgnoredBound(t0: Table, es: seq<Event>, c: string)
    requires c in t0.info && t0.ignoredCollections == {}
    requires forall i :: 0 <= i < |t0.devices| ==> !t0.devices[i].ignored
    ensures |IgnoredInstances(RunTable(t0, es), c)| <=
            Min(|Fallible(t0, c)|, Max(0, t0.info[c].nCurrent - t0.info[c].nMin))
  {
    TableNMin(t0, es, c);
    IgnoredAreFallible(t0, es, c);
    SubsetCardinality(IgnoredInstances(RunTable(t0, es), c), Fallible(t0, c));
  }

  /** How many instances are left in every run. */
  lemma TableSurvivors(t0: Table, es: seq<Event>, c: string)
    requires c in t0.info && t0.ignoredCollections == {}
    requires forall i :: 0 <= i < |t0.devices| ==> !t0.devices[i].ignored
    ensures |Survivors(RunTable(t0, es), c)| >= FewestLeft(t0, c)
  {
    IgnoredBound(t0, es, c);
    RunTableEvolves(t0, es);
    assert Instances(RunTable(t0, es), c) == Instances(t0, c);
    SurvivorsCount(RunTable(t0, es), c);
  }

  // ---------------------------------------------------------------- the bound is met

  /** The task of a device in an instance of `c` that is not expendable. */
  ghost predicate Represents(t: Table, c: string, id: TaskId) {
    && Known(t, id) && !Device(t, id).expendable
    && Device(t, id).collectionId != 0 && Device(t, id).collectionId in Instances(t, c)
  }

  ghost function CollectionsOf(t: Table, tasks: seq<TaskId>): set<CollectionId> {
    set id | id in tasks && Known(t, id) :: Device(t, id).collectionId
  }

  /** Such tasks, each in an instance of its own. */
  ghost predicate Representatives(t: Table, c: string, tasks: seq<TaskId>) {
    && (forall id :: id in tasks ==> Represents(t, c, id))
    && |CollectionsOf(t, tasks)| == |tasks|
  }

  lemma CollectionsOfAppend(t: Table, tasks: seq<TaskId>, id: TaskId)
    requires Known(t, id)
    ensures CollectionsOf(t, tasks + [id]) == CollectionsOf(t, tasks) + {Device(t, id).collectionId}
  {
  }

  lemma {:induction false} CollectionsOfCardinality(t: Table, tasks: seq<TaskId>)
    ensures |CollectionsOf(t, tasks)| <= |tasks|
  {
    if tasks == [] {
      assert CollectionsOf(t, tasks) == {};
    } else {
      var n := |tasks| - 1;
      assert tasks == tasks[..n] + [tasks[n]];
      CollectionsOfCardinality(t, tasks[..n]);
      if Known(t, tasks[n]) {
        CollectionsOfAppend(t, tasks[..n], tasks[n]);
      } else {
        assert CollectionsOf(t, tasks) == CollectionsOf(t, tasks[..n]);
      }
    }
  }

  lemma RepresentativesPrefix(t: Table, c: string, tasks: seq<TaskId>, id: TaskId)
    requires Representatives(t, c, tasks + [id])
    ensures Representatives(t, c, tasks) && Represents(t, c, id)
    ensures Device(t, id).collectionId !in CollectionsOf(t, tasks)
  {
    assert forall x :: x in tasks + [id] <==> x in tasks || x == id;
    assert id in tasks + [id];
    CollectionsOfAppend(t, tasks, id);
    CollectionsOfCardinality(t, tasks);
  }

  function Failures(tasks: seq<TaskId>): seq<Event> {
    seq(|tasks|, j requires 0 <= j < |tasks| => StateChange(tasks[j], Running, Error))
  }

  /** One failure with enough instances left ignores the instance. */
  lemma FailureIgnoresInstance(t: Table, c: string, id: TaskId)
    requires Represents(t, c, id) && !Device(t, id).ignored
    requires c in t.info && t.info[c].nMin != 0 && t.info[c].nCurrent - 1 >= t.info[c].nMin
    ensures var u := StepTable(t, StateChange(id, Running, Error));
      && u.ignoredCollections == t.ignoredCollections + {Device(t, id).collectionId}
      && c in u.info && u.info[c] == t.info[c].(nCurrent := t.info[c].nCurrent - 1)
  {
  }

  /** Failing one device in each of up to n - nMin instances ignores all these instances. */
  lemma {:induction false} TableBudget(t0: Table, c: string, tasks: seq<TaskId>)
    requires c in t0.info && t0.ignoredCollections == {} && t0.info[c].nMin != 0
    requires forall i :: 0 <= i < |t0.devices| ==> !t0.devices[i].ignored
    requires Representatives(t0, c, tasks) && |tasks| <= Max(0, t0.info[c].nCurrent - t0.info[c].nMin)
    ensures var t := RunTable(t0, Failures(tasks));
      && t.ignoredCollections == CollectionsOf(t0, tasks)
      && c in t.info && t.info[c] == t0.info[c].(nCurrent := t0.info[c].nCurrent - |tasks|)
  {
    if tasks == [] {
      assert CollectionsOf(t0, tasks) == {};
    } else {
      var n := |tasks| - 1;
      var front, id := tasks[..n], tasks[n];
      assert tasks == front + [id];
      assert Failures(tasks)[..n] == Failures(front);
      RepresentativesPrefix(t0, c, front, id);
      CollectionsOfAppend(t0, front, id);
      TableBudget(t0, c, front);
      var t := RunTable(t0, Failures(front));
      StillRepresents(t0, Failures(front), c, id);
      FailureIgnoresInstance(t, c, id);
    }
  }

  lemma StillRepresents(t0: Table, es: seq<Event>, c: string, id: TaskId)
    requires c in t0.info && t0.ignoredCollections == {}
    requires forall i :: 0 <= i < |t0.devices| ==> !t0.devices[i].ignored
    requires Represents(t0, c, id) && Device(t0, id).collectionId !in RunTable(t0, es).ignoredCollections
    ensures var t := RunTable(t0, es);
      Represents(t, c, id) && !Device(t, id).ignored && Device(t, id).collectionId == Device(t0, id).collectionId
  {
    TableNMin(t0, es, c);
    RunTableEvolves(t0, es);
    assert SameDevice(t0.devices[t0.index[id]], RunTable(t0, es).devices[t0.index[id]]);
  }

  /** One representative for each of `k` instances. */
  lemma {:induction false} PickRepresentatives(t: Table, c: string, reps: map<CollectionId, TaskId>,
                                               from: set<CollectionId>, k: nat)
    returns (tasks: seq<TaskId>)
    requires from <= reps.Keys && k <= |from|
    requires forall x :: x in from ==> Represents(t, c, reps[x]) && Device(t, reps[x]).collectionId == x
    ensures |tasks| == k && Representatives(t, c, tasks) && CollectionsOf(t, tasks) <= from
    decreases k
  {
    if k == 0 {
      tasks := [];
      assert CollectionsOf(t, tasks) == {};
    } else {
      var x :| x in from;
      var rest := PickRepresentatives(t, c, reps, from - {x}, k - 1);
      tasks := rest + [reps[x]];
      CollectionsOfAppend(t, rest, reps[x]);
    }
  }

  /** Failing one device in each of up to n - nMin instances ignores exactly these instances. */
  lemma BudgetIsReachable(s: Topo, c: string, tasks: seq<TaskId>)
    requires Initial(s) && c in s.table.info && s.table.info[c].nMin != 0
    requires Representatives(s.table, c, tasks)
    requires |tasks| <= Max(0, s.table.info[c].nCurrent - s.table.info[c].nMin)
    ensures var t := RunFrom(s, Failures(tasks)).table;
      && t.ignoredCollections == CollectionsOf(s.table, tasks)
      && c in t.info && t.info[c] == s.table.info[c].(nCurrent := s.table.info[c].nCurrent - |tasks|)
  {
    TableOfRun(s, Failures(tasks));
    TableBudget(s.table, c, tasks);
  }

  /** The task of a device that is not expendable in collection `k`. */
  lemma HardTask(t: Table, c: string, k: CollectionId) returns (id: TaskId)
    requires TableOk(t) && k in Fallible(t, c)
    ensures Represents(t, c, id) && Device(t, id).collectionId == k
  {
    var i :| 0 <= i < |t.devices| && t.devices[i].collectionId == k && !t.devices[i].expendable;
    id := t.devices[i].taskId;
  }

  lemma {:induction false} HardTasks(t: Table, c: string, from: set<CollectionId>)
    returns (reps: map<CollectionId, TaskId>)
    requires TableOk(t) && from <= Fallible(t, c)
    ensures from <= reps.Keys
    ensures forall x :: x in from ==> Represents(t, c, reps[x]) && Device(t, reps[x]).collectionId == x
    decreases from
  {
    reps := map[];
    if from != {} {
      var k :| k in from;
      var rest := HardTasks(t, c, from - {k});
      var id := HardTask(t, c, k);
      reps := rest[k := id];
    }
  }

  /** The fewest survivors: no run leaves fewer instances of a collection than `FewestLeft`, and if nMin is not 0
      some run leaves exactly that many. */
  lemma FewestLeftExactly(s: Topo, c: string)
    requires Initial(s) && c in s.table.info
    ensures forall es :: |Survivors(RunFrom(s, es).table, c)| >= FewestLeft(s.table, c)
    ensures s.table.info[c].nMin != 0 ==>
      exists es :: |Survivors(RunFrom(s, es).table, c)| == FewestLeft(s.table, c)
  {
    var t0 := s.table;
    forall es ensures |Survivors(RunFrom(s, es).table, c)| >= FewestLeft(t0, c) {
      TableOfRun(s, es);
      TableSurvivors(t0, es, c);
    }
    if t0.info[c].nMin != 0 {
      var fallible := Fallible(t0, c);
      var reps := HardTasks(t0, c, fallible);
      var k := Min(|fallible|, Max(0, t0.info[c].nCurrent - t0.info[c].nMin));
      var tasks := PickRepresentatives(t0, c, reps, fallible, k);
      TableBelow(t0, c, tasks);
      TableOfRun(s, Failures(tasks));
    }
  }

  /** The promise that nMin instances stay is kept in every run if and only if ignoring as many instances as the
      starting count and the devices allow leaves that many. The count is taken from the requirements; if fewer
      instances were started, runs exist that go below nMin although every verdict was right. */
  lemma NMinKeptExactly(s: Topo, c: string)
    requires Initial(s) && c in s.table.info
    ensures (forall es :: |Survivors(RunFrom(s, es).table, c)| >= s.table.info[c].nMin) <==>
            s.table.info[c].nMin <= 0 || FewestLeft(s.table, c) >= s.table.info[c].nMin
  {
    FewestLeftExactly(s, c);
    var nMin := s.table.info[c].nMin;
    if nMin > 0 && FewestLeft(s.table, c) < nMin {
      var es :| |Survivors(RunFrom(s, es).table, c)| == FewestLeft(s.table, c);
      assert |Survivors(RunFrom(s, es).table, c)| < nMin;
    }
  }

  lemma TableBelow(t0: Table, c: string, tasks: seq<TaskId>)
    requires c in t0.info && t0.ignoredCollections == {} && t0.info[c].nMin != 0
    requires forall i :: 0 <= i < |t0.devices| ==> !t0.devices[i].ignored
    requires Representatives(t0, c, tasks) && CollectionsOf(t0, tasks) <= Instances(t0, c)
    requires |tasks| <= Max(0, t0.info[c].nCurrent - t0.info[c].nMin)
    ensures |Survivors(RunTable(t0, Failures(tasks)), c)| == |Instances(t0, c)| - |tasks|
  {
    if tasks == [] {
      assert Failures(tasks) == [];
      assert Survivors(t0, c) == Instances(t0, c);
    } else {
      TableBudget(t0, c, tasks);
      RunTableEvolves(t0, Failures(tasks));
      var t := RunTable(t0, Failures(tasks));
      assert Instances(t, c) == Instances(t0, c);
      assert Instances(t, c) == Survivors(t, c) + CollectionsOf(t0, tasks);
    }
  }

  // ---------------------------------------------------------------- verdict stability

  /** The verdict on device `i` is settled: ignored devices stay ignored, and a device that was not let
      off can no longer be ignored on account of any device of its collection. */
  ghost predicate VerdictFixed(t: Table, i: nat, verdict: bool) {
    i < |t.devices| &&
    var d := t.devices[i];
    if verdict then d.ignored
    else
      && !d.ignored && !d.expendable
      && (HasInfo(t, d) ==> InfoOf(t, d).nMin == 0 || InfoOf(t, d).nCurrent < InfoOf(t, d).nMin)
  }

  lemma VerdictIsFixed(t: Table, i: nat)
    requires i < |t.devices|
    ensures VerdictFixed(AfterVerdict(t, i), i, Verdict(t, t.devices[i]))
  {
  }

  lemma AfterVerdictKeepsFixed(t: Table, i: nat, verdict: bool, j: nat)
    requires VerdictFixed(t, i, verdict) && j < |t.devices|
    ensures VerdictFixed(AfterVerdict(t, j), i, verdict)
  {
  }

  lemma StepTableKeepsFixed(t: Table, i: nat, verdict: bool, e: Event)
    requires VerdictFixed(t, i, verdict)
    ensures VerdictFixed(StepTable(t, e), i, verdict)
  {
    if IsReport(t, e) {
      assert VerdictFixed(Absorb(t, e), i, verdict);
      AfterVerdictKeepsFixed(Absorb(t, e), i, verdict, t.index[e.id]);
    }
  }

  lemma {:induction false} RunTableKeepsFixed(t: Table, i: nat, verdict: bool, es: seq<Event>)
    requires VerdictFixed(t, i, verdict)
    ensures VerdictFixed(RunTable(t, es), i, verdict)
  {
    if es != [] {
      RunTableKeepsFixed(t, i, verdict, es[..|es| - 1]);
      StepTableKeepsFixed(RunTable(t, es[..|es| - 1]), i, verdict, es[|es| - 1]);
    }
  }

  lemma TableVerdictStable(t: Table, first: Event, es: seq<Event>, second: Event)
    requires Asked(t, first)
    requires Asked(RunTable(StepTable(t, first), es), second)
    requires first.id == second.id
    ensures Expendable(RunTable(StepTable(t, first), es), second) <==> Expendable(t, first)
  {
    var i, verdict := t.index[first.id], Expendable(t, first);
    var u := StepTable(t, first);
    VerdictIsFixed(Absorb(t, first), i);
    RunTableKeepsFixed(u, i, verdict, es);
    StepTableEvolves(t, first);
    RunTableEvolves(u, es);
    assert VerdictFixed(Absorb(RunTable(u, es), second), i, verdict);
  }

  lemma TableVerdictDecides(t: Table, e: Event, es: seq<Event>)
    requires Asked(t, e)
    ensures var u := RunTable(StepTable(t, e), es); Known(u, e.id) && (Device(u, e.id).ignored <==> Expendable(t, e))
  {
    VerdictIsFixed(Absorb(t, e), t.index[e.id]);
    RunTableKeepsFixed(StepTable(t, e), t.index[e.id], Expendable(t, e), es);
    StepTableEvolves(t, e);
    RunTableEvolves(StepTable(t, e), es);
  }

  /** Verdict stability: whenever `IsExpendable` is asked about a device twice, whatever happens in
      between, it answers the same; so a change to Error and the later end of the task never disagree. */
  lemma VerdictStable(s: Topo, first: Event, es: seq<Event>, second: Event)
    requires Asked(s.table, first)
    requires Asked(RunFrom(Step(s, first), es).table, second)
    requires first.id == second.id
    ensures Expendable(RunFrom(Step(s, first), es).table, second) <==> Expendable(s.table, first)
  {
    TableOfRun(Step(s, first), es);
    TableVerdictStable(s.table, first, es, second);
  }

  /** What the verdict leaves behind: the device is ignored from then on if and only if it was let off. */
  lemma VerdictDecidesIgnored(s: Topo, e: Event, es: seq<Event>)
    requires Asked(s.table, e)
    ensures var u := RunFrom(Step(s, e), es).table;
      Known(u, e.id) && (Device(u, e.id).ignored <==> Expendable(s.table, e))
  {
    TableOfRun(Step(s, e), es);
    TableVerdictDecides(s.table, e, es);
  }
}
