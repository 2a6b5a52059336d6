/** What the count means for the devices: a ChangeState that succeeds has brought every device on its path that is
    not ignored to the target state. */
module EndToEnd {
  import opened Basics
  import opened TopologyDefs
  import opened AsyncOps
  import opened CountingOp
  import opened TopologyModel
  import opened TopologyInvariants
  import opened Expendability
  import opened NoHang

  // ---------------------------------------------------------------- the hypothesis on a run

  /** A task that has settled for the operation only repeats its outcome: the target state if it reached it, a
      failure if it failed. It may well be counted again. */
  ghost predicate Steady(t: Table, o: ChangeOp, e: Event) {
    IsReport(t, e) && e.id in o.core.tasks && e.id in Settled(o.core) ==>
      if e.id in FailedTasks(o) then ChangeEntry(t, o, e).report.Fault? else ChangeEntry(t, o, e).report.Hit?
  }

  ghost predicate SteadyStep(s: Topo, op: OpId, e: Event) {
    op in s.changeOps && !s.changeOps[op].core.async.completed ==> Steady(s.table, s.changeOps[op], e)
  }

  ghost predicate SteadyRun(s: Topo, op: OpId, es: seq<Event>) {
    es == [] ||
    (SteadyRun(s, op, es[..|es| - 1]) && SteadyStep(RunFrom(s, es[..|es| - 1]), op, es[|es| - 1]))
  }

  // ---------------------------------------------------------------- where the devices are

  /** The tasks whose failure the operation has seen. */
  ghost function FailedTasks(o: ChangeOp): set<TaskId> {
    o.core.startFailed + o.core.failed
  }

  ghost function HardTasks(o: ChangeOp): set<TaskId> {
    Hard(o.core.startFailed, o.core.log)
  }

  /** Task `id` is where its reports say: a settled task is at the target unless it failed, no other task is,
      and a failed task is ignored unless it failed hard. */
  ghost predicate Placed(t: Table, o: ChangeOp, id: TaskId) {
    && Known(t, id)
    && (Device(t, id).state == o.target <==> id in Settled(o.core) && id !in FailedTasks(o))
    && (id in FailedTasks(o) ==> id in HardTasks(o) || Device(t, id).ignored)
  }

  /** Every matched task is addressed by the operation or ignored. */
  ghost predicate Covers(t: Table, o: ChangeOp, matched: set<TaskId>) {
    forall id :: id in matched && Known(t, id) ==> id in o.core.tasks || Device(t, id).ignored
  }

  ghost predicate AllPlaced(t: Table, o: ChangeOp, matched: set<TaskId>) {
    && TableOk(t)
    && Covers(t, o, matched)
    && (forall id :: id in o.core.tasks ==> Placed(t, o, id))
    && o.core.failed == Faulted(o.core.log) && o.core.startFailed <= o.core.start
  }

  lemma BeginPlaces(t: Table, target: DeviceState, matched: set<TaskId>)
    requires TableOk(t) && target != Error
    ensures AllPlaced(t, BeginChange(t, target, GetTasks(t, matched)), matched)
  {
    var o := BeginChange(t, target, GetTasks(t, matched));
    assert Reported([]) == {} && Faulted([]) == {};
    assert o.core.log == [] && o.core.failed == {};
  }

  // ---------------------------------------------------------------- one report

  lemma AbsorbedStates(t: Table, e: Event, id: TaskId)
    requires IsReport(t, e) && Known(t, id) && TableOk(t)
    ensures var u := Absorb(t, e);
      && Known(u, id) && Device(u, id).ignored == Device(t, id).ignored
      && Device(u, id).state == if id == e.id then NewStatus(Device(t, id), e).state else Device(t, id).state
  {
    assert id != e.id ==> t.index[id] != t.index[e.id];
  }

  lemma VerdictKeepsStates(t: Table, i: nat, j: nat)
    requires i < |t.devices| && j < |t.devices|
    ensures var u := AfterVerdict(t, i);
      && |u.devices| == |t.devices| && u.index == t.index
      && u.devices[j].state == t.devices[j].state
      && (t.devices[j].ignored ==> u.devices[j].ignored)
      && (Verdict(t, t.devices[i]) ==> u.devices[i].ignored)
  {
  }

  /** The device table after a report: only the reporting device has a new state, and it is ignored if
      the failure was expendable. */
  lemma JudgedStates(t: Table, e: Event, id: TaskId)
    requires IsReport(t, e) && Known(t, id) && TableOk(t)
    ensures var u := Judged(t, e);
      && Known(u, id)
      && Device(u, id).state == (if id == e.id then NewStatus(Device(t, id), e).state else Device(t, id).state)
      && (Device(t, id).ignored ==> Device(u, id).ignored)
      && (id == e.id && Expendable(t, e) ==> Device(u, id).ignored)
  {
    AbsorbedStates(t, e, id);
    if Asked(t, e) {
      VerdictKeepsStates(Absorb(t, e), t.index[e.id], t.index[id]);
    }
  }

  lemma DeliveredSets(o: ChangeOp, entry: Entry, p: ChangeOp)
    requires o.core.failed == Faulted(o.core.log)
    requires p.core.start == o.core.start && p.core.startFailed == o.core.startFailed
    requires p.core.log == o.core.log + [entry]
    requires p.core.failed == o.core.failed + (if entry.report.Fault? then {entry.task} else {})
    ensures Settled(p.core) == Settled(o.core) + (if entry.report.Miss? then {} else {entry.task})
    ensures FailedTasks(p) == FailedTasks(o) + (if entry.report.Fault? then {entry.task} else {})
    ensures HardTasks(p) == HardTasks(o) +
      (if entry.report.Fault? && entry.task !in o.core.failed && !entry.report.expendable then {entry.task} else {})
    ensures p.core.failed == Faulted(p.core.log)
  {
  }

  /** The operation `p` is `o` after a report of one of its tasks. */
  ghost predicate TookIn(o: ChangeOp, entry: Entry, p: ChangeOp) {
    && p.target == o.target && p.core.tasks == o.core.tasks
    && p.core.start == o.core.start && p.core.startFailed == o.core.startFailed
    && p.core.log == o.core.log + [entry]
    && p.core.failed == o.core.failed + (if entry.report.Fault? then {entry.task} else {})
  }

  lemma DeliverTakesIn(o: ChangeOp, entry: Entry, arg: TopoState)
    requires !o.core.async.completed && entry.task in o.core.tasks
    ensures TookIn(o, entry, o.(core := Deliver(o.core, entry.task, entry.report, arg)))
  {
  }

  lemma ReportPlaces(t: Table, o: ChangeOp, e: Event, p: ChangeOp, id: TaskId, matched: set<TaskId>)
    requires AllPlaced(t, o, matched) && IsReport(t, e) && Steady(t, o, e)
    requires TookIn(o, ChangeEntry(t, o, e), p) && id in o.core.tasks
    ensures Placed(Judged(t, e), p, id)
  {
    assert Placed(t, o, id);
    JudgedStates(t, e, id);
    DeliveredSets(o, ChangeEntry(t, o, e), p);
    FailedAreSettled(o);
  }

  lemma FailedAreSettled(o: ChangeOp)
    requires o.core.failed == Faulted(o.core.log) && o.core.startFailed <= o.core.start
    ensures FailedTasks(o) <= Settled(o.core)
  {
  }

  lemma CoversAfter(t: Table, o: ChangeOp, e: Event, p: ChangeOp, matched: set<TaskId>)
    requires TableOk(t) && IsReport(t, e) && Covers(t, o, matched) && p.core.tasks == o.core.tasks
    ensures TableOk(Judged(t, e)) && Covers(Judged(t, e), p, matched)
  {
    var u := Judged(t, e);
    StepTableEvolves(t, e);
    EvolvesKeepsTable(t, u);
    forall id | id in matched && Known(u, id) ensures id in p.core.tasks || Device(u, id).ignored {
      assert SameDevice(t.devices[t.index[id]], u.devices[t.index[id]]);
    }
  }

  /** A report of an addressed task. */
  lemma ReportKeepsPlaced(t: Table, o: ChangeOp, e: Event, p: ChangeOp, matched: set<TaskId>)
    requires AllPlaced(t, o, matched) && IsReport(t, e) && Steady(t, o, e)
    requires TookIn(o, ChangeEntry(t, o, e), p)
    ensures AllPlaced(Judged(t, e), p, matched)
  {
    CoversAfter(t, o, e, p, matched);
    forall id | id in p.core.tasks ensures Placed(Judged(t, e), p, id) {
      ReportPlaces(t, o, e, p, id, matched);
    }
    DeliveredSets(o, ChangeEntry(t, o, e), p);
  }

  /** A report of a task that is not addressed. */
  lemma ForeignReportKeepsPlaced(t: Table, o: ChangeOp, e: Event, matched: set<TaskId>)
    requires AllPlaced(t, o, matched) && IsReport(t, e) && e.id !in o.core.tasks
    ensures AllPlaced(Judged(t, e), o, matched)
  {
    CoversAfter(t, o, e, o, matched);
    forall id | id in o.core.tasks ensures Placed(Judged(t, e), o, id) {
      assert Placed(t, o, id);
      JudgedStates(t, e, id);
    }
  }

  /** Nothing but a report changes states or the ignored flags. */
  lemma OtherStepKeepsPlaced(t: Table, o: ChangeOp, e: Event, p: ChangeOp, matched: set<TaskId>)
    requires AllPlaced(t, o, matched) && !IsReport(t, e)
    requires p == o.(core := o.core.(async := p.core.async))
    ensures AllPlaced(StepTable(t, e), p, matched)
  {
    var u := StepTable(t, e);
    StepTableEvolves(t, e);
    EvolvesKeepsTable(t, u);
    assert forall i :: 0 <= i < |t.devices| ==>
      u.devices[i].state == t.devices[i].state && u.devices[i].ignored == t.devices[i].ignored;
    forall id | id in p.core.tasks ensures Placed(u, p, id) {
      assert Placed(t, o, id);
    }
  }

  // ---------------------------------------------------------------- whole runs

  /** The table with the devices as they were handed to the completion handler. */
  ghost function Snapshot(t: Table, o: ChangeOp): Table
    requires o.core.async.calls != []
  {
    t.(devices := o.core.async.calls[0].arg)
  }

  /** All devices are placed as long as the operation is open, and were when it was completed by its count. */
  ghost predicate PlacedFor(t: Table, o: ChangeOp, matched: set<TaskId>) {
    && (!o.core.async.completed ==> AllPlaced(t, o, matched))
    && (CompletedByCount(o.core) ==> AllPlaced(Snapshot(t, o), o, matched))
  }

  ghost predicate PlacedNowOrThen(s: Topo, op: OpId, matched: set<TaskId>) {
    op in s.changeOps ==> PlacedFor(s.table, s.changeOps[op], matched)
  }

  lemma DeliverKeepsPlaced(t: Table, o: ChangeOp, e: Event, p: ChangeOp, matched: set<TaskId>)
    requires AllPlaced(t, o, matched) && IsReport(t, e) && Steady(t, o, e)
    requires !o.core.async.completed && o.core.async.calls == []
    requires p == o.(core := Deliver(o.core, e.id, ChangeEntry(t, o, e).report, Judged(t, e).devices))
    ensures AllPlaced(Judged(t, e), p, matched)
    ensures p.core.async.completed ==> |p.core.async.calls| == 1 && Snapshot(Judged(t, e), p) == Judged(t, e)
  {
    if e.id in o.core.tasks {
      DeliverTakesIn(o, ChangeEntry(t, o, e), Judged(t, e).devices);
      ReportKeepsPlaced(t, o, e, p, matched);
    } else {
      ForeignReportKeepsPlaced(t, o, e, matched);
    }
  }

  lemma StepPlacesReport(t: Table, ops: map<OpId, ChangeOp>, isNew: bool, e: Event, op: OpId, matched: set<TaskId>)
    requires op in ops && ops[op].core.async == Async(false, [])
    requires AllPlaced(t, ops[op], matched) && IsReport(t, e) && Steady(t, ops[op], e)
    ensures op in StepChange(t, ops, isNew, e) && PlacedFor(Judged(t, e), StepChange(t, ops, isNew, e)[op], matched)
  {
    ReportedChange(t, ops, isNew, e, op);
    DeliverKeepsPlaced(t, ops[op], e, StepChange(t, ops, isNew, e)[op], matched);
  }

  lemma StepPlacesOther(t: Table, ops: map<OpId, ChangeOp>, isNew: bool, e: Event, op: OpId, matched: set<TaskId>)
    requires op in ops && ops[op].core.async == Async(false, [])
    requires AllPlaced(t, ops[op], matched) && !IsReport(t, e)
    requires isNew ==> IsInitiation(e) && e.op !in ops
    ensures op in StepChange(t, ops, isNew, e) && PlacedFor(StepTable(t, e), StepChange(t, ops, isNew, e)[op], matched)
  {
    UnreportedChange(t, ops, isNew, e, op);
    OtherStepKeepsPlaced(t, ops[op], e, StepChange(t, ops, isNew, e)[op], matched);
  }

  lemma StepPlacesDone(t: Table, ops: map<OpId, ChangeOp>, isNew: bool, e: Event, op: OpId, matched: set<TaskId>)
    requires op in ops ==> ops[op].core.async.completed && PlacedFor(t, ops[op], matched)
    requires isNew ==> IsInitiation(e) && e.op != op
    ensures op in StepChange(t, ops, isNew, e) ==> PlacedFor(StepTable(t, e), StepChange(t, ops, isNew, e)[op], matched)
  {
    DoneChange(t, ops, isNew, e, op);
    StepTableEvolves(t, e);
    if op in StepChange(t, ops, isNew, e) && CompletedByCount(ops[op].core) {
      SnapshotIndependent(t, StepTable(t, e), ops[op], matched);
    }
  }

  lemma StepPlaces(t: Table, ops: map<OpId, ChangeOp>, isNew: bool, e: Event, op: OpId, matched: set<TaskId>)
    requires op in ops ==> ops[op].core.async.SingleShot() && PlacedFor(t, ops[op], matched)
    requires op in ops && !ops[op].core.async.completed ==> Steady(t, ops[op], e)
    requires isNew ==> IsInitiation(e) && e.op !in ops && e.op != op
    ensures op in StepChange(t, ops, isNew, e) ==> PlacedFor(StepTable(t, e), StepChange(t, ops, isNew, e)[op], matched)
  {
    if op !in ops || ops[op].core.async.completed {
      StepPlacesDone(t, ops, isNew, e, op, matched);
    } else if IsReport(t, e) {
      StepPlacesReport(t, ops, isNew, e, op, matched);
    } else {
      StepPlacesOther(t, ops, isNew, e, op, matched);
    }
  }

  lemma SnapshotIndependent(t: Table, u: Table, o: ChangeOp, matched: set<TaskId>)
    requires o.core.async.calls != [] && u.index == t.index && u.names == t.names
    requires AllPlaced(Snapshot(t, o), o, matched)
    ensures AllPlaced(Snapshot(u, o), o, matched)
  {
  }

  lemma {:induction false} RunPlaces(s: Topo, es: seq<Event>, op: OpId, matched: set<TaskId>)
    requires Good(s) && op in s.changeOps && PlacedNowOrThen(s, op, matched) && SteadyRun(s, op, es)
    ensures PlacedNowOrThen(RunFrom(s, es), op, matched)
  {
    if es != [] {
      var m, e := RunFrom(s, es[..|es| - 1]), es[|es| - 1];
      RunPlaces(s, es[..|es| - 1], op, matched);
      RunGood(s, es[..|es| - 1]);
      OnceEach(m, op);
      RunKeepsInitiated(s, es[..|es| - 1]);
      StepPlaces(m.table, m.changeOps, Fresh(m, e), e, op, matched);
    }
  }

  /** Device `i` takes part in aggregation and was on the operation's path. */
  ghost predicate Matched(table: TopoState, matched: set<TaskId>, i: int) {
    Active(table, i) && table[i].taskId in matched
  }

  /** Which of them a ChangeState completed by its count has brought to the target, in the table handed over. */
  ghost predicate AtTargetExactly(o: ChangeOp, matched: set<TaskId>)
    requires o.core.async.calls != []
  {
    var table := o.core.async.calls[0].arg;
    forall i :: Matched(table, matched, i) ==>
      (table[i].state == o.target <==>
         table[i].taskId in Settled(o.core) && table[i].taskId !in Hard(o.core.startFailed, o.core.log))
  }

  lemma DevicePlaced(t: Table, o: ChangeOp, i: nat, matched: set<TaskId>)
    requires AllPlaced(t, o, matched) && Matched(t.devices, matched, i)
    ensures var d := t.devices[i];
      d.state == o.target <==> d.taskId in Settled(o.core) && d.taskId !in Hard(o.core.startFailed, o.core.log)
  {
    var id := t.devices[i].taskId;
    HardAreFailed(o.core.startFailed, o.core.log);
    assert Known(t, id) && Device(t, id) == t.devices[i];
    assert Placed(t, o, id);
  }

  /** The topology right after the initiation of the operation. */
  ghost function Started(s: Topo, op: OpId, transition: Transition, matched: set<TaskId>): Topo {
    Step(s, AsyncChangeState(op, transition, matched))
  }

  lemma StartedPlaced(s: Topo, op: OpId, transition: Transition, matched: set<TaskId>)
    requires Good(s) && op !in Initiated(s) && ExpectedState(transition).Some?
    ensures var s1 := Started(s, op, transition, matched);
      && Good(s1) && op in s1.changeOps && PlacedNowOrThen(s1, op, matched)
      && s1.changeOps[op].target == ExpectedState(transition).value
  {
    StepGood(s, AsyncChangeState(op, transition, matched));
    ChangeStarted(s, op, transition, matched);
    BeginPlaces(s.table, ExpectedState(transition).value, matched);
    NewIsPlaced(s.table, Started(s, op, transition, matched).changeOps[op], matched);
  }

  /** An operation completed at once has handed over the table it was initiated with. */
  lemma NewIsPlaced(t: Table, o: ChangeOp, matched: set<TaskId>)
    requires AllPlaced(t, o, matched)
    requires o.core.async == Async(false, []) || exists ec :: o.core.async == Async(true, [Call(ec, t.devices)])
    ensures PlacedFor(t, o, matched)
  {
  }

  lemma {:induction false} TargetOfRun(s: Topo, es: seq<Event>, op: OpId)
    requires op in s.changeOps && op in RunFrom(s, es).changeOps
    ensures RunFrom(s, es).changeOps[op].target == s.changeOps[op].target
  {
    if es != [] {
      var m, e := RunFrom(s, es[..|es| - 1]), es[|es| - 1];
      RunKeepsInitiated(s, es[..|es| - 1]);
      TargetOfStep(m, e, op);
      TargetOfRun(s, es[..|es| - 1], op);
    }
  }

  lemma TargetOfStep(s: Topo, e: Event, op: OpId)
    requires op in Initiated(s) && op in Step(s, e).changeOps
    ensures op in s.changeOps && Step(s, e).changeOps[op].target == s.changeOps[op].target
  {
    var isNew := Fresh(s, e);
    if op !in s.changeOps || s.changeOps[op].core.async.completed {
      DoneChange(s.table, s.changeOps, isNew, e, op);
    } else if IsReport(s.table, e) {
      ReportedChange(s.table, s.changeOps, isNew, e, op);
    } else {
      UnreportedChange(s.table, s.changeOps, isNew, e, op);
    }
  }

  /** What is known of the operation after any steady run. */
  lemma StartedRuns(s: Topo, op: OpId, transition: Transition, matched: set<TaskId>, es: seq<Event>)
    requires Good(s) && op !in Initiated(s) && ExpectedState(transition).Some?
    requires SteadyRun(Started(s, op, transition, matched), op, es)
    ensures var r := RunFrom(Started(s, op, transition, matched), es);
      && Good(r) && PlacedNowOrThen(r, op, matched) && r.table.index == s.table.index
      && (op in r.changeOps ==> r.changeOps[op].target == ExpectedState(transition).value)
  {
    var s1 := Started(s, op, transition, matched);
    StartedPlaced(s, op, transition, matched);
    RunPlaces(s1, es, op, matched);
    RunGood(s1, es);
    RunEvolves(s1, es);
    if op in RunFrom(s1, es).changeOps {
      TargetOfRun(s1, es, op);
    }
  }

  /** Exactly which devices are at the target: when a ChangeState on any path is completed by its count, in a run in
      which settled devices only repeat their outcome, then in the table handed over a matched device that is not
      ignored is in the expected state if and only if it has settled and not failed hard. */
  lemma ChangeStatePlacesDevices(s: Topo, op: OpId, transition: Transition, matched: set<TaskId>, es: seq<Event>)
    requires Good(s) && op !in Initiated(s) && ExpectedState(transition).Some?
    requires SteadyRun(Started(s, op, transition, matched), op, es)
    requires var r := RunFrom(Started(s, op, transition, matched), es);
      op in r.changeOps && CompletedByCount(r.changeOps[op].core)
    ensures var o := RunFrom(Started(s, op, transition, matched), es).changeOps[op];
      o.target == ExpectedState(transition).value && AtTargetExactly(o, matched)
  {
    StartedRuns(s, op, transition, matched, es);
    SnapshotPlaces(RunFrom(Started(s, op, transition, matched), es), op, matched);
  }

  lemma SnapshotPlaces(r: Topo, op: OpId, matched: set<TaskId>)
    requires op in r.changeOps && PlacedNowOrThen(r, op, matched) && CompletedByCount(r.changeOps[op].core)
    ensures AtTargetExactly(r.changeOps[op], matched)
  {
    var o := r.changeOps[op];
    var table := o.core.async.calls[0].arg;
    forall i | Matched(table, matched, i)
      ensures table[i].state == o.target <==>
              table[i].taskId in Settled(o.core) && table[i].taskId !in Hard(o.core.startFailed, o.core.log)
    {
      DevicePlaced(Snapshot(r.table, o), o, i, matched);
    }
  }

  ghost predicate AllMatchedIn(table: TopoState, matched: set<TaskId>, target: DeviceState) {
    forall i :: Matched(table, matched, i) ==> table[i].state == target
  }

  ghost predicate AllMatchedSettled(table: TopoState, matched: set<TaskId>, o: StateOp<TopoState>) {
    forall i :: Matched(table, matched, i) ==> table[i].taskId in Settled(o)
  }

  /** What aggregation answers, unless all devices are ignored, is the target. */
  ghost predicate AggregatesTo(table: TopoState, aggregated: AggregatedState, target: DeviceState) {
    Aggregates(table, aggregated) && (exists i :: Active(table, i)) ==> aggregated == Of(target)
  }

  /** Completed without error, the last counted failure hiding no hard one. */
  ghost predicate CleanSuccess(o: StateOp<TopoState>) {
    && o.async.completed && o.async.calls != [] && o.async.calls[0].ec == NoError
    && !HiddenAtEnd(o.startFailed, o.log)
  }

  /** End to end: in such a run a ChangeState that completes without error, its last counted failure hiding no hard
      one, hands over a table in which all matched devices that are not ignored are in the expected state if and
      only if all of them had settled; that is certain if none was counted twice. If the path matched all devices,
      the aggregated state is then the expected one. */
  lemma ChangeStateEndToEnd(s: Topo, op: OpId, transition: Transition, matched: set<TaskId>, es: seq<Event>,
                            aggregated: AggregatedState)
    requires Good(s) && op !in Initiated(s) && ExpectedState(transition).Some?
    requires SteadyRun(Started(s, op, transition, matched), op, es)
    requires var r := RunFrom(Started(s, op, transition, matched), es);
      op in r.changeOps && CleanSuccess(r.changeOps[op].core)
    ensures var o := RunFrom(Started(s, op, transition, matched), es).changeOps[op].core;
      var target, table := ExpectedState(transition).value, o.async.calls[0].arg;
      && (AllMatchedIn(table, matched, target) <==> AllMatchedSettled(table, matched, o))
      && (Repeats(o.start, o.log) == 0 ==> AllMatchedIn(table, matched, target))
      && (AllMatchedIn(table, matched, target) && s.table.index.Keys <= matched ==>
            AggregatesTo(table, aggregated, target))
  {
    var r := RunFrom(Started(s, op, transition, matched), es);
    StartedRuns(s, op, transition, matched, es);
    SuccessReachesTarget(r, op, matched);
    SuccessAggregates(r, op, matched, aggregated);
  }

  lemma SuccessReachesTarget(r: Topo, op: OpId, matched: set<TaskId>)
    requires Good(r) && op in r.changeOps && PlacedNowOrThen(r, op, matched) && CleanSuccess(r.changeOps[op].core)
    ensures var o, target := r.changeOps[op].core, r.changeOps[op].target;
      var table := o.async.calls[0].arg;
      && (AllMatchedIn(table, matched, target) <==> AllMatchedSettled(table, matched, o))
      && (Repeats(o.start, o.log) == 0 ==> AllMatchedIn(table, matched, target))
  {
    var o := r.changeOps[op];
    assert ChangeOk(r.table, o);
    SnapshotPlaces(r, op, matched);
    SnapshotAddresses(r, op, matched);
    VerdictExactly(o.core.startFailed, o.core.log);
    CompletionIsExact(o.core);
  }

  /** Every matched device of the table handed over that is not ignored is addressed. */
  lemma SnapshotAddresses(r: Topo, op: OpId, matched: set<TaskId>)
    requires op in r.changeOps && PlacedNowOrThen(r, op, matched) && CompletedByCount(r.changeOps[op].core)
    ensures var o := r.changeOps[op].core;
      forall i :: Matched(o.async.calls[0].arg, matched, i) ==> o.async.calls[0].arg[i].taskId in o.tasks
  {
    var t := Snapshot(r.table, r.changeOps[op]);
    assert AllPlaced(t, r.changeOps[op], matched);
    assert forall i :: Matched(t.devices, matched, i) ==> Known(t, t.devices[i].taskId);
  }

  lemma SuccessAggregates(r: Topo, op: OpId, matched: set<TaskId>, aggregated: AggregatedState)
    requires Good(r) && op in r.changeOps && PlacedNowOrThen(r, op, matched) && CleanSuccess(r.changeOps[op].core)
    ensures var table, target := r.changeOps[op].core.async.calls[0].arg, r.changeOps[op].target;
      AllMatchedIn(table, matched, target) && r.table.index.Keys <= matched ==>
        AggregatesTo(table, aggregated, target)
  {
    var table, target := r.changeOps[op].core.async.calls[0].arg, r.changeOps[op].target;
    if AllMatchedIn(table, matched, target) && r.table.index.Keys <= matched {
      assert AllPlaced(Snapshot(r.table, r.changeOps[op]), r.changeOps[op], matched);
      assert forall i :: Active(table, i) ==> Matched(table, matched, i);
      if Aggregates(table, aggregated) && exists i :: Active(table, i) {
        var i :| Active(table, i);
        AggregateUniform(table, target, i, aggregated);
      }
    }
  }
}
