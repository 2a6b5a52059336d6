/** Runs in which an operation does what a reader of its documentation would not expect. */
module Surprises {
  import opened Basics
  import opened TopologyDefs
  import opened AsyncOps
  import opened CountingOp
  import opened TopologyModel
  import opened TopologyInvariants
  import opened NoHang
  import opened EndToEnd
  import Expendability
  import SP = SetPropertiesProtocol

  // ---------------------------------------------------------------- the normal end of a device counts twice

  /** The state after a report, for one known device. */
  lemma StateAfter(t: Table, e: Event)
    requires IsReport(t, e)
    ensures var u := StepTable(t, e); Known(u, e.id) && Device(u, e.id).state == NewStatus(Device(t, e.id), e).state
  {
  }

  lemma HitCounts(o: WaitOp, id: TaskId)
    requires !o.core.async.completed && id in o.core.tasks
    ensures var p := Moved(o, Take(Entry(id, Hit))).core;
      && p.count == o.core.count + 1 && id in Settled(p)
      && Repeats(p.start, p.log) == Repeats(o.core.start, o.core.log) + if id in Settled(o.core) then 1 else 0
  {
    CountersOfAppend(o.core.start, o.core.startFailed, o.core.log, Entry(id, Hit));
    HistoryOfAppend(o.core.log, Entry(id, Hit));
  }

  /** Whenever a device that an operation for `End` waits for reports Exiting and its task then ends normally, the
      operation counts it twice, unless it was completed by the first of the two. */
  lemma NormalEndCountsTwice(s: Topo, op: OpId, id: TaskId, last: DeviceState, signal: int)
    requires OpenNow(s, ChangeRef(op)) && s.changeOps[op].target == Exiting
    requires id in s.changeOps[op].core.tasks && Known(s.table, id)
    ensures var s1 := Step(s, StateChange(id, last, Exiting));
      var s2 := Step(s1, TaskDone(id, 0, signal));
      OpenNow(s1, ChangeRef(op)) ==>
        && op in s.changeOps && op in s2.changeOps
        && s2.changeOps[op].core.count == s.changeOps[op].core.count + 2
        && Repeats(s2.changeOps[op].core.start, s2.changeOps[op].core.log) >
           Repeats(s.changeOps[op].core.start, s.changeOps[op].core.log)
  {
    var e1, e2, ref := StateChange(id, last, Exiting), TaskDone(id, 0, signal), ChangeRef(op);
    var s1 := Step(s, e1);
    var m1 := ReportedChangeMoves(s, e1, op);
    HitCounts(View(s, ref).value, id);
    StateAfter(s.table, e1);
    if OpenNow(s1, ref) {
      var m2 := ReportedChangeMoves(s1, e2, op);
      HitCounts(View(s1, ref).value, id);
    }
  }

  // ---------------------------------------------------------------- a failure counts twice for SetProperties

  /** An unexpected report reaches every SetProperties operation. */
  lemma AskedSet(t: Table, ops: map<OpId, SP.SetOp>, isNew: bool, e: Event, op: OpId)
    requires op in ops && Asked(t, e)
    ensures op in StepSet(t, ops, isNew, e)
    ensures StepSet(t, ops, isNew, e)[op] == SP.Deliver(ops[op], e.id, SP.Failed(Expendable(t, e)))
  {
  }

  lemma BothAsked(t: Table, id: TaskId, last: DeviceState, exitCode: int, signal: int)
    requires Known(t, id)
    ensures var e1, e2 := StateChange(id, last, Error), TaskDone(id, exitCode, signal);
      && Asked(t, e1) && Asked(StepTable(t, e1), e2)
      && (Expendable(StepTable(t, e1), e2) <==> Expendable(t, e1))
  {
    var e1, e2 := StateChange(id, last, Error), TaskDone(id, exitCode, signal);
    StateAfter(t, e1);
    assert Expendability.RunTable(StepTable(t, e1), []) == StepTable(t, e1);
    Expendability.TableVerdictStable(t, e1, [], e2);
  }

  /** Whenever a device that SetProperties waits for reports Error and its task then ends, the operation counts it
      twice if it was not found expendable, and once if it was, unless the first of the two completed it. */
  lemma FailureCountsTwice(s: Topo, op: OpId, id: TaskId, last: DeviceState, exitCode: int, signal: int)
    requires op in s.setOps && !s.setOps[op].async.completed && Known(s.table, id)
    requires id in s.setOps[op].tasks && id in s.setOps[op].outstanding
    ensures var e := StateChange(id, last, Error);
      var s1 := Step(s, e);
      var s2 := Step(s1, TaskDone(id, exitCode, signal));
      && op in s1.setOps && op in s2.setOps
      && s2.setOps[op] == SP.Deliver(s1.setOps[op], id, SP.Failed(Expendable(s.table, e)))
      && s1.setOps[op] == SP.Deliver(s.setOps[op], id, SP.Failed(Expendable(s.table, e)))
      && (!s1.setOps[op].async.completed ==>
            s2.setOps[op].count == s.setOps[op].count + if Expendable(s.table, e) then 1 else 2)
  {
    var e1, e2 := StateChange(id, last, Error), TaskDone(id, exitCode, signal);
    var s1 := Step(s, e1);
    BothAsked(s.table, id, last, exitCode, signal);
    AskedSet(s.table, s.setOps, Fresh(s, e1), e1, op);
    AskedSet(s1.table, s1.setOps, Fresh(s1, e2), e2, op);
  }

  // ---------------------------------------------------------------- concrete runs of two devices

  function Dev(id: TaskId, expendable: bool, state: DeviceState): DeviceStatus {
    DeviceStatus(false, expendable, false, Undefined, state, id, 0, -1, -1)
  }

  /** Two devices in no collection, the second one expendable or not, and no operation. */
  function TwoDevices(state: DeviceState, expendable: bool): Topo {
    Topo(Table([Dev(1, false, state), Dev(2, expendable, state)], map[1 := 0, 2 := 1], 0, map[], map[], {}),
         map[], map[], map[], map[], map[])
  }

  /** The topology as it is constructed. */
  function Unreported(expendable: bool): Topo {
    TwoDevices(Undefined, expendable)
  }

  lemma UnreportedConstructed(expendable: bool)
    ensures Constructed(Unreported(expendable))
  {
  }

  /** Both devices report the state. */
  function Reports(state: DeviceState): seq<Event> {
    [StateChange(1, Undefined, state), StateChange(2, Undefined, state)]
  }

  lemma BothReport(state: DeviceState, expendable: bool)
    requires !FailedState(state)
    ensures RunFrom(Unreported(expendable), Reports(state)) == TwoDevices(state, expendable)
  {
    var s, r := Unreported(expendable), TwoDevices(state, expendable);
    var s1 := s.(table := s.table.(devices := [Dev(1, false, state), Dev(2, expendable, Undefined)]));
    NoOperations(s, StateChange(1, Undefined, state));
    assert StepTable(s.table, StateChange(1, Undefined, state)) == s1.table;
    NoOperations(s1, StateChange(2, Undefined, state));
    assert StepTable(s1.table, StateChange(2, Undefined, state)) == r.table;
    RunOfTwo(s, s1, r, StateChange(1, Undefined, state), StateChange(2, Undefined, state));
  }

  lemma NoOperations(s: Topo, e: Event)
    requires s.changeOps == map[] && s.waitOps == map[] && s.setOps == map[] && s.getOps == map[]
    requires e.StateChange?
    ensures Step(s, e) == s.(table := StepTable(s.table, e))
  {
  }

  lemma RunExtends(s: Topo, es: seq<Event>, m: Topo, e: Event, r: Topo)
    requires RunFrom(s, es) == m && Step(m, e) == r
    ensures RunFrom(s, es + [e]) == r
  {
    assert (es + [e])[..|es|] == es;
  }

  lemma RunOfTwo(s: Topo, s1: Topo, r: Topo, a: Event, b: Event)
    requires Step(s, a) == s1 && Step(s1, b) == r
    ensures RunFrom(s, [a, b]) == r
  {
    RunExtends(s, [], s, a, s1);
    assert [] + [a] == [a];
    RunExtends(s, [a], s1, b, r);
    assert [a] + [b] == [a, b];
  }

  lemma RunOfThree(s: Topo, s1: Topo, s2: Topo, r: Topo, a: Event, b: Event, c: Event)
    requires Step(s, a) == s1 && Step(s1, b) == s2 && Step(s2, c) == r
    ensures RunFrom(s, [a, b, c]) == r
  {
    RunOfTwo(s, s1, s2, a, b);
    RunExtends(s, [a, b], s2, c, r);
    assert [a, b] + [c] == [a, b, c];
  }

  /** An operation on both devices that has counted `count` reports of them. */
  function Both(count: nat, failed: set<TaskId>, errored: bool, log: seq<Entry>,
                calls: seq<Call<TopoState>>): StateOp<TopoState> {
    StateOp({1, 2}, count, failed, errored, Async(calls != [], calls), {}, {}, log)
  }

  /** Both devices, and one operation on them. */
  function WithOperation(devices: TopoState, target: DeviceState, core: StateOp<TopoState>): Topo {
    Topo(Table(devices, map[1 := 0, 2 := 1], 0, map[], map[], {}), map[7 := ChangeOp(target, core)], map[], map[],
      map[], map[])
  }

  lemma BothAddressed(state: DeviceState, expendable: bool, transition: Transition)
    requires ExpectedState(transition).Some? && ExpectedState(transition).value != state && !FailedState(state)
    ensures Step(TwoDevices(state, expendable), AsyncChangeState(7, transition, {1, 2})) ==
      WithOperation([Dev(1, false, state), Dev(2, expendable, state)], ExpectedState(transition).value,
        Both(0, {}, false, [], []))
  {
    var s, target := TwoDevices(state, expendable), ExpectedState(transition).value;
    var r := Step(s, AsyncChangeState(7, transition, {1, 2}));
    assert GetTasks(s.table, {1, 2}) == {1, 2};
    assert SettledForChange(s.table, target, {1, 2}) == {} && FailedForChange(s.table, target, {1, 2}) == {};
    assert |{1, 2}| == 2;
    assert r.purged == s.purged && r.changeOps == map[7 := BeginChange(s.table, target, {1, 2})];
  }

  lemma ReportToBoth(devices: TopoState, target: DeviceState, core: StateOp<TopoState>, e: Event, after: TopoState)
    requires |devices| == 2 && IsReport(WithOperation(devices, target, core).table, e)
    requires Judged(WithOperation(devices, target, core).table, e) == WithOperation(after, target, core).table
    ensures var t := WithOperation(devices, target, core).table;
      Step(WithOperation(devices, target, core), e) ==
      WithOperation(after, target, Deliver(core, e.id, ChangeEntry(t, ChangeOp(target, core), e).report, after))
  {
    var s, o := WithOperation(devices, target, core), ChangeOp(target, core);
    ReportedChange(s.table, s.changeOps, false, e, 7);
    assert StepChange(s.table, s.changeOps, false, e) == map[7 := StepChange(s.table, s.changeOps, false, e)[7]];
  }

  lemma CountFirst(rep: CountingOp.Report, arg: TopoState)
    requires rep == Hit || rep == Fault(false)
    ensures Deliver(Both(0, {}, false, [], []), 1, rep, arg) ==
      Both(1, if rep == Hit then {} else {1}, rep != Hit, [Entry(1, rep)], [])
  {
    assert |{1, 2}| == 2;
  }

  lemma CountSecond(failed: set<TaskId>, id: TaskId, first: Entry, rep: CountingOp.Report, arg: TopoState)
    requires (rep == Hit && id in {1, 2} && failed == {}) || (rep == Fault(true) && id == 2 && failed == {1})
    ensures Deliver(Both(1, failed, failed != {}, [first], []), id, rep, arg) ==
      Both(2, if rep == Hit then failed else failed + {id}, false, [first, Entry(id, rep)], [Call(NoError, arg)])
  {
    assert |{1, 2}| == 2;
  }

  lemma AfterReports(state: DeviceState, expendable: bool, es: seq<Event>)
    requires !FailedState(state)
    ensures Constructed(Unreported(expendable))
    ensures RunFrom(Unreported(expendable), Reports(state) + es) == RunFrom(TwoDevices(state, expendable), es)
  {
    UnreportedConstructed(expendable);
    BothReport(state, expendable);
    RunContinues(Unreported(expendable), Reports(state), es);
  }

  // ---------------------------------------------------------------- two ordinary runs

  const Exited: DeviceStatus := Dev(1, false, Idle).(lastState := Idle, state := Exiting)
  const Done: DeviceStatus := Exited.(lastState := Exiting, exitCode := 0, signal := 0)

  lemma EndReported()
    ensures Step(WithOperation([Dev(1, false, Idle), Dev(2, false, Idle)], Exiting, Both(0, {}, false, [], [])),
                 StateChange(1, Idle, Exiting)) ==
      WithOperation([Exited, Dev(2, false, Idle)], Exiting, Both(1, {}, false, [Entry(1, Hit)], []))
  {
    var before, after := [Dev(1, false, Idle), Dev(2, false, Idle)], [Exited, Dev(2, false, Idle)];
    CountFirst(Hit, after);
    ReportToBoth(before, Exiting, Both(0, {}, false, [], []), StateChange(1, Idle, Exiting), after);
  }

  lemma EndDone()
    ensures Step(WithOperation([Exited, Dev(2, false, Idle)], Exiting, Both(1, {}, false, [Entry(1, Hit)], [])),
                 TaskDone(1, 0, 0)) ==
      WithOperation([Done, Dev(2, false, Idle)], Exiting,
        Both(2, {}, false, [Entry(1, Hit), Entry(1, Hit)], [Call(NoError, [Done, Dev(2, false, Idle)])]))
  {
    var before, after := [Exited, Dev(2, false, Idle)], [Done, Dev(2, false, Idle)];
    CountSecond({}, 1, Entry(1, Hit), Hit, after);
    ReportToBoth(before, Exiting, Both(1, {}, false, [Entry(1, Hit)], []), TaskDone(1, 0, 0), after);
  }

  const EndEvents: seq<Event> := [AsyncChangeState(7, End, {1, 2}), StateChange(1, Idle, Exiting), TaskDone(1, 0, 0)]

  lemma EndRun()
    ensures RunFrom(TwoDevices(Idle, false), EndEvents) ==
      WithOperation([Done, Dev(2, false, Idle)], Exiting,
        Both(2, {}, false, [Entry(1, Hit), Entry(1, Hit)], [Call(NoError, [Done, Dev(2, false, Idle)])]))
  {
    var s1 := WithOperation([Dev(1, false, Idle), Dev(2, false, Idle)], Exiting, Both(0, {}, false, [], []));
    var s2 := WithOperation([Exited, Dev(2, false, Idle)], Exiting, Both(1, {}, false, [Entry(1, Hit)], []));
    var r := WithOperation([Done, Dev(2, false, Idle)], Exiting,
      Both(2, {}, false, [Entry(1, Hit), Entry(1, Hit)], [Call(NoError, [Done, Dev(2, false, Idle)])]));
    BothAddressed(Idle, false, End);
    EndReported();
    EndDone();
    RunOfThree(TwoDevices(Idle, false), s1, s2, r, EndEvents[0], EndEvents[1], EndEvents[2]);
  }

  /** The operation is completed without error while the second device is idle and has not settled. */
  ghost predicate EndedEarly(r: Topo) {
    && 7 in r.changeOps && CompletedByCount(r.changeOps[7].core)
    && r.changeOps[7].core.async.calls[0].ec == NoError
    && Known(r.table, 2) && Device(r.table, 2).state == Idle && 2 !in Settled(r.changeOps[7].core)
  }

  lemma EndRunEndsEarly()
    ensures EndedEarly(RunFrom(TwoDevices(Idle, false), EndEvents))
  {
    EndRun();
  }

  /** `End` on two devices that have become idle: the first one exits normally, and the operation is completed. */
  lemma EndCompletesEarly()
    ensures Constructed(Unreported(false))
    ensures EndedEarly(RunFrom(Unreported(false), Reports(Idle) + EndEvents))
  {
    AfterReports(Idle, false, EndEvents);
    EndRunEndsEarly();
  }

  lemma SteadyExtends(s: Topo, op: OpId, es: seq<Event>, m: Topo, e: Event)
    requires SteadyRun(s, op, es) && RunFrom(s, es) == m && SteadyStep(m, op, e)
    ensures SteadyRun(s, op, es + [e])
  {
    assert (es + [e])[..|es|] == es;
  }

  /** The device that ended only repeats its outcome. */
  lemma EndStepsSteady()
    ensures SteadyStep(WithOperation([Dev(1, false, Idle), Dev(2, false, Idle)], Exiting, Both(0, {}, false, [], [])),
                       7, StateChange(1, Idle, Exiting))
    ensures SteadyStep(WithOperation([Exited, Dev(2, false, Idle)], Exiting, Both(1, {}, false, [Entry(1, Hit)], [])),
                       7, TaskDone(1, 0, 0))
  {
  }

  /** What is proved of steady runs applies to this run. */
  lemma EndIsSteady()
    ensures Started(TwoDevices(Idle, false), 7, End, {1, 2}) == Step(TwoDevices(Idle, false), EndEvents[0])
    ensures SteadyRun(Started(TwoDevices(Idle, false), 7, End, {1, 2}), 7, EndEvents[1..])
  {
    var s1 := WithOperation([Dev(1, false, Idle), Dev(2, false, Idle)], Exiting, Both(0, {}, false, [], []));
    var s2 := WithOperation([Exited, Dev(2, false, Idle)], Exiting, Both(1, {}, false, [Entry(1, Hit)], []));
    var e1, e2 := EndEvents[1], EndEvents[2];
    BothAddressed(Idle, false, End);
    EndReported();
    EndStepsSteady();
    RunExtends(s1, [], s1, e1, s2);
    SteadyExtends(s1, 7, [], s1, e1);
    SteadyExtends(s1, 7, [] + [e1], s2, e2);
    assert EndEvents[1..] == [] + [e1] + [e2];
  }

  const Failed1: DeviceStatus := Dev(1, false, Running).(lastState := Running, state := Error)
  const Failed2: DeviceStatus := Dev(2, true, Running).(lastState := Running, state := Error, ignored := true)

  lemma HardFailure()
    ensures Step(WithOperation([Dev(1, false, Running), Dev(2, true, Running)], Ready, Both(0, {}, false, [], [])),
                 StateChange(1, Running, Error)) ==
      WithOperation([Failed1, Dev(2, true, Running)], Ready, Both(1, {1}, true, [Entry(1, Fault(false))], []))
  {
    var before, after := [Dev(1, false, Running), Dev(2, true, Running)], [Failed1, Dev(2, true, Running)];
    CountFirst(Fault(false), after);
    ReportToBoth(before, Ready, Both(0, {}, false, [], []), StateChange(1, Running, Error), after);
  }

  lemma ExpendableFailure()
    ensures Step(WithOperation([Failed1, Dev(2, true, Running)], Ready,
      Both(1, {1}, true, [Entry(1, Fault(false))], [])),
                 StateChange(2, Running, Error)) ==
      WithOperation([Failed1, Failed2], Ready,
        Both(2, {1, 2}, false, [Entry(1, Fault(false)), Entry(2, Fault(true))], [Call(NoError, [Failed1, Failed2])]))
  {
    var before, after := [Failed1, Dev(2, true, Running)], [Failed1, Failed2];
    CountSecond({1}, 2, Entry(1, Fault(false)), Fault(true), after);
    assert {1} + {2} == {1, 2};
    ReportToBoth(before, Ready, Both(1, {1}, true, [Entry(1, Fault(false))], []), StateChange(2, Running, Error),
      after);
  }

  const StopEvents: seq<Event> :=
    [AsyncChangeState(7, Stop, {1, 2}), StateChange(1, Running, Error), StateChange(2, Running, Error)]

  lemma StopRun()
    ensures RunFrom(TwoDevices(Running, true), StopEvents) ==
      WithOperation([Failed1, Failed2], Ready,
        Both(2, {1, 2}, false, [Entry(1, Fault(false)), Entry(2, Fault(true))], [Call(NoError, [Failed1, Failed2])]))
  {
    var s1 := WithOperation([Dev(1, false, Running), Dev(2, true, Running)], Ready, Both(0, {}, false, [], []));
    var s2 := WithOperation([Failed1, Dev(2, true, Running)], Ready, Both(1, {1}, true, [Entry(1, Fault(false))], []));
    var r := WithOperation([Failed1, Failed2], Ready,
      Both(2, {1, 2}, false, [Entry(1, Fault(false)), Entry(2, Fault(true))], [Call(NoError, [Failed1, Failed2])]));
    BothAddressed(Running, true, Stop);
    HardFailure();
    ExpendableFailure();
    RunOfThree(TwoDevices(Running, true), s1, s2, r, StopEvents[0], StopEvents[1], StopEvents[2]);
  }

  lemma HiddenHistory()
    ensures var log := [Entry(1, Fault(false)), Entry(2, Fault(true))]; 1 in Hard({}, log) && HiddenAtEnd({}, log)
  {
    var log := [Entry(1, Fault(false)), Entry(2, Fault(true))];
    assert log[..1] == [Entry(1, Fault(false))] && log[..1][..0] == [];
  }

  /** The operation is completed without error although the first device is in Error, not ignored, and known to have
      failed hard. */
  ghost predicate SucceededMasked(r: Topo) {
    && 7 in r.changeOps && CompletedByCount(r.changeOps[7].core)
    && r.changeOps[7].core.async.calls[0].ec == NoError
    && Known(r.table, 1) && Device(r.table, 1).state == Error && !Device(r.table, 1).ignored
    && 1 in Hard(r.changeOps[7].core.startFailed, r.changeOps[7].core.log)
    && HiddenAtEnd(r.changeOps[7].core.startFailed, r.changeOps[7].core.log)
  }

  lemma StopRunSucceeds()
    ensures SucceededMasked(RunFrom(TwoDevices(Running, true), StopEvents))
  {
    StopRun();
    HiddenHistory();
  }

  /** `Stop` on two devices that have become running: both fail, the expendable one last. */
  lemma MaskedFailureSucceeds()
    ensures Constructed(Unreported(true))
    ensures SucceededMasked(RunFrom(Unreported(true), Reports(Running) + StopEvents))
  {
    AfterReports(Running, true, StopEvents);
    StopRunSucceeds();
  }

  const SetEvents: seq<Event> := [AsyncSetProperties(7, {1, 2}), StateChange(1, Running, Error), TaskDone(1, 1, 0)]

  /** The operation before the first report, and after the device has failed. */
  const SetStarted: SP.SetOp := SP.SetOp({1, 2}, 0, {1, 2}, Async(false, []), {}, [])

  lemma SetInitiated()
    ensures var s := Step(TwoDevices(Running, false), SetEvents[0]);
      s.table == TwoDevices(Running, false).table && 7 in s.setOps && s.setOps[7] == SetStarted
  {
    var s := TwoDevices(Running, false);
    assert GetTasks(s.table, {1, 2}) == {1, 2};
    assert FailedForSet(s.table, {1, 2}) == {};
    assert |{1, 2}| == 2;
  }

  lemma SetCounts()
    ensures var e := SP.Entry(1, SP.Failed(false));
      SP.Deliver(SP.Deliver(SetStarted, 1, SP.Failed(false)), 1, SP.Failed(false)) ==
      SP.SetOp({1, 2}, 2, {1, 2}, Async(true, [Call(DeviceSetPropertiesFailed, {1, 2})]), {}, [e, e])
  {
    assert |{1, 2}| == 2;
    var e := SP.Entry(1, SP.Failed(false));
    assert [e] + [e] == [e, e];
  }

  lemma SetTables(t: Table)
    requires t == TwoDevices(Running, false).table
    ensures !Expendable(t, SetEvents[1])
    ensures var u := StepTable(StepTable(t, SetEvents[1]), SetEvents[2]);
      Known(u, 2) && Device(u, 2) == Dev(2, false, Running)
  {
  }

  lemma SetRun()
    ensures var e, r := SP.Entry(1, SP.Failed(false)), RunFrom(TwoDevices(Running, false), SetEvents);
      && 7 in r.setOps
      && r.setOps[7] == SP.SetOp({1, 2}, 2, {1, 2}, Async(true, [Call(DeviceSetPropertiesFailed, {1, 2})]), {}, [e, e])
      && Known(r.table, 2) && Device(r.table, 2) == Dev(2, false, Running)
  {
    var s := TwoDevices(Running, false);
    var s1 := Step(s, SetEvents[0]);
    var s2 := Step(s1, SetEvents[1]);
    SetInitiated();
    SetTables(s1.table);
    FailureCountsTwice(s1, 7, 1, Running, 1, 0);
    SetCounts();
    RunOfThree(s, s1, s2, Step(s2, SetEvents[2]), SetEvents[0], SetEvents[1], SetEvents[2]);
  }

  /** The operation is completed by its count and reports the second device too, which is running and has not
      answered. */
  ghost predicate SetEarly(r: Topo) {
    && 7 in r.setOps && SP.CompletedByCount(r.setOps[7])
    && 2 in r.setOps[7].async.calls[0].arg && 2 !in SP.Answered(r.setOps[7])
    && Known(r.table, 2) && Device(r.table, 2).state == Running
  }

  lemma SetRunIsEarly()
    ensures SetEarly(RunFrom(TwoDevices(Running, false), SetEvents))
  {
    SetRun();
  }

  /** SetProperties on two devices that have become running: the first one fails and its task ends. */
  lemma SetPropertiesCompletesEarly()
    ensures Constructed(Unreported(false))
    ensures SetEarly(RunFrom(Unreported(false), Reports(Running) + SetEvents))
  {
    AfterReports(Running, false, SetEvents);
    SetRunIsEarly();
  }
}
