/** One state operation through a run: it does not hang once its tasks have settled, and its count is exact as
    long as nothing is counted twice. ChangeState and WaitForState are treated alike: what a ChangeState
    operation does with reports is what a WaitForState operation without a last state does. */
module NoHang {
  import opened Basics
  import opened TopologyDefs
  import opened AsyncOps
  import opened CountingOp
  import opened TopologyModel
  import opened TopologyInvariants

  // ---------------------------------------------------------------- operations of either kind

  /** An operation without what its handler is given besides the error code. */
  ghost function Erase<T>(o: StateOp<T>): StateOp<()> {
    StateOp(o.tasks, o.count, o.failed, o.errored,
      Async(o.async.completed, seq(|o.async.calls|,
        i requires 0 <= i < |o.async.calls| => Call(o.async.calls[i].ec, ()))),
      o.start, o.startFailed, o.log)
  }

  lemma EraseDispatch<T>(o: StateOp<T>, ec: ErrorCode, arg: T)
    ensures Erase(o.(async := Dispatch(o.async, ec, arg))) == Erase(o).(async := Dispatch(Erase(o).async, ec, ()))
  {
  }

  lemma EraseTryComplete<T>(o: StateOp<T>, arg: T)
    ensures Erase(TryComplete(o, arg)) == TryComplete(Erase(o), ())
  {
    EraseDispatch(o, if o.errored then DeviceChangeStateFailed else NoError, arg);
  }

  lemma EraseDeliver<T>(o: StateOp<T>, id: TaskId, rep: CountingOp.Report, arg: T)
    ensures Erase(Deliver(o, id, rep, arg)) == Deliver(Erase(o), id, rep, ())
  {
    EraseTryComplete(Tally(o, id, rep).(log := o.log + [Entry(id, rep)]), arg);
  }

  lemma EraseAbort<T>(o: StateOp<T>, ec: ErrorCode, arg: T)
    ensures Erase(Abort(o, ec, arg)) == Abort(Erase(o), ec, ())
  {
    EraseDispatch(o, ec, arg);
  }

  lemma EraseInv<T>(o: StateOp<T>)
    ensures Inv(o) ==> Inv(Erase(o))
    ensures CompletedByCount(Erase(o)) <==> CompletedByCount(o)
  {
  }

  /** A ChangeState or WaitForState operation. */
  datatype Ref = ChangeRef(op: OpId) | WaitRef(op: OpId)

  ghost function ChangeView(o: ChangeOp): WaitOp {
    WaitOp(Undefined, o.target, Erase(o.core))
  }

  /** The operation as a WaitForState operation. */
  ghost function View(s: Topo, ref: Ref): Option<WaitOp> {
    if ref.ChangeRef? then if ref.op in s.changeOps then Some(ChangeView(s.changeOps[ref.op])) else None
    else if ref.op in s.waitOps then Some(s.waitOps[ref.op]) else None
  }

  ghost predicate OpenNow(s: Topo, ref: Ref) {
    View(s, ref).Some? && !View(s, ref).value.core.async.completed
  }

  /** The report of event `e` as the operation reads it. */
  ghost function EntryOf(t: Table, o: WaitOp, e: Event): Entry
    requires IsReport(t, e)
  {
    var d := NewStatus(Device(t, e.id), e);
    Entry(e.id, WaitReport(o.targetLast, o.targetCurrent, d.lastState, d.state, Expendable(t, e)))
  }

  ghost function ChangeEntry(t: Table, o: ChangeOp, e: Event): Entry
    requires IsReport(t, e)
  {
    Entry(e.id, ChangeReport(o.target, NewStatus(Device(t, e.id), e).state, Expendable(t, e)))
  }

  // ---------------------------------------------------------------- following one operation

  /** The operation took in no report: it is unchanged, or was completed without regard to its count. */
  ghost predicate Unmoved(t: Table, o: ChangeOp, p: ChangeOp) {
    || p == o
    || p == o.(core := Abort(o.core, DeviceChangeStateInvalidTransition, t.devices))
    || p == o.(core := Abort(o.core, OperationTimeout, t.devices))
  }

  lemma ReportedChange(t: Table, ops: map<OpId, ChangeOp>, isNew: bool, e: Event, op: OpId)
    requires op in ops && IsReport(t, e)
    ensures op in StepChange(t, ops, isNew, e)
    ensures StepChange(t, ops, isNew, e)[op] ==
      ops[op].(core := Deliver(ops[op].core, e.id, ChangeEntry(t, ops[op], e).report, Judged(t, e).devices))
  {
  }

  lemma UnreportedChange(t: Table, ops: map<OpId, ChangeOp>, isNew: bool, e: Event, op: OpId)
    requires op in ops && !ops[op].core.async.completed && !IsReport(t, e)
    requires isNew ==> IsInitiation(e) && e.op !in ops
    ensures op in StepChange(t, ops, isNew, e)
    ensures Unmoved(t, ops[op], StepChange(t, ops, isNew, e)[op])
  {
  }

  /** A completed operation stays as it is until it is erased, and its id is not used again. */
  lemma DoneChange(t: Table, ops: map<OpId, ChangeOp>, isNew: bool, e: Event, op: OpId)
    requires op in ops ==> ops[op].core.async.completed
    requires isNew ==> IsInitiation(e) && e.op != op
    ensures op in StepChange(t, ops, isNew, e) ==> op in ops && StepChange(t, ops, isNew, e)[op] == ops[op]
  {
  }

  lemma ReportedWait(t: Table, ops: map<OpId, WaitOp>, isNew: bool, e: Event, op: OpId)
    requires op in ops && IsReport(t, e)
    ensures op in StepWait(t, ops, isNew, e)
    ensures StepWait(t, ops, isNew, e)[op] ==
      ops[op].(core := Deliver(ops[op].core, e.id, EntryOf(t, ops[op], e).report, ()))
  {
  }

  lemma UnreportedWait(t: Table, ops: map<OpId, WaitOp>, isNew: bool, e: Event, op: OpId)
    requires op in ops && !ops[op].core.async.completed && !IsReport(t, e)
    requires isNew ==> IsInitiation(e) && e.op !in ops
    ensures op in StepWait(t, ops, isNew, e)
    ensures var o, p := ops[op], StepWait(t, ops, isNew, e)[op];
      p == o || p == o.(core := Abort(o.core, OperationTimeout, ()))
  {
  }

  lemma DoneWait(t: Table, ops: map<OpId, WaitOp>, isNew: bool, e: Event, op: OpId)
    requires op in ops ==> ops[op].core.async.completed
    requires isNew ==> IsInitiation(e) && e.op != op
    ensures op in StepWait(t, ops, isNew, e) ==> op in ops && StepWait(t, ops, isNew, e)[op] == ops[op]
  {
  }

  /** What a step means for an open operation: it takes in a report, is given up with an error, or rests. */
  datatype Move = Take(entry: Entry) | GiveUp(ec: ErrorCode) | Rest

  ghost function Moved(o: WaitOp, m: Move): WaitOp {
    match m
    case Take(entry) => o.(core := Deliver(o.core, entry.task, entry.report, ()))
    case GiveUp(ec) => o.(core := Abort(o.core, ec, ()))
    case Rest => o
  }

  lemma UnmovedMoves(t: Table, o: ChangeOp, p: ChangeOp) returns (m: Move)
    requires Unmoved(t, o, p)
    ensures ChangeView(p) == Moved(ChangeView(o), m) && !m.Take?
  {
    EraseAbort(o.core, DeviceChangeStateInvalidTransition, t.devices);
    EraseAbort(o.core, OperationTimeout, t.devices);
    if p == o {
      return Rest;
    } else if p == o.(core := Abort(o.core, OperationTimeout, t.devices)) {
      return GiveUp(OperationTimeout);
    } else {
      return GiveUp(DeviceChangeStateInvalidTransition);
    }
  }

  lemma ReportedChangeMoves(s: Topo, e: Event, op: OpId) returns (m: Move)
    requires op in s.changeOps && IsReport(s.table, e)
    ensures m == Take(EntryOf(s.table, ChangeView(s.changeOps[op]), e))
    ensures View(Step(s, e), ChangeRef(op)) == Some(Moved(ChangeView(s.changeOps[op]), m))
  {
    var o := s.changeOps[op];
    m := Take(ChangeEntry(s.table, o, e));
    ReportedChange(s.table, s.changeOps, Fresh(s, e), e, op);
    EraseDeliver(o.core, e.id, m.entry.report, Judged(s.table, e).devices);
  }

  lemma UnreportedChangeMoves(s: Topo, e: Event, op: OpId) returns (m: Move)
    requires op in s.changeOps && !s.changeOps[op].core.async.completed && !IsReport(s.table, e)
    ensures View(Step(s, e), ChangeRef(op)) == Some(Moved(ChangeView(s.changeOps[op]), m)) && !m.Take?
  {
    var p := StepChange(s.table, s.changeOps, Fresh(s, e), e);
    UnreportedChange(s.table, s.changeOps, Fresh(s, e), e, op);
    m := UnmovedMoves(s.table, s.changeOps[op], p[op]);
  }

  lemma OpenWaitMoves(s: Topo, e: Event, op: OpId) returns (m: Move)
    requires OpenNow(s, WaitRef(op))
    ensures View(Step(s, e), WaitRef(op)) == Some(Moved(s.waitOps[op], m))
    ensures if IsReport(s.table, e) then m == Take(EntryOf(s.table, s.waitOps[op], e)) else !m.Take?
  {
    var o, p := s.waitOps[op], StepWait(s.table, s.waitOps, Fresh(s, e), e);
    if IsReport(s.table, e) {
      ReportedWait(s.table, s.waitOps, Fresh(s, e), e, op);
      return Take(EntryOf(s.table, o, e));
    }
    UnreportedWait(s.table, s.waitOps, Fresh(s, e), e, op);
    return if p[op] == o then Rest else GiveUp(OperationTimeout);
  }

  /** An open operation moves; one that is not open stays as it is or is erased. */
  lemma ViewMoves(s: Topo, e: Event, ref: Ref) returns (m: Move)
    requires ref.op in Initiated(s)
    ensures OpenNow(s, ref) ==> View(Step(s, e), ref) == Some(Moved(View(s, ref).value, m))
    ensures OpenNow(s, ref) ==>
      if IsReport(s.table, e) then m == Take(EntryOf(s.table, View(s, ref).value, e)) else !m.Take?
    ensures !OpenNow(s, ref) ==> View(Step(s, e), ref).None? || View(Step(s, e), ref) == View(s, ref)
  {
    m := Rest;
    if OpenNow(s, ref) && ref.ChangeRef? && IsReport(s.table, e) {
      m := ReportedChangeMoves(s, e, ref.op);
    } else if OpenNow(s, ref) && ref.ChangeRef? {
      m := UnreportedChangeMoves(s, e, ref.op);
    } else if OpenNow(s, ref) {
      m := OpenWaitMoves(s, e, ref.op);
    } else if ref.ChangeRef? {
      DoneChange(s.table, s.changeOps, Fresh(s, e), e, ref.op);
    } else {
      DoneWait(s.table, s.waitOps, Fresh(s, e), e, ref.op);
    }
  }

  ghost predicate SameAims(o: WaitOp, p: WaitOp) {
    p.core.tasks == o.core.tasks && p.targetLast == o.targetLast && p.targetCurrent == o.targetCurrent
  }

  lemma MoveKeepsAims(o: WaitOp, m: Move)
    ensures SameAims(o, Moved(o, m))
  {
  }

  /** An operation that is open after a step was open before it, with the same tasks and targets. */
  lemma WasOpen(s: Topo, e: Event, ref: Ref)
    requires ref.op in Initiated(s) && OpenNow(Step(s, e), ref)
    ensures OpenNow(s, ref) && SameAims(View(s, ref).value, View(Step(s, e), ref).value)
  {
    var m := ViewMoves(s, e, ref);
    if OpenNow(s, ref) {
      MoveKeepsAims(View(s, ref).value, m);
    }
  }

  lemma {:induction false} RunKeepsInitiated(s: Topo, es: seq<Event>)
    ensures Initiated(s) <= Initiated(RunFrom(s, es))
  {
    if es != [] {
      RunKeepsInitiated(s, es[..|es| - 1]);
      StepForgetsNothing(RunFrom(s, es[..|es| - 1]), es[|es| - 1]);
    }
  }

  lemma {:induction false} RunWasOpen(s: Topo, es: seq<Event>, ref: Ref)
    requires View(s, ref).Some? && OpenNow(RunFrom(s, es), ref)
    ensures OpenNow(s, ref) && SameAims(View(s, ref).value, View(RunFrom(s, es), ref).value)
  {
    if es != [] {
      RunKeepsInitiated(s, es[..|es| - 1]);
      WasOpen(RunFrom(s, es[..|es| - 1]), es[|es| - 1], ref);
      RunWasOpen(s, es[..|es| - 1], ref);
    }
  }

  lemma ViewInv(s: Topo, ref: Ref)
    requires Good(s) && View(s, ref).Some?
    ensures Inv(View(s, ref).value.core)
  {
    if ref.ChangeRef? {
      assert ChangeOk(s.table, s.changeOps[ref.op]);
      EraseInv(s.changeOps[ref.op].core);
    } else {
      assert WaitOk(s.table, s.waitOps[ref.op]);
    }
  }

  // ---------------------------------------------------------------- no hang

  /** The event is a report by which task `id` settles for an operation with these targets: the end of the
      task, the target state, or a failure. */
  predicate Settles(e: Event, id: TaskId, targetLast: DeviceState, targetCurrent: DeviceState) {
    || (e.TaskDone? && e.id == id)
    || (e.StateChange? && e.id == id &&
      (AtWaitTarget(e.last, e.current, targetLast, targetCurrent) || FailedState(e.current)))
  }

  /** Some event of the run is such a report. */
  ghost predicate SettledIn(es: seq<Event>, id: TaskId, targetLast: DeviceState, targetCurrent: DeviceState) {
    es != [] &&
    (Settles(es[|es| - 1], id, targetLast, targetCurrent) || SettledIn(es[..|es| - 1], id, targetLast, targetCurrent))
  }

  lemma MoveSettles(o: WaitOp, m: Move, x: TaskId)
    requires !o.core.async.completed && x in o.core.tasks
    requires x in Settled(o.core) || (m.Take? && m.entry.task == x && !m.entry.report.Miss?)
    ensures x in Settled(Moved(o, m).core)
  {
    if m.Take? {
      HistoryOfAppend(o.core.log, m.entry);
    }
  }

  lemma StaysKnown(s: Topo, es: seq<Event>, id: TaskId)
    requires Known(s.table, id)
    ensures Known(RunFrom(s, es).table, id)
  {
    RunEvolves(s, es);
  }

  lemma StepSettles(s: Topo, e: Event, ref: Ref, id: TaskId)
    requires ref.op in Initiated(s) && OpenNow(s, ref) && Known(s.table, id) && id in View(s, ref).value.core.tasks
    requires var o := View(s, ref).value; id in Settled(o.core) || Settles(e, id, o.targetLast, o.targetCurrent)
    ensures View(Step(s, e), ref).Some? && id in Settled(View(Step(s, e), ref).value.core)
  {
    var m := ViewMoves(s, e, ref);
    MoveSettles(View(s, ref).value, m, id);
  }

  /** As long as the operation is open, whoever has reported a settling state since is settled. */
  lemma {:induction false} ReportsSettle(s: Topo, es: seq<Event>, ref: Ref, id: TaskId)
    requires View(s, ref).Some? && id in View(s, ref).value.core.tasks && Known(s.table, id)
    requires var o := View(s, ref).value; id in Settled(o.core) || SettledIn(es, id, o.targetLast, o.targetCurrent)
    requires OpenNow(RunFrom(s, es), ref)
    ensures id in Settled(View(RunFrom(s, es), ref).value.core)
  {
    if es != [] {
      var n, o := |es| - 1, View(s, ref).value;
      var m, e := RunFrom(s, es[..n]), es[n];
      RunKeepsInitiated(s, es[..n]);
      WasOpen(m, e, ref);
      RunWasOpen(s, es[..n], ref);
      StaysKnown(s, es[..n], id);
      if id in Settled(o.core) || SettledIn(es[..n], id, o.targetLast, o.targetCurrent) {
        ReportsSettle(s, es[..n], ref, id);
      }
      StepSettles(m, e, ref, id);
    }
  }

  lemma AllTasksSettled(s: Topo, es: seq<Event>, ref: Ref)
    requires View(s, ref).Some? && OpenNow(RunFrom(s, es), ref)
    requires var o := View(s, ref).value;
      forall id :: id in o.core.tasks ==>
        Known(s.table, id) && (id in Settled(o.core) || SettledIn(es, id, o.targetLast, o.targetCurrent))
    ensures var p := View(RunFrom(s, es), ref).value.core; p.tasks <= Settled(p)
  {
    RunWasOpen(s, es, ref);
    forall id | id in View(s, ref).value.core.tasks ensures id in Settled(View(RunFrom(s, es), ref).value.core) {
      ReportsSettle(s, es, ref, id);
    }
  }

  lemma AllSettledIsDone(s: Topo, ref: Ref)
    requires Good(s) && View(s, ref).Some?
    requires View(s, ref).value.core.tasks <= Settled(View(s, ref).value.core)
    ensures !OpenNow(s, ref)
  {
    ViewInv(s, ref);
    AllSettledCompletes(View(s, ref).value.core);
  }

  lemma NeverHangs(s: Topo, es: seq<Event>, ref: Ref)
    requires Good(s) && View(s, ref).Some?
    requires var o := View(s, ref).value;
      forall id :: id in o.core.tasks ==>
        Known(s.table, id) && (id in Settled(o.core) || SettledIn(es, id, o.targetLast, o.targetCurrent))
    ensures !OpenNow(RunFrom(s, es), ref)
  {
    if OpenNow(RunFrom(s, es), ref) {
      RunGood(s, es);
      AllTasksSettled(s, es, ref);
      AllSettledIsDone(RunFrom(s, es), ref);
    }
  }

  /** No hang: once every addressed task has settled, at the start or by any report since, the ChangeState
      operation is completed, however the reports repeat or interleave with anything else. */
  lemma ChangeStateNeverHangs(s: Topo, es: seq<Event>, op: OpId)
    requires Good(s) && op in s.changeOps
    requires forall id :: id in s.changeOps[op].core.tasks ==>
      id in Settled(s.changeOps[op].core) || SettledIn(es, id, Undefined, s.changeOps[op].target)
    ensures op in RunFrom(s, es).changeOps ==> RunFrom(s, es).changeOps[op].core.async.completed
  {
    assert ChangeOk(s.table, s.changeOps[op]);
    assert View(s, ChangeRef(op)).Some?;
    NeverHangs(s, es, ChangeRef(op));
    assert op in RunFrom(s, es).changeOps ==> View(RunFrom(s, es), ChangeRef(op)).Some?;
  }

  /** The same for WaitForState with any pair of target states. */
  lemma WaitForStateNeverHangs(s: Topo, es: seq<Event>, op: OpId)
    requires Good(s) && op in s.waitOps
    requires forall id :: id in s.waitOps[op].core.tasks ==>
      id in Settled(s.waitOps[op].core) || SettledIn(es, id, s.waitOps[op].targetLast, s.waitOps[op].targetCurrent)
    ensures op in RunFrom(s, es).waitOps ==> RunFrom(s, es).waitOps[op].core.async.completed
  {
    assert WaitOk(s.table, s.waitOps[op]);
    assert View(s, WaitRef(op)).Some?;
    NeverHangs(s, es, WaitRef(op));
    assert op in RunFrom(s, es).waitOps ==> View(RunFrom(s, es), WaitRef(op)).Some?;
  }

  // ---------------------------------------------------------------- exact counting

  /** No task is counted twice: a settled task sends no further settling report, except failures of a task
      whose failure has been counted. */
  ghost predicate NoRecountStep(s: Topo, ref: Ref, e: Event) {
    OpenNow(s, ref) && IsReport(s.table, e) && e.id in Settled(View(s, ref).value.core) ==>
      !Counted(View(s, ref).value.core.log, EntryOf(s.table, View(s, ref).value, e))
  }

  ghost predicate NoRecountRun(s: Topo, ref: Ref, es: seq<Event>) {
    es == [] ||
    (NoRecountRun(s, ref, es[..|es| - 1]) && NoRecountStep(RunFrom(s, es[..|es| - 1]), ref, es[|es| - 1]))
  }

  ghost predicate Unrepeated(s: Topo, ref: Ref) {
    View(s, ref).Some? ==> Repeats(View(s, ref).value.core.start, View(s, ref).value.core.log) == 0
  }

  lemma MoveRepeats(o: WaitOp, m: Move)
    requires Repeats(o.core.start, o.core.log) == 0
    requires m.Take? && m.entry.task in Settled(o.core) ==> !Counted(o.core.log, m.entry)
    ensures Repeats(Moved(o, m).core.start, Moved(o, m).core.log) == 0
  {
    if m.Take? {
      CountersOfAppend(o.core.start, o.core.startFailed, o.core.log, m.entry);
    }
  }

  lemma StepUnrepeated(s: Topo, e: Event, ref: Ref)
    requires ref.op in Initiated(s) && NoRecountStep(s, ref, e) && Unrepeated(s, ref)
    ensures Unrepeated(Step(s, e), ref)
  {
    var m := ViewMoves(s, e, ref);
    if OpenNow(s, ref) {
      MoveRepeats(View(s, ref).value, m);
    }
  }

  lemma {:induction false} RunUnrepeated(s: Topo, es: seq<Event>, ref: Ref)
    requires ref.op in Initiated(s) && NoRecountRun(s, ref, es) && Unrepeated(s, ref)
    ensures Unrepeated(RunFrom(s, es), ref)
  {
    if es != [] {
      RunUnrepeated(s, es[..|es| - 1], ref);
      RunKeepsInitiated(s, es[..|es| - 1]);
      StepUnrepeated(RunFrom(s, es[..|es| - 1]), es[|es| - 1], ref);
    }
  }

  /** The count is the number of settled tasks, and the operation was completed by it with the last one only. */
  ghost predicate CountsExactly<T>(o: StateOp<T>) {
    && o.count == |Settled(o)|
    && (CompletedByCount(o) ==> Settled(o) == o.tasks)
    && (!o.async.completed ==> Settled(o) != o.tasks)
  }

  /** Exact counting: as long as no task is counted twice, the count is at every moment the number of distinct
      settled tasks; so completion by count happens at the event that settles the last task and never earlier. */
  lemma CountsExactlyFrom(s: Topo, es: seq<Event>, ref: Ref)
    requires Good(s) && ref.op in Initiated(s) && Unrepeated(s, ref) && NoRecountRun(s, ref, es)
    ensures var r := RunFrom(s, es); View(r, ref).Some? ==> CountsExactly(View(r, ref).value.core)
  {
    var r := RunFrom(s, es);
    RunUnrepeated(s, es, ref);
    RunGood(s, es);
    if View(r, ref).Some? {
      ViewInv(r, ref);
      CountIsSettled(View(r, ref).value.core);
    }
  }

  /** Exact counting for a ChangeState initiated with any transition on any path. */
  lemma ChangeStateCountsExactly(s: Topo, op: OpId, transition: Transition, matched: set<TaskId>, es: seq<Event>)
    requires Good(s) && op !in Initiated(s) && ExpectedState(transition).Some?
    requires NoRecountRun(Step(s, AsyncChangeState(op, transition, matched)), ChangeRef(op), es)
    ensures var r := RunFrom(Step(s, AsyncChangeState(op, transition, matched)), es);
      op in r.changeOps ==> CountsExactly(r.changeOps[op].core)
  {
    var e := AsyncChangeState(op, transition, matched);
    StepGood(s, e);
    ChangeStartsUnrepeated(s, op, transition, matched);
    CountsExactlyFrom(Step(s, e), es, ChangeRef(op));
    var r := RunFrom(Step(s, e), es);
    if op in r.changeOps {
      assert View(r, ChangeRef(op)).value == ChangeView(r.changeOps[op]);
      EraseInv(r.changeOps[op].core);
    }
  }

  /** Exact counting for a WaitForState initiated with any pair of target states on any path. */
  lemma WaitForStateCountsExactly(s: Topo, op: OpId, targetLast: DeviceState, targetCurrent: DeviceState,
                                  matched: set<TaskId>, es: seq<Event>)
    requires Good(s) && op !in Initiated(s)
    requires NoRecountRun(Step(s, AsyncWaitForState(op, targetLast, targetCurrent, matched)), WaitRef(op), es)
    ensures var r := RunFrom(Step(s, AsyncWaitForState(op, targetLast, targetCurrent, matched)), es);
      op in r.waitOps ==> CountsExactly(r.waitOps[op].core)
  {
    var e := AsyncWaitForState(op, targetLast, targetCurrent, matched);
    StepGood(s, e);
    WaitStartsUnrepeated(s, op, targetLast, targetCurrent, matched);
    CountsExactlyFrom(Step(s, e), es, WaitRef(op));
    var r := RunFrom(Step(s, e), es);
    assert op in r.waitOps ==> View(r, WaitRef(op)) == Some(r.waitOps[op]);
  }

  /** A new operation has counted nothing twice. */
  lemma ChangeStartsUnrepeated(s: Topo, op: OpId, transition: Transition, matched: set<TaskId>)
    requires ExpectedState(transition).Some? && op !in Initiated(s)
    ensures var r := Step(s, AsyncChangeState(op, transition, matched));
      op in r.changeOps && Unrepeated(r, ChangeRef(op))
  {
    ChangeStarted(s, op, transition, matched);
  }

  lemma WaitStartsUnrepeated(s: Topo, op: OpId, targetLast: DeviceState, targetCurrent: DeviceState,
                             matched: set<TaskId>)
    requires op !in Initiated(s)
    ensures var r := Step(s, AsyncWaitForState(op, targetLast, targetCurrent, matched));
      op in r.waitOps && Unrepeated(r, WaitRef(op))
  {
    WaitStarted(s, op, targetLast, targetCurrent, matched);
  }
}
