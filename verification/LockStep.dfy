/** WaitForState without a last state and ChangeState expecting the same state are the same protocol. */
module LockStep {
  import opened Basics
  import opened TopologyDefs
  import opened AsyncOps
  import opened CountingOp
  import opened TopologyModel
  import opened TopologyInvariants
  import opened NoHang

  /** Both are open or neither is; and as long as both are in their maps they have equal tasks, targets, counters,
      failed set, error flag, history and outcome. Only what the handler is given besides the error code may differ,
      and when a completed one is erased. */
  ghost predicate InStep(s: Topo, change: OpId, wait: OpId) {
    var c, w := View(s, ChangeRef(change)), View(s, WaitRef(wait));
    && change in Initiated(s) && wait in Initiated(s)
    && (OpenNow(s, ChangeRef(change)) <==> OpenNow(s, WaitRef(wait)))
    && (c.Some? && w.Some? ==> c == w)
  }

  /** The event completes an open operation without a report: its own timeout or, for ChangeState, the failed
      transition of an addressed device that is not at the target. */
  ghost predicate Ends(t: Table, ref: Ref, o: WaitOp, e: Event) {
    if ref.WaitRef? then e == WaitTimeout(ref.op)
    else
      || e == ChangeTimeout(ref.op)
      || (e.TransitionStatus? && e.result != ResultOk && Known(t, e.id) && e.id in o.core.tasks &&
          Device(t, e.id).state != o.targetCurrent)
  }

  /** The event ends one of the two while they are open. */
  ghost predicate Separates(s: Topo, change: OpId, wait: OpId, e: Event) {
    && OpenNow(s, ChangeRef(change)) && OpenNow(s, WaitRef(wait))
    && (Ends(s.table, ChangeRef(change), View(s, ChangeRef(change)).value, e) ||
        Ends(s.table, WaitRef(wait), View(s, WaitRef(wait)).value, e))
  }

  ghost predicate NeverSeparated(s: Topo, change: OpId, wait: OpId, es: seq<Event>) {
    es == [] ||
    (NeverSeparated(s, change, wait, es[..|es| - 1]) &&
     !Separates(RunFrom(s, es[..|es| - 1]), change, wait, es[|es| - 1]))
  }

  lemma BeginInStep(t: Table, target: DeviceState, tasks: set<TaskId>)
    ensures ChangeView(BeginChange(t, target, tasks)) == BeginWait(t, Undefined, target, tasks)
  {
    var start, startFailed := SettledForChange(t, target, tasks), FailedForChange(t, target, tasks);
    assert start == SettledForWait(t, Undefined, target, tasks);
    assert startFailed == FailedForWait(t, Undefined, target, tasks);
    EraseTryComplete(StateOp(tasks, |start|, {}, startFailed != {}, Async(false, []), start, startFailed, []),
      t.devices);
  }

  // ---------------------------------------------------------------- one step

  lemma UnreportedChangeExactly(t: Table, ops: map<OpId, ChangeOp>, isNew: bool, e: Event, op: OpId)
    requires op in ops && !ops[op].core.async.completed && !IsReport(t, e)
    requires isNew ==> IsInitiation(e) && e.op !in ops
    ensures op in StepChange(t, ops, isNew, e)
    ensures var p, ends := StepChange(t, ops, isNew, e)[op], Ends(t, ChangeRef(op), ChangeView(ops[op]), e);
      (ends ==> p.core.async.completed) && (!ends ==> p == ops[op])
  {
  }

  lemma UnreportedWaitExactly(t: Table, ops: map<OpId, WaitOp>, isNew: bool, e: Event, op: OpId)
    requires op in ops && !ops[op].core.async.completed && !IsReport(t, e)
    requires isNew ==> IsInitiation(e) && e.op !in ops
    ensures op in StepWait(t, ops, isNew, e)
    ensures var p, ends := StepWait(t, ops, isNew, e)[op], Ends(t, WaitRef(op), ops[op], e);
      (ends ==> p.core.async.completed) && (!ends ==> p == ops[op])
  {
  }

  // An event that is no report ends an open operation or leaves it as it is.

  ghost predicate EndsExactly(s: Topo, e: Event, ref: Ref)
    requires OpenNow(s, ref)
  {
    if Ends(s.table, ref, View(s, ref).value, e) then !OpenNow(Step(s, e), ref)
    else View(Step(s, e), ref) == View(s, ref)
  }

  lemma ChangeEndsExactly(s: Topo, e: Event, op: OpId)
    requires OpenNow(s, ChangeRef(op)) && !IsReport(s.table, e)
    ensures EndsExactly(s, e, ChangeRef(op))
  {
    UnreportedChangeExactly(s.table, s.changeOps, Fresh(s, e), e, op);
  }

  lemma WaitEndsExactly(s: Topo, e: Event, op: OpId)
    requires OpenNow(s, WaitRef(op)) && !IsReport(s.table, e)
    ensures EndsExactly(s, e, WaitRef(op))
  {
    UnreportedWaitExactly(s.table, s.waitOps, Fresh(s, e), e, op);
  }

  lemma EqualViewsInStep(s: Topo, change: OpId, wait: OpId)
    requires change in s.changeOps && wait in s.waitOps && ChangeView(s.changeOps[change]) == s.waitOps[wait]
    ensures InStep(s, change, wait)
  {
  }

  /** A report moves both alike. */
  lemma ReportInStep(s: Topo, e: Event, change: OpId, wait: OpId)
    requires InStep(s, change, wait) && IsReport(s.table, e) && OpenNow(s, ChangeRef(change))
    ensures InStep(Step(s, e), change, wait)
  {
    var m := ViewMoves(s, e, ChangeRef(change));
    var n := ViewMoves(s, e, WaitRef(wait));
    EqualViewsInStep(Step(s, e), change, wait);
  }

  lemma ReportSeparatesNothing(s: Topo, e: Event, change: OpId, wait: OpId)
    requires IsReport(s.table, e)
    ensures !Separates(s, change, wait, e)
  {
  }

  /** Neither is open any more. */
  lemma DoneInStep(s: Topo, e: Event, change: OpId, wait: OpId)
    requires InStep(s, change, wait) && !OpenNow(s, ChangeRef(change))
    ensures InStep(Step(s, e), change, wait) && !Separates(s, change, wait, e)
  {
    var m := ViewMoves(s, e, ChangeRef(change));
    var n := ViewMoves(s, e, WaitRef(wait));
    StepForgetsNothing(s, e);
  }

  lemma UnreportedInStep(s: Topo, e: Event, change: OpId, wait: OpId)
    requires InStep(s, change, wait) && !IsReport(s.table, e) && OpenNow(s, ChangeRef(change))
    ensures InStep(Step(s, e), change, wait) <==> !Separates(s, change, wait, e)
  {
    StepForgetsNothing(s, e);
    ChangeEndsExactly(s, e, change);
    WaitEndsExactly(s, e, wait);
  }

  /** Exactly what takes them out of step: an event that ends one of the two while they are open. */
  lemma StepInStep(s: Topo, e: Event, change: OpId, wait: OpId)
    requires InStep(s, change, wait)
    ensures InStep(Step(s, e), change, wait) <==> !Separates(s, change, wait, e)
  {
    if !OpenNow(s, ChangeRef(change)) {
      DoneInStep(s, e, change, wait);
    } else if IsReport(s.table, e) {
      ReportInStep(s, e, change, wait);
      ReportSeparatesNothing(s, e, change, wait);
    } else {
      UnreportedInStep(s, e, change, wait);
    }
  }

  lemma {:induction false} RunInStep(s: Topo, es: seq<Event>, change: OpId, wait: OpId)
    requires InStep(s, change, wait) && NeverSeparated(s, change, wait, es)
    ensures InStep(RunFrom(s, es), change, wait)
  {
    if es != [] {
      RunInStep(s, es[..|es| - 1], change, wait);
      StepInStep(RunFrom(s, es[..|es| - 1]), es[|es| - 1], change, wait);
    }
  }

  // ---------------------------------------------------------------- whole runs

  /** Lock step: a ChangeState expecting some state and a WaitForState for it, started together on the same tasks,
      keep equal count, failed set, error flag and outcome over every run in which neither is ended by its own
      timeout, or the ChangeState by a failed transition. */
  lemma ChangeAndWaitInLockStep(s: Topo, change: OpId, wait: OpId, transition: Transition, matched: set<TaskId>,
                                es: seq<Event>)
    requires ExpectedState(transition).Some?
    requires change !in Initiated(s) && wait !in Initiated(s) && change != wait
    requires NeverSeparated(BothStarted(s, change, wait, transition, matched), change, wait, es)
    ensures InStep(RunFrom(BothStarted(s, change, wait, transition, matched), es), change, wait)
  {
    NewId(s, AsyncChangeState(change, transition, matched), wait);
    StartedInStep(s, change, wait, transition, matched);
    RunInStep(BothStarted(s, change, wait, transition, matched), es, change, wait);
  }

  ghost function BothStarted(s: Topo, change: OpId, wait: OpId, transition: Transition, matched: set<TaskId>): Topo
    requires ExpectedState(transition).Some?
  {
    Step(Step(s, AsyncChangeState(change, transition, matched)),
         AsyncWaitForState(wait, Undefined, ExpectedState(transition).value, matched))
  }

  lemma StartedInStep(s: Topo, change: OpId, wait: OpId, transition: Transition, matched: set<TaskId>)
    requires ExpectedState(transition).Some? && change !in Initiated(s)
    requires wait !in Initiated(Step(s, AsyncChangeState(change, transition, matched)))
    ensures InStep(BothStarted(s, change, wait, transition, matched), change, wait)
  {
    var target := ExpectedState(transition).value;
    ChangeStarted(s, change, transition, matched);
    WaitStarted(Step(s, AsyncChangeState(change, transition, matched)), wait, Undefined, target, matched);
    BeginInStep(s.table, target, GetTasks(s.table, matched));
    EqualViewsInStep(BothStarted(s, change, wait, transition, matched), change, wait);
  }

  /** An initiation adds at most its own id. */
  lemma NewId(s: Topo, e: Event, op: OpId)
    requires Fresh(s, e) && op !in Initiated(s) && op != e.op
    ensures op !in Initiated(Step(s, e))
  {
    StepOrigin(s, e, op);
  }
}
