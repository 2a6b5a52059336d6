/** What the initiations of odc/Topology.h start and erase, said of the device table alone. */
module Initiations {
  import opened Basics
  import opened TopologyDefs
  import opened AsyncOps
  import opened CountingOp
  import opened TopologyModel
  import opened TopologyInvariants
  import opened Handlers
  import opened Deliveries
  import SP = SetPropertiesProtocol
  import GP = GetPropertiesProtocol

  /** Exactly the matched tasks whose device is not ignored. */
  ghost predicate Addresses(t: Table, matched: set<TaskId>, tasks: set<TaskId>)
    requires TableOk(t)
  {
    forall id :: id in tasks <==> id in matched && id in t.index && !t.devices[t.index[id]].ignored
  }

  /** A new operation has counted the tasks in `start`, and is completed if these are all. */
  ghost predicate Begun<T>(o: StateOp<T>, arg: T) {
    && o.count == |o.start| && o.failed == {} && o.log == [] && (o.errored <==> o.startFailed != {})
    && Called(Async(false, []), o.async, o.count == |o.tasks|,
              if o.startFailed != {} then DeviceChangeStateFailed else NoError, arg)
  }

  ghost predicate BegunChange(t: Table, target: DeviceState, matched: set<TaskId>, o: ChangeOp)
    requires TableOk(t)
  {
    && o.target == target && Addresses(t, matched, o.core.tasks) && Begun(o.core, t.devices)
    && forall id :: id in t.index ==>
         var state := t.devices[t.index[id]].state;
         && (id in o.core.start <==> id in o.core.tasks && (state == target || state == Error || state == Exiting))
         && (id in o.core.startFailed <==>
               id in o.core.tasks && state != target && (state == Error || state == Exiting))
  }

  ghost predicate BegunWait(t: Table, targetLast: DeviceState, targetCurrent: DeviceState, matched: set<TaskId>,
                            o: WaitOp)
    requires TableOk(t)
  {
    && o.targetLast == targetLast && o.targetCurrent == targetCurrent
    && Addresses(t, matched, o.core.tasks) && Begun(o.core, ())
    && forall id :: id in t.index ==>
         var d := t.devices[t.index[id]];
         var hit := d.state == targetCurrent && (targetLast == Undefined || d.lastState == targetLast);
         && (id in o.core.start <==> id in o.core.tasks && (hit || d.state == Error || d.state == Exiting))
         && (id in o.core.startFailed <==> id in o.core.tasks && !hit && (d.state == Error || d.state == Exiting))
  }

  ghost predicate BegunSet(t: Table, matched: set<TaskId>, o: SP.SetOp)
    requires TableOk(t)
  {
    && Addresses(t, matched, o.tasks) && o.outstanding == o.tasks && o.count == |o.startBad| && o.log == []
    && Called(Async(false, []), o.async, o.count == |o.tasks|,
              if o.tasks != {} then DeviceSetPropertiesFailed else NoError, o.tasks)
    && forall id :: id in t.index ==>
         var state := t.devices[t.index[id]].state;
         id in o.startBad <==> id in o.tasks && (state == Error || state == Exiting)
  }

  ghost predicate BegunGet(t: Table, matched: set<TaskId>, o: GP.GetOp)
    requires TableOk(t)
  {
    && Addresses(t, matched, o.tasks) && o.count == 0 && o.log == []
    && o.result == GP.GetResult(map[], o.tasks) && o.async == Async(false, [])
  }

  lemma BeginChangeSays(t: Table, target: DeviceState, matched: set<TaskId>)
    requires TableOk(t)
    ensures BegunChange(t, target, matched, BeginChange(t, target, GetTasks(t, matched)))
  {
  }

  lemma BeginWaitSays(t: Table, targetLast: DeviceState, targetCurrent: DeviceState, matched: set<TaskId>)
    requires TableOk(t)
    ensures BegunWait(t, targetLast, targetCurrent, matched,
                      BeginWait(t, targetLast, targetCurrent, GetTasks(t, matched)))
  {
  }

  lemma BeginSetSays(t: Table, matched: set<TaskId>)
    requires TableOk(t)
    ensures BegunSet(t, matched, BeginSet(t, GetTasks(t, matched)))
  {
  }

  // ---------------------------------------------------------------- the four initiations

  /** AsyncChangeState: the completed ChangeState operations are erased, and a new one is entered if the transition
      has an expected state. */
  lemma AsyncChangeStateSays(s: Topo, op: OpId, transition: Transition, matched: set<TaskId>)
    requires TableOk(s.table) && op !in Initiated(s)
    ensures var r := Step(s, AsyncChangeState(op, transition, matched));
      && r == s.(changeOps := r.changeOps, purged := r.purged)
      && (forall k :: k != op ==>
            (k in r.changeOps <==> k in s.changeOps && !s.changeOps[k].core.async.completed) &&
            (k in r.changeOps ==> r.changeOps[k] == s.changeOps[k]))
      && (op in r.changeOps <==> ExpectedState(transition).Some?)
      && (op in r.changeOps ==> BegunChange(s.table, ExpectedState(transition).value, matched, r.changeOps[op]))
  {
    if ExpectedState(transition).Some? {
      BeginChangeSays(s.table, ExpectedState(transition).value, matched);
    }
  }

  lemma AsyncWaitForStateSays(s: Topo, op: OpId, targetLast: DeviceState, targetCurrent: DeviceState,
                              matched: set<TaskId>)
    requires TableOk(s.table) && op !in Initiated(s)
    ensures var r := Step(s, AsyncWaitForState(op, targetLast, targetCurrent, matched));
      && r == s.(waitOps := r.waitOps, purged := r.purged)
      && (forall k :: k != op ==>
            (k in r.waitOps <==> k in s.waitOps && !s.waitOps[k].core.async.completed) &&
            (k in r.waitOps ==> r.waitOps[k] == s.waitOps[k]))
      && op in r.waitOps && BegunWait(s.table, targetLast, targetCurrent, matched, r.waitOps[op])
  {
    BeginWaitSays(s.table, targetLast, targetCurrent, matched);
  }

  /** AsyncSetProperties erases the completed GetProperties operations instead of its own. */
  lemma AsyncSetPropertiesSays(s: Topo, op: OpId, matched: set<TaskId>)
    requires TableOk(s.table) && op !in Initiated(s)
    ensures var r := Step(s, AsyncSetProperties(op, matched));
      && r == s.(setOps := r.setOps, getOps := r.getOps, purged := r.purged)
      && (forall k :: k != op ==>
            (k in r.setOps <==> k in s.setOps) && (k in r.setOps ==> r.setOps[k] == s.setOps[k]))
      && (forall k :: (k in r.getOps <==> k in s.getOps && !s.getOps[k].async.completed) &&
                      (k in r.getOps ==> r.getOps[k] == s.getOps[k]))
      && op in r.setOps && BegunSet(s.table, matched, r.setOps[op])
  {
    BeginSetSays(s.table, matched);
  }

  lemma AsyncGetPropertiesSays(s: Topo, op: OpId, matched: set<TaskId>)
    requires TableOk(s.table) && op !in Initiated(s)
    ensures var r := Step(s, AsyncGetProperties(op, matched));
      && r == s.(getOps := r.getOps, purged := r.purged)
      && (forall k :: k != op ==>
            (k in r.getOps <==> k in s.getOps && !s.getOps[k].async.completed) &&
            (k in r.getOps ==> r.getOps[k] == s.getOps[k]))
      && op in r.getOps && BegunGet(s.table, matched, r.getOps[op])
  {
  }

  /** An initiation with an id that was used before is not one. */
  lemma StaleInitiation(s: Topo, e: Event)
    requires e.AsyncChangeState? || e.AsyncWaitForState? || e.AsyncSetProperties? || e.AsyncGetProperties?
    requires e.op in Initiated(s)
    ensures Step(s, e) == s
  {
  }

  // ---------------------------------------------------------------- ignored devices

  /** The event is a failure of its device. */
  ghost predicate Fails(t: Table, e: Event)
    requires TableOk(t)
  {
    (e.StateChange? || e.TaskDone?) && e.id in t.index &&
    var was := t.devices[t.index[e.id]].state;
    if e.StateChange? then e.current == Error || (e.current == Exiting && was != Idle)
    else (was != Idle && was != Exiting) || e.exitCode > 0
  }

  /** After such a failure the device is ignored if and only if it was let off. */
  lemma IgnoredExactly(t: Table, e: Event)
    requires TableOk(t) && Fails(t, e)
    ensures var u := StepTable(t, e);
      && u.index == t.index && |u.devices| == |t.devices|
      && (u.devices[t.index[e.id]].ignored <==> LetOff(t, t.devices[t.index[e.id]]))
  {
    if e.StateChange? {
      StateChangeReckons(t, e.id, e.last, e.current);
    } else {
      TaskDoneReckons(t, e.id, e.exitCode, e.signal);
    }
  }

  /** The operation `op` of any kind does not address the task. */
  ghost predicate Spares(s: Topo, op: OpId, id: TaskId) {
    && (op in s.changeOps ==> id !in s.changeOps[op].core.tasks)
    && (op in s.waitOps ==> id !in s.waitOps[op].core.tasks)
    && (op in s.setOps ==> id !in s.setOps[op].tasks)
    && (op in s.getOps ==> id !in s.getOps[op].tasks)
  }

  lemma IgnoredIsSpared(s: Topo, a: Event, id: TaskId)
    requires TableOk(s.table) && Fresh(s, a)
    requires id in s.table.index && s.table.devices[s.table.index[id]].ignored
    ensures Spares(Step(s, a), a.op, id)
  {
    match a
    case AsyncChangeState(op, transition, matched) => AsyncChangeStateSays(s, op, transition, matched);
    case AsyncWaitForState(op, last, current, matched) => AsyncWaitForStateSays(s, op, last, current, matched);
    case AsyncSetProperties(op, matched) => AsyncSetPropertiesSays(s, op, matched);
    case AsyncGetProperties(op, matched) => AsyncGetPropertiesSays(s, op, matched);
    case _ =>
  }

  /** Once a failure was let off, whatever happens, no operation initiated later addresses the device. */
  lemma LetOffIsSpared(s: Topo, e: Event, es: seq<Event>, a: Event)
    requires TableOk(s.table) && Fails(s.table, e)
    requires LetOff(s.table, s.table.devices[s.table.index[e.id]])
    requires Fresh(RunFrom(Step(s, e), es), a)
    ensures Spares(Step(RunFrom(Step(s, e), es), a), a.op, e.id)
  {
    var u, r := StepTable(s.table, e), RunFrom(Step(s, e), es);
    IgnoredExactly(s.table, e);
    StepTableEvolves(s.table, e);
    EvolvesKeepsTable(s.table, u);
    RunEvolves(Step(s, e), es);
    EvolvesKeepsTable(u, r.table);
    assert SameDevice(u.devices[u.index[e.id]], r.table.devices[u.index[e.id]]);
    IgnoredIsSpared(r, a, e.id);
  }
}
