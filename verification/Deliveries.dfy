/** What the handlers of odc/Topology.h make of the operations in flight, said of their fields alone. */
module Deliveries {
  import opened Basics
  import opened TopologyDefs
  import opened AsyncOps
  import opened CountingOp
  import opened TopologyModel
  import opened TopologyInvariants
  import opened Handlers
  import SP = SetPropertiesProtocol
  import GP = GetPropertiesProtocol

  /** A handler call was added if the operation is done, and none otherwise. */
  ghost predicate Called<T>(a: Async<T>, b: Async<T>, done: bool, ec: ErrorCode, arg: T) {
    b == if done then Async(true, a.calls + [Call(ec, arg)]) else a
  }

  // ---------------------------------------------------------------- reports

  /** `p` is `o` after a report of task `id` that is a hit, a failure, or neither. A hit counts each time, a failure
      once per task, and the flag is that of the last failure that counted. */
  ghost predicate Heard<T>(o: StateOp<T>, p: StateOp<T>, id: TaskId, hit: bool, failure: bool, letOff: bool, arg: T) {
    if o.async.completed || id !in o.tasks then p == o
    else
      var first := !hit && failure && id !in o.failed;
      && p.tasks == o.tasks && p.start == o.start && p.startFailed == o.startFailed
      && p.count == o.count + (if hit || first then 1 else 0)
      && p.failed == o.failed + (if first then {id} else {})
      && p.errored == (if first then !letOff else o.errored)
      && Called(o.async, p.async, p.count == |o.tasks|,
                if p.errored then DeviceChangeStateFailed else NoError, arg)
  }

  /** `p` is `o` after an answer of task `id`, an acknowledgement or a failure. */
  ghost predicate Answered(o: SP.SetOp, p: SP.SetOp, id: TaskId, acked: bool, letOff: bool) {
    if o.async.completed || id !in o.tasks then p == o
    else
      && p.tasks == o.tasks && p.startBad == o.startBad
      && p.count == o.count + (if acked || id in o.outstanding then 1 else 0)
      && (forall x :: x in p.outstanding <==> x in o.outstanding && !(x == id && (acked || letOff)))
      && Called(o.async, p.async, p.count == |o.tasks|,
                if p.outstanding != {} then DeviceSetPropertiesFailed else NoError, p.outstanding)
  }

  /** A report with these states reaches the operation `op` of any kind. */
  ghost predicate Informs(s: Topo, r: Topo, id: TaskId, last: DeviceState, current: DeviceState, failed: bool,
                          letOff: bool, op: OpId)
  {
    var failure := current == Error || current == Exiting;
    && r.getOps == s.getOps && r.purged == s.purged
    && (op in r.changeOps <==> op in s.changeOps)
    && (op in r.changeOps ==>
          var o, p := s.changeOps[op], r.changeOps[op];
          p.target == o.target && Heard(o.core, p.core, id, current == o.target, failure, letOff, r.table.devices))
    && (op in r.waitOps <==> op in s.waitOps)
    && (op in r.waitOps ==>
          var o, p := s.waitOps[op], r.waitOps[op];
          var hit := current == o.targetCurrent && (o.targetLast == Undefined || last == o.targetLast);
          && p.targetLast == o.targetLast && p.targetCurrent == o.targetCurrent
          && Heard(o.core, p.core, id, hit, failure, letOff, ()))
    && (op in r.setOps <==> op in s.setOps)
    && (op in r.setOps ==>
          if failed then Answered(s.setOps[op], r.setOps[op], id, false, letOff) else r.setOps[op] == s.setOps[op])
  }

  lemma DeliverHeard<T>(o: StateOp<T>, id: TaskId, rep: CountingOp.Report, arg: T)
    ensures Heard(o, Deliver(o, id, rep, arg), id, rep.Hit?, rep.Fault?, rep.Fault? && rep.expendable, arg)
  {
  }

  lemma DeliverAnswered(o: SP.SetOp, id: TaskId, reply: SP.Reply)
    ensures Answered(o, SP.Deliver(o, id, reply), id, reply.Acked?, reply.Failed? && reply.expendable)
  {
  }

  lemma ChangeInformed(t: Table, ops: map<OpId, ChangeOp>, isNew: bool, e: Event, op: OpId)
    requires IsReport(t, e)
    ensures op in StepChange(t, ops, isNew, e) <==> op in ops
    ensures op in ops ==>
      var o, p := ops[op], StepChange(t, ops, isNew, e)[op];
      var current := NewStatus(Device(t, e.id), e).state;
      && p.target == o.target
      && Heard(o.core, p.core, e.id, current == o.target, current == Error || current == Exiting, Expendable(t, e),
               Judged(t, e).devices)
  {
    if op in ops {
      var current := NewStatus(Device(t, e.id), e).state;
      DeliverHeard(ops[op].core, e.id, ChangeReport(ops[op].target, current, Expendable(t, e)), Judged(t, e).devices);
    }
  }

  lemma WaitInformed(t: Table, ops: map<OpId, WaitOp>, isNew: bool, e: Event, op: OpId)
    requires IsReport(t, e)
    ensures op in StepWait(t, ops, isNew, e) <==> op in ops
    ensures op in ops ==>
      var o, p, d := ops[op], StepWait(t, ops, isNew, e)[op], NewStatus(Device(t, e.id), e);
      var hit := d.state == o.targetCurrent && (o.targetLast == Undefined || d.lastState == o.targetLast);
      && p.targetLast == o.targetLast && p.targetCurrent == o.targetCurrent
      && Heard(o.core, p.core, e.id, hit, d.state == Error || d.state == Exiting, Expendable(t, e), ())
  {
    if op in ops {
      var o, d := ops[op], NewStatus(Device(t, e.id), e);
      DeliverHeard(o.core, e.id, WaitReport(o.targetLast, o.targetCurrent, d.lastState, d.state, Expendable(t, e)), ());
    }
  }

  lemma SetInformed(t: Table, ops: map<OpId, SP.SetOp>, isNew: bool, e: Event, op: OpId)
    requires IsReport(t, e)
    ensures op in StepSet(t, ops, isNew, e) <==> op in ops
    ensures op in ops ==>
      if Asked(t, e) then Answered(ops[op], StepSet(t, ops, isNew, e)[op], e.id, false, Expendable(t, e))
      else StepSet(t, ops, isNew, e)[op] == ops[op]
  {
    if op in ops {
      DeliverAnswered(ops[op], e.id, SP.Failed(Expendable(t, e)));
    }
  }

  lemma Informed(s: Topo, e: Event, op: OpId)
    requires IsReport(s.table, e)
    ensures var d := NewStatus(Device(s.table, e.id), e);
      Informs(s, Step(s, e), e.id, d.lastState, d.state, Asked(s.table, e), Expendable(s.table, e), op)
  {
    ChangeInformed(s.table, s.changeOps, Fresh(s, e), e, op);
    WaitInformed(s.table, s.waitOps, Fresh(s, e), e, op);
    SetInformed(s.table, s.setOps, Fresh(s, e), e, op);
  }

  /** Who hears of a state change: every ChangeState and WaitForState operation that is open and addressed the
      device, with the reported states; SetProperties operations only of a failure, and GetProperties operations not
      at all. */
  lemma StateChangeInforms(s: Topo, id: TaskId, last: DeviceState, current: DeviceState, op: OpId)
    requires TableOk(s.table) && id in s.table.index
    ensures var d := s.table.devices[s.table.index[id]];
      var failed := current == Error || (current == Exiting && d.state != Idle);
      Informs(s, Step(s, StateChange(id, last, current)), id, last, current, failed,
              failed && LetOff(s.table, d), op)
  {
    Informed(s, StateChange(id, last, current), op);
  }

  /** Who hears of the end of a task: the same, with the state the device was in and the one it was given. */
  lemma TaskDoneInforms(s: Topo, id: TaskId, exitCode: int, signal: int, op: OpId)
    requires TableOk(s.table) && id in s.table.index
    ensures var d := s.table.devices[s.table.index[id]];
      var failed := (d.state != Idle && d.state != Exiting) || exitCode > 0;
      Informs(s, Step(s, TaskDone(id, exitCode, signal)), id, d.state, if failed then Error else Exiting, failed,
              failed && LetOff(s.table, d), op)
  {
    Informed(s, TaskDone(id, exitCode, signal), op);
  }

  /** A report of an unknown task changes nothing. */
  lemma UnknownTask(s: Topo, e: Event)
    requires (e.StateChange? || e.TaskDone?) && e.id !in s.table.index
    ensures Step(s, e) == s
  {
  }

  // ---------------------------------------------------------------- failed transitions and timeouts

  /** Given up: completed at once with this code, whatever was counted. */
  ghost predicate GivenUp<T>(o: StateOp<T>, p: StateOp<T>, ec: ErrorCode, arg: T) {
    p == if o.async.completed then o else o.(async := Async(true, o.async.calls + [Call(ec, arg)]))
  }

  /** A device that could not make a transition: the ChangeState operations that wait for it are given up as invalid
      unless the device is at their target; nothing else happens, and nothing at all if it could. */
  lemma TransitionStatusSays(s: Topo, id: TaskId, result: CmdResult, op: OpId)
    requires TableOk(s.table)
    ensures var r := Step(s, TransitionStatus(id, result));
      && r == s.(changeOps := r.changeOps)
      && (op in r.changeOps <==> op in s.changeOps)
      && (op in r.changeOps ==>
            var o, p := s.changeOps[op], r.changeOps[op];
            if result == ResultFailure && id in s.table.index && id in o.core.tasks &&
               s.table.devices[s.table.index[id]].state != o.target
              then p.target == o.target &&
                   GivenUp(o.core, p.core, DeviceChangeStateInvalidTransition, s.table.devices)
              else p == o)
  {
  }

  lemma ChangeTimeoutSays(s: Topo, op: OpId, k: OpId)
    ensures var r := Step(s, ChangeTimeout(op));
      && r == s.(changeOps := r.changeOps)
      && (k in r.changeOps <==> k in s.changeOps)
      && (k in r.changeOps ==>
            var o, p := s.changeOps[k], r.changeOps[k];
            if k == op then p.target == o.target && GivenUp(o.core, p.core, OperationTimeout, s.table.devices)
            else p == o)
  {
  }

  lemma WaitTimeoutSays(s: Topo, op: OpId, k: OpId)
    ensures var r := Step(s, WaitTimeout(op));
      && r == s.(waitOps := r.waitOps)
      && (k in r.waitOps <==> k in s.waitOps)
      && (k in r.waitOps ==>
            var o, p := s.waitOps[k], r.waitOps[k];
            if k == op
              then p.targetLast == o.targetLast && p.targetCurrent == o.targetCurrent &&
                   GivenUp(o.core, p.core, OperationTimeout, ())
              else p == o)
  {
  }

  /** A SetProperties that times out reports the devices that have not answered well. */
  lemma SetTimeoutSays(s: Topo, op: OpId, k: OpId)
    ensures var r := Step(s, SetTimeout(op));
      && r == s.(setOps := r.setOps)
      && (k in r.setOps <==> k in s.setOps)
      && (k in r.setOps ==>
            var o := s.setOps[k];
            r.setOps[k] ==
              if k == op && !o.async.completed
                then o.(async := Async(true, o.async.calls + [Call(OperationTimeout, o.outstanding)]))
                else o)
  {
  }

  /** A GetProperties that times out hands over what it has. */
  lemma GetTimeoutSays(s: Topo, op: OpId, k: OpId)
    ensures var r := Step(s, GetTimeout(op));
      && r == s.(getOps := r.getOps)
      && (k in r.getOps <==> k in s.getOps)
      && (k in r.getOps ==>
            var o := s.getOps[k];
            r.getOps[k] ==
              if k == op && !o.async.completed
                then o.(async := Async(true, o.async.calls + [Call(OperationTimeout, o.result)]))
                else o)
  {
  }

  // ---------------------------------------------------------------- replies

  /** A reply to SetProperties: an acknowledgement takes the device off the outstanding ones and counts; a failure
      counts only for an outstanding device, which stays outstanding. */
  lemma PropertiesSetSays(s: Topo, op: OpId, id: TaskId, result: CmdResult, k: OpId)
    ensures var r := Step(s, PropertiesSet(op, id, result));
      && r == s.(setOps := r.setOps)
      && (k in r.setOps <==> k in s.setOps)
      && (k in r.setOps ==>
            if k == op then Answered(s.setOps[k], r.setOps[k], id, result == ResultOk, false)
            else r.setOps[k] == s.setOps[k])
  {
    if op in s.setOps {
      DeliverAnswered(s.setOps[op], id, SetReply(result));
    }
  }

  /** `p` is `o` after a reply to GetProperties: the first properties of a device count, every reply is counted in
      32 bits, and the result is handed over when as many have come as devices were addressed. */
  ghost predicate Replied(o: GP.GetOp, p: GP.GetOp, id: TaskId, good: bool, props: GP.Props) {
    var devices := if good && id !in o.result.devices then o.result.devices[id := props] else o.result.devices;
    var result := GP.GetResult(devices, if good then o.result.failed - {id} else o.result.failed);
    var count := if o.count == UINT32_RANGE - 1 then 0 else o.count + 1;
    var done := !o.async.completed && count == |o.tasks|;
    && p.tasks == o.tasks && p.count == count
    && Called(o.async, p.async, done,
              if result.failed != {} then DeviceGetPropertiesFailed else NoError, result)
    && p.result == if done then GP.GetResult(map[], {}) else result
  }

  lemma DeliverReplied(o: GP.GetOp, id: TaskId, good: bool, props: GP.Props)
    requires o.count < UINT32_RANGE
    ensures Replied(o, GP.Deliver(o, id, good, props), id, good, props)
  {
  }

  lemma PropertiesReplySays(s: Topo, op: OpId, id: TaskId, result: CmdResult, props: GP.Props, k: OpId)
    requires k in s.getOps ==> s.getOps[k].count < UINT32_RANGE
    ensures var r := Step(s, PropertiesReply(op, id, result, props));
      && r == s.(getOps := r.getOps)
      && (k in r.getOps <==> k in s.getOps)
      && (k in r.getOps ==>
            if k == op then Replied(s.getOps[k], r.getOps[k], id, result == ResultOk, props)
            else r.getOps[k] == s.getOps[k])
  {
    if k == op && k in s.getOps {
      DeliverReplied(s.getOps[op], id, result == ResultOk, props);
    }
  }
}
