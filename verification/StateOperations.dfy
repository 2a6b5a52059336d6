/** The operation objects that count state reports: odc/TopologyOpChangeState.h and
    odc/TopologyOpWaitForState.h. The source hands `mStateData` over by reference; here the table is a
    parameter. */
module StateOperations {
  import opened Basics
  import opened TopologyDefs
  import opened AsyncOps
  import opened CountingOp
  import opened TopologyModel

  method FindTask(tasks: seq<TaskId>, id: TaskId) returns (found: bool)
    ensures found <==> id in Elements(tasks)
  {
    for i := 0 to |tasks|
      invariant id !in tasks[..i]
    {
      if tasks[i] == id {
        return true;
      }
      assert tasks[..i + 1] == tasks[..i] + [tasks[i]];
    }
    assert tasks[..|tasks|] == tasks;
    return false;
  }

  /** The keys of the state index lead to the devices of these tasks. */
  ghost predicate Keyed(stateIndex: map<TaskId, nat>, stateData: TopoState) {
    forall id :: id in stateIndex ==> stateIndex[id] < |stateData| && stateData[stateIndex[id]].taskId == id
  }

  /** The `count_if` over the state index in ChangeStateOp's `ResetCount`: `settled` and `bad` are the
      addressed tasks that count and those that count as failed. */
  method CountForChange(tasks: seq<TaskId>, target: DeviceState, stateIndex: map<TaskId, nat>, stateData: TopoState,
                        ghost settled: set<TaskId>, ghost bad: set<TaskId>)
    returns (n: nat, sawFailure: bool)
    requires Keyed(stateIndex, stateData) && settled <= stateIndex.Keys && bad <= stateIndex.Keys
    requires forall id :: id in stateIndex ==>
      var s := stateData[stateIndex[id]].state;
      && (id in settled <==> id in Elements(tasks) && (s == target || FailedState(s)))
      && (id in bad <==> id in Elements(tasks) && s != target && FailedState(s))
    ensures n == |settled|
    ensures sawFailure <==> bad != {}
  {
    var todo := stateIndex.Keys;
    ghost var done: set<TaskId> := {};
    n, sawFailure := 0, false;
    while todo != {}
      invariant todo <= stateIndex.Keys
      invariant done <= settled && n == |done|
      invariant forall id :: id in stateIndex ==> (id in done <==> id in settled && id !in todo)
      invariant sawFailure <==> exists id :: id in bad && id !in todo
      decreases todo
    {
      var id :| id in todo;
      var device := stateData[stateIndex[id]];
      if id in settled {
        done := done + {id};
      }
      var contains := FindTask(tasks, device.taskId);
      if contains {
        if device.state == target {
          n := n + 1;
        } else if device.state == Error || device.state == Exiting {
          sawFailure := true;
          n := n + 1;
        }
      }
      todo := todo - {id};
    }
    assert done == settled;
  }

  /** The same loop of WaitForStateOp. */
  method CountForWait(tasks: seq<TaskId>, targetLast: DeviceState, targetCurrent: DeviceState,
                      stateIndex: map<TaskId, nat>, stateData: TopoState, ghost settled: set<TaskId>,
                      ghost bad: set<TaskId>)
    returns (n: nat, sawFailure: bool)
    requires Keyed(stateIndex, stateData) && settled <= stateIndex.Keys && bad <= stateIndex.Keys
    requires forall id :: id in stateIndex ==>
      var d := stateData[stateIndex[id]];
      var reached := AtWaitTarget(d.lastState, d.state, targetLast, targetCurrent);
      && (id in settled <==> id in Elements(tasks) && (reached || FailedState(d.state)))
      && (id in bad <==> id in Elements(tasks) && !reached && FailedState(d.state))
    ensures n == |settled|
    ensures sawFailure <==> bad != {}
  {
    var todo := stateIndex.Keys;
    ghost var done: set<TaskId> := {};
    n, sawFailure := 0, false;
    while todo != {}
      invariant todo <= stateIndex.Keys
      invariant done <= settled && n == |done|
      invariant forall id :: id in stateIndex ==> (id in done <==> id in settled && id !in todo)
      invariant sawFailure <==> exists id :: id in bad && id !in todo
      decreases todo
    {
      var id :| id in todo;
      var device := stateData[stateIndex[id]];
      if id in settled {
        done := done + {id};
      }
      var contains := FindTask(tasks, device.taskId);
      if contains {
        if device.state == targetCurrent && (device.lastState == targetLast || targetLast == Undefined) {
          n := n + 1;
        } else if device.state == Error || device.state == Exiting {
          sawFailure := true;
          n := n + 1;
        }
      }
      todo := todo - {id};
    }
    assert done == settled;
  }

  class ChangeStateOp {
    const id: OpId
    const tasks: seq<TaskId>
    const target: DeviceState
    const op: AsioAsyncOp<TopoState>
    var count: nat
    var failed: set<TaskId>
    var errored: bool
    ghost var start: set<TaskId>
    ghost var startFailed: set<TaskId>
    ghost var log: seq<Entry>

    ghost predicate Valid() {
      |Elements(tasks)| == |tasks| && op.owner == id
    }

    ghost function Core(): StateOp<TopoState>
      reads this, op
    {
      StateOp(Elements(tasks), count, failed, errored, op.View(), start, startFailed, log)
    }

    ghost function View(): ChangeOp
      reads this, op
    {
      ChangeOp(target, Core())
    }

    constructor (id: OpId, tasks: seq<TaskId>, target: DeviceState)
      requires |Elements(tasks)| == |tasks|
      ensures Valid() && fresh(op) && this.tasks == tasks && this.id == id
      ensures View() == ChangeOp(target, StateOp(Elements(tasks), 0, {}, false, Async(false, []), {}, {}, []))
    {
      this.id, this.tasks := id, tasks;
      this.target := target;
      count, failed, errored := 0, {}, false;
      start, startFailed, log := {}, {}, [];
      op := new AsioAsyncOp<TopoState>(id);
    }

    method ResetCount(stateIndex: map<TaskId, nat>, stateData: TopoState, ghost t: Table)
      requires Valid() && t.index == stateIndex && t.devices == stateData
      requires Keyed(stateIndex, stateData)
      requires Elements(tasks) <= stateIndex.Keys && !errored
      modifies `count, `errored, `start, `startFailed
      ensures start == SettledForChange(t, target, Elements(tasks)) &&
        startFailed == FailedForChange(t, target, Elements(tasks))
      ensures count == |start| && (errored <==> startFailed != {})
    {
      start, startFailed := SettledForChange(t, target, Elements(tasks)), FailedForChange(t, target, Elements(tasks));
      var n, sawFailure := CountForChange(tasks, target, stateIndex, stateData, start, startFailed);
      if sawFailure {
        errored := true;
      }
      count := n;
    }

    method Update(taskId: TaskId, currentState: DeviceState, expendable: bool, stateData: TopoState)
      requires Valid()
      modifies this, op
      ensures View() == DeliverChange(old(View()), taskId, currentState, expendable, stateData)
    {
      var contains := FindTask(tasks, taskId);
      if !op.IsCompleted() && contains {
        log := log + [Entry(taskId, ChangeReport(target, currentState, expendable))];
        if currentState == target {
          count := count + 1;
        } else if currentState == Error || currentState == Exiting {
          if taskId !in failed {
            errored := if expendable then false else true;
            count := count + 1;
            failed := failed + {taskId};
          }
        }
        assert Core() == Tally(old(Core()), taskId, log[|log| - 1].report).(log := log);
        TryCompletion(stateData);
      }
    }

    method TryCompletion(stateData: TopoState)
      requires Valid()
      modifies op
      ensures View() == old(View()).(core := TryComplete(old(Core()), stateData))
    {
      if !op.IsCompleted() && count == |tasks| {
        if errored {
          var _ := op.Complete(DeviceChangeStateFailed, stateData);
        } else {
          var _ := op.Complete(NoError, stateData);
        }
      }
    }

    /** Completes with an error of the caller's; every caller has checked that the operation is open. */
    method Complete(ec: ErrorCode, stateData: TopoState)
      requires Valid()
      modifies op
      ensures View() == old(View()).(core := Abort(old(Core()), ec, stateData))
    {
      var _ := op.Complete(ec, stateData);
    }

    /** The timer's handler. */
    method Timeout(stateData: TopoState) returns (o: Outcome)
      requires Valid()
      modifies op
      ensures View() == ExpireChange(old(View()), stateData)
      ensures o == if old(op.View().completed) then Threw else Returned
    {
      o := op.Timeout(stateData);
    }
  }

  class WaitForStateOp {
    const id: OpId
    const tasks: seq<TaskId>
    const targetLast: DeviceState
    const targetCurrent: DeviceState
    const op: AsioAsyncOp<()>
    var count: nat
    var failed: set<TaskId>
    var errored: bool
    ghost var start: set<TaskId>
    ghost var startFailed: set<TaskId>
    ghost var log: seq<Entry>

    ghost predicate Valid() {
      |Elements(tasks)| == |tasks| && op.owner == id
    }

    ghost function Core(): StateOp<()>
      reads this, op
    {
      StateOp(Elements(tasks), count, failed, errored, op.View(), start, startFailed, log)
    }

    ghost function View(): WaitOp
      reads this, op
    {
      WaitOp(targetLast, targetCurrent, Core())
    }

    constructor (id: OpId, tasks: seq<TaskId>, targetLast: DeviceState, targetCurrent: DeviceState)
      requires |Elements(tasks)| == |tasks|
      ensures Valid() && fresh(op) && this.tasks == tasks && this.id == id
      ensures View() == WaitOp(targetLast, targetCurrent,
        StateOp(Elements(tasks), 0, {}, false, Async(false, []), {}, {}, []))
    {
      this.id, this.tasks := id, tasks;
      this.targetLast, this.targetCurrent := targetLast, targetCurrent;
      count, failed, errored := 0, {}, false;
      start, startFailed, log := {}, {}, [];
      op := new AsioAsyncOp<()>(id);
    }

    method ResetCount(stateIndex: map<TaskId, nat>, stateData: TopoState, ghost t: Table)
      requires Valid() && t.index == stateIndex && t.devices == stateData
      requires Keyed(stateIndex, stateData)
      requires Elements(tasks) <= stateIndex.Keys && !errored
      modifies `count, `errored, `start, `startFailed
      ensures start == SettledForWait(t, targetLast, targetCurrent, Elements(tasks)) &&
        startFailed == FailedForWait(t, targetLast, targetCurrent, Elements(tasks))
      ensures count == |start| && (errored <==> startFailed != {})
    {
      start := SettledForWait(t, targetLast, targetCurrent, Elements(tasks));
      startFailed := FailedForWait(t, targetLast, targetCurrent, Elements(tasks));
      var n, sawFailure := CountForWait(tasks, targetLast, targetCurrent, stateIndex, stateData, start, startFailed);
      if sawFailure {
        errored := true;
      }
      count := n;
    }

    method Update(taskId: TaskId, lastState: DeviceState, currentState: DeviceState, expendable: bool)
      requires Valid()
      modifies this, op
      ensures View() == DeliverWait(old(View()), taskId, lastState, currentState, expendable)
    {
      var contains := FindTask(tasks, taskId);
      if !op.IsCompleted() && contains {
        log := log + [Entry(taskId, WaitReport(targetLast, targetCurrent, lastState, currentState, expendable))];
        if currentState == targetCurrent && (lastState == targetLast || targetLast == Undefined) {
          count := count + 1;
        } else if currentState == Error || currentState == Exiting {
          if taskId !in failed {
            errored := if expendable then false else true;
            count := count + 1;
            failed := failed + {taskId};
          }
        }
        assert Core() == Tally(old(Core()), taskId, log[|log| - 1].report).(log := log);
        TryCompletion();
      }
    }

    method TryCompletion()
      requires Valid()
      modifies op
      ensures View() == old(View()).(core := TryComplete(old(Core()), ()))
    {
      if !op.IsCompleted() && count == |tasks| {
        if errored {
          var _ := op.Complete(DeviceChangeStateFailed, ());
        } else {
          var _ := op.Complete(NoError, ());
        }
      }
    }

    method Timeout() returns (o: Outcome)
      requires Valid()
      modifies op
      ensures View() == ExpireWait(old(View()))
      ensures o == if old(op.View().completed) then Threw else Returned
    {
      o := op.Timeout(());
    }
  }
}
