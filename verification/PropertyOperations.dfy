/** The operation objects that count replies of the devices: odc/TopologyOpSetProperties.h and
    odc/TopologyOpGetProperties.h. */
module PropertyOperations {
  import opened Basics
  import opened TopologyDefs
  import opened AsyncOps
  import opened TopologyModel
  import opened StateOperations
  import SP = SetPropertiesProtocol
  import GP = GetPropertiesProtocol

  method CountFailed(tasks: seq<TaskId>, stateIndex: map<TaskId, nat>, stateData: TopoState, ghost bad: set<TaskId>)
    returns (count: nat, outstanding: set<TaskId>)
    requires |Elements(tasks)| == |tasks| && bad <= Elements(tasks)
    requires forall id :: id in tasks ==> id in stateIndex && stateIndex[id] < |stateData|
    requires forall id :: id in tasks ==> (id in bad <==> FailedState(stateData[stateIndex[id]].state))
    ensures count == |bad| && outstanding == Elements(tasks)
  {
    count, outstanding := 0, {};
    for i := 0 to |tasks|
      invariant outstanding == Elements(tasks[..i])
      invariant count == |bad * Elements(tasks[..i])|
    {
      CommonGrows(tasks, bad, i);
      var ds := stateData[stateIndex[tasks[i]]];
      if ds.state == Error || ds.state == Exiting {
        count := count + 1;
      }
      outstanding := outstanding + {tasks[i]};
    }
    assert tasks[..|tasks|] == tasks;
    assert bad * Elements(tasks) == bad;
  }

  lemma CommonGrows(tasks: seq<TaskId>, bad: set<TaskId>, i: nat)
    requires |Elements(tasks)| == |tasks| && i < |tasks|
    ensures Elements(tasks[..i + 1]) == Elements(tasks[..i]) + {tasks[i]}
    ensures |bad * Elements(tasks[..i + 1])| == |bad * Elements(tasks[..i])| + if tasks[i] in bad then 1 else 0
  {
    NewElement(tasks, i);
    var before := bad * Elements(tasks[..i]);
    assert bad * Elements(tasks[..i + 1]) == before + if tasks[i] in bad then {tasks[i]} else {};
  }

  class SetPropertiesOp {
    const id: OpId
    const tasks: seq<TaskId>
    const op: AsioAsyncOp<set<TaskId>>
    var count: nat
    var outstanding: set<TaskId>
    ghost var startBad: set<TaskId>
    ghost var log: seq<SP.Entry>

    ghost predicate Valid() {
      |Elements(tasks)| == |tasks| && op.owner == id
    }

    ghost function View(): SP.SetOp
      reads this, op
    {
      SP.SetOp(Elements(tasks), count, outstanding, op.View(), startBad, log)
    }

    constructor (id: OpId, tasks: seq<TaskId>)
      requires |Elements(tasks)| == |tasks|
      ensures Valid() && fresh(op) && this.tasks == tasks && this.id == id
      ensures View() == SP.SetOp(Elements(tasks), 0, {}, Async(false, []), {}, [])
    {
      this.id, this.tasks := id, tasks;
      count, outstanding := 0, {};
      startBad, log := {}, [];
      op := new AsioAsyncOp<set<TaskId>>(id);
    }

    /** Counts the tasks found failed, which are those in `bad`, and lists every task as outstanding. */
    method ResetCount(stateIndex: map<TaskId, nat>, stateData: TopoState, ghost bad: set<TaskId>)
      requires Valid() && count == 0 && outstanding == {}
      requires bad <= Elements(tasks) && forall id :: id in tasks ==> id in stateIndex && stateIndex[id] < |stateData|
      requires forall id :: id in tasks ==> (id in bad <==> FailedState(stateData[stateIndex[id]].state))
      modifies `count, `outstanding, `startBad
      ensures startBad == bad && count == |bad| && outstanding == Elements(tasks)
    {
      count, outstanding := CountFailed(tasks, stateIndex, stateData, bad);
      startBad := bad;
    }

    method Update(taskId: TaskId, result: CmdResult, expendable: bool)
      requires Valid()
      modifies this, op
      ensures View() == SP.Deliver(old(View()), taskId, if result == ResultOk then SP.Acked else SP.Failed(expendable))
    {
      var contains := FindTask(tasks, taskId);
      if !op.IsCompleted() && contains {
        log := log + [SP.Entry(taskId, if result == ResultOk then SP.Acked else SP.Failed(expendable))];
        if result == ResultOk {
          outstanding := outstanding - {taskId};
          count := count + 1;
        } else if taskId in outstanding {
          if expendable {
            outstanding := outstanding - {taskId};
          }
          count := count + 1;
        }
        TryCompletion();
      }
    }

    method TryCompletion()
      requires Valid()
      modifies op
      ensures View() == SP.TryComplete(old(View()))
    {
      if !op.IsCompleted() && count == |tasks| {
        if outstanding != {} {
          var _ := op.Complete(DeviceSetPropertiesFailed, outstanding);
        } else {
          var _ := op.Complete(NoError, outstanding);
        }
      }
    }

    /** The timer's handler. */
    method Timeout() returns (o: Outcome)
      requires Valid()
      modifies op
      ensures View() == SP.Abort(old(View()), OperationTimeout)
      ensures o == if old(op.View().completed) then Threw else Returned
    {
      o := op.Timeout(outstanding);
    }
  }

  class GetPropertiesOp {
    const id: OpId
    const tasks: seq<TaskId>
    const op: AsioAsyncOp<GP.GetResult>
    var count: nat
    var devices: map<TaskId, GP.Props>
    var failed: set<TaskId>
    ghost var log: seq<GP.Entry>

    ghost predicate Valid() {
      |Elements(tasks)| == |tasks| && op.owner == id
    }

    ghost function View(): GP.GetOp
      reads this, op
    {
      GP.GetOp(Elements(tasks), count, GP.GetResult(devices, failed), op.View(), log)
    }

    constructor (id: OpId, tasks: seq<TaskId>)
      requires |Elements(tasks)| == |tasks|
      ensures Valid() && fresh(op) && this.tasks == tasks && this.id == id
      ensures View() == GP.Begin(Elements(tasks))
    {
      this.id, this.tasks := id, tasks;
      count, devices, failed := 0, map[], {};
      log := [];
      op := new AsioAsyncOp<GP.GetResult>(id);
      new;
      for i := 0 to |tasks|
        invariant fresh(op) && op.owner == id && count == 0 && devices == map[] && log == [] &&
          op.View() == Async(false, [])
        invariant failed == Elements(tasks[..i])
      {
        assert tasks[..i + 1] == tasks[..i] + [tasks[i]];
        ElementsOfAppend(tasks[..i], tasks[i]);
        failed := failed + {tasks[i]};
      }
      assert tasks[..|tasks|] == tasks;
    }

    method Update(taskId: TaskId, result: CmdResult, props: GP.Props)
      requires Valid()
      modifies this, op
      ensures View() == GP.Deliver(old(View()), taskId, result == ResultOk, props)
    {
      log := if op.IsCompleted() then log else log + [GP.Entry(taskId, result == ResultOk, props)];
      if result == ResultOk {
        failed := failed - {taskId};
        if taskId !in devices {
          devices := devices[taskId := props];
        }
      }
      count := (count + 1) % UINT32_RANGE;
      TryCompletion();
    }

    /** The result is moved to the handler. */
    method TryCompletion()
      requires Valid()
      modifies this, op
      ensures View() == GP.TryComplete(old(View()))
    {
      if !op.IsCompleted() && count == |tasks| {
        if failed != {} {
          var _ := op.Complete(DeviceGetPropertiesFailed, GP.GetResult(devices, failed));
        } else {
          var _ := op.Complete(NoError, GP.GetResult(devices, failed));
        }
        devices, failed := map[], {};
      }
    }

    method Timeout() returns (o: Outcome)
      requires Valid()
      modifies op
      ensures View() == GP.Abort(old(View()), OperationTimeout)
      ensures o == if old(op.View().completed) then Threw else Returned
    {
      o := op.Timeout(GP.GetResult(devices, failed));
    }
  }

  lemma NewElement(s: seq<TaskId>, i: nat)
    requires |Elements(s)| == |s| && i < |s|
    ensures Elements(s[..i + 1]) == Elements(s[..i]) + {s[i]}
    ensures s[i] !in Elements(s[..i])
  {
    assert s[..i + 1] == s[..i] + [s[i]];
    ElementsOfAppend(s[..i], s[i]);
    if s[i] in s[..i] {
      var j :| 0 <= j < i && s[j] == s[i];
      TwoPositions(s, j, i);
      PigeonholeOnce(s, s[i]);
    }
  }
}
