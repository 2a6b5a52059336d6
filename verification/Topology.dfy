/** `BasicTopology` (odc/Topology.h): the object behind the model. Every method here is one critical
    section of the mutex and is shown to do exactly what `Step` says. */
module TopologyObject {
  import opened Basics
  import opened TopologyDefs
  import opened AsyncOps
  import opened CountingOp
  import opened TopologyModel
  import opened TopologyInvariants
  import opened StateOperations
  import opened PropertyOperations
  import opened OperationMaps
  import SP = SetPropertiesProtocol
  import GP = GetPropertiesProtocol

  /** A task of the DDS topology. */
  datatype RuntimeTask = RuntimeTask(id: TaskId, collectionId: CollectionId)

  function NewDevice(task: RuntimeTask, expendable: bool): DeviceStatus {
    DeviceStatus(false, expendable, false, Undefined, Undefined, task.id, task.collectionId, -1, -1)
  }

  ghost predicate Indexed(tasks: seq<RuntimeTask>, n: nat, index: map<TaskId, nat>)
    requires n <= |tasks|
  {
    && (forall j :: 0 <= j < n ==> tasks[j].id in index && index[tasks[j].id] == j)
    && (forall id :: id in index ==> index[id] < n && tasks[index[id]].id == id)
  }

  method CollectDevices(tasks: seq<RuntimeTask>, expendableTasks: set<TaskId>)
    returns (data: TopoState, index: map<TaskId, nat>)
    requires forall i, j :: 0 <= i < j < |tasks| ==> tasks[i].id != tasks[j].id
    ensures |data| == |tasks| && Indexed(tasks, |tasks|, index)
    ensures forall i :: 0 <= i < |tasks| ==> data[i] == NewDevice(tasks[i], tasks[i].id in expendableTasks)
  {
    data, index := [], map[];
    for i := 0 to |tasks|
      invariant |data| == i && Indexed(tasks, i, index)
      invariant forall j :: 0 <= j < i ==> data[j] == NewDevice(tasks[j], tasks[j].id in expendableTasks)
    {
      var expendable := tasks[i].id in expendableTasks;
      data := data + [NewDevice(tasks[i], expendable)];
      index := index[tasks[i].id := i];
    }
  }

  lemma NewTable(tasks: seq<RuntimeTask>, expendableTasks: set<TaskId>, t: Table)
    requires |tasks| < INT32_RANGE && |t.devices| == |tasks| && Indexed(tasks, |tasks|, t.index)
    requires forall i :: 0 <= i < |tasks| ==> t.devices[i] == NewDevice(tasks[i], tasks[i].id in expendableTasks)
    requires forall i :: 0 <= i < |tasks| ==> tasks[i].collectionId == 0 || tasks[i].collectionId in t.names
    requires t.publishers == 0 && t.ignoredCollections == {}
    ensures TableOk(t) && Constructed(Topo(t, map[], map[], map[], map[], map[]))
  {
  }

  method NewDevices(tasks: seq<RuntimeTask>, expendableTasks: set<TaskId>, ghost names: map<CollectionId, string>,
                    ghost info: map<string, CollectionInfo>)
    returns (data: TopoState, index: map<TaskId, nat>)
    requires forall i, j :: 0 <= i < j < |tasks| ==> tasks[i].id != tasks[j].id
    requires forall i :: 0 <= i < |tasks| ==> tasks[i].collectionId == 0 || tasks[i].collectionId in names
    requires |tasks| < INT32_RANGE
    ensures Lists(data, tasks, expendableTasks)
    ensures Constructed(Topo(Table(data, index, 0, names, info, {}), map[], map[], map[], map[], map[]))
  {
    data, index := CollectDevices(tasks, expendableTasks);
    NewTable(tasks, expendableTasks, Table(data, index, 0, names, info, {}));
  }

  /** One device per task, with its id and collection; expendable if the task is among these. */
  ghost predicate Lists(data: TopoState, tasks: seq<RuntimeTask>, expendableTasks: set<TaskId>) {
    |data| == |tasks| &&
    forall i :: 0 <= i < |tasks| ==>
      && data[i].taskId == tasks[i].id && data[i].collectionId == tasks[i].collectionId
      && (data[i].expendable <==> tasks[i].id in expendableTasks)
  }

  lemma DecOf(publishers: nat, k: nat)
    ensures Dec((publishers - k) % UINT32_RANGE) == (publishers - (k + 1)) % UINT32_RANGE
  {
  }

  lemma SubscribedPrefix(devices: TopoState, c: CollectionId, i: nat)
    requires i < |devices|
    ensures SubscribedIn(devices[..i + 1], c) ==
      SubscribedIn(devices[..i], c) + (if devices[i].collectionId == c && devices[i].subscribed then {i} else {})
  {
  }

  /** The counter after the devices before `i` of collection `c` have been taken off. */
  ghost function PublishersLeft(publishers: nat, devices: TopoState, c: CollectionId, i: nat): nat
    requires i <= |devices|
  {
    (publishers - |SubscribedIn(devices[..i], c)|) % UINT32_RANGE
  }

  lemma PublishersStep(publishers: nat, devices: TopoState, c: CollectionId, i: nat)
    requires i < |devices|
    ensures PublishersLeft(publishers, devices, c, i + 1) ==
            if devices[i].collectionId == c && devices[i].subscribed then Dec(PublishersLeft(publishers, devices, c, i))
            else PublishersLeft(publishers, devices, c, i)
  {
    SubscribedPrefix(devices, c, i);
    DecOf(publishers, |SubscribedIn(devices[..i], c)|);
  }

  class Topology {
    var stateData: TopoState
    const stateIndex: map<TaskId, nat>
    var numPublishers: nat                      // unsigned int
    const names: map<CollectionId, string>
    var collectionInfo: map<string, CollectionInfo>
    var changeOps: ChangeMap
    var waitOps: WaitMap
    var setOps: SetMap
    var getOps: GetMap
    ghost var ignoredCollections: set<CollectionId>
    ghost var purged: map<OpId, nat>

    ghost function DeviceTable(): Table
      reads this
    {
      Table(stateData, stateIndex, numPublishers, names, collectionInfo, ignoredCollections)
    }

    ghost function Frame(): set<object>
      reads this
    {
      ChangeFrame(changeOps) + WaitFrame(waitOps) + SetFrame(setOps) + GetFrame(getOps)
    }

    ghost predicate Valid()
      reads this, Frame()
    {
      && TableOk(DeviceTable()) && numPublishers < UINT32_RANGE
      && ChangeValid(changeOps) && WaitValid(waitOps) && SetValid(setOps) && GetValid(getOps)
      && Reach(changeOps, stateIndex)
    }

    /** The value of the object. */
    ghost function Model(): Topo
      reads this, Frame()
    {
      Topo(DeviceTable(), ChangeViews(changeOps), WaitViews(waitOps), SetViews(setOps), GetViews(getOps), purged)
    }

    /** Collects the devices of the DDS topology. */
    constructor (tasks: seq<RuntimeTask>, expendableTasks: set<TaskId>, names: map<CollectionId, string>,
                 collectionInfo: map<string, CollectionInfo>)
      requires forall i, j :: 0 <= i < j < |tasks| ==> tasks[i].id != tasks[j].id
      requires forall i :: 0 <= i < |tasks| ==> tasks[i].collectionId == 0 || tasks[i].collectionId in names
      requires |tasks| < INT32_RANGE
      ensures Valid() && Constructed(Model()) && fresh(Frame())
      ensures this.names == names && this.collectionInfo == collectionInfo
      ensures Lists(stateData, tasks, expendableTasks)
    {
      var data, index := NewDevices(tasks, expendableTasks, names, collectionInfo);
      stateData, stateIndex := data, index;
      numPublishers := 0;
      this.names, this.collectionInfo := names, collectionInfo;
      changeOps, waitOps, setOps, getOps := map[], map[], map[], map[];
      ignoredCollections, purged := {}, map[];
      ghost var t := Table(data, index, 0, names, collectionInfo, {});
      new;
      assert Frame() == {};
      assert Model() == Topo(t, map[], map[], map[], map[], map[]);
    }

    // ---------------------------------------------------------------- IsExpendable

    /** Ignores every device of a collection and takes the subscribed ones off the counter. */
    method IgnoreDevices(c: CollectionId)
      requires numPublishers < UINT32_RANGE
      modifies `stateData, `numPublishers
      ensures stateData == IgnoreCollection(old(stateData), c)
      ensures numPublishers == (old(numPublishers) - |SubscribedIn(old(stateData), c)|) % UINT32_RANGE
    {
      ghost var devices, publishers := stateData, numPublishers;
      assert SubscribedIn(devices[..0], c) == {};
      for i := 0 to |stateData|
        invariant |stateData| == |devices|
        invariant forall j :: 0 <= j < |devices| ==>
          stateData[j] == if j < i && devices[j].collectionId == c then IgnoredDevice(devices[j]) else devices[j]
        invariant numPublishers == PublishersLeft(publishers, devices, c, i)
      {
        PublishersStep(publishers, devices, c, i);
        var d := stateData[i];
        if d.collectionId == c {
          if d.subscribed {
            numPublishers := Dec(numPublishers);
          }
          stateData := stateData[i := d.(subscribed := false, ignored := true)];
        }
      }
      assert devices[..|devices|] == devices;
    }

    /** Whether the failure of the device at position `i` can be disregarded; ignores what has to be ignored then. */
    method IsExpendable(i: nat) returns (r: bool)
      requires i < |stateData| && numPublishers < UINT32_RANGE
      modifies `stateData, `numPublishers, `collectionInfo, `ignoredCollections
      ensures r == Verdict(old(DeviceTable()), old(stateData)[i])
      ensures DeviceTable() == AfterVerdict(old(DeviceTable()), i)
    {
      var device := stateData[i];
      if device.ignored {
        return true;
      }
      if device.expendable {
        stateData := stateData[i := device.(ignored := true)];
        return true;
      }
      if device.collectionId != 0 && device.collectionId in names {
        var name := names[device.collectionId];
        if name in collectionInfo {
          var it := collectionInfo[name];
          it := it.(nCurrent := it.nCurrent - 1);
          collectionInfo := collectionInfo[name := it];
          if it.nMin == 0 {
            return false;
          }
          if it.nCurrent < it.nMin {
            return false;
          }
          IgnoreDevices(device.collectionId);
          ignoredCollections := ignoredCollections + {device.collectionId};
          return true;
        }
      }
      return false;
    }

    // ---------------------------------------------------------------- messages of the devices

    /** Marks a device as subscribed or not and keeps count. */
    method Subscribe(id: TaskId, on: bool)
      requires TableOk(DeviceTable()) && numPublishers < UINT32_RANGE
      modifies `stateData, `numPublishers
      ensures DeviceTable() == SetSubscribed(old(DeviceTable()), id, on)
      ensures TableOk(DeviceTable()) && numPublishers < UINT32_RANGE
    {
      SubscribedTable(DeviceTable(), id, on);
      if id in stateIndex {
        var task := stateData[stateIndex[id]];
        if task.subscribed != on {
          stateData := stateData[stateIndex[id] := task.(subscribed := on)];
          numPublishers := if on then Inc(numPublishers) else Dec(numPublishers);
        }
      }
    }

    method EnterSubscription(id: TaskId, on: bool)
      requires Valid()
      modifies `stateData, `numPublishers
      ensures Valid()
      ensures Model() == old(Model()).(table := SetSubscribed(old(DeviceTable()), id, on))
    {
      Subscribe(id, on);
      KeepAll();
    }

    method HandleSubscription(id: TaskId, result: CmdResult)
      requires Valid()
      modifies `stateData, `numPublishers
      ensures Valid()
      ensures Model() == Step(old(Model()), Subscription(id, result))
    {
      StepOfSubscription(Model(), id, result);
      if result == ResultOk {
        EnterSubscription(id, true);
      }
    }

    method HandleUnsubscription(id: TaskId, result: CmdResult)
      requires Valid()
      modifies `stateData, `numPublishers
      ensures Valid()
      ensures Model() == Step(old(Model()), Unsubscription(id, result))
    {
      StepOfSubscription(Model(), id, result);
      if result == ResultOk {
        EnterSubscription(id, false);
      }
    }

    /** Enters a reported state and judges it if it is a failure. */
    method RecordStateChange(id: TaskId, last: DeviceState, current: DeviceState)
      returns (unexpected: bool, expendable: bool)
      requires TableOk(DeviceTable()) && numPublishers < UINT32_RANGE && id in stateIndex
      modifies `stateData, `numPublishers, `collectionInfo, `ignoredCollections
      ensures var t, e := old(DeviceTable()), StateChange(id, last, current);
        IsReport(t, e) && DeviceTable() == Judged(t, e) && (unexpected <==> Asked(t, e)) &&
          (expendable <==> Expendable(t, e))
    {
      var i := stateIndex[id];
      var lastState := stateData[i].state;
      stateData := stateData[i := stateData[i].(lastState := last, state := current)];
      expendable := false;
      unexpected := current == Error || (current == Exiting && lastState != Idle);
      if unexpected {
        expendable := IsExpendable(i);
      }
    }

    /** Enters the end of a task and judges it unless it was expected. */
    method RecordTaskDone(id: TaskId, exitCode: int, signal: int) returns (unexpected: bool, expendable: bool)
      requires TableOk(DeviceTable()) && numPublishers < UINT32_RANGE && id in stateIndex
      modifies `stateData, `numPublishers, `collectionInfo, `ignoredCollections
      ensures var t, e := old(DeviceTable()), TaskDone(id, exitCode, signal);
        IsReport(t, e) && DeviceTable() == Judged(t, e) && (unexpected <==> Asked(t, e)) &&
          (expendable <==> Expendable(t, e))
    {
      var i := stateIndex[id];
      var device := stateData[i];
      if device.subscribed {
        device := device.(subscribed := false);
        numPublishers := Dec(numPublishers);
      }
      device := device.(exitCode := exitCode, signal := signal, lastState := device.state);
      expendable := false;
      unexpected := (device.lastState != Idle && device.lastState != Exiting) || exitCode > 0;
      stateData := stateData[i := device.(state := if unexpected then Error else Exiting)];
      if unexpected {
        expendable := IsExpendable(i);
      }
    }

    /** The rest of a handler that has entered report `e` in the table `t`. */
    method PublishReport(id: TaskId, last: DeviceState, state: DeviceState, unexpected: bool, expendable: bool,
                         ghost t: Table, ghost e: Event)
      requires ChangeValid(changeOps) && WaitValid(waitOps) && SetValid(setOps)
      requires IsReport(t, e) && e.id == id && DeviceTable() == Judged(t, e)
      requires NewStatus(Device(t, id), e).lastState == last && NewStatus(Device(t, id), e).state == state
      requires (unexpected <==> Asked(t, e)) && (expendable <==> Expendable(t, e))
      modifies ChangeFrame(changeOps), WaitFrame(waitOps), SetFrame(setOps)
      ensures Model() == Informed(old(Model()).(table := t), e)
    {
      Outside();
      Publish(changeOps, waitOps, setOps, getOps, id, last, state, unexpected, expendable, stateData);
    }

    method EnterStateChange(id: TaskId, last: DeviceState, current: DeviceState)
      returns (unexpected: bool, expendable: bool)
      requires Valid() && id in stateIndex
      modifies `stateData, `numPublishers, `collectionInfo, `ignoredCollections
      ensures var t, e := old(DeviceTable()), StateChange(id, last, current);
        && IsReport(t, e) && (unexpected <==> Asked(t, e)) && (expendable <==> Expendable(t, e))
        && Model() == old(Model()).(table := Judged(t, e))
    {
      unexpected, expendable := RecordStateChange(id, last, current);
      KeepAll();
    }

    method InformOfStateChange(id: TaskId, last: DeviceState, current: DeviceState)
      requires Valid() && id in stateIndex
      modifies `stateData, `numPublishers, `collectionInfo, `ignoredCollections
      modifies ChangeFrame(changeOps), WaitFrame(waitOps), SetFrame(setOps)
      ensures Model() == Informed(old(Model()), StateChange(id, last, current))
    {
      Outside();
      ghost var t, e := DeviceTable(), StateChange(id, last, current);
      var unexpected, expendable := EnterStateChange(id, last, current);
      PublishReport(id, last, current, unexpected, expendable, t, e);
    }

    method HandleStateChange(id: TaskId, last: DeviceState, current: DeviceState)
      requires Valid()
      modifies `stateData, `numPublishers, `collectionInfo, `ignoredCollections
      modifies ChangeFrame(changeOps), WaitFrame(waitOps), SetFrame(setOps)
      ensures Valid()
      ensures Model() == Step(old(Model()), StateChange(id, last, current))
    {
      Outside();
      if id in stateIndex {
        StepOfReport(Model(), StateChange(id, last, current));
        InformOfStateChange(id, last, current);
      }
    }

    method EnterTaskDone(id: TaskId, exitCode: int, signal: int) returns (unexpected: bool, expendable: bool)
      requires Valid() && id in stateIndex
      modifies `stateData, `numPublishers, `collectionInfo, `ignoredCollections
      ensures var t, e := old(DeviceTable()), TaskDone(id, exitCode, signal);
        && IsReport(t, e) && (unexpected <==> Asked(t, e)) && (expendable <==> Expendable(t, e))
        && Model() == old(Model()).(table := Judged(t, e))
    {
      unexpected, expendable := RecordTaskDone(id, exitCode, signal);
      KeepAll();
    }

    method InformOfTaskDone(id: TaskId, exitCode: int, signal: int)
      requires Valid() && id in stateIndex
      modifies `stateData, `numPublishers, `collectionInfo, `ignoredCollections
      modifies ChangeFrame(changeOps), WaitFrame(waitOps), SetFrame(setOps)
      ensures Model() == Informed(old(Model()), TaskDone(id, exitCode, signal))
    {
      Outside();
      ghost var t, e := DeviceTable(), TaskDone(id, exitCode, signal);
      var last := stateData[stateIndex[id]].state;
      var unexpected, expendable := EnterTaskDone(id, exitCode, signal);
      PublishReport(id, last, if unexpected then Error else Exiting, unexpected, expendable, t, e);
    }

    method HandleTaskDone(id: TaskId, exitCode: int, signal: int)
      requires Valid()
      modifies `stateData, `numPublishers, `collectionInfo, `ignoredCollections
      modifies ChangeFrame(changeOps), WaitFrame(waitOps), SetFrame(setOps)
      ensures Valid()
      ensures Model() == Step(old(Model()), TaskDone(id, exitCode, signal))
    {
      Outside();
      if id in stateIndex {
        StepOfReport(Model(), TaskDone(id, exitCode, signal));
        InformOfTaskDone(id, exitCode, signal);
      }
    }

    /** A failed transition completes the ChangeState operations that wait for the device. */
    method HandleTransitionStatus(id: TaskId, result: CmdResult)
      requires Valid()
      modifies ChangeFrame(changeOps)
      ensures Valid()
      ensures Model() == Step(old(Model()), TransitionStatus(id, result))
    {
      Outside();
      if result != ResultOk {
        TellFailedTransition(changeOps, waitOps, setOps, getOps, stateIndex, stateData, id, DeviceTable());
      }
    }

    method HandleProperties(op: OpId, id: TaskId, result: CmdResult, props: GP.Props)
      requires Valid()
      modifies GetFrame(getOps)
      ensures Valid()
      ensures Model() == Step(old(Model()), PropertiesReply(op, id, result, props))
    {
      OneOperation(Model(), PropertiesReply(op, id, result, props));
      Outside();
      if op in getOps {
        ReplyGet(changeOps, waitOps, setOps, getOps, op, id, result, props);
      }
    }

    method HandlePropertiesSet(op: OpId, id: TaskId, result: CmdResult)
      requires Valid()
      modifies SetFrame(setOps)
      ensures Valid()
      ensures Model() == Step(old(Model()), PropertiesSet(op, id, result))
    {
      OneOperation(Model(), PropertiesSet(op, id, result));
      Outside();
      if op in setOps {
        ReplySet(changeOps, waitOps, setOps, getOps, op, id, result);
      }
    }

    // ---------------------------------------------------------------- timers

    method ExpireChangeState(op: OpId)
      requires Valid()
      modifies ChangeFrame(changeOps)
      ensures Valid()
      ensures Model() == Step(old(Model()), ChangeTimeout(op))
    {
      OneOperation(Model(), ChangeTimeout(op));
      Outside();
      if op in changeOps {
        TimeoutChange(changeOps, waitOps, setOps, getOps, op, stateData);
      }
    }

    method ExpireWaitForState(op: OpId)
      requires Valid()
      modifies WaitFrame(waitOps)
      ensures Valid()
      ensures Model() == Step(old(Model()), WaitTimeout(op))
    {
      OneOperation(Model(), WaitTimeout(op));
      Outside();
      if op in waitOps {
        TimeoutWait(changeOps, waitOps, setOps, getOps, op);
      }
    }

    method ExpireSetProperties(op: OpId)
      requires Valid()
      modifies SetFrame(setOps)
      ensures Valid()
      ensures Model() == Step(old(Model()), SetTimeout(op))
    {
      OneOperation(Model(), SetTimeout(op));
      Outside();
      if op in setOps {
        TimeoutSet(changeOps, waitOps, setOps, getOps, op);
      }
    }

    method ExpireGetProperties(op: OpId)
      requires Valid()
      modifies GetFrame(getOps)
      ensures Valid()
      ensures Model() == Step(old(Model()), GetTimeout(op))
    {
      OneOperation(Model(), GetTimeout(op));
      Outside();
      if op in getOps {
        TimeoutGet(changeOps, waitOps, setOps, getOps, op);
      }
    }

    // ---------------------------------------------------------------- initiations

    /** The matched tasks that are not ignored. */
    method CollectTasks(matched: seq<TaskId>) returns (list: seq<TaskId>)
      requires TableOk(DeviceTable()) && Distinct(matched) && Elements(matched) <= stateIndex.Keys
      ensures forall id :: id in list <==> id in matched && !stateData[stateIndex[id]].ignored
      ensures Elements(list) == GetTasks(DeviceTable(), Elements(matched)) && |Elements(list)| == |list|
      ensures Model() == old(Model())
    {
      list := [];
      for i := 0 to |matched|
        invariant Distinct(list)
        invariant forall id :: id in list <==> id in matched[..i] && !stateData[stateIndex[id]].ignored
      {
        assert matched[i] in Elements(matched);
        assert matched[..i + 1] == matched[..i] + [matched[i]];
        var ds := stateData[stateIndex[matched[i]]];
        if !ds.ignored {
          list := list + [matched[i]];
        }
      }
      assert matched[..|matched|] == matched;
      DistinctCardinality(list);
      KeepAll();
    }

    /** Records what is erased, for the model only. */
    ghost method NotePurged(gone: map<OpId, nat>)
      modifies `purged
      ensures purged == gone && Model() == old(Model()).(purged := gone)
    {
      purged := gone;
      KeepChange(changeOps);
      KeepWait(waitOps);
      KeepSet(setOps);
      KeepGet(getOps);
    }

    method AssignChangeOps(ops: ChangeMap)
      requires Valid() && ChangeValid(ops) && Reach(ops, stateIndex)
      modifies `changeOps
      ensures Valid()
      ensures Model() == old(Model()).(changeOps := old(ChangeViews(ops)))
      ensures changeOps == ops
    {
      changeOps := ops;
      KeepChange(ops);
      KeepWait(waitOps);
      KeepSet(setOps);
      KeepGet(getOps);
    }

    /** Erases the completed ChangeState operations. */
    method PurgeChangeState()
      requires Valid()
      modifies `changeOps
      ensures Valid()
      ensures Model() == old(Model()).(changeOps := OpenChange(old(ChangeViews(changeOps))))
      ensures forall k :: k in changeOps ==> k in old(changeOps) && changeOps[k] == old(changeOps)[k]
    {
      var open := PurgeChangeOps(changeOps);
      KeepChange(open);
      KeepAll();
      AssignChangeOps(open);
    }

    /** Enters a new ChangeState operation. */
    method EnterChangeState(op: OpId, tasks: seq<TaskId>, target: DeviceState)
      requires Valid() && |Elements(tasks)| == |tasks| && Elements(tasks) <= stateIndex.Keys
      modifies `changeOps
      ensures Valid()
      ensures Model() == old(Model()).(changeOps :=
        old(ChangeViews(changeOps))[op := BeginChange(DeviceTable(), target, Elements(tasks))])
      ensures op in changeOps && fresh(changeOps[op]) && fresh(changeOps[op].op)
      ensures forall k :: k in changeOps && k != op ==> k in old(changeOps) && changeOps[k] == old(changeOps)[k]
    {
      assert Keyed(stateIndex, stateData);
      var more := AddChange(changeOps, waitOps, setOps, getOps, op, tasks, target, stateIndex, stateData,
        DeviceTable());
      AssignChangeOps(more);
    }

    method AsyncChangeState(op: OpId, transition: Transition, matched: seq<TaskId>) returns (o: Outcome)
      requires Valid() && op !in Initiated(Model())
      requires Distinct(matched) && Elements(matched) <= stateIndex.Keys
      modifies `changeOps, `purged
      ensures Valid()
      ensures Model() == Step(old(Model()), TopologyModel.AsyncChangeState(op, transition, Elements(matched)))
      ensures o == if ExpectedState(transition).Some? then Returned else Threw
      ensures o == Returned ==> op in changeOps && fresh(changeOps[op]) && fresh(changeOps[op].op)
      ensures forall k :: k in changeOps && k != op ==> k in old(changeOps) && changeOps[k] == old(changeOps)[k]
    {
      ghost var e := TopologyModel.AsyncChangeState(op, transition, Elements(matched));
      ghost var gone := StepPurged(Model(), true, e);
      Outside();
      StepOfChangeState(Model(), e);
      PurgeChangeState();
      NotePurged(gone);
      var tasks := CollectTasks(matched);
      if ExpectedState(transition).None? {
        return Threw;
      }
      EnterChangeState(op, tasks, ExpectedState(transition).value);
      return Returned;
    }

    method AssignWaitOps(ops: WaitMap)
      requires Valid() && WaitValid(ops)
      modifies `waitOps
      ensures Valid()
      ensures Model() == old(Model()).(waitOps := old(WaitViews(ops)))
      ensures waitOps == ops
    {
      waitOps := ops;
      KeepWait(ops);
      KeepChange(changeOps);
      KeepSet(setOps);
      KeepGet(getOps);
    }

    /** Erases the completed WaitForState operations. */
    method PurgeWaitForState()
      requires Valid()
      modifies `waitOps
      ensures Valid()
      ensures Model() == old(Model()).(waitOps := OpenWait(old(WaitViews(waitOps))))
      ensures forall k :: k in waitOps ==> k in old(waitOps) && waitOps[k] == old(waitOps)[k]
    {
      var open := PurgeWaitOps(waitOps);
      KeepWait(open);
      KeepAll();
      AssignWaitOps(open);
    }

    method EnterWaitForState(op: OpId, tasks: seq<TaskId>, targetLast: DeviceState, targetCurrent: DeviceState)
      requires Valid() && |Elements(tasks)| == |tasks| && Elements(tasks) <= stateIndex.Keys
      modifies `waitOps
      ensures Valid()
      ensures Model() == old(Model()).(waitOps :=
        old(WaitViews(waitOps))[op := BeginWait(DeviceTable(), targetLast, targetCurrent, Elements(tasks))])
      ensures op in waitOps && fresh(waitOps[op]) && fresh(waitOps[op].op)
      ensures forall k :: k in waitOps && k != op ==> k in old(waitOps) && waitOps[k] == old(waitOps)[k]
    {
      assert Keyed(stateIndex, stateData);
      var more := AddWait(changeOps, waitOps, setOps, getOps, op, tasks, targetLast, targetCurrent, stateIndex,
        stateData, DeviceTable());
      AssignWaitOps(more);
    }

    method AsyncWaitForState(op: OpId, targetLast: DeviceState, targetCurrent: DeviceState, matched: seq<TaskId>)
      requires Valid() && op !in Initiated(Model())
      requires Distinct(matched) && Elements(matched) <= stateIndex.Keys
      modifies `waitOps, `purged
      ensures Valid()
      ensures Model() == Step(old(Model()),
        TopologyModel.AsyncWaitForState(op, targetLast, targetCurrent, Elements(matched)))
      ensures op in waitOps && fresh(waitOps[op]) && fresh(waitOps[op].op)
      ensures forall k :: k in waitOps && k != op ==> k in old(waitOps) && waitOps[k] == old(waitOps)[k]
    {
      ghost var e := TopologyModel.AsyncWaitForState(op, targetLast, targetCurrent, Elements(matched));
      ghost var gone := StepPurged(Model(), true, e);
      Outside();
      StepOfWaitForState(Model(), e);
      PurgeWaitForState();
      NotePurged(gone);
      var tasks := CollectTasks(matched);
      EnterWaitForState(op, tasks, targetLast, targetCurrent);
    }

    method AssignGetOps(ops: GetMap)
      requires Valid() && GetValid(ops)
      modifies `getOps
      ensures Valid()
      ensures Model() == old(Model()).(getOps := old(GetViews(ops)))
      ensures getOps == ops
    {
      getOps := ops;
      KeepGet(ops);
      KeepChange(changeOps);
      KeepWait(waitOps);
      KeepSet(setOps);
    }

    /** Erases the completed GetProperties operations. */
    method PurgeGetProperties()
      requires Valid()
      modifies `getOps
      ensures Valid()
      ensures Model() == old(Model()).(getOps := OpenGet(old(GetViews(getOps))))
      ensures forall k :: k in getOps ==> k in old(getOps) && getOps[k] == old(getOps)[k]
    {
      var open := PurgeGetOps(getOps);
      KeepGet(open);
      KeepAll();
      AssignGetOps(open);
    }

    method EnterGetProperties(op: OpId, tasks: seq<TaskId>)
      requires Valid() && |Elements(tasks)| == |tasks| && Elements(tasks) <= stateIndex.Keys
      modifies `getOps
      ensures Valid()
      ensures Model() == old(Model()).(getOps := old(GetViews(getOps))[op := GP.Begin(Elements(tasks))])
      ensures op in getOps && fresh(getOps[op]) && fresh(getOps[op].op)
      ensures forall k :: k in getOps && k != op ==> k in old(getOps) && getOps[k] == old(getOps)[k]
    {
      var more := AddGet(changeOps, waitOps, setOps, getOps, op, tasks);
      AssignGetOps(more);
    }

    method AsyncGetProperties(op: OpId, matched: seq<TaskId>)
      requires Valid() && op !in Initiated(Model())
      requires Distinct(matched) && Elements(matched) <= stateIndex.Keys
      modifies `getOps, `purged
      ensures Valid()
      ensures Model() == Step(old(Model()), TopologyModel.AsyncGetProperties(op, Elements(matched)))
      ensures op in getOps && fresh(getOps[op]) && fresh(getOps[op].op)
      ensures forall k :: k in getOps && k != op ==> k in old(getOps) && getOps[k] == old(getOps)[k]
    {
      ghost var e := TopologyModel.AsyncGetProperties(op, Elements(matched));
      ghost var gone := StepPurged(Model(), true, e);
      Outside();
      StepOfGetProperties(Model(), e);
      PurgeGetProperties();
      NotePurged(gone);
      var tasks := CollectTasks(matched);
      EnterGetProperties(op, tasks);
    }

    method AssignSetOps(ops: SetMap)
      requires Valid() && SetValid(ops)
      modifies `setOps
      ensures Valid()
      ensures Model() == old(Model()).(setOps := old(SetViews(ops)))
      ensures setOps == ops
    {
      setOps := ops;
      KeepSet(ops);
      KeepChange(changeOps);
      KeepWait(waitOps);
      KeepGet(getOps);
    }

    method EnterSetProperties(op: OpId, tasks: seq<TaskId>)
      requires Valid() && |Elements(tasks)| == |tasks| && Elements(tasks) <= stateIndex.Keys
      modifies `setOps
      ensures Valid()
      ensures Model() == old(Model()).(setOps := old(SetViews(setOps))[op := BeginSet(DeviceTable(), Elements(tasks))])
      ensures op in setOps && fresh(setOps[op]) && fresh(setOps[op].op)
      ensures forall k :: k in setOps && k != op ==> k in old(setOps) && setOps[k] == old(setOps)[k]
    {
      assert Keyed(stateIndex, stateData);
      var more := AddSet(changeOps, waitOps, setOps, getOps, op, tasks, stateIndex, stateData, DeviceTable());
      AssignSetOps(more);
    }

    /** Erases the completed GetProperties operations, as the source does, and enters a SetProperties operation. */
    method AsyncSetProperties(op: OpId, matched: seq<TaskId>)
      requires Valid() && op !in Initiated(Model())
      requires Distinct(matched) && Elements(matched) <= stateIndex.Keys
      modifies `setOps, `getOps, `purged
      ensures Valid()
      ensures Model() == Step(old(Model()), TopologyModel.AsyncSetProperties(op, Elements(matched)))
      ensures op in setOps && fresh(setOps[op]) && fresh(setOps[op].op)
      ensures forall k :: k in setOps && k != op ==> k in old(setOps) && setOps[k] == old(setOps)[k]
    {
      ghost var e := TopologyModel.AsyncSetProperties(op, Elements(matched));
      ghost var gone := StepPurged(Model(), true, e);
      Outside();
      StepOfSetProperties(Model(), e);
      PurgeGetProperties();
      NotePurged(gone);
      var tasks := CollectTasks(matched);
      EnterSetProperties(op, tasks);
    }

    /** The operations do not contain the topology. */
    lemma Outside()
      ensures this !in ChangeFrame(changeOps) && this !in WaitFrame(waitOps) && this !in SetFrame(setOps) &&
        this !in GetFrame(getOps)
    {
    }

    twostate lemma KeepAll()
      requires changeOps == old(changeOps) && waitOps == old(waitOps) && setOps == old(setOps) && getOps == old(getOps)
      requires forall k :: k in changeOps ==> unchanged(changeOps[k]) && unchanged(changeOps[k].op)
      requires forall k :: k in waitOps ==> unchanged(waitOps[k]) && unchanged(waitOps[k].op)
      requires forall k :: k in setOps ==> unchanged(setOps[k]) && unchanged(setOps[k].op)
      requires forall k :: k in getOps ==> unchanged(getOps[k]) && unchanged(getOps[k].op)
      ensures ChangeViews(changeOps) == old(ChangeViews(changeOps))
      ensures WaitViews(waitOps) == old(WaitViews(waitOps))
      ensures SetViews(setOps) == old(SetViews(setOps))
      ensures GetViews(getOps) == old(GetViews(getOps))
    {
      KeepChange(changeOps);
      KeepWait(waitOps);
      KeepSet(setOps);
      KeepGet(getOps);
    }
  }

  lemma TableAfter(t: Table, e: Event)
    requires TableOk(t) && t.publishers < UINT32_RANGE
    ensures TableOk(StepTable(t, e)) && StepTable(t, e).publishers < UINT32_RANGE
  {
    StepTableEvolves(t, e);
    EvolvesKeepsTable(t, StepTable(t, e));
  }

  lemma StepOfSubscription(s: Topo, id: TaskId, result: CmdResult)
    ensures Step(s, Subscription(id, result)) ==
      s.(table := if result == ResultOk then SetSubscribed(s.table, id, true) else s.table)
    ensures Step(s, Unsubscription(id, result)) ==
      s.(table := if result == ResultOk then SetSubscribed(s.table, id, false) else s.table)
  {
  }

  lemma SubscribedTable(t: Table, id: TaskId, on: bool)
    requires TableOk(t) && t.publishers < UINT32_RANGE
    ensures TableOk(SetSubscribed(t, id, on)) && SetSubscribed(t, id, on).publishers < UINT32_RANGE
  {
    TableAfter(t, if on then Subscription(id, ResultOk) else Unsubscription(id, ResultOk));
  }

  /** The state after a report, in the terms of its parts. */
  ghost function Informed(s: Topo, e: Event): Topo
    requires IsReport(s.table, e)
  {
    var t, d := s.table, NewStatus(Device(s.table, e.id), e);
    Topo(Judged(t, e),
      DeliverChanges(s.changeOps, e.id, d.state, Expendable(t, e), Judged(t, e).devices),
      DeliverWaits(s.waitOps, e.id, d.lastState, d.state, Expendable(t, e)),
      if Asked(t, e) then DeliverSets(s.setOps, e.id, Expendable(t, e)) else s.setOps,
      s.getOps, s.purged)
  }

  lemma StepOfReport(s: Topo, e: Event)
    requires IsReport(s.table, e)
    ensures Step(s, e) == Informed(s, e)
    ensures TableOk(s.table) && s.table.publishers < UINT32_RANGE ==>
      TableOk(Informed(s, e).table) && Informed(s, e).table.publishers < UINT32_RANGE
  {
    if TableOk(s.table) && s.table.publishers < UINT32_RANGE {
      TableAfter(s.table, e);
    }
  }

  /** Timeouts and replies reach one operation only. */
  lemma OneOperation(s: Topo, e: Event)
    ensures e.ChangeTimeout? ==>
      Step(s, e) == s.(changeOps := if e.op in s.changeOps
        then s.changeOps[e.op := ExpireChange(s.changeOps[e.op], s.table.devices)] else s.changeOps)
    ensures e.WaitTimeout? ==>
      Step(s, e) == s.(waitOps := if e.op in s.waitOps then s.waitOps[e.op := ExpireWait(s.waitOps[e.op])]
        else s.waitOps)
    ensures e.SetTimeout? ==>
      Step(s, e) == s.(setOps := if e.op in s.setOps then s.setOps[e.op := SP.Abort(s.setOps[e.op], OperationTimeout)]
        else s.setOps)
    ensures e.GetTimeout? ==>
      Step(s, e) == s.(getOps := if e.op in s.getOps then s.getOps[e.op := GP.Abort(s.getOps[e.op], OperationTimeout)]
        else s.getOps)
    ensures e.PropertiesSet? ==>
      Step(s, e) == s.(setOps := if e.op in s.setOps
        then s.setOps[e.op := SP.Deliver(s.setOps[e.op], e.id, SetReply(e.result))] else s.setOps)
    ensures e.PropertiesReply? ==>
      Step(s, e) == s.(getOps := if e.op in s.getOps
        then s.getOps[e.op := GP.Deliver(s.getOps[e.op], e.id, e.result == ResultOk, e.props)] else s.getOps)
  {
  }

  lemma StepOfChangeState(s: Topo, e: Event)
    requires e.AsyncChangeState? && e.op !in Initiated(s)
    ensures Step(s, e) == s.(
      changeOps := if ExpectedState(e.transition).None? then OpenChange(s.changeOps)
                   else OpenChange(s.changeOps)[e.op :=
                     BeginChange(s.table, ExpectedState(e.transition).value, GetTasks(s.table, e.matched))],
      purged := StepPurged(s, true, e))
  {
  }

  lemma StepOfWaitForState(s: Topo, e: Event)
    requires e.AsyncWaitForState? && e.op !in Initiated(s)
    ensures Step(s, e) == s.(
      waitOps := OpenWait(s.waitOps)[e.op :=
        BeginWait(s.table, e.targetLast, e.targetCurrent, GetTasks(s.table, e.matched))],
      purged := StepPurged(s, true, e))
  {
  }

  lemma StepOfGetProperties(s: Topo, e: Event)
    requires e.AsyncGetProperties? && e.op !in Initiated(s)
    ensures Step(s, e) == s.(
      getOps := OpenGet(s.getOps)[e.op := GP.Begin(GetTasks(s.table, e.matched))],
      purged := StepPurged(s, true, e))
  {
  }

  lemma StepOfSetProperties(s: Topo, e: Event)
    requires e.AsyncSetProperties? && e.op !in Initiated(s)
    ensures Step(s, e) == s.(
      setOps := s.setOps[e.op := BeginSet(s.table, GetTasks(s.table, e.matched))],
      getOps := OpenGet(s.getOps),
      purged := StepPurged(s, true, e))
  {
  }
}
