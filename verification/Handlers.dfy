/** What each handler of odc/Topology.h does to the device table, said of the entries of the table alone. */
module Handlers {
  import opened Basics
  import opened TopologyDefs
  import opened TopologyModel
  import opened TopologyInvariants

  /** The failure of device `d` takes an instance off the count of its collection. */
  ghost predicate TakesInstance(t: Table, d: DeviceStatus) {
    && !d.ignored && !d.expendable
    && d.collectionId != 0 && d.collectionId in t.names && t.names[d.collectionId] in t.info
  }

  /** And there are enough of them to do without that instance. */
  ghost predicate InstanceSpared(t: Table, d: DeviceStatus) {
    TakesInstance(t, d) &&
    var c := t.info[t.names[d.collectionId]];
    c.nMin != 0 && c.nCurrent > c.nMin
  }

  /** The failure is not held against the operations. */
  ghost predicate LetOff(t: Table, d: DeviceStatus) {
    d.ignored || d.expendable || InstanceSpared(t, d)
  }

  /** `u` is `t` after a report of the device at `i`, a failure or not, the end of its task or not. */
  ghost predicate Reckoned(t: Table, i: nat, failed: bool, ended: bool, u: Table)
    requires i < |t.devices|
  {
    var d := t.devices[i];
    var whole := failed && InstanceSpared(t, d);
    && u.index == t.index && u.names == t.names && |u.devices| == |t.devices|
    && u.info == (
         if failed && TakesInstance(t, d)
           then var c := t.names[d.collectionId]; t.info[c := t.info[c].(nCurrent := t.info[c].nCurrent - 1)]
           else t.info)
    && u.ignoredCollections == t.ignoredCollections + (if whole then {d.collectionId} else {})
    && forall j :: 0 <= j < |t.devices| ==>
         var x, y := t.devices[j], u.devices[j];
         var gone := whole && x.collectionId == d.collectionId;
         && y.taskId == x.taskId && y.collectionId == x.collectionId && y.expendable == x.expendable
         && (y.ignored <==> x.ignored || gone || (j == i && failed && d.expendable))
         && (y.subscribed <==> x.subscribed && !gone && !(j == i && ended))
         && (j != i ==> y.state == x.state && y.lastState == x.lastState && y.exitCode == x.exitCode &&
                        y.signal == x.signal)
  }

  lemma VerdictReckoned(t: Table, i: nat)
    requires i < |t.devices|
    ensures var d, x := t.devices[i], AfterVerdict(t, i).devices[i];
      && Reckoned(t, i, true, false, AfterVerdict(t, i))
      && x.state == d.state && x.lastState == d.lastState && x.exitCode == d.exitCode && x.signal == d.signal
  {
  }

  /** What was entered for device `i` before the verdict does not bear on it. */
  lemma ReckonedBefore(t: Table, i: nat, d: DeviceStatus, publishers: nat, failed: bool, ended: bool, u: Table)
    requires i < |t.devices|
    requires d == t.devices[i].(subscribed := d.subscribed, state := d.state, lastState := d.lastState,
                                exitCode := d.exitCode, signal := d.signal)
    requires d.subscribed <==> t.devices[i].subscribed && !ended
    requires Reckoned(t.(devices := t.devices[i := d], publishers := publishers), i, failed, false, u)
    ensures Reckoned(t, i, failed, ended, u)
  {
  }

  lemma ReportReckoned(t: Table, e: Event)
    requires IsReport(t, e)
    ensures var i, u := t.index[e.id], Judged(t, e);
      && Reckoned(t, i, Asked(t, e), e.TaskDone?, u)
      && u.devices[i].state == NewStatus(t.devices[i], e).state
      && u.devices[i].lastState == NewStatus(t.devices[i], e).lastState
      && u.devices[i].exitCode == NewStatus(t.devices[i], e).exitCode
      && u.devices[i].signal == NewStatus(t.devices[i], e).signal
  {
    var i := t.index[e.id];
    VerdictReckoned(Absorb(t, e), i);
    ReckonedBefore(t, i, NewStatus(t.devices[i], e), Absorb(t, e).publishers, Asked(t, e), e.TaskDone?, Judged(t, e));
  }

  /** A state change: entered as reported. It is a failure if the state is Error, or Exiting from any state but
      Idle. An expendable device is then ignored; otherwise an instance of its collection is taken off the count
      and, if enough are left, ignored as a whole. Any other report changes nothing of that. */
  lemma StateChangeReckons(t: Table, id: TaskId, last: DeviceState, current: DeviceState)
    requires TableOk(t) && id in t.index
    ensures var i, u := t.index[id], StepTable(t, StateChange(id, last, current));
      var failed := current == Error || (current == Exiting && t.devices[i].state != Idle);
      && Reckoned(t, i, failed, false, u)
      && u.devices[i].lastState == last && u.devices[i].state == current
      && u.devices[i].exitCode == t.devices[i].exitCode && u.devices[i].signal == t.devices[i].signal
  {
    ReportReckoned(t, StateChange(id, last, current));
  }

  /** The end of a task: a failure unless the device was Idle or Exiting and the exit code is not positive. */
  lemma TaskDoneReckons(t: Table, id: TaskId, exitCode: int, signal: int)
    requires TableOk(t) && id in t.index
    ensures var i, u := t.index[id], StepTable(t, TaskDone(id, exitCode, signal));
      var was := t.devices[i].state;
      var failed := (was != Idle && was != Exiting) || exitCode > 0;
      && Reckoned(t, i, failed, true, u)
      && u.devices[i].lastState == was && u.devices[i].state == (if failed then Error else Exiting)
      && u.devices[i].exitCode == exitCode && u.devices[i].signal == signal
  {
    ReportReckoned(t, TaskDone(id, exitCode, signal));
  }

  /** A confirmed subscription or unsubscription sets the flag of its device, and nothing else happens. */
  lemma SubscriptionSays(s: Topo, id: TaskId, on: bool, result: CmdResult)
    requires TableOk(s.table)
    ensures var r := Step(s, if on then Subscription(id, result) else Unsubscription(id, result));
      && r == s.(table := s.table.(devices := r.table.devices, publishers := r.table.publishers))
      && |r.table.devices| == |s.table.devices|
      && forall i :: 0 <= i < |s.table.devices| ==>
           var d := s.table.devices[i];
           r.table.devices[i] == if d.taskId == id && result == ResultOk then d.(subscribed := on) else d
  {
  }
}
