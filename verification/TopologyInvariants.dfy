/** What every handler keeps: the device table and its index, the subscriber count, the counters of the
    operations, and the single handler call of each operation. */
module TopologyInvariants {
  import opened Basics
  import opened TopologyDefs
  import opened AsyncOps
  import opened CountingOp
  import opened TopologyModel
  import SP = SetPropertiesProtocol
  import GP = GetPropertiesProtocol

  // ---------------------------------------------------------------- device table

  ghost predicate SameDevice(d: DeviceStatus, e: DeviceStatus) {
    d.taskId == e.taskId && d.collectionId == e.collectionId && d.expendable == e.expendable &&
      (d.ignored ==> e.ignored)
  }

  /** `u` may come after `t` in a run: nothing constant has changed and no device stopped being ignored. */
  ghost predicate Evolves(t: Table, u: Table) {
    && u.index == t.index
    && u.names == t.names
    && u.info.Keys == t.info.Keys
    && |u.devices| == |t.devices|
    && (forall i :: 0 <= i < |t.devices| ==> SameDevice(t.devices[i], u.devices[i]))
  }

  lemma EvolvesTransitive(t: Table, u: Table, v: Table)
    requires Evolves(t, u) && Evolves(u, v)
    ensures Evolves(t, v)
  {
  }

  lemma EvolvesKeepsTable(t: Table, u: Table)
    requires TableOk(t) && Evolves(t, u)
    ensures TableOk(u)
  {
  }

  lemma AfterVerdictEvolves(t: Table, i: nat)
    requires i < |t.devices|
    ensures Evolves(t, AfterVerdict(t, i))
  {
  }

  lemma StepTableEvolves(t: Table, e: Event)
    ensures Evolves(t, StepTable(t, e))
  {
    if IsReport(t, e) {
      var u := Absorb(t, e);
      assert Evolves(t, u);
      AfterVerdictEvolves(u, t.index[e.id]);
      EvolvesTransitive(t, u, AfterVerdict(u, t.index[e.id]));
    }
  }

  lemma {:induction false} RunEvolves(s: Topo, es: seq<Event>)
    ensures Evolves(s.table, RunFrom(s, es).table)
  {
    if es != [] {
      var n := |es| - 1;
      RunEvolves(s, es[..n]);
      StepTableEvolves(RunFrom(s, es[..n]).table, es[n]);
      EvolvesTransitive(s.table, RunFrom(s, es[..n]).table, RunFrom(s, es).table);
    }
  }

  lemma {:induction false} RunContinues(s: Topo, first: seq<Event>, es: seq<Event>)
    ensures RunFrom(s, first + es) == RunFrom(RunFrom(s, first), es)
  {
    if es == [] {
      assert first + es == first;
    } else {
      var n := |es| - 1;
      RunContinues(s, first, es[..n]);
      assert (first + es)[..|first + es| - 1] == first + es[..n];
    }
  }

  // ---------------------------------------------------------------- subscriber count

  ghost function Subscribed(devices: TopoState): set<nat> {
    set i: nat | i < |devices| && devices[i].subscribed
  }

  /** 0 publishers means that nobody is subscribed, and the unsigned counter has not wrapped around. */
  ghost predicate SubscribersCounted(t: Table) {
    t.publishers == |Subscribed(t.devices)| && |t.devices| < INT32_RANGE
  }

  lemma {:induction false} BoundedCardinality(positions: set<nat>, n: nat)
    requires forall i :: i in positions ==> i < n
    ensures |positions| <= n
  {
    if n > 0 {
      BoundedCardinality(positions - {n - 1}, n - 1);
      assert positions <= (positions - {n - 1}) + {n - 1};
      SubsetCardinality(positions, (positions - {n - 1}) + {n - 1});
    } else {
      assert positions == {};
    }
  }

  /** Replacing one entry changes the count by that entry. */
  lemma SubscribedOfUpdate(devices: TopoState, i: nat, d: DeviceStatus)
    requires i < |devices|
    ensures |Subscribed(devices[i := d])| ==
            |Subscribed(devices)| + (if d.subscribed then 1 else 0) - (if devices[i].subscribed then 1 else 0)
  {
    var before, after := Subscribed(devices), Subscribed(devices[i := d]);
    var rest := before - {i};
    assert before == if devices[i].subscribed then rest + {i} else rest;
    assert after == if d.subscribed then rest + {i} else rest;
  }

  lemma SubscribedOfIgnore(devices: TopoState, c: CollectionId)
    ensures |Subscribed(IgnoreCollection(devices, c))| == |Subscribed(devices)| - |SubscribedIn(devices, c)|
  {
    assert Subscribed(IgnoreCollection(devices, c)) == Subscribed(devices) - SubscribedIn(devices, c);
    assert SubscribedIn(devices, c) <= Subscribed(devices);
  }

  lemma AfterVerdictSubscribers(t: Table, i: nat)
    requires SubscribersCounted(t) && i < |t.devices|
    ensures SubscribersCounted(AfterVerdict(t, i))
  {
    var d := t.devices[i];
    SubscribedOfUpdate(t.devices, i, d.(ignored := true));
    SubscribedOfIgnore(t.devices, d.collectionId);
    BoundedCardinality(Subscribed(t.devices), |t.devices|);
  }

  lemma SetSubscribedCounts(t: Table, id: TaskId, on: bool)
    requires SubscribersCounted(t)
    ensures SubscribersCounted(SetSubscribed(t, id, on))
  {
    if Known(t, id) && Device(t, id).subscribed != on {
      SubscribedOfUpdate(t.devices, t.index[id], Device(t, id).(subscribed := on));
      BoundedCardinality(Subscribed(t.devices), |t.devices|);
    }
  }

  lemma AbsorbSubscribers(t: Table, e: Event)
    requires SubscribersCounted(t) && IsReport(t, e)
    ensures SubscribersCounted(Absorb(t, e))
  {
    SubscribedOfUpdate(t.devices, t.index[e.id], NewStatus(Device(t, e.id), e));
    BoundedCardinality(Subscribed(t.devices), |t.devices|);
  }

  /** After every handler, including the one that ignores a whole collection, the counter equals the
      number of devices flagged as subscribed. */
  lemma StepSubscribers(t: Table, e: Event)
    requires SubscribersCounted(t)
    ensures SubscribersCounted(StepTable(t, e))
  {
    if e.Subscription? {
      SetSubscribedCounts(t, e.id, true);
    } else if e.Unsubscription? {
      SetSubscribedCounts(t, e.id, false);
    } else if IsReport(t, e) {
      AbsorbSubscribers(t, e);
      AfterVerdictSubscribers(Absorb(t, e), t.index[e.id]);
    }
  }

  /** In every run from a fresh topology the counter is exact and at most the number of devices. */
  lemma {:induction false} RunSubscribers(s: Topo, es: seq<Event>)
    requires Initial(s)
    ensures var t := RunFrom(s, es).table; t.publishers == |Subscribed(t.devices)| <= |t.devices| < UINT32_RANGE
    ensures SubscribersCounted(RunFrom(s, es).table)
  {
    BoundedCardinality(Subscribed(RunFrom(s, es).table.devices), |RunFrom(s, es).table.devices|);
    if es == [] {
      assert Subscribed(s.table.devices) == {};
    } else {
      RunSubscribers(s, es[..|es| - 1]);
      StepSubscribers(RunFrom(s, es[..|es| - 1]).table, es[|es| - 1]);
    }
  }

  // ---------------------------------------------------------------- operations

  ghost predicate ChangeOk(t: Table, o: ChangeOp) {
    Inv(o.core) && o.core.tasks <= t.index.Keys && o.target != Error
  }

  ghost predicate WaitOk(t: Table, o: WaitOp) {
    Inv(o.core) && o.core.tasks <= t.index.Keys
  }

  ghost predicate SetOk(t: Table, o: SP.SetOp) {
    SP.Inv(o) && o.tasks <= t.index.Keys
  }

  ghost predicate GetOk(t: Table, o: GP.GetOp) {
    GP.Inv(o) && o.tasks <= t.index.Keys
  }

  ghost predicate Good(s: Topo) {
    && TableOk(s.table)
    && (forall k :: k in s.changeOps ==> ChangeOk(s.table, s.changeOps[k]))
    && (forall k :: k in s.waitOps ==> WaitOk(s.table, s.waitOps[k]))
    && (forall k :: k in s.setOps ==> SetOk(s.table, s.setOps[k]))
    && (forall k :: k in s.getOps ==> GetOk(s.table, s.getOps[k]))
  }

  lemma DeliverChangeOk(t: Table, o: ChangeOp, id: TaskId, current: DeviceState, expendable: bool, arg: TopoState)
    requires ChangeOk(t, o)
    ensures ChangeOk(t, DeliverChange(o, id, current, expendable, arg))
  {
    DeliverInv(o.core, id, ChangeReport(o.target, current, expendable), arg);
  }

  lemma BeginChangeOk(t: Table, target: DeviceState, tasks: set<TaskId>)
    requires tasks <= t.index.Keys && target != Error
    ensures ChangeOk(t, BeginChange(t, target, tasks))
  {
    var o := BeginChange(t, target, tasks);
    BeginInv(tasks, o.core.start, o.core.startFailed, t.devices);
  }

  lemma FailTransitionOk(t: Table, o: ChangeOp, id: TaskId)
    requires ChangeOk(t, o)
    ensures ChangeOk(t, FailTransition(t, o, id))
  {
  }

  lemma StepChangeOk(t: Table, ops: map<OpId, ChangeOp>, isNew: bool, e: Event, k: OpId)
    requires k in ops ==> ChangeOk(t, ops[k])
    requires k in StepChange(t, ops, isNew, e)
    ensures ChangeOk(t, StepChange(t, ops, isNew, e)[k])
  {
    if IsReport(t, e) {
      DeliverChangeOk(t, ops[k], e.id, NewStatus(Device(t, e.id), e).state, Expendable(t, e), Judged(t, e).devices);
    } else if e.TransitionStatus? {
      FailTransitionOk(t, ops[k], e.id);
    } else if e.ChangeTimeout? && e.op == k {
      AbortInv(ops[k].core, OperationTimeout, t.devices);
    } else if e.AsyncChangeState? && ExpectedState(e.transition).Some? {
      BeginChangeOk(t, ExpectedState(e.transition).value, GetTasks(t, e.matched));
    }
  }

  lemma DeliverWaitOk(t: Table, o: WaitOp, id: TaskId, last: DeviceState, current: DeviceState, expendable: bool)
    requires WaitOk(t, o)
    ensures WaitOk(t, DeliverWait(o, id, last, current, expendable))
  {
    DeliverInv(o.core, id, WaitReport(o.targetLast, o.targetCurrent, last, current, expendable), ());
  }

  lemma BeginWaitOk(t: Table, targetLast: DeviceState, targetCurrent: DeviceState, tasks: set<TaskId>)
    requires tasks <= t.index.Keys
    ensures WaitOk(t, BeginWait(t, targetLast, targetCurrent, tasks))
  {
    var o := BeginWait(t, targetLast, targetCurrent, tasks);
    BeginInv(tasks, o.core.start, o.core.startFailed, ());
  }

  lemma StepWaitOk(t: Table, ops: map<OpId, WaitOp>, isNew: bool, e: Event, k: OpId)
    requires k in ops ==> WaitOk(t, ops[k])
    requires k in StepWait(t, ops, isNew, e)
    ensures WaitOk(t, StepWait(t, ops, isNew, e)[k])
  {
    if IsReport(t, e) {
      var d := NewStatus(Device(t, e.id), e);
      DeliverWaitOk(t, ops[k], e.id, d.lastState, d.state, Expendable(t, e));
    } else if e.WaitTimeout? && e.op == k {
      AbortInv(ops[k].core, OperationTimeout, ());
    } else if e.AsyncWaitForState? {
      BeginWaitOk(t, e.targetLast, e.targetCurrent, GetTasks(t, e.matched));
    }
  }

  lemma BeginSetOk(t: Table, tasks: set<TaskId>)
    requires tasks <= t.index.Keys
    ensures SetOk(t, BeginSet(t, tasks))
  {
    SP.BeginInv(tasks, BeginSet(t, tasks).startBad);
  }

  lemma StepSetOk(t: Table, ops: map<OpId, SP.SetOp>, isNew: bool, e: Event, k: OpId)
    requires k in ops ==> SetOk(t, ops[k])
    requires k in StepSet(t, ops, isNew, e)
    ensures SetOk(t, StepSet(t, ops, isNew, e)[k])
  {
    if Asked(t, e) {
      SP.DeliverInv(ops[k], e.id, SP.Failed(Expendable(t, e)));
    } else if e.PropertiesSet? && e.op == k {
      SP.DeliverInv(ops[k], e.id, SetReply(e.result));
    } else if e.SetTimeout? && e.op == k {
      SP.AbortInv(ops[k]);
    } else if e.AsyncSetProperties? {
      BeginSetOk(t, GetTasks(t, e.matched));
    }
  }

  lemma TasksBounded(t: Table, tasks: set<TaskId>)
    requires TableOk(t) && tasks <= t.index.Keys
    ensures |tasks| <= |t.devices|
  {
    IndexCardinality(t.index, |t.devices|, tasks);
  }

  lemma {:induction false} IndexCardinality(index: map<TaskId, nat>, n: nat, tasks: set<TaskId>)
    requires tasks <= index.Keys
    requires forall a :: a in tasks ==> index[a] < n
    requires forall a, b :: a in tasks && b in tasks && a != b ==> index[a] != index[b]
    ensures |tasks| <= n
    decreases n
  {
    if n == 0 {
      assert tasks == {};
    } else if exists a :: a in tasks && index[a] == n - 1 {
      var a :| a in tasks && index[a] == n - 1;
      IndexCardinality(index, n - 1, tasks - {a});
    } else {
      IndexCardinality(index, n - 1, tasks);
    }
  }

  lemma StepGetOk(t: Table, ops: map<OpId, GP.GetOp>, isNew: bool, e: Event, k: OpId)
    requires TableOk(t)
    requires k in ops ==> GetOk(t, ops[k])
    requires k in StepGet(t, ops, isNew, e)
    ensures GetOk(t, StepGet(t, ops, isNew, e)[k])
  {
    if e.PropertiesReply? {
      if e.op == k {
        GP.DeliverInv(ops[k], e.id, e.result == ResultOk, e.props);
      }
    } else if e.GetTimeout? {
      if e.op == k {
        GP.AbortInv(ops[k]);
      }
    } else if e.AsyncGetProperties? {
      TasksBounded(t, GetTasks(t, e.matched));
      GP.BeginInv(GetTasks(t, e.matched));
    }
  }

  lemma StepGood(s: Topo, e: Event)
    requires Good(s)
    ensures Good(Step(s, e))
  {
    var isNew, r := Fresh(s, e), Step(s, e);
    StepTableEvolves(s.table, e);
    EvolvesKeepsTable(s.table, r.table);
    forall k | k in r.changeOps ensures ChangeOk(r.table, r.changeOps[k]) {
      StepChangeOk(s.table, s.changeOps, isNew, e, k);
    }
    forall k | k in r.waitOps ensures WaitOk(r.table, r.waitOps[k]) {
      StepWaitOk(s.table, s.waitOps, isNew, e, k);
    }
    forall k | k in r.setOps ensures SetOk(r.table, r.setOps[k]) {
      StepSetOk(s.table, s.setOps, isNew, e, k);
    }
    forall k | k in r.getOps ensures GetOk(r.table, r.getOps[k]) {
      StepGetOk(s.table, s.getOps, isNew, e, k);
    }
  }

  /** In every run, every operation of every kind satisfies its counting invariant: in particular no open
      ChangeState, WaitForState or SetProperties operation ever counts past its number of tasks. */
  lemma {:induction false} RunGood(s: Topo, es: seq<Event>)
    requires Good(s)
    ensures Good(RunFrom(s, es))
  {
    if es != [] {
      RunGood(s, es[..|es| - 1]);
      StepGood(RunFrom(s, es[..|es| - 1]), es[|es| - 1]);
    }
  }

  lemma NoOvershoot(s: Topo, es: seq<Event>, op: OpId)
    requires Initial(s)
    ensures var r := RunFrom(s, es);
      && (op in r.changeOps && !r.changeOps[op].core.async.completed ==>
        r.changeOps[op].core.count < |r.changeOps[op].core.tasks|)
      && (op in r.waitOps && !r.waitOps[op].core.async.completed ==>
        r.waitOps[op].core.count < |r.waitOps[op].core.tasks|)
      && (op in r.setOps && !r.setOps[op].async.completed ==> r.setOps[op].count < |r.setOps[op].tasks|)
  {
    RunGood(s, es);
    var r := RunFrom(s, es);
    assert op in r.changeOps ==> ChangeOk(r.table, r.changeOps[op]);
    assert op in r.waitOps ==> WaitOk(r.table, r.waitOps[op]);
    assert op in r.setOps ==> SetOk(r.table, r.setOps[op]);
  }

  /** What an initiation enters. */
  lemma ChangeStarted(s: Topo, op: OpId, transition: Transition, matched: set<TaskId>)
    requires ExpectedState(transition).Some? && op !in Initiated(s)
    ensures var r := Step(s, AsyncChangeState(op, transition, matched));
      && r.table == s.table && op in r.changeOps
      && r.changeOps[op] == BeginChange(s.table, ExpectedState(transition).value, GetTasks(s.table, matched))
  {
  }

  lemma WaitStarted(s: Topo, op: OpId, targetLast: DeviceState, targetCurrent: DeviceState, matched: set<TaskId>)
    requires op !in Initiated(s)
    ensures var r := Step(s, AsyncWaitForState(op, targetLast, targetCurrent, matched));
      && r.table == s.table && r.changeOps == s.changeOps && op in r.waitOps
      && r.waitOps[op] == BeginWait(s.table, targetLast, targetCurrent, GetTasks(s.table, matched))
  {
  }

  // ---------------------------------------------------------------- one handler call per operation

  /** How often the completion handler of an initiated operation has been called. */
  ghost function HandlerCalls(s: Topo, op: OpId): nat
    requires op in Initiated(s)
  {
    if op in s.changeOps then |s.changeOps[op].core.async.calls|
    else if op in s.waitOps then |s.waitOps[op].core.async.calls|
    else if op in s.setOps then |s.setOps[op].async.calls|
    else if op in s.getOps then |s.getOps[op].async.calls|
    else s.purged[op]
  }

  ghost predicate Open(s: Topo, op: OpId) {
    || (op in s.changeOps && !s.changeOps[op].core.async.completed)
    || (op in s.waitOps && !s.waitOps[op].core.async.completed)
    || (op in s.setOps && !s.setOps[op].async.completed)
    || (op in s.getOps && !s.getOps[op].async.completed)
  }

  ghost predicate PurgedOnce(s: Topo) {
    forall op :: op in s.purged ==> s.purged[op] == 1
  }

  /** Every operation ever initiated has called its handler once if completed, and never if open. */
  ghost predicate Conserved(s: Topo) {
    forall op :: op in Initiated(s) ==> HandlerCalls(s, op) == if Open(s, op) then 0 else 1
  }

  lemma ConservedFromShots(s: Topo, op: OpId)
    requires Good(s) && PurgedOnce(s) && Apart(s, op) && op in Initiated(s)
    ensures HandlerCalls(s, op) == if Open(s, op) then 0 else 1
  {
    OnceEach(s, op);
  }

  /** `next` keeps the ids in `keep` and adds at most `op`, which it may do only if `op` is new. */
  ghost predicate KeysGrow(keep: set<OpId>, ids: set<OpId>, next: set<OpId>, isNew: bool, e: Event) {
    && keep <= next
    && (!isNew ==> next == ids)
    && (isNew && IsInitiation(e) ==> next <= ids + {e.op})
  }

  lemma ChangeKeys(t: Table, ops: map<OpId, ChangeOp>, isNew: bool, e: Event)
    requires isNew ==> IsInitiation(e)
    ensures KeysGrow(OpenChange(ops).Keys, ops.Keys, StepChange(t, ops, isNew, e).Keys, isNew, e)
    ensures isNew && !e.AsyncChangeState? ==> StepChange(t, ops, isNew, e) == ops
  {
    assert !isNew ==> StepChange(t, ops, isNew, e).Keys == ops.Keys;
  }

  lemma WaitKeys(t: Table, ops: map<OpId, WaitOp>, isNew: bool, e: Event)
    requires isNew ==> IsInitiation(e)
    ensures KeysGrow(OpenWait(ops).Keys, ops.Keys, StepWait(t, ops, isNew, e).Keys, isNew, e)
    ensures isNew && !e.AsyncWaitForState? ==> StepWait(t, ops, isNew, e) == ops
  {
  }

  lemma SetKeys(t: Table, ops: map<OpId, SP.SetOp>, isNew: bool, e: Event)
    requires isNew ==> IsInitiation(e)
    ensures KeysGrow(ops.Keys, ops.Keys, StepSet(t, ops, isNew, e).Keys, isNew, e)
    ensures isNew && !e.AsyncSetProperties? ==> StepSet(t, ops, isNew, e) == ops
  {
  }

  lemma GetKeys(t: Table, ops: map<OpId, GP.GetOp>, isNew: bool, e: Event)
    requires isNew ==> IsInitiation(e)
    ensures KeysGrow(OpenGet(ops).Keys, ops.Keys, StepGet(t, ops, isNew, e).Keys, isNew, e)
    ensures isNew && !e.AsyncGetProperties? && !e.AsyncSetProperties? ==> StepGet(t, ops, isNew, e) == ops
    ensures isNew && e.AsyncSetProperties? ==> StepGet(t, ops, isNew, e) == OpenGet(ops)
  {
  }

  /** Completed operations have called their handler once; that number is kept when they are erased. */
  lemma StepPurgedOnce(s: Topo, e: Event, op: OpId)
    requires op in StepPurged(s, Fresh(s, e), e)
    requires op in s.purged ==> s.purged[op] == 1
    requires op in s.changeOps ==> s.changeOps[op].core.async.SingleShot()
    requires op in s.waitOps ==> s.waitOps[op].core.async.SingleShot()
    requires op in s.getOps ==> s.getOps[op].async.SingleShot()
    ensures StepPurged(s, Fresh(s, e), e)[op] == 1
  {
  }

  lemma OnceEach(s: Topo, op: OpId)
    requires Good(s)
    ensures op in s.changeOps ==> s.changeOps[op].core.async.SingleShot()
    ensures op in s.waitOps ==> s.waitOps[op].core.async.SingleShot()
    ensures op in s.setOps ==> s.setOps[op].async.SingleShot()
    ensures op in s.getOps ==> s.getOps[op].async.SingleShot()
  {
    if op in s.changeOps { assert ChangeOk(s.table, s.changeOps[op]); }
    if op in s.waitOps { assert WaitOk(s.table, s.waitOps[op]); }
    if op in s.setOps { assert SetOk(s.table, s.setOps[op]); }
    if op in s.getOps { assert GetOk(s.table, s.getOps[op]); }
  }

  ghost predicate Apart(s: Topo, op: OpId) {
    && (op in s.changeOps ==> op !in s.waitOps && op !in s.setOps && op !in s.getOps && op !in s.purged)
    && (op in s.waitOps ==> op !in s.setOps && op !in s.getOps && op !in s.purged)
    && (op in s.setOps ==> op !in s.getOps && op !in s.purged)
    && (op in s.getOps ==> op !in s.purged)
  }

  /** Where an id may come from: its own map, a new operation, or a completed operation just erased. */
  ghost predicate Origin(s: Topo, e: Event, r: Topo, op: OpId) {
    var isNew := Fresh(s, e) && e.op == op;
    && (op in r.changeOps ==> op in s.changeOps || (isNew && e.AsyncChangeState?))
    && (op in r.waitOps ==> op in s.waitOps || (isNew && e.AsyncWaitForState?))
    && (op in r.setOps ==> op in s.setOps || (isNew && e.AsyncSetProperties?))
    && (op in r.getOps ==> op in s.getOps || (isNew && e.AsyncGetProperties?))
    && (op in r.purged && op !in s.purged ==>
          (op in s.changeOps && op !in r.changeOps) || (op in s.waitOps && op !in r.waitOps) ||
          (op in s.getOps && op !in r.getOps))
  }

  lemma OriginApart(s: Topo, e: Event, r: Topo, op: OpId)
    requires Apart(s, op) && Origin(s, e, r, op)
    ensures Apart(r, op)
  {
  }

  lemma PurgedOrigin(s: Topo, e: Event, op: OpId)
    requires op in StepPurged(s, Fresh(s, e), e) && op !in s.purged
    ensures || (op in s.changeOps && op !in StepChange(s.table, s.changeOps, Fresh(s, e), e))
            || (op in s.waitOps && op !in StepWait(s.table, s.waitOps, Fresh(s, e), e))
            || (op in s.getOps && op !in StepGet(s.table, s.getOps, Fresh(s, e), e))
  {
  }

  lemma ChangeOrigin(t: Table, ops: map<OpId, ChangeOp>, isNew: bool, e: Event, op: OpId)
    requires op in StepChange(t, ops, isNew, e) && op !in ops
    ensures isNew && e.AsyncChangeState? && e.op == op
  {
  }

  lemma WaitOrigin(t: Table, ops: map<OpId, WaitOp>, isNew: bool, e: Event, op: OpId)
    requires op in StepWait(t, ops, isNew, e) && op !in ops
    ensures isNew && e.AsyncWaitForState? && e.op == op
  {
  }

  lemma SetOrigin(t: Table, ops: map<OpId, SP.SetOp>, isNew: bool, e: Event, op: OpId)
    requires op in StepSet(t, ops, isNew, e) && op !in ops
    ensures isNew && e.AsyncSetProperties? && e.op == op
  {
  }

  lemma GetOrigin(t: Table, ops: map<OpId, GP.GetOp>, isNew: bool, e: Event, op: OpId)
    requires op in StepGet(t, ops, isNew, e) && op !in ops
    ensures isNew && e.AsyncGetProperties? && e.op == op
  {
  }

  lemma StepOrigin(s: Topo, e: Event, op: OpId)
    ensures Origin(s, e, Step(s, e), op)
  {
    var isNew, r := Fresh(s, e), Step(s, e);
    if op in r.changeOps && op !in s.changeOps { ChangeOrigin(s.table, s.changeOps, isNew, e, op); }
    if op in r.waitOps && op !in s.waitOps { WaitOrigin(s.table, s.waitOps, isNew, e, op); }
    if op in r.setOps && op !in s.setOps { SetOrigin(s.table, s.setOps, isNew, e, op); }
    if op in r.getOps && op !in s.getOps { GetOrigin(s.table, s.getOps, isNew, e, op); }
    if op in r.purged && op !in s.purged { PurgedOrigin(s, e, op); }
  }

  lemma StepApart(s: Topo, e: Event, op: OpId)
    requires Apart(s, op)
    ensures Apart(Step(s, e), op)
  {
    StepOrigin(s, e, op);
    OriginApart(s, e, Step(s, e), op);
  }

  /** Conservation of operations: over any interleaving of initiations, reports, transition failures,
      timeouts and purges, every operation ever initiated has called its handler exactly once if it is
      completed and never if it is open. */
  lemma {:induction false} RunConserves(s: Topo, es: seq<Event>)
    requires Initial(s)
    ensures Conserved(RunFrom(s, es))
    ensures Good(RunFrom(s, es)) && PurgedOnce(RunFrom(s, es)) && forall op :: Apart(RunFrom(s, es), op)
  {
    RunGood(s, es);
    if es != [] {
      var m, e := RunFrom(s, es[..|es| - 1]), es[|es| - 1];
      RunConserves(s, es[..|es| - 1]);
      forall op ensures Apart(Step(m, e), op) {
        StepApart(m, e, op);
      }
      forall op | op in Step(m, e).purged ensures Step(m, e).purged[op] == 1 {
        OnceEach(m, op);
        StepPurgedOnce(m, e, op);
      }
    }
    forall op | op in Initiated(RunFrom(s, es))
      ensures HandlerCalls(RunFrom(s, es), op) == if Open(RunFrom(s, es), op) then 0 else 1
    {
      ConservedFromShots(RunFrom(s, es), op);
    }
  }

  /** No open operation is erased from its map; a completed SetProperties operation is never erased either. */
  lemma StepErasesNothingOpen(s: Topo, e: Event, op: OpId)
    ensures op in OpenChange(s.changeOps) ==> op in Step(s, e).changeOps
    ensures op in OpenWait(s.waitOps) ==> op in Step(s, e).waitOps
    ensures op in s.setOps ==> op in Step(s, e).setOps
    ensures op in OpenGet(s.getOps) ==> op in Step(s, e).getOps
  {
    var isNew := Fresh(s, e);
    ChangeKeys(s.table, s.changeOps, isNew, e);
    WaitKeys(s.table, s.waitOps, isNew, e);
    SetKeys(s.table, s.setOps, isNew, e);
    GetKeys(s.table, s.getOps, isNew, e);
  }

  /** No operation is forgotten: once initiated, it is in its map or among the purged ones forever. */
  lemma StepForgetsNothing(s: Topo, e: Event)
    ensures Initiated(s) <= Initiated(Step(s, e))
  {
    forall op | op in Initiated(s) ensures op in Initiated(Step(s, e)) {
      StepErasesNothingOpen(s, e, op);
      StepPurges(s, e, op);
    }
  }

  lemma StepPurges(s: Topo, e: Event, op: OpId)
    ensures op in s.purged ==> op in StepPurged(s, Fresh(s, e), e)
    ensures op in s.changeOps && op !in StepChange(s.table, s.changeOps, Fresh(s, e), e) ==>
      op in StepPurged(s, Fresh(s, e), e)
    ensures op in s.waitOps && op !in StepWait(s.table, s.waitOps, Fresh(s, e), e) ==>
      op in StepPurged(s, Fresh(s, e), e)
    ensures op in s.getOps && op !in StepGet(s.table, s.getOps, Fresh(s, e), e) ==> op in StepPurged(s, Fresh(s, e), e)
  {
    var isNew := Fresh(s, e);
    ChangeKeys(s.table, s.changeOps, isNew, e);
    WaitKeys(s.table, s.waitOps, isNew, e);
    GetKeys(s.table, s.getOps, isNew, e);
  }
}
