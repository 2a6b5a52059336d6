/** The maps of operations in flight: what they amount to as values, and the loops over them
    (odc/Topology.h). */
module OperationMaps {
  import opened Basics
  import opened TopologyDefs
  import opened AsyncOps
  import opened CountingOp
  import opened TopologyModel
  import opened StateOperations
  import opened PropertyOperations
  import SP = SetPropertiesProtocol
  import GP = GetPropertiesProtocol

  type ChangeMap = map<OpId, ChangeStateOp>
  type WaitMap = map<OpId, WaitForStateOp>
  type SetMap = map<OpId, SetPropertiesOp>
  type GetMap = map<OpId, GetPropertiesOp>

  /** A map of operations in the middle of a loop: those in `todo` are as they were. */
  ghost function Mix<V>(was: map<OpId, V>, next: map<OpId, V>, todo: set<OpId>): map<OpId, V>
    requires was.Keys == next.Keys
  {
    map k | k in was :: if k in todo then was[k] else next[k]
  }

  lemma MixNext<V>(was: map<OpId, V>, next: map<OpId, V>, todo: set<OpId>, k: OpId)
    requires was.Keys == next.Keys && k in todo && k in was
    ensures k in Mix(was, next, todo) && Mix(was, next, todo)[k] == was[k]
    ensures Mix(was, next, todo - {k}) == Mix(was, next, todo)[k := next[k]]
  {
  }

  // ---------------------------------------------------------------- ChangeStateOp

  /** The objects a map of operations is made of. */
  ghost function ChangeFrame(ops: ChangeMap): set<object> {
    (set k | k in ops :: ops[k] as object) + (set k | k in ops :: ops[k].op as object)
  }

  ghost predicate ChangeValid(ops: ChangeMap) {
    forall k :: k in ops ==> ops[k].Valid() && ops[k].id == k
  }

  ghost function ChangeViews(ops: ChangeMap): map<OpId, ChangeOp>
    reads ChangeFrame(ops)
  {
    map k | k in ops :: ops[k].View()
  }

  /** Hands a report to one operation. */
  method NotifyChangeOp(ops: ChangeMap, k: OpId, id: TaskId, state: DeviceState, expendable: bool, stateData: TopoState)
    requires ChangeValid(ops) && k in ops
    modifies ops[k], ops[k].op
    ensures ChangeViews(ops) == old(ChangeViews(ops))[k :=
      DeliverChange(old(ChangeViews(ops))[k], id, state, expendable, stateData)]
  {
    ops[k].Update(id, state, expendable, stateData);
  }

  /** Hands it to every operation. */
  method NotifyChangeOps(ops: ChangeMap, id: TaskId, state: DeviceState, expendable: bool, stateData: TopoState)
    requires ChangeValid(ops)
    modifies ChangeFrame(ops)
    ensures ChangeViews(ops) == DeliverChanges(old(ChangeViews(ops)), id, state, expendable, stateData)
  {
    ghost var was := ChangeViews(ops);
    ghost var next := DeliverChanges(was, id, state, expendable, stateData);
    var todo := ops.Keys;
    while todo != {}
      invariant todo <= ops.Keys
      invariant ChangeViews(ops) == Mix(was, next, todo)
      decreases todo
    {
      var k :| k in todo;
      MixNext(was, next, todo, k);
      NotifyChangeOp(ops, k, id, state, expendable, stateData);
      todo := todo - {k};
    }
  }

  ghost predicate Reach(ops: ChangeMap, stateIndex: map<TaskId, nat>) {
    forall k :: k in ops ==> Elements(ops[k].tasks) <= stateIndex.Keys
  }

  /** A transition failed on a device: completes an open operation that addresses it and whose target the device
      is not in. */
  method FailChangeOp(ops: ChangeMap, k: OpId, stateIndex: map<TaskId, nat>, stateData: TopoState, id: TaskId,
                      ghost state: DeviceState)
    requires ChangeValid(ops) && k in ops
    requires id in Elements(ops[k].tasks) ==> id in stateIndex
    requires id in stateIndex ==> stateIndex[id] < |stateData| && stateData[stateIndex[id]].state == state
    modifies ops[k].op
    ensures ChangeViews(ops) == old(ChangeViews(ops))[k := FailIn(old(ChangeViews(ops))[k], id, state, stateData)]
  {
    var contains := FindTask(ops[k].tasks, id);
    if !ops[k].op.IsCompleted() && contains {
      if stateData[stateIndex[id]].state != ops[k].target {
        ops[k].Complete(DeviceChangeStateInvalidTransition, stateData);
      }
    }
  }

  /** Does so for every operation. */
  method FailChangeOps(ops: ChangeMap, stateIndex: map<TaskId, nat>, stateData: TopoState, id: TaskId,
                       ghost state: DeviceState)
    requires ChangeValid(ops)
    requires id !in stateIndex ==> forall k :: k in ops ==> id !in Elements(ops[k].tasks)
    requires id in stateIndex ==> stateIndex[id] < |stateData| && stateData[stateIndex[id]].state == state
    modifies ChangeFrame(ops)
    ensures ChangeViews(ops) == FailAll(old(ChangeViews(ops)), id, state, stateData)
  {
    ghost var was := ChangeViews(ops);
    ghost var next := FailAll(was, id, state, stateData);
    var todo := ops.Keys;
    while todo != {}
      invariant todo <= ops.Keys
      invariant ChangeViews(ops) == Mix(was, next, todo)
      decreases todo
    {
      var k :| k in todo;
      MixNext(was, next, todo, k);
      FailChangeOp(ops, k, stateIndex, stateData, id, state);
      todo := todo - {k};
    }
  }

  /** Erases the completed operations. */
  method PurgeChangeOps(ops: ChangeMap) returns (open: ChangeMap)
    requires ChangeValid(ops)
    ensures ChangeValid(open) && forall k :: k in open ==> k in ops && open[k] == ops[k]
    ensures ChangeViews(open) == OpenChange(ChangeViews(ops))
  {
    open := ops;
    var todo := ops.Keys;
    while todo != {}
      invariant todo <= ops.Keys && open.Keys <= ops.Keys
      invariant forall k :: k in open ==> open[k] == ops[k]
      invariant forall k :: k in ops ==> (k in open <==> k in todo || !ops[k].View().core.async.completed)
      decreases todo
    {
      var k :| k in todo;
      if ops[k].op.IsCompleted() {
        open := open - {k};
      }
      todo := todo - {k};
    }
  }

  // ---------------------------------------------------------------- WaitForStateOp

  /** The objects a map of operations is made of. */
  ghost function WaitFrame(ops: WaitMap): set<object> {
    (set k | k in ops :: ops[k] as object) + (set k | k in ops :: ops[k].op as object)
  }

  ghost predicate WaitValid(ops: WaitMap) {
    forall k :: k in ops ==> ops[k].Valid() && ops[k].id == k
  }

  ghost function WaitViews(ops: WaitMap): map<OpId, WaitOp>
    reads WaitFrame(ops)
  {
    map k | k in ops :: ops[k].View()
  }

  /** Hands a report to one operation. */
  method NotifyWaitOp(ops: WaitMap, k: OpId, id: TaskId, last: DeviceState, state: DeviceState, expendable: bool)
    requires WaitValid(ops) && k in ops
    modifies ops[k], ops[k].op
    ensures WaitViews(ops) == old(WaitViews(ops))[k := DeliverWait(old(WaitViews(ops))[k], id, last, state, expendable)]
  {
    ops[k].Update(id, last, state, expendable);
  }

  /** Hands it to every operation. */
  method NotifyWaitOps(ops: WaitMap, id: TaskId, last: DeviceState, state: DeviceState, expendable: bool)
    requires WaitValid(ops)
    modifies WaitFrame(ops)
    ensures WaitViews(ops) == DeliverWaits(old(WaitViews(ops)), id, last, state, expendable)
  {
    ghost var was := WaitViews(ops);
    ghost var next := DeliverWaits(was, id, last, state, expendable);
    var todo := ops.Keys;
    while todo != {}
      invariant todo <= ops.Keys
      invariant WaitViews(ops) == Mix(was, next, todo)
      decreases todo
    {
      var k :| k in todo;
      MixNext(was, next, todo, k);
      NotifyWaitOp(ops, k, id, last, state, expendable);
      todo := todo - {k};
    }
  }

  /** Erases the completed operations. */
  method PurgeWaitOps(ops: WaitMap) returns (open: WaitMap)
    requires WaitValid(ops)
    ensures WaitValid(open) && forall k :: k in open ==> k in ops && open[k] == ops[k]
    ensures WaitViews(open) == OpenWait(WaitViews(ops))
  {
    open := ops;
    var todo := ops.Keys;
    while todo != {}
      invariant todo <= ops.Keys && open.Keys <= ops.Keys
      invariant forall k :: k in open ==> open[k] == ops[k]
      invariant forall k :: k in ops ==> (k in open <==> k in todo || !ops[k].View().core.async.completed)
      decreases todo
    {
      var k :| k in todo;
      if ops[k].op.IsCompleted() {
        open := open - {k};
      }
      todo := todo - {k};
    }
  }

  // ---------------------------------------------------------------- SetPropertiesOp

  /** The objects a map of operations is made of. */
  ghost function SetFrame(ops: SetMap): set<object> {
    (set k | k in ops :: ops[k] as object) + (set k | k in ops :: ops[k].op as object)
  }

  ghost predicate SetValid(ops: SetMap) {
    forall k :: k in ops ==> ops[k].Valid() && ops[k].id == k
  }

  ghost function SetViews(ops: SetMap): map<OpId, SP.SetOp>
    reads SetFrame(ops)
  {
    map k | k in ops :: ops[k].View()
  }

  /** Hands a failure to one operation. */
  method NotifySetOp(ops: SetMap, k: OpId, id: TaskId, expendable: bool)
    requires SetValid(ops) && k in ops
    modifies ops[k], ops[k].op
    ensures SetViews(ops) == old(SetViews(ops))[k := SP.Deliver(old(SetViews(ops))[k], id, SP.Failed(expendable))]
  {
    ops[k].Update(id, ResultFailure, expendable);
  }

  /** Hands it to every operation. */
  method NotifySetOps(ops: SetMap, id: TaskId, expendable: bool)
    requires SetValid(ops)
    modifies SetFrame(ops)
    ensures SetViews(ops) == DeliverSets(old(SetViews(ops)), id, expendable)
  {
    ghost var was := SetViews(ops);
    ghost var next := DeliverSets(was, id, expendable);
    var todo := ops.Keys;
    while todo != {}
      invariant todo <= ops.Keys
      invariant SetViews(ops) == Mix(was, next, todo)
      decreases todo
    {
      var k :| k in todo;
      MixNext(was, next, todo, k);
      NotifySetOp(ops, k, id, expendable);
      todo := todo - {k};
    }
  }

  // ---------------------------------------------------------------- GetPropertiesOp

  /** The objects a map of operations is made of. */
  ghost function GetFrame(ops: GetMap): set<object> {
    (set k | k in ops :: ops[k] as object) + (set k | k in ops :: ops[k].op as object)
  }

  ghost predicate GetValid(ops: GetMap) {
    forall k :: k in ops ==> ops[k].Valid() && ops[k].id == k
  }

  ghost function GetViews(ops: GetMap): map<OpId, GP.GetOp>
    reads GetFrame(ops)
  {
    map k | k in ops :: ops[k].View()
  }

  /** Erases the completed operations. */
  method PurgeGetOps(ops: GetMap) returns (open: GetMap)
    requires GetValid(ops)
    ensures GetValid(open) && forall k :: k in open ==> k in ops && open[k] == ops[k]
    ensures GetViews(open) == OpenGet(GetViews(ops))
  {
    open := ops;
    var todo := ops.Keys;
    while todo != {}
      invariant todo <= ops.Keys && open.Keys <= ops.Keys
      invariant forall k :: k in open ==> open[k] == ops[k]
      invariant forall k :: k in ops ==> (k in open <==> k in todo || !ops[k].View().async.completed)
      decreases todo
    {
      var k :| k in todo;
      if ops[k].op.IsCompleted() {
        open := open - {k};
      }
      todo := todo - {k};
    }
  }

  // ---------------------------------------------------------------- the four maps together

  twostate lemma KeepChange(ops: ChangeMap)
    requires forall k :: k in ops ==> unchanged(ops[k]) && unchanged(ops[k].op)
    ensures ChangeViews(ops) == old(ChangeViews(ops))
  {
  }

  twostate lemma KeepWait(ops: WaitMap)
    requires forall k :: k in ops ==> unchanged(ops[k]) && unchanged(ops[k].op)
    ensures WaitViews(ops) == old(WaitViews(ops))
  {
  }

  twostate lemma KeepSet(ops: SetMap)
    requires forall k :: k in ops ==> unchanged(ops[k]) && unchanged(ops[k].op)
    ensures SetViews(ops) == old(SetViews(ops))
  {
  }

  twostate lemma KeepGet(ops: GetMap)
    requires forall k :: k in ops ==> unchanged(ops[k]) && unchanged(ops[k].op)
    ensures GetViews(ops) == old(GetViews(ops))
  {
  }

  // Each method below acts on one of the maps and leaves the operations of the other three as they are.

  /** Every ChangeState operation hears of a report. */
  method TellChange(c: ChangeMap, ghost w: WaitMap, ghost s: SetMap, ghost g: GetMap,
    id: TaskId, state: DeviceState, expendable: bool, stateData: TopoState)
    requires ChangeValid(c)
    modifies ChangeFrame(c)
    ensures ChangeViews(c) == DeliverChanges(old(ChangeViews(c)), id, state, expendable, stateData)
    ensures WaitViews(w) == old(WaitViews(w)) && SetViews(s) == old(SetViews(s)) && GetViews(g) == old(GetViews(g))
  {
    NotifyChangeOps(c, id, state, expendable, stateData);
    KeepWait(w);
    KeepSet(s);
    KeepGet(g);
  }

  method TellWait(ghost c: ChangeMap, w: WaitMap, ghost s: SetMap, ghost g: GetMap,
    id: TaskId, last: DeviceState, state: DeviceState, expendable: bool)
    requires WaitValid(w)
    modifies WaitFrame(w)
    ensures WaitViews(w) == DeliverWaits(old(WaitViews(w)), id, last, state, expendable)
    ensures ChangeViews(c) == old(ChangeViews(c)) && SetViews(s) == old(SetViews(s)) && GetViews(g) == old(GetViews(g))
  {
    NotifyWaitOps(w, id, last, state, expendable);
    KeepChange(c);
    KeepSet(s);
    KeepGet(g);
  }

  method TellSet(ghost c: ChangeMap, ghost w: WaitMap, s: SetMap, ghost g: GetMap,
    id: TaskId, expendable: bool)
    requires SetValid(s)
    modifies SetFrame(s)
    ensures SetViews(s) == DeliverSets(old(SetViews(s)), id, expendable)
    ensures ChangeViews(c) == old(ChangeViews(c)) && WaitViews(w) == old(WaitViews(w)) &&
      GetViews(g) == old(GetViews(g))
  {
    NotifySetOps(s, id, expendable);
    KeepChange(c);
    KeepWait(w);
    KeepGet(g);
  }

  method TellState(c: ChangeMap, w: WaitMap, ghost s: SetMap, ghost g: GetMap,
    id: TaskId, last: DeviceState, state: DeviceState, expendable: bool, stateData: TopoState)
    requires ChangeValid(c) && WaitValid(w)
    modifies ChangeFrame(c), WaitFrame(w)
    ensures ChangeViews(c) == DeliverChanges(old(ChangeViews(c)), id, state, expendable, stateData)
    ensures WaitViews(w) == DeliverWaits(old(WaitViews(w)), id, last, state, expendable)
    ensures SetViews(s) == old(SetViews(s)) && GetViews(g) == old(GetViews(g))
  {
    TellChange(c, w, s, g, id, state, expendable, stateData);
    TellWait(c, w, s, g, id, last, state, expendable);
  }

  /** Hands a report to the operations; SetProperties operations only hear of unexpected ones. */
  method Publish(c: ChangeMap, w: WaitMap, s: SetMap, ghost g: GetMap,
    id: TaskId, last: DeviceState, state: DeviceState, unexpected: bool, expendable: bool, stateData: TopoState)
    requires ChangeValid(c) && WaitValid(w) && SetValid(s)
    modifies ChangeFrame(c), WaitFrame(w), SetFrame(s)
    ensures ChangeViews(c) == DeliverChanges(old(ChangeViews(c)), id, state, expendable, stateData)
    ensures WaitViews(w) == DeliverWaits(old(WaitViews(w)), id, last, state, expendable)
    ensures SetViews(s) == if unexpected then DeliverSets(old(SetViews(s)), id, expendable) else old(SetViews(s))
    ensures GetViews(g) == old(GetViews(g))
  {
    if unexpected {
      TellSet(c, w, s, g, id, expendable);
    }
    TellState(c, w, s, g, id, last, state, expendable, stateData);
  }

  method FailTransitionOps(c: ChangeMap, stateIndex: map<TaskId, nat>, stateData: TopoState, id: TaskId, ghost t: Table)
    requires ChangeValid(c) && Reach(c, stateIndex)
    requires t.index == stateIndex && t.devices == stateData
    requires id in stateIndex ==> stateIndex[id] < |stateData|
    modifies ChangeFrame(c)
    ensures ChangeViews(c) == FailTransitions(t, old(ChangeViews(c)), id)
  {
    var state := if id in stateIndex then stateData[stateIndex[id]].state else Undefined;
    FailChangeOps(c, stateIndex, stateData, id, state);
  }

  method TellFailedTransition(c: ChangeMap, ghost w: WaitMap, ghost s: SetMap, ghost g: GetMap,
    stateIndex: map<TaskId, nat>, stateData: TopoState, id: TaskId, ghost t: Table)
    requires ChangeValid(c) && Reach(c, stateIndex)
    requires t.index == stateIndex && t.devices == stateData
    requires id in stateIndex ==> stateIndex[id] < |stateData|
    modifies ChangeFrame(c)
    ensures ChangeViews(c) == FailTransitions(t, old(ChangeViews(c)), id)
    ensures WaitViews(w) == old(WaitViews(w)) && SetViews(s) == old(SetViews(s)) && GetViews(g) == old(GetViews(g))
  {
    FailTransitionOps(c, stateIndex, stateData, id, t);
    KeepWait(w);
    KeepSet(s);
    KeepGet(g);
  }

  method TimeoutChangeOp(c: ChangeMap, k: OpId, stateData: TopoState)
    requires ChangeValid(c) && k in c
    modifies c[k], c[k].op
    ensures ChangeViews(c) == old(ChangeViews(c))[k := ExpireChange(old(ChangeViews(c))[k], stateData)]
  {
    var _ := c[k].Timeout(stateData);
  }

  method TimeoutChange(c: ChangeMap, ghost w: WaitMap, ghost s: SetMap, ghost g: GetMap,
    k: OpId, stateData: TopoState)
    requires ChangeValid(c) && k in c
    modifies ChangeFrame(c)
    ensures ChangeViews(c) == old(ChangeViews(c))[k := ExpireChange(old(ChangeViews(c))[k], stateData)]
    ensures WaitViews(w) == old(WaitViews(w)) && SetViews(s) == old(SetViews(s)) && GetViews(g) == old(GetViews(g))
  {
    TimeoutChangeOp(c, k, stateData);
    KeepWait(w);
    KeepSet(s);
    KeepGet(g);
  }

  method TimeoutWaitOp(w: WaitMap, k: OpId)
    requires WaitValid(w) && k in w
    modifies w[k], w[k].op
    ensures WaitViews(w) == old(WaitViews(w))[k := ExpireWait(old(WaitViews(w))[k])]
  {
    var _ := w[k].Timeout();
  }

  method TimeoutWait(ghost c: ChangeMap, w: WaitMap, ghost s: SetMap, ghost g: GetMap,
    k: OpId)
    requires WaitValid(w) && k in w
    modifies WaitFrame(w)
    ensures WaitViews(w) == old(WaitViews(w))[k := ExpireWait(old(WaitViews(w))[k])]
    ensures ChangeViews(c) == old(ChangeViews(c)) && SetViews(s) == old(SetViews(s)) && GetViews(g) == old(GetViews(g))
  {
    TimeoutWaitOp(w, k);
    KeepChange(c);
    KeepSet(s);
    KeepGet(g);
  }

  method TimeoutSetOp(s: SetMap, k: OpId)
    requires SetValid(s) && k in s
    modifies s[k], s[k].op
    ensures SetViews(s) == old(SetViews(s))[k := SP.Abort(old(SetViews(s))[k], OperationTimeout)]
  {
    var _ := s[k].Timeout();
  }

  method TimeoutSet(ghost c: ChangeMap, ghost w: WaitMap, s: SetMap, ghost g: GetMap,
    k: OpId)
    requires SetValid(s) && k in s
    modifies SetFrame(s)
    ensures SetViews(s) == old(SetViews(s))[k := SP.Abort(old(SetViews(s))[k], OperationTimeout)]
    ensures ChangeViews(c) == old(ChangeViews(c)) && WaitViews(w) == old(WaitViews(w)) &&
      GetViews(g) == old(GetViews(g))
  {
    TimeoutSetOp(s, k);
    KeepChange(c);
    KeepWait(w);
    KeepGet(g);
  }

  method TimeoutGetOp(g: GetMap, k: OpId)
    requires GetValid(g) && k in g
    modifies g[k], g[k].op
    ensures GetViews(g) == old(GetViews(g))[k := GP.Abort(old(GetViews(g))[k], OperationTimeout)]
  {
    var _ := g[k].Timeout();
  }

  method TimeoutGet(ghost c: ChangeMap, ghost w: WaitMap, ghost s: SetMap, g: GetMap,
    k: OpId)
    requires GetValid(g) && k in g
    modifies GetFrame(g)
    ensures GetViews(g) == old(GetViews(g))[k := GP.Abort(old(GetViews(g))[k], OperationTimeout)]
    ensures ChangeViews(c) == old(ChangeViews(c)) && WaitViews(w) == old(WaitViews(w)) &&
      SetViews(s) == old(SetViews(s))
  {
    TimeoutGetOp(g, k);
    KeepChange(c);
    KeepWait(w);
    KeepSet(s);
  }

  method UpdateSetOp(s: SetMap, k: OpId, id: TaskId, result: CmdResult)
    requires SetValid(s) && k in s
    modifies s[k], s[k].op
    ensures SetViews(s) == old(SetViews(s))[k := SP.Deliver(old(SetViews(s))[k], id, SetReply(result))]
  {
    s[k].Update(id, result, false);
  }

  method UpdateGetOp(g: GetMap, k: OpId, id: TaskId, result: CmdResult, props: GP.Props)
    requires GetValid(g) && k in g
    modifies g[k], g[k].op
    ensures GetViews(g) == old(GetViews(g))[k := GP.Deliver(old(GetViews(g))[k], id, result == ResultOk, props)]
  {
    g[k].Update(id, result, props);
  }

  method ReplySet(ghost c: ChangeMap, ghost w: WaitMap, s: SetMap, ghost g: GetMap,
    k: OpId, id: TaskId, result: CmdResult)
    requires SetValid(s) && k in s
    modifies SetFrame(s)
    ensures SetViews(s) == old(SetViews(s))[k := SP.Deliver(old(SetViews(s))[k], id, SetReply(result))]
    ensures ChangeViews(c) == old(ChangeViews(c)) && WaitViews(w) == old(WaitViews(w)) &&
      GetViews(g) == old(GetViews(g))
  {
    UpdateSetOp(s, k, id, result);
    KeepChange(c);
    KeepWait(w);
    KeepGet(g);
  }

  method ReplyGet(ghost c: ChangeMap, ghost w: WaitMap, ghost s: SetMap, g: GetMap,
    k: OpId, id: TaskId, result: CmdResult, props: GP.Props)
    requires GetValid(g) && k in g
    modifies GetFrame(g)
    ensures GetViews(g) == old(GetViews(g))[k := GP.Deliver(old(GetViews(g))[k], id, result == ResultOk, props)]
    ensures ChangeViews(c) == old(ChangeViews(c)) && WaitViews(w) == old(WaitViews(w)) &&
      SetViews(s) == old(SetViews(s))
  {
    UpdateGetOp(g, k, id, result, props);
    KeepChange(c);
    KeepWait(w);
    KeepSet(s);
  }

  // ---------------------------------------------------------------- new operations

  method StartChange(id: OpId, tasks: seq<TaskId>, target: DeviceState, stateIndex: map<TaskId, nat>,
                     stateData: TopoState, ghost t: Table)
    returns (o: ChangeStateOp)
    requires |Elements(tasks)| == |tasks| && Elements(tasks) <= stateIndex.Keys
    requires t.index == stateIndex && t.devices == stateData && Keyed(stateIndex, stateData)
    ensures fresh(o) && fresh(o.op) && o.Valid() && o.id == id && o.tasks == tasks
    ensures o.View() == BeginChange(t, target, Elements(tasks))
  {
    o := new ChangeStateOp(id, tasks, target);
    o.ResetCount(stateIndex, stateData, t);
    o.TryCompletion(stateData);
  }

  /** Enters a new operation. */
  lemma EnterChange(ops: ChangeMap, o: ChangeStateOp, k: OpId)
    requires ChangeValid(ops) && o.Valid() && o.id == k
    ensures ChangeValid(ops[k := o]) && ChangeViews(ops[k := o]) == ChangeViews(ops)[k := o.View()]
  {
  }

  method StartWait(id: OpId, tasks: seq<TaskId>, targetLast: DeviceState, targetCurrent: DeviceState,
                   stateIndex: map<TaskId, nat>, stateData: TopoState, ghost t: Table)
    returns (o: WaitForStateOp)
    requires |Elements(tasks)| == |tasks| && Elements(tasks) <= stateIndex.Keys
    requires t.index == stateIndex && t.devices == stateData && Keyed(stateIndex, stateData)
    ensures fresh(o) && fresh(o.op) && o.Valid() && o.id == id && o.tasks == tasks
    ensures o.View() == BeginWait(t, targetLast, targetCurrent, Elements(tasks))
  {
    o := new WaitForStateOp(id, tasks, targetLast, targetCurrent);
    o.ResetCount(stateIndex, stateData, t);
    o.TryCompletion();
  }

  /** Enters a new operation. */
  lemma EnterWait(ops: WaitMap, o: WaitForStateOp, k: OpId)
    requires WaitValid(ops) && o.Valid() && o.id == k
    ensures WaitValid(ops[k := o]) && WaitViews(ops[k := o]) == WaitViews(ops)[k := o.View()]
  {
  }

  method StartSet(id: OpId, tasks: seq<TaskId>, stateIndex: map<TaskId, nat>, stateData: TopoState, ghost t: Table)
    returns (o: SetPropertiesOp)
    requires |Elements(tasks)| == |tasks| && Elements(tasks) <= stateIndex.Keys
    requires t.index == stateIndex && t.devices == stateData && Keyed(stateIndex, stateData)
    ensures fresh(o) && fresh(o.op) && o.Valid() && o.id == id && o.tasks == tasks
    ensures o.View() == BeginSet(t, Elements(tasks))
  {
    o := new SetPropertiesOp(id, tasks);
    o.ResetCount(stateIndex, stateData, FailedForSet(t, Elements(tasks)));
    o.TryCompletion();
  }

  /** Enters a new operation. */
  lemma EnterSet(ops: SetMap, o: SetPropertiesOp, k: OpId)
    requires SetValid(ops) && o.Valid() && o.id == k
    ensures SetValid(ops[k := o]) && SetViews(ops[k := o]) == SetViews(ops)[k := o.View()]
  {
  }

  lemma EnterGet(ops: GetMap, o: GetPropertiesOp, k: OpId)
    requires GetValid(ops) && o.Valid() && o.id == k
    ensures GetValid(ops[k := o]) && GetViews(ops[k := o]) == GetViews(ops)[k := o.View()]
  {
  }

  method StartGet(id: OpId, tasks: seq<TaskId>)
    returns (o: GetPropertiesOp)
    requires |Elements(tasks)| == |tasks|
    ensures fresh(o) && fresh(o.op) && o.Valid() && o.id == id && o.tasks == tasks
    ensures o.View() == GP.Begin(Elements(tasks))
  {
    o := new GetPropertiesOp(id, tasks);
  }

  method AddChange(c: ChangeMap, ghost w: WaitMap, ghost s: SetMap, ghost g: GetMap,
    k: OpId, tasks: seq<TaskId>, target: DeviceState, stateIndex: map<TaskId, nat>, stateData: TopoState,
    ghost t: Table)
    returns (more: ChangeMap)
    requires ChangeValid(c) && |Elements(tasks)| == |tasks| && Elements(tasks) <= stateIndex.Keys
    requires t.index == stateIndex && t.devices == stateData && Keyed(stateIndex, stateData)
    ensures ChangeValid(more) && more.Keys == c.Keys + {k} && more[k].tasks == tasks
    ensures forall j :: j in c && j != k ==> more[j] == c[j]
    ensures fresh(more[k]) && fresh(more[k].op)
    ensures ChangeViews(more) == old(ChangeViews(c))[k := BeginChange(t, target, Elements(tasks))]
    ensures WaitViews(w) == old(WaitViews(w)) && SetViews(s) == old(SetViews(s)) && GetViews(g) == old(GetViews(g))
  {
    var o := StartChange(k, tasks, target, stateIndex, stateData, t);
    KeepChange(c);
    KeepWait(w);
    KeepSet(s);
    KeepGet(g);
    EnterChange(c, o, k);
    more := c[k := o];
  }

  method AddWait(ghost c: ChangeMap, w: WaitMap, ghost s: SetMap, ghost g: GetMap,
    k: OpId, tasks: seq<TaskId>, targetLast: DeviceState, targetCurrent: DeviceState, stateIndex: map<TaskId, nat>,
    stateData: TopoState, ghost t: Table)
    returns (more: WaitMap)
    requires WaitValid(w) && |Elements(tasks)| == |tasks| && Elements(tasks) <= stateIndex.Keys
    requires t.index == stateIndex && t.devices == stateData && Keyed(stateIndex, stateData)
    ensures WaitValid(more) && more.Keys == w.Keys + {k} && more[k].tasks == tasks
    ensures forall j :: j in w && j != k ==> more[j] == w[j]
    ensures fresh(more[k]) && fresh(more[k].op)
    ensures WaitViews(more) == old(WaitViews(w))[k := BeginWait(t, targetLast, targetCurrent, Elements(tasks))]
    ensures ChangeViews(c) == old(ChangeViews(c)) && SetViews(s) == old(SetViews(s)) && GetViews(g) == old(GetViews(g))
  {
    var o := StartWait(k, tasks, targetLast, targetCurrent, stateIndex, stateData, t);
    KeepWait(w);
    KeepChange(c);
    KeepSet(s);
    KeepGet(g);
    EnterWait(w, o, k);
    more := w[k := o];
  }

  method AddSet(ghost c: ChangeMap, ghost w: WaitMap, s: SetMap, ghost g: GetMap,
    k: OpId, tasks: seq<TaskId>, stateIndex: map<TaskId, nat>, stateData: TopoState, ghost t: Table)
    returns (more: SetMap)
    requires SetValid(s) && |Elements(tasks)| == |tasks| && Elements(tasks) <= stateIndex.Keys
    requires t.index == stateIndex && t.devices == stateData && Keyed(stateIndex, stateData)
    ensures SetValid(more) && more.Keys == s.Keys + {k} && more[k].tasks == tasks
    ensures forall j :: j in s && j != k ==> more[j] == s[j]
    ensures fresh(more[k]) && fresh(more[k].op)
    ensures SetViews(more) == old(SetViews(s))[k := BeginSet(t, Elements(tasks))]
    ensures ChangeViews(c) == old(ChangeViews(c)) && WaitViews(w) == old(WaitViews(w)) &&
      GetViews(g) == old(GetViews(g))
  {
    var o := StartSet(k, tasks, stateIndex, stateData, t);
    KeepSet(s);
    KeepChange(c);
    KeepWait(w);
    KeepGet(g);
    EnterSet(s, o, k);
    more := s[k := o];
  }

  method AddGet(ghost c: ChangeMap, ghost w: WaitMap, ghost s: SetMap, g: GetMap,
    k: OpId, tasks: seq<TaskId>)
    returns (more: GetMap)
    requires GetValid(g) && |Elements(tasks)| == |tasks|
    ensures GetValid(more) && more.Keys == g.Keys + {k} && more[k].tasks == tasks
    ensures forall j :: j in g && j != k ==> more[j] == g[j]
    ensures fresh(more[k]) && fresh(more[k].op)
    ensures GetViews(more) == old(GetViews(g))[k := GP.Begin(Elements(tasks))]
    ensures ChangeViews(c) == old(ChangeViews(c)) && WaitViews(w) == old(WaitViews(w)) &&
      SetViews(s) == old(SetViews(s))
  {
    var o := StartGet(k, tasks);
    KeepGet(g);
    KeepChange(c);
    KeepWait(w);
    KeepSet(s);
    EnterGet(g, o, k);
    more := g[k := o];
  }
}
