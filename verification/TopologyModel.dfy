/** The state that `BasicTopology` keeps under its mutex, and what each handler makes of it
    (odc/Topology.h). Every handler runs under the mutex, so a run is a sequence of whole steps.
    `Step` is given component by component: the device table, and each map of operations in flight. */
module TopologyModel {
  import opened Basics
  import opened TopologyDefs
  import opened AsyncOps
  import opened CountingOp
  import SP = SetPropertiesProtocol
  import GP = GetPropertiesProtocol

  /** What `IsExpendable` reads and writes. */
  datatype Table = Table(
    devices: TopoState,                         // mStateData
    index: map<TaskId, nat>,                    // mStateIndex
    publishers: nat,                            // mNumStateChangePublishers, an unsigned int
    names: map<CollectionId, string>,           // names of the runtime collections of the DDS topology
    info: map<string, CollectionInfo>,          // mCollectionInfo
    ignoredCollections: set<CollectionId>)      // history: collections ignored as a whole

  datatype ChangeOp = ChangeOp(target: DeviceState, core: StateOp<TopoState>)
  datatype WaitOp = WaitOp(targetLast: DeviceState, targetCurrent: DeviceState, core: StateOp<()>)

  datatype Topo = Topo(
    table: Table,
    changeOps: map<OpId, ChangeOp>,
    waitOps: map<OpId, WaitOp>,
    setOps: map<OpId, SP.SetOp>,
    getOps: map<OpId, GP.GetOp>,
    purged: map<OpId, nat>)                     // history: handler calls of operations erased from their maps

  datatype Event =
    | Subscription(id: TaskId, result: CmdResult)
    | Unsubscription(id: TaskId, result: CmdResult)
    | StateChange(id: TaskId, last: DeviceState, current: DeviceState)
    | TransitionStatus(id: TaskId, result: CmdResult)
    | PropertiesReply(op: OpId, id: TaskId, result: CmdResult, props: GP.Props)
    | PropertiesSet(op: OpId, id: TaskId, result: CmdResult)
    | TaskDone(id: TaskId, exitCode: int, signal: int)
    | ChangeTimeout(op: OpId)
    | WaitTimeout(op: OpId)
    | SetTimeout(op: OpId)
    | GetTimeout(op: OpId)
    | AsyncChangeState(op: OpId, transition: Transition, matched: set<TaskId>)
    | AsyncWaitForState(op: OpId, targetLast: DeviceState, targetCurrent: DeviceState, matched: set<TaskId>)
    | AsyncSetProperties(op: OpId, matched: set<TaskId>)
    | AsyncGetProperties(op: OpId, matched: set<TaskId>)

  // ---------------------------------------------------------------- device table

  ghost predicate Known(t: Table, id: TaskId) {
    id in t.index && t.index[id] < |t.devices|
  }

  ghost function Device(t: Table, id: TaskId): DeviceStatus
    requires Known(t, id)
  {
    t.devices[t.index[id]]
  }

  function Dec(n: nat): nat {
    (n - 1) % UINT32_RANGE
  }

  function Inc(n: nat): nat {
    (n + 1) % UINT32_RANGE
  }

  ghost function SetSubscribed(t: Table, id: TaskId, on: bool): Table {
    if Known(t, id) && Device(t, id).subscribed != on then
      t.(devices := t.devices[t.index[id] := Device(t, id).(subscribed := on)],
         publishers := if on then Inc(t.publishers) else Dec(t.publishers))
    else t
  }

  // ---------------------------------------------------------------- IsExpendable

  /** The device is in a collection whose info is kept. */
  ghost predicate HasInfo(t: Table, d: DeviceStatus) {
    d.collectionId != 0 && d.collectionId in t.names && t.names[d.collectionId] in t.info
  }

  ghost function InfoOf(t: Table, d: DeviceStatus): CollectionInfo
    requires HasInfo(t, d)
  {
    t.info[t.names[d.collectionId]]
  }

  ghost predicate CanIgnoreCollection(t: Table, d: DeviceStatus) {
    HasInfo(t, d) && InfoOf(t, d).nMin != 0 && InfoOf(t, d).nCurrent - 1 >= InfoOf(t, d).nMin
  }

  /** The answer of `IsExpendable`. */
  ghost predicate Verdict(t: Table, d: DeviceStatus) {
    d.ignored || d.expendable || CanIgnoreCollection(t, d)
  }

  ghost function SubscribedIn(devices: TopoState, c: CollectionId): set<nat> {
    set i: nat | i < |devices| && devices[i].collectionId == c && devices[i].subscribed
  }

  function IgnoredDevice(d: DeviceStatus): DeviceStatus {
    d.(subscribed := false, ignored := true)
  }

  ghost function IgnoreCollection(devices: TopoState, c: CollectionId): (r: TopoState)
    ensures |r| == |devices|
    ensures forall i :: 0 <= i < |r| ==>
      r[i] == if devices[i].collectionId == c then IgnoredDevice(devices[i]) else devices[i]
  {
    seq(|devices|, i requires 0 <= i < |devices| =>
      if devices[i].collectionId == c then IgnoredDevice(devices[i]) else devices[i])
  }

  /** One more instance of the device's collection has failed. */
  ghost function LowerCurrent(t: Table, d: DeviceStatus): map<string, CollectionInfo>
    requires HasInfo(t, d)
  {
    t.info[t.names[d.collectionId] := InfoOf(t, d).(nCurrent := InfoOf(t, d).nCurrent - 1)]
  }

  /** The side effects of `IsExpendable` for the device at position `i`. */
  ghost function AfterVerdict(t: Table, i: nat): Table
    requires i < |t.devices|
  {
    var d := t.devices[i];
    if d.ignored then t
    else if d.expendable then t.(devices := t.devices[i := d.(ignored := true)])
    else if !HasInfo(t, d) then t
    else if !CanIgnoreCollection(t, d) then t.(info := LowerCurrent(t, d))
    else t.(info := LowerCurrent(t, d),
            devices := IgnoreCollection(t.devices, d.collectionId),
            publishers := (t.publishers - |SubscribedIn(t.devices, d.collectionId)|) % UINT32_RANGE,
            ignoredCollections := t.ignoredCollections + {d.collectionId})
  }

  // ---------------------------------------------------------------- state reports and exits

  ghost predicate IsReport(t: Table, e: Event) {
    (e.StateChange? || e.TaskDone?) && Known(t, e.id)
  }

  /** Only an exit from Idle or Exiting is expected, and only with exit code 0. */
  predicate Unexpected(d: DeviceStatus, e: Event)
    requires e.StateChange? || e.TaskDone?
  {
    if e.StateChange? then e.current == Error || (e.current == Exiting && d.state != Idle)
    else (d.state != Idle && d.state != Exiting) || e.exitCode > 0
  }

  function NewStatus(d: DeviceStatus, e: Event): DeviceStatus
    requires e.StateChange? || e.TaskDone?
  {
    if e.StateChange? then d.(lastState := e.last, state := e.current)
    else d.(subscribed := false, exitCode := e.exitCode, signal := e.signal, lastState := d.state,
            state := if Unexpected(d, e) then Error else Exiting)
  }

  /** The device entry after the report, before any verdict. */
  ghost function Absorb(t: Table, e: Event): Table
    requires IsReport(t, e)
  {
    var d := Device(t, e.id);
    t.(devices := t.devices[t.index[e.id] := NewStatus(d, e)],
       publishers := if e.TaskDone? && d.subscribed then Dec(t.publishers) else t.publishers)
  }

  /** The handler asks `IsExpendable`. */
  ghost predicate Asked(t: Table, e: Event) {
    IsReport(t, e) && Unexpected(Device(t, e.id), e)
  }

  /** The `expendable` flag handed to the operations. */
  ghost predicate Expendable(t: Table, e: Event)
    requires IsReport(t, e)
  {
    Asked(t, e) && Verdict(Absorb(t, e), NewStatus(Device(t, e.id), e))
  }

  ghost function Judged(t: Table, e: Event): Table
    requires IsReport(t, e)
  {
    if Asked(t, e) then AfterVerdict(Absorb(t, e), t.index[e.id]) else Absorb(t, e)
  }

  /** What a handler makes of the device table. */
  ghost function StepTable(t: Table, e: Event): Table {
    match e
    case Subscription(id, result) => if result == ResultOk then SetSubscribed(t, id, true) else t
    case Unsubscription(id, result) => if result == ResultOk then SetSubscribed(t, id, false) else t
    case StateChange(_, _, _) => if IsReport(t, e) then Judged(t, e) else t
    case TaskDone(_, _, _) => if IsReport(t, e) then Judged(t, e) else t
    case _ => t
  }

  // ---------------------------------------------------------------- ChangeState operations

  /** `GetTasks`: the matched tasks that are not ignored. */
  ghost function GetTasks(t: Table, matched: set<TaskId>): set<TaskId> {
    set id | id in matched && Known(t, id) && !Device(t, id).ignored
  }

  function ChangeReport(target: DeviceState, current: DeviceState, expendable: bool): Report {
    if current == target then Hit else if FailedState(current) then Fault(expendable) else Miss
  }

  ghost function DeliverChange(o: ChangeOp, id: TaskId, current: DeviceState, expendable: bool,
                               arg: TopoState): ChangeOp {
    o.(core := Deliver(o.core, id, ChangeReport(o.target, current, expendable), arg))
  }

  /** A device could not perform a transition: every open operation waiting for it fails, unless the
      device is at the target anyway. */
  ghost function FailTransition(t: Table, o: ChangeOp, id: TaskId): ChangeOp {
    if Known(t, id) then FailIn(o, id, Device(t, id).state, t.devices) else o
  }

  ghost function FailIn(o: ChangeOp, id: TaskId, state: DeviceState, devices: TopoState): ChangeOp {
    if id in o.core.tasks && state != o.target then
      o.(core := Abort(o.core, DeviceChangeStateInvalidTransition, devices))
    else o
  }

  /** The tasks that need not be waited for: at the target, or in Error or Exiting. */
  ghost function SettledForChange(t: Table, target: DeviceState, tasks: set<TaskId>): set<TaskId> {
    set id | id in tasks && Known(t, id) && (Device(t, id).state == target || FailedState(Device(t, id).state))
  }

  ghost function FailedForChange(t: Table, target: DeviceState, tasks: set<TaskId>): set<TaskId> {
    set id | id in tasks && Known(t, id) && Device(t, id).state != target && FailedState(Device(t, id).state)
  }

  ghost function BeginChange(t: Table, target: DeviceState, tasks: set<TaskId>): ChangeOp {
    ChangeOp(target, Begin(tasks, SettledForChange(t, target, tasks), FailedForChange(t, target, tasks), t.devices))
  }

  ghost function OpenChange(ops: map<OpId, ChangeOp>): map<OpId, ChangeOp> {
    map k | k in ops && !ops[k].core.async.completed :: ops[k]
  }

  ghost function DeliverChanges(ops: map<OpId, ChangeOp>, id: TaskId, current: DeviceState, expendable: bool,
                                arg: TopoState): map<OpId, ChangeOp> {
    map k | k in ops :: DeliverChange(ops[k], id, current, expendable, arg)
  }

  ghost function FailAll(ops: map<OpId, ChangeOp>, id: TaskId, state: DeviceState,
                         devices: TopoState): map<OpId, ChangeOp> {
    map k | k in ops :: FailIn(ops[k], id, state, devices)
  }

  ghost function FailTransitions(t: Table, ops: map<OpId, ChangeOp>, id: TaskId): map<OpId, ChangeOp> {
    if Known(t, id) then FailAll(ops, id, Device(t, id).state, t.devices) else ops
  }

  ghost function NotifyChange(t: Table, ops: map<OpId, ChangeOp>, e: Event): map<OpId, ChangeOp>
    requires IsReport(t, e)
  {
    DeliverChanges(ops, e.id, NewStatus(Device(t, e.id), e).state, Expendable(t, e), Judged(t, e).devices)
  }

  ghost function ExpireChange(o: ChangeOp, devices: TopoState): ChangeOp {
    o.(core := Abort(o.core, OperationTimeout, devices))
  }

  /** What a handler makes of the ChangeState operations. An initiation first erases the completed ones;
      `Auto` and `ErrorFound` have no expected state and throw after that. */
  ghost function StepChange(t: Table, ops: map<OpId, ChangeOp>, isNew: bool, e: Event): map<OpId, ChangeOp> {
    if IsReport(t, e) then NotifyChange(t, ops, e)
    else if e.TransitionStatus? && e.result != ResultOk then FailTransitions(t, ops, e.id)
    else if e.ChangeTimeout? && e.op in ops then ops[e.op := ExpireChange(ops[e.op], t.devices)]
    else if e.AsyncChangeState? && isNew then
      if ExpectedState(e.transition).None? then OpenChange(ops)
      else OpenChange(ops)[e.op := BeginChange(t, ExpectedState(e.transition).value, GetTasks(t, e.matched))]
    else ops
  }

  // ---------------------------------------------------------------- WaitForState operations

  predicate AtWaitTarget(last: DeviceState, current: DeviceState, targetLast: DeviceState, targetCurrent: DeviceState) {
    current == targetCurrent && (last == targetLast || targetLast == Undefined)
  }

  function WaitReport(targetLast: DeviceState, targetCurrent: DeviceState,
                      last: DeviceState, current: DeviceState, expendable: bool): Report
  {
    if AtWaitTarget(last, current, targetLast, targetCurrent) then Hit
    else if FailedState(current) then Fault(expendable)
    else Miss
  }

  ghost function DeliverWait(o: WaitOp, id: TaskId, last: DeviceState, current: DeviceState, expendable: bool): WaitOp {
    o.(core := Deliver(o.core, id, WaitReport(o.targetLast, o.targetCurrent, last, current, expendable), ()))
  }

  ghost predicate WaitSatisfied(t: Table, id: TaskId, targetLast: DeviceState, targetCurrent: DeviceState)
    requires Known(t, id)
  {
    AtWaitTarget(Device(t, id).lastState, Device(t, id).state, targetLast, targetCurrent)
  }

  ghost function SettledForWait(t: Table, targetLast: DeviceState, targetCurrent: DeviceState,
                                tasks: set<TaskId>): set<TaskId> {
    set id | id in tasks && Known(t, id) &&
      (WaitSatisfied(t, id, targetLast, targetCurrent) || FailedState(Device(t, id).state))
  }

  ghost function FailedForWait(t: Table, targetLast: DeviceState, targetCurrent: DeviceState,
                               tasks: set<TaskId>): set<TaskId> {
    set id | id in tasks && Known(t, id) && !WaitSatisfied(t, id, targetLast, targetCurrent) &&
      FailedState(Device(t, id).state)
  }

  ghost function BeginWait(t: Table, targetLast: DeviceState, targetCurrent: DeviceState, tasks: set<TaskId>): WaitOp {
    WaitOp(targetLast, targetCurrent,
      Begin(tasks, SettledForWait(t, targetLast, targetCurrent, tasks),
        FailedForWait(t, targetLast, targetCurrent, tasks), ()))
  }

  ghost function OpenWait(ops: map<OpId, WaitOp>): map<OpId, WaitOp> {
    map k | k in ops && !ops[k].core.async.completed :: ops[k]
  }

  ghost function DeliverWaits(ops: map<OpId, WaitOp>, id: TaskId, last: DeviceState, current: DeviceState,
                              expendable: bool): map<OpId, WaitOp> {
    map k | k in ops :: DeliverWait(ops[k], id, last, current, expendable)
  }

  ghost function NotifyWait(t: Table, ops: map<OpId, WaitOp>, e: Event): map<OpId, WaitOp>
    requires IsReport(t, e)
  {
    var d := NewStatus(Device(t, e.id), e);
    DeliverWaits(ops, e.id, d.lastState, d.state, Expendable(t, e))
  }

  ghost function ExpireWait(o: WaitOp): WaitOp {
    o.(core := Abort(o.core, OperationTimeout, ()))
  }

  ghost function StepWait(t: Table, ops: map<OpId, WaitOp>, isNew: bool, e: Event): map<OpId, WaitOp> {
    if IsReport(t, e) then NotifyWait(t, ops, e)
    else if e.WaitTimeout? && e.op in ops then ops[e.op := ExpireWait(ops[e.op])]
    else if e.AsyncWaitForState? && isNew then
      OpenWait(ops)[e.op := BeginWait(t, e.targetLast, e.targetCurrent, GetTasks(t, e.matched))]
    else ops
  }

  // ---------------------------------------------------------------- property operations

  ghost function FailedForSet(t: Table, tasks: set<TaskId>): set<TaskId> {
    set id | id in tasks && Known(t, id) && FailedState(Device(t, id).state)
  }

  ghost function BeginSet(t: Table, tasks: set<TaskId>): SP.SetOp {
    SP.Begin(tasks, FailedForSet(t, tasks))
  }

  ghost function DeliverSets(ops: map<OpId, SP.SetOp>, id: TaskId, expendable: bool): map<OpId, SP.SetOp> {
    map k | k in ops :: SP.Deliver(ops[k], id, SP.Failed(expendable))
  }

  ghost function NotifySet(t: Table, ops: map<OpId, SP.SetOp>, e: Event): map<OpId, SP.SetOp>
    requires IsReport(t, e)
  {
    DeliverSets(ops, e.id, Expendable(t, e))
  }

  function SetReply(result: CmdResult): SP.Reply {
    if result == ResultOk then SP.Acked else SP.Failed(false)
  }

  /** Completed SetProperties operations are never erased. */
  ghost function StepSet(t: Table, ops: map<OpId, SP.SetOp>, isNew: bool, e: Event): map<OpId, SP.SetOp> {
    if Asked(t, e) then NotifySet(t, ops, e)
    else if e.PropertiesSet? && e.op in ops then ops[e.op := SP.Deliver(ops[e.op], e.id, SetReply(e.result))]
    else if e.SetTimeout? && e.op in ops then ops[e.op := SP.Abort(ops[e.op], OperationTimeout)]
    else if e.AsyncSetProperties? && isNew then ops[e.op := BeginSet(t, GetTasks(t, e.matched))]
    else ops
  }

  ghost function OpenGet(ops: map<OpId, GP.GetOp>): map<OpId, GP.GetOp> {
    map k | k in ops && !ops[k].async.completed :: ops[k]
  }

  /** Initiating SetProperties erases the completed GetProperties operations, too. */
  ghost function StepGet(t: Table, ops: map<OpId, GP.GetOp>, isNew: bool, e: Event): map<OpId, GP.GetOp> {
    if e.PropertiesReply? && e.op in ops then ops[e.op := GP.Deliver(ops[e.op], e.id, e.result == ResultOk, e.props)]
    else if e.GetTimeout? && e.op in ops then ops[e.op := GP.Abort(ops[e.op], OperationTimeout)]
    else if e.AsyncSetProperties? && isNew then OpenGet(ops)
    else if e.AsyncGetProperties? && isNew then OpenGet(ops)[e.op := GP.Begin(GetTasks(t, e.matched))]
    else ops
  }

  // ---------------------------------------------------------------- steps and runs

  ghost function Initiated(s: Topo): set<OpId> {
    s.changeOps.Keys + s.waitOps.Keys + s.setOps.Keys + s.getOps.Keys + s.purged.Keys
  }

  ghost predicate IsInitiation(e: Event) {
    e.AsyncChangeState? || e.AsyncWaitForState? || e.AsyncSetProperties? || e.AsyncGetProperties?
  }

  /** A new operation has an id that no operation had before; anything else is not a step. */
  ghost predicate Fresh(s: Topo, e: Event) {
    IsInitiation(e) && e.op !in Initiated(s)
  }

  ghost function StepPurged(s: Topo, isNew: bool, e: Event): map<OpId, nat> {
    if !isNew then s.purged
    else if e.AsyncChangeState? then
      s.purged + map k | k in s.changeOps && s.changeOps[k].core.async.completed :: |s.changeOps[k].core.async.calls|
    else if e.AsyncWaitForState? then
      s.purged + map k | k in s.waitOps && s.waitOps[k].core.async.completed :: |s.waitOps[k].core.async.calls|
    else
      s.purged + map k | k in s.getOps && s.getOps[k].async.completed :: |s.getOps[k].async.calls|
  }

  ghost function Step(s: Topo, e: Event): Topo {
    Topo(StepTable(s.table, e),
         StepChange(s.table, s.changeOps, Fresh(s, e), e),
         StepWait(s.table, s.waitOps, Fresh(s, e), e),
         StepSet(s.table, s.setOps, Fresh(s, e), e),
         StepGet(s.table, s.getOps, Fresh(s, e), e),
         StepPurged(s, Fresh(s, e), e))
  }

  ghost function RunFrom(s: Topo, es: seq<Event>): Topo {
    if es == [] then s else Step(RunFrom(s, es[..|es| - 1]), es[|es| - 1])
  }

  /** The index and the table describe the same tasks, and the runtime collections of all devices are known. */
  ghost predicate TableOk(t: Table) {
    && |t.devices| < INT32_RANGE
    && (forall id :: id in t.index ==> t.index[id] < |t.devices| && t.devices[t.index[id]].taskId == id)
    && (forall i :: 0 <= i < |t.devices| ==> t.devices[i].taskId in t.index && t.index[t.devices[i].taskId] == i)
    && (forall i :: 0 <= i < |t.devices| && t.devices[i].collectionId != 0 ==> t.devices[i].collectionId in t.names)
  }

  /** No device is ignored or subscribed, and no operation has been initiated; devices may be in any state. */
  ghost predicate Initial(s: Topo) {
    && TableOk(s.table)
    && (forall i :: 0 <= i < |s.table.devices| ==> !s.table.devices[i].ignored && !s.table.devices[i].subscribed)
    && s.table.publishers == 0 && s.table.ignoredCollections == {}
    && s.changeOps == map[] && s.waitOps == map[] && s.setOps == map[] && s.getOps == map[] && s.purged == map[]
  }

  /** The state right after construction: nothing is known of any device. */
  ghost predicate Constructed(s: Topo) {
    Initial(s) && forall i :: 0 <= i < |s.table.devices| ==>
      var d := s.table.devices[i];
      d.lastState == Undefined && d.state == Undefined && d.exitCode == -1 && d.signal == -1
  }
}
