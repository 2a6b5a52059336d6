/** The commands of devices as events of the topology (odc/Topology.h), and what has arrived when a device has sent one
    (odc/cc/CustomCommands.cpp). */
module DeviceCommands {
  import opened Basics
  import opened AsyncOps
  import opened TopologyDefs
  import opened TopologyModel
  import opened TopologyInvariants
  import opened Handlers
  import opened Deliveries
  import CC = CustomCommands

  /** The event a command stands for; other commands are not expected from devices and are only logged. */
  function EventOf(c: CC.Cmd): Option<Event> {
    if c.StateChangeSubscription? then Some(Subscription(c.taskId, c.result))
    else if c.StateChangeUnsubscription? then Some(Unsubscription(c.taskId, c.result))
    else if c.StateChange? then Some(StateChange(c.taskId, c.lastState, c.currentState))
    else if c.TransitionStatus? then Some(TransitionStatus(c.taskId, c.result))
    else if c.Properties? then Some(PropertiesReply(c.requestId, c.taskId, c.result, c.props))
    else if c.PropertiesSet? then Some(PropertiesSet(c.requestId, c.taskId, c.result))
    else None
  }

  function EventsOf(cmds: seq<CC.Cmd>): seq<Event> {
    if cmds == [] then []
    else
      var e := EventOf(cmds[|cmds| - 1]);
      EventsOf(cmds[..|cmds| - 1]) + if e.Some? then [e.value] else []
  }

  ghost function After(s: Topo, c: CC.Cmd): Topo {
    if EventOf(c).Some? then Step(s, EventOf(c).value) else s
  }

  lemma RunOfNext(s: Topo, cmds: seq<CC.Cmd>, i: nat)
    requires i < |cmds|
    ensures RunFrom(s, EventsOf(cmds[..i + 1])) == After(RunFrom(s, EventsOf(cmds[..i])), cmds[i])
  {
    var es := EventsOf(cmds[..i]);
    assert cmds[..i + 1][..i] == cmds[..i];
    if EventOf(cmds[i]).Some? {
      assert (es + [EventOf(cmds[i]).value])[..|es|] == es;
    } else {
      assert es + [] == es;
    }
  }

  // ---------------------------------------------------------------- from the device to the table

  /** `r` is the topology after the message with which a device sends a single command. */
  ghost predicate Received(s: Topo, c: CC.Cmd, r: Topo) {
    exists tables, cmds, o ::
      CC.Encodes([c], tables) && CC.DecodesTo(tables, cmds, o) && o == CC.Complete && r == RunFrom(s, EventsOf(cmds))
  }

  /** Nothing is lost on the way: the topology has made the step of that command. */
  lemma ReceivedAlone(s: Topo, c: CC.Cmd, tables: seq<CC.FBCommand>, cmds: seq<CC.Cmd>, o: CC.Decoding)
    requires CC.Encodes([c], tables) && CC.DecodesTo(tables, cmds, o)
    ensures o == CC.Complete && RunFrom(s, EventsOf(cmds)) == After(s, c)
  {
    CC.RoundTrip([c], tables, cmds, o);
    RunOfNext(s, [c], 0);
    assert [c][..0 + 1] == [c] && [c][..0] == [];
  }

  lemma ReceivedAfter(s: Topo, c: CC.Cmd, r: Topo)
    requires Received(s, c, r)
    ensures r == After(s, c)
  {
    var tables, cmds, o :|
      CC.Encodes([c], tables) && CC.DecodesTo(tables, cmds, o) && o == CC.Complete && r == RunFrom(s, EventsOf(cmds));
    ReceivedAlone(s, c, tables, cmds, o);
  }

  lemma ReceivedStep(s: Topo, c: CC.Cmd, e: Event, r: Topo)
    requires Received(s, c, r) && EventOf(c) == Some(e)
    ensures r == Step(s, e)
  {
    ReceivedAfter(s, c, r);
  }

  /** A command that no device is expected to send. */
  predicate ForDevices(c: CC.Cmd) {
    c.CheckState? || c.ChangeState? || c.DumpConfig? || c.SubscribeToStateChange? || c.UnsubscribeFromStateChange? ||
    c.GetProperties? || c.SetProperties? || c.SubscriptionHeartbeat? || c.Config?
  }

  lemma NoEvent(c: CC.Cmd)
    ensures EventOf(c).None? <==> ForDevices(c)
  {
  }

  /** Such a command changes nothing. */
  lemma OthersIgnored(s: Topo, c: CC.Cmd, r: Topo)
    requires Received(s, c, r) && EventOf(c).None?
    ensures r == s
  {
    ReceivedAfter(s, c, r);
  }

  /** What a device reports is what the table then says of it. */
  lemma StateChangeArrives(s: Topo, deviceId: string, id: TaskId, last: DeviceState, current: DeviceState, r: Topo)
    requires TableOk(s.table) && id in s.table.index
    requires Received(s, CC.StateChange(deviceId, id, last, current), r)
    ensures var i := s.table.index[id];
      && |r.table.devices| == |s.table.devices|
      && r.table.devices[i].lastState == last && r.table.devices[i].state == current
  {
    ReceivedStep(s, CC.StateChange(deviceId, id, last, current), StateChange(id, last, current), r);
    StateChangeReckons(s.table, id, last, current);
  }

  /** A confirmation sets the subscription flag of its sender, and a failed one does not. */
  lemma SubscriptionArrives(s: Topo, deviceId: string, id: TaskId, on: bool, result: CmdResult, r: Topo)
    requires TableOk(s.table) && id in s.table.index
    requires Received(s, if on then CC.StateChangeSubscription(deviceId, id, result)
                         else CC.StateChangeUnsubscription(deviceId, id, result), r)
    ensures var i := s.table.index[id];
      && |r.table.devices| == |s.table.devices|
      && r.table.devices[i] == if result == ResultOk then s.table.devices[i].(subscribed := on) else s.table.devices[i]
  {
    ReceivedStep(s, if on then CC.StateChangeSubscription(deviceId, id, result)
                    else CC.StateChangeUnsubscription(deviceId, id, result),
                 if on then Subscription(id, result) else Unsubscription(id, result), r);
    SubscriptionSays(s, id, on, result);
  }

  /** An answer reaches the operation it names, with its sender and its result. */
  lemma AnswerArrives(s: Topo, deviceId: string, id: TaskId, op: OpId, result: CmdResult, r: Topo)
    requires op in s.setOps && Received(s, CC.PropertiesSet(deviceId, id, op, result), r)
    ensures op in r.setOps && Answered(s.setOps[op], r.setOps[op], id, result == ResultOk, false)
  {
    ReceivedStep(s, CC.PropertiesSet(deviceId, id, op, result), PropertiesSet(op, id, result), r);
    PropertiesSetSays(s, op, id, result, op);
  }

  lemma PropertiesArrive(s: Topo, deviceId: string, id: TaskId, op: OpId, result: CmdResult, props: CC.PropertyList,
                         r: Topo)
    requires op in s.getOps && s.getOps[op].count < UINT32_RANGE
    requires Received(s, CC.Properties(deviceId, id, op, result, props), r)
    ensures op in r.getOps && Replied(s.getOps[op], r.getOps[op], id, result == ResultOk, props)
  {
    ReceivedStep(s, CC.Properties(deviceId, id, op, result, props), PropertiesReply(op, id, result, props), r);
    PropertiesReplySays(s, op, id, result, props, op);
  }

  /** A device that could not make a transition ends the open ChangeState operations that wait for it elsewhere. */
  lemma FailedTransitionArrives(s: Topo, deviceId: string, id: TaskId, transition: Transition, current: DeviceState,
                                op: OpId, r: Topo)
    requires TableOk(s.table) && id in s.table.index && op in s.changeOps && id in s.changeOps[op].core.tasks
    requires s.table.devices[s.table.index[id]].state != s.changeOps[op].target
    requires Received(s, CC.TransitionStatus(deviceId, id, ResultFailure, transition, current), r)
    ensures op in r.changeOps
    ensures GivenUp(s.changeOps[op].core, r.changeOps[op].core, DeviceChangeStateInvalidTransition, s.table.devices)
  {
    ReceivedStep(s, CC.TransitionStatus(deviceId, id, ResultFailure, transition, current),
                 TransitionStatus(id, ResultFailure), r);
    TransitionStatusSays(s, id, ResultFailure, op);
  }
}
