/** What a topology does with a message of a device: `SubscribeToCommands` (odc/Topology.h). */
module Messages {
  import opened Basics
  import opened TopologyDefs
  import opened TopologyModel
  import opened TopologyObject
  import opened OperationMaps
  import opened DeviceCommands
  import CC = CustomCommands

  /** Dispatches on the kind of command. */
  method HandleCommand(t: Topology, c: CC.Cmd)
    requires t.Valid()
    modifies t`stateData, t`numPublishers, t`collectionInfo, t`ignoredCollections, t.Frame()
    ensures t.Valid() && t.Frame() == old(t.Frame())
    ensures t.Model() == After(old(t.Model()), c)
  {
    t.Outside();
    if c.StateChangeSubscription? {
      t.HandleSubscription(c.taskId, c.result);
    } else if c.StateChangeUnsubscription? {
      t.HandleUnsubscription(c.taskId, c.result);
    } else if c.StateChange? {
      t.HandleStateChange(c.taskId, c.lastState, c.currentState);
    } else if c.TransitionStatus? {
      t.HandleTransitionStatus(c.taskId, c.result);
    } else {
      HandleReply(t, c);
    }
  }

  method HandleReply(t: Topology, c: CC.Cmd)
    requires t.Valid() && (EventOf(c).Some? ==> c.Properties? || c.PropertiesSet?)
    modifies t`stateData, t`numPublishers, t`collectionInfo, t`ignoredCollections, t.Frame()
    ensures t.Valid() && t.Frame() == old(t.Frame())
    ensures t.Model() == After(old(t.Model()), c)
  {
    t.Outside();
    if c.Properties? {
      t.HandleProperties(c.requestId, c.taskId, c.result, c.props);
    } else if c.PropertiesSet? {
      t.HandlePropertiesSet(c.requestId, c.taskId, c.result);
    }
  }

  /** A message with any number of commands is a run of as many steps; one that cannot be decoded changes nothing. */
  method HandleMessage(t: Topology, tables: seq<CC.FBCommand>) returns (o: CC.Decoding, ghost cmds: seq<CC.Cmd>)
    requires t.Valid()
    modifies t`stateData, t`numPublishers, t`collectionInfo, t`ignoredCollections, t.Frame()
    ensures t.Valid()
    ensures CC.DecodesTo(tables, cmds, o)
    ensures t.Model() == if o == CC.Complete then RunFrom(old(t.Model()), EventsOf(cmds)) else old(t.Model())
  {
    var inCmds := new CC.Cmds([]);
    o := inCmds.Deserialize(tables);
    var received := inCmds.cmds;
    t.KeepAll();
    cmds := received;
    if o == CC.Complete {
      HandleAll(t, received);
    }
  }

  method HandleNext(t: Topology, cmds: seq<CC.Cmd>, i: nat, ghost s: Topo)
    requires t.Valid() && i < |cmds|
    requires t.Model() == RunFrom(s, EventsOf(cmds[..i]))
    modifies t`stateData, t`numPublishers, t`collectionInfo, t`ignoredCollections, t.Frame()
    ensures t.Valid() && t.Frame() == old(t.Frame())
    ensures t.Model() == RunFrom(s, EventsOf(cmds[..i + 1]))
  {
    RunOfNext(s, cmds, i);
    HandleCommand(t, cmds[i]);
  }

  method HandleAll(t: Topology, cmds: seq<CC.Cmd>)
    requires t.Valid()
    modifies t`stateData, t`numPublishers, t`collectionInfo, t`ignoredCollections, t.Frame()
    ensures t.Valid()
    ensures t.Model() == RunFrom(old(t.Model()), EventsOf(cmds))
  {
    ghost var s := t.Model();
    for i := 0 to |cmds|
      invariant t.Valid() && t.Frame() == old(t.Frame())
      invariant t.Model() == RunFrom(s, EventsOf(cmds[..i]))
    {
      HandleNext(t, cmds, i, s);
    }
    assert cmds[..|cmds|] == cmds;
  }
}
