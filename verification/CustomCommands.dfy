/** The command encoder and decoder (odc/cc/CustomCommands.cpp) at the level of FlatBuffers tables
    (odc/cc/CustomCommandsFormat.fbs): a table holds a field or not, and a field that is not there reads as
    its default. */
module CustomCommands {
  import opened Basics
  import opened TopologyDefs

  type PropertyList = seq<(string, string)>

  datatype Cmd =
    | CheckState
    | ChangeState(transition: Transition)
    | DumpConfig
    | SubscribeToStateChange(interval: int)
    | UnsubscribeFromStateChange
    | GetProperties(requestId: nat, query: string)
    | SetProperties(requestId: nat, props: PropertyList)
    | SubscriptionHeartbeat(interval: int)
    | TransitionStatus(deviceId: string, taskId: nat, result: CmdResult, transition: Transition,
      currentState: DeviceState)
    | Config(deviceId: string, config: string)
    | StateChangeSubscription(deviceId: string, taskId: nat, result: CmdResult)
    | StateChangeUnsubscription(deviceId: string, taskId: nat, result: CmdResult)
    | StateChange(deviceId: string, taskId: nat, lastState: DeviceState, currentState: DeviceState)
    | Properties(deviceId: string, taskId: nat, requestId: nat, result: CmdResult, props: PropertyList)
    | PropertiesSet(deviceId: string, taskId: nat, requestId: nat, result: CmdResult)

  // ---------------------------------------------------------------- tables

  datatype FBProperty = FBProperty(key: Option<string>, value: Option<string>)

  /** Enumerations are bytes; the fields `state` and `debug`, which nothing reads or writes, are left out. */
  datatype FBCommand = FBCommand(
    commandId: Option<int>,
    deviceId: Option<string>,
    taskId: Option<nat>,
    requestId: Option<nat>,
    interval: Option<int>,
    transition: Option<int>,
    result: Option<int>,
    configString: Option<string>,
    lastState: Option<int>,
    currentState: Option<int>,
    properties: Option<seq<FBProperty>>,
    propertyQuery: Option<string>)

  const EMPTY: FBCommand := FBCommand(None, None, None, None, None, None, None, None, None, None, None, None)

  /** Adding a scalar leaves it out if it equals the default. */
  function Elided<T(==)>(v: T, default: T): Option<T> {
    if v == default then None else Some(v)
  }

  /** Reading a scalar gives the default if it is not there. */
  function Restored<T>(o: Option<T>, default: T): T {
    if o.Some? then o.value else default
  }

  // ---------------------------------------------------------------- enumerations

  /** The tables are indexed by the enumeration of the other side; an index out of range throws. */
  const fbStateToMQState: seq<DeviceState> :=
    [Undefined, Ok, Error, Idle, InitializingDevice, Initialized, Binding, Bound,
     Connecting, DeviceReady, InitializingTask, Ready, Running, ResettingTask, ResettingDevice, Exiting]
  const mqStateToFBState: seq<int> := [0, 1, 2, 3, 4, 5, 6, 7, 8, 9, 10, 11, 12, 13, 14, 15]
  const fbTransitionToMQTransition: seq<Transition> :=
    [Auto, InitDevice, CompleteInit, Bind, Connect, InitTask, Run, Stop, ResetTask, ResetDevice, End, ErrorFound]
  const mqTransitionToFBTransition: seq<int> := [0, 1, 2, 3, 4, 5, 6, 7, 8, 9, 10, 11]
  const fbResultToResult: seq<CmdResult> := [ResultOk, ResultFailure]

  function GetMQState(s: int): Option<DeviceState> {
    if 0 <= s < |fbStateToMQState| then Some(fbStateToMQState[s]) else None
  }

  function GetFBState(s: DeviceState): int {
    mqStateToFBState[s]
  }

  function GetMQTransition(t: int): Option<Transition> {
    if 0 <= t < |fbTransitionToMQTransition| then Some(fbTransitionToMQTransition[t]) else None
  }

  function GetFBTransition(t: Transition): int {
    mqTransitionToFBTransition[t]
  }

  function GetResult(r: int): Option<CmdResult> {
    if 0 <= r < |fbResultToResult| then Some(fbResultToResult[r]) else None
  }

  function GetFBResult(r: CmdResult): int {
    if r == ResultOk then 0 else 1
  }

  /** The enumeration tables are mutually inverse. */
  lemma StateTablesInverse(s: DeviceState, i: int)
    ensures GetMQState(GetFBState(s)) == Some(s)
    ensures GetMQState(i).Some? <==> 0 <= i < 16
    ensures GetMQState(i).Some? ==> GetFBState(GetMQState(i).value) == i
  {
  }

  lemma TransitionTablesInverse(t: Transition, i: int)
    ensures GetMQTransition(GetFBTransition(t)) == Some(t)
    ensures GetMQTransition(i).Some? <==> 0 <= i < 12
    ensures GetMQTransition(i).Some? ==> GetFBTransition(GetMQTransition(i).value) == i
  {
  }

  lemma ResultTablesInverse(r: CmdResult, i: int)
    ensures GetResult(GetFBResult(r)) == Some(r)
    ensures GetResult(i).Some? ==> GetFBResult(GetResult(i).value) == i
  {
  }

  /** The position of a command's kind in `Type` and, by `typeToFBCmd`, in `FBCmd`. */
  function GetFBCmd(c: Cmd): (id: int)
    ensures 0 <= id < 15
  {
    match c
    case CheckState => 0
    case ChangeState(_) => 1
    case DumpConfig => 2
    case SubscribeToStateChange(_) => 3
    case UnsubscribeFromStateChange => 4
    case GetProperties(_, _) => 5
    case SetProperties(_, _) => 6
    case SubscriptionHeartbeat(_) => 7
    case TransitionStatus(_, _, _, _, _) => 8
    case Config(_, _) => 9
    case StateChangeSubscription(_, _, _) => 10
    case StateChangeUnsubscription(_, _, _) => 11
    case StateChange(_, _, _, _) => 12
    case Properties(_, _, _, _, _) => 13
    case PropertiesSet(_, _, _, _) => 14
  }

  /** Both sides list the same states, transitions and results in the same order. */
  lemma EnumerationsAgree(s: DeviceState, t: Transition)
    ensures GetFBState(s) == s && GetFBTransition(t) == t && GetFBResult(ResultOk) == 0 &&
      GetFBResult(ResultFailure) == 1
  {
  }

  // ---------------------------------------------------------------- properties

  function EncodeProps(props: PropertyList): (r: seq<FBProperty>)
    ensures |r| == |props|
  {
    if props == [] then []
    else EncodeProps(props[..|props| - 1]) + [FBProperty(Some(props[|props| - 1].0), Some(props[|props| - 1].1))]
  }

  /** None where a key or value is not there. */
  function DecodeProps(props: seq<FBProperty>): Option<PropertyList> {
    if props == [] then Some([])
    else
      var before, p := DecodeProps(props[..|props| - 1]), props[|props| - 1];
      if before.Some? && p.key.Some? && p.value.Some? then Some(before.value + [(p.key.value, p.value.value)]) else None
  }

  lemma {:induction false} PropsRoundTrip(props: PropertyList)
    ensures DecodeProps(EncodeProps(props)) == Some(props)
  {
    if props != [] {
      PropsRoundTrip(props[..|props| - 1]);
      assert EncodeProps(props)[..|props| - 1] == EncodeProps(props[..|props| - 1]);
      assert props == props[..|props| - 1] + [props[|props| - 1]];
    }
  }

  // ---------------------------------------------------------------- one command

  /** What the builder makes of a command. */
  function Fields(c: Cmd): FBCommand {
    match c
    case CheckState => EMPTY
    case ChangeState(transition) => EMPTY.(transition := Elided(GetFBTransition(transition), 0))
    case DumpConfig => EMPTY
    case SubscribeToStateChange(interval) => EMPTY.(interval := Elided(interval, 0))
    case UnsubscribeFromStateChange => EMPTY
    case GetProperties(requestId, query) => EMPTY.(requestId := Elided(requestId, 0), propertyQuery := Some(query))
    case SetProperties(requestId, props) =>
      EMPTY.(requestId := Elided(requestId, 0), properties := Some(EncodeProps(props)))
    case SubscriptionHeartbeat(interval) => EMPTY.(interval := Elided(interval, 0))
    case TransitionStatus(deviceId, taskId, result, transition, currentState) =>
      EMPTY.(deviceId := Some(deviceId), taskId := Elided(taskId, 0), result := Elided(GetFBResult(result), 0),
             transition := Elided(GetFBTransition(transition), 0), currentState := Elided(GetFBState(currentState), 0))
    case Config(deviceId, config) => EMPTY.(deviceId := Some(deviceId), configString := Some(config))
    case StateChangeSubscription(deviceId, taskId, result) =>
      EMPTY.(deviceId := Some(deviceId), taskId := Elided(taskId, 0), result := Elided(GetFBResult(result), 0))
    case StateChangeUnsubscription(deviceId, taskId, result) =>
      EMPTY.(deviceId := Some(deviceId), taskId := Elided(taskId, 0), result := Elided(GetFBResult(result), 0))
    case StateChange(deviceId, taskId, lastState, currentState) =>
      EMPTY.(deviceId := Some(deviceId), taskId := Elided(taskId, 0), lastState := Elided(GetFBState(lastState), 0),
             currentState := Elided(GetFBState(currentState), 0))
    case Properties(deviceId, taskId, requestId, result, props) =>
      EMPTY.(deviceId := Some(deviceId), taskId := Elided(taskId, 0), requestId := Elided(requestId, 0),
             result := Elided(GetFBResult(result), 0), properties := Some(EncodeProps(props)))
    case PropertiesSet(deviceId, taskId, requestId, result) =>
      EMPTY.(deviceId := Some(deviceId), taskId := Elided(taskId, 0), requestId := Elided(requestId, 0),
             result := Elided(GetFBResult(result), 0))
  }

  function Encode(c: Cmd): FBCommand {
    Fields(c).(commandId := Elided(GetFBCmd(c), 0))
  }

  /** A number as it is written: nothing for 0. */
  function Wire(n: nat): Option<nat> {
    if n == 0 then None else Some(n)
  }

  function WireResult(r: CmdResult): Option<nat> {
    if r == ResultOk then None else Some(1)
  }

  /** The tables that devices send, field by field. */
  lemma WireOfDevice(c: Cmd, t: FBCommand)
    requires t == Encode(c)
    ensures c.TransitionStatus? ==>
      t == FBCommand(Some(8), Some(c.deviceId), Wire(c.taskId), None, None, Wire(c.transition), WireResult(c.result),
                     None, None, Wire(c.currentState), None, None)
    ensures c.Config? ==>
      t == FBCommand(Some(9), Some(c.deviceId), None, None, None, None, None, Some(c.config), None, None, None, None)
    ensures c.StateChangeSubscription? ==>
      t == FBCommand(Some(10), Some(c.deviceId), Wire(c.taskId), None, None, None, WireResult(c.result),
                     None, None, None, None, None)
    ensures c.StateChangeUnsubscription? ==>
      t == FBCommand(Some(11), Some(c.deviceId), Wire(c.taskId), None, None, None, WireResult(c.result),
                     None, None, None, None, None)
    ensures c.StateChange? ==>
      t == FBCommand(Some(12), Some(c.deviceId), Wire(c.taskId), None, None, None, None,
                     None, Wire(c.lastState), Wire(c.currentState), None, None)
    ensures c.PropertiesSet? ==>
      t == FBCommand(Some(14), Some(c.deviceId), Wire(c.taskId), Wire(c.requestId), None, None, WireResult(c.result),
                     None, None, None, None, None)
    ensures c.Properties? ==>
      t == FBCommand(Some(13), Some(c.deviceId), Wire(c.taskId), Wire(c.requestId), None, None, WireResult(c.result),
                     None, None, None, t.properties, None) && WireProps(c.props, t.properties)
  {
    if c.Properties? {
      PropsWritten(c.props);
    }
  }

  /** The tables that the controller sends. */
  lemma WireOfController(c: Cmd, t: FBCommand)
    requires t == Encode(c)
    ensures c.CheckState? ==> t == EMPTY
    ensures c.ChangeState? ==> t == EMPTY.(commandId := Some(1), transition := Wire(c.transition))
    ensures c.DumpConfig? ==> t == EMPTY.(commandId := Some(2))
    ensures c.SubscribeToStateChange? ==>
      t == EMPTY.(commandId := Some(3), interval := if c.interval == 0 then None else Some(c.interval))
    ensures c.UnsubscribeFromStateChange? ==> t == EMPTY.(commandId := Some(4))
    ensures c.GetProperties? ==>
      t == EMPTY.(commandId := Some(5), requestId := Wire(c.requestId), propertyQuery := Some(c.query))
    ensures c.SetProperties? ==>
      t == EMPTY.(commandId := Some(6), requestId := Wire(c.requestId), properties := t.properties) &&
      WireProps(c.props, t.properties)
    ensures c.SubscriptionHeartbeat? ==>
      t == EMPTY.(commandId := Some(7), interval := if c.interval == 0 then None else Some(c.interval))
  {
    if c.SetProperties? {
      PropsWritten(c.props);
    }
  }

  /** The keys and values, in order. */
  ghost predicate WireProps(props: PropertyList, t: Option<seq<FBProperty>>) {
    t.Some? && |t.value| == |props| &&
    forall i :: 0 <= i < |props| ==> t.value[i] == FBProperty(Some(props[i].0), Some(props[i].1))
  }

  lemma {:induction false} PropsWritten(props: PropertyList)
    ensures WireProps(props, Some(EncodeProps(props)))
  {
    if props != [] {
      PropsWritten(props[..|props| - 1]);
    }
  }

  /** Decoding one table: the command; or its id is none of the fifteen, which throws; or a field it needs is
      missing or out of range. */
  datatype Decoded = Good(cmd: Cmd) | Unrecognized | Unreadable

  function Restore(o: Option<int>): int {
    Restored(o, 0)
  }

  function DecodeTransitionStatus(t: FBCommand): Decoded {
    var result, transition, state :=
      GetResult(Restore(t.result)), GetMQTransition(Restore(t.transition)), GetMQState(Restore(t.currentState));
    if t.deviceId.Some? && result.Some? && transition.Some? && state.Some? then
      Good(TransitionStatus(t.deviceId.value, Restored(t.taskId, 0), result.value, transition.value, state.value))
    else Unreadable
  }

  function DecodeStateChange(t: FBCommand): Decoded {
    var last, current := GetMQState(Restore(t.lastState)), GetMQState(Restore(t.currentState));
    if t.deviceId.Some? && last.Some? && current.Some? then
      Good(StateChange(t.deviceId.value, Restored(t.taskId, 0), last.value, current.value))
    else Unreadable
  }

  function DecodeProperties(t: FBCommand): Decoded {
    var result := GetResult(Restore(t.result));
    var props := if t.properties.Some? then DecodeProps(t.properties.value) else None;
    if t.deviceId.Some? && result.Some? && props.Some? then
      Good(Properties(t.deviceId.value, Restored(t.taskId, 0), Restored(t.requestId, 0), result.value, props.value))
    else Unreadable
  }

  function DecodeSetProperties(t: FBCommand): Decoded {
    var props := if t.properties.Some? then DecodeProps(t.properties.value) else None;
    if props.Some? then Good(SetProperties(Restored(t.requestId, 0), props.value)) else Unreadable
  }

  function Decode(t: FBCommand): Decoded {
    var id, transition, result :=
      Restore(t.commandId), GetMQTransition(Restore(t.transition)), GetResult(Restore(t.result));
    var fromDevice := t.deviceId.Some? && result.Some?;
    if id == 0 then Good(CheckState)
    else if id == 1 then if transition.Some? then Good(ChangeState(transition.value)) else Unreadable
    else if id == 2 then Good(DumpConfig)
    else if id == 3 then Good(SubscribeToStateChange(Restore(t.interval)))
    else if id == 4 then Good(UnsubscribeFromStateChange)
    else if id == 5 then
      if t.propertyQuery.Some? then Good(GetProperties(Restored(t.requestId, 0), t.propertyQuery.value)) else Unreadable
    else if id == 6 then DecodeSetProperties(t)
    else if id == 7 then Good(SubscriptionHeartbeat(Restore(t.interval)))
    else if id == 8 then DecodeTransitionStatus(t)
    else if id == 9 then
      if t.deviceId.Some? && t.configString.Some?
        then Good(Config(t.deviceId.value, t.configString.value))
        else Unreadable
    else if id == 10 then
      if fromDevice
        then Good(StateChangeSubscription(t.deviceId.value, Restored(t.taskId, 0), result.value))
        else Unreadable
    else if id == 11 then
      if fromDevice
        then Good(StateChangeUnsubscription(t.deviceId.value, Restored(t.taskId, 0), result.value))
        else Unreadable
    else if id == 12 then DecodeStateChange(t)
    else if id == 13 then DecodeProperties(t)
    else if id == 14 then
      if fromDevice
        then Good(PropertiesSet(t.deviceId.value, Restored(t.taskId, 0), Restored(t.requestId, 0), result.value))
        else Unreadable
    else Unrecognized
  }

  /** A number that is not there reads as 0. */
  ghost predicate InRange(o: Option<int>, n: nat) {
    o.None? || 0 <= o.value < n
  }

  ghost predicate AllThere(props: Option<seq<FBProperty>>) {
    props.Some? && forall i :: 0 <= i < |props.value| ==> props.value[i].key.Some? && props.value[i].value.Some?
  }

  lemma {:induction false} PropsThere(props: seq<FBProperty>)
    ensures DecodeProps(props).Some? <==> AllThere(Some(props))
    ensures DecodeProps(props).Some? ==> WireProps(DecodeProps(props).value, Some(props))
  {
    if props != [] {
      PropsThere(props[..|props| - 1]);
    }
  }

  /** Which tables can be decoded: the id is one of the fifteen, and the fields its kind needs are there and in
      range. Only another id is not recognized. */
  lemma DecodableExactly(t: FBCommand, id: int)
    requires id == if t.commandId.Some? then t.commandId.value else 0
    ensures Decode(t) == Unrecognized <==> !(0 <= id < 15)
    ensures Decode(t).Good? <==>
      && 0 <= id < 15
      && (id in {8, 9, 10, 11, 12, 13, 14} ==> t.deviceId.Some?)
      && (id in {8, 10, 11, 13, 14} ==> InRange(t.result, 2))
      && (id in {1, 8} ==> InRange(t.transition, 12))
      && (id in {8, 12} ==> InRange(t.currentState, 16))
      && (id == 12 ==> InRange(t.lastState, 16))
      && (id == 5 ==> t.propertyQuery.Some?)
      && (id == 9 ==> t.configString.Some?)
      && (id in {6, 13} ==> AllThere(t.properties))
  {
    if t.properties.Some? {
      PropsThere(t.properties.value);
    }
  }

  /** What is decoded: the kind of the id, and of every field what the table says, 0 for what it does not. */
  lemma DecodedFields(t: FBCommand, c: Cmd)
    requires Decode(t) == Good(c)
    ensures GetFBCmd(c) == if t.commandId.Some? then t.commandId.value else 0
    ensures (c.TransitionStatus? || c.Config? || c.StateChangeSubscription? || c.StateChangeUnsubscription? ||
      c.StateChange? || c.Properties? || c.PropertiesSet?) ==> t.deviceId == Some(c.deviceId)
    ensures (c.TransitionStatus? || c.StateChangeSubscription? || c.StateChangeUnsubscription? || c.StateChange? ||
      c.Properties? || c.PropertiesSet?) ==> c.taskId == if t.taskId.Some? then t.taskId.value else 0
    ensures (c.TransitionStatus? || c.StateChangeSubscription? || c.StateChangeUnsubscription? || c.Properties? ||
      c.PropertiesSet?) ==> (c.result == ResultFailure <==> t.result == Some(1))
  {
  }

  lemma DecodedNumbers(t: FBCommand, c: Cmd)
    requires Decode(t) == Good(c)
    ensures (c.GetProperties? || c.SetProperties? || c.Properties? || c.PropertiesSet?) ==>
      c.requestId == if t.requestId.Some? then t.requestId.value else 0
    ensures (c.SubscribeToStateChange? || c.SubscriptionHeartbeat?) ==>
      c.interval == if t.interval.Some? then t.interval.value else 0
    ensures (c.ChangeState? || c.TransitionStatus?) ==>
      c.transition == if t.transition.Some? then t.transition.value else 0
    ensures (c.StateChange? || c.TransitionStatus?) ==>
      c.currentState == if t.currentState.Some? then t.currentState.value else 0
    ensures c.StateChange? ==> c.lastState == if t.lastState.Some? then t.lastState.value else 0
  {
  }

  lemma DecodedTexts(t: FBCommand, c: Cmd)
    requires Decode(t) == Good(c)
    ensures c.GetProperties? ==> t.propertyQuery == Some(c.query)
    ensures c.Config? ==> t.configString == Some(c.config)
    ensures (c.SetProperties? || c.Properties?) ==> WireProps(c.props, t.properties)
  {
    if t.properties.Some? {
      PropsThere(t.properties.value);
    }
  }

  /** The id is read back. */
  lemma IdRestored(c: Cmd)
    ensures Restore(Encode(c).commandId) == GetFBCmd(c)
  {
  }

  lemma RoundTripOfController(c: Cmd)
    requires c.CheckState? || c.ChangeState? || c.DumpConfig? || c.SubscribeToStateChange? ||
      c.UnsubscribeFromStateChange? || c.SubscriptionHeartbeat?
    ensures Decode(Encode(c)) == Good(c)
  {
  }

  lemma RoundTripOfRequest(c: Cmd)
    requires c.GetProperties? || c.SetProperties?
    ensures Decode(Encode(c)) == Good(c)
  {
    IdRestored(c);
    if c.SetProperties? {
      PropsRoundTrip(c.props);
    }
  }

  lemma RoundTripOfState(c: Cmd)
    requires c.TransitionStatus? || c.StateChange?
    ensures Decode(Encode(c)) == Good(c)
  {
    IdRestored(c);
    StateTablesInverse(c.currentState, 0);
    if c.StateChange? {
      StateTablesInverse(c.lastState, 0);
    } else {
      TransitionTablesInverse(c.transition, 0);
      ResultTablesInverse(c.result, 0);
    }
  }

  lemma RoundTripOfReply(c: Cmd)
    requires c.Config? || c.StateChangeSubscription? || c.StateChangeUnsubscription? || c.Properties? ||
      c.PropertiesSet?
    ensures Decode(Encode(c)) == Good(c)
  {
    IdRestored(c);
    if c.Properties? {
      PropsRoundTrip(c.props);
    }
  }

  /** One command of any kind survives encoding and decoding, fields equal to their default included. */
  lemma RoundTripOne(c: Cmd)
    ensures Decode(Encode(c)) == Good(c)
  {
    if c.GetProperties? || c.SetProperties? {
      RoundTripOfRequest(c);
    } else if c.TransitionStatus? || c.StateChange? {
      RoundTripOfState(c);
    } else if c.Config? || c.StateChangeSubscription? || c.StateChangeUnsubscription? || c.Properties? ||
      c.PropertiesSet? {
      RoundTripOfReply(c);
    } else {
      RoundTripOfController(c);
    }
  }

  /** No two commands have the same table. */
  lemma EncodeInjective(c: Cmd, d: Cmd)
    ensures Encode(c) == Encode(d) ==> c == d
  {
    RoundTripOne(c);
    RoundTripOne(d);
  }

  // ---------------------------------------------------------------- lists of commands

  ghost predicate Encodes(cmds: seq<Cmd>, tables: seq<FBCommand>) {
    |tables| == |cmds| && forall i :: 0 <= i < |cmds| ==> tables[i] == Encode(cmds[i])
  }

  /** `cmds` are the commands before the first table that cannot be decoded, if there is one. */
  ghost predicate DecodesTo(tables: seq<FBCommand>, cmds: seq<Cmd>, o: Decoding) {
    && |cmds| <= |tables|
    && (forall i :: 0 <= i < |cmds| ==> Decode(tables[i]) == Good(cmds[i]))
    && match o
       case Complete => |cmds| == |tables|
       case FormatError => |cmds| < |tables| && Decode(tables[|cmds|]) == Unrecognized
       case FieldError => |cmds| < |tables| && Decode(tables[|cmds|]) == Unreadable
  }

  datatype Decoding = Complete | FormatError | FieldError

  class Cmds {
    var cmds: seq<Cmd>

    constructor (cmds: seq<Cmd>)
      ensures this.cmds == cmds
    {
      this.cmds := cmds;
    }

    method Serialize() returns (tables: seq<FBCommand>)
      ensures Encodes(cmds, tables)
    {
      tables := [];
      for i := 0 to |cmds|
        invariant Encodes(cmds[..i], tables)
      {
        tables := tables + [Encode(cmds[i])];
      }
      assert cmds[..|cmds|] == cmds;
    }

    /** Replaces the commands by the decoded ones; it stops at the first table it cannot decode. */
    method Deserialize(tables: seq<FBCommand>) returns (o: Decoding)
      modifies this
      ensures DecodesTo(tables, cmds, o)
    {
      cmds := [];
      for i := 0 to |tables|
        invariant |cmds| == i && forall j :: 0 <= j < i ==> Decode(tables[j]) == Good(cmds[j])
      {
        var decoded := Decode(tables[i]);
        match decoded
        case Good(cmd) => cmds := cmds + [cmd];
        case Unrecognized => return FormatError;
        case Unreadable => return FieldError;
      }
      return Complete;
    }
  }

  /** Round trip: for every list of commands, what is deserialized from its serialization is the same list. */
  lemma RoundTrip(cmds: seq<Cmd>, tables: seq<FBCommand>, received: seq<Cmd>, o: Decoding)
    requires Encodes(cmds, tables) && DecodesTo(tables, received, o)
    ensures o == Complete && received == cmds
  {
    forall i | 0 <= i < |cmds| ensures Decode(tables[i]) == Good(cmds[i]) {
      RoundTripOne(cmds[i]);
    }
  }
}
