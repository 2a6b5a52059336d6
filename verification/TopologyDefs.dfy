/** Device table, transitions and the aggregated state of a topology (odc/TopologyDefs.h). */
module TopologyDefs {
  import opened Basics

  type TaskId = nat
  type CollectionId = nat  // 0 stands for "in no collection"
  type OpId = nat

  /** `DeviceState`, an enumeration over int. */
  type DeviceState = s: int | 0 <= s < 16 witness 0
  const Undefined: DeviceState := 0
  const Ok: DeviceState := 1
  const Error: DeviceState := 2
  const Idle: DeviceState := 3
  const InitializingDevice: DeviceState := 4
  const Initialized: DeviceState := 5
  const Binding: DeviceState := 6
  const Bound: DeviceState := 7
  const Connecting: DeviceState := 8
  const DeviceReady: DeviceState := 9
  const InitializingTask: DeviceState := 10
  const Ready: DeviceState := 11
  const Running: DeviceState := 12
  const ResettingTask: DeviceState := 13
  const ResettingDevice: DeviceState := 14
  const Exiting: DeviceState := 15

  /** `TopoTransition`, an enumeration over int. */
  type Transition = t: int | 0 <= t < 12 witness 0
  const Auto: Transition := 0
  const InitDevice: Transition := 1
  const CompleteInit: Transition := 2
  const Bind: Transition := 3
  const Connect: Transition := 4
  const InitTask: Transition := 5
  const Run: Transition := 6
  const Stop: Transition := 7
  const ResetTask: Transition := 8
  const ResetDevice: Transition := 9
  const End: Transition := 10
  const ErrorFound: Transition := 11

  datatype CmdResult = ResultOk | ResultFailure

  datatype AggregatedState = Of(state: DeviceState) | Mixed

  datatype DeviceStatus = DeviceStatus(
    ignored: bool,
    expendable: bool,
    subscribed: bool,
    lastState: DeviceState,
    state: DeviceState,
    taskId: TaskId,
    collectionId: CollectionId,
    exitCode: int,
    signal: int)

  type TopoState = seq<DeviceStatus>

  datatype CollectionInfo = CollectionInfo(
    zone: string,
    agentGroup: string,
    nOriginal: int,
    nCurrent: int,
    nMin: int,
    nCores: int,
    numTasks: int,
    totalTasks: int)

  /** `gExpectedState`: the state a transition leads to; `Auto` and `ErrorFound` have none. */
  function ExpectedState(t: Transition): (r: Option<DeviceState>)
    ensures r.Some? ==> r.value != Error && r.value != Undefined
  {
    if t == InitDevice then Some(InitializingDevice)
    else if t == CompleteInit then Some(Initialized)
    else if t == Bind then Some(Bound)
    else if t == Connect then Some(DeviceReady)
    else if t == InitTask then Some(Ready)
    else if t == Run then Some(Running)
    else if t == Stop then Some(Ready)
    else if t == ResetTask then Some(DeviceReady)
    else if t == ResetDevice then Some(Idle)
    else if t == End then Some(Exiting)
    else None
  }

  /** Which transitions end in a state: two in Ready and in DeviceReady, none in the transient states left out. */
  lemma ExpectedExactly(t: Transition, s: DeviceState)
    ensures ExpectedState(t) == Some(s) <==>
      || (s == Idle && t == ResetDevice)
      || (s == InitializingDevice && t == InitDevice)
      || (s == Initialized && t == CompleteInit)
      || (s == Bound && t == Bind)
      || (s == DeviceReady && t in {Connect, ResetTask})
      || (s == Ready && t in {InitTask, Stop})
      || (s == Running && t == Run)
      || (s == Exiting && t == End)
    ensures ExpectedState(t).None? <==> t in {Auto, ErrorFound}
  {
  }

  predicate FailedState(s: DeviceState) {
    s == Error || s == Exiting
  }

  // ---------------------------------------------------------------- aggregated state

  /** Device `i` takes part in aggregation. */
  predicate Active(ts: TopoState, i: int) {
    0 <= i < |ts| && !ts[i].ignored
  }

  /** `i` is the first device that takes part. */
  ghost predicate FirstActive(ts: TopoState, i: int) {
    Active(ts, i) && forall j :: 0 <= j < i ==> ts[j].ignored
  }

  ghost predicate AllActiveIn(ts: TopoState, s: DeviceState) {
    forall i :: Active(ts, i) ==> ts[i].state == s
  }

  /** Some device that takes part is in Error and comes after another one that takes part. */
  ghost predicate LaterError(ts: TopoState) {
    exists i, j :: Active(ts, i) && Active(ts, j) && i < j && ts[j].state == Error
  }

  /** What aggregation answers, stated without its loop. */
  ghost predicate Aggregates(ts: TopoState, r: AggregatedState) {
    if LaterError(ts) then r == Of(Error)
    else if exists i :: FirstActive(ts, i) then
      forall i :: FirstActive(ts, i) ==> r == (if AllActiveIn(ts, ts[i].state) then Of(ts[i].state) else Mixed)
    else r == Mixed
  }

  method AggregateState(ts: TopoState) returns (r: AggregatedState)
    ensures Aggregates(ts, r)
  {
    var state := Mixed;
    var homogeneous := true;
    ghost var first := -1;
    for k := 0 to |ts|
      invariant state == Mixed <==> first == -1
      invariant first == -1 ==> forall i :: 0 <= i < k ==> ts[i].ignored
      invariant first == -1 ==> homogeneous
      invariant first != -1 ==> first < k && FirstActive(ts, first) && state == Of(ts[first].state)
      invariant first != -1 ==> (homogeneous <==>
        forall i :: 0 <= i < k && Active(ts, i) ==> ts[i].state == ts[first].state)
      invariant forall i :: first < i < k && Active(ts, i) ==> ts[i].state != Error
    {
      if !ts[k].ignored {
        if state == Mixed {
          state := Of(ts[k].state);
          first := k;
        } else if ts[k].state == Error {
          assert Active(ts, first) && Active(ts, k);
          return Of(Error);
        } else if Of(ts[k].state) != state {
          homogeneous := false;
          assert Active(ts, k);
        }
      }
    }
    if first != -1 {
      assert FirstActive(ts, first);
      assert forall i :: FirstActive(ts, i) ==> i == first;
    }
    assert !LaterError(ts);
    return if homogeneous then state else Mixed;
  }

  lemma {:induction false} FirstActiveExists(ts: TopoState, i: int) returns (f: int)
    requires Active(ts, i)
    ensures FirstActive(ts, f) && f <= i
    decreases i
  {
    if exists j :: 0 <= j < i && !ts[j].ignored {
      var j :| 0 <= j < i && !ts[j].ignored;
      f := FirstActiveExists(ts, j);
    } else {
      f := i;
    }
  }

  /** The answer is determined by the device table. */
  lemma AggregateUnique(ts: TopoState, r: AggregatedState, q: AggregatedState)
    requires Aggregates(ts, r) && Aggregates(ts, q)
    ensures r == q
  {
  }

  /** A single state shared by all active devices is what aggregation answers. */
  lemma AggregateUniform(ts: TopoState, s: DeviceState, i: int, r: AggregatedState)
    requires Active(ts, i) && AllActiveIn(ts, s)
    requires Aggregates(ts, r)
    ensures r == Of(s)
  {
    var f := FirstActiveExists(ts, i);
    assert forall j :: FirstActive(ts, j) ==> ts[j].state == s;
  }

  /** The answer `Of(s)` for any `s` but Error means that every active device is in `s`. */
  lemma AggregateMeansAll(ts: TopoState, s: DeviceState)
    requires s != Error
    ensures Aggregates(ts, Of(s)) <==> (exists i :: Active(ts, i)) && AllActiveIn(ts, s)
  {
    if Aggregates(ts, Of(s)) {
      assert exists i :: FirstActive(ts, i);
    }
    if (exists i :: Active(ts, i)) && AllActiveIn(ts, s) {
      var i :| Active(ts, i);
      var f := FirstActiveExists(ts, i);
      assert forall j :: FirstActive(ts, j) ==> ts[j].state == s;
    }
  }

  /** The source's comment promises that one non-ignored device in Error puts the whole topology in
      Error. That holds unless the only such device is the first active one and another active
      device exists: the loop never tests the first device. */
  lemma AggregateErrorExactly(ts: TopoState, r: AggregatedState, e: int, f: int)
    requires Aggregates(ts, r)
    requires Active(ts, e) && ts[e].state == Error
    requires FirstActive(ts, f)
    ensures r == Of(Error) <==>
            (exists j :: f < j && Active(ts, j) && ts[j].state == Error) || (forall j :: Active(ts, j) ==> j == f)
  {
  }

  /** Two devices, the first one in Error. */
  function ErrorFirst(other: DeviceState): TopoState {
    [DeviceStatus(false, false, true, Running, Error, 1, 0, -1, -1),
      DeviceStatus(false, false, true, Idle, other, 2, 0, -1, -1)]
  }

  /** A table in which that promise fails: the answer is Mixed although an active device is in Error. */
  lemma ErrorFirstIsMixed(other: DeviceState, r: AggregatedState)
    requires other != Error && Aggregates(ErrorFirst(other), r)
    ensures Active(ErrorFirst(other), 0) && ErrorFirst(other)[0].state == Error
    ensures r == Mixed
  {
    assert FirstActive(ErrorFirst(other), 0);
    assert Active(ErrorFirst(other), 1);
  }
}
