/** The reply protocols of SetPropertiesOp and GetPropertiesOp on values. `startBad` and `log` are history. */
module SetPropertiesProtocol {
  import opened Basics
  import opened TopologyDefs
  import opened AsyncOps

  datatype Reply = Acked | Failed(expendable: bool)

  datatype Entry = Entry(task: TaskId, reply: Reply)
  {
    /** The reply takes its task off the list of outstanding devices. */
    predicate Clears() {
      reply.Acked? || reply.expendable
    }
  }

  datatype SetOp = SetOp(
    tasks: set<TaskId>,
    count: nat,
    outstanding: set<TaskId>,
    async: Async<set<TaskId>>,
    startBad: set<TaskId>,  // tasks found in Error or Exiting when the operation was initiated
    log: seq<Entry>)        // replies of addressed tasks received while the operation was open

  // ---------------------------------------------------------------- steps

  ghost function TryComplete(o: SetOp): SetOp
  {
    if !o.async.completed && o.count == |o.tasks| then
      o.(async := Dispatch(o.async, if o.outstanding != {} then DeviceSetPropertiesFailed else NoError, o.outstanding))
    else
      o
  }

  ghost function Begin(tasks: set<TaskId>, startBad: set<TaskId>): SetOp {
    TryComplete(SetOp(tasks, |startBad|, tasks, Async(false, []), startBad, []))
  }

  ghost function Tally(o: SetOp, id: TaskId, reply: Reply): SetOp {
    match reply
    case Acked => o.(outstanding := o.outstanding - {id}, count := o.count + 1)
    case Failed(expendable) =>
      if id !in o.outstanding then o
      else o.(outstanding := if expendable then o.outstanding - {id} else o.outstanding, count := o.count + 1)
  }

  ghost function Deliver(o: SetOp, id: TaskId, reply: Reply): SetOp
  {
    if o.async.completed || id !in o.tasks then o
    else TryComplete(Tally(o, id, reply).(log := o.log + [Entry(id, reply)]))
  }

  ghost function Abort(o: SetOp, ec: ErrorCode): SetOp
  {
    if o.async.completed then o else o.(async := Dispatch(o.async, ec, o.outstanding))
  }

  // ---------------------------------------------------------------- what the history says

  /** Tasks that acknowledged or failed expendably. */
  ghost function Cleared(log: seq<Entry>): set<TaskId> {
    set e | e in log && e.Clears() :: e.task
  }

  ghost predicate Counted(before: seq<Entry>, e: Entry) {
    e.reply.Acked? || e.task !in Cleared(before)
  }

  /** The tasks of the counted replies, in order of arrival. */
  ghost function CountedTasks(log: seq<Entry>): seq<TaskId> {
    if log == [] then []
    else
      var before, e := log[..|log| - 1], log[|log| - 1];
      CountedTasks(before) + (if Counted(before, e) then [e.task] else [])
  }

  /** The tasks of those counted replies that clear their task. */
  ghost function ConfirmedTasks(log: seq<Entry>): seq<TaskId> {
    if log == [] then []
    else
      var before, e := log[..|log| - 1], log[|log| - 1];
      ConfirmedTasks(before) + (if Counted(before, e) && e.Clears() then [e.task] else [])
  }

  ghost predicate CompletedByCount(o: SetOp) {
    o.async.completed && |o.async.calls| == 1 &&
    (o.async.calls[0].ec == NoError || o.async.calls[0].ec == DeviceSetPropertiesFailed)
  }

  /** The counter and the set are what the history amounts to. */
  ghost predicate Counters(o: SetOp) {
    && o.startBad <= o.tasks
    && o.outstanding == o.tasks - Cleared(o.log)
    && Elements(CountedTasks(o.log)) <= o.tasks
    && o.count == |o.startBad| + |CountedTasks(o.log)|
  }

  ghost predicate Inv(o: SetOp) {
    && o.async.SingleShot()
    && Counters(o)
    && (!o.async.completed ==> o.count < |o.tasks|)
    && (o.async.completed ==> o.async.calls[0].arg == o.outstanding)
    && (CompletedByCount(o) ==>
          o.count == |o.tasks| &&
          (o.async.calls[0].ec == NoError <==> o.outstanding == {}))
  }

  lemma HistoryOfAppend(log: seq<Entry>, e: Entry)
    ensures Cleared(log + [e]) == Cleared(log) + (if e.Clears() then {e.task} else {})
    ensures CountedTasks(log + [e]) == CountedTasks(log) + (if Counted(log, e) then [e.task] else [])
    ensures ConfirmedTasks(log + [e]) == ConfirmedTasks(log) + (if Counted(log, e) && e.Clears() then [e.task] else [])
  {
    assert (log + [e])[..|log|] == log;
    assert forall x :: x in log + [e] <==> x in log || x == e;
  }

  lemma BeginInv(tasks: set<TaskId>, startBad: set<TaskId>)
    requires startBad <= tasks
    ensures Inv(Begin(tasks, startBad))
  {
    SubsetCardinality(startBad, tasks);
    assert Cleared([]) == {};
    assert CountedTasks([]) == [];
  }

  lemma TallyKeeps(o: SetOp, id: TaskId, reply: Reply, p: SetOp)
    requires Inv(o) && !o.async.completed && id in o.tasks
    requires p == Tally(o, id, reply).(log := o.log + [Entry(id, reply)])
    ensures p.outstanding == p.tasks - Cleared(p.log)
    ensures Elements(CountedTasks(p.log)) <= p.tasks
    ensures p.count == |p.startBad| + |CountedTasks(p.log)|
    ensures p.count == o.count + if Counted(o.log, Entry(id, reply)) then 1 else 0
  {
    HistoryOfAppend(o.log, Entry(id, reply));
    ElementsOfAppend(CountedTasks(o.log), id);
  }

  /** The completion test establishes the invariant for an open operation that has not counted too far. */
  lemma TryCompleteInv(o: SetOp)
    requires Counters(o) && o.async == Async(false, []) && o.count <= |o.tasks|
    ensures Inv(TryComplete(o))
  {
  }

  lemma DeliverInv(o: SetOp, id: TaskId, reply: Reply)
    requires Inv(o)
    ensures Inv(Deliver(o, id, reply))
  {
    if !o.async.completed && id in o.tasks {
      var p := Tally(o, id, reply).(log := o.log + [Entry(id, reply)]);
      TallyKeeps(o, id, reply, p);
      TryCompleteInv(p);
    }
  }

  lemma AbortInv(o: SetOp)
    requires Inv(o)
    ensures Inv(Abort(o, OperationTimeout))
  {
  }

  /** No overshoot, and a measure. */
  lemma CountedReplyProgress(o: SetOp, id: TaskId, reply: Reply)
    requires Inv(o) && !o.async.completed
    ensures var p := Deliver(o, id, reply);
      && 0 < |o.tasks| - o.count
      && |p.tasks| - p.count ==
         (|o.tasks| - o.count) - (if id in o.tasks && Counted(o.log, Entry(id, reply)) then 1 else 0)
      && (p.async.completed <==> p.count == |p.tasks|)
  {
    if id in o.tasks {
      TallyKeeps(o, id, reply, Tally(o, id, reply).(log := o.log + [Entry(id, reply)]));
    }
  }

  /** A task's first reply is counted, whatever it says. */
  lemma {:induction false} FirstReplyCounts(log: seq<Entry>, e: Entry)
    requires e in log
    ensures e.task in Elements(CountedTasks(log))
  {
    var n := |log| - 1;
    assert log == log[..n] + [log[n]];
    HistoryOfAppend(log[..n], log[n]);
    ElementsOfAppend(CountedTasks(log[..n]), log[n].task);
    if e in log[..n] {
      FirstReplyCounts(log[..n], e);
    } else if !Counted(log[..n], e) {
      var f :| f in log[..n] && f.Clears() && f.task == e.task;
      FirstReplyCounts(log[..n], f);
    }
  }

  /** No hang: once every addressed task was failed at the start or has replied, the operation is completed. */
  lemma AllAnsweredCompletes(o: SetOp)
    requires Inv(o)
    requires forall t :: t in o.tasks ==> t in o.startBad || exists e :: e in o.log && e.task == t
    ensures o.async.completed
  {
    var counted := Elements(CountedTasks(o.log));
    forall t | t in o.tasks ensures t in o.startBad + counted {
      if t !in o.startBad {
        var e :| e in o.log && e.task == t;
        FirstReplyCounts(o.log, e);
      }
    }
    SubsetCardinality(o.tasks, o.startBad + counted);
    ElementsCardinality(CountedTasks(o.log));
    UnionCardinality(o.startBad, counted);
  }

  lemma UnionCardinality<T>(a: set<T>, b: set<T>)
    ensures |a + b| <= |a| + |b|
  {
    assert a + b == a + (b - a);
    SubsetCardinality(b - a, b);
  }

  /** Every cleared task was confirmed by a counted reply. */
  lemma {:induction false} ConfirmedIsCleared(log: seq<Entry>)
    ensures Elements(ConfirmedTasks(log)) == Cleared(log)
    ensures |ConfirmedTasks(log)| <= |CountedTasks(log)|
  {
    if log == [] {
      assert Cleared([]) == {};
    } else {
      var n := |log| - 1;
      assert log == log[..n] + [log[n]];
      ConfirmedIsCleared(log[..n]);
      HistoryOfAppend(log[..n], log[n]);
      ElementsOfAppend(ConfirmedTasks(log[..n]), log[n].task);
    }
  }

  /** Success by pigeonhole: an operation completed by its count succeeded if and only if no addressed
      task was failed at the start and each addressed task contributed exactly one counted reply, an
      acknowledgement or an expendable failure. */
  lemma SuccessExactly(o: SetOp)
    requires Inv(o) && CompletedByCount(o)
    ensures o.async.calls[0].ec == NoError <==>
            (o.startBad == {} &&
             |ConfirmedTasks(o.log)| == |CountedTasks(o.log)| &&
             (forall t :: t in CountedTasks(o.log) <==> t in o.tasks) &&
             (forall t :: t in o.tasks ==> Occurrences(CountedTasks(o.log), t) == 1))
  {
    var counted, confirmed := CountedTasks(o.log), ConfirmedTasks(o.log);
    ConfirmedIsCleared(o.log);
    ElementsCardinality(confirmed);
    ElementsCardinality(counted);
    if o.outstanding == {} {
      assert forall t :: t in o.tasks ==> t !in o.outstanding;
      SubsetCardinality(o.tasks, Elements(confirmed));
      assert |counted| == |o.tasks| && o.startBad == {};
      ConfirmedWithinCounted(o.log);
      SubsetCardinality(Elements(confirmed), Elements(counted));
      SubsetCardinality(Elements(counted), o.tasks);
      assert Elements(counted) == o.tasks;
      forall t | t in o.tasks ensures Occurrences(counted, t) == 1 {
        assert t in Elements(counted);
        PigeonholeOnce(counted, t);
      }
      assert forall t :: t in counted <==> t in Elements(counted);
    }
    if |confirmed| == |counted| && (forall t :: t in counted <==> t in o.tasks) {
      AllCountedConfirmed(o.log);
      assert forall t :: t in o.tasks ==> t in Elements(confirmed);
    }
  }

  lemma {:induction false} ConfirmedWithinCounted(log: seq<Entry>)
    ensures Elements(ConfirmedTasks(log)) <= Elements(CountedTasks(log))
  {
    if log != [] {
      var n := |log| - 1;
      assert log == log[..n] + [log[n]];
      HistoryOfAppend(log[..n], log[n]);
      ConfirmedWithinCounted(log[..n]);
      assert forall xs: seq<TaskId> :: xs + [] == xs;
      ElementsOfAppend(ConfirmedTasks(log[..n]), log[n].task);
      ElementsOfAppend(CountedTasks(log[..n]), log[n].task);
    }
  }

  lemma {:induction false} AllCountedConfirmed(log: seq<Entry>)
    requires |ConfirmedTasks(log)| == |CountedTasks(log)|
    ensures ConfirmedTasks(log) == CountedTasks(log)
  {
    if log != [] {
      var n := |log| - 1;
      ConfirmedIsCleared(log[..n]);
      AllCountedConfirmed(log[..n]);
    }
  }

  ghost function Replied(log: seq<Entry>): set<TaskId> {
    set e | e in log :: e.task
  }

  /** The tasks that were failed at the start or have replied since. */
  ghost function Answered(o: SetOp): set<TaskId> {
    o.startBad + Replied(o.log)
  }

  /** The number of counted replies of tasks that had answered before. */
  ghost function Repeats(startBad: set<TaskId>, log: seq<Entry>): nat {
    if log == [] then 0
    else
      var before, e := log[..|log| - 1], log[|log| - 1];
      Repeats(startBad, before) + (if Counted(before, e) && e.task in startBad + Replied(before) then 1 else 0)
  }

  lemma RepliedOfAppend(startBad: set<TaskId>, before: seq<Entry>, e: Entry)
    ensures var all, more := startBad + Replied(before), startBad + Replied(before + [e]);
      more == all + {e.task} && |more| == |all| + (if e.task in all then 0 else 1)
    ensures !Counted(before, e) ==> e.task in Replied(before)
  {
    assert forall x :: x in before + [e] <==> x in before || x == e;
    var all := startBad + Replied(before);
    assert startBad + Replied(before + [e]) == all + {e.task};
    if e.task in all {
      assert all + {e.task} == all;
    }
  }

  /** Every counted reply is that of a task that had not answered, or a repeated one. */
  lemma {:induction false} CountedReplies(startBad: set<TaskId>, log: seq<Entry>)
    ensures |startBad| + |CountedTasks(log)| == |startBad + Replied(log)| + Repeats(startBad, log)
  {
    if log == [] {
      assert startBad + Replied([]) == startBad;
    } else {
      var n := |log| - 1;
      assert log == log[..n] + [log[n]];
      CountedReplies(startBad, log[..n]);
      RepliedOfAppend(startBad, log[..n], log[n]);
    }
  }

  lemma Remainder<T>(all: set<T>, part: set<T>)
    requires part <= all
    ensures |all - part| == |all| - |part|
    ensures part == all <==> |all - part| == 0
  {
    assert all == part + (all - part);
  }

  /** Exact counting: completed by its count, the operation left as many tasks unanswered as it counted replies of
      tasks that had answered before; so none if and only if it counted none twice. */
  lemma CompletionIsExact(o: SetOp)
    requires Inv(o) && CompletedByCount(o)
    ensures |o.tasks - Answered(o)| == Repeats(o.startBad, o.log)
    ensures Answered(o) == o.tasks <==> Repeats(o.startBad, o.log) == 0
  {
    CountedReplies(o.startBad, o.log);
    RepliedAreCounted(o.log);
    Remainder(o.tasks, Answered(o));
  }

  /** Of every task that has replied a reply was counted. */
  lemma RepliedAreCounted(log: seq<Entry>)
    ensures Replied(log) == Elements(CountedTasks(log))
  {
    forall t | t in Replied(log) ensures t in Elements(CountedTasks(log)) {
      var e :| e in log && e.task == t;
      FirstReplyCounts(log, e);
    }
    CountedHaveReplied(log);
  }

  lemma {:induction false} CountedHaveReplied(log: seq<Entry>)
    ensures Elements(CountedTasks(log)) <= Replied(log)
  {
    if log != [] {
      var n := |log| - 1;
      assert log == log[..n] + [log[n]];
      CountedHaveReplied(log[..n]);
      HistoryOfAppend(log[..n], log[n]);
      ElementsOfAppend(CountedTasks(log[..n]), log[n].task);
      assert Replied(log[..n]) <= Replied(log) && log[n].task in Replied(log);
    }
  }

  /** However the operation completes, what it reports is exactly the addressed tasks that neither
      acknowledged nor failed expendably. */
  lemma ReportedSet(o: SetOp, t: TaskId)
    requires Inv(o) && o.async.completed
    ensures t in o.async.calls[0].arg <==>
            t in o.tasks && !exists e :: e in o.log && e.task == t && (e.reply.Acked? || e.reply.expendable)
  {
    if t in Cleared(o.log) {
      var e :| e in o.log && e.Clears() && e.task == t;
    }
    assert forall e :: e in o.log && e.task == t && (e.reply.Acked? || e.reply.expendable) ==>
      e.Clears() && t in Cleared(o.log);
  }
}

module GetPropertiesProtocol {
  import opened Basics
  import opened TopologyDefs
  import opened AsyncOps

  type Props = seq<(string, string)>

  datatype Entry = Entry(task: TaskId, ok: bool, props: Props)

  datatype GetResult = GetResult(devices: map<TaskId, Props>, failed: set<TaskId>)

  datatype GetOp = GetOp(
    tasks: set<TaskId>,
    count: nat,  // unsigned int
    result: GetResult,
    async: Async<GetResult>,
    log: seq<Entry>)  // replies received while the operation was open

  // ---------------------------------------------------------------- steps

  ghost function Begin(tasks: set<TaskId>): GetOp {
    GetOp(tasks, 0, GetResult(map[], tasks), Async(false, []), [])
  }

  ghost function Record(r: GetResult, id: TaskId, ok: bool, props: Props): GetResult {
    if ok then GetResult(if id in r.devices then r.devices else r.devices[id := props], r.failed - {id}) else r
  }

  /** `TryCompletion` hands the result over and leaves the operation with an empty one. */
  ghost function TryComplete(o: GetOp): GetOp
  {
    if !o.async.completed && o.count == |o.tasks| then
      o.(async := Dispatch(o.async, if o.result.failed != {} then DeviceGetPropertiesFailed else NoError, o.result),
         result := GetResult(map[], {}))
    else
      o
  }

  /** `Update`: it checks neither whether the operation is open nor whether the task was addressed. */
  ghost function Deliver(o: GetOp, id: TaskId, ok: bool, props: Props): GetOp
  {
    TryComplete(o.(result := Record(o.result, id, ok, props),
                   count := (o.count + 1) % UINT32_RANGE,
                   log := if o.async.completed then o.log else o.log + [Entry(id, ok, props)]))
  }

  ghost function Abort(o: GetOp, ec: ErrorCode): GetOp
  {
    if o.async.completed then o else o.(async := Dispatch(o.async, ec, o.result))
  }

  // ---------------------------------------------------------------- what the history says

  ghost function OkTasks(log: seq<Entry>): set<TaskId> {
    set e | e in log && e.ok :: e.task
  }

  ghost function Senders(log: seq<Entry>): seq<TaskId> {
    seq(|log|, i requires 0 <= i < |log| => log[i].task)
  }

  /** How many replies it takes to complete the operation by count. */
  ghost function Needed(tasks: set<TaskId>): nat {
    if tasks == {} then UINT32_RANGE else |tasks|
  }

  ghost predicate CompletedByCount(o: GetOp) {
    o.async.completed && |o.async.calls| == 1 &&
    (o.async.calls[0].ec == NoError || o.async.calls[0].ec == DeviceGetPropertiesFailed)
  }

  /** `r` is what the replies in `log` amount to. */
  ghost predicate Collected(tasks: set<TaskId>, log: seq<Entry>, r: GetResult) {
    && r.failed == tasks - OkTasks(log)
    && r.devices.Keys == OkTasks(log)
    && forall t :: t in r.devices ==> Entry(t, true, r.devices[t]) in log
  }

  ghost predicate Inv(o: GetOp) {
    && o.async.SingleShot()
    && |o.tasks| < UINT32_RANGE
    && (!o.async.completed ==>
          Collected(o.tasks, o.log, o.result) && o.count == |o.log| < Needed(o.tasks))
    && (o.async.completed ==> Collected(o.tasks, o.log, o.async.calls[0].arg))
    && (CompletedByCount(o) ==>
          |o.log| == Needed(o.tasks) &&
          (o.async.calls[0].ec == NoError <==> o.async.calls[0].arg.failed == {}))
  }

  lemma BeginInv(tasks: set<TaskId>)
    requires |tasks| < UINT32_RANGE
    ensures Inv(Begin(tasks))
  {
    assert OkTasks([]) == {};
    assert tasks != {} ==> |tasks| > 0;
  }

  lemma RecordCollects(tasks: set<TaskId>, log: seq<Entry>, r: GetResult, e: Entry)
    requires Collected(tasks, log, r)
    ensures Collected(tasks, log + [e], Record(r, e.task, e.ok, e.props))
  {
    assert forall x :: x in log + [e] <==> x in log || x == e;
    assert OkTasks(log + [e]) == OkTasks(log) + (if e.ok then {e.task} else {});
  }

  /** The completion test after a reply to an open operation. */
  lemma TryCompleteInv(o: GetOp)
    requires o.async == Async(false, []) && |o.tasks| < UINT32_RANGE
    requires Collected(o.tasks, o.log, o.result)
    requires 0 < |o.log| <= Needed(o.tasks) && o.count == |o.log| % UINT32_RANGE
    ensures Inv(TryComplete(o))
  {
    assert o.tasks == {} <==> |o.tasks| == 0;
    assert o.count == |o.tasks| <==> |o.log| == Needed(o.tasks);
  }

  lemma DeliverInv(o: GetOp, id: TaskId, ok: bool, props: Props)
    requires Inv(o)
    ensures Inv(Deliver(o, id, ok, props))
  {
    if !o.async.completed {
      RecordCollects(o.tasks, o.log, o.result, Entry(id, ok, props));
      TryCompleteInv(o.(result := Record(o.result, id, ok, props), count := (o.count + 1) % UINT32_RANGE,
                        log := o.log + [Entry(id, ok, props)]));
    }
  }

  lemma AbortInv(o: GetOp)
    requires Inv(o)
    ensures Inv(Abort(o, OperationTimeout))
  {
  }

  /** The reply that completes an open operation: the last of as many as there are addressed tasks. For
      an empty set of tasks the 32-bit counter has to wrap around first. */
  lemma CompletesExactlyAt(o: GetOp, id: TaskId, ok: bool, props: Props)
    requires Inv(o) && !o.async.completed
    ensures Deliver(o, id, ok, props).async.completed <==>
            |o.log| + 1 == (if o.tasks == {} then UINT32_RANGE else |o.tasks|)
  {
    assert o.tasks == {} <==> |o.tasks| == 0;
  }

  /** Success by pigeonhole: for a non-empty set of tasks, an operation completed by its count
      succeeded if and only if every reply was Ok and there was exactly one per addressed task and
      none from any other task; the result then holds exactly what each task replied. */
  lemma SuccessExactly(o: GetOp)
    requires Inv(o) && CompletedByCount(o) && o.tasks != {}
    ensures o.async.calls[0].ec == NoError <==>
            (forall e :: e in o.log ==> e.ok && e.task in o.tasks) &&
            (forall t :: t in o.tasks ==> Occurrences(Senders(o.log), t) == 1)
    ensures o.async.calls[0].ec == NoError ==>
            var devices := o.async.calls[0].arg.devices;
            devices.Keys == o.tasks && forall e :: e in o.log ==> devices[e.task] == e.props
  {
    var senders := Senders(o.log);
    assert forall e :: e in o.log ==> e.task in senders by {
      forall e | e in o.log ensures e.task in senders {
        var i :| 0 <= i < |o.log| && o.log[i] == e;
        assert senders[i] == e.task;
      }
    }
    ElementsCardinality(senders);
    assert OkTasks(o.log) <= Elements(senders);
    if o.async.calls[0].ec == NoError {
      assert forall t :: t in o.tasks ==> t !in o.async.calls[0].arg.failed;
      SubsetCardinality(o.tasks, OkTasks(o.log));
      SubsetCardinality(OkTasks(o.log), Elements(senders));
      SubsetCardinality(o.tasks, Elements(senders));
      assert |Elements(senders)| == |senders|;
      forall t | t in o.tasks ensures Occurrences(senders, t) == 1 {
        assert t in Elements(senders);
        PigeonholeOnce(senders, t);
      }
      forall e | e in o.log ensures e.ok && o.async.calls[0].arg.devices[e.task] == e.props {
        assert e.task in Elements(senders);
        var f := Entry(e.task, true, o.async.calls[0].arg.devices[e.task]);
        PigeonholeOnce(senders, e.task);
        OneReply(o.log, e, f);
      }
    } else {
      var t :| t in o.async.calls[0].arg.failed;
      if Occurrences(senders, t) == 1 {
        assert t in senders;
        var i :| 0 <= i < |senders| && senders[i] == t;
        assert o.log[i] in o.log;
      }
    }
  }

  /** Two replies of a task that sent only one are the same reply. */
  lemma OneReply(log: seq<Entry>, e: Entry, f: Entry)
    requires e in log && f in log && e.task == f.task
    requires Occurrences(Senders(log), e.task) == 1
    ensures e == f
  {
    var i :| 0 <= i < |log| && log[i] == e;
    var j :| 0 <= j < |log| && log[j] == f;
    if i < j {
      TwoPositions(Senders(log), i, j);
    } else if j < i {
      TwoPositions(Senders(log), j, i);
    }
  }
}
