/** The counting protocol shared by ChangeStateOp and WaitForStateOp: the operation completes when the
    count of settled tasks equals the number of tasks. `start`, `startFailed` and `log` are history:
    they record what the counters were computed from and never steer the operation. */
module CountingOp {
  import opened Basics
  import opened TopologyDefs
  import opened AsyncOps

  /** How an operation reads one state report: at the target, failed, or neither. */
  datatype Report = Hit | Fault(expendable: bool) | Miss

  datatype Entry = Entry(task: TaskId, report: Report)

  datatype StateOp<+T> = StateOp(
    tasks: set<TaskId>,
    count: nat,
    failed: set<TaskId>,
    errored: bool,
    async: Async<T>,
    start: set<TaskId>,        // tasks counted when the operation was initiated
    startFailed: set<TaskId>,  // those of them found in Error or Exiting
    log: seq<Entry>)           // reports of addressed tasks received while the operation was open

  // ---------------------------------------------------------------- steps

  /** `TryCompletion`. */
  ghost function TryComplete<T>(o: StateOp<T>, arg: T): StateOp<T>
  {
    if !o.async.completed && o.count == |o.tasks| then
      o.(async := Dispatch(o.async, if o.errored then DeviceChangeStateFailed else NoError, arg))
    else
      o
  }

  /** Construction, `ResetCount` and the first `TryCompletion`. */
  ghost function Begin<T>(tasks: set<TaskId>, start: set<TaskId>, startFailed: set<TaskId>, arg: T): StateOp<T> {
    TryComplete(StateOp(tasks, |start|, {}, startFailed != {}, Async(false, []), start, startFailed, []), arg)
  }

  /** The counters after one report. */
  ghost function Tally<T>(o: StateOp<T>, id: TaskId, rep: Report): StateOp<T> {
    match rep
    case Hit => o.(count := o.count + 1)
    case Fault(expendable) =>
      if id in o.failed then o
      else o.(count := o.count + 1, errored := !expendable, failed := o.failed + {id})
    case Miss => o
  }

  /** `Update`. */
  ghost function Deliver<T>(o: StateOp<T>, id: TaskId, rep: Report, arg: T): StateOp<T>
  {
    if o.async.completed || id !in o.tasks then o
    else TryComplete(Tally(o, id, rep).(log := o.log + [Entry(id, rep)]), arg)
  }

  /** `Complete` as called by a guarded caller, and `Timeout`, which throws on a completed operation. */
  ghost function Abort<T>(o: StateOp<T>, ec: ErrorCode, arg: T): StateOp<T>
  {
    if o.async.completed then o else o.(async := Dispatch(o.async, ec, arg))
  }

  // ---------------------------------------------------------------- what the history says

  ghost function Faulted(log: seq<Entry>): set<TaskId> {
    set e | e in log && e.report.Fault? :: e.task
  }

  ghost function Reported(log: seq<Entry>): set<TaskId> {
    set e | e in log && !e.report.Miss? :: e.task
  }

  /** The tasks that have settled: at the start, or by a report since. */
  ghost function Settled<T>(o: StateOp<T>): set<TaskId> {
    o.start + Reported(o.log)
  }

  /** A report that raises the count, given the reports before it: any hit, and a task's first fault. */
  ghost predicate Counted(before: seq<Entry>, e: Entry) {
    e.report.Hit? || (e.report.Fault? && e.task !in Faulted(before))
  }

  /** The number of counted reports of tasks that had settled before. */
  ghost function Repeats(start: set<TaskId>, log: seq<Entry>): nat {
    if log == [] then 0
    else
      var before, e := log[..|log| - 1], log[|log| - 1];
      Repeats(start, before) + (if Counted(before, e) && e.task in start + Reported(before) then 1 else 0)
  }

  /** The verdict of the latest counted fault. */
  ghost function LastVerdict(startFailed: set<TaskId>, log: seq<Entry>): bool {
    if log == [] then startFailed != {}
    else
      var before, e := log[..|log| - 1], log[|log| - 1];
      if e.report.Fault? && e.task !in Faulted(before) then !e.report.expendable
      else LastVerdict(startFailed, before)
  }

  /** The tasks that failed without being expendable, at the start or in a counted report. */
  ghost function Hard(startFailed: set<TaskId>, log: seq<Entry>): set<TaskId> {
    if log == [] then startFailed
    else
      var before, e := log[..|log| - 1], log[|log| - 1];
      Hard(startFailed, before) +
      (if e.report.Fault? && e.task !in Faulted(before) && !e.report.expendable then {e.task} else {})
  }

  /** The latest counted fault was expendable and came after a hard failure. */
  ghost predicate HiddenAtEnd(startFailed: set<TaskId>, log: seq<Entry>) {
    log != [] &&
    var before, e := log[..|log| - 1], log[|log| - 1];
    if e.report.Fault? && e.task !in Faulted(before) then e.report.expendable && Hard(startFailed, before) != {}
    else HiddenAtEnd(startFailed, before)
  }

  /** The operation was completed by its count, not by a timeout or a transition failure. */
  ghost predicate CompletedByCount<T>(o: StateOp<T>) {
    o.async.completed && |o.async.calls| == 1 &&
    (o.async.calls[0].ec == NoError || o.async.calls[0].ec == DeviceChangeStateFailed)
  }

  // ---------------------------------------------------------------- the invariant

  /** The counters are what the history amounts to. */
  ghost predicate Counters<T>(o: StateOp<T>) {
    && o.startFailed <= o.start <= o.tasks
    && Reported(o.log) <= o.tasks
    && o.failed == Faulted(o.log)
    && o.count == |Settled(o)| + Repeats(o.start, o.log)
    && o.errored == LastVerdict(o.startFailed, o.log)
  }

  ghost predicate Inv<T>(o: StateOp<T>) {
    && o.async.SingleShot()
    && Counters(o)
    && (!o.async.completed ==> o.count < |o.tasks|)
    && (CompletedByCount(o) ==>
          o.count == |o.tasks| &&
          o.async.calls[0].ec == if o.errored then DeviceChangeStateFailed else NoError)
  }

  lemma HistoryOfAppend(log: seq<Entry>, e: Entry)
    ensures Faulted(log + [e]) == Faulted(log) + (if e.report.Fault? then {e.task} else {})
    ensures Reported(log + [e]) == Reported(log) + (if e.report.Miss? then {} else {e.task})
    ensures (log + [e])[..|log|] == log
  {
  }

  /** The completion test establishes the invariant for an open operation that has not counted too far. */
  lemma TryCompleteInv<T>(o: StateOp<T>, arg: T)
    requires Counters(o) && o.async == Async(false, []) && o.count <= |o.tasks|
    ensures Inv(TryComplete(o, arg))
  {
    var p := TryComplete(o, arg);
    assert Settled(p) == Settled(o);
  }

  lemma BeginInv<T>(tasks: set<TaskId>, start: set<TaskId>, startFailed: set<TaskId>, arg: T)
    requires startFailed <= start <= tasks
    ensures Inv(Begin(tasks, start, startFailed, arg))
  {
    SubsetCardinality(start, tasks);
    assert start + Reported([]) == start;
    assert Faulted([]) == {};
    TryCompleteInv(StateOp(tasks, |start|, {}, startFailed != {}, Async(false, []), start, startFailed, []), arg);
  }

  lemma CountersOfAppend(start: set<TaskId>, startFailed: set<TaskId>, log: seq<Entry>, e: Entry)
    ensures Repeats(start, log + [e]) ==
            Repeats(start, log) + (if Counted(log, e) && e.task in start + Reported(log) then 1 else 0)
    ensures LastVerdict(startFailed, log + [e]) ==
            if e.report.Fault? && e.task !in Faulted(log) then !e.report.expendable else LastVerdict(startFailed, log)
    ensures Hard(startFailed, log + [e]) == Hard(startFailed, log) +
            (if e.report.Fault? && e.task !in Faulted(log) && !e.report.expendable then {e.task} else {})
  {
  }

  lemma SettledGrows<T>(o: StateOp<T>, p: StateOp<T>, e: Entry)
    requires p.start == o.start && p.log == o.log + [e]
    ensures Settled(p) == Settled(o) + (if e.report.Miss? then {} else {e.task})
    ensures |Settled(p)| == |Settled(o)| + (if !e.report.Miss? && e.task !in Settled(o) then 1 else 0)
    ensures e.task in Faulted(o.log) ==> e.task in Settled(o)
  {
    HistoryOfAppend(o.log, e);
    assert Settled(p) == Settled(o) + (if e.report.Miss? then {} else {e.task});
    if e.task in Settled(o) {
      assert Settled(p) == Settled(o);
    }
  }

  /** The arithmetic of one counted or uncounted report. */
  lemma CountOfAppend<T>(o: StateOp<T>, p: StateOp<T>, e: Entry)
    requires o.failed == Faulted(o.log)
    requires o.count == |Settled(o)| + Repeats(o.start, o.log)
    requires p.start == o.start && p.log == o.log + [e]
    requires p.count == o.count + if Counted(o.log, e) then 1 else 0
    ensures p.count == |Settled(p)| + Repeats(p.start, p.log)
  {
    CountersOfAppend(o.start, o.startFailed, o.log, e);
    SettledGrows(o, p, e);
  }

  lemma TallyCounts<T>(o: StateOp<T>, id: TaskId, rep: Report, p: StateOp<T>)
    requires Inv(o) && !o.async.completed && id in o.tasks
    requires p == Tally(o, id, rep).(log := o.log + [Entry(id, rep)])
    ensures p.count == |Settled(p)| + Repeats(o.start, p.log)
    ensures p.count == o.count + if Counted(o.log, Entry(id, rep)) then 1 else 0
  {
    CountOfAppend(o, p, Entry(id, rep));
  }

  lemma TallyFlags<T>(o: StateOp<T>, id: TaskId, rep: Report, p: StateOp<T>)
    requires o.failed == Faulted(o.log) && Reported(o.log) <= o.tasks && id in o.tasks
    requires o.errored == LastVerdict(o.startFailed, o.log)
    requires p == Tally(o, id, rep).(log := o.log + [Entry(id, rep)])
    ensures p.failed == Faulted(p.log) && Reported(p.log) <= o.tasks
    ensures p.errored == LastVerdict(o.startFailed, p.log)
  {
  }

  lemma DeliverInv<T>(o: StateOp<T>, id: TaskId, rep: Report, arg: T)
    requires Inv(o)
    ensures Inv(Deliver(o, id, rep, arg))
  {
    if !o.async.completed && id in o.tasks {
      var p := Tally(o, id, rep).(log := o.log + [Entry(id, rep)]);
      TallyCounts(o, id, rep, p);
      TallyFlags(o, id, rep, p);
      TryCompleteInv(p, arg);
    }
  }

  lemma AbortInv<T>(o: StateOp<T>, ec: ErrorCode, arg: T)
    requires Inv(o)
    requires ec == OperationTimeout || ec == DeviceChangeStateInvalidTransition
    ensures Inv(Abort(o, ec, arg))
  {
  }

  // ---------------------------------------------------------------- what the count guarantees

  /** No overshoot, and a measure: each counted report of an open operation brings the count one
      closer to the number of tasks and no report brings it past. */
  lemma CountedReportProgress<T>(o: StateOp<T>, id: TaskId, rep: Report, arg: T)
    requires Inv(o) && !o.async.completed
    ensures var p := Deliver(o, id, rep, arg);
      && 0 < |o.tasks| - o.count
      && 0 <= |p.tasks| - p.count
      && |p.tasks| - p.count ==
         (|o.tasks| - o.count) - (if id in o.tasks && Counted(o.log, Entry(id, rep)) then 1 else 0)
      && (p.async.completed <==> p.count == |p.tasks|)
  {
  }

  /** No hang: an operation all of whose tasks have settled is completed, however reports repeat. */
  lemma AllSettledCompletes<T>(o: StateOp<T>)
    requires Inv(o) && Settled(o) == o.tasks
    ensures o.async.completed
  {
  }

  /** Exact counting: completion by count found every task settled if and only if no task had been
      counted twice; otherwise as many tasks were still missing as reports had been repeated. */
  lemma CompletionIsExact<T>(o: StateOp<T>)
    requires Inv(o) && CompletedByCount(o)
    ensures |o.tasks - Settled(o)| == Repeats(o.start, o.log)
    ensures Settled(o) == o.tasks <==> Repeats(o.start, o.log) == 0
  {
  }

  /** If nothing was counted twice, the count is the number of settled tasks. */
  lemma CountIsSettled<T>(o: StateOp<T>)
    requires Inv(o) && Repeats(o.start, o.log) == 0
    ensures o.count == |Settled(o)|
    ensures CompletedByCount(o) ==> Settled(o) == o.tasks
    ensures !o.async.completed ==> Settled(o) != o.tasks
  {
    assert Settled(o) <= o.tasks;
    if CompletedByCount(o) {
      CompletionIsExact(o);
    }
  }

  /** As long as nothing was counted twice, the report that settles the last task completes the
      operation and no earlier report does. */
  lemma CompletesAtLastTask<T>(o: StateOp<T>, id: TaskId, rep: Report, arg: T)
    requires Inv(o) && !o.async.completed
    requires Repeats(o.start, Deliver(o, id, rep, arg).log) == 0
    ensures Settled(o) != o.tasks
    ensures var p := Deliver(o, id, rep, arg); p.async.completed <==> Settled(p) == p.tasks
  {
    var p := Deliver(o, id, rep, arg);
    DeliverInv(o, id, rep, arg);
    if id in o.tasks {
      TallyCounts(o, id, rep, Tally(o, id, rep).(log := o.log + [Entry(id, rep)]));
    }
    assert Settled(p) <= p.tasks;
    SubsetCardinality(Settled(p), p.tasks);
  }

  /** A raised error flag always means a hard failure; and the flag tells exactly whether any task failed hard
      if and only if the latest counted fault did not hide one. */
  lemma {:induction false} VerdictExactly(startFailed: set<TaskId>, log: seq<Entry>)
    ensures LastVerdict(startFailed, log) ==> Hard(startFailed, log) != {}
    ensures (LastVerdict(startFailed, log) <==> Hard(startFailed, log) != {}) <==> !HiddenAtEnd(startFailed, log)
  {
    if log == [] {
    } else {
      var before, e := log[..|log| - 1], log[|log| - 1];
      VerdictExactly(startFailed, before);
      if e.report.Fault? && e.task !in Faulted(before) && !e.report.expendable {
        assert e.task in Hard(startFailed, log);
      }
    }
  }

  /** Tasks that failed hard are among those that failed. */
  lemma {:induction false} HardAreFailed(startFailed: set<TaskId>, log: seq<Entry>)
    ensures startFailed <= Hard(startFailed, log) <= startFailed + Faulted(log)
  {
    if log != [] {
      var n := |log| - 1;
      HardAreFailed(startFailed, log[..n]);
      assert log == log[..n] + [log[n]];
      HistoryOfAppend(log[..n], log[n]);
    }
  }
}
