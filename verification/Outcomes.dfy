/** What the completion of an operation says about the replies it counted, in every run of a topology. */
module Outcomes {
  import opened Basics
  import opened TopologyDefs
  import opened AsyncOps
  import opened CountingOp
  import opened TopologyModel
  import opened TopologyInvariants
  import opened Handlers
  import opened Deliveries
  import opened Initiations
  import SP = SetPropertiesProtocol
  import GP = GetPropertiesProtocol

  /** SetProperties completed by its count succeeded if and only if no addressed task was in Error or Exiting at
      the start and each contributed exactly one counted event, an acknowledgement or an expendable failure. */
  lemma SetPropertiesSucceedsExactly(s: Topo, es: seq<Event>, op: OpId)
    requires Initial(s) && op in RunFrom(s, es).setOps && SP.CompletedByCount(RunFrom(s, es).setOps[op])
    ensures var o := RunFrom(s, es).setOps[op];
      o.async.calls[0].ec == NoError <==>
        && o.startBad == {}
        && (forall t :: t in SP.CountedTasks(o.log) <==> t in o.tasks)
        && (forall t :: t in o.tasks ==> Occurrences(SP.CountedTasks(o.log), t) == 1)
        && |SP.ConfirmedTasks(o.log)| == |SP.CountedTasks(o.log)|
  {
    RunGood(s, es);
    var r := RunFrom(s, es);
    assert SetOk(r.table, r.setOps[op]);
    SP.SuccessExactly(r.setOps[op]);
  }

  // ---------------------------------------------------------------- refusals

  /** Task `id` has yet to answer the open operation. */
  ghost predicate Awaits(s: Topo, op: OpId, id: TaskId) {
    op in s.setOps && !s.setOps[op].async.completed && id in s.setOps[op].tasks && id in s.setOps[op].outstanding
  }

  /** A reply of a device that SetProperties waits for: a failure leaves it outstanding, counts, and if it completes
      the operation, that reports an error and the device; an acknowledgement takes it off. */
  lemma ReplyDecides(s: Topo, op: OpId, id: TaskId, result: CmdResult)
    requires Awaits(s, op, id)
    ensures var r := Step(s, PropertiesSet(op, id, result));
      && op in r.setOps
      && r.setOps[op].count == s.setOps[op].count + 1
      && (id in r.setOps[op].outstanding <==> result == ResultFailure)
      && (result == ResultFailure && r.setOps[op].async.completed ==>
            exists reported ::
              && r.setOps[op].async.calls == s.setOps[op].async.calls + [Call(DeviceSetPropertiesFailed, reported)]
              && id in reported)
  {
    PropertiesSetSays(s, op, id, result, op);
    if result == ResultFailure {
      assert id in Step(s, PropertiesSet(op, id, result)).setOps[op].outstanding;
    }
  }

  /** A device that is waited for refuses: it replies with a failure, or fails without being let off. */
  ghost predicate Refuses(s: Topo, op: OpId, e: Event, id: TaskId) {
    && Awaits(s, op, id)
    && (e == PropertiesSet(op, id, ResultFailure) ||
        (TableOk(s.table) && Fails(s.table, e) && e.id == id &&
         !LetOff(s.table, s.table.devices[s.table.index[id]])))
  }

  /** Some counted reply did not clear its task. */
  ghost predicate Refused(s: Topo, op: OpId) {
    op in s.setOps && |SP.ConfirmedTasks(s.setOps[op].log)| < |SP.CountedTasks(s.setOps[op].log)|
  }

  lemma DeliverRefused(o: SP.SetOp, id: TaskId, reply: SP.Reply)
    requires SP.Inv(o)
    requires |SP.ConfirmedTasks(o.log)| < |SP.CountedTasks(o.log)| ||
             (!o.async.completed && id in o.tasks && id in o.outstanding && reply == SP.Failed(false))
    ensures var p := SP.Deliver(o, id, reply); |SP.ConfirmedTasks(p.log)| < |SP.CountedTasks(p.log)|
  {
    SP.ConfirmedIsCleared(o.log);
    SP.HistoryOfAppend(o.log, SP.Entry(id, reply));
  }

  lemma StepRefused(s: Topo, op: OpId, e: Event, id: TaskId)
    requires Good(s) && (Refused(s, op) || Refuses(s, op, e, id))
    ensures Refused(Step(s, e), op)
  {
    assert SetOk(s.table, s.setOps[op]);
    SetRefused(s.table, s.setOps, Fresh(s, e), e, op, id);
  }

  lemma SetRefused(t: Table, ops: map<OpId, SP.SetOp>, isNew: bool, e: Event, op: OpId, id: TaskId)
    requires op in ops && SP.Inv(ops[op]) && TableOk(t)
    requires isNew ==> IsInitiation(e) && e.op !in ops
    requires var o := ops[op];
      || |SP.ConfirmedTasks(o.log)| < |SP.CountedTasks(o.log)|
      || (!o.async.completed && id in o.tasks && id in o.outstanding &&
          (e == PropertiesSet(op, id, ResultFailure) ||
           (Fails(t, e) && e.id == id && !LetOff(t, t.devices[t.index[id]]))))
    ensures op in StepSet(t, ops, isNew, e)
    ensures var p := StepSet(t, ops, isNew, e)[op]; |SP.ConfirmedTasks(p.log)| < |SP.CountedTasks(p.log)|
  {
    if IsReport(t, e) {
      DeliverRefused(ops[op], e.id, SP.Failed(Expendable(t, e)));
    } else if e.PropertiesSet? && e.op == op {
      DeliverRefused(ops[op], e.id, SetReply(e.result));
    }
  }

  lemma {:induction false} StaysRefused(s: Topo, es: seq<Event>, op: OpId)
    requires Good(s) && Refused(s, op)
    ensures Refused(RunFrom(s, es), op)
  {
    if es != [] {
      StaysRefused(s, es[..|es| - 1], op);
      RunGood(s, es[..|es| - 1]);
      StepRefused(RunFrom(s, es[..|es| - 1]), op, es[|es| - 1], 0);
    }
  }

  lemma RunsOn(s: Topo, first: seq<Event>, e: Event, rest: seq<Event>)
    ensures RunFrom(s, first + [e] + rest) == RunFrom(Step(RunFrom(s, first), e), rest)
  {
    assert (first + [e])[..|first|] == first;
    RunContinues(s, first + [e], rest);
  }

  lemma RunRefused(s: Topo, first: seq<Event>, e: Event, rest: seq<Event>, op: OpId, id: TaskId)
    requires Good(s) && Refuses(RunFrom(s, first), op, e, id)
    ensures Refused(RunFrom(s, first + [e] + rest), op)
  {
    var m := RunFrom(s, first);
    RunGood(s, first);
    StepRefused(m, op, e, id);
    StepGood(m, e);
    StaysRefused(Step(m, e), rest, op);
    RunsOn(s, first, e, rest);
  }

  /** A SetProperties that its count completed without error was never refused: at no moment of the run did a device
      it was waiting for reply with a failure, or fail without being let off. */
  lemma SuccessWasNotRefused(s: Topo, first: seq<Event>, e: Event, rest: seq<Event>, op: OpId, id: TaskId)
    requires Initial(s) && op in RunFrom(s, first + [e] + rest).setOps
    requires var o := RunFrom(s, first + [e] + rest).setOps[op];
      SP.CompletedByCount(o) && o.async.calls[0].ec == NoError
    ensures !Refuses(RunFrom(s, first), op, e, id)
  {
    if Refuses(RunFrom(s, first), op, e, id) {
      var r := RunFrom(s, first + [e] + rest);
      RunRefused(s, first, e, rest, op, id);
      RunGood(s, first + [e] + rest);
      assert SetOk(r.table, r.setOps[op]);
      SP.SuccessExactly(r.setOps[op]);
    }
  }

  // ---------------------------------------------------------------- completion

  /** A SetProperties completed by its count left as many addressed tasks unanswered as counted replies came from
      tasks that had answered before, so none if and only if no task was counted twice. */
  lemma SetPropertiesAnsweredExactly(s: Topo, es: seq<Event>, op: OpId)
    requires Initial(s) && op in RunFrom(s, es).setOps && SP.CompletedByCount(RunFrom(s, es).setOps[op])
    ensures var o := RunFrom(s, es).setOps[op];
      && |o.tasks - SP.Answered(o)| == SP.Repeats(o.startBad, o.log)
      && (SP.Answered(o) == o.tasks <==> SP.Repeats(o.startBad, o.log) == 0)
  {
    RunGood(s, es);
    var r := RunFrom(s, es);
    assert SetOk(r.table, r.setOps[op]);
    SP.CompletionIsExact(r.setOps[op]);
  }

  /** However SetProperties completes, the tasks it reports are those that neither acknowledged nor failed
      expendably. */
  lemma SetPropertiesReportsExactly(s: Topo, es: seq<Event>, op: OpId, t: TaskId)
    requires Initial(s) && op in RunFrom(s, es).setOps && RunFrom(s, es).setOps[op].async.completed
    ensures var o := RunFrom(s, es).setOps[op];
      |o.async.calls| == 1 &&
      (t in o.async.calls[0].arg <==>
         t in o.tasks && !exists e :: e in o.log && e.task == t && (e.reply.Acked? || e.reply.expendable))
  {
    RunGood(s, es);
    var r := RunFrom(s, es);
    assert SetOk(r.table, r.setOps[op]);
    SP.ReportedSet(r.setOps[op], t);
  }

  /** GetProperties on a non-empty set of tasks, completed by its count, succeeded if and only if it counted
      exactly one Ok reply of each addressed task and no other reply; it then hands over what each task replied. */
  lemma GetPropertiesSucceedsExactly(s: Topo, es: seq<Event>, op: OpId)
    requires Initial(s) && op in RunFrom(s, es).getOps
    requires GP.CompletedByCount(RunFrom(s, es).getOps[op]) && RunFrom(s, es).getOps[op].tasks != {}
    ensures var o := RunFrom(s, es).getOps[op];
      && (o.async.calls[0].ec == NoError <==>
            (forall e :: e in o.log ==> e.ok && e.task in o.tasks) &&
            (forall t :: t in o.tasks ==> Occurrences(GP.Senders(o.log), t) == 1))
      && (o.async.calls[0].ec == NoError ==>
            o.async.calls[0].arg.devices.Keys == o.tasks &&
            forall e :: e in o.log ==> o.async.calls[0].arg.devices[e.task] == e.props)
  {
    RunGood(s, es);
    var r := RunFrom(s, es);
    assert GetOk(r.table, r.getOps[op]);
    GP.SuccessExactly(r.getOps[op]);
  }

  /** What the completion by count of a state operation says: as many addressed tasks were unsettled as counted
      reports came from settled tasks, so none if and only if no task was counted twice; an error code means that
      some task failed hard, and the codes tell exactly that unless the latest counted failure hid a hard one. */
  ghost predicate SettlesExactly<T>(o: StateOp<T>)
    requires o.async.calls != []
  {
    var failed := o.async.calls[0].ec == DeviceChangeStateFailed;
    && |o.tasks - Settled(o)| == Repeats(o.start, o.log)
    && (Settled(o) == o.tasks <==> Repeats(o.start, o.log) == 0)
    && (failed ==> Hard(o.startFailed, o.log) != {})
    && ((failed <==> Hard(o.startFailed, o.log) != {}) <==> !HiddenAtEnd(o.startFailed, o.log))
  }

  lemma CompletionSettles<T>(o: StateOp<T>)
    requires Inv(o) && CompletedByCount(o)
    ensures SettlesExactly(o)
  {
    CompletionIsExact(o);
    VerdictExactly(o.startFailed, o.log);
  }

  lemma ChangeStateSettlesExactly(s: Topo, es: seq<Event>, op: OpId)
    requires Initial(s) && op in RunFrom(s, es).changeOps && CompletedByCount(RunFrom(s, es).changeOps[op].core)
    ensures SettlesExactly(RunFrom(s, es).changeOps[op].core)
  {
    RunGood(s, es);
    assert ChangeOk(RunFrom(s, es).table, RunFrom(s, es).changeOps[op]);
    CompletionSettles(RunFrom(s, es).changeOps[op].core);
  }

  lemma WaitForStateSettlesExactly(s: Topo, es: seq<Event>, op: OpId)
    requires Initial(s) && op in RunFrom(s, es).waitOps && CompletedByCount(RunFrom(s, es).waitOps[op].core)
    ensures SettlesExactly(RunFrom(s, es).waitOps[op].core)
  {
    RunGood(s, es);
    assert WaitOk(RunFrom(s, es).table, RunFrom(s, es).waitOps[op]);
    CompletionSettles(RunFrom(s, es).waitOps[op].core);
  }
}
