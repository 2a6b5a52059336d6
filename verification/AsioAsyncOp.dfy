/** Single-shot completion of an asynchronous operation (odc/AsioAsyncOp.h). Dispatching the
    completion handler is recorded by appending to `calls`. */
module AsyncOps {

  datatype ErrorCode =
    | NoError
    | OperationTimeout
    | OperationCanceled
    | DeviceChangeStateFailed
    | DeviceChangeStateInvalidTransition
    | DeviceGetPropertiesFailed
    | DeviceSetPropertiesFailed

  /** One dispatch of the completion handler. */
  datatype Call<+T> = Call(ec: ErrorCode, arg: T)

  /** The value of an operation: whether it is completed and the handler calls so far. */
  datatype Async<+T> = Async(completed: bool, calls: seq<Call<T>>)
  {
    /** The handler has run exactly once if completed and never if open. */
    predicate SingleShot() {
      |calls| == if completed then 1 else 0
    }
  }

  function Dispatch<T>(a: Async<T>, ec: ErrorCode, arg: T): Async<T> {
    Async(true, a.calls + [Call(ec, arg)])
  }

  /** `Complete` on values: a completed operation is left as it is. */
  function Completed<T>(a: Async<T>, ec: ErrorCode, arg: T): Async<T> {
    if a.completed then a else Dispatch(a, ec, arg)
  }

  /** Any number of attempts at completion, in order. */
  function CompletedByAll<T>(a: Async<T>, attempts: seq<Call<T>>): Async<T> {
    if attempts == [] then a
    else
      var last := attempts[|attempts| - 1];
      Completed(CompletedByAll(a, attempts[..|attempts| - 1]), last.ec, last.arg)
  }

  /** Single shot: however often an open operation is completed or times out, its handler runs once, with
      what the first attempt gave it. */
  lemma {:induction false} FirstAttemptWins<T>(attempts: seq<Call<T>>)
    requires attempts != []
    ensures CompletedByAll(Async(false, []), attempts) == Async(true, [attempts[0]])
  {
    var n := |attempts| - 1;
    if n > 0 {
      FirstAttemptWins(attempts[..n]);
    } else {
      assert attempts[..n] == [];
      assert attempts == [attempts[0]];
    }
  }

  datatype Outcome = Returned | Threw

  class AsioAsyncOp<T> {
    var hasImpl: bool            // fImpl != nullptr
    var ownsWork: bool           // the work guards of *fImpl
    ghost var calls: seq<Call<T>>
    ghost const owner: nat       // the id of the operation this object belongs to

    ghost function View(): Async<T>
      reads this
    {
      Async(!hasImpl || !ownsWork, calls)
    }

    constructor (ghost owner: nat)
      ensures View() == Async(false, []) && this.owner == owner
    {
      this.owner := owner;
      hasImpl, ownsWork := true, true;
      calls := [];
    }

    function IsCompleted(): (r: bool)
      reads this
      ensures r == View().completed
    {
      !hasImpl || !ownsWork
    }

    /** Dispatches the handler; a second completion throws and dispatches nothing. */
    method Complete(ec: ErrorCode, arg: T) returns (o: Outcome)
      modifies this
      ensures o == if old(View()).completed then Threw else Returned
      ensures View() == Completed(old(View()), ec, arg)
    {
      if IsCompleted() {
        return Threw;
      }
      calls := calls + [Call(ec, arg)];
      ownsWork := false;
      hasImpl := false;
      return Returned;
    }

    method Timeout(arg: T) returns (o: Outcome)
      modifies this
      ensures o == if old(View()).completed then Threw else Returned
      ensures View() == Completed(old(View()), OperationTimeout, arg)
    {
      o := Complete(OperationTimeout, arg);
    }
  }
}
