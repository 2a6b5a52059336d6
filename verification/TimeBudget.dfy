/** The time a request has left for its next operation: `requestTimeout` (odc/Controller.h) and `Timer`
    (odc/Timer.h). Times are nanoseconds since the request began. */
module TimeBudget {
  const MS: nat := 1_000_000
  const S: nat := 1_000_000_000

  /** Integer division as in C++: towards zero. */
  function Truncated(a: int, b: int): int
    requires b > 0
  {
    if a >= 0 then a / b else -(-a / b)
  }

  /** `Timer::duration`, in whole milliseconds. */
  function Elapsed(now: nat): nat {
    now / MS
  }

  /** In milliseconds; negative once the budget is used up. */
  function Remaining(timeout: nat, now: nat): int {
    timeout * 1000 - Elapsed(now)
  }

  /** A request without a timeout has the controller's. */
  function Configured(requested: nat, default: nat): nat {
    if requested == 0 then default else requested
  }

  /** `requestTimeout` at time `now`, in seconds. */
  function RequestTimeout(requested: nat, default: nat, now: nat): int {
    Truncated(Remaining(Configured(requested, default), now), 1000)
  }

  /** An operation of the request, from the moment its timeout is computed. */
  datatype Operation = Operation(start: nat, end: nat)

  /** The operation was given a timeout and ended within it. */
  predicate EndsInTime(requested: nat, default: nat, o: Operation) {
    var granted := RequestTimeout(requested, default, o.start);
    granted > 0 && o.start <= o.end <= o.start + granted * S
  }

  ghost predicate Successive(ops: seq<Operation>) {
    forall i, j :: 0 <= i < j < |ops| ==> ops[i].end <= ops[j].start
  }

  /** The time spent in operations. */
  function Spent(ops: seq<Operation>): int {
    if ops == [] then 0 else Spent(ops[..|ops| - 1]) + (ops[|ops| - 1].end - ops[|ops| - 1].start)
  }

  lemma OneWithinBudget(requested: nat, default: nat, o: Operation)
    requires EndsInTime(requested, default, o)
    ensures o.end < Configured(requested, default) * S + MS
  {
    var r := Remaining(Configured(requested, default), o.start);
    assert 1000 * (r / 1000) <= r;
    assert (r / 1000) * S == 1000 * (r / 1000) * MS <= r * MS;
    assert o.start < (Elapsed(o.start) + 1) * MS;
  }

  /** The time budget: however many operations a request performs one after the other, each ending within the
      timeout it was given, the last ends less than one millisecond after the configured timeout, and so does
      all time spent in them stay below it. Truncation does not accumulate. */
  lemma {:induction false} RequestWithinBudget(requested: nat, default: nat, ops: seq<Operation>)
    requires Successive(ops) && forall i :: 0 <= i < |ops| ==> EndsInTime(requested, default, ops[i])
    ensures forall i :: 0 <= i < |ops| ==> ops[i].end < Configured(requested, default) * S + MS
    ensures ops != [] ==> Spent(ops) <= ops[|ops| - 1].end
    ensures Spent(ops) < (if requested > 0 then requested else default) * 1_000_000_000 + 1_000_000
  {
    if ops != [] {
      var n := |ops| - 1;
      RequestWithinBudget(requested, default, ops[..n]);
      OneWithinBudget(requested, default, ops[n]);
      assert n > 0 ==> ops[..n][n - 1].end <= ops[n].start;
    }
  }

  /** The bound is sharp: every shorter overrun happens, even with a single operation. */
  lemma OverrunHappens(requested: nat, default: nat, overrun: nat)
    requires overrun < 1_000_000 && (requested > 0 || default > 0)
    ensures var o := Operation(overrun, (if requested > 0 then requested else default) * 1_000_000_000 + overrun);
      EndsInTime(requested, default, o)
  {
    assert Elapsed(overrun) == 0;
    var r := Remaining(Configured(requested, default), overrun);
    assert r / 1000 == Configured(requested, default);
  }

  /** A timer is only armed for a positive timeout: exactly if a whole second is left, to the millisecond. In
      its last second, and after it, a request waits without any limit. */
  lemma TimerArmedExactly(requested: nat, default: nat, now: nat)
    ensures RequestTimeout(requested, default, now) > 0 <==>
      now / 1_000_000 + 1000 <= (if requested > 0 then requested else default) * 1000
  {
  }

  /** Once the budget is used up, what is computed is the overrun, negative, in whole seconds towards zero. */
  lemma OverdueTruncates(requested: nat, default: nat, now: nat)
    requires now / 1_000_000 > (if requested > 0 then requested else default) * 1000
    ensures var over := now / 1_000_000 - (if requested > 0 then requested else default) * 1000;
      RequestTimeout(requested, default, now) == 0 - over / 1000
  {
  }

  /** What is granted never exceeds what is left, and falls short of it by less than a second. */
  lemma GrantedIsRemaining(requested: nat, default: nat, now: nat)
    requires now / 1_000_000 <= (if requested > 0 then requested else default) * 1000
    ensures var left := (if requested > 0 then requested else default) * 1_000_000_000 - now;
      RequestTimeout(requested, default, now) * 1_000_000_000 < left + 1_000_000 &&
        left < (RequestTimeout(requested, default, now) + 1) * 1_000_000_000
  {
    var r := Remaining(Configured(requested, default), now);
    assert (r / 1000) * S == 1000 * (r / 1000) * MS;
    assert Elapsed(now) * MS <= now < (Elapsed(now) + 1) * MS;
  }
}
