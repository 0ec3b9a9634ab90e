/** Circuit breaker and retry loops (internal/reapi/circuitbreaker.go, internal/reapi/client.go). */
module Retry {
  import opened Prelude

  /** What a finished call reports to the breaker. */
  datatype Event = Success | Exhausted(at: int)

  datatype Breaker = Breaker(threshold: int, cooldown: int, failures: int, tripped: bool, lastFailure: int)

  function NewBreaker(threshold: int, cooldown: int): Breaker {
    Breaker(threshold, cooldown, 0, false, 0)
  }

  predicate Allows(b: Breaker, now: int) {
    !b.tripped || now - b.lastFailure >= b.cooldown
  }

  function Record(b: Breaker, e: Event): Breaker {
    match e
    case Success => b.(failures := 0, tripped := false)
    case Exhausted(at) =>
      b.(failures := b.failures + 1, lastFailure := at, tripped := b.tripped || b.failures + 1 >= b.threshold)
  }

  function RecordAll(b: Breaker, es: seq<Event>): Breaker
    decreases |es|
  {
    if es == [] then b else Record(RecordAll(b, es[..|es| - 1]), es[|es| - 1])
  }

  /** The position just after the last success: what happened since is all exhausted calls. */
  ghost predicate IsSinceSuccess(es: seq<Event>, start: nat) {
    && start <= |es|
    && (start == 0 || es[start - 1].Success?)
    && (forall i :: start <= i < |es| ==> es[i].Exhausted?)
  }

  /**
   * The breaker over whole call histories: it counts the exhausted calls since the last success, it is
   * tripped exactly when they reach the threshold, and it remembers when the last of them was.
   */
  lemma {:induction false} BreakerHistory(threshold: int, cooldown: int, es: seq<Event>, start: nat)
    requires 1 <= threshold && IsSinceSuccess(es, start)
    ensures var b := RecordAll(NewBreaker(threshold, cooldown), es);
      && b.threshold == threshold && b.cooldown == cooldown
      && b.failures == |es| - start
      && (b.tripped <==> |es| - start >= threshold)
      && (start < |es| ==> b.lastFailure == es[|es| - 1].at)
    decreases |es|
  {
    if es == [] {
    } else {
      var front := es[..|es| - 1];
      if es[|es| - 1].Success? {
        var earlier := SinceSuccess(front);
        BreakerHistory(threshold, cooldown, front, earlier);
      } else {
        BreakerHistory(threshold, cooldown, front, start);
      }
    }
  }

  lemma {:induction false} SinceSuccess(es: seq<Event>) returns (start: nat)
    ensures IsSinceSuccess(es, start)
    decreases |es|
  {
    if es == [] || es[|es| - 1].Success? {
      start := |es|;
    } else {
      start := SinceSuccess(es[..|es| - 1]);
    }
  }

  class CircuitBreaker {
    const threshold: int
    const cooldown: int
    var failures: int
    var tripped: bool
    var lastFailure: int

    ghost function State(): Breaker
      reads this
    {
      Breaker(threshold, cooldown, failures, tripped, lastFailure)
    }

    constructor (threshold: int, cooldown: int)
      ensures State() == NewBreaker(threshold, cooldown)
    {
      this.threshold, this.cooldown := threshold, cooldown;
      failures, tripped, lastFailure := 0, false, 0;
    }

    /** Asking changes nothing, so after the cooldown every caller is let through, not just one. */
    method Allow(now: int) returns (ok: bool)
      ensures ok == Allows(State(), now)
    {
      if !tripped {
        return true;
      }
      if now - lastFailure >= cooldown {
        return true;
      }
      return false;
    }

    method RecordSuccess()
      modifies this
      ensures State() == Record(old(State()), Success)
    {
      failures := 0;
      tripped := false;
    }

    method RecordFailure(now: int)
      modifies this
      ensures State() == Record(old(State()), Exhausted(now))
    {
      failures := failures + 1;
      lastFailure := now;
      if failures >= threshold {
        tripped := true;
      }
    }
  }

  /** Status codes, with the three retried ones apart. */
  datatype Code = Unavailable | ResourceExhausted | DeadlineExceeded | Other(code: int)

  datatype Outcome<+T> = Done(value: T) | Failed(code: Code, message: string)

  predicate Transient<T>(o: Outcome<T>) {
    o.Failed? && !o.code.Other?
  }

  /** Durations in nanoseconds. */
  const BASE_DELAY := 100_000_000
  const MAX_ATTEMPTS := 3

  function Delay(attempt: nat): int {
    if attempt == 0 then BASE_DELAY else 2 * Delay(attempt - 1)
  }

  /** One call: the state of its context before each attempt, the outcome of each attempt, the random jitters. */
  datatype Call<!T> = Call(cancelled: nat -> Option<string>, rpc: nat -> Outcome<T>, jitter: nat -> int)

  /** The random source yields a non-negative jitter below half the delay. */
  ghost predicate LegalJitter<T(!new)>(call: Call<T>) {
    forall i :: 0 <= i < MAX_ATTEMPTS ==> 0 <= call.jitter(i) < Delay(i) / 2
  }

  /** Everything observable about a call. */
  datatype Report<+T> = Report(result: Outcome<T>, calls: nat, slept: int, event: Option<Event>)

  /** An attempt that ends the loop: its context is done, or its outcome is not worth a retry. */
  predicate Decides<T(!new)>(call: Call<T>, i: nat) {
    call.cancelled(i).Some? || !Transient(call.rpc(i))
  }

  /** The first decisive attempt from a given one on, or the attempt limit when there is none. */
  function FirstDecision<T(!new)>(call: Call<T>, from: nat): (d: nat)
    requires from <= MAX_ATTEMPTS
    ensures from <= d <= MAX_ATTEMPTS
    ensures forall i :: from <= i < d ==> !Decides(call, i)
    ensures d < MAX_ATTEMPTS ==> Decides(call, d)
    decreases MAX_ATTEMPTS - from
  {
    if from == MAX_ATTEMPTS || Decides(call, from) then from else FirstDecision(call, from + 1)
  }

  /** Total sleep before attempt d, where nothing is slept after the last attempt. */
  function Slept<T(!new)>(call: Call<T>, d: nat): int {
    if d == 0 then 0
    else if d == MAX_ATTEMPTS then Slept(call, d - 1)
    else Slept(call, d - 1) + Delay(d - 1) + call.jitter(d - 1)
  }

  /** The code of errors that carry no status of their own: an open breaker, a context that is done. */
  const UNKNOWN := Other(2)

  /** The meaning of a retried call, read off its first decisive attempt. */
  function ReportOf<T(!new)>(breaker: Option<Breaker>, call: Call<T>, start: int, end: int): Report<T> {
    if breaker.Some? && !Allows(breaker.value, start) then Report(Failed(UNKNOWN, "circuit breaker open"), 0, 0, None)
    else
      var d := FirstDecision(call, 0);
      if d == MAX_ATTEMPTS then Report(call.rpc(d - 1), d, Slept(call, d), Some(Exhausted(end)))
      else if call.cancelled(d).Some? then Report(Failed(UNKNOWN, call.cancelled(d).value), d, Slept(call, d), None)
      else Report(call.rpc(d), d + 1, Slept(call, d), if call.rpc(d).Done? then Some(Success) else None)
  }

  ghost function StateOf(cb: CircuitBreaker?): Option<Breaker>
    reads cb
  {
    if cb == null then None else Some(cb.State())
  }

  ghost function Recorded(b: Option<Breaker>, e: Option<Event>): Option<Breaker> {
    if b.Some? && e.Some? then Some(Record(b.value, e.value)) else b
  }

  /** The generic retry loop. */
  method RetryRpc<T(!new)>(cb: CircuitBreaker?, call: Call<T>, start: int, end: int)
    returns (result: Outcome<T>, calls: nat, slept: int)
    modifies cb
    ensures var report := ReportOf(old(StateOf(cb)), call, start, end);
      && result == report.result && calls == report.calls && slept == report.slept
      && StateOf(cb) == Recorded(old(StateOf(cb)), report.event)
  {
    calls, slept := 0, 0;
    if cb != null {
      var ok := cb.Allow(start);
      if !ok {
        return Failed(UNKNOWN, "circuit breaker open"), calls, slept;
      }
    }
    var lastErr := Failed(UNKNOWN, "");
    var attempt := 0;
    while attempt < MAX_ATTEMPTS
      invariant 0 <= attempt <= MAX_ATTEMPTS
      invariant FirstDecision(call, 0) == FirstDecision(call, attempt)
      invariant calls == attempt && slept == Slept(call, attempt)
      invariant attempt > 0 ==> lastErr == call.rpc(attempt - 1)
      invariant StateOf(cb) == old(StateOf(cb))
    {
      if call.cancelled(attempt).Some? {
        return Failed(UNKNOWN, call.cancelled(attempt).value), calls, slept;
      }
      var r := call.rpc(attempt);
      calls := calls + 1;
      if r.Done? {
        if cb != null {
          cb.RecordSuccess();
        }
        return r, calls, slept;
      }
      if r.code != Unavailable && r.code != ResourceExhausted && r.code != DeadlineExceeded {
        return r, calls, slept;
      }
      lastErr := r;
      if attempt < MAX_ATTEMPTS - 1 {
        var delay := Delay(attempt);
        slept := slept + delay + call.jitter(attempt);
      }
      attempt := attempt + 1;
    }
    if cb != null {
      cb.RecordFailure(end);
    }
    return lastErr, calls, slept;
  }

  /** The hand-inlined loop for calls without a result: for every call it reports what the generic loop reports. */
  method RetryRpcNoResult(cb: CircuitBreaker?, call: Call<()>, start: int, end: int)
    returns (result: Outcome<()>, calls: nat, slept: int)
    modifies cb
    ensures var report := ReportOf(old(StateOf(cb)), call, start, end);
      && result == report.result && calls == report.calls && slept == report.slept
      && StateOf(cb) == Recorded(old(StateOf(cb)), report.event)
  {
    calls, slept := 0, 0;
    if cb != null {
      var ok := cb.Allow(start);
      if !ok {
        return Failed(UNKNOWN, "circuit breaker open"), calls, slept;
      }
    }
    var lastErr := Failed(UNKNOWN, "");
    var attempt := 0;
    while attempt < MAX_ATTEMPTS
      invariant 0 <= attempt <= MAX_ATTEMPTS
      invariant FirstDecision(call, 0) == FirstDecision(call, attempt)
      invariant calls == attempt && slept == Slept(call, attempt)
      invariant attempt > 0 ==> lastErr == call.rpc(attempt - 1)
      invariant StateOf(cb) == old(StateOf(cb))
    {
      if call.cancelled(attempt).Some? {
        return Failed(UNKNOWN, call.cancelled(attempt).value), calls, slept;
      }
      var r := call.rpc(attempt);
      calls := calls + 1;
      if r.Done? {
        if cb != null {
          cb.RecordSuccess();
        }
        return r, calls, slept;
      }
      if r.code != Unavailable && r.code != ResourceExhausted && r.code != DeadlineExceeded {
        return r, calls, slept;
      }
      lastErr := r;
      if attempt < MAX_ATTEMPTS - 1 {
        var delay := Delay(attempt);
        slept := slept + delay + call.jitter(attempt);
      }
      attempt := attempt + 1;
    }
    if cb != null {
      cb.RecordFailure(end);
    }
    return lastErr, calls, slept;
  }

  /** The first attempts went through to the store, and each came back with one of the three passing errors. */
  ghost predicate Passing<T(!new)>(call: Call<T>, attempts: nat) {
    forall i :: 0 <= i < attempts ==>
      && call.cancelled(i).None? && call.rpc(i).Failed?
      && (call.rpc(i).code == Unavailable || call.rpc(i).code == ResourceExhausted
          || call.rpc(i).code == DeadlineExceeded)
  }

  /** The time slept before an attempt: 100 ms and a jitter after the first, 200 ms and a jitter after the second. */
  function SleptBefore<T(!new)>(call: Call<T>, attempt: nat): int {
    if attempt == 0 then 0
    else if attempt == 1 then 100_000_000 + call.jitter(0)
    else 100_000_000 + call.jitter(0) + 200_000_000 + call.jitter(1)
  }

  /** A refused call reaches no store; the error says so. */
  lemma RefusedReport<T(!new)>(b: Breaker, call: Call<T>, start: int, end: int)
    requires b.tripped && start - b.lastFailure < b.cooldown
    ensures ReportOf(Some(b), call, start, end) == Report(Failed(UNKNOWN, "circuit breaker open"), 0, 0, None)
  {
  }

  /**
   * After any number of passing errors, what comes back is: the error of the context if it is done, the value
   * of a success, the first other error as it is, or after three attempts the last passing error; and only a
   * success or a third passing error is recorded.
   */
  lemma ReportByAttempts<T(!new)>(breaker: Option<Breaker>, call: Call<T>, start: int, end: int, d: nat)
    requires breaker.Some? ==> !breaker.value.tripped || breaker.value.cooldown <= start - breaker.value.lastFailure
    requires d <= 3 && Passing(call, d)
    ensures var report := ReportOf(breaker, call, start, end);
      && (d == 3 ==> report == Report(call.rpc(2), 3, SleptBefore(call, 2), Some(Exhausted(end))))
      && (d < 3 && call.cancelled(d).Some? ==>
            report == Report(Failed(UNKNOWN, call.cancelled(d).value), d, SleptBefore(call, d), None))
      && (d < 3 && call.cancelled(d).None? && call.rpc(d).Done? ==>
            report == Report(call.rpc(d), d + 1, SleptBefore(call, d), Some(Success)))
      && (d < 3 && call.cancelled(d).None? && call.rpc(d).Failed? && call.rpc(d).code.Other? ==>
            report == Report(call.rpc(d), d + 1, SleptBefore(call, d), None))
  {
    assert Delay(0) == 100_000_000 && Delay(1) == 200_000_000;
    assert Slept(call, 1) == Slept(call, 0) + Delay(0) + call.jitter(0);
    assert Slept(call, 2) == Slept(call, 1) + Delay(1) + call.jitter(1);
    assert Slept(call, 3) == Slept(call, 2);
    forall i | 0 <= i < d
      ensures !Decides(call, i)
    {
    }
    assert d < 3 && (call.cancelled(d).Some? || call.rpc(d).Done? || call.rpc(d).code.Other?) ==> Decides(call, d);
  }

  /** At most three attempts, under 450 milliseconds of sleep, and no more than one breaker update. */
  lemma RetryBounds<T(!new)>(breaker: Option<Breaker>, call: Call<T>, start: int, end: int)
    requires LegalJitter(call)
    ensures var report := ReportOf(breaker, call, start, end);
      && report.calls <= 3
      && 0 <= report.slept < 450_000_000
      && (report.event == Some(Success) <==> report.result.Done?)
      && (report.event.Some? && report.event.value.Exhausted? ==> report.calls == 3 && Transient(report.result))
  {
    assert Delay(0) == 100_000_000 && Delay(1) == 200_000_000;
    assert 0 <= call.jitter(0) < 50_000_000 && 0 <= call.jitter(1) < 100_000_000;
    assert Slept(call, 1) == Slept(call, 0) + Delay(0) + call.jitter(0);
    assert Slept(call, 2) == Slept(call, 1) + Delay(1) + call.jitter(1);
    assert Slept(call, 3) == Slept(call, 2);
    var d := FirstDecision(call, 0);
    assert d == 0 || d == 1 || d == 2 || d == 3;
  }

  /**
   * A call that starts after a history of calls: while the exhausted calls since the last success reach
   * the threshold and the cooldown has not passed since the latest of them, it issues no RPC and records
   * nothing; in every other case an uncancelled call issues at least one.
   */
  lemma OpenBreakerBlocks<T(!new)>(threshold: int, cooldown: int, es: seq<Event>, since: nat, call: Call<T>,
                                   start: int, end: int)
    requires 1 <= threshold && IsSinceSuccess(es, since) && call.cancelled(0).None?
    ensures var report := ReportOf(Some(RecordAll(NewBreaker(threshold, cooldown), es)), call, start, end);
      var blocked := |es| - since >= threshold && start - es[|es| - 1].at < cooldown;
      && (report.calls == 0 <==> blocked)
      && (blocked ==> report.event == None)
  {
    BreakerHistory(threshold, cooldown, es, since);
  }

  /** Non-transient errors and cancellations leave the breaker as it was. */
  lemma PermanentErrorsLeaveBreaker<T(!new)>(b: Breaker, call: Call<T>, start: int, end: int)
    requires var d := FirstDecision(call, 0); d < MAX_ATTEMPTS && (call.cancelled(d).Some? || call.rpc(d).Failed?)
    ensures Recorded(Some(b), ReportOf(Some(b), call, start, end).event) == Some(b)
  {
  }

  /**
   * The comment on Allow promises one probe after the cooldown; the code lets through every call that
   * starts before the first of them is recorded, however many there are.
   */
  lemma ProbesAreUnlimited<T(!new)>(b: Breaker, calls: seq<Call<T>>, starts: seq<int>, end: int)
    requires b.tripped && |calls| == |starts|
    requires forall i :: 0 <= i < |calls| ==> calls[i].cancelled(0).None?
    requires forall i :: 0 <= i < |starts| ==> starts[i] - b.lastFailure >= b.cooldown
    ensures forall i :: 0 <= i < |calls| ==> 1 <= ReportOf(Some(b), calls[i], starts[i], end).calls
  {
    forall i | 0 <= i < |calls|
      ensures 1 <= ReportOf(Some(b), calls[i], starts[i], end).calls
    {
      var d := FirstDecision(calls[i], 0);
      assert d == 0 ==> calls[i].cancelled(d).None?;
    }
  }
}
