/** pkg/poll: polling with an error budget, a backoff and a deadline. Times are in milliseconds. */
module Poll {
  import opened Base

  datatype Error = Error(code: int)

  // What one call of the polled function returns.
  datatype Answer = Answer(ok: bool, err: Option<Error>)

  /** One turn of the loop as the environment decides it: what the function answers and how long it takes,
      how late the timer fires, and whether the select finds the context done instead of the timer. */
  datatype Attempt = Attempt(answer: Answer, duration: nat, latency: nat, done: bool)

  datatype Result = Invalid | Satisfied | Aborted(err: Error) | ContextDone | Unfinished

  function Min(a: int, b: int): int {
    if a < b then a else b
  }

  function Max(a: int, b: int): int {
    if a < b then b else a
  }

  /** The number of errors in a script. */
  function Errors(script: seq<Attempt>): nat {
    if script == [] then 0
    else Errors(script[..|script| - 1]) + if script[|script| - 1].answer.err.Some? then 1 else 0
  }

  /** The error ends the polling: it is not retryable, or as many as allowed came before it. */
  predicate Fatal(script: seq<Attempt>, i: nat, numRetries: nat, retryable: Error -> bool)
    requires i < |script| && script[i].answer.err.Some?
  {
    !retryable(script[i].answer.err.value) || Errors(script[..i]) >= numRetries
  }

  /** How turn i ends the polling; None if the loop goes on. An answer with an error counts as an error, whatever its flag. */
  function Verdict(script: seq<Attempt>, i: nat, numRetries: nat, retryable: Error -> bool): Option<Result>
    requires i < |script|
  {
    var a := script[i].answer;
    if a.err.Some? && Fatal(script, i, numRetries, retryable) then Some(Aborted(a.err.value))
    else if a.err.None? && a.ok then Some(Satisfied)
    else if script[i].done then Some(ContextDone)
    else None
  }

  /** The polling made n calls and returned the result: the last call decided it and no earlier one did;
      or the script ended first. */
  ghost predicate Polls(script: seq<Attempt>, numRetries: nat, retryable: Error -> bool, n: nat, result: Result) {
    && n <= |script|
    && (forall i | 0 <= i < n - 1 :: Verdict(script, i, numRetries, retryable).None?)
    && (result.Unfinished? ==> n == |script| && (n > 0 ==> Verdict(script, n - 1, numRetries, retryable).None?))
    && (!result.Unfinished? ==> n > 0 && Verdict(script, n - 1, numRetries, retryable) == Some(result))
  }

  /** When the next call starts: the sleep is clipped to the time left and a timer that is due fires at once. */
  function NextStart(start: int, a: Attempt, delay: nat, deadline: Option<int>): int {
    start + a.duration + Max(0, Sleep(start + a.duration, delay, deadline)) + a.latency
  }

  function Sleep(now: int, delay: nat, deadline: Option<int>): int {
    if deadline.Some? then Min(delay, deadline.value - now) else delay
  }

  ghost predicate Timed(script: seq<Attempt>, start: int, delay: nat -> nat, deadline: Option<int>, starts: seq<int>) {
    && |starts| <= |script| && (starts != [] ==> starts[0] == start)
    && forall i | 0 <= i < |starts| - 1 :: starts[i + 1] == NextStart(starts[i], script[i], delay(i), deadline)
  }

  lemma EmptyTimed(script: seq<Attempt>, start: int, delay: nat -> nat, deadline: Option<int>)
    ensures Timed(script, start, delay, deadline, [])
  {
  }

  lemma TimedAt(script: seq<Attempt>, start: int, delay: nat -> nat, deadline: Option<int>, starts: seq<int>, i: nat)
    requires Timed(script, start, delay, deadline, starts) && i < |starts|
    ensures |starts| <= |script|
    ensures starts[i] == if i == 0 then start else NextStart(starts[i - 1], script[i - 1], delay(i - 1), deadline)
  {
    if i > 0 {
      assert starts[i - 1 + 1] == NextStart(starts[i - 1], script[i - 1], delay(i - 1), deadline);
    }
  }

  lemma TimedExtends(script: seq<Attempt>, start: int, delay: nat -> nat, deadline: Option<int>, starts: seq<int>, now: int)
    requires Timed(script, start, delay, deadline, starts) && |starts| < |script|
    requires now == if starts == [] then start
                    else NextStart(starts[|starts| - 1], script[|starts| - 1], delay(|starts| - 1), deadline)
    ensures Timed(script, start, delay, deadline, starts + [now])
  {
  }

  /** The attempt counter of github.com/jpillora/backoff. */
  class Backoff {
    const delay: nat -> nat
    var attempt: nat

    constructor (delay: nat -> nat)
      ensures this.delay == delay && attempt == 0
    {
      this.delay := delay;
      attempt := 0;
    }

    method Duration() returns (d: nat)
      modifies this
      ensures d == delay(old(attempt)) && attempt == old(attempt) + 1
    {
      d := delay(attempt);
      attempt := attempt + 1;
    }
  }

  /** The loop. A script is what the environment does; it may end before the loop does. The starts are
      the times at which the function is called. */
  method WaitWithBackoffWithRetries(start: int, deadline: Option<int>, delay: nat -> nat, numRetries: int,
                                    retryable: Error -> bool, script: seq<Attempt>)
    returns (result: Result, starts: seq<int>)
    ensures numRetries < 0 ==> result == Invalid && starts == []
    ensures numRetries >= 0 ==> Polls(script, numRetries, retryable, |starts|, result)
    ensures Timed(script, start, delay, deadline, starts)
  {
    hide Timed;
    EmptyTimed(script, start, delay, deadline);
    starts := [];
    if numRetries < 0 {
      return Invalid, starts;
    }
    var b := new Backoff(delay);
    var retries, now := 0, start;
    for i := 0 to |script|
      invariant b.delay == delay && b.attempt == i == |starts| && fresh(b)
      invariant 0 <= retries == Errors(script[..i])
      invariant forall j | 0 <= j < i :: Verdict(script, j, numRetries, retryable).None?
      invariant Timed(script, start, delay, deadline, starts)
      invariant now == if i == 0 then start else NextStart(starts[i - 1], script[i - 1], delay(i - 1), deadline)
    {
      assert script[..i + 1][..i] == script[..i];
      TimedExtends(script, start, delay, deadline, starts, now);
      starts := starts + [now];
      var answer := script[i].answer;
      if answer.err.Some? {
        if !retryable(answer.err.value) || retries >= numRetries {
          return Aborted(answer.err.value), starts;
        }
        retries := retries + 1;
      } else if answer.ok {
        return Satisfied, starts;
      }
      now := now + script[i].duration;
      var sleep: int := b.Duration();
      if deadline.Some? {
        sleep := Min(sleep, deadline.value - now);
      }
      if script[i].done {
        return ContextDone, starts;
      }
      now := now + Max(0, sleep) + script[i].latency;
    }
    assert script[..|script|] == script;
    return Unfinished, starts;
  }

  predicate IsAlwaysRetryable(e: Error) { true }

  predicate IsNeverRetryable(e: Error) { false }

  /** The documented defaults: 100 ms, doubling, at most 10 s. */
  function DefaultDelay(attempt: nat): nat {
    if attempt == 0 then 100 else Min(2 * DefaultDelay(attempt - 1), 10000)
  }

  method WaitWithBackoff(start: int, deadline: Option<int>, delay: nat -> nat, script: seq<Attempt>)
    returns (result: Result, starts: seq<int>)
    ensures Polls(script, 0, IsNeverRetryable, |starts|, result) && Timed(script, start, delay, deadline, starts)
  {
    result, starts := WaitWithBackoffWithRetries(start, deadline, delay, 0, IsNeverRetryable, script);
  }

  method Wait(start: int, deadline: Option<int>, script: seq<Attempt>) returns (result: Result, starts: seq<int>)
    ensures Polls(script, 0, IsNeverRetryable, |starts|, result) && Timed(script, start, DefaultDelay, deadline, starts)
  {
    result, starts := WaitWithBackoff(start, deadline, DefaultDelay, script);
  }

  method WaitWithRetries(start: int, deadline: Option<int>, numRetries: int, retryable: Error -> bool, script: seq<Attempt>)
    returns (result: Result, starts: seq<int>)
    ensures numRetries < 0 ==> result == Invalid && starts == []
    ensures numRetries >= 0 ==> Polls(script, numRetries, retryable, |starts|, result)
    ensures Timed(script, start, DefaultDelay, deadline, starts)
  {
    result, starts := WaitWithBackoffWithRetries(start, deadline, DefaultDelay, numRetries, retryable, script);
  }

  // ---- The trace -----------------------------------------------------------------------------------

  /** The environment determines the number of calls and the result. */
  lemma PollsIsDeterministic(script: seq<Attempt>, numRetries: nat, retryable: Error -> bool,
                             m: nat, r: Result, n: nat, s: Result)
    requires Polls(script, numRetries, retryable, m, r) && Polls(script, numRetries, retryable, n, s)
    ensures m == n && r == s
  {
  }

  // The same loop in the terms of its documentation.

  ghost function ErrorsBefore(script: seq<Attempt>, i: nat): nat
    requires i <= |script|
  {
    |set j | 0 <= j < i && script[j].answer.err.Some?|
  }

  lemma {:induction false} ErrorsAreCounted(script: seq<Attempt>, i: nat)
    requires i <= |script|
    ensures Errors(script[..i]) == ErrorsBefore(script, i)
  {
    if i > 0 {
      ErrorsAreCounted(script, i - 1);
      assert script[..i][..i - 1] == script[..i - 1];
      var before := set j | 0 <= j < i - 1 && script[j].answer.err.Some?;
      var now := set j | 0 <= j < i && script[j].answer.err.Some?;
      if script[i - 1].answer.err.Some? {
        assert now == before + {i - 1};
      } else {
        assert now == before;
      }
    }
  }

  /** An error is tolerated if it is retryable and fewer than numRetries came before it. */
  ghost predicate Tolerates(script: seq<Attempt>, i: nat, numRetries: nat, retryable: Error -> bool)
    requires i < |script|
  {
    script[i].answer.err.Some? ==> retryable(script[i].answer.err.value) && ErrorsBefore(script, i) < numRetries
  }

  predicate Succeeds(a: Attempt) {
    a.answer.err.None? && a.answer.ok
  }

  ghost predicate GoesOn(script: seq<Attempt>, i: nat, numRetries: nat, retryable: Error -> bool)
    requires i < |script|
  {
    Tolerates(script, i, numRetries, retryable) && !Succeeds(script[i]) && !script[i].done
  }

  /** Turn i is reached: every turn before it goes on. */
  ghost predicate Reached(script: seq<Attempt>, numRetries: nat, retryable: Error -> bool, i: nat) {
    i < |script| && forall j | 0 <= j < i :: GoesOn(script, j, numRetries, retryable)
  }

  lemma VerdictIs(script: seq<Attempt>, i: nat, numRetries: nat, retryable: Error -> bool)
    requires i < |script|
    ensures Verdict(script, i, numRetries, retryable) ==
            if !Tolerates(script, i, numRetries, retryable) then Some(Aborted(script[i].answer.err.value))
            else if Succeeds(script[i]) then Some(Satisfied)
            else if script[i].done then Some(ContextDone)
            else None
    ensures Verdict(script, i, numRetries, retryable).None? <==> GoesOn(script, i, numRetries, retryable)
  {
    ErrorsAreCounted(script, i);
  }

  /** The first turn that does not go on ends the polling: with nil if it succeeds without an error, with its error if
      that is not tolerated, and otherwise because the context is done. */
  lemma TurnEndsPolling(script: seq<Attempt>, numRetries: nat, retryable: Error -> bool, n: nat, result: Result, i: nat)
    requires Polls(script, numRetries, retryable, n, result)
    requires Reached(script, numRetries, retryable, i) && !GoesOn(script, i, numRetries, retryable)
    ensures n == i + 1
    ensures result == if !Tolerates(script, i, numRetries, retryable) then Aborted(script[i].answer.err.value)
                      else if Succeeds(script[i]) then Satisfied
                      else ContextDone
  {
    forall j | 0 <= j <= i
      ensures Verdict(script, j, numRetries, retryable).None? <==> GoesOn(script, j, numRetries, retryable)
    {
      VerdictIs(script, j, numRetries, retryable);
    }
    VerdictIs(script, i, numRetries, retryable);
    var verdict := Verdict(script, i, numRetries, retryable).value;
    hide Verdict, GoesOn;
    assert Polls(script, numRetries, retryable, i + 1, verdict);
    PollsIsDeterministic(script, numRetries, retryable, n, result, i + 1, verdict);
  }

  /** If every turn of the script goes on, all its calls are made and the loop still runs. */
  lemma NothingEndsPolling(script: seq<Attempt>, numRetries: nat, retryable: Error -> bool, n: nat, result: Result)
    requires Polls(script, numRetries, retryable, n, result)
    requires forall i | 0 <= i < |script| :: GoesOn(script, i, numRetries, retryable)
    ensures n == |script| && result.Unfinished?
  {
    forall i | 0 <= i < |script| ensures Verdict(script, i, numRetries, retryable).None? {
      VerdictIs(script, i, numRetries, retryable);
    }
  }

  lemma {:induction false} FirstTurnThatEnds(script: seq<Attempt>, numRetries: nat, retryable: Error -> bool, m: nat)
    returns (i: nat)
    requires m <= |script|
    ensures i <= m && (forall j | 0 <= j < i :: GoesOn(script, j, numRetries, retryable))
    ensures i < m ==> !GoesOn(script, i, numRetries, retryable)
  {
    i := 0;
    while i < m && GoesOn(script, i, numRetries, retryable)
      invariant i <= m && forall j | 0 <= j < i :: GoesOn(script, j, numRetries, retryable)
    {
      i := i + 1;
    }
  }

  /** Nil is returned exactly when the first turn that does not go on is an error-free success; an error exactly when
      that turn has one that is not retryable or comes after numRetries others; the context's error exactly when that
      turn is tolerated, is no success, and finds the context done. */
  lemma WhatEndsPolling(script: seq<Attempt>, numRetries: nat, retryable: Error -> bool, n: nat, result: Result)
    requires Polls(script, numRetries, retryable, n, result)
    ensures result == Satisfied <==> exists i: nat :: Reached(script, numRetries, retryable, i) && Succeeds(script[i])
    ensures result.Aborted? <==>
            exists i: nat :: Reached(script, numRetries, retryable, i) && !Tolerates(script, i, numRetries, retryable)
    ensures result == ContextDone <==>
            exists i: nat :: Reached(script, numRetries, retryable, i) && Tolerates(script, i, numRetries, retryable)
                        && !Succeeds(script[i]) && script[i].done
    ensures result.Unfinished? <==> forall i | 0 <= i < |script| :: GoesOn(script, i, numRetries, retryable)
  {
    var i := FirstTurnThatEnds(script, numRetries, retryable, |script|);
    if i < |script| {
      assert Reached(script, numRetries, retryable, i);
      TurnEndsPolling(script, numRetries, retryable, n, result, i);
    } else {
      NothingEndsPolling(script, numRetries, retryable, n, result);
    }
    forall j: nat | Reached(script, numRetries, retryable, j) && !GoesOn(script, j, numRetries, retryable)
      ensures result == if !Tolerates(script, j, numRetries, retryable) then Aborted(script[j].answer.err.value)
                        else if Succeeds(script[j]) then Satisfied
                        else ContextDone
    {
      TurnEndsPolling(script, numRetries, retryable, n, result, j);
    }
  }

  /** No call follows a turn that finds the context done. */
  lemma DoneEndsPolling(script: seq<Attempt>, numRetries: nat, retryable: Error -> bool, n: nat, result: Result, i: nat)
    requires Polls(script, numRetries, retryable, n, result) && i < |script| && script[i].done
    ensures n <= i + 1 && (n == i + 1 ==> !result.Unfinished?)
  {
    assert !GoesOn(script, i, numRetries, retryable);
    var j := FirstTurnThatEnds(script, numRetries, retryable, i + 1);
    assert Reached(script, numRetries, retryable, j);
    TurnEndsPolling(script, numRetries, retryable, n, result, j);
  }

  /** At most numRetries errors are tolerated, and no call follows an error that is not retryable. */
  lemma {:induction false} ErrorsAreTolerated(script: seq<Attempt>, numRetries: nat, retryable: Error -> bool, i: nat)
    requires i <= |script| && forall j | 0 <= j < i :: Verdict(script, j, numRetries, retryable).None?
    ensures Errors(script[..i]) <= numRetries
    ensures forall j | 0 <= j < i :: script[j].answer.err.Some? ==> retryable(script[j].answer.err.value)
  {
    if i > 0 {
      ErrorsAreTolerated(script, numRetries, retryable, i - 1);
      assert script[..i][..i - 1] == script[..i - 1];
      assert Verdict(script, i - 1, numRetries, retryable).None?;
    }
  }

  // ---- The clock -----------------------------------------------------------------------------------

  /** In every turn of a run the timer is set to end by the deadline; so the next call starts when the timer fires,
      by the deadline but for a late timer, or at once if the call before it ended after the deadline. */
  lemma SleepEndsByDeadline(script: seq<Attempt>, start: int, delay: nat -> nat, deadline: int, starts: seq<int>, i: nat)
    requires Timed(script, start, delay, Some(deadline), starts) && i < |starts|
    ensures |starts| <= |script|
    ensures var now := starts[i] + script[i].duration;
            var sleep := Sleep(now, delay(i), Some(deadline));
            && now + sleep <= deadline && (sleep == delay(i) <==> now + delay(i) <= deadline)
            && (i + 1 < |starts| ==>
                  starts[i + 1] == (if sleep > 0 then now + sleep else now) + script[i].latency
                  && starts[i + 1] <= Max(now, deadline) + script[i].latency)
  {
    if i + 1 < |starts| {
      TimedAt(script, start, delay, Some(deadline), starts, i + 1);
    }
  }

  /** Without a deadline every call but the first waits for the whole delay after the call before it ended. */
  lemma NoDeadlineWaitsInFull(script: seq<Attempt>, start: int, delay: nat -> nat, starts: seq<int>, i: nat)
    requires Timed(script, start, delay, None, starts) && i + 1 < |starts|
    ensures |starts| <= |script|
    ensures starts[0] == start && starts[i + 1] == starts[i] + script[i].duration + delay(i) + script[i].latency
  {
    TimedAt(script, start, delay, None, starts, i + 1);
  }

  function TotalDelay(n: nat): nat {
    if n == 0 then 0 else TotalDelay(n - 1) + DefaultDelay(n - 1)
  }

  lemma {:induction false} DefaultDelays(n: nat)
    ensures n < 7 ==> DefaultDelay(n) == [100, 200, 400, 800, 1600, 3200, 6400][n]
    ensures n >= 7 ==> DefaultDelay(n) == 10000
    decreases n
  {
    if n > 0 {
      DefaultDelays(n - 1);
    }
  }

  lemma {:induction false} TotalDelays(n: nat)
    ensures n <= 7 ==> TotalDelay(n) == [0, 100, 300, 700, 1500, 3100, 6300, 12700][n]
    ensures n >= 7 ==> TotalDelay(n) == 12700 + 10000 * (n - 7)
  {
    if n > 0 {
      TotalDelays(n - 1);
      DefaultDelays(n - 1);
    }
  }

  /** A clipped sleep ends at the deadline, so what comes before it was not clipped. */
  lemma UnclippedSleep(now: int, a: Attempt, delay: nat, deadline: int)
    requires NextStart(now, a, delay, Some(deadline)) < deadline
    ensures now < deadline && NextStart(now, a, delay, Some(deadline)) >= now + delay
  {
  }

  /** A call that starts before the deadline has waited for every delay before it in full. */
  lemma {:induction false} EarlyCallsWaited(script: seq<Attempt>, start: int, deadline: int, starts: seq<int>, i: nat)
    requires Timed(script, start, DefaultDelay, Some(deadline), starts) && i < |starts| && starts[i] < deadline
    ensures starts[i] >= start + TotalDelay(i)
  {
    hide Timed, NextStart;
    if i == 0 {
      TimedAt(script, start, DefaultDelay, Some(deadline), starts, i);
    }
    if i > 0 {
      TimedAt(script, start, DefaultDelay, Some(deadline), starts, i);
      UnclippedSleep(starts[i - 1], script[i - 1], DefaultDelay(i - 1), deadline);
      EarlyCallsWaited(script, start, deadline, starts, i - 1);
    }
  }

  /** With the default backoff and T ms until the deadline, T at least 12.7 s, at most 7 + ceil((T - 12.7 s) / 10 s)
      calls start before it. */
  lemma EarlyCallsBound(script: seq<Attempt>, start: int, timeout: nat, starts: seq<int>, i: nat)
    requires Timed(script, start, DefaultDelay, Some(start + timeout), starts) && timeout >= 12700
    requires i < |starts| && starts[i] < start + timeout
    ensures i < 7 + (timeout - 12700 + 9999) / 10000
  {
    EarlyCallsWaited(script, start, start + timeout, starts, i);
    TotalDelays(i);
  }

  const GLOBAL_RESOURCE_TIMEOUT_MINUTES := 60

  /** The waits of the reconcilers call the status getter at most 366 times before their deadline. */
  lemma ResourceWaitsBound(script: seq<Attempt>, start: int, starts: seq<int>, i: nat)
    requires Timed(script, start, DefaultDelay, Some(start + GLOBAL_RESOURCE_TIMEOUT_MINUTES * 60000), starts)
    requires i < |starts| && starts[i] < start + GLOBAL_RESOURCE_TIMEOUT_MINUTES * 60000
    ensures i < 366
  {
    EarlyCallsBound(script, start, GLOBAL_RESOURCE_TIMEOUT_MINUTES * 60000, starts, i);
  }
}
