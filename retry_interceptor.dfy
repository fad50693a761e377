/** rpc/RetryInterceptor.java: an OkHttp interceptor that re-sends a request
    while its retry budget lasts. The chain is abstract: what each
    successive chain.proceed call produces is an input, and so is whether
    each back-off sleep is interrupted. */
module Rpc {
  import opened Wrappers

  /** Response.isSuccessful: a status in [200, 300). */
  predicate IsSuccessful(status: int) {
    200 <= status < 300
  }

  /** What one chain.proceed call produces: a response with a status, or
      an IOException (told apart by `id`). */
  datatype Attempt = Responded(status: int) | IOFailure(id: nat)

  predicate Succeeded(a: Attempt) {
    a.Responded? && IsSuccessful(a.status)
  }

  /** The exceptions intercept can throw: an IOException from the chain,
      the IOException wrapping an interrupted sleep, or the fresh
      IOException thrown after the loop. */
  datatype Error = Transport(id: nat) | Interrupted | Exhausted

  datatype Outcome = Returned(status: int) | Threw(error: Error)

  /** One intercept call: its outcome, the retry counter afterwards, the
      number of proceed calls, and the number of back-off sleeps started. */
  datatype Run = Run(outcome: Outcome, retryCount: int, used: nat, sleeps: nat)

  /** The sleeps of a call that starts with counter `count`: the k-th one
      asks for 2000 * (count + k + 1) ms, the counter after its failure. */
  function Backoffs(count: int, n: nat): (d: seq<int>)
    ensures |d| == n
    ensures forall j, k :: 0 <= j < k < n ==> d[j] < d[k]
  {
    seq(n, k => 2000 * (count + k + 1))
  }

  /** How many more attempts the loop condition retryCount < maxRetries
      allows. */
  function Budget(maxRetries: int, retryCount: int): nat {
    if retryCount < maxRetries then maxRetries - retryCount else 0
  }

  /** What is thrown once the loop ends: the last IOException if there was
      one, a fresh IOException otherwise. */
  function Pending(last: Option<nat>): Error {
    if last.Some? then Transport(last.value) else Exhausted
  }

  predicate NoIOFailure(seen: seq<Attempt>) {
    forall j :: 0 <= j < |seen| ==> !seen[j].IOFailure?
  }

  /** Scans `seen` from the front, remembering each IOException. */
  function LastIOFailure(seen: seq<Attempt>, last: Option<nat>): Option<nat> {
    if seen == [] then last
    else LastIOFailure(seen[1..], if seen[0].IOFailure? then Some(seen[0].id) else last)
  }

  /** The scan yields the latest IOException in `seen`, or `last` when
      there is none. */
  lemma {:induction false} LastIOFailureIsLatest(seen: seq<Attempt>, last: Option<nat>)
    ensures NoIOFailure(seen) ==> LastIOFailure(seen, last) == last
    ensures forall j :: 0 <= j < |seen| && seen[j].IOFailure? && NoIOFailure(seen[j + 1..]) ==>
      LastIOFailure(seen, last) == Some(seen[j].id)
  {
    if seen != [] {
      var last' := if seen[0].IOFailure? then Some(seen[0].id) else last;
      LastIOFailureIsLatest(seen[1..], last');
      forall j | 0 <= j < |seen| && seen[j].IOFailure? && NoIOFailure(seen[j + 1..])
        ensures LastIOFailure(seen, last) == Some(seen[j].id)
      {
        if j > 0 {
          assert seen[1..][j - 1 + 1..] == seen[j + 1..];
        } else {
          assert forall k :: 0 <= k < |seen[1..]| ==> seen[1..][k] == seen[1..][k];
          assert NoIOFailure(seen[1..]);
        }
      }
      if NoIOFailure(seen) {
        assert NoIOFailure(seen[1..]);
      }
    }
  }

  /** The retry loop from counter value `count`, with `attempts[next]` the
      next proceed result and `last` the latest IOException caught so far.
      A sleep of 2000 * retryCount ms follows each failed attempt that
      leaves budget over. */
  function Loop(maxRetries: int, count: int, attempts: seq<Attempt>, interrupts: seq<bool>, next: nat, last: Option<nat>): (r: Run)
    requires |interrupts| == |attempts| && next + Budget(maxRetries, count) <= |attempts|
    ensures r.used <= Budget(maxRetries, count)
    decreases Budget(maxRetries, count)
  {
    if count >= maxRetries then Run(Threw(Pending(last)), count, 0, 0)
    else if Succeeded(attempts[next]) then Run(Returned(attempts[next].status), count, 1, 0)
    else
      var last' := if attempts[next].IOFailure? then Some(attempts[next].id) else last;
      var count' := count + 1;
      if count' < maxRetries && interrupts[next] then Run(Threw(Interrupted), count', 1, 1)
      else
        var r := Loop(maxRetries, count', attempts, interrupts, next + 1, last');
        Run(r.outcome, r.retryCount, r.used + 1, r.sleeps + (if count' < maxRetries then 1 else 0))
  }

  /** No attempt is made exactly when the budget is already spent; then
      the pending exception is thrown. */
  lemma LoopNoAttempt(maxRetries: int, count: int, attempts: seq<Attempt>, interrupts: seq<bool>, next: nat, last: Option<nat>)
    requires |interrupts| == |attempts| && next + Budget(maxRetries, count) <= |attempts|
    ensures var r := Loop(maxRetries, count, attempts, interrupts, next, last);
      && (r.used == 0 <==> count >= maxRetries)
      && (r.used == 0 ==> r == Run(Threw(Pending(last)), count, 0, 0))
  {
  }

  /** Every attempt but the last one of a call failed, and the sleep after
      it completed. */
  lemma {:induction false} LoopEarlierFailed(maxRetries: int, count: int, attempts: seq<Attempt>, interrupts: seq<bool>, next: nat, last: Option<nat>)
    requires |interrupts| == |attempts| && next + Budget(maxRetries, count) <= |attempts|
    decreases Budget(maxRetries, count)
    ensures forall j :: next <= j < next + Loop(maxRetries, count, attempts, interrupts, next, last).used - 1 ==>
      !Succeeded(attempts[j]) && !interrupts[j]
  {
    if count < maxRetries && !Succeeded(attempts[next]) {
      var last' := if attempts[next].IOFailure? then Some(attempts[next].id) else last;
      LoopEarlierFailed(maxRetries, count + 1, attempts, interrupts, next + 1, last');
    }
  }

  /** A call whose last attempt got a 2xx response returns it, with no
      sleep after it; the counter counts the failures before it. */
  lemma {:induction false} LoopLastSucceeded(maxRetries: int, count: int, attempts: seq<Attempt>, interrupts: seq<bool>, next: nat, last: Option<nat>)
    requires |interrupts| == |attempts| && next + Budget(maxRetries, count) <= |attempts|
    decreases Budget(maxRetries, count)
    ensures var r := Loop(maxRetries, count, attempts, interrupts, next, last);
      r.used > 0 && Succeeded(attempts[next + r.used - 1]) ==>
        && r.outcome == Returned(attempts[next + r.used - 1].status)
        && r.retryCount == count + r.used - 1 && r.retryCount < maxRetries && r.sleeps == r.used - 1
  {
    if count < maxRetries && !Succeeded(attempts[next]) {
      var last' := if attempts[next].IOFailure? then Some(attempts[next].id) else last;
      if !(count + 1 < maxRetries && interrupts[next]) {
        LoopLastSucceeded(maxRetries, count + 1, attempts, interrupts, next + 1, last');
      }
    }
  }

  /** A call whose last attempt failed ends either on an interrupted sleep
      while budget was left, or with the budget spent and no sleep after
      the last attempt. */
  lemma {:induction false} LoopLastFailed(maxRetries: int, count: int, attempts: seq<Attempt>, interrupts: seq<bool>, next: nat, last: Option<nat>)
    requires |interrupts| == |attempts| && next + Budget(maxRetries, count) <= |attempts|
    decreases Budget(maxRetries, count)
    ensures var r := Loop(maxRetries, count, attempts, interrupts, next, last);
      r.used > 0 && !Succeeded(attempts[next + r.used - 1]) ==>
        && r.retryCount == count + r.used
        && ((r.retryCount < maxRetries && interrupts[next + r.used - 1]
             && r.outcome == Threw(Interrupted) && r.sleeps == r.used)
         || (r.retryCount == maxRetries && r.outcome.Threw? && r.outcome.error != Interrupted
             && r.sleeps == r.used - 1))
  {
    if count < maxRetries && !Succeeded(attempts[next]) {
      var last' := if attempts[next].IOFailure? then Some(attempts[next].id) else last;
      if !(count + 1 < maxRetries && interrupts[next]) {
        LoopLastFailed(maxRetries, count + 1, attempts, interrupts, next + 1, last');
      }
    }
  }

  /** Unless a sleep was interrupted, a call that throws throws the latest
      IOException among its attempts, or `last` if they had none. */
  lemma {:induction false} LoopRethrows(maxRetries: int, count: int, attempts: seq<Attempt>, interrupts: seq<bool>, next: nat, last: Option<nat>)
    requires |interrupts| == |attempts| && next + Budget(maxRetries, count) <= |attempts|
    decreases Budget(maxRetries, count)
    ensures var r := Loop(maxRetries, count, attempts, interrupts, next, last);
      r.outcome.Threw? && r.outcome.error != Interrupted ==>
        r.outcome.error == Pending(LastIOFailure(attempts[next..next + r.used], last))
  {
    if count >= maxRetries {
      assert attempts[next..next] == [];
    } else if !Succeeded(attempts[next]) && !(count + 1 < maxRetries && interrupts[next]) {
      var last' := if attempts[next].IOFailure? then Some(attempts[next].id) else last;
      LoopRethrows(maxRetries, count + 1, attempts, interrupts, next + 1, last');
      var r := Loop(maxRetries, count + 1, attempts, interrupts, next + 1, last');
      assert attempts[next..next + r.used + 1][1..] == attempts[next + 1..next + 1 + r.used];
    }
  }

  /** A returned response is always a 2xx one, and it is the first 2xx
      response: every earlier attempt failed. A non-2xx response is never
      returned. */
  lemma ReturnsFirstSuccess(maxRetries: int, count: int, attempts: seq<Attempt>, interrupts: seq<bool>)
    requires |interrupts| == |attempts| && Budget(maxRetries, count) <= |attempts|
    ensures var r := Loop(maxRetries, count, attempts, interrupts, 0, None);
      r.outcome.Returned? ==>
        && IsSuccessful(r.outcome.status)
        && r.used >= 1 && attempts[r.used - 1] == Responded(r.outcome.status)
        && (forall j :: 0 <= j < r.used - 1 ==> !Succeeded(attempts[j]))
  {
    LoopNoAttempt(maxRetries, count, attempts, interrupts, 0, None);
    LoopEarlierFailed(maxRetries, count, attempts, interrupts, 0, None);
    LoopLastSucceeded(maxRetries, count, attempts, interrupts, 0, None);
    LoopLastFailed(maxRetries, count, attempts, interrupts, 0, None);
  }

  /** A 2xx response within the budget is reached unless a sleep before it
      is interrupted. */
  lemma {:induction false} SuccessWithinBudgetReturned(maxRetries: int, count: int, attempts: seq<Attempt>, interrupts: seq<bool>, next: nat, last: Option<nat>, j: nat)
    requires |interrupts| == |attempts| && next + Budget(maxRetries, count) <= |attempts|
    requires count + j < maxRetries && Succeeded(attempts[next + j])
    requires forall k :: next <= k < next + j ==> !interrupts[k]
    ensures Loop(maxRetries, count, attempts, interrupts, next, last).outcome.Returned?
    decreases j
  {
    if j > 0 && !Succeeded(attempts[next]) {
      var last' := if attempts[next].IOFailure? then Some(attempts[next].id) else last;
      SuccessWithinBudgetReturned(maxRetries, count + 1, attempts, interrupts, next + 1, last', j - 1);
    }
  }

  /** A sleep follows every failed attempt but the one that uses up the
      budget: none after a 2xx response or after the last attempt, and a
      sleep happens only while the counter is below maxRetries. */
  lemma Backoff(maxRetries: int, count: int, attempts: seq<Attempt>, interrupts: seq<bool>)
    requires |interrupts| == |attempts| && Budget(maxRetries, count) <= |attempts|
    ensures var r := Loop(maxRetries, count, attempts, interrupts, 0, None);
      && r.sleeps == (if r.outcome == Threw(Interrupted) then r.used else if r.used > 0 then r.used - 1 else 0)
      && (r.sleeps > 0 ==> count + r.sleeps < maxRetries)
  {
    LoopNoAttempt(maxRetries, count, attempts, interrupts, 0, None);
    LoopLastSucceeded(maxRetries, count, attempts, interrupts, 0, None);
    LoopLastFailed(maxRetries, count, attempts, interrupts, 0, None);
  }

  /** A call that ends by running out of budget made only failed
      attempts. */
  lemma ExhaustedAllFailed(maxRetries: int, count: int, attempts: seq<Attempt>, interrupts: seq<bool>)
    requires |interrupts| == |attempts| && Budget(maxRetries, count) <= |attempts|
    ensures var r := Loop(maxRetries, count, attempts, interrupts, 0, None);
      r.retryCount >= maxRetries && r.outcome.Threw? ==> forall j :: 0 <= j < r.used ==> !Succeeded(attempts[j])
  {
    var r := Loop(maxRetries, count, attempts, interrupts, 0, None);
    if r.used > 0 && r.outcome.Threw? {
      LoopLastSucceeded(maxRetries, count, attempts, interrupts, 0, None);
      LoopEarlierFailed(maxRetries, count, attempts, interrupts, 0, None);
    }
  }

  /** When the budget runs out, the latest IOException is rethrown even if
      later attempts got non-2xx responses; without any IOException a fresh
      one is thrown. */
  lemma ExhaustedThrows(maxRetries: int, count: int, attempts: seq<Attempt>, interrupts: seq<bool>)
    requires |interrupts| == |attempts| && Budget(maxRetries, count) <= |attempts|
    ensures var r := Loop(maxRetries, count, attempts, interrupts, 0, None);
      r.retryCount >= maxRetries && r.outcome.Threw? ==> r.outcome.error == Pending(LastIOFailure(attempts[..r.used], None))
  {
    var r := Loop(maxRetries, count, attempts, interrupts, 0, None);
    if r.retryCount >= maxRetries && r.outcome.Threw? {
      LoopNoAttempt(maxRetries, count, attempts, interrupts, 0, None);
      if r.used > 0 {
        LoopLastSucceeded(maxRetries, count, attempts, interrupts, 0, None);
        LoopLastFailed(maxRetries, count, attempts, interrupts, 0, None);
      }
      LoopRethrows(maxRetries, count, attempts, interrupts, 0, None);
      assert attempts[0..r.used] == attempts[..r.used];
    }
  }

  /** An interrupted back-off sleep ends the call with an IOException,
      after a failed attempt that left budget over. */
  lemma InterruptedSleepThrows(maxRetries: int, count: int, attempts: seq<Attempt>, interrupts: seq<bool>)
    requires |interrupts| == |attempts| && Budget(maxRetries, count) <= |attempts|
    ensures var r := Loop(maxRetries, count, attempts, interrupts, 0, None);
      r.outcome == Threw(Interrupted) <==>
        r.used > 0 && !Succeeded(attempts[r.used - 1]) && interrupts[r.used - 1] && r.retryCount < maxRetries
  {
    LoopNoAttempt(maxRetries, count, attempts, interrupts, 0, None);
    LoopLastSucceeded(maxRetries, count, attempts, interrupts, 0, None);
    LoopLastFailed(maxRetries, count, attempts, interrupts, 0, None);
  }

  /** The counter rises by one per failed attempt: by every attempt of the
      call except a final 2xx one. */
  lemma CounterCountsFailures(maxRetries: int, count: int, attempts: seq<Attempt>, interrupts: seq<bool>)
    requires |interrupts| == |attempts| && Budget(maxRetries, count) <= |attempts|
    ensures var r := Loop(maxRetries, count, attempts, interrupts, 0, None);
      r.retryCount == count + r.used - (if r.outcome.Returned? then 1 else 0)
  {
    LoopNoAttempt(maxRetries, count, attempts, interrupts, 0, None);
    LoopLastSucceeded(maxRetries, count, attempts, interrupts, 0, None);
    LoopLastFailed(maxRetries, count, attempts, interrupts, 0, None);
  }

  /** The counter is an instance field that is never reset: once it reaches
      maxRetries, every later call throws without calling proceed, even if
      the request would now succeed. */
  lemma SpentBudgetRefusesRequest(maxRetries: int, attempts: seq<Attempt>, interrupts: seq<bool>)
    requires |interrupts| == |attempts|
    ensures Loop(maxRetries, maxRetries, attempts, interrupts, 0, None) == Run(Threw(Exhausted), maxRetries, 0, 0)
  {
  }

  /** Two calls on one interceptor with maxRetries = 3: three IOExceptions
      in the first call spend the budget, and the second call throws
      although its first attempt would get 200. */
  lemma SharedCounterExample()
    ensures Loop(3, 0, [IOFailure(1), IOFailure(2), IOFailure(3)], [false, false, false], 0, None)
      == Run(Threw(Transport(3)), 3, 3, 2)
    ensures Loop(3, 3, [Responded(200)], [false], 0, None).outcome == Threw(Exhausted)
  {
    var a := [IOFailure(1), IOFailure(2), IOFailure(3)];
    assert Loop(3, 2, a, [false, false, false], 2, Some(2)) == Run(Threw(Transport(3)), 3, 1, 0);
    assert Loop(3, 1, a, [false, false, false], 1, Some(1)) == Run(Threw(Transport(3)), 3, 2, 1);
  }

  /** The evidently intended interceptor: a per-request counter, so each
      request starts from zero whatever happened before. */
  function PerRequest(maxRetries: int, attempts: seq<Attempt>, interrupts: seq<bool>): (r: Run)
    requires |interrupts| == |attempts| && Budget(maxRetries, 0) <= |attempts|
    ensures r.used > 0 <==> maxRetries > 0
  {
    LoopNoAttempt(maxRetries, 0, attempts, interrupts, 0, None);
    Loop(maxRetries, 0, attempts, interrupts, 0, None)
  }

  /** With a per-request counter, a 2xx response among the first
      maxRetries attempts is returned unless a sleep is interrupted. */
  lemma PerRequestServes(maxRetries: int, attempts: seq<Attempt>, interrupts: seq<bool>, j: nat)
    requires |interrupts| == |attempts| && Budget(maxRetries, 0) <= |attempts|
    requires j < maxRetries && Succeeded(attempts[j])
    requires forall k :: 0 <= k < j ==> !interrupts[k]
    ensures PerRequest(maxRetries, attempts, interrupts).outcome.Returned?
    ensures IsSuccessful(PerRequest(maxRetries, attempts, interrupts).outcome.status)
  {
    SuccessWithinBudgetReturned(maxRetries, 0, attempts, interrupts, 0, None, j);
    ReturnsFirstSuccess(maxRetries, 0, attempts, interrupts);
  }

  /** One step of the loop: a 2xx response ends the call, a failure
      either ends it on an interrupted sleep or goes on from the next
      attempt with the counter one higher. */
  lemma LoopStep(maxRetries: int, count: int, attempts: seq<Attempt>, interrupts: seq<bool>, next: nat, last: Option<nat>)
    requires |interrupts| == |attempts| && next + Budget(maxRetries, count) <= |attempts|
    requires count < maxRetries
    ensures var r := Loop(maxRetries, count, attempts, interrupts, next, last);
      var last' := if attempts[next].IOFailure? then Some(attempts[next].id) else last;
      var r' := Loop(maxRetries, count + 1, attempts, interrupts, next + 1, last');
      && (Succeeded(attempts[next]) ==> r == Run(Returned(attempts[next].status), count, 1, 0))
      && (!Succeeded(attempts[next]) && count + 1 < maxRetries && interrupts[next] ==>
            r == Run(Threw(Interrupted), count + 1, 1, 1))
      && (!Succeeded(attempts[next]) && !(count + 1 < maxRetries && interrupts[next]) ==>
            r == Run(r'.outcome, r'.retryCount, r'.used + 1, r'.sleeps + (if count + 1 < maxRetries then 1 else 0)))
  {
  }

  class RetryInterceptor {
    const maxRetries: int
    /** The failed attempts of every call made so far: an instance field
        that no call resets. */
    var retryCount: int

    /** Over the interceptor's whole life at most max(0, maxRetries)
        attempts fail. */
    ghost predicate Valid()
      reads this
    {
      0 <= retryCount <= Budget(maxRetries, 0)
    }

    constructor (maxRetries: int)
      ensures Valid()
      ensures this.maxRetries == maxRetries && retryCount == 0
    {
      this.maxRetries := maxRetries;
      retryCount := 0;
    }

    /** intercept: `attempts[i]` is what the i-th proceed call of this call
        produces and `interrupts[i]` whether the sleep after it is
        interrupted. The loop runs from the counter the earlier calls left
        behind; `proceeds` is how many times it called proceed. */
    method Intercept(attempts: seq<Attempt>, interrupts: seq<bool>) returns (outcome: Outcome, delays: seq<int>, proceeds: nat)
      requires Valid()
      requires |interrupts| == |attempts| && Budget(maxRetries, retryCount) <= |attempts|
      modifies this`retryCount
      ensures Valid()
      ensures var r := Loop(maxRetries, old(retryCount), attempts, interrupts, 0, None);
        && outcome == r.outcome && proceeds == r.used
        && delays == Backoffs(old(retryCount), r.sleeps) && retryCount == r.retryCount
      ensures old(retryCount) <= retryCount
      ensures old(retryCount) >= maxRetries ==>
        outcome == Threw(Exhausted) && delays == [] && proceeds == 0 && retryCount == old(retryCount)
    {
      var lastException: Option<nat> := None;
      var i := 0;
      delays := [];
      ghost var count0 := retryCount;
      ghost var r0 := Loop(maxRetries, count0, attempts, interrupts, 0, None);
      ghost var rest := r0;
      if count0 >= maxRetries {
        SpentBudgetRefusesRequest(maxRetries, attempts, interrupts);
      }
      while retryCount < maxRetries
        invariant 0 <= i <= |attempts| && retryCount == count0 + i
        invariant count0 < maxRetries ==> retryCount <= maxRetries
        invariant rest == Loop(maxRetries, retryCount, attempts, interrupts, i, lastException)
        invariant r0.outcome == rest.outcome && r0.retryCount == rest.retryCount
        invariant r0.used == i + rest.used && r0.sleeps == |delays| + rest.sleeps
        invariant delays == Backoffs(count0, |delays|) && (retryCount < maxRetries ==> |delays| == i)
        decreases maxRetries - retryCount
      {
        LoopStep(maxRetries, retryCount, attempts, interrupts, i, lastException);
        var a := attempts[i];
        if Succeeded(a) {
          outcome := Returned(a.status);
          proceeds := i + 1;
          return;
        }
        if a.IOFailure? {
          lastException := Some(a.id);
        }
        retryCount := retryCount + 1;
        if retryCount < maxRetries {
          assert delays + [2000 * retryCount] == Backoffs(count0, i + 1);
          delays := delays + [2000 * retryCount];
          if interrupts[i] {
            outcome := Threw(Interrupted);
            proceeds := i + 1;
            return;
          }
        }
        i := i + 1;
        ghost var before := rest;
        rest := Loop(maxRetries, retryCount, attempts, interrupts, i, lastException);
        assert before == Run(rest.outcome, rest.retryCount, rest.used + 1, rest.sleeps + (if retryCount < maxRetries then 1 else 0));
      }
      LoopNoAttempt(maxRetries, retryCount, attempts, interrupts, i, lastException);
      outcome := Threw(Pending(lastException));
      proceeds := i;
    }
  }

  /** Two calls on one interceptor with maxRetries = 3: the first meets
      three IOExceptions, and the second throws without calling proceed
      although its first attempt would get 200. */
  method SharedBudgetAcrossCalls() returns (first: Outcome, second: Outcome, secondProceeds: nat)
    ensures first == Threw(Transport(3))
    ensures second == Threw(Exhausted) && secondProceeds == 0
  {
    var interceptor := new RetryInterceptor(3);
    SharedCounterExample();
    var delays, proceeds;
    first, delays, proceeds := interceptor.Intercept([IOFailure(1), IOFailure(2), IOFailure(3)], [false, false, false]);
    second, delays, secondProceeds := interceptor.Intercept([Responded(200)], [false]);
  }
}
