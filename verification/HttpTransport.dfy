/** The HTTP transport's attempts: bounded, and retried only when that is safe
    (idempotent methods, section 9.2.2 of RFC 9110, or an idempotency key). */
module HttpTransport {
  import opened Prelude
  import opened Text
  import opened Backoff
  import opened Headers

  datatype Verb = GET | HEAD | POST | PUT | PATCH | DELETE

  datatype Safety = Read | Idempotent | Connection | Mutation

  datatype Request = Request(operationId: string, verb: Verb, headers: Dictionary, idempotencyKey: Option<string>)

  predicate Reads(verb: Verb) { verb.GET? || verb.HEAD? }

  function NormalizeIdempotencyKey(value: Option<string>): Option<string> {
    if value.None? || Trim(value.value) == "" then None else Some(Trim(value.value))
  }

  function OperationSafety(verb: Verb, key: Option<string>): Safety {
    if Reads(verb) then Read else if key.None? then Mutation else Idempotent
  }

  predicate IsTransient(status: int) { status == 408 || status == 429 || status >= 500 }

  /** A Retry-After header in milliseconds; a value that overflows to infinity
      makes the error's metadata unusable. */
  datatype RetryAfter = Absent | Finite(ms: real) | Overflow

  datatype Response =
    | FetchAborted
    | FetchFailed
    | Answer(status: int, retryAfter: RetryAfter, decodable: bool)

  datatype Auth = Resolved(headers: Dictionary) | AuthAborted | AuthFailed

  datatype Sleep = Slept | SleepAborted | SleepFailed

  /** What happens around one attempt, in the order the code looks at it. */
  datatype Circumstance = Circumstance(abortedBefore: bool, auth: Auth, abortedAfterAuth: bool, response: Response,
                                       abortedAtCatch: bool, random: real, elapsedMs: real, sleep: Sleep,
                                       abortedInSleep: bool)

  datatype Failure = AbortError | AuthError | TransportFailure(response: Response) | SleepError | InvalidArgument
      | AttemptsExhausted

  datatype Result = Returned(status: int) | Threw(failure: Failure)

  /** One call of `execute`, with the authentication headers it is given. */
  datatype Execution = Execution(attempt: int, auth: Dictionary, response: Response)

  datatype Pause = Pause(attempt: int, delayMs: int, elapsedMs: real)

  predicate Succeeds(r: Response) { r.Answer? && 200 <= r.status <= 299 && r.decodable }

  /** The metadata.retryable of the error an execution throws. */
  predicate Retryable(r: Response, safety: Safety) {
    match r
    case FetchAborted => false
    case FetchFailed => !safety.Mutation?
    case Answer(status, retryAfter, _) =>
      !(200 <= status <= 299) && !safety.Mutation? && IsTransient(status) && !retryAfter.Overflow?
  }

  function RetryAfterMs(r: Response): Option<real> {
    if r.Answer? && r.retryAfter.Finite? then Some(r.retryAfter.ms) else None
  }

  /** Attempts are numbered from 1 without a gap, never beyond the maximum, and
      each but the last failed in a retryable way. */
  ghost predicate Bounded(trace: seq<Execution>, safety: Safety, policy: RetryPolicy) {
    && (trace == [] || |trace| <= policy.maxAttempts)
    && (forall i | 0 <= i < |trace| :: trace[i].attempt == i + 1)
    && (forall i | 0 <= i < |trace| - 1 :: Retryable(trace[i].response, safety))
    && (safety.Mutation? ==> |trace| <= 1)
  }

  /** Every pause lies between two attempts, lasts as long as the policy says and
      ends by the deadline. */
  ghost predicate PausesAllowed(pauses: seq<Pause>, trace: seq<Execution>, circumstances: int -> Circumstance,
                                policy: RetryPolicy)
  {
    && |trace| <= |pauses| + 1
    && forall i | 0 <= i < |pauses| ::
         && i < |trace|
         && pauses[i].attempt == i + 1
         && SleepFits(policy, pauses[i].elapsedMs, pauses[i].delayMs)
         && ComputeBackoffDelay(policy, i + 1, circumstances(i + 1).random, RetryAfterMs(trace[i].response)) ==
               Some(pauses[i].delayMs)
  }

  /** The attempt gets as far as executing. */
  predicate Executes(c: Circumstance) { !c.abortedBefore && c.auth.Resolved? && !c.abortedAfterAuth }

  /** The attempt ends as aborted before it executes. */
  predicate AbortsBefore(c: Circumstance) {
    || c.abortedBefore
    || c.auth.AuthAborted?
    || (c.auth.AuthFailed? && c.abortedAtCatch)
    || (c.auth.Resolved? && c.abortedAfterAuth)
  }

  /** The attempt's execution fails, and the failure counts as an abort. */
  predicate AbortsExecuting(c: Circumstance) {
    Executes(c) && !Succeeds(c.response) && (c.abortedAtCatch || c.response.FetchAborted?)
  }

  predicate AbortsSleeping(c: Circumstance) { c.sleep.SleepAborted? || (c.sleep.SleepFailed? && c.abortedInSleep) }

  /** The attempt's execution fails in a way that leads to a pause. */
  predicate Pauses(c: Circumstance, safety: Safety) {
    Executes(c) && Retryable(c.response, safety) && !c.abortedAtCatch
  }

  predicate RanAs(e: Execution, c: Circumstance)
    requires Executes(c)
  {
    e.response == c.response && e.auth == c.auth.headers
  }

  /** Executions are those of the attempts 1, 2, ..., each with its own
      authentication headers and answer; every pause but the last was slept out. */
  ghost predicate Executed(trace: seq<Execution>, pauses: seq<Pause>, circumstances: int -> Circumstance,
                           safety: Safety)
  {
    && (forall n | 1 <= n <= |trace| :: Executes(circumstances(n)) && RanAs(trace[n - 1], circumstances(n)))
    && (forall n | 1 <= n <= |pauses| :: Pauses(circumstances(n), safety))
    && (forall n | 1 <= n < |trace| :: circumstances(n).sleep.Slept?)
  }

  /** A result follows from the last execution, and a failure is only thrown when
      there is a reason not to try again. */
  ghost predicate Explained(result: Result, trace: seq<Execution>, pauses: seq<Pause>, safety: Safety,
                            circumstances: int -> Circumstance, policy: RetryPolicy)
  {
    var n := |trace|;
    match result
    case Returned(status) => n > 0 && Succeeds(trace[n - 1].response) && status == trace[n - 1].response.status
    case Threw(TransportFailure(r)) =>
      && n > 0 && r == trace[n - 1].response && !Succeeds(r) && !AbortsExecuting(circumstances(n))
      && (Retryable(r, safety) && n < policy.maxAttempts ==>
            var delayMs := ComputeBackoffDelay(policy, n, circumstances(n).random, RetryAfterMs(r));
            delayMs.Some? && !SleepFits(policy, circumstances(n).elapsedMs, delayMs.value))
    case Threw(AbortError) =>
      if |pauses| < n then AbortsExecuting(circumstances(n))
      else (n > 0 && AbortsSleeping(circumstances(n))) ||
           (n < policy.maxAttempts && (n == 0 || circumstances(n).sleep.Slept?) && AbortsBefore(circumstances(n + 1)))
    case Threw(AuthError) =>
      var c := circumstances(n + 1);
      |pauses| == n && !c.abortedBefore && c.auth.AuthFailed? && !c.abortedAtCatch
    case Threw(SleepError) =>
      |pauses| == n > 0 && circumstances(n).sleep.SleepFailed? && !circumstances(n).abortedInSleep
    case Threw(InvalidArgument) =>
      !ValidPolicy(policy) || (n > 0 && Pauses(circumstances(n), safety) && !(0.0 <= circumstances(n).random <= 1.0))
    case Threw(AttemptsExhausted) => false
  }

  /** Attempt k executes, fails in a retryable way, and its pause is slept out. */
  predicate GoesOn(c: Circumstance, k: nat, safety: Safety, policy: RetryPolicy) {
    && Pauses(c, safety) && k < policy.maxAttempts && c.sleep.Slept?
    && var delayMs := ComputeBackoffDelay(policy, k, c.random, RetryAfterMs(c.response));
       delayMs.Some? && SleepFits(policy, c.elapsedMs, delayMs.value)
  }

  /** What an attempt that goes no further ends with. */
  predicate StopsWith(c: Circumstance, k: nat, safety: Safety, policy: RetryPolicy, result: Result) {
    if AbortsBefore(c) || AbortsExecuting(c) then result == Threw(AbortError)
    else if !Executes(c) then result == Threw(AuthError)
    else if Succeeds(c.response) then result == Returned(c.response.status)
    else if !Retryable(c.response, safety) || k >= policy.maxAttempts then result == Threw(TransportFailure(c.response))
    else
      var delayMs := ComputeBackoffDelay(policy, k, c.random, RetryAfterMs(c.response));
      if delayMs.None? then result == Threw(InvalidArgument)
      else if !SleepFits(policy, c.elapsedMs, delayMs.value) then result == Threw(TransportFailure(c.response))
      else !c.sleep.Slept? && result == Threw(if AbortsSleeping(c) then AbortError else SleepError)
  }

  /** The loop stopped at attempt `final`, the first that does not go on. */
  ghost predicate SettledAt(final: nat, trace: seq<Execution>, result: Result, safety: Safety, policy: RetryPolicy,
                            circumstances: int -> Circumstance)
  {
    && 1 <= final <= policy.maxAttempts
    && (forall k: nat | 1 <= k < final :: GoesOn(circumstances(k), k, safety, policy))
    && StopsWith(circumstances(final), final, safety, policy, result)
    && |trace| == if Executes(circumstances(final)) then final else final - 1
  }

  /** So far every attempt executed, failed, paused and slept. */
  ghost predicate Underway(trace: seq<Execution>, pauses: seq<Pause>, safety: Safety, policy: RetryPolicy,
                           circumstances: int -> Circumstance)
  {
    && |trace| == |pauses| < policy.maxAttempts && (safety.Mutation? ==> trace == [])
    && Bounded(trace, safety, policy) && Executed(trace, pauses, circumstances, safety)
    && PausesAllowed(pauses, trace, circumstances, policy)
    && (forall i | 0 <= i < |trace| :: Retryable(trace[i].response, safety))
    && forall n | 1 <= n <= |trace| :: circumstances(n).sleep.Slept?
  }

  lemma NothingUnderway(safety: Safety, policy: RetryPolicy, circumstances: int -> Circumstance)
    ensures Bounded([], safety, policy) && Executed([], [], circumstances, safety)
            && PausesAllowed([], [], circumstances, policy)
    ensures ValidPolicy(policy) ==> Underway([], [], safety, policy, circumstances)
  {
  }

  lemma UnderwayIsBounded(trace: seq<Execution>, pauses: seq<Pause>, safety: Safety, policy: RetryPolicy,
                          circumstances: int -> Circumstance)
    requires Underway(trace, pauses, safety, policy, circumstances)
    ensures |trace| == |pauses| < policy.maxAttempts && (safety.Mutation? ==> trace == [])
    ensures Bounded(trace, safety, policy) && Executed(trace, pauses, circumstances, safety)
    ensures PausesAllowed(pauses, trace, circumstances, policy)
    ensures trace != [] ==> circumstances(|trace|).sleep.Slept?
  {
  }

  /** The next attempt executes. */
  lemma AttemptExecutes(trace: seq<Execution>, pauses: seq<Pause>, e: Execution, safety: Safety, policy: RetryPolicy,
                        circumstances: int -> Circumstance)
    requires Underway(trace, pauses, safety, policy, circumstances)
    requires var c := circumstances(|trace| + 1);
             Executes(c) && e == Execution(|trace| + 1, c.auth.headers, c.response)
    ensures Bounded(trace + [e], safety, policy) && Executed(trace + [e], pauses, circumstances, safety)
    ensures PausesAllowed(pauses, trace + [e], circumstances, policy)
  {
    hide SleepFits, ComputeBackoffDelay;
  }

  /** It fails in a retryable way, and a pause follows. */
  lemma PauseFollows(trace: seq<Execution>, pauses: seq<Pause>, e: Execution, p: Pause, safety: Safety,
                     policy: RetryPolicy, circumstances: int -> Circumstance)
    requires Underway(trace, pauses, safety, policy, circumstances) && |trace| + 1 < policy.maxAttempts
    requires var c := circumstances(|trace| + 1);
             && Pauses(c, safety) && e == Execution(|trace| + 1, c.auth.headers, c.response) && p.attempt == |trace| + 1
             && ComputeBackoffDelay(policy, p.attempt, c.random, RetryAfterMs(c.response)) == Some(p.delayMs)
             && SleepFits(policy, p.elapsedMs, p.delayMs)
    ensures Executed(trace + [e], pauses + [p], circumstances, safety)
    ensures PausesAllowed(pauses + [p], trace + [e], circumstances, policy)
    ensures circumstances(|trace| + 1).sleep.Slept? ==>
              Underway(trace + [e], pauses + [p], safety, policy, circumstances)
  {
    hide SleepFits, ComputeBackoffDelay, RetryAfterMs;
    assert safety.Mutation? ==> !Retryable(e.response, safety);
  }

  lemma StopsHere(attempt: nat, trace: seq<Execution>, result: Result, safety: Safety, policy: RetryPolicy,
                  circumstances: int -> Circumstance)
    requires 1 <= attempt <= policy.maxAttempts
    requires forall k: nat | 1 <= k < attempt :: GoesOn(circumstances(k), k, safety, policy)
    requires StopsWith(circumstances(attempt), attempt, safety, policy, result)
    requires |trace| == if Executes(circumstances(attempt)) then attempt else attempt - 1
    ensures exists final: nat :: SettledAt(final, trace, result, safety, policy, circumstances)
  {
    hide GoesOn, StopsWith, Executes;
    assert SettledAt(attempt, trace, result, safety, policy, circumstances);
  }

  lemma GoingOn(c: Circumstance, k: nat, safety: Safety, policy: RetryPolicy)
    requires Pauses(c, safety) && k < policy.maxAttempts && c.sleep.Slept?
    requires var delayMs := ComputeBackoffDelay(policy, k, c.random, RetryAfterMs(c.response));
             delayMs.Some? && SleepFits(policy, c.elapsedMs, delayMs.value)
    ensures GoesOn(c, k, safety, policy)
  {
  }

  method RunTransportAttempts(safety: Safety, policy: RetryPolicy, circumstances: int -> Circumstance)
    returns (trace: seq<Execution>, pauses: seq<Pause>, result: Result)
    ensures Bounded(trace, safety, policy)
    ensures PausesAllowed(pauses, trace, circumstances, policy)
    ensures Executed(trace, pauses, circumstances, safety)
    ensures Explained(result, trace, pauses, safety, circumstances, policy)
    ensures if ValidPolicy(policy) then exists final: nat :: SettledAt(final, trace, result, safety, policy,
                                                                       circumstances)
            else trace == [] && result == Threw(InvalidArgument)
  {
    hide ComputeBackoffDelay, SleepFits, RetryAfterMs, Bounded, PausesAllowed, Executed, Underway, GoesOn,
         SettledAt, IsTransient, ValidPolicy;
    trace, pauses := [], [];
    NothingUnderway(safety, policy, circumstances);
    if !ValidPolicy(policy) {
      return trace, pauses, Threw(InvalidArgument);
    }
    var attempt := 1;
    while attempt <= policy.maxAttempts
      invariant attempt == |trace| + 1 && Underway(trace, pauses, safety, policy, circumstances)
      invariant forall k: nat | 1 <= k < attempt :: GoesOn(circumstances(k), k, safety, policy)
      decreases policy.maxAttempts - attempt
    {
      UnderwayIsBounded(trace, pauses, safety, policy, circumstances);
      var c := circumstances(attempt);
      if c.abortedBefore {
        StopsHere(attempt, trace, Threw(AbortError), safety, policy, circumstances);
        return trace, pauses, Threw(AbortError);
      }
      match c.auth {
        case AuthAborted =>
          StopsHere(attempt, trace, Threw(AbortError), safety, policy, circumstances);
          return trace, pauses, Threw(AbortError);
        case AuthFailed =>
          result := Threw(if c.abortedAtCatch then AbortError else AuthError);
          StopsHere(attempt, trace, result, safety, policy, circumstances);
          return trace, pauses, result;
        case Resolved(_) =>
      }
      if c.abortedAfterAuth {
        StopsHere(attempt, trace, Threw(AbortError), safety, policy, circumstances);
        return trace, pauses, Threw(AbortError);
      }
      ghost var before, e := trace, Execution(attempt, c.auth.headers, c.response);
      AttemptExecutes(trace, pauses, e, safety, policy, circumstances);
      trace := trace + [Execution(attempt, c.auth.headers, c.response)];
      if Succeeds(c.response) {
        StopsHere(attempt, trace, Returned(c.response.status), safety, policy, circumstances);
        return trace, pauses, Returned(c.response.status);
      }
      if c.abortedAtCatch || c.response.FetchAborted? {
        StopsHere(attempt, trace, Threw(AbortError), safety, policy, circumstances);
        return trace, pauses, Threw(AbortError);
      }
      if safety.Mutation? || !Retryable(c.response, safety) || attempt >= policy.maxAttempts {
        StopsHere(attempt, trace, Threw(TransportFailure(c.response)), safety, policy, circumstances);
        return trace, pauses, Threw(TransportFailure(c.response));
      }
      var delayMs := ComputeBackoffDelay(policy, attempt, c.random, RetryAfterMs(c.response));
      if delayMs.None? {
        DelayRefusedExactly(policy, attempt, c.random, RetryAfterMs(c.response));
        StopsHere(attempt, trace, Threw(InvalidArgument), safety, policy, circumstances);
        return trace, pauses, Threw(InvalidArgument);
      }
      if !SleepFits(policy, c.elapsedMs, delayMs.value) {
        StopsHere(attempt, trace, Threw(TransportFailure(c.response)), safety, policy, circumstances);
        return trace, pauses, Threw(TransportFailure(c.response));
      }
      var pause := Pause(attempt, delayMs.value, c.elapsedMs);
      PauseFollows(before, pauses, e, pause, safety, policy, circumstances);
      pauses := pauses + [pause];
      match c.sleep {
        case Slept => GoingOn(c, attempt, safety, policy);
        case SleepAborted =>
          StopsHere(attempt, trace, Threw(AbortError), safety, policy, circumstances);
          return trace, pauses, Threw(AbortError);
        case SleepFailed =>
          result := Threw(if c.abortedInSleep then AbortError else SleepError);
          StopsHere(attempt, trace, result, safety, policy, circumstances);
          return trace, pauses, result;
      }
      attempt := attempt + 1;
    }
    UnderwayIsBounded(trace, pauses, safety, policy, circumstances);
    assert false;
    result := Threw(AttemptsExhausted);
  }
}
