/** How often an HTTP request is tried and how it ends, told by what happens around
    each attempt. */
module HttpRetries {
  import opened Prelude
  import opened Text
  import opened Backoff
  import opened Headers
  import opened HttpTransport

  /** The request may be repeated: it only reads, or has a key that says something. */
  predicate Repeatable(verb: Verb, key: Option<string>) {
    verb == GET || verb == HEAD || (key.Some? && exists i :: 0 <= i < |key.value| && !IsWhite(key.value[i]))
  }

  /** A failure that passes: the fetch failed, or the server is busy. */
  predicate Passes(r: Response) {
    || r.FetchFailed?
    || (r.Answer? && !(200 <= r.status <= 299) && !r.retryAfter.Overflow?
        && (r.status == 408 || r.status == 429 || r.status >= 500))
  }

  predicate Answers(r: Response) { r.Answer? && 200 <= r.status <= 299 && r.decodable }

  /** The attempt is sent. */
  predicate Sends(c: Circumstance) { !c.abortedBefore && c.auth.Resolved? && !c.abortedAfterAuth }

  /** The delay the server asked for. */
  function DelayAsked(r: Response): Option<real> {
    if r.Answer? && r.retryAfter.Finite? then Some(r.retryAfter.ms) else None
  }

  predicate DeadlineAllows(p: RetryPolicy, c: Circumstance, k: nat) {
    p.deadlineMs.Some? ==>
      var delayMs := ComputeBackoffDelay(p, k, c.random, DelayAsked(c.response));
      delayMs.Some? && c.elapsedMs + delayMs.value as real <= p.deadlineMs.value
  }

  /** Another attempt is due after attempt k. */
  predicate Pausing(p: RetryPolicy, c: Circumstance, k: nat, repeatable: bool) {
    Sends(c) && Passes(c.response) && !c.abortedAtCatch && repeatable && k < p.maxAttempts
  }

  /** Attempt k leads on to another one. */
  predicate LeadsOn(p: RetryPolicy, c: Circumstance, k: nat, repeatable: bool) {
    Pausing(p, c, k, repeatable) && 0.0 <= c.random <= 1.0 && DeadlineAllows(p, c, k) && c.sleep.Slept?
  }

  /** The attempt ends as aborted, before it was sent, at its failure or in the pause. */
  predicate Aborts(p: RetryPolicy, c: Circumstance, k: nat, repeatable: bool) {
    || c.abortedBefore || c.auth.AuthAborted? || (c.auth.AuthFailed? && c.abortedAtCatch)
    || (c.auth.Resolved? && c.abortedAfterAuth)
    || (Sends(c) && !Answers(c.response) && (c.abortedAtCatch || c.response.FetchAborted?))
    || (Pausing(p, c, k, repeatable) && 0.0 <= c.random <= 1.0 && DeadlineAllows(p, c, k)
        && (c.sleep.SleepAborted? || (c.sleep.SleepFailed? && c.abortedInSleep)))
  }

  /** Each result, and exactly when a request that stopped at attempt k has it. */
  ghost predicate ResultAt(p: RetryPolicy, c: Circumstance, k: nat, repeatable: bool, result: Result) {
    var open, pausing, inTime := !Aborts(p, c, k, repeatable), Pausing(p, c, k, repeatable), DeadlineAllows(p, c, k);
    && (result == Threw(AbortError) <==> !open)
    && (result == Threw(AuthError) <==> open && c.auth.AuthFailed?)
    && (forall status :: result == Returned(status) <==>
                         open && Sends(c) && Answers(c.response) && c.response.status == status)
    && (forall r :: result == Threw(TransportFailure(r)) <==>
                    open && Sends(c) && !Answers(c.response) && r == c.response
                    && (!pausing || (0.0 <= c.random <= 1.0 && !inTime)))
    && (result == Threw(InvalidArgument) <==> open && pausing && !(0.0 <= c.random <= 1.0))
    && (result == Threw(SleepError) <==>
        open && pausing && 0.0 <= c.random <= 1.0 && inTime && c.sleep.SleepFailed?)
  }

  // --- The key ---

  lemma {:induction false} BlankTrims(s: string)
    ensures TrimStart(s) == "" <==> forall i | 0 <= i < |s| :: IsWhite(s[i])
  {
    if s != "" && IsWhite(s[0]) {
      BlankTrims(s[1..]);
      assert forall i | 1 <= i < |s| :: s[i] == s[1..][i - 1];
    }
  }

  lemma RepeatableExactly(verb: Verb, key: Option<string>)
    ensures Repeatable(verb, key) <==> !OperationSafety(verb, NormalizeIdempotencyKey(key)).Mutation?
  {
    if key.Some? {
      BlankTrims(key.value);
      TrimStartTrims(key.value);
      NothingLeft(TrimStart(key.value));
    }
  }

  lemma {:induction false} NothingLeft(s: string)
    requires s != "" ==> !IsWhite(s[0])
    ensures TrimEnd(s) == "" <==> s == ""
  {
    if |s| > 1 && IsWhite(s[|s| - 1]) {
      NothingLeft(s[..|s| - 1]);
    }
  }

  // --- One attempt ---

  lemma LeadsOnExactly(p: RetryPolicy, c: Circumstance, k: nat, safety: Safety)
    requires ValidPolicy(p) && k >= 1
    ensures GoesOn(c, k, safety, p) <==> LeadsOn(p, c, k, !safety.Mutation?)
  {
    hide ComputeBackoffDelay;
    DelayRefusedExactly(p, k, c.random, RetryAfterMs(c.response));
  }

  lemma ResultHere(p: RetryPolicy, c: Circumstance, k: nat, safety: Safety, result: Result)
    requires ValidPolicy(p) && 1 <= k <= p.maxAttempts && StopsWith(c, k, safety, p, result)
    ensures ResultAt(p, c, k, !safety.Mutation?, result) && !LeadsOn(p, c, k, !safety.Mutation?)
  {
    hide ComputeBackoffDelay;
    DelayRefusedExactly(p, k, c.random, RetryAfterMs(c.response));
  }

  // --- The whole request ---

  /** What the loop left behind, with the safety the request has. */
  ghost predicate Requested(request: Request, trace: seq<Execution>, result: Result, policy: RetryPolicy,
                            circumstances: int -> Circumstance)
  {
    var safety := OperationSafety(request.verb, NormalizeIdempotencyKey(request.idempotencyKey));
    exists final: nat :: SettledAt(final, trace, result, safety, policy, circumstances)
  }

  /** Every attempt before the last led on to the next, the last did not, and the
      result is the one it calls for; each attempt that got there was sent. */
  lemma StopsAtTheFirst(request: Request, trace: seq<Execution>, result: Result, policy: RetryPolicy,
                        circumstances: int -> Circumstance) returns (final: nat)
    requires ValidPolicy(policy) && Requested(request, trace, result, policy, circumstances)
    ensures var repeatable := Repeatable(request.verb, request.idempotencyKey);
            && 1 <= final <= policy.maxAttempts
            && (forall k: nat | 1 <= k < final :: LeadsOn(policy, circumstances(k), k, repeatable))
            && !LeadsOn(policy, circumstances(final), final, repeatable)
            && ResultAt(policy, circumstances(final), final, repeatable, result)
            && |trace| == if Sends(circumstances(final)) then final else final - 1
  {
    hide ResultAt, LeadsOn, GoesOn, StopsWith, Repeatable, OperationSafety, NormalizeIdempotencyKey;
    var safety := OperationSafety(request.verb, NormalizeIdempotencyKey(request.idempotencyKey));
    RepeatableExactly(request.verb, request.idempotencyKey);
    final :| SettledAt(final, trace, result, safety, policy, circumstances);
    forall k: nat | 1 <= k < final ensures LeadsOn(policy, circumstances(k), k, !safety.Mutation?) {
      LeadsOnExactly(policy, circumstances(k), k, safety);
    }
    ResultHere(policy, circumstances(final), final, safety, result);
  }

  /** A request that changes something and has no key is sent once at most. */
  lemma KeylessMutationIsSentOnce(request: Request, trace: seq<Execution>, result: Result, policy: RetryPolicy,
                                  circumstances: int -> Circumstance)
    requires ValidPolicy(policy) && Requested(request, trace, result, policy, circumstances)
    requires request.verb == POST || request.verb == PUT || request.verb == PATCH || request.verb == DELETE
    requires request.idempotencyKey.Some? ==>
               forall i | 0 <= i < |request.idempotencyKey.value| :: IsWhite(request.idempotencyKey.value[i])
    ensures |trace| <= 1
  {
    hide Requested, ResultAt, DeadlineAllows;
    var final := StopsAtTheFirst(request, trace, result, policy, circumstances);
    assert !Repeatable(request.verb, request.idempotencyKey);
    assert !LeadsOn(policy, circumstances(1), 1, false);
  }

  /** Nobody aborts, the headers are there and the pause is slept out. */
  predicate Smooth(c: Circumstance) {
    Sends(c) && !c.abortedAtCatch && 0.0 <= c.random <= 1.0 && c.sleep.Slept?
  }

  /** A repeatable request whose failures pass is tried again until it is answered. */
  lemma RetriesUntilAnswered(request: Request, trace: seq<Execution>, result: Result, policy: RetryPolicy,
                             circumstances: int -> Circumstance, n: nat)
    requires ValidPolicy(policy) && Requested(request, trace, result, policy, circumstances)
    requires Repeatable(request.verb, request.idempotencyKey) && policy.deadlineMs.None?
    requires 1 <= n <= policy.maxAttempts && forall k | 1 <= k <= n :: Smooth(circumstances(k))
    requires forall k | 1 <= k < n :: Passes(circumstances(k).response)
    requires Answers(circumstances(n).response)
    ensures |trace| == n && result == Returned(circumstances(n).response.status)
  {
    hide Requested, Repeatable;
    var final := StopsAtTheFirst(request, trace, result, policy, circumstances);
  }

  /** One whose failures never pass is tried as often as allowed, and fails with the
      last. */
  lemma RetriesToTheLimit(request: Request, trace: seq<Execution>, result: Result, policy: RetryPolicy,
                          circumstances: int -> Circumstance)
    requires ValidPolicy(policy) && Requested(request, trace, result, policy, circumstances)
    requires Repeatable(request.verb, request.idempotencyKey) && policy.deadlineMs.None?
    requires forall k | 1 <= k <= policy.maxAttempts ::
               Smooth(circumstances(k)) && Passes(circumstances(k).response)
    ensures |trace| == policy.maxAttempts
    ensures result == Threw(TransportFailure(circumstances(policy.maxAttempts).response))
  {
    hide Requested, Repeatable;
    var final := StopsAtTheFirst(request, trace, result, policy, circumstances);
  }
}
