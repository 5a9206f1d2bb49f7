/** When a subscription reconnects, when it stops, and with what result: told by
    what happens around each attempt and how each body's reading ended. */
module SseReconnect {
  import opened Prelude
  import opened Backoff
  import opened SseBlocks
  import opened SseStream
  import opened SseDelivery
  import opened SseTransport

  /** How the reading of attempt k's body ended, if it read one. */
  function EndAt(links: seq<Link>, k: nat): Option<End> { if 1 <= k <= |links| then links[k - 1].end else None }

  /** The answer is a success that brings an event stream. */
  predicate Streams(o: Opening) { o.Answer? && 200 <= o.status <= 299 && o.eventStream && o.body.Some? }

  /** The attempt went in a way that another may follow: its stream ended or broke
      off, its fetch failed for now, or the server is busy. */
  predicate Transient(o: Opening, end: Option<End>) {
    || (Streams(o) && (end == Some(Completed) || end == Some(ReadFailed)))
    || (o.FetchRejects? && !o.isAbort && o.retryable)
    || (o.Answer? && !(200 <= o.status <= 299) && (o.status == 408 || o.status == 429 || o.status >= 500))
  }

  /** The retry field sent last that is not negative. */
  function RetryAsked(ms: seq<SseMessage>): Option<real> {
    if ms == [] then None
    else
      var last := ms[|ms| - 1].retry;
      if last.Some? && last.value >= 0.0 then last else RetryAsked(ms[..|ms| - 1])
  }

  /** The delay the server asked for: with a failed fetch, or in its streams. */
  function DelayAsked(o: Opening, links: seq<Link>, k: nat): Option<real> {
    if o.FetchRejects? then o.retryAfterMs
    else if o.Answer? && !(200 <= o.status <= 299) then None
    else RetryAsked(Received(if k <= |links| then links[..k] else links))
  }

  /** The pause after attempt k would end by the deadline. */
  predicate DeadlineAllows(p: RetryPolicy, c: Circumstance, k: nat, asked: Option<real>) {
    p.deadlineMs.Some? ==>
      var delayMs := ComputeBackoffDelay(p, k, c.random, asked);
      delayMs.Some? && c.elapsedMs + delayMs.value as real <= p.deadlineMs.value
  }

  /** The pause after attempt k is slept out. */
  predicate PauseHolds(p: RetryPolicy, c: Circumstance, k: nat, asked: Option<real>) {
    0.0 <= c.random <= 1.0 && !c.sleep.SleepFailed? && DeadlineAllows(p, c, k, asked)
  }

  /** A failed fetch and a stream are given up when aborted; a busy answer is not
      looked at with the signal. */
  predicate AbortedThere(c: Circumstance) {
    c.abortedAfterwards && !(c.opening.Answer? && !(200 <= c.opening.status <= 299))
  }

  /** Attempt k leads on to another one. */
  predicate LeadsOn(p: RetryPolicy, c: Circumstance, links: seq<Link>, k: nat) {
    && k < p.maxAttempts && !c.abortedBefore && !AbortedThere(c)
    && Transient(c.opening, EndAt(links, k)) && PauseHolds(p, c, k, DelayAsked(c.opening, links, k))
  }

  lemma {:induction false} RetryIsAsked(s: Session, ms: seq<SseMessage>, capacity: nat)
    ensures ReceiveAll(s, ms, capacity).retryMs == if RetryAsked(ms).Some? then RetryAsked(ms) else s.retryMs
  {
    if ms != [] {
      RetryIsAsked(s, ms[..|ms| - 1], capacity);
    }
  }

  lemma PauseIsThrownExactly(p: RetryPolicy, c: Circumstance, k: nat, asked: Option<real>)
    requires ValidPolicy(p) && k >= 1
    ensures Thrown(p, k, c, asked).None? <==> PauseHolds(p, c, k, asked)
  {
    hide ComputeBackoffDelay;
    DelayRefusedExactly(p, k, c.random, asked);
  }

  lemma GoingOnIsLeadingOn(r: Request, c: Circumstance, links: seq<Link>, k: nat)
    requires ValidPolicy(r.policy) && 1 <= k && (k <= |links| || !ReachesFetch(c.opening) || c.abortedBefore)
    requires k <= |links| ==> links[k - 1].end.Some? == Streams(c.opening)
    ensures GoesOn(r, c, links, k) <==> LeadsOn(r.policy, c, links, k)
  {
    hide ComputeBackoffDelay, PauseHolds, Thrown, Received;
    if k <= |links| {
      RetryIsAsked(NewSession(r.cursor), Received(links[..k]), r.capacity);
    }
    PauseIsThrownExactly(r.policy, c, k, DelayAsked(c.opening, links, k));
  }

  /** An attempt that runs into an abort: before it began, at the resolver, at the
      fetch or while its body was read. */
  predicate Aborts(c: Circumstance, end: Option<End>) {
    || c.abortedBefore || c.opening.AbortedAfterAuth?
    || ((c.opening.AuthRejects? || c.opening.FetchRejects?) && (c.opening.isAbort || c.abortedAfterwards))
    || (Streams(c.opening) && (end == Some(Aborted) || c.abortedAfterwards))
  }

  /** Every attempt before the last led on to the next, and the last did not. It
      made a request if it got as far as fetch. */
  lemma StopsAtTheFirst(r: Request, circumstances: int -> Circumstance, log: seq<Item>, links: seq<Link>,
                        session: Session, result: Result)
    requires ValidPolicy(r.policy) && Subscribed(r, circumstances, log, links, session, result)
    ensures var final := log[|log| - 1].attempt;
            && 1 <= final <= r.policy.maxAttempts
            && (forall k | 1 <= k < final :: LeadsOn(r.policy, circumstances(k), links, k))
            && !LeadsOn(r.policy, circumstances(final), links, final)
            && var c := circumstances(final);
               |links| == if !c.abortedBefore && (c.opening.FetchRejects? || c.opening.Answer?) then final
                          else final - 1
  {
    hide GoesOn, LeadsOn, StopsWith, OpenLog, Connects, Deliveries, After, Explained;
    var final := log[|log| - 1].attempt;
    forall k: nat | 1 <= k <= final
      ensures GoesOn(r, circumstances(k), links, k) <==> LeadsOn(r.policy, circumstances(k), links, k)
    {
      if k <= |links| {
        EndsHere(r, circumstances, links, k);
      }
      GoingOnIsLeadingOn(r, circumstances(k), links, k);
    }
    StoppingIsNotGoingOn(r, circumstances(final), links, final, result);
  }

  /** Exactly the attempts whose body could be read have an end of reading. */
  lemma EndsHere(r: Request, circumstances: int -> Circumstance, links: seq<Link>, k: nat)
    requires LinksFollow(links, r, circumstances) && 1 <= k <= |links|
    requires forall i | 0 <= i < |links| ::
               Brought(links[i], circumstances(links[i].attempt).opening, r.maxBufferBytes, r.number)
    ensures links[k - 1].end.Some? == Streams(circumstances(k).opening)
  {
    hide After, Explained;
    assert links[k - 1].attempt == k;
  }

  lemma StoppingIsNotGoingOn(r: Request, c: Circumstance, links: seq<Link>, k: nat, result: Result)
    requires StopsWith(r, c, links, k, result)
    ensures !GoesOn(r, c, links, k)
  {
    hide Decided, Thrown;
  }

  /** Each result, and exactly when a subscription that stopped at attempt k has
      it; open: no abort, failed: no success, pausing: another attempt is due. */
  ghost predicate ResultAt(p: RetryPolicy, c: Circumstance, links: seq<Link>, k: nat, result: Result) {
    var o, end, last := c.opening, EndAt(links, k), k == p.maxAttempts;
    var open, failed := !Aborts(c, end), o.Answer? && !(200 <= o.status <= 299);
    var pausing, inTime := open && Transient(o, end) && !last, DeadlineAllows(p, c, k, DelayAsked(o, links, k));
    && (result == Resolved <==> !open || (end == Some(Completed) && last))
    && (result == Rejected(AuthFailed) <==> open && o.AuthRejects?)
    && (result == Rejected(ConnectFailed) <==> open && o.FetchRejects? && (!o.retryable || last))
    && (forall status :: result == Rejected(BadStatus(status)) <==>
                         open && failed && o.status == status && (!Transient(o, end) || last))
    && (result == Rejected(BadContentType) <==> open && o.Answer? && !failed && !o.eventStream)
    && (result == Rejected(NoBody) <==> open && o.Answer? && !failed && o.eventStream && o.body.None?)
    && (result == Rejected(TooLarge) <==> open && end == Some(LimitExceeded))
    && (result == Rejected(HandlerFailed) <==> open && end == Some(HandlerThrew))
    && (result == Rejected(DecodeFailed) <==> open && end == Some(ReadFailed) && last)
    && (result == Rejected(InvalidArgument) <==> pausing && !(0.0 <= c.random <= 1.0))
    && (result == Rejected(DeadlineExceeded) <==> pausing && 0.0 <= c.random <= 1.0 && !inTime)
    && (result == Rejected(SleepError) <==> pausing && 0.0 <= c.random <= 1.0 && inTime && c.sleep.SleepFailed?)
  }

  lemma ResultHere(r: Request, c: Circumstance, links: seq<Link>, k: nat, result: Result)
    requires ValidPolicy(r.policy) && 1 <= k <= r.policy.maxAttempts && StopsWith(r, c, links, k, result)
    requires k <= |links| ==> links[k - 1].end.Some? == Streams(c.opening)
    requires |links| == if !c.abortedBefore && ReachesFetch(c.opening) then k else k - 1
    ensures ResultAt(r.policy, c, links, k, result)
  {
    hide ComputeBackoffDelay, Received;
    if k <= |links| {
      RetryIsAsked(NewSession(r.cursor), Received(links[..k]), r.capacity);
    }
    DelayRefusedExactly(r.policy, k, c.random, DelayAsked(c.opening, links, k));
  }

  /** The result of a subscription is the one its last attempt calls for. */
  lemma ResultExactly(r: Request, circumstances: int -> Circumstance, log: seq<Item>, links: seq<Link>,
                      session: Session, result: Result)
    requires ValidPolicy(r.policy) && Subscribed(r, circumstances, log, links, session, result)
    ensures var final := log[|log| - 1].attempt;
            final >= 1 && ResultAt(r.policy, circumstances(final), links, final, result)
  {
    hide GoesOn, OpenLog, Connects, Deliveries, After, Explained, ResultAt, StopsWith, Brought;
    var final := log[|log| - 1].attempt;
    if final <= |links| {
      EndsHere(r, circumstances, links, final);
    }
    ResultHere(r, circumstances(final), links, final, result);
  }

  /** Nobody aborts, every stream ends or breaks off, every fetch that fails may be
      retried and every status that is not a success is one that passes: then
      every attempt allowed is made. */
  lemma ReconnectsToTheLimit(r: Request, circumstances: int -> Circumstance, log: seq<Item>, links: seq<Link>,
                             session: Session, result: Result)
    requires ValidPolicy(r.policy) && Subscribed(r, circumstances, log, links, session, result)
    requires r.policy.deadlineMs.None?
    requires forall k | 1 <= k <= r.policy.maxAttempts ::
               var c := circumstances(k);
               && !c.abortedBefore && !c.abortedAfterwards && 0.0 <= c.random <= 1.0 && !c.sleep.SleepFailed?
               && (Transient(c.opening, EndAt(links, k)) || (Streams(c.opening) && k > |links|))
    ensures |links| == r.policy.maxAttempts
  {
    hide LinksFollow, Brought, Settled, OpenLog, After, Deliveries, LeadsOn, Connects;
    StopsAtTheFirst(r, circumstances, log, links, session, result);
    var final := log[|log| - 1].attempt;
    if final < r.policy.maxAttempts {
      NothingInTheWay(r.policy, circumstances(final), links, final);
    }
  }

  lemma NothingInTheWay(p: RetryPolicy, c: Circumstance, links: seq<Link>, k: nat)
    requires p.deadlineMs.None? && !c.abortedBefore && !c.abortedAfterwards && 0.0 <= c.random <= 1.0
    requires !c.sleep.SleepFailed? && Transient(c.opening, EndAt(links, k)) && k < p.maxAttempts
    ensures LeadsOn(p, c, links, k)
  {
  }

  /** The same, told by the bodies alone: each is read without a disturbance and
      stays within the budget. */
  lemma QuietStreamsReconnectToTheLimit(r: Request, circumstances: int -> Circumstance, log: seq<Item>,
                                        links: seq<Link>, session: Session, result: Result)
    requires ValidPolicy(r.policy) && Subscribed(r, circumstances, log, links, session, result)
    requires r.policy.deadlineMs.None?
    requires forall k | 1 <= k <= r.policy.maxAttempts ::
               var c := circumstances(k);
               && !c.abortedBefore && !c.abortedAfterwards && 0.0 <= c.random <= 1.0 && !c.sleep.SleepFailed?
               && Streams(c.opening) && c.opening.body.value.surroundings.Quiet()
               && Fits(c.opening.body.value.pieces, r.maxBufferBytes)
    ensures |links| == r.policy.maxAttempts && result == Resolved
  {
    hide Explained, Deliveries, OpenLog, After, Settled, Fits;
    forall k | 1 <= k <= |links| ensures EndAt(links, k) == Some(Completed) {
      assert links[k - 1].attempt == k;
    }
    ReconnectsToTheLimit(r, circumstances, log, links, session, result);
    StopsAtTheFirst(r, circumstances, log, links, session, result);
    ResultExactly(r, circumstances, log, links, session, result);
  }
}
