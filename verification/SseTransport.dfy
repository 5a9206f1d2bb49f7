/** The reconnecting SSE subscription: one loop over connection attempts. */
module SseTransport {
  import opened Prelude
  import opened Backoff
  import opened SseBlocks
  import opened SseStream
  import opened SseDelivery
  import opened Headers

  datatype Body = Body(pieces: seq<string>, surroundings: Surroundings)

  /** How one attempt to open the stream goes. */
  datatype Opening =
    | AuthRejects(isAbort: bool)
    | AbortedAfterAuth
    | FetchRejects(isAbort: bool, retryable: bool, retryAfterMs: Option<real>)
    | Answer(status: int, eventStream: bool, body: Option<Body>)

  datatype Sleep = Slept | SleepAborted | SleepFailed

  /** What happens around one attempt, in the order the code looks at it; auth:
      the headers the resolver supplies, if it does not reject. */
  datatype Circumstance = Circumstance(abortedBefore: bool, auth: Dictionary, opening: Opening, abortedAfterwards: bool,
                                       random: real, elapsedMs: real, sleep: Sleep)

  /** What a subscription is given. defaults, headers: the transport's and the
      caller's. */
  datatype Request = Request(policy: RetryPolicy, cursor: Option<string>, capacity: nat, maxBufferBytes: nat,
                             defaults: Dictionary, headers: Dictionary, number: ReadNumber, lower: Lower)

  datatype Reason = AuthFailed | ConnectFailed | BadStatus(status: int) | BadContentType | NoBody | TooLarge
                  | HandlerFailed | DecodeFailed | DeadlineExceeded | InvalidArgument | SleepError

  datatype Result = Resolved | Rejected(reason: Reason)

  /** What an observer sees, in order. */
  datatype Item =
    | Connecting(attempt: int)
    | Connected(attempt: int)
    | Reconnected(attempt: int)
    | Delivered(message: SseMessage)
    | Retrying(attempt: int, delayMs: int, elapsedMs: real)
    | Closed(attempt: int)

  /** One request that reached fetch: the Last-Event-ID among its headers, the
      messages its body brought, and how the reading of a body ended. */
  datatype Link = Link(attempt: int, lastEventId: Option<string>, received: seq<SseMessage>, end: Option<End>)

  /** The Last-Event-ID the headers hold without a cursor. */
  function Supplied(r: Request, c: Circumstance): Option<string> {
    Lookup(Layered(r.defaults, r.headers, c.auth, r.lower), "last-event-id", r.lower)
  }

  predicate SaysSomething(cursor: Option<string>) { cursor.Some? && cursor.value != "" }

  function ResumeHeader(cursor: Option<string>, supplied: Option<string>): Option<string> {
    if SaysSomething(cursor) then cursor else supplied
  }

  function NewSession(cursor: Option<string>): Session { Session([], cursor, None, []) }

  function Received(links: seq<Link>): seq<SseMessage> {
    if links == [] then [] else Received(links[..|links| - 1]) + links[|links| - 1].received
  }

  lemma ReceivedSnoc(links: seq<Link>, link: Link)
    ensures Received(links + [link]) == Received(links) + link.received
  {
    assert (links + [link])[..|links|] == links;
  }

  function Deliveries(log: seq<Item>): seq<SseMessage> {
    if log == [] then []
    else
      var last := log[|log| - 1];
      Deliveries(log[..|log| - 1]) + if last.Delivered? then [last.message] else []
  }

  lemma DeliveriesSnoc(log: seq<Item>, item: Item)
    ensures Deliveries(log + [item]) == Deliveries(log) + if item.Delivered? then [item.message] else []
  {
    assert (log + [item])[..|log|] == log;
  }

  /** What the session holds after these requests. */
  function After(r: Request, links: seq<Link>): Session {
    ReceiveAll(NewSession(r.cursor), Received(links), r.capacity)
  }

  /** Every attempt has its request, within the maximum, and each request asks on
      the wire to resume after the last event delivered before it. */
  ghost predicate LinksFollow(links: seq<Link>, r: Request, circumstances: int -> Circumstance) {
    && |links| <= Max(0, r.policy.maxAttempts)
    && forall i | 0 <= i < |links| ::
         && links[i].attempt == i + 1
         && links[i].lastEventId == ResumeHeader(After(r, links[..i]).cursor,
                                                 Supplied(r, circumstances(links[i].attempt)))
  }

  /** Attempt events within the log: connecting 1, 2, ... without a gap, every
      retry announced with an allowed delay, and nothing closed yet. */
  ghost predicate OpenLog(log: seq<Item>, attempt: int, policy: RetryPolicy) {
    && (forall i | 0 <= i < |log| :: !log[i].Closed?)
    && Connects(log) == attempt <= policy.maxAttempts
    && forall i | 0 <= i < |log| && log[i].Retrying? ::
         && SleepFits(policy, log[i].elapsedMs, log[i].delayMs)
         && 0 <= log[i].delayMs <= Round(policy.maxDelayMs)
  }

  /** A finished log: "closed" comes exactly once and last, naming the attempt
      announced last or the one that was about to be. */
  ghost predicate ClosedLog(log: seq<Item>, policy: RetryPolicy) {
    && log != [] && log[|log| - 1].Closed?
    && var open, final := log[..|log| - 1], log[|log| - 1].attempt;
       && OpenLog(open, Connects(open), policy)
       && 1 <= final <= policy.maxAttempts && Connects(open) <= final <= Connects(open) + 1
  }

  /** How many attempts announced themselves, if they are numbered 1, 2, ...;
      -1 otherwise. */
  function Connects(log: seq<Item>): int {
    if log == [] then 0
    else
      var n, last := Connects(log[..|log| - 1]), log[|log| - 1];
      if !last.Connecting? then n else if n >= 0 && last.attempt == n + 1 then n + 1 else -1
  }

  lemma OpenLogSnoc(log: seq<Item>, item: Item, attempt: int, policy: RetryPolicy)
    requires OpenLog(log, attempt, policy) && 0 <= attempt && !item.Closed?
    requires item.Connecting? ==> item.attempt == attempt + 1 <= policy.maxAttempts
    requires item.Retrying? ==>
               SleepFits(policy, item.elapsedMs, item.delayMs) && 0 <= item.delayMs <= Round(policy.maxDelayMs)
    ensures OpenLog(log + [item], if item.Connecting? then attempt + 1 else attempt, policy)
  {
    assert (log + [item])[..|log|] == log;
  }

  /** Hands a connection's messages to the message callback, one by one. */
  method Dispatch(session0: Session, log0: seq<Item>, messages: seq<SseMessage>, capacity: nat, ghost attempt: int,
                  ghost policy: RetryPolicy)
    returns (session: Session, log: seq<Item>)
    requires |session0.seen| <= capacity && 0 <= attempt && OpenLog(log0, attempt, policy)
    requires Deliveries(log0) == session0.delivered
    ensures session == ReceiveAll(session0, messages, capacity) && |session.seen| <= capacity
    ensures OpenLog(log, attempt, policy) && Deliveries(log) == session.delivered && log0 <= log
  {
    hide Receive, OpenLog, Deliveries;
    session, log := session0, log0;
    for i := 0 to |messages|
      invariant session == ReceiveAll(session0, messages[..i], capacity) && |session.seen| <= capacity
      invariant OpenLog(log, attempt, policy) && Deliveries(log) == session.delivered && log0 <= log
    {
      assert messages[..i + 1] == messages[..i] + [messages[i]];
      ReceiveSnoc(session0, messages[..i], messages[i], capacity);
      var deliver;
      session, deliver := HandleMessage(session, messages[i], capacity);
      if deliver {
        OpenLogSnoc(log, Delivered(messages[i]), attempt, policy);
        DeliveriesSnoc(log, Delivered(messages[i]));
        log := log + [Delivered(messages[i])];
      }
    }
    assert messages[..|messages|] == messages;
  }

  /** The body an attempt gets to read, if any. */
  function ReadableBody(opening: Opening): Option<Body> {
    if opening.Answer? && 200 <= opening.status <= 299 && opening.eventStream then opening.body else None
  }

  /** What a request brought, and how its reading ended, is explained by the body
      it got; left alone, it is all of the body's meaning unless the budget is
      exceeded. */
  ghost predicate Brought(link: Link, opening: Opening, max: nat, number: ReadNumber) {
    match ReadableBody(opening)
    case None => link.received == [] && link.end.None?
    case Some(body) =>
      && link.end.Some? && Explained(link.end.value, link.received, body.pieces, max, number, body.surroundings)
      && (body.surroundings.Quiet() ==> link.end == Some(if Fits(body.pieces, max) then Completed else LimitExceeded))
  }

  predicate IsRetryable(status: int) { status == 408 || status == 429 || status >= 500 }

  /** What follows an attempt: the subscription ends, or waits and tries again. */
  datatype Next = End(result: Result) | Wait(retryAfterMs: Option<real>)

  /** The end of a failed attempt: thrown when it cannot or may not be retried. */
  function AfterFailure(retryable: bool, last: bool, reason: Reason, retryAfterMs: Option<real>): Next {
    if !retryable || last then End(Rejected(reason)) else Wait(retryAfterMs)
  }

  /** The decision after an attempt that got no readable body: aborts end the
      subscription silently, transient failures wait, everything else throws. */
  function WithoutBody(opening: Opening, aborted: bool, last: bool): Next {
    match opening
    case AuthRejects(isAbort) => if isAbort || aborted then End(Resolved) else End(Rejected(AuthFailed))
    case AbortedAfterAuth => End(Resolved)
    case FetchRejects(isAbort, retryable, retryAfterMs) =>
      if isAbort || aborted then End(Resolved) else AfterFailure(retryable, last, ConnectFailed, retryAfterMs)
    case Answer(status, eventStream, _) =>
      if !(200 <= status <= 299) then AfterFailure(IsRetryable(status), last, BadStatus(status), None)
      else End(Rejected(if eventStream then NoBody else BadContentType))
  }

  /** The decision after the reading of a body ended. */
  function AfterBody(end: End, aborted: bool, last: bool, retryMs: Option<real>): Next {
    if end.Aborted? || aborted then End(Resolved)
    else
      match end
      case LimitExceeded => End(Rejected(TooLarge))
      case HandlerThrew => End(Rejected(HandlerFailed))
      case ReadFailed => AfterFailure(true, last, DecodeFailed, retryMs)
      case _ => if last then End(Resolved) else Wait(retryMs)
  }

  predicate ReachesFetch(opening: Opening) { opening.FetchRejects? || opening.Answer? }

  /** The decision after an attempt: end is how its body's reading ended. */
  function Decision(c: Circumstance, end: Option<End>, last: bool, retryMs: Option<real>): Next {
    if ReadableBody(c.opening).None? || end.None? then WithoutBody(c.opening, c.abortedAfterwards, last)
    else AfterBody(end.value, c.abortedAfterwards, last, retryMs)
  }

  /** One attempt, from resolving headers to the end of the body. */
  method Attempt(attempt: int, c: Circumstance, session0: Session, log0: seq<Item>, r: Request)
    returns (session: Session, log: seq<Item>, link: Option<Link>, next: Next)
    requires 1 <= attempt && OpenLog(log0, attempt, r.policy) && Deliveries(log0) == session0.delivered
    requires |session0.seen| <= r.capacity && FoldsNames(r.lower)
    ensures OpenLog(log, attempt, r.policy) && Deliveries(log) == session.delivered && |session.seen| <= r.capacity
    ensures link.Some? <==> ReachesFetch(c.opening)
    ensures match link
            case None => session == session0 && log == log0
            case Some(made) =>
              && made.attempt == attempt && made.lastEventId == ResumeHeader(session0.cursor, Supplied(r, c))
              && Brought(made, c.opening, r.maxBufferBytes, r.number)
              && session == ReceiveAll(session0, made.received, r.capacity)
              && if ReadableBody(c.opening).None? then log == log0
                 else log0 + [if attempt == 1 then Connected(attempt) else Reconnected(attempt)] <= log
    ensures next == Decision(c, if link.Some? then link.value.end else None, attempt >= r.policy.maxAttempts,
                             session.retryMs)
  {
    hide OpenLog, Deliveries, Explained, Receive, UniqueNames, Lookup;
    session, log, link := session0, log0, None;
    var last := attempt >= r.policy.maxAttempts;
    match c.opening {
      case AuthRejects(isAbort) =>
        return session, log, link, if isAbort || c.abortedAfterwards then End(Resolved) else End(Rejected(AuthFailed));
      case AbortedAfterAuth =>
        return session, log, link, End(Resolved);
      case _ =>
    }
    var headers := MergeSseHeaders(r.defaults, r.headers, c.auth, session.cursor, r.lower);
    var made := Link(attempt, Lookup(headers, "last-event-id", r.lower), [], None);
    link := Some(made);
    match c.opening {
      case FetchRejects(isAbort, retryable, retryAfterMs) =>
        next := if isAbort || c.abortedAfterwards then End(Resolved)
                else AfterFailure(retryable, last, ConnectFailed, retryAfterMs);
        return session, log, link, next;
      case Answer(status, eventStream, body) =>
        if !(200 <= status <= 299) {
          return session, log, link, AfterFailure(IsRetryable(status), last, BadStatus(status), None);
        }
        if !eventStream || body.None? {
          return session, log, link, End(Rejected(if !eventStream then BadContentType else NoBody));
        }
        var announced := if attempt == 1 then Connected(attempt) else Reconnected(attempt);
        OpenLogSnoc(log, announced, attempt, r.policy);
        DeliveriesSnoc(log, announced);
        log := log + [announced];
        var received, end := ConsumeSseStream(body.value.pieces, r.maxBufferBytes, r.number, body.value.surroundings);
        session, log := Dispatch(session, log, received, r.capacity, attempt, r.policy);
        link := Some(made.(received := received, end := Some(end)));
        match end {
          case Completed => next := if c.abortedAfterwards || last then End(Resolved) else Wait(session.retryMs);
          case Aborted => next := End(Resolved);
          case LimitExceeded => next := if c.abortedAfterwards then End(Resolved) else End(Rejected(TooLarge));
          case HandlerThrew => next := if c.abortedAfterwards then End(Resolved) else End(Rejected(HandlerFailed));
          case ReadFailed =>
            next := if c.abortedAfterwards then End(Resolved)
                    else AfterFailure(true, last, DecodeFailed, session.retryMs);
        }
      case _ =>
        assert false;
        next := End(Resolved);
    }
  }

  /** What the pause before another attempt throws, if it does. */
  function Thrown(policy: RetryPolicy, attempt: int, c: Circumstance, retryAfterMs: Option<real>): Option<Reason> {
    var delayMs := ComputeBackoffDelay(policy, attempt, c.random, retryAfterMs);
    if delayMs.None? then Some(InvalidArgument)
    else if !SleepFits(policy, c.elapsedMs, delayMs.value) then Some(DeadlineExceeded)
    else if c.sleep.SleepFailed? then Some(SleepError) else None
  }

  /** The pause before another attempt; Some is a thrown error. An aborted sleep
      returns as if it had ended. */
  method WaitForReconnect(attempt: int, c: Circumstance, log0: seq<Item>, policy: RetryPolicy,
                          retryAfterMs: Option<real>)
    returns (log: seq<Item>, thrown: Option<Reason>)
    requires 0 <= attempt && OpenLog(log0, attempt, policy)
    ensures OpenLog(log, attempt, policy) && Deliveries(log) == Deliveries(log0)
    ensures thrown == Thrown(policy, attempt, c, retryAfterMs)
    ensures var delayMs := ComputeBackoffDelay(policy, attempt, c.random, retryAfterMs);
            log == if delayMs.Some? && SleepFits(policy, c.elapsedMs, delayMs.value)
                   then log0 + [Retrying(attempt, delayMs.value, c.elapsedMs)] else log0
  {
    hide OpenLog, Deliveries, ComputeBackoffDelay;
    log := log0;
    var delayMs := ComputeBackoffDelay(policy, attempt, c.random, retryAfterMs);
    if delayMs.None? {
      return log, Some(InvalidArgument);
    }
    if !SleepFits(policy, c.elapsedMs, delayMs.value) {
      return log, Some(DeadlineExceeded);
    }
    DelayBounds(policy, attempt, c.random, retryAfterMs);
    var item := Retrying(attempt, delayMs.value, c.elapsedMs);
    OpenLogSnoc(log, item, attempt, policy);
    DeliveriesSnoc(log, item);
    log := log + [item];
    return log, if c.sleep.SleepFailed? then Some(SleepError) else None;
  }

  lemma AfterOneMore(links: seq<Link>, link: Link, r: Request)
    ensures After(r, links + [link]) == ReceiveAll(After(r, links), link.received, r.capacity)
  {
    hide Received, Receive, ReceiveAll;
    ReceivedSnoc(links, link);
    ReceiveAppend(NewSession(r.cursor), Received(links), link.received, r.capacity);
  }

  lemma LinkAdded(links: seq<Link>, link: Link, r: Request, circumstances: int -> Circumstance)
    requires LinksFollow(links, r, circumstances) && |links| < r.policy.maxAttempts && link.attempt == |links| + 1
    requires link.lastEventId == ResumeHeader(After(r, links).cursor, Supplied(r, circumstances(link.attempt)))
    ensures LinksFollow(links + [link], r, circumstances)
    ensures After(r, links + [link]) == ReceiveAll(After(r, links), link.received, r.capacity)
  {
    AfterOneMore(links, link, r);
    hide After, Supplied, Receive;
    var all := links + [link];
    forall i | 0 <= i < |all|
      ensures all[i].lastEventId == ResumeHeader(After(r, all[..i]).cursor, Supplied(r, circumstances(all[i].attempt)))
    {
      if i < |links| {
        assert all[..i] == links[..i];
      } else {
        assert all[..i] == links;
      }
    }
  }

  /** The decision after attempt k, given the requests made. */
  function Decided(r: Request, c: Circumstance, links: seq<Link>, k: nat): Next {
    var last := k >= r.policy.maxAttempts;
    if k == 0 || k > |links| then Decision(c, None, last, None)
    else Decision(c, links[k - 1].end, last, After(r, links[..k]).retryMs)
  }

  /** Attempt k happens and leads on to the next. */
  predicate GoesOn(r: Request, c: Circumstance, links: seq<Link>, k: nat) {
    !c.abortedBefore
    && var next := Decided(r, c, links, k);
       next.Wait? && Thrown(r.policy, k, c, next.retryAfterMs).None?
  }

  /** What the subscription settles with when it stops at attempt k: an abort and
      a decision to end speak for themselves, and a pause that throws rejects. */
  predicate StopsWith(r: Request, c: Circumstance, links: seq<Link>, k: nat, result: Result) {
    if c.abortedBefore then result == Resolved
    else
      var next := Decided(r, c, links, k);
      if next.End? then result == next.result
      else
        var thrown := Thrown(r.policy, k, c, next.retryAfterMs);
        thrown.Some? && result == Rejected(thrown.value)
  }

  /** The subscription stopped at attempt `final`, the first that does not go on;
      that attempt has a request too, if it got as far as fetch. */
  ghost predicate Settled(r: Request, circumstances: int -> Circumstance, links: seq<Link>, final: int, result: Result)
  {
    && (forall k: nat | 1 <= k < final :: GoesOn(r, circumstances(k), links, k))
    && final >= 1 && StopsWith(r, circumstances(final), links, final, result)
    && var c := circumstances(final);
       |links| == if !c.abortedBefore && ReachesFetch(c.opening) then final else final - 1
  }

  /** Whatever happened, a subscription left: one "closed", at the end; the
      deduplicated sum of what the requests brought, each explained by the body it
      got; requests that resume after the last event delivered; and the result
      the first attempt that does not lead on calls for. */
  ghost predicate Subscribed(r: Request, circumstances: int -> Circumstance, log: seq<Item>, links: seq<Link>,
                             session: Session, result: Result)
  {
    && ClosedLog(log, r.policy) && Deliveries(log) == session.delivered && session == After(r, links)
    && LinksFollow(links, r, circumstances)
    && (forall i | 0 <= i < |links| :: Brought(links[i], circumstances(links[i].attempt).opening, r.maxBufferBytes,
                                               r.number))
    && Settled(r, circumstances, links, log[|log| - 1].attempt, result)
  }

  lemma LinksGrow(r: Request, c: Circumstance, links: seq<Link>, link: Link, k: nat)
    requires k <= |links|
    ensures GoesOn(r, c, links + [link], k) == GoesOn(r, c, links, k)
  {
    hide Decision, After, Thrown;
    assert (links + [link])[..k] == links[..k];
  }

  /** A whole subscription. */
  method Subscribe(r: Request, circumstances: int -> Circumstance)
    returns (log: seq<Item>, links: seq<Link>, session: Session, result: Result)
    requires FoldsNames(r.lower)
    ensures if ValidPolicy(r.policy) then Subscribed(r, circumstances, log, links, session, result)
            else log == [] && links == [] && session == NewSession(r.cursor) && result == Rejected(InvalidArgument)
  {
    hide OpenLog, Deliveries, Received, Brought, Receive, ReceiveAll, LinksFollow, After, Decision, Decided, GoesOn,
         StopsWith, Thrown, FoldsNames, ReachesFetch, ResumeHeader, Supplied, ReadableBody, ComputeBackoffDelay,
         SleepFits;
    log, links, session := [], [], NewSession(r.cursor);
    NothingYet(r, circumstances);
    if !ValidPolicy(r.policy) {
      return log, links, session, Rejected(InvalidArgument);
    }
    var attempt, finalAttempt := 1, 1;
    ghost var announced := 0;
    result := Resolved;
    while attempt <= r.policy.maxAttempts
      invariant 1 <= attempt <= r.policy.maxAttempts
      invariant announced == attempt - 1 == |links| && OpenLog(log, announced, r.policy)
                && Deliveries(log) == session.delivered
      invariant |session.seen| <= r.capacity && session == After(r, links)
      invariant LinksFollow(links, r, circumstances)
      invariant forall i | 0 <= i < |links| :: Brought(links[i], circumstances(links[i].attempt).opening,
                                                       r.maxBufferBytes, r.number)
      invariant forall k: nat | 1 <= k < attempt :: GoesOn(r, circumstances(k), links, k)
      decreases r.policy.maxAttempts - attempt
    {
      finalAttempt := attempt;
      var c := circumstances(attempt);
      if c.abortedBefore {
        AbortStops(r, c, links, attempt);
        break;
      }
      OpenLogSnoc(log, Connecting(attempt), attempt - 1, r.policy);
      DeliveriesSnoc(log, Connecting(attempt));
      log, announced := log + [Connecting(attempt)], attempt;
      var link, next;
      session, log, link, next := Attempt(attempt, c, session, log, r);
      if link.Some? {
        LinkAdded(links, link.value, r, circumstances);
        forall k: nat | 1 <= k < attempt ensures GoesOn(r, circumstances(k), links + [link.value], k) {
          LinksGrow(r, circumstances(k), links, link.value, k);
        }
        links := links + [link.value];
        assert links[..attempt] == links;
      }
      DecidedHere(r, c, links, attempt, link, next, session);
      if next.End? {
        result := next.result;
        break;
      }
      var thrown;
      log, thrown := WaitForReconnect(attempt, c, log, r.policy, next.retryAfterMs);
      if thrown.Some? {
        result := Rejected(thrown.value);
        break;
      }
      attempt := attempt + 1;
    }
    CloseLog(log, finalAttempt, announced, r.policy);
    log := log + [Closed(finalAttempt)];
  }

  lemma AbortStops(r: Request, c: Circumstance, links: seq<Link>, attempt: nat)
    requires c.abortedBefore
    ensures StopsWith(r, c, links, attempt, Resolved)
  {
  }

  /** The decision the attempt came to is the one its request calls for; only an
      attempt with a request leads on, and never the last. */
  lemma DecidedHere(r: Request, c: Circumstance, links: seq<Link>, attempt: nat, link: Option<Link>, next: Next,
                    session: Session)
    requires link.Some? <==> ReachesFetch(c.opening)
    requires if link.Some? then |links| == attempt && attempt >= 1 && links[attempt - 1] == link.value
             else |links| == attempt - 1
    requires session == After(r, links) && !c.abortedBefore
    requires next == Decision(c, if link.Some? then link.value.end else None, attempt >= r.policy.maxAttempts,
                              session.retryMs)
    ensures next.End? ==> StopsWith(r, c, links, attempt, next.result)
    ensures next.Wait? ==>
              && link.Some? && attempt < r.policy.maxAttempts
              && var thrown := Thrown(r.policy, attempt, c, next.retryAfterMs);
                 if thrown.Some? then StopsWith(r, c, links, attempt, Rejected(thrown.value))
                 else GoesOn(r, c, links, attempt)
  {
    hide After, Thrown;
    assert link.Some? ==> links[..attempt] == links;
  }

  lemma CloseLog(open: seq<Item>, final: int, announced: int, policy: RetryPolicy)
    requires OpenLog(open, announced, policy)
    requires 1 <= final <= policy.maxAttempts && announced <= final <= announced + 1
    ensures ClosedLog(open + [Closed(final)], policy)
    ensures Deliveries(open + [Closed(final)]) == Deliveries(open)
  {
    hide Connects;
    assert (open + [Closed(final)])[..|open|] == open;
  }

  lemma NothingYet(r: Request, circumstances: int -> Circumstance)
    ensures Deliveries([]) == [] && After(r, []) == NewSession(r.cursor) && LinksFollow([], r, circumstances)
    ensures ValidPolicy(r.policy) ==> OpenLog([], 0, r.policy)
  {
  }
}
