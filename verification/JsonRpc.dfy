/** Request/response correlation over a message channel (sections 4 and 5 of
    JSON-RPC 2.0). A request's promise is known by its ticket. */
module JsonRpc {
  import opened Prelude

  datatype Id = Text(text: string) | Number(number: real)

  /** What the id generator returned. */
  datatype GeneratedId = Valid(id: Id) | Invalid

  datatype Outcome = Result | RemoteError(code: real) | Malformed | SendFailed | Aborted | Closed

  datatype Settlement = Settlement(ticket: nat, outcome: Outcome)

  /** An incoming message, as the handler tells messages apart. */
  datatype Message =
    | NotJsonRpc
    | Notification(name: string)
    | NoId
    | Response(id: Id, hasResult: bool, hasError: bool, errorCode: Option<real>)

  /** pending: the Map; ids: the id each ticket was issued under; listening: whose
      abort listener is registered; sending: whose send promise is undecided;
      settlements: every resolve or reject call; reports: protocol errors. */
  datatype State = State(closed: bool, pending: map<Id, nat>, ids: seq<Id>, listening: set<nat>, sending: set<nat>,
                         settlements: seq<Settlement>, reports: nat)

  const START := State(false, map[], [], {}, {}, [], 0)

  datatype Refusal = TransportClosed | AlreadyAborted | InvalidId | DuplicateId

  function Refused(s: State, aborted: bool, generated: GeneratedId): Option<Refusal> {
    if s.closed then Some(TransportClosed)
    else if aborted then Some(AlreadyAborted)
    else if generated.Invalid? then Some(InvalidId)
    else if generated.id in s.pending then Some(DuplicateId)
    else None
  }

  /** Takes an id's entry out of pending, with its abort listener, and settles
      the promise `ticket`: the code closes over the id and the promise
      separately. */
  function Settle(s: State, id: Id, ticket: nat, outcome: Outcome): State
    requires id in s.pending
  {
    s.(pending := s.pending - {id}, listening := s.listening - {s.pending[id]},
       settlements := s.settlements + [Settlement(ticket, outcome)])
  }

  datatype Event =
    | Issue(generated: GeneratedId, hasSignal: bool, aborted: bool, sendThrows: bool)
    | SendSucceeds(ticket: nat)
    | SendFails(ticket: nat)
    | AbortFires(ticket: nat)
    | Receive(message: Message)
    | ChannelCloses

  /** What can happen next: promises settle while undecided, listeners fire while
      registered. */
  predicate Enabled(s: State, e: Event) {
    match e
    case SendSucceeds(t) => t in s.sending && t < |s.ids|
    case SendFails(t) => t in s.sending && t < |s.ids|
    case AbortFires(t) => t in s.listening && t < |s.ids|
    case _ => true
  }

  function IssueRequest(s: State, generated: GeneratedId, hasSignal: bool, aborted: bool, sendThrows: bool): State {
    if Refused(s, aborted, generated).Some? then s
    else
      var id, t := generated.id, |s.ids|;
      var issued := Enter(s, id, hasSignal);
      if sendThrows then Settle(issued, id, t, SendFailed) else issued.(sending := issued.sending + {t})
  }

  function FailSend(s: State, t: nat): State
    requires t < |s.ids|
  {
    var undecided := s.(sending := s.sending - {t});
    if s.ids[t] in s.pending then Settle(undecided, s.ids[t], t, SendFailed) else undecided
  }

  function FireAbort(s: State, t: nat): State
    requires t < |s.ids|
  {
    var fired := s.(listening := s.listening - {t});
    if s.ids[t] in s.pending then Settle(fired, s.ids[t], t, Aborted) else fired
  }

  function ReceiveMessage(s: State, m: Message): State {
    if s.closed then s
    else
      match m
      case NotJsonRpc => s.(reports := s.reports + 1)
      case Notification(_) => s
      case NoId => s.(reports := s.reports + 1)
      case Response(id, hasResult, hasError, errorCode) =>
        if id !in s.pending then s.(reports := s.reports + 1)
        else if hasResult == hasError || (hasError && errorCode.None?) then
          Settle(s, id, s.pending[id], Malformed).(reports := s.reports + 1)
        else Settle(s, id, s.pending[id], if hasResult then Result else RemoteError(errorCode.value))
  }

  /** Request t has its entry. */
  predicate Waits(pending: map<Id, nat>, ids: seq<Id>, t: nat)
    requires t < |ids|
  {
    ids[t] in pending && pending[ids[t]] == t
  }

  /** The tickets below n that wait in pending, in the order they were issued. */
  function Waiting(pending: map<Id, nat>, ids: seq<Id>, n: nat): seq<nat>
    requires n <= |ids|
  {
    if n == 0 then [] else Waiting(pending, ids, n - 1) + if Waits(pending, ids, n - 1) then [n - 1] else []
  }

  function AllClosed(tickets: seq<nat>): seq<Settlement> {
    seq(|tickets|, i requires 0 <= i < |tickets| => Settlement(tickets[i], Closed))
  }

  function Finish(s: State): State {
    if s.closed then s
    else s.(closed := true, pending := map[], listening := s.listening - s.pending.Values,
            settlements := s.settlements + AllClosed(Waiting(s.pending, s.ids, |s.ids|)))
  }

  function Step(s: State, e: Event): State
    requires Enabled(s, e)
  {
    match e
    case Issue(generated, hasSignal, aborted, sendThrows) => IssueRequest(s, generated, hasSignal, aborted, sendThrows)
    case SendSucceeds(t) => s.(sending := s.sending - {t})
    case SendFails(t) => FailSend(s, t)
    case AbortFires(t) => FireAbort(s, t)
    case Receive(m) => ReceiveMessage(s, m)
    case ChannelCloses => Finish(s)
  }

  // --- What every step keeps ---

  predicate Settled(settlements: seq<Settlement>, t: nat) {
    exists i | 0 <= i < |settlements| :: settlements[i].ticket == t
  }

  lemma SettledAppend(a: seq<Settlement>, b: seq<Settlement>, t: nat)
    ensures Settled(a + b, t) <==> Settled(a, t) || Settled(b, t)
  {
    if Settled(a, t) {
      var i :| 0 <= i < |a| && a[i].ticket == t;
      assert (a + b)[i].ticket == t;
    }
    if Settled(b, t) {
      var i :| 0 <= i < |b| && b[i].ticket == t;
      assert (a + b)[|a| + i].ticket == t;
    }
  }

  /** Entries are filed under their own id, listeners belong to entries, nothing
      unissued is mentioned, and a closed transport has no entries. */
  ghost predicate Sound(s: State) {
    && (forall id | id in s.pending :: s.pending[id] < |s.ids| && s.ids[s.pending[id]] == id)
    && (forall t | t in s.listening :: t < |s.ids| && Waits(s.pending, s.ids, t))
    && (forall t | t in s.sending :: t < |s.ids|)
    && (forall i | 0 <= i < |s.settlements| :: s.settlements[i].ticket < |s.ids|)
    && (s.closed ==> s.pending == map[])
  }

  lemma {:induction false} WaitingWaits(pending: map<Id, nat>, ids: seq<Id>, n: nat)
    requires n <= |ids|
    ensures forall t: nat :: t in Waiting(pending, ids, n) <==> t < n && Waits(pending, ids, t)
    ensures Distinct(Waiting(pending, ids, n))
  {
    if n > 0 {
      WaitingWaits(pending, ids, n - 1);
    }
  }

  lemma SettleKeepsSound(s: State, id: Id, ticket: nat, outcome: Outcome)
    requires Sound(s) && id in s.pending && ticket < |s.ids|
    ensures Sound(Settle(s, id, ticket, outcome))
  {
  }

  lemma FinishKeepsSound(s: State)
    requires Sound(s)
    ensures Sound(Finish(s))
  {
    if !s.closed {
      WaitingWaits(s.pending, s.ids, |s.ids|);
      var waiting := Waiting(s.pending, s.ids, |s.ids|);
      assert forall i | 0 <= i < |waiting| :: waiting[i] in waiting;
      assert forall t | t in s.listening :: s.pending[s.ids[t]] in s.pending.Values;
    }
  }

  /** The state just after a request is entered, before anything is sent. */
  function Enter(s: State, id: Id, hasSignal: bool): State {
    s.(pending := s.pending[id := |s.ids|], ids := s.ids + [id],
       listening := if hasSignal then s.listening + {|s.ids|} else s.listening)
  }

  lemma EnterKeepsSound(s: State, id: Id, hasSignal: bool)
    requires Sound(s) && id !in s.pending && !s.closed
    ensures Sound(Enter(s, id, hasSignal))
  {
  }

  lemma StepKeepsSound(s: State, e: Event)
    requires Sound(s) && Enabled(s, e)
    ensures Sound(Step(s, e))
    ensures s.closed ==> Step(s, e).closed && Step(s, e).ids == s.ids
    ensures s.settlements <= Step(s, e).settlements
  {
    hide Sound;
    EntriesAreIssued(s);
    match e
    case Issue(generated, hasSignal, aborted, sendThrows) =>
      if Refused(s, aborted, generated).None? {
        EnterKeepsSound(s, generated.id, hasSignal);
        var issued := Enter(s, generated.id, hasSignal);
        SettleKeepsSound(issued, generated.id, |s.ids|, SendFailed);
        SendingChanges(issued, issued.sending + {|s.ids|});
      }
    case SendSucceeds(t) => SendingChanges(s, s.sending - {t});
    case SendFails(t) =>
      SendingChanges(s, s.sending - {t});
      if s.ids[t] in s.pending {
        SettleKeepsSound(s.(sending := s.sending - {t}), s.ids[t], t, SendFailed);
      }
    case AbortFires(t) =>
      ListeningShrinks(s, t);
      if s.ids[t] in s.pending {
        SettleKeepsSound(s.(listening := s.listening - {t}), s.ids[t], t, Aborted);
      }
    case Receive(m) =>
      if !s.closed && m.Response? && m.id in s.pending {
        var t := s.pending[m.id];
        SettleKeepsSound(s, m.id, t, Malformed);
        SettleKeepsSound(s, m.id, t, Result);
        if m.errorCode.Some? {
          SettleKeepsSound(s, m.id, t, RemoteError(m.errorCode.value));
        }
        ReportsDoNotMatter(Settle(s, m.id, t, Malformed), s.reports + 1);
      }
      ReportsDoNotMatter(s, s.reports + 1);
    case ChannelCloses => FinishKeepsSound(s);
  }

  lemma EntriesAreIssued(s: State)
    requires Sound(s)
    ensures forall id | id in s.pending :: s.pending[id] < |s.ids|
    ensures forall t | t in s.sending :: t < |s.ids|
  {
  }

  lemma SendingChanges(s: State, sending: set<nat>)
    requires Sound(s) && forall t | t in sending :: t < |s.ids|
    ensures Sound(s.(sending := sending))
  {
  }

  lemma ListeningShrinks(s: State, t: nat)
    requires Sound(s)
    ensures Sound(s.(listening := s.listening - {t}))
  {
  }

  lemma ReportsDoNotMatter(s: State, n: nat)
    requires Sound(s)
    ensures Sound(s.(reports := n))
  {
  }

  // --- Exactly-once settlement ---

  /** pending is exactly the issued but unsettled requests, and no promise was
      settled twice. */
  ghost predicate Exact(pending: map<Id, nat>, ids: seq<Id>, settlements: seq<Settlement>) {
    && (forall t: nat | t < |ids| :: Waits(pending, ids, t) <==> !Settled(settlements, t))
    && forall i, j | 0 <= i < j < |settlements| :: settlements[i].ticket != settlements[j].ticket
  }

  ghost predicate IsExact(s: State) { Exact(s.pending, s.ids, s.settlements) }

  /** A send is still undecided whose id now belongs to another request. */
  ghost predicate Endangered(s: State) {
    exists t | t in s.sending :: t < |s.ids| && s.ids[t] in s.pending && s.pending[s.ids[t]] != t
  }

  /** The event issues a request under an id whose earlier send is undecided. */
  predicate Reuses(s: State, e: Event) {
    && e.Issue? && Refused(s, e.aborted, e.generated).None?
    && exists t | t in s.sending :: t < |s.ids| && s.ids[t] == e.generated.id
  }

  lemma SettleKeepsExact(pending: map<Id, nat>, ids: seq<Id>, settlements: seq<Settlement>, id: Id, outcome: Outcome)
    requires Exact(pending, ids, settlements) && id in pending
    requires forall i | i in pending :: pending[i] < |ids| && ids[pending[i]] == i
    ensures Exact(pending - {id}, ids, settlements + [Settlement(pending[id], outcome)])
  {
    var last := [Settlement(pending[id], outcome)];
    assert last[0].ticket == pending[id];
    assert !Settled(settlements, pending[id]);
    forall t: nat | t < |ids| ensures Waits(pending - {id}, ids, t) <==> !Settled(settlements + last, t) {
      SettledAppend(settlements, last, t);
    }
  }

  lemma EnterKeepsExact(s: State, id: Id, hasSignal: bool)
    requires Sound(s) && IsExact(s) && id !in s.pending
    ensures IsExact(Enter(s, id, hasSignal))
  {
    var s' := Enter(s, id, hasSignal);
    forall t: nat | t < |s'.ids| ensures Waits(s'.pending, s'.ids, t) <==> !Settled(s.settlements, t) {
      if t < |s.ids| {
        assert Waits(s'.pending, s'.ids, t) == Waits(s.pending, s.ids, t);
      }
    }
  }

  lemma FinishKeepsExact(s: State)
    requires Sound(s) && IsExact(s)
    ensures IsExact(Finish(s))
  {
    if !s.closed {
      var waiting := Waiting(s.pending, s.ids, |s.ids|);
      WaitingWaits(s.pending, s.ids, |s.ids|);
      var closing := AllClosed(waiting);
      forall t: nat | t < |s.ids| ensures Settled(s.settlements + closing, t) {
        SettledAppend(s.settlements, closing, t);
        if !Settled(s.settlements, t) {
          var k :| 0 <= k < |waiting| && waiting[k] == t;
          assert closing[k].ticket == t;
        }
      }
      var all, n := s.settlements + closing, |s.settlements|;
      forall i, j | 0 <= i < j < |all| ensures all[i].ticket != all[j].ticket {
        if i < n <= j {
          assert waiting[j - n] in waiting && Settled(s.settlements, all[i].ticket);
        }
      }
    }
  }

  /** Unless an id is reused too early, every step settles each request at most
      once, and keeps pending exactly the unsettled ones. */
  lemma StepKeepsExact(s: State, e: Event)
    requires Sound(s) && IsExact(s) && !Endangered(s) && Enabled(s, e) && !Reuses(s, e)
    ensures IsExact(Step(s, e)) && !Endangered(Step(s, e))
  {
    hide Exact;
    match e
    case Issue(generated, hasSignal, aborted, sendThrows) =>
      if Refused(s, aborted, generated).None? {
        var issued := Enter(s, generated.id, hasSignal);
        EnterKeepsExact(s, generated.id, hasSignal);
        EnterKeepsSound(s, generated.id, hasSignal);
        SettleKeepsExact(issued.pending, issued.ids, issued.settlements, generated.id, SendFailed);
      }
    case SendFails(t) =>
      if s.ids[t] in s.pending {
        SettleKeepsExact(s.pending, s.ids, s.settlements, s.ids[t], SendFailed);
      }
    case AbortFires(t) => SettleKeepsExact(s.pending, s.ids, s.settlements, s.ids[t], Aborted);
    case Receive(m) =>
      if !s.closed && m.Response? && m.id in s.pending {
        SettleKeepsExact(s.pending, s.ids, s.settlements, m.id, Malformed);
        SettleKeepsExact(s.pending, s.ids, s.settlements, m.id, Result);
        if m.errorCode.Some? {
          SettleKeepsExact(s.pending, s.ids, s.settlements, m.id, RemoteError(m.errorCode.value));
        }
      }
    case ChannelCloses => FinishKeepsExact(s);
    case _ =>
  }

  // --- Whole runs ---

  /** The events of a run, each possible when it happens. */
  ghost predicate Possible(s: State, events: seq<Event>)
    decreases |events|
  {
    events == [] || (Enabled(s, events[0]) && Possible(Step(s, events[0]), events[1..]))
  }

  function Run(s: State, events: seq<Event>): State
    requires Possible(s, events)
    decreases |events|
  {
    if events == [] then s else Run(Step(s, events[0]), events[1..])
  }

  /** No request of the run is issued under an id whose earlier send is still
      undecided. */
  ghost predicate Careful(s: State, events: seq<Event>)
    requires Possible(s, events)
    decreases |events|
  {
    events == [] || (!Reuses(s, events[0]) && Careful(Step(s, events[0]), events[1..]))
  }

  /** Over any careful run, however responses, send failures, aborts and close
      interleave, each request settles at most once and pending holds exactly
      the unsettled ones. */
  lemma {:induction false} CarefulRunsSettleExactlyOnce(s: State, events: seq<Event>)
    requires Sound(s) && IsExact(s) && !Endangered(s)
    requires Possible(s, events) && Careful(s, events)
    ensures var s' := Run(s, events); Sound(s') && IsExact(s') && !Endangered(s')
    decreases |events|
  {
    hide Sound, IsExact, Endangered, Reuses, Step;
    if events != [] {
      StepKeepsSound(s, events[0]);
      StepKeepsExact(s, events[0]);
      CarefulRunsSettleExactlyOnce(Step(s, events[0]), events[1..]);
    }
  }

  /** Once closed, pending is empty forever, and every request issued before has
      been settled. */
  lemma {:induction false} ClosedForGood(s: State, events: seq<Event>)
    requires Sound(s) && s.closed && Possible(s, events)
    ensures Run(s, events).closed && Run(s, events).pending == map[] && Run(s, events).ids == s.ids
    decreases |events|
  {
    if events != [] {
      StepKeepsSound(s, events[0]);
      ClosedForGood(Step(s, events[0]), events[1..]);
    }
  }

  /** A response settles the request of its own id, and no other. */
  lemma ResponseSettlesItsOwn(s: State, m: Message)
    requires Sound(s) && m.Response? && !s.closed
    ensures var s' := ReceiveMessage(s, m);
            if m.id in s.pending then
              && s'.settlements[..|s.settlements|] == s.settlements && |s'.settlements| == |s.settlements| + 1
              && s.ids[s'.settlements[|s.settlements|].ticket] == m.id
              && s'.pending == s.pending - {m.id}
              && s.pending[m.id] !in s'.listening
            else s' == s.(reports := s.reports + 1)
  {
  }

  lemma StartIsSound()
    ensures Sound(START) && IsExact(START) && !Endangered(START)
  {
  }

  /** Ids never used twice are used carefully, as those of the default counter. */
  ghost predicate FreshIds(s: State, events: seq<Event>)
    requires Possible(s, events)
    decreases |events|
  {
    events == [] ||
    (&& (events[0].Issue? && events[0].generated.Valid? ==> events[0].generated.id !in s.ids)
     && FreshIds(Step(s, events[0]), events[1..]))
  }

  lemma {:induction false} FreshIdsAreCareful(s: State, events: seq<Event>)
    requires Possible(s, events) && FreshIds(s, events)
    ensures Careful(s, events)
    decreases |events|
  {
    if events != [] {
      FreshIdsAreCareful(Step(s, events[0]), events[1..]);
    }
  }

  // --- The exact condition ---

  /** A late send failure closes over the id alone: it removes whatever entry the
      id has by then. Issuing a request keeps settlement exact under every later
      send failure if and only if no send under the same id is undecided. */
  lemma ReuseIsTheOnlyDanger(s: State, e: Event)
    requires Sound(s) && IsExact(s) && !Endangered(s)
    requires e.Issue? && Refused(s, e.aborted, e.generated).None? && !e.sendThrows
    ensures (forall t | t in Step(s, e).sending :: t < |Step(s, e).ids| && IsExact(FailSend(Step(s, e), t)))
            <==> !Reuses(s, e)
  {
    var s', newer := Step(s, e), |s.ids|;
    StepKeepsSound(s, e);
    if Reuses(s, e) {
      var t :| t in s.sending && t < |s.ids| && s.ids[t] == e.generated.id;
      EnterKeepsExact(s, e.generated.id, e.hasSignal);
      LateFailureLosesAnother(s', t, newer);
    } else {
      StepKeepsExact(s, e);
      forall t | t in s'.sending ensures t < |s'.ids| && IsExact(FailSend(s', t)) {
        EntriesAreIssued(s');
        StepKeepsExact(s', SendFails(t));
      }
    }
  }

  /** The request that took over the id loses its entry without being settled:
      its promise stays undecided for good, even across close. */
  lemma LateFailureLosesAnother(s: State, t: nat, other: nat)
    requires Sound(s) && t in s.sending && t < |s.ids| && other < |s.ids|
    requires s.ids[t] in s.pending && s.pending[s.ids[t]] == other != t
    requires !Settled(s.settlements, other)
    ensures var s' := FailSend(s, t);
            !IsExact(s') && !Settled(s'.settlements, other) && !Waits(s'.pending, s'.ids, other)
            && !Settled(Finish(s').settlements, other)
  {
    var s' := FailSend(s, t);
    assert s.ids[other] == s.ids[t];
    assert s'.settlements[|s.settlements|].ticket == t;
    assert s'.settlements == s.settlements + [Settlement(t, SendFailed)];
    SettledAppend(s.settlements, [Settlement(t, SendFailed)], other);
    assert !Waits(s'.pending, s'.ids, other);
    WaitingWaits(s'.pending, s'.ids, |s'.ids|);
    var closing := AllClosed(Waiting(s'.pending, s'.ids, |s'.ids|));
    SettledAppend(s'.settlements, closing, other);
    assert forall i | 0 <= i < |closing| :: closing[i].ticket in Waiting(s'.pending, s'.ids, |s'.ids|);
  }

  /** A concrete run that loses a request: two requests under one id, the first
      answered before its send fails. */
  lemma ReusedIdLosesARequest()
    ensures var id := Number(1.0);
            var first := Issue(Valid(id), false, false, false);
            var events := [first, Receive(Response(id, true, false, None)), first, SendFails(0)];
            && Possible(START, events)
            && Run(START, events).pending == map[]
            && !Settled(Run(START, events).settlements, 1)
  {
    var id := Number(1.0);
    var issue := Issue(Valid(id), false, false, false);
    var answer := Receive(Response(id, true, false, None));
    var s1 := Step(START, issue);
    var s2 := Step(s1, answer);
    var s3 := Step(s2, issue);
    var s4 := Step(s3, SendFails(0));
    assert s1.pending == map[id := 0] && s2.pending == map[] && s3.pending == map[id := 1];
    assert s4.pending == map[] && s4.settlements == [Settlement(0, Result), Settlement(0, SendFailed)];
    hide Step;
    OneStep(s3, SendFails(0), []);
    OneStep(s2, issue, [SendFails(0)]);
    OneStep(s1, answer, [issue, SendFails(0)]);
    OneStep(START, issue, [answer, issue, SendFails(0)]);
    assert [issue, SendFails(0)] == [issue] + [SendFails(0)];
    assert [answer, issue, SendFails(0)] == [answer] + [issue, SendFails(0)];
    assert [issue, answer, issue, SendFails(0)] == [issue] + [answer, issue, SendFails(0)];
    assert [SendFails(0)] == [SendFails(0)] + [];
  }

  lemma OneStep(s: State, e: Event, rest: seq<Event>)
    requires Enabled(s, e) && Possible(Step(s, e), rest)
    ensures Possible(s, [e] + rest) && Run(s, [e] + rest) == Run(Step(s, e), rest)
  {
    assert ([e] + rest)[1..] == rest;
  }

  // --- The transport ---

  class JsonRpcTransport {
    var closed: bool
    var pending: map<Id, nat>
    var ids: seq<Id>
    var listening: set<nat>
    var sending: set<nat>
    var settlements: seq<Settlement>
    var reports: nat

    ghost function View(): State
      reads this
    {
      State(closed, pending, ids, listening, sending, settlements, reports)
    }

    constructor ()
      ensures View() == START
    {
      closed, pending, ids, listening, sending, settlements, reports := false, map[], [], {}, {}, [], 0;
    }

    method Take(id: Id, ticket: nat, outcome: Outcome)
      requires id in pending
      modifies `pending, `listening, `settlements
      ensures View() == Settle(old(View()), id, ticket, outcome)
    {
      listening := listening - {pending[id]};
      pending := pending - {id};
      settlements := settlements + [Settlement(ticket, outcome)];
    }

    method Request(generated: GeneratedId, hasSignal: bool, aborted: bool, sendThrows: bool)
      returns (refusal: Option<Refusal>)
      modifies this
      ensures refusal == Refused(old(View()), aborted, generated)
      ensures View() == Step(old(View()), Issue(generated, hasSignal, aborted, sendThrows))
    {
      if closed {
        return Some(TransportClosed);
      }
      if aborted {
        return Some(AlreadyAborted);
      }
      if generated.Invalid? {
        return Some(InvalidId);
      }
      var id := generated.id;
      if id in pending {
        return Some(DuplicateId);
      }
      var ticket := |ids|;
      ids := ids + [id];
      pending := pending[id := ticket];
      if hasSignal {
        listening := listening + {ticket};
      }
      if sendThrows {
        Take(id, ticket, SendFailed);
      } else {
        sending := sending + {ticket};
      }
      return None;
    }

    method OnSendSettled(ticket: nat, failed: bool)
      requires ticket in sending && ticket < |ids|
      modifies this
      ensures View() == Step(old(View()), if failed then SendFails(ticket) else SendSucceeds(ticket))
    {
      sending := sending - {ticket};
      if failed && ids[ticket] in pending {
        Take(ids[ticket], ticket, SendFailed);
      }
    }

    method OnAbort(ticket: nat)
      requires ticket in listening && ticket < |ids|
      modifies this
      ensures View() == Step(old(View()), AbortFires(ticket))
    {
      listening := listening - {ticket};
      if ids[ticket] in pending {
        Take(ids[ticket], ticket, Aborted);
      }
    }

    method OnMessage(m: Message)
      modifies this
      ensures View() == Step(old(View()), Receive(m))
    {
      if closed {
        return;
      }
      match m {
        case NotJsonRpc => reports := reports + 1;
        case Notification(_) =>
        case NoId => reports := reports + 1;
        case Response(id, hasResult, hasError, errorCode) =>
          if id !in pending {
            reports := reports + 1;
          } else if hasResult == hasError || (hasError && errorCode.None?) {
            Take(id, pending[id], Malformed);
            reports := reports + 1;
          } else {
            Take(id, pending[id], if hasResult then Result else RemoteError(errorCode.value));
          }
      }
    }

    /** Local or remote close: every entry is rejected, in the order issued. */
    method Close()
      modifies this
      ensures View() == Step(old(View()), ChannelCloses)
    {
      if closed {
        return;
      }
      closed := true;
      var left := Waiting(pending, ids, |ids|);
      listening := listening - pending.Values;
      ghost var before := settlements;
      for i := 0 to |left|
        invariant settlements == before + AllClosed(left[..i])
        invariant closed && pending == old(pending) && ids == old(ids) && sending == old(sending)
                  && reports == old(reports)
        invariant listening == old(listening) - old(pending.Values)
      {
        assert AllClosed(left[..i + 1]) == AllClosed(left[..i]) + [Settlement(left[i], Closed)];
        settlements := settlements + [Settlement(left[i], Closed)];
      }
      assert left[..|left|] == left;
      pending := map[];
    }
  }
}
