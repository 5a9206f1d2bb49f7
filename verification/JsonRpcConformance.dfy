/** The repository's trace checker for JSON-RPC, and which runs of the transport
    pass it. */
module JsonRpcConformance {
  import opened Prelude
  import opened JsonRpc

  // --- The checker ---

  /** inspectJsonRpc's findings. */
  datatype Report = Report(duplicateRequest: bool, duplicateResponse: bool, uncorrelated: bool,
                           notificationWithId: bool, unanswered: bool)

  const CLEAN := Report(false, false, false, false, false)

  /** Requests and responses that leave nothing to report. */
  ghost predicate Passes(requests: seq<Id>, responses: seq<Id>) {
    && Distinct(requests) && Distinct(responses)
    && (forall id | id in responses :: id in requests) && forall id | id in requests :: id in responses
  }

  /** notifications: for each one observed, whether it has an id. */
  method InspectJsonRpc(requests: seq<Id>, responses: seq<Id>, notifications: seq<bool>) returns (r: Report)
    ensures r.duplicateRequest <==> !Distinct(requests)
    ensures r.duplicateResponse <==> !Distinct(responses)
    ensures r.uncorrelated <==> exists id :: id in responses && id !in requests
    ensures r.notificationWithId <==> true in notifications
    ensures r.unanswered <==> exists id :: id in requests && id !in responses
    ensures r == CLEAN <==> Passes(requests, responses) && true !in notifications
  {
    var requested, responded := set id | id in requests, set id | id in responses;
    SizeOfSet(requests);
    SizeOfSet(responses);
    var uncorrelated := AnyOutside(responses, requested);
    var unanswered := AnyOutside(requests, responded);
    r := Report(|requested| != |requests|, |responded| != |responses|, uncorrelated, true in notifications, unanswered);
  }

  /** some(id => !ids.has(id)). */
  method AnyOutside(wanted: seq<Id>, ids: set<Id>) returns (found: bool)
    ensures found <==> exists id :: id in wanted && id !in ids
  {
    found := false;
    for i := 0 to |wanted|
      invariant found <==> exists id :: id in wanted[..i] && id !in ids
    {
      assert wanted[..i + 1] == wanted[..i] + [wanted[i]];
      assert wanted[i] in wanted[..i + 1];
      if wanted[i] !in ids {
        found := true;
      }
    }
    assert wanted[..|wanted|] == wanted;
  }

  // --- The transport's runs ---

  /** The id of a response that found its request. */
  function Correlated(s: State, e: Event): seq<Id> {
    if e.Receive? && e.message.Response? && !s.closed && e.message.id in s.pending then [e.message.id] else []
  }

  function Responses(s: State, events: seq<Event>): seq<Id>
    requires Possible(s, events)
    decreases |events|
  {
    if events == [] then [] else Correlated(s, events[0]) + Responses(Step(s, events[0]), events[1..])
  }

  predicate ByResponse(outcome: Outcome) { outcome.Result? || outcome.RemoteError? || outcome.Malformed? }

  /** Request t was settled by a response. */
  ghost predicate Answered(settlements: seq<Settlement>, t: nat) {
    exists i :: 0 <= i < |settlements| && settlements[i].ticket == t && ByResponse(settlements[i].outcome)
  }

  /** The responses correlated so far belong to requests; and while no id is used
      twice, they are the ids of the answered requests, each once, and none of
      them is waited for. */
  ghost predicate Tracked(s: State, responses: seq<Id>) {
    && (forall id | id in responses :: id in s.ids)
    && (Distinct(s.ids) ==>
          && Distinct(responses)
          && (forall id | id in s.pending :: id !in responses)
          && forall t: nat | t < |s.ids| :: Answered(s.settlements, t) <==> s.ids[t] in responses)
  }

  lemma AnsweredSnoc(settlements: seq<Settlement>, last: Settlement)
    ensures forall t: nat :: Answered(settlements + [last], t) <==>
              Answered(settlements, t) || (last.ticket == t && ByResponse(last.outcome))
  {
    var all := settlements + [last];
    forall t: nat ensures Answered(all, t) <==>
          Answered(settlements, t) || (last.ticket == t && ByResponse(last.outcome)) {
      if Answered(settlements, t) {
        var i :| 0 <= i < |settlements| && settlements[i].ticket == t && ByResponse(settlements[i].outcome);
        assert all[i] == settlements[i];
      }
      if last.ticket == t && ByResponse(last.outcome) {
        assert all[|settlements|] == last;
      }
    }
  }

  lemma AnsweredMore(settlements: seq<Settlement>, more: seq<Settlement>)
    requires forall i | 0 <= i < |more| :: !ByResponse(more[i].outcome)
    ensures forall t: nat :: Answered(settlements + more, t) <==> Answered(settlements, t)
  {
    var all := settlements + more;
    forall t: nat ensures Answered(all, t) <==> Answered(settlements, t) {
      if Answered(settlements, t) {
        var i :| 0 <= i < |settlements| && settlements[i].ticket == t && ByResponse(settlements[i].outcome);
        assert all[i] == settlements[i];
      }
    }
  }

  lemma IssuingTracks(s: State, e: Event, responses: seq<Id>)
    requires Sound(s) && Tracked(s, responses) && e.Issue?
    ensures Tracked(Step(s, e), responses)
  {
    hide Answered;
    if Refused(s, e.aborted, e.generated).None? {
      var id, t, s' := e.generated.id, |s.ids|, Step(s, e);
      AnsweredSnoc(s.settlements, Settlement(t, SendFailed));
      assert s'.ids[t] == id;
      if Distinct(s'.ids) {
        assert forall i | 0 <= i < |s.ids| :: s.ids[i] == s'.ids[i];
        assert id !in s.ids;
        assert !Answered(s.settlements, t) by { Unissued(s, t); }
      }
    }
  }

  lemma Unissued(s: State, t: nat)
    requires Sound(s) && t >= |s.ids|
    ensures !Answered(s.settlements, t)
  {
  }

  lemma ReceivingTracks(s: State, e: Event, responses: seq<Id>)
    requires Sound(s) && Tracked(s, responses) && e.Receive?
    ensures Tracked(Step(s, e), responses + Correlated(s, e))
  {
    hide Answered;
    if Correlated(s, e) == [] {
      assert responses + [] == responses;
    } else {
      var id, t, s' := e.message.id, s.pending[e.message.id], Step(s, e);
      var last := s'.settlements[|s.settlements|];
      assert s'.settlements == s.settlements + [last] && last.ticket == t && ByResponse(last.outcome);
      AnsweredSnoc(s.settlements, last);
      assert s.ids[t] == id;
    }
  }

  lemma StepTracks(s: State, e: Event, responses: seq<Id>)
    requires Sound(s) && Tracked(s, responses) && Enabled(s, e)
    ensures Tracked(Step(s, e), responses + Correlated(s, e))
  {
    if e.Receive? {
      ReceivingTracks(s, e, responses);
    } else {
      assert responses + [] == responses;
      if e.Issue? {
        IssuingTracks(s, e, responses);
      } else if e.ChannelCloses? {
        AnsweredMore(s.settlements, AllClosed(Waiting(s.pending, s.ids, |s.ids|)));
        hide Answered;
      } else {
        AnsweredSnoc(s.settlements, Settlement(e.ticket, SendFailed));
        AnsweredSnoc(s.settlements, Settlement(e.ticket, Aborted));
        hide Answered;
      }
    }
  }

  lemma {:induction false} RunTracks(s: State, events: seq<Event>, responses: seq<Id>)
    requires Sound(s) && Tracked(s, responses) && Possible(s, events)
    ensures Tracked(Run(s, events), responses + Responses(s, events))
    decreases |events|
  {
    hide Sound, Tracked, Step, Correlated;
    if events == [] {
      assert responses + [] == responses;
    } else {
      StepKeepsSound(s, events[0]);
      StepTracks(s, events[0], responses);
      RunTracks(Step(s, events[0]), events[1..], responses + Correlated(s, events[0]));
      Associates(responses, Correlated(s, events[0]), Responses(Step(s, events[0]), events[1..]));
    }
  }

  /** Of every run, the checker finds no response that belongs to no request, and
      no repeated response unless a request id was; and it finds nothing at all if
      and only if no request id was used twice and every request was settled by a
      response. */
  lemma RunsConformExactly(events: seq<Event>)
    requires Possible(START, events)
    ensures var s, responses := Run(START, events), Responses(START, events);
            && (forall id | id in responses :: id in s.ids)
            && (Distinct(s.ids) ==> Distinct(responses))
            && (Passes(s.ids, responses) <==>
                  Distinct(s.ids) && forall t: nat | t < |s.ids| :: Answered(s.settlements, t))
  {
    StartIsSound();
    hide Answered, Run, Responses;
    RunTracks(START, events, []);
    var s, responses := Run(START, events), Responses(START, events);
    NothingBefore(responses);
    if Distinct(s.ids) && Passes(s.ids, responses) {
      forall t: nat | t < |s.ids| ensures Answered(s.settlements, t) {
        assert s.ids[t] in s.ids;
      }
    }
  }

  /** The default counter's ids are never used twice. */
  lemma {:induction false} FreshIdsAreDistinct(s: State, events: seq<Event>)
    requires Possible(s, events) && FreshIds(s, events) && Distinct(s.ids)
    ensures Distinct(Run(s, events).ids)
    decreases |events|
  {
    if events != [] {
      FreshIdsAreDistinct(Step(s, events[0]), events[1..]);
    }
  }
}
