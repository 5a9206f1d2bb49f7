/** The repository's own HTTP trace checker, and that every trace the transport
    can leave behind passes it. */
module HttpConformance {
  import opened Prelude
  import opened Text
  import opened Backoff
  import opened Headers
  import opened HttpTransport
  import HttpRetries

  datatype HttpObservation = HttpObservation(operationId: string, verb: Verb, attempt: int, status: Option<int>,
                                             idempotencyEligible: bool, idempotencyKey: Option<string>)

  datatype Issue = InvalidAttemptOrStatus | MutationReplayed | UnstableKey

  predicate ValidObservation(r: HttpObservation) {
    r.attempt >= 1 && (r.status.Some? ==> 100 <= r.status.value <= 599)
  }

  function Group(requests: seq<HttpObservation>, id: string): seq<HttpObservation> {
    if requests == [] then []
    else
      var last := requests[|requests| - 1];
      Group(requests[..|requests| - 1], id) + if last.operationId == id then [last] else []
  }

  function Mutations(requests: seq<HttpObservation>): seq<HttpObservation> {
    if requests == [] then []
    else
      var last := requests[|requests| - 1];
      Mutations(requests[..|requests| - 1]) + if Reads(last.verb) then [] else [last]
  }

  function TrimmedKey(r: HttpObservation): string {
    match r.idempotencyKey case None => "" case Some(key) => Trim(key)
  }

  predicate StableKey(mutations: seq<HttpObservation>) {
    forall r | r in mutations :: TrimmedKey(r) != "" && TrimmedKey(r) == TrimmedKey(mutations[0])
  }

  /** One operation's mutations: not repeated, or repeated under one key. */
  predicate OperationConforms(requests: seq<HttpObservation>) {
    var mutations := Mutations(requests);
    |mutations| < 2 || (StableKey(mutations) && forall r | r in mutations :: r.idempotencyEligible)
  }

  ghost predicate OperationsConform(requests: seq<HttpObservation>) {
    forall id :: OperationConforms(Group(requests, id))
  }

  ghost predicate HttpConforms(requests: seq<HttpObservation>) {
    (forall r | r in requests :: ValidObservation(r)) && OperationsConform(requests)
  }

  type Groups = map<string, seq<HttpObservation>>

  ghost predicate GroupedBy(operations: Groups, requests: seq<HttpObservation>) {
    forall id :: Group(requests, id) == if id in operations then operations[id] else []
  }

  lemma GroupSnoc(requests: seq<HttpObservation>, request: HttpObservation, id: string)
    ensures Group(requests + [request], id) == Group(requests, id) + if request.operationId == id then [request] else []
  {
    assert (requests + [request])[..|requests|] == requests;
  }

  method GroupByOperation(requests: seq<HttpObservation>) returns (operations: Groups, order: seq<string>)
    ensures GroupedBy(operations, requests)
    ensures forall id :: id in order <==> id in operations
  {
    hide Group;
    operations, order := map[], [];
    NothingGrouped();
    for i := 0 to |requests|
      invariant GroupedBy(operations, requests[..i])
      invariant forall id :: id in order <==> id in operations
    {
      var request := requests[i];
      assert requests[..i + 1] == requests[..i] + [request];
      forall id ensures Group(requests[..i + 1], id) ==
                        Group(requests[..i], id) + if request.operationId == id then [request] else []
      {
        GroupSnoc(requests[..i], request, id);
      }
      var id := request.operationId;
      if id !in operations {
        order := order + [id];
      }
      var grouped := if id in operations then operations[id] else [];
      operations := operations[id := grouped + [request]];
    }
    assert requests[..|requests|] == requests;
  }

  lemma NothingGrouped()
    ensures GroupedBy(map[], [])
  {
  }

  method CheckOperations(operations: Groups, order: seq<string>) returns (issues: seq<Issue>)
    requires forall id | id in order :: id in operations
    ensures issues == [] <==> forall k | 0 <= k < |order| :: OperationConforms(operations[order[k]])
  {
    issues := [];
    for i := 0 to |order|
      invariant issues == [] <==> forall k | 0 <= k < i :: OperationConforms(operations[order[k]])
    {
      var mutations := Mutations(operations[order[i]]);
      if |mutations| < 2 {
        continue;
      }
      if exists r | r in mutations :: !r.idempotencyEligible {
        issues := issues + [MutationReplayed];
      } else if !StableKey(mutations) {
        issues := issues + [UnstableKey];
      }
    }
  }

  method HighestAttempt(requests: seq<HttpObservation>) returns (attempts: int)
    ensures attempts >= 0 && forall r | r in requests :: r.attempt <= attempts
    ensures attempts > 0 ==> exists r | r in requests :: r.attempt == attempts
  {
    attempts := 0;
    for i := 0 to |requests|
      invariant attempts >= 0 && forall k | 0 <= k < i :: requests[k].attempt <= attempts
      invariant attempts > 0 ==> exists r | r in requests :: r.attempt == attempts
    {
      attempts := Max(attempts, requests[i].attempt);
    }
  }

  method InspectHttp(requests: seq<HttpObservation>) returns (issues: seq<Issue>, attempts: int)
    ensures issues == [] <==> HttpConforms(requests)
    ensures attempts >= 0 && forall r | r in requests :: r.attempt <= attempts
    ensures attempts > 0 ==> exists r | r in requests :: r.attempt == attempts
  {
    issues := [];
    for i := 0 to |requests|
      invariant issues == [] && forall k | 0 <= k < i :: ValidObservation(requests[k])
    {
      if !ValidObservation(requests[i]) {
        issues := [InvalidAttemptOrStatus];
        break;
      }
    }
    var operations, order := GroupByOperation(requests);
    var found := CheckOperations(operations, order);
    EveryOperation(requests, operations, order);
    issues := issues + found;
    attempts := HighestAttempt(requests);
  }

  lemma EveryOperation(requests: seq<HttpObservation>, operations: Groups, order: seq<string>)
    requires GroupedBy(operations, requests)
    requires forall id :: id in order <==> id in operations
    ensures OperationsConform(requests) <==> forall k | 0 <= k < |order| :: OperationConforms(operations[order[k]])
  {
    hide OperationConforms, Group;
    NothingConforms();
    if forall k | 0 <= k < |order| :: OperationConforms(operations[order[k]]) {
      forall id ensures OperationConforms(Group(requests, id)) {
        if id in order {
          var k :| 0 <= k < |order| && order[k] == id;
        }
      }
    }
    if OperationsConform(requests) {
      forall k | 0 <= k < |order| ensures OperationConforms(operations[order[k]]) {
        assert order[k] in order;
        assert OperationConforms(Group(requests, order[k]));
      }
    }
  }

  lemma NothingConforms()
    ensures OperationConforms([])
  {
  }

  // --- What it means to pass ---

  predicate Changes(verb: Verb) { verb == POST || verb == PUT || verb == PATCH || verb == DELETE }

  /** Two executions of one operation that may both change something. */
  predicate Repeats(a: HttpObservation, b: HttpObservation) {
    a.operationId == b.operationId && Changes(a.verb) && Changes(b.verb)
  }

  /** Both carry the same key, and it says something. */
  predicate SameKey(a: HttpObservation, b: HttpObservation) {
    && a.idempotencyEligible && b.idempotencyEligible
    && a.idempotencyKey.Some? && b.idempotencyKey.Some? && Trim(a.idempotencyKey.value) != ""
    && Trim(a.idempotencyKey.value) == Trim(b.idempotencyKey.value)
  }

  ghost predicate RepeatsAreKeyed(requests: seq<HttpObservation>) {
    forall i, j | 0 <= i < j < |requests| && Repeats(requests[i], requests[j]) :: SameKey(requests[i], requests[j])
  }

  ghost predicate RepeatsOf(requests: seq<HttpObservation>, id: string) {
    forall i, j | 0 <= i < j < |requests| && requests[i].operationId == id && Repeats(requests[i], requests[j]) ::
      SameKey(requests[i], requests[j])
  }

  lemma {:induction false} MutationsOf(requests: seq<HttpObservation>, id: string)
    ensures forall r :: r in Mutations(Group(requests, id)) <==> r in requests && r.operationId == id && Changes(r.verb)
  {
    if requests != [] {
      var init, last := requests[..|requests| - 1], requests[|requests| - 1];
      MutationsOf(init, id);
      assert requests == init + [last];
      MutationsSnoc(init, last, id);
    }
  }

  lemma MutationsSnoc(init: seq<HttpObservation>, last: HttpObservation, id: string)
    ensures Mutations(Group(init + [last], id)) ==
            Mutations(Group(init, id)) + if last.operationId == id && Changes(last.verb) then [last] else []
  {
    GroupSnoc(init, last, id);
    var before := Group(init, id);
    assert before + [] == before;
    assert (before + [last])[..|before|] == before;
    assert Changes(last.verb) <==> !Reads(last.verb);
    assert Mutations(before) + [] == Mutations(before);
  }

  lemma {:induction false} OperationExactly(requests: seq<HttpObservation>, id: string)
    ensures OperationConforms(Group(requests, id)) <==> RepeatsOf(requests, id)
  {
    hide Mutations, Group, Repeats, SameKey;
    if requests == [] {
      NothingGrouped();
      NothingConforms();
    } else {
      var init, last := requests[..|requests| - 1], requests[|requests| - 1];
      assert requests == init + [last];
      OperationExactly(init, id);
      MutationsSnoc(init, last, id);
      MutationsOf(init, id);
      RepeatsSnoc(init, last, id);
      if last.operationId == id && Changes(last.verb) {
        OneMoreMutation(Mutations(Group(init, id)), last);
        KeysAgree(init, last, id);
      } else {
        assert Mutations(Group(init, id)) + [] == Mutations(Group(init, id));
      }
    }
  }

  lemma OneMoreMutation(before: seq<HttpObservation>, last: HttpObservation)
    ensures var all := before + [last];
            (|all| < 2 || (StableKey(all) && forall r | r in all :: r.idempotencyEligible)) <==>
            forall r | r in before :: SameKey(r, last)
  {
    var all := before + [last];
    assert forall r :: r in all <==> r in before || r == last;
    assert last in all;
    if before != [] {
      assert all[0] == before[0] && before[0] in before;
      assert SameKey(before[0], last) ==> TrimmedKey(before[0]) == TrimmedKey(last) != "";
      forall r | r in before && StableKey(all) && r.idempotencyEligible && last.idempotencyEligible
        ensures SameKey(r, last)
      {
        assert r in all;
      }
    }
  }

  /** Pairs of a longer list: those there were, and those with the last. */
  lemma RepeatsSnoc(init: seq<HttpObservation>, last: HttpObservation, id: string)
    ensures RepeatsOf(init + [last], id) <==>
            RepeatsOf(init, id) &&
            (last.operationId == id && Changes(last.verb) ==>
             forall r | r in init && r.operationId == id && Changes(r.verb) :: SameKey(r, last))
  {
    hide SameKey;
    var all := init + [last];
    if RepeatsOf(all, id) {
      forall i, j | 0 <= i < j < |init| && init[i].operationId == id && Repeats(init[i], init[j])
        ensures SameKey(init[i], init[j])
      {
        assert all[i] == init[i] && all[j] == init[j];
      }
      if last.operationId == id && Changes(last.verb) {
        forall r | r in init && r.operationId == id && Changes(r.verb) ensures SameKey(r, last) {
          var i :| 0 <= i < |init| && init[i] == r;
          assert all[i] == r && all[|init|] == last && Repeats(all[i], all[|init|]);
        }
      }
    }
  }

  lemma KeysAgree(init: seq<HttpObservation>, last: HttpObservation, id: string)
    ensures (forall r | r in init && r.operationId == id && Changes(r.verb) :: SameKey(r, last)) ==> RepeatsOf(init, id)
  {
  }

  /** Observations conform exactly if each is in range, and any two executions of one
      operation by POST, PUT, PATCH or DELETE carry the same key. */
  lemma ConformsExactly(requests: seq<HttpObservation>)
    ensures HttpConforms(requests) <==>
            (forall r | r in requests :: ValidObservation(r)) && RepeatsAreKeyed(requests)
  {
    forall id ensures OperationConforms(Group(requests, id)) <==> RepeatsOf(requests, id) {
      OperationExactly(requests, id);
    }
    hide OperationConforms, Group, SameKey;
    if RepeatsAreKeyed(requests) {
      assert forall id :: RepeatsOf(requests, id);
    }
    if OperationsConform(requests) {
      forall i, j | 0 <= i < j < |requests| && Repeats(requests[i], requests[j])
        ensures SameKey(requests[i], requests[j])
      {
        assert OperationConforms(Group(requests, requests[i].operationId));
      }
    }
  }

  // --- What the transport leaves behind ---

  /** What a fixture records of one execution of a request: the key is read off
      the headers it saw. */
  function Observe(request: Request, e: Execution, headers: Dictionary, lower: Lower): HttpObservation {
    var key := Lookup(headers, "idempotency-key", lower);
    HttpObservation(request.operationId, request.verb, e.attempt,
                    if e.response.Answer? then Some(e.response.status) else None, key.Some?, key)
  }

  /** The observations of one request under a policy. */
  ghost predicate RequestTrace(obs: seq<HttpObservation>, request: Request, maxAttempts: int) {
    && (|obs| <= maxAttempts || obs == [])
    && (OperationSafety(request.verb, NormalizeIdempotencyKey(request.idempotencyKey)).Mutation? ==> |obs| <= 1)
    && forall i | 0 <= i < |obs| ::
         && obs[i].attempt == i + 1
         && ValidObservation(obs[i])
         && obs[i].operationId == request.operationId && obs[i].verb == request.verb
         && obs[i].idempotencyKey == NormalizeIdempotencyKey(request.idempotencyKey)
         && obs[i].idempotencyEligible == obs[i].idempotencyKey.Some?
  }

  /** fetch only produces statuses in this range. */
  ghost predicate RealStatuses(circumstances: int -> Circumstance) {
    forall n :: circumstances(n).response.Answer? ==> 100 <= circumstances(n).response.status <= 599
  }

  /** A request, and what is observed on the wire: whatever headers the defaults,
      the request and each attempt's authentication supply, every execution
      carries the request's own trimmed key, or none. */
  method HttpRequest(request: Request, defaults: Dictionary, policy: RetryPolicy, circumstances: int -> Circumstance,
                     lower: Lower)
    returns (observations: seq<HttpObservation>, result: Result)
    requires RealStatuses(circumstances) && FoldsNames(lower)
    ensures RequestTrace(observations, request, policy.maxAttempts)
    ensures result.Returned? ==> observations != [] && observations[|observations| - 1].status == Some(result.status)
    ensures ValidPolicy(policy) ==>
              exists trace :: |trace| == |observations|
                              && HttpRetries.Requested(request, trace, result, policy, circumstances)
  {
    hide SettledAt;
    var key := NormalizeIdempotencyKey(request.idempotencyKey);
    var trace, pauses;
    trace, pauses, result := RunTransportAttempts(OperationSafety(request.verb, key), policy, circumstances);
    observations := [];
    for i := 0 to |trace|
      invariant |observations| == i && forall k | 0 <= k < i :: ObservedAs(observations[k], trace[k], request)
    {
      var headers := MergeHttpHeaders(defaults, request.headers, trace[i].auth, key, lower);
      observations := observations + [Observe(request, trace[i], headers, lower)];
    }
    forall i | 0 <= i < |trace| ensures ValidObservation(observations[i]) {
      assert RanAs(trace[i], circumstances(i + 1));
    }
  }

  ghost predicate ObservedAs(o: HttpObservation, e: Execution, request: Request) {
    && o.attempt == e.attempt && o.status == (if e.response.Answer? then Some(e.response.status) else None)
    && o.operationId == request.operationId && o.verb == request.verb
    && o.idempotencyKey == NormalizeIdempotencyKey(request.idempotencyKey)
    && o.idempotencyEligible == o.idempotencyKey.Some?
  }

  lemma {:induction false} MutationsAreMembers(requests: seq<HttpObservation>)
    ensures |Mutations(requests)| <= |requests|
    ensures forall r | r in Mutations(requests) :: r in requests && !Reads(r.verb)
  {
    if requests != [] {
      MutationsAreMembers(requests[..|requests| - 1]);
    }
  }

  lemma {:induction false} GroupsAreMembers(requests: seq<HttpObservation>, id: string)
    ensures forall r :: r in Group(requests, id) <==> r in requests && r.operationId == id
    ensures (forall r | r in requests :: r.operationId != id) ==> Group(requests, id) == []
  {
    if requests != [] {
      var init, last := requests[..|requests| - 1], requests[|requests| - 1];
      GroupsAreMembers(init, id);
      assert init + [last] == requests;
      assert forall r :: r in requests <==> r in init || r == last;
    }
  }

  lemma RequestConforms(obs: seq<HttpObservation>, request: Request, maxAttempts: int)
    requires RequestTrace(obs, request, maxAttempts)
    ensures OperationConforms(obs)
  {
    MutationsAreMembers(obs);
    var mutations, key := Mutations(obs), NormalizeIdempotencyKey(request.idempotencyKey);
    if |mutations| >= 2 {
      assert mutations[0] in obs;
      if key.Some? {
        TrimIdempotent(request.idempotencyKey.value);
        forall r | r in mutations ensures TrimmedKey(r) == key.value && r.idempotencyEligible {
          assert r in obs;
        }
      }
    }
  }

  /** However the observations of any number of concurrent requests interleave,
      the checker finds nothing, and no attempt count beyond the limit. */
  lemma TransportTracesConform(all: seq<HttpObservation>, requests: map<string, Request>, maxAttempts: int)
    requires forall r | r in all :: r.operationId in requests
    requires forall id | id in requests :: RequestTrace(Group(all, id), requests[id], maxAttempts)
    ensures HttpConforms(all)
    ensures forall r | r in all :: r.attempt <= maxAttempts
  {
    hide OperationConforms, Group;
    forall id ensures OperationConforms(Group(all, id)) {
      GroupsAreMembers(all, id);
      if id in requests {
        RequestConforms(Group(all, id), requests[id], maxAttempts);
      } else {
        NothingConforms();
      }
    }
    forall r | r in all ensures ValidObservation(r) && r.attempt <= maxAttempts {
      GroupsAreMembers(all, r.operationId);
      assert r in Group(all, r.operationId);
    }
  }
}
