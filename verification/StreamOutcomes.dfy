/** What a streamRun call reports, told by the callbacks its caller got and by what
    the gateway and the provider did. */
module StreamOutcomes {
  import opened Prelude
  import opened StreamCalls
  import opened StreamRuns

  /** The terminal, details included, of the last event that carries one. */
  function LastTerminal(seen: seq<Callback>): Option<Terminal> {
    if seen == [] then None
    else
      var last := seen[|seen| - 1];
      if last.EventSeen? && last.event.terminal.Some? then last.event.terminal else LastTerminal(seen[..|seen| - 1])
  }

  /** The last error that ends a stream. */
  function LastError(seen: seq<Callback>): Option<Error> {
    if seen == [] then None
    else
      var last := seen[|seen| - 1];
      if FatalError(last) then Some(last.error) else LastError(seen[..|seen| - 1])
  }

  /** The first run id that says something. */
  function FirstId(seen: seq<Callback>): Option<string> {
    if seen == [] then None
    else
      var before, last := FirstId(seen[..|seen| - 1]), seen[|seen| - 1];
      if before.Some? then before
      else if last.EventSeen? && last.event.runId != "" then Some(last.event.runId) else None
  }

  /** The id startRun returned counts before any event's. */
  function KnownId(returned: Option<string>, seen: seq<Callback>): Option<string> {
    if returned.Some? && returned.value != "" then returned else FirstId(seen)
  }

  /** The error a settled promise rejects with: an absent one is replaced. */
  function Thrown(error: Error): Error { if error.Absent? then OtherError else error }

  lemma SeenSnoc(seen: seq<Callback>, callback: Callback)
    ensures LastTerminal(seen + [callback]) == if callback.EventSeen? && callback.event.terminal.Some?
            then callback.event.terminal else LastTerminal(seen)
    ensures LastError(seen + [callback]) == if FatalError(callback) then Some(callback.error) else LastError(seen)
    ensures FirstId(seen + [callback]) == if FirstId(seen).Some? then FirstId(seen)
            else if callback.EventSeen? && callback.event.runId != "" then Some(callback.event.runId) else None
  {
    assert (seen + [callback])[..|seen|] == seen;
  }

  /** The facade's variables say what the caller saw. */
  ghost predicate Observes(o: Observed, seen: seq<Callback>) {
    && o.outcome == LastTerminal(seen)
    && (if o.sawError then LastError(seen) == Some(o.lastError) else LastError(seen).None?)
    && o.runId == KnownId(o.returned, seen)
  }

  // --- One step ---

  /** Exactly what a step passes on to the caller: whatever the provider calls back
      with, until the bridge settled, and the completion that belongs to a terminal
      event. */
  lemma CallbacksExactly(c: Call, step: Step, disposed: bool, callerAborted: bool, canCancel: bool)
    requires Sound(c, canCancel) && Enabled(c, step)
    ensures Take(c, step, disposed, callerAborted, canCancel).stream.seen == c.stream.seen +
            if c.stream.settled then []
            else if step.OnEvent? then
              [EventSeen(step.event)] + if step.event.terminal.Some? then [CompleteSeen] else []
            else if step.OnError? then [ErrorSeen(step.error, step.nonTerminal)]
            else if step.OnComplete? then [CompleteSeen] else []
  {
    assert c.stream.seen + [] == c.stream.seen;
    assert c.stream.completeFired ==> c.stream.settled;
    hide Sound;
    if step.OnEvent? && !c.stream.settled {
      hide Finish;
      EventPassedOn(c.stream, step.event);
    } else if step.GateSettles? || step.StartRunSettles? {
    } else {
      hide Enter, StartSettles, EndOf;
    }
  }

  lemma EventPassedOn(t: Stream, event: RunEvent)
    requires !t.settled && !t.completeFired
    ensures EventInStream(t, event).seen ==
            t.seen + ([EventSeen(event)] + if event.terminal.Some? then [CompleteSeen] else [])
  {
    Associates(t.seen, [EventSeen(event)], if event.terminal.Some? then [CompleteSeen] else []);
    assert t.seen + [EventSeen(event)] + [] == t.seen + [EventSeen(event)];
  }

  /** What settles a bridge that is not settled. */
  predicate Settling(c: Call, step: Step) {
    || (step.OnEvent? && step.event.terminal.Some?)
    || (step.OnError? && !step.nonTerminal)
    || step.OnComplete?
    || (step.SubscribePromise? && step.failure.Some?)
    || (step.SignalCheck? && c.tracking.aborted)
  }

  /** What a stream that was not settled has become: settled with this, or not. */
  predicate Became(t: Stream, t': Stream, settlement: Option<Settlement>) {
    && t'.settled == settlement.Some?
    && t'.promise == if t.promise.Some? then t.promise else settlement
  }

  /** What the step settles the bridge with: a terminal error or a subscription that
      fails reject, anything else resolves. */
  function SettlingWith(c: Call, step: Step): Option<Settlement> {
    if !Settling(c, step) then None
    else if step.OnError? then Some(Rejected(Thrown(step.error)))
    else if step.SubscribePromise? && !step.failure.value.Absent? then Some(Rejected(step.failure.value))
    else Some(Resolved)
  }

  /** Exactly what settles the bridge, and how its promise fares, unless a subscribe
      that threw has rejected it before. */
  lemma SettlesExactly(c: Call, step: Step, disposed: bool, callerAborted: bool, canCancel: bool)
    requires Sound(c, canCancel) && Enabled(c, step) && c.stage.Streaming? && !c.stream.settled
    ensures Became(c.stream, Take(c, step, disposed, callerAborted, canCancel).stream, SettlingWith(c, step))
  {
    hide Sound, EventInStream, ErrorInStream, CompleteInStream, SubscribeSettles, CheckAborted, Enter, StartSettles,
         EndOf, ObserveEvent, ObserveError;
    var t := c.stream;
    if step.OnEvent? {
      EventSettles(t, step.event);
    } else if step.OnError? {
      ErrorSettles(t, step.error, step.nonTerminal);
    } else if step.OnComplete? {
      CompletionSettles(t);
    } else if step.SubscribePromise? {
      SubscriptionSettles(t, step.failure);
    } else if step.SignalCheck? {
      CheckSettles(t, c.tracking.aborted);
    }
  }

  lemma EventSettles(t: Stream, event: RunEvent)
    requires !t.settled
    ensures Became(t, EventInStream(t, event), if event.terminal.Some? then Some(Resolved) else None)
  {
    hide Finish;
    FinishSettles(FireComplete(t.(seen := t.seen + [EventSeen(event)])), Absent);
  }

  lemma ErrorSettles(t: Stream, error: Error, nonTerminal: bool)
    requires !t.settled
    ensures Became(t, ErrorInStream(t, error, nonTerminal), if nonTerminal then None else Some(Rejected(Thrown(error))))
  {
    hide Finish;
    FinishSettles(t.(seen := t.seen + [ErrorSeen(error, nonTerminal)]), Thrown(error));
  }

  lemma CompletionSettles(t: Stream)
    requires !t.settled
    ensures Became(t, CompleteInStream(t), Some(Resolved))
  {
    hide Finish;
    FinishSettles(FireComplete(t), Absent);
  }

  lemma SubscriptionSettles(t: Stream, failure: Option<Error>)
    requires !t.settled
    ensures Became(t, SubscribeSettles(t, failure),
                   if failure.None? then None
                   else if failure.value.Absent? then Some(Resolved) else Some(Rejected(failure.value)))
  {
    hide Finish;
    if failure.Some? {
      FinishSettles(t.(subscribing := false), failure.value);
    }
  }

  lemma CheckSettles(t: Stream, aborted: bool)
    requires !t.settled
    ensures Became(t, CheckAborted(t, aborted), if aborted then Some(Resolved) else None)
  {
    hide Finish;
    FinishSettles(t.(checked := true), Absent);
  }

  lemma FinishSettles(t: Stream, error: Error)
    requires !t.settled
    ensures Finish(t, error).settled
    ensures Finish(t, error).promise == if t.promise.Some? then t.promise
            else Some(if error.Absent? then Resolved else Rejected(error))
  {
  }

  /** An abort settles a stream that is being listened for, without an error. */
  lemma AbortSettlesExactly(c: Call, canCancel: bool)
    requires Sound(c, canCancel) && !c.tracking.aborted
    ensures var t := Abort(c).stream;
            && t.seen == c.stream.seen && (t.settled <==> c.stream.settled || c.stream.listening)
            && t.promise == if c.stream.listening && c.stream.promise.None? then Some(Resolved)
                            else c.stream.promise
  {
    hide Scan, Booked, Concluded, Staged;
  }

  // --- What the events of a run say about call i ---

  /** The step belongs to call i. */
  predicate StepOf(e: Event, i: nat) { e.CallSteps? && e.call == i }

  /** The id startRun returned. */
  function StartedId(events: seq<Event>, i: nat): Option<string> {
    if events == [] then None
    else
      var last := events[|events| - 1];
      if StepOf(last, i) && last.step.StartRunSettles? && !last.step.started.StartFails?
      then Some(last.step.started.runId) else StartedId(events[..|events| - 1], i)
  }

  /** The event fails call i with this error: its validation, startRun, its
      provider or its subscription did. */
  predicate Fails(e: Event, i: nat, error: Error) {
    StepOf(e, i) &&
    match e.step
    case GateSettles(_, invalid) => invalid == Some(error)
    case StartRunSettles(started) => !started.Subscribing? && started.error == error
    case SubscribePromise(failure) => failure == Some(error)
    case _ => false
  }

  ghost predicate Failed(events: seq<Event>, i: nat, error: Error) {
    exists k :: 0 <= k < |events| && Fails(events[k], i, error)
  }

  /** What call i is in says what the events were. */
  ghost predicate Remembers(c: Call, events: seq<Event>, i: nat) {
    && c.observed.returned == StartedId(events, i) && Observes(c.observed, c.stream.seen)
    && (c.stream.promise.Some? && c.stream.promise.value.Rejected? ==>
          || Failed(events, i, c.stream.promise.value.error)
          || (!c.stream.threw && LastError(c.stream.seen).Some?
              && c.stream.promise.value.error == Thrown(LastError(c.stream.seen).value)))
  }

  ghost predicate AllRemember(s: State, events: seq<Event>) {
    && (forall i | 0 <= i < |s.calls| :: Remembers(s.calls[i], events, i))
    && forall i: nat | i >= |s.calls| :: StartedId(events, i).None?
  }

  lemma {:induction false} RunInParts(s: State, canCancel: bool, a: seq<Event>, b: seq<Event>)
    requires CanHappen(s, canCancel, a + b)
    ensures CanHappen(s, canCancel, a) && CanHappen(Run(s, canCancel, a), canCancel, b)
    ensures Run(s, canCancel, a + b) == Run(Run(s, canCancel, a), canCancel, b)
    decreases |a|
  {
    hide Next;
    if a == [] {
      assert a + b == b;
    } else {
      assert (a + b)[1..] == a[1..] + b;
      RunInParts(Next(s, canCancel, a[0]), canCancel, a[1..], b);
    }
  }

  lemma FailedGrows(events: seq<Event>, e: Event, i: nat, error: Error)
    ensures Failed(events, i, error) || Fails(e, i, error) ==> Failed(events + [e], i, error)
  {
    var all := events + [e];
    if k :| 0 <= k < |events| && Fails(events[k], i, error) {
      assert all[k] == events[k];
    }
    assert all[|events|] == e;
  }

  /** An event that leaves what call i saw, and rejects its promise only by failing
      it. */
  lemma LeftRemembering(c: Call, c': Call, events: seq<Event>, e: Event, i: nat)
    requires Remembers(c, events, i) && StartedId(events + [e], i) == StartedId(events, i)
    requires c'.observed == c.observed && c'.stream.seen == c.stream.seen && c'.stream.threw == c.stream.threw
    requires var to := c'.stream.promise;
             to == c.stream.promise || to == Some(Resolved) ||
             (to.Some? && to.value.Rejected? && Fails(e, i, to.value.error))
    ensures Remembers(c', events + [e], i)
  {
    hide Observes, LastError, Failed, Fails;
    if c'.stream.promise.Some? && c'.stream.promise.value.Rejected? {
      FailedGrows(events, e, i, c'.stream.promise.value.error);
    }
  }

  lemma AbortingLeaves(c: Call)
    ensures Abort(c).observed == c.observed && Abort(c).stream.seen == c.stream.seen
    ensures Abort(c).stream.threw == c.stream.threw
    ensures Abort(c).stream.promise == c.stream.promise || Abort(c).stream.promise == Some(Resolved)
  {
  }

  lemma NewCallRemembers(signal: Option<nat>, events: seq<Event>, i: nat)
    requires StartedId(events, i).None?
    ensures Remembers(NewCall(signal), events, i)
  {
  }

  lemma StartedIdSnoc(events: seq<Event>, e: Event, i: nat)
    ensures StartedId(events + [e], i) ==
            if StepOf(e, i) && e.step.StartRunSettles? && !e.step.started.StartFails? then Some(e.step.started.runId)
            else StartedId(events, i)
  {
    assert (events + [e])[..|events|] == events;
  }

  lemma StartingRemembers(c: Call, events: seq<Event>, i: nat, step: Step, disposed: bool, callerAborted: bool,
                          canCancel: bool)
    requires Sound(c, canCancel) && Enabled(c, step) && Remembers(c, events, i)
    requires step.GateSettles? || step.StartRunSettles?
    ensures Remembers(Take(c, step, disposed, callerAborted, canCancel), events + [CallSteps(i, step)], i)
  {
    var e, c' := CallSteps(i, step), Take(c, step, disposed, callerAborted, canCancel);
    StartedIdSnoc(events, e, i);
    if step.GateSettles? {
      hide Sound, Remembers, StartedId;
      LeftRemembering(c, c', events, e, i);
    } else {
      assert c.stream.seen == [] && !c.stream.threw by { hide Remembers; }
      hide Sound, Failed;
      if c'.stream.promise.Some? && c'.stream.promise.value.Rejected? {
        FailedGrows(events, e, i, c'.stream.promise.value.error);
      }
    }
  }

  /** What the observer makes of a callback is what the callbacks then say. */
  lemma EventObserved(o: Observed, seen: seq<Callback>, event: RunEvent)
    requires Observes(o, seen)
    ensures Observes(ObserveEvent(o, event), seen + [EventSeen(event)])
    ensures Observes(ObserveEvent(o, event), seen + [EventSeen(event), CompleteSeen])
  {
    SeenSnoc(seen, EventSeen(event));
    SeenSnoc(seen + [EventSeen(event)], CompleteSeen);
    assert seen + [EventSeen(event), CompleteSeen] == seen + [EventSeen(event)] + [CompleteSeen];
  }

  lemma ErrorObserved(o: Observed, seen: seq<Callback>, error: Error, nonTerminal: bool)
    requires Observes(o, seen)
    ensures Observes(ObserveError(o, error, nonTerminal), seen + [ErrorSeen(error, nonTerminal)])
  {
    SeenSnoc(seen, ErrorSeen(error, nonTerminal));
  }

  lemma CallbackObserved(c: Call, step: Step, disposed: bool, callerAborted: bool, canCancel: bool)
    requires Sound(c, canCancel) && Enabled(c, step) && Observes(c.observed, c.stream.seen)
    requires step.OnEvent? || step.OnError? || step.OnComplete?
    ensures var c' := Take(c, step, disposed, callerAborted, canCancel);
            Observes(c'.observed, c'.stream.seen) && c'.observed.returned == c.observed.returned
  {
    hide Observes, Sound;
    CallbacksExactly(c, step, disposed, callerAborted, canCancel);
    var seen := c.stream.seen;
    if c.stream.settled {
      assert seen + [] == seen;
    } else if step.OnEvent? {
      EventObserved(c.observed, seen, step.event);
      assert [EventSeen(step.event)] + [CompleteSeen] == [EventSeen(step.event), CompleteSeen];
      assert [EventSeen(step.event)] + [] == [EventSeen(step.event)];
    } else if step.OnError? {
      ErrorObserved(c.observed, seen, step.error, step.nonTerminal);
    } else {
      CompletionObserved(c.observed, seen);
    }
  }

  lemma CompletionObserved(o: Observed, seen: seq<Callback>)
    requires Observes(o, seen)
    ensures Observes(o, seen + [CompleteSeen])
  {
    SeenSnoc(seen, CompleteSeen);
  }

  /** A callback leaves a settled promise, and rejects another only with the terminal
      error it brings. */
  lemma CallbackRejects(c: Call, step: Step, disposed: bool, callerAborted: bool, canCancel: bool)
    requires Sound(c, canCancel) && Enabled(c, step) && (step.OnEvent? || step.OnError? || step.OnComplete?)
    ensures var t := Take(c, step, disposed, callerAborted, canCancel).stream;
            && t.threw == c.stream.threw && (c.stream.promise.Some? ==> t.promise == c.stream.promise)
            && (c.stream.settled ==> t.seen == c.stream.seen)
            && (c.stream.promise.None? && t.promise.Some? && t.promise.value.Rejected? ==>
                && step.OnError? && !step.nonTerminal && t.promise.value.error == Thrown(step.error) && !t.threw
                && LastError(t.seen) == Some(step.error))
  {
    assert c.stream.threw ==> c.stream.promise.Some? by { hide Scan, Booked, Concluded, Staged; }
    CallbacksExactly(c, step, disposed, callerAborted, canCancel);
    assert c.stream.seen + [] == c.stream.seen;
    if step.OnError? {
      SeenSnoc(c.stream.seen, ErrorSeen(step.error, step.nonTerminal));
    }
    hide Sound, LastError, ObserveEvent, ObserveError;
  }

  lemma CallbackRemembers(c: Call, events: seq<Event>, i: nat, step: Step, disposed: bool, callerAborted: bool,
                          canCancel: bool)
    requires Sound(c, canCancel) && Enabled(c, step) && Remembers(c, events, i)
    requires step.OnEvent? || step.OnError? || step.OnComplete?
    ensures Remembers(Take(c, step, disposed, callerAborted, canCancel), events + [CallSteps(i, step)], i)
  {
    var e, c' := CallSteps(i, step), Take(c, step, disposed, callerAborted, canCancel);
    SettledStays(c, canCancel);
    hide Observes, Sound, Failed, Take, StartedId, Thrown, LastTerminal, LastError, Fails;
    CallbackObserved(c, step, disposed, callerAborted, canCancel);
    CallbackRejects(c, step, disposed, callerAborted, canCancel);
    StartedIdSnoc(events, e, i);
    if c'.stream.promise.Some? && c'.stream.promise.value.Rejected? {
      FailedGrows(events, e, i, c'.stream.promise.value.error);
    }
  }

  /** While it streams, a promise settled without a throw means a settled bridge. */
  lemma SettledStays(c: Call, canCancel: bool)
    requires Sound(c, canCancel)
    ensures c.stage.Streaming? && c.stream.promise.Some? && !c.stream.threw ==> c.stream.settled
  {
    hide Scan, Booked, Concluded, Staged;
  }

  lemma OtherStepRemembers(c: Call, events: seq<Event>, i: nat, step: Step, disposed: bool, callerAborted: bool,
                           canCancel: bool)
    requires Sound(c, canCancel) && Enabled(c, step) && Remembers(c, events, i)
    requires step.SubscribePromise? || step.SignalCheck? || step.TrackerEnds? || step.FacadeEnds?
    ensures Remembers(Take(c, step, disposed, callerAborted, canCancel), events + [CallSteps(i, step)], i)
  {
    var e, c' := CallSteps(i, step), Take(c, step, disposed, callerAborted, canCancel);
    StartedIdSnoc(events, e, i);
    hide Sound, Remembers, EndOf, StartedId;
    LeftRemembering(c, c', events, e, i);
  }

  lemma StepRemembers(c: Call, events: seq<Event>, i: nat, step: Step, disposed: bool, callerAborted: bool,
                      canCancel: bool)
    requires Sound(c, canCancel) && Enabled(c, step) && Remembers(c, events, i)
    ensures Remembers(Take(c, step, disposed, callerAborted, canCancel), events + [CallSteps(i, step)], i)
  {
    hide Sound, Remembers, Take;
    if step.GateSettles? || step.StartRunSettles? {
      StartingRemembers(c, events, i, step, disposed, callerAborted, canCancel);
    } else if step.OnEvent? || step.OnError? || step.OnComplete? {
      CallbackRemembers(c, events, i, step, disposed, callerAborted, canCancel);
    } else {
      OtherStepRemembers(c, events, i, step, disposed, callerAborted, canCancel);
    }
  }

  lemma NextRemembers(s: State, canCancel: bool, events: seq<Event>, e: Event)
    requires Kept(s, canCancel) && Possible(s, e) && AllRemember(s, events)
    ensures AllRemember(Next(s, canCancel, e), events + [e])
  {
    hide Sound, Linked, Take, Remembers, StartedId, NewCall;
    var s' := Next(s, canCancel, e);
    forall i: nat ensures StartedId(events + [e], i) == StartedId(events, i) || StepOf(e, i) {
      StartedIdSnoc(events, e, i);
    }
    forall i | 0 <= i < |s'.calls| ensures Remembers(s'.calls[i], events + [e], i) {
      if i == |s.calls| {
        NewCallRemembers(e.signal, events + [e], i);
      } else if StepOf(e, i) {
        StepRemembers(s.calls[i], events, i, e.step, s.disposed, CallerAborted(s, s.calls[i]), canCancel);
      } else {
        AbortingLeaves(s.calls[i]);
        LeftRemembering(s.calls[i], s'.calls[i], events, e, i);
      }
    }
  }

  lemma {:induction false} RunRemembers(canCancel: bool, events: seq<Event>)
    requires CanHappen(START, canCancel, events)
    ensures AllRemember(Run(START, canCancel, events), events) && Kept(Run(START, canCancel, events), canCancel)
    decreases |events|
  {
    assert Kept(START, canCancel);
    hide Kept, Remembers, Next;
    RunKeeps(START, canCancel, events);
    if events != [] {
      var init, last := events[..|events| - 1], events[|events| - 1];
      assert events == init + [last] && [last][1..] == [];
      RunInParts(START, canCancel, init, [last]);
      RunRemembers(canCancel, init);
      NextRemembers(Run(START, canCancel, init), canCancel, init, last);
    }
  }

  /** What a call reports in any run. A live result names the run startRun returned,
      or the first event did, and carries the terminal of the last event the caller
      saw that has one, with its details; none, if none has. A failure is the last
      terminal error the caller saw, or the error that validation, startRun, the
      provider or the subscription failed with. */
  lemma OutcomeIsSeen(canCancel: bool, events: seq<Event>, i: nat)
    requires CanHappen(START, canCancel, events) && i < |Run(START, canCancel, events).calls|
    ensures var c := Run(START, canCancel, events).calls[i];
            var seen, result := c.stream.seen, c.ending.result;
            && (result.Some? && result.value.Live? ==>
                result == Some(Live(KnownId(StartedId(events, i), seen), LastTerminal(seen))))
            && (result.Some? && result.value.Classified? ==>
                || Failed(events, i, result.value.error)
                || (LastError(seen).Some? && result.value.error == Thrown(LastError(seen).value)))
            && (result.Some? && LastError(seen).Some? && !c.stream.threw && !c.ending.abortedAtEnd
                && LastError(seen) != Some(AbortError) ==>
                result == Some(Classified(Thrown(LastError(seen).value))))
  {
    RunRemembers(canCancel, events);
    hide Run, Failed, LastTerminal, LastError, KnownId, StartedId;
    var s := Run(START, canCancel, events);
    var c := s.calls[i];
    assert Remembers(c, events, i) && Sound(c, canCancel);
    SaysWhatItSaw(c, events, i, canCancel);
  }

  lemma SaysWhatItSaw(c: Call, events: seq<Event>, i: nat, canCancel: bool)
    requires Remembers(c, events, i) && Sound(c, canCancel)
    ensures var seen, result := c.stream.seen, c.ending.result;
            && (result.Some? && result.value.Live? ==>
                result == Some(Live(KnownId(StartedId(events, i), seen), LastTerminal(seen))))
            && (result.Some? && result.value.Classified? ==>
                || Failed(events, i, result.value.error)
                || (LastError(seen).Some? && result.value.error == Thrown(LastError(seen).value)))
            && (result.Some? && LastError(seen).Some? && !c.stream.threw && !c.ending.abortedAtEnd
                && LastError(seen) != Some(AbortError) ==>
                result == Some(Classified(Thrown(LastError(seen).value))))
  {
    hide Scan, Failed, LastTerminal, LastError, KnownId, StartedId, Disciplined;
  }

  // --- Which calls start a run ---

  lemma {:induction false} RunKnowsAborts(s: State, canCancel: bool, events: seq<Event>)
    requires CanHappen(s, canCancel, events)
    ensures var s' := Run(s, canCancel, events);
            && (s'.disposed <==> s.disposed || DisposeAll in events)
            && forall n :: n in s'.aborted <==> n in s.aborted || SignalFires(n) in events
    decreases |events|
  {
    hide Take, Dispose, CallerAborts;
    if events != [] {
      assert events == [events[0]] + events[1..];
      RunKnowsAborts(Next(s, canCancel, events[0]), canCancel, events[1..]);
    }
  }

  /** What the gate of call i decides, in any run: unsupported, already aborted,
      invalid, or one startRun. */
  lemma GateExactly(canCancel: bool, a: seq<Event>, i: nat, gap: bool, invalid: Option<Error>)
    requires CanHappen(START, canCancel, a + [CallSteps(i, GateSettles(gap, invalid))])
    ensures i < |Run(START, canCancel, a + [CallSteps(i, GateSettles(gap, invalid))]).calls|
    ensures var c := Run(START, canCancel, a + [CallSteps(i, GateSettles(gap, invalid))]).calls[i];
            var aborted := DisposeAll in a || (c.signal.Some? && SignalFires(c.signal.value) in a);
            && c.starts == (if gap || aborted || invalid.Some? then 0 else 1)
            && (gap <==> c.ending.result == Some(Unsupported))
            && (!gap ==> c.stream.promise == if aborted then Some(Resolved)
                         else if invalid.Some? then Some(Rejected(invalid.value)) else None)
  {
    var e := CallSteps(i, GateSettles(gap, invalid));
    RunInParts(START, canCancel, a, [e]);
    assert [e][1..] == [];
    RunKnowsAborts(START, canCancel, a);
    assert Kept(START, canCancel);
    RunKeeps(START, canCancel, a);
    hide Run;
    var c := Run(START, canCancel, a).calls[i];
    assert Sound(c, canCancel) && Enabled(c, e.step);
    hide Scan, Disciplined, Booked, Concluded;
  }
}
