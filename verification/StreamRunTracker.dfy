/** The closures behind a streamRun call, and the dispose tracker over them. */
module StreamRunTrackers {
  import opened Prelude
  import opened StreamCalls

  lemma FailedStart(c: Call, error: Error)
    requires c.stage.Starting?
    ensures Take(c, StartRunSettles(StartFails(error)), false, false, false) ==
            c.(stage := Over, stream := c.stream.(promise := Some(Rejected(error))))
  {
  }

  lemma SettledIgnores(t: Stream, event: RunEvent, error: Error, nonTerminal: bool)
    requires t.settled
    ensures EventInStream(t, event) == t && ErrorInStream(t, error, nonTerminal) == t
  {
  }

  /** Noting the run id first makes no difference to how the bridge goes on. */
  lemma EnteredStream(c: Call, started: Started, c': Call)
    requires c.stage.Starting? && !started.StartFails?
    requires var noted := c.(observed := ObserveRunId(c.observed, started.runId));
             c' == noted.(stage := StartSettles(noted, started).stage, stream := StartSettles(noted, started).stream)
    ensures c' == Take(c, StartRunSettles(started), false, false, false)
  {
  }

  class StreamRunCall {
    const signal: Option<nat>
    var stage: Stage
    var starts: nat
    var tracking: Tracking
    var listening: bool
    var checked: bool
    var settled: bool
    var completeFired: bool
    var subscribing: bool
    var threw: bool
    var subscription: bool
    var disposals: nat
    var seen: seq<Callback>
    var promise: Option<Settlement>
    var returned: Option<string>
    var runId: Option<string>
    var outcome: Option<Terminal>
    var sawError: bool
    var lastError: Error
    var ending: Ending

    ghost function InStream(): Stream
      reads this
    {
      Stream(listening, checked, settled, completeFired, subscribing, threw, subscription, disposals, seen, promise)
    }

    ghost function InFacade(): Observed
      reads this
    {
      Observed(returned, runId, outcome, sawError, lastError)
    }

    ghost function View(): Call
      reads this
    {
      Call(signal, stage, starts, tracking, InStream(), InFacade(), ending)
    }

    constructor (signal: Option<nat>)
      ensures View() == NewCall(signal)
    {
      this.signal, stage, starts, tracking := signal, Gating, 0, Tracking(false, false, false, false);
      listening, checked, settled, completeFired, subscribing, threw := false, false, false, false, false, false;
      subscription, disposals, seen, promise := false, 0, [], None;
      returned, runId, outcome, sawError, lastError := None, None, None, false, Absent;
      ending := Ending(false, None, [], None);
    }

    /** The bridge's finish. */
    method Settle(error: Error)
      modifies `settled, `listening, `disposals, `promise
      ensures InStream() == Finish(old(InStream()), error)
    {
      if settled {
        return;
      }
      settled, listening := true, false;
      if subscription {
        disposals := disposals + 1;
      }
      if promise.None? {
        promise := Some(if error.Absent? then Resolved else Rejected(error));
      }
    }

    method Complete()
      modifies `completeFired, `seen
      ensures InStream() == FireComplete(old(InStream()))
    {
      if !settled && !completeFired {
        completeFired := true;
        seen := seen + [CompleteSeen];
      }
    }

    /** The facade's onEvent, before it calls the caller's. */
    method NoteEvent(event: RunEvent)
      modifies `runId, `outcome
      ensures InFacade() == ObserveEvent(old(InFacade()), event)
    {
      if runId.None? && event.runId != "" {
        runId := Some(event.runId);
      }
      if event.terminal.Some? {
        outcome := event.terminal;
      }
    }

    method ForwardEvent(event: RunEvent)
      requires !settled
      modifies `seen, `completeFired, `settled, `listening, `disposals, `promise
      ensures InStream() == EventInStream(old(InStream()), event)
    {
      hide Finish, FireComplete;
      seen := seen + [EventSeen(event)];
      if event.terminal.Some? {
        Complete();
        Settle(Absent);
      }
    }

    method HandleEvent(event: RunEvent)
      requires stage.Streaming?
      modifies this
      ensures View() == Take(old(View()), OnEvent(event), false, false, false)
    {
      hide ObserveEvent, EventInStream;
      if settled {
        SettledIgnores(InStream(), event, Absent, false);
      } else {
        NoteEvent(event);
        ForwardEvent(event);
      }
    }

    /** The facade's onError, before it calls the caller's. */
    method NoteError(error: Error, nonTerminal: bool)
      modifies `sawError, `lastError
      ensures InFacade() == ObserveError(old(InFacade()), error, nonTerminal)
    {
      if !nonTerminal {
        sawError, lastError := true, error;
      }
    }

    method ForwardError(error: Error, nonTerminal: bool)
      requires !settled
      modifies `seen, `settled, `listening, `disposals, `promise
      ensures InStream() == ErrorInStream(old(InStream()), error, nonTerminal)
    {
      hide Finish;
      seen := seen + [ErrorSeen(error, nonTerminal)];
      if !nonTerminal {
        Settle(if error.Absent? then OtherError else error);
      }
    }

    method HandleError(error: Error, nonTerminal: bool)
      requires stage.Streaming?
      modifies this
      ensures View() == Take(old(View()), OnError(error, nonTerminal), false, false, false)
    {
      hide ErrorInStream, ObserveError;
      if settled {
        SettledIgnores(InStream(), RunEvent("", None), error, nonTerminal);
      } else {
        NoteError(error, nonTerminal);
        ForwardError(error, nonTerminal);
      }
    }

    method HandleComplete()
      requires stage.Streaming?
      modifies this
      ensures View() == Take(old(View()), OnComplete, false, false, false)
    {
      hide Finish, FireComplete;
      Complete();
      Settle(Absent);
    }

    method HandleSubscription(failure: Option<Error>)
      requires subscribing
      modifies this
      ensures View() == Take(old(View()), SubscribePromise(failure), false, false, false)
    {
      hide SubscribeSettles;
      TakeSubscription(failure);
    }

    method TakeSubscription(failure: Option<Error>)
      modifies `subscribing, `subscription, `settled, `listening, `disposals, `promise
      ensures InStream() == SubscribeSettles(old(InStream()), failure)
    {
      hide Finish;
      subscribing := false;
      if failure.Some? {
        Settle(failure.value);
      } else {
        subscription := true;
        if settled {
          disposals := disposals + 1;
        }
      }
    }

    method HandleSignalCheck()
      requires stage.Streaming? && !checked
      modifies this
      ensures View() == Take(old(View()), SignalCheck, false, false, false)
    {
      hide Finish;
      checked := true;
      if tracking.aborted {
        Settle(Absent);
      }
    }

    /** controller.abort() of the composed signal. */
    method FireSignal()
      modifies this
      ensures View() == Abort(old(View()))
    {
      hide AbortInStream;
      if tracking.aborted {
        return;
      }
      tracking := tracking.(aborted := true);
      HearAbort();
    }

    /** The bridge's abort listener. */
    method HearAbort()
      modifies `settled, `listening, `disposals, `promise
      ensures InStream() == AbortInStream(old(InStream()))
    {
      hide Finish;
      if listening {
        listening := false;
        Settle(Absent);
      }
    }

    method HandleCallerAbort()
      modifies this
      ensures View() == CallerAborts(old(View()))
    {
      if tracking.composed {
        FireSignal();
      }
    }

    /** onRunId. */
    method NoteRunId(id: string)
      modifies `returned, `runId
      ensures InFacade() == ObserveRunId(old(InFacade()), id)
    {
      returned := Some(id);
      if runId.None? && id != "" {
        runId := Some(id);
      }
    }

    /** Past the gate: the composed signal, and the bridge up to startRun. */
    method Track(disposed: bool, callerAborted: bool, invalid: Option<Error>)
      requires stage.Gating?
      modifies `tracking, `stage, `promise, `starts
      ensures View() == Enter(old(View()), disposed, callerAborted, invalid)
    {
      var aborted := disposed || (signal.Some? && callerAborted);
      tracking := Tracking(!disposed, signal.Some? && !aborted, aborted, false);
      if aborted {
        stage, promise := Over, Some(Resolved);
      } else if invalid.Some? {
        stage, promise := Over, Some(Rejected(invalid.value));
      } else {
        stage, starts := Starting, starts + 1;
      }
    }

    method HandleStarted(started: Started)
      requires stage.Starting?
      modifies this
      ensures View() == Take(old(View()), StartRunSettles(started), false, false, false)
    {
      hide ObserveRunId, StartSettles, Take;
      ghost var was := View();
      if started.StartFails? {
        stage, promise := Over, Some(Rejected(started.error));
        FailedStart(was, started.error);
      } else {
        NoteRunId(started.runId);
        EnterStream(started);
        EnteredStream(was, started, View());
      }
    }

    method EnterStream(started: Started)
      requires !started.StartFails?
      modifies `stage, `promise, `listening, `checked, `threw, `subscribing
      ensures stage == StartSettles(old(View()), started).stage
      ensures InStream() == StartSettles(old(View()), started).stream
    {
      hide ObserveRunId;
      if started.ProviderThrows? {
        stage, promise := Over, Some(Rejected(started.error));
      } else {
        stage, listening := Streaming, true;
        if started.SubscribeThrows? {
          checked, threw, promise := true, true, Some(Rejected(started.error));
        } else {
          subscribing := true;
        }
      }
    }

    /** The facade after the bridge: its result, and the cancel it may request. */
    method Conclude(callerAborted: bool, canCancel: bool)
      requires tracking.done && promise.Some? && ending.result.None?
      modifies `ending
      ensures View() == Take(old(View()), FacadeEnds, false, callerAborted, canCancel)
    {
      var aborted := callerAborted;
      var result: Result;
      if promise.value.Rejected? {
        aborted := aborted || promise.value.error.AbortError?;
        result := Classified(promise.value.error);
      } else if outcome.Some? || !sawError {
        result := Live(runId, outcome);
      } else {
        aborted := aborted || lastError.AbortError?;
        result := Classified(lastError);
      }
      ending := ending.(abortedAtEnd := callerAborted, knew := runId);
      if !aborted {
        ending := ending.(result := Some(result));
      } else if runId.Some? && canCancel {
        ending := ending.(cancels := ending.cancels + [runId.value], result := Some(AbortedGap(runId)));
      } else {
        ending := ending.(result := Some(AbortedGap(None)));
      }
    }
  }

  class Tracker {
    var disposed: bool
    var live: seq<StreamRunCall>

    /** The set holds each live call once. */
    ghost predicate Valid()
      reads this, live
    {
      Distinct(live) && (disposed ==> live == []) && forall i | 0 <= i < |live| :: live[i].tracking.live
    }

    constructor ()
      ensures Valid() && !disposed && live == []
    {
      disposed, live := false, [];
    }

    /** The gate of a call passed. */
    method Admit(c: StreamRunCall, callerAborted: bool, invalid: Option<Error>)
      requires Valid() && c !in live && c.stage.Gating?
      modifies this, c
      ensures Valid() && disposed == old(disposed) && live == if disposed then [] else old(live) + [c]
      ensures c.View() == Take(old(c.View()), GateSettles(false, invalid), old(disposed), callerAborted, false)
    {
      c.Track(disposed, callerAborted, invalid);
      if !disposed {
        live := live + [c];
      }
    }

    method DisposeAll()
      requires Valid()
      modifies this, live
      ensures Valid() && disposed && live == []
      ensures forall c | c in old(live) :: c.View() == Dispose(old(c.View()))
    {
      hide AbortInStream;
      disposed := true;
      var controllers := live;
      for i := 0 to |controllers|
        invariant live == old(live) == controllers && disposed
        invariant forall j | 0 <= j < i :: controllers[j].View() == Dispose(old(controllers[j].View()))
        invariant forall j | i <= j < |controllers| :: controllers[j].View() == old(controllers[j].View())
      {
        AbortOne(controllers[i]);
      }
      live := [];
    }

    method AbortOne(c: StreamRunCall)
      requires c.tracking.live
      modifies c
      ensures c.View() == Dispose(old(c.View()))
    {
      hide AbortInStream;
      ghost var was := c.View();
      if c.signal.None? || c.tracking.composed {
        c.FireSignal();
      }
      ghost var reached := c.View();
      c.tracking := c.tracking.(live := false);
      assert c.View() == reached.(tracking := reached.tracking.(live := false));
    }
  }
}
