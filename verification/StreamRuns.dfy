/** All streamRun calls of a client, the callers' abort signals, and disposeAll,
    in every interleaving. */
module StreamRuns {
  import opened Prelude
  import opened StreamCalls

  /** aborted: the callers' signals that are. */
  datatype State = State(disposed: bool, aborted: set<nat>, calls: seq<Call>)

  const START := State(false, {}, [])

  datatype Event =
    | Arrives(signal: Option<nat>)
    | CallSteps(call: nat, step: Step)
    | SignalFires(fired: nat)
    | DisposeAll

  predicate CallerAborted(s: State, c: Call) { c.signal.Some? && c.signal.value in s.aborted }

  predicate Possible(s: State, e: Event) {
    e.CallSteps? ==> e.call < |s.calls| && Enabled(s.calls[e.call], e.step)
  }

  function Next(s: State, canCancel: bool, e: Event): State
    requires Possible(s, e)
  {
    match e
    case Arrives(signal) => s.(calls := s.calls + [NewCall(signal)])
    case CallSteps(i, step) =>
      s.(calls := s.calls[i := Take(s.calls[i], step, s.disposed, CallerAborted(s, s.calls[i]), canCancel)])
    case SignalFires(fired) =>
      s.(aborted := s.aborted + {fired},
         calls := seq(|s.calls|, i requires 0 <= i < |s.calls| =>
                    if s.calls[i].signal == Some(fired) then CallerAborts(s.calls[i]) else s.calls[i]))
    case DisposeAll =>
      s.(disposed := true, calls := seq(|s.calls|, i requires 0 <= i < |s.calls| => Dispose(s.calls[i])))
  }

  predicate Entered(c: Call) { !c.stage.Gating? && c.ending.result != Some(Unsupported) }

  /** The composed signal says exactly whether the client was disposed or the
      caller aborted, the set holds exactly the calls under way, and an aborted
      stream is settled as soon as the bridge looked at the signal. */
  ghost predicate Linked(c: Call, disposed: bool, callerAborted: bool) {
    && (Entered(c) && !c.tracking.done ==> (c.tracking.aborted <==> disposed || callerAborted))
    && (c.tracking.live <==> Entered(c) && !c.tracking.done && !disposed)
    && (Entered(c) && !c.tracking.done && c.signal.Some? && !c.tracking.aborted ==> c.tracking.composed)
    && (c.stage.Streaming? && !c.tracking.aborted && !c.stream.settled && !c.tracking.done ==> c.stream.listening)
    && (c.stage.Streaming? && c.tracking.aborted && c.stream.checked && !c.stream.threw ==> c.stream.settled)
  }

  ghost predicate Kept(s: State, canCancel: bool) {
    forall i | 0 <= i < |s.calls| ::
      Sound(s.calls[i], canCancel) && Linked(s.calls[i], s.disposed, CallerAborted(s, s.calls[i]))
  }

  lemma TakeKeepsLinked(c: Call, step: Step, disposed: bool, callerAborted: bool, canCancel: bool)
    requires Sound(c, canCancel) && Linked(c, disposed, callerAborted) && Enabled(c, step)
    requires callerAborted ==> c.signal.Some?
    ensures Linked(Take(c, step, disposed, callerAborted, canCancel), disposed, callerAborted)
  {
    hide Scan, Concluded;
  }

  lemma SignalKeeps(c: Call, disposed: bool, before: bool, canCancel: bool)
    requires Sound(c, canCancel) && Linked(c, disposed, before) && c.signal.Some?
    ensures Sound(CallerAborts(c), canCancel) && Linked(CallerAborts(c), disposed, true)
  {
    if c.tracking.composed {
      AbortKeepsSound(c, canCancel);
      hide Scan, Concluded;
    }
  }

  lemma DisposeKeeps(c: Call, disposed: bool, callerAborted: bool, canCancel: bool)
    requires Sound(c, canCancel) && Linked(c, disposed, callerAborted) && (callerAborted ==> c.signal.Some?)
    ensures Sound(Dispose(c), canCancel) && Linked(Dispose(c), true, callerAborted)
  {
    if c.tracking.live {
      AbortKeepsSound(c, canCancel);
      hide Scan, Concluded;
    }
  }

  lemma NextKeeps(s: State, canCancel: bool, e: Event)
    requires Kept(s, canCancel) && Possible(s, e)
    ensures Kept(Next(s, canCancel, e), canCancel)
  {
    hide Sound, Linked, Take, Dispose, CallerAborts;
    var s' := Next(s, canCancel, e);
    forall i | 0 <= i < |s'.calls|
      ensures Sound(s'.calls[i], canCancel) && Linked(s'.calls[i], s'.disposed, CallerAborted(s', s'.calls[i]))
    {
      if i == |s.calls| {
        NewCallIsSound(e.signal, canCancel);
        NewCallIsLinked(e.signal, s.disposed, CallerAborted(s, s'.calls[i]));
      } else {
        var c := s.calls[i];
        SignalStays(c);
        match e
        case Arrives(_) =>
        case CallSteps(j, step) =>
          if i == j {
            TakeKeepsSound(c, step, s.disposed, CallerAborted(s, c), canCancel);
            TakeKeepsLinked(c, step, s.disposed, CallerAborted(s, c), canCancel);
            SignalStaysInStep(c, step, s.disposed, CallerAborted(s, c), canCancel);
          }
        case SignalFires(fired) =>
          if c.signal == Some(fired) {
            SignalKeeps(c, s.disposed, CallerAborted(s, c), canCancel);
          }
        case DisposeAll => DisposeKeeps(c, s.disposed, CallerAborted(s, c), canCancel);
      }
    }
  }

  lemma NewCallIsLinked(signal: Option<nat>, disposed: bool, callerAborted: bool)
    ensures Linked(NewCall(signal), disposed, callerAborted)
  {
  }

  lemma SignalStays(c: Call)
    ensures CallerAborts(c).signal == c.signal && Dispose(c).signal == c.signal
  {
  }

  lemma SignalStaysInStep(c: Call, step: Step, disposed: bool, callerAborted: bool, canCancel: bool)
    requires Enabled(c, step)
    ensures Take(c, step, disposed, callerAborted, canCancel).signal == c.signal
  {
  }

  // --- Whole runs ---

  ghost predicate CanHappen(s: State, canCancel: bool, events: seq<Event>)
    decreases |events|
  {
    events == [] || (Possible(s, events[0]) && CanHappen(Next(s, canCancel, events[0]), canCancel, events[1..]))
  }

  function Run(s: State, canCancel: bool, events: seq<Event>): State
    requires CanHappen(s, canCancel, events)
    decreases |events|
  {
    if events == [] then s else Run(Next(s, canCancel, events[0]), canCancel, events[1..])
  }

  lemma {:induction false} RunKeeps(s: State, canCancel: bool, events: seq<Event>)
    requires Kept(s, canCancel) && CanHappen(s, canCancel, events)
    ensures Kept(Run(s, canCancel, events), canCancel)
    decreases |events|
  {
    hide Kept, Next;
    if events != [] {
      NextKeeps(s, canCancel, events[0]);
      RunKeeps(Next(s, canCancel, events[0]), canCancel, events[1..]);
    }
  }

  /** No orphaned run. In every run, a call that has ended with its caller's
      signal aborted reports an aborted gap; if startRun had returned an id and
      runs can be cancelled, a cancel was requested exactly once, with that id.
      A cancel is requested in no other case than an abort. */
  lemma NoOrphanedRun(canCancel: bool, events: seq<Event>, i: nat)
    requires CanHappen(START, canCancel, events) && i < |Run(START, canCancel, events).calls|
    ensures var c := Run(START, canCancel, events).calls[i];
            var ended := c.ending.result.Some? && c.ending.result != Some(Unsupported);
            && |c.ending.cancels| <= 1 && c.starts <= 1
            && (ended && c.ending.abortedAtEnd ==> c.ending.result.value.AbortedGap?)
            && (ended && c.ending.abortedAtEnd && canCancel && c.observed.returned.Some?
                && c.observed.returned.value != "" ==>
                  c.ending.result == Some(AbortedGap(c.observed.returned))
                      && c.ending.cancels == [c.observed.returned.value])
            && (c.ending.cancels != [] <==>
                  ended && canCancel && c.ending.knew.Some?
                  && (c.ending.abortedAtEnd || c.stream.promise == Some(Rejected(AbortError))))
  {
    assert Kept(START, canCancel);
    RunKeeps(START, canCancel, events);
    var c := Run(START, canCancel, events).calls[i];
    assert Sound(c, canCancel);
    hide Run, Scan;
  }

  predicate FatalError(callback: Callback) { callback.ErrorSeen? && !callback.nonTerminal }

  /** What the callback order means: an onComplete or a terminal error comes last,
      so at most one of them at most once, and a terminal event is followed by
      its onComplete and nothing else. */
  lemma {:induction false} ScanMeans(seen: seq<Callback>)
    requires !Scan(seen).Wrong?
    ensures forall i | 0 <= i < |seen| && (seen[i].CompleteSeen? || FatalError(seen[i])) :: i == |seen| - 1
    ensures forall i | 0 <= i < |seen| && seen[i].EventSeen? && seen[i].event.terminal.Some? ::
              i >= |seen| - 2 && (Scan(seen).Ended? ==> i == |seen| - 2 && seen[|seen| - 1].CompleteSeen?)
    ensures Scan(seen).Open? <==> forall i | 0 <= i < |seen| ::
              !seen[i].CompleteSeen? && !FatalError(seen[i])
                  && !(seen[i].EventSeen? && seen[i].event.terminal.Some?)
    ensures Scan(seen).Terminated? <==>
              seen != [] && seen[|seen| - 1].EventSeen? && seen[|seen| - 1].event.terminal.Some?
  {
    if seen != [] {
      var init := seen[..|seen| - 1];
      ScanMeans(init);
      assert forall i | 0 <= i < |init| :: seen[i] == init[i];
    }
  }

  /** Something can still happen by which the caller is called back. */
  ghost predicate MayCallBack(c: Call, disposed: bool, callerAborted: bool, canCancel: bool) {
    exists step ::
      Enabled(c, step) && Take(c, step, disposed, callerAborted, canCancel).stream.seen != c.stream.seen
  }

  /** Exactly when callbacks can still follow a settled promise: subscribe threw
      at once, and nothing settled the bridge since. */
  lemma CallbacksFollowExactly(c: Call, disposed: bool, callerAborted: bool, canCancel: bool)
    requires Sound(c, canCancel) && c.stream.promise.Some?
    ensures MayCallBack(c, disposed, callerAborted, canCancel) <==> c.stream.threw && !c.stream.settled
  {
    hide Scan, Concluded;
    if c.stream.threw && !c.stream.settled {
      assert Enabled(c, OnError(Absent, true));
      assert Take(c, OnError(Absent, true), disposed, callerAborted, canCancel).stream.seen ==
               c.stream.seen + [ErrorSeen(Absent, true)];
    }
  }

  /** Bridge discipline over every callback order: callbacks come in order and
      stop once the bridge settled, and an obtained subscription is disposed
      exactly once, however subscribing races with settling. The promise settles
      with the bridge, but for a subscribe that threw at once: it has rejected
      the promise, and callbacks go on until the bridge settles. */
  lemma BridgeDiscipline(canCancel: bool, events: seq<Event>, i: nat)
    requires CanHappen(START, canCancel, events) && i < |Run(START, canCancel, events).calls|
    ensures var c := Run(START, canCancel, events).calls[i];
            var t := c.stream;
            && !Scan(t.seen).Wrong? && !Scan(t.seen).Terminated?
            && (Scan(t.seen).Ended? ==> t.settled)
            && (t.settled ==> t.promise.Some? && !t.listening)
            && (c.stage.Streaming? && t.promise.Some? && !t.settled ==> t.threw && t.promise.value.Rejected?)
            && (forall disposed, aborted | t.promise.Some? ::
                  MayCallBack(c, disposed, aborted, canCancel) <==> t.threw && !t.settled)
            && t.disposals == (if t.settled && t.subscription then 1 else 0)
  {
    RunKeeps(START, canCancel, events);
    var c := Run(START, canCancel, events).calls[i];
    assert Sound(c, canCancel);
    hide Run, Scan, MayCallBack;
    forall disposed, aborted | c.stream.promise.Some?
      ensures MayCallBack(c, disposed, aborted, canCancel) <==> c.stream.threw && !c.stream.settled
    {
      CallbacksFollowExactly(c, disposed, aborted, canCancel);
    }
  }

  /** A call whose subscribe throws, step by step. */
  lemma ThrownSubscribe() returns (c1: Call, c2: Call)
    ensures var c0, thrown := NewCall(None), SubscribeThrows("run", OtherError);
            && Enabled(c0, GateSettles(false, None)) && c1 == Take(c0, GateSettles(false, None), false, false, true)
            && Enabled(c1, StartRunSettles(thrown)) && c2 == Take(c1, StartRunSettles(thrown), false, false, true)
            && c0.signal == c1.signal == c2.signal == None
            && c2.stream.promise == Some(Rejected(OtherError)) && c2.stream.seen == []
    ensures forall event: RunEvent ::
              && Enabled(c2, OnEvent(event))
              && [EventSeen(event)] <= Take(c2, OnEvent(event), false, false, true).stream.seen
  {
    c1 := Take(NewCall(None), GateSettles(false, None), false, false, true);
    c2 := Take(c1, StartRunSettles(SubscribeThrows("run", OtherError)), false, false, true);
  }

  /** A concrete run: the promise has been rejected, and then an event reaches
      the caller. */
  lemma RejectedStreamGoesOn(event: RunEvent)
    ensures exists events: seq<Event> ::
              && CanHappen(START, true, events) && |Run(START, true, events).calls| == 1
              && var s := Run(START, true, events);
                 && s.calls[0].stream.promise == Some(Rejected(OtherError)) && s.calls[0].stream.seen == []
                 && Possible(s, CallSteps(0, OnEvent(event)))
                 && [EventSeen(event)] <= Next(s, true, CallSteps(0, OnEvent(event))).calls[0].stream.seen
  {
    var c1, c2 := ThrownSubscribe();
    hide Take, Enabled, NewCall;
    var thrown := StartRunSettles(SubscribeThrows("run", OtherError));
    var s1, s2, s3 := State(false, {}, [NewCall(None)]), State(false, {}, [c1]), State(false, {}, [c2]);
    CallAlone(c1, thrown, false, c2);
    Then(s2, CallSteps(0, thrown), [], s3);
    CallAlone(NewCall(None), GateSettles(false, None), false, c1);
    Then(s1, CallSteps(0, GateSettles(false, None)), [CallSteps(0, thrown)] + [], s2);
    Then(START, Arrives(None), [CallSteps(0, GateSettles(false, None))] + ([CallSteps(0, thrown)] + []), s1);
    var events := [Arrives(None)] + ([CallSteps(0, GateSettles(false, None))] + ([CallSteps(0, thrown)] + []));
    assert Run(START, true, events) == Run(s3, true, []) == s3;
    CallAlone(c2, OnEvent(event), false, Take(c2, OnEvent(event), false, false, true));
  }

  lemma SettledForGood(c: Call, step: Step, disposed: bool, callerAborted: bool, canCancel: bool)
    requires Sound(c, canCancel) && Enabled(c, step) && c.stream.settled
    ensures var c' := Take(c, step, disposed, callerAborted, canCancel);
            && c'.stream.settled && c'.stream.seen == c.stream.seen && c'.stream.promise == c.stream.promise
            && c'.observed == c.observed
  {
    hide Scan, Concluded;
  }

  function Starts(calls: seq<Call>): nat {
    if calls == [] then 0 else Starts(calls[..|calls| - 1]) + calls[|calls| - 1].starts
  }

  lemma {:induction false} SameStarts(a: seq<Call>, b: seq<Call>)
    requires |a| == |b| && forall i | 0 <= i < |a| :: a[i].starts == b[i].starts
    ensures Starts(a) == Starts(b)
  {
    if a != [] {
      SameStarts(a[..|a| - 1], b[..|b| - 1]);
    }
  }

  /** No late run: after disposeAll no call ever reaches startRun, whatever gate
      it was still waiting for. */
  lemma {:induction false} NoLateRun(s: State, canCancel: bool, events: seq<Event>)
    requires s.disposed && CanHappen(s, canCancel, events)
    ensures Starts(Run(s, canCancel, events).calls) == Starts(s.calls)
    decreases |events|
  {
    if events != [] {
      var s' := Next(s, canCancel, events[0]);
      NoStartWhenDisposed(s, canCancel, events[0]);
      NoLateRun(s', canCancel, events[1..]);
    }
  }

  lemma NoStartWhenDisposed(s: State, canCancel: bool, e: Event)
    requires s.disposed && Possible(s, e)
    ensures Next(s, canCancel, e).disposed && Starts(Next(s, canCancel, e).calls) == Starts(s.calls)
  {
    hide Starts;
    var s' := Next(s, canCancel, e);
    if e.Arrives? {
      assert s'.calls[..|s.calls|] == s.calls;
      StartsSnoc(s.calls, NewCall(e.signal));
    } else {
      SameStarts(s'.calls, s.calls);
    }
  }

  lemma StartsSnoc(calls: seq<Call>, c: Call)
    ensures Starts(calls + [c]) == Starts(calls) + c.starts
  {
    assert (calls + [c])[..|calls|] == calls;
  }

  /** disposeAll settles every stream under way, disposes the subscription of
      each that has one, and empties the set; callers' signals do the same for
      their own calls. */
  lemma DisposeSettlesAll(s: State, canCancel: bool, i: nat)
    requires Kept(s, canCancel) && i < |s.calls|
    ensures var c := Next(s, canCancel, DisposeAll).calls[i];
            && !c.tracking.live
            && (c.stage.Streaming? && !c.tracking.done && c.stream.checked && !c.stream.threw ==>
                  c.stream.settled && c.stream.promise.Some? && !c.stream.listening
                  && c.stream.disposals == if c.stream.subscription then 1 else 0)
  {
    NextKeeps(s, canCancel, DisposeAll);
    hide Scan;
    var c := Next(s, canCancel, DisposeAll).calls[i];
    assert Sound(c, canCancel) && Linked(c, true, CallerAborted(s, s.calls[i]));
  }

  /** The run is still going and nobody asked for it to stop: it was started, no
      terminal event was seen, and the call ended without a cancel. */
  ghost predicate LeftRunning(c: Call) {
    && c.ending.result.Some? && c.observed.returned.Some? && c.observed.returned.value != ""
    && c.observed.outcome.None? && c.ending.cancels == []
  }

  /** Exactly when a started run is left running: no terminal event came, and
      either it cannot be cancelled, or the caller did not abort and the stream
      did not fail as aborted. So a stream that only disposeAll ended leaves its
      run going, and reports it live without an outcome. */
  lemma LeftRunningExactly(canCancel: bool, events: seq<Event>, i: nat)
    requires CanHappen(START, canCancel, events) && i < |Run(START, canCancel, events).calls|
    requires var c := Run(START, canCancel, events).calls[i];
             c.ending.result.Some? && c.observed.returned.Some? && c.observed.returned.value != ""
    ensures var c := Run(START, canCancel, events).calls[i];
            && (LeftRunning(c) <==>
                  c.observed.outcome.None? &&
                  (!canCancel || (!c.ending.abortedAtEnd && c.stream.promise != Some(Rejected(AbortError)))))
            && (!c.ending.abortedAtEnd && c.stream.promise == Some(Resolved) ==>
                  c.ending.result == Some(Live(c.observed.returned, c.observed.outcome)) && c.ending.cancels == [])
  {
    NoOrphanedRun(canCancel, events, i);
    RunKeeps(START, canCancel, events);
    assert Sound(Run(START, canCancel, events).calls[i], canCancel);
    hide Run, Scan;
  }

  /** A call without a signal, step by step: it streams, the client is disposed,
      and it ends with its run left running. */
  lemma DisposedCallGoesOn() returns (c1: Call, c2: Call, c3: Call, c4: Call, c5: Call, c6: Call)
    ensures var c0 := NewCall(None);
            && Enabled(c0, GateSettles(false, None)) && c1 == Take(c0, GateSettles(false, None), false, false, true)
            && Enabled(c1, StartRunSettles(Subscribing("run")))
            && c2 == Take(c1, StartRunSettles(Subscribing("run")), false, false, true)
            && Enabled(c2, SignalCheck) && c3 == Take(c2, SignalCheck, false, false, true)
            && c4 == Dispose(c3)
            && Enabled(c4, TrackerEnds) && c5 == Take(c4, TrackerEnds, true, false, true)
            && Enabled(c5, FacadeEnds) && c6 == Take(c5, FacadeEnds, true, false, true)
            && c0.signal == c1.signal == c2.signal == c3.signal == c4.signal == c5.signal == None
            && LeftRunning(c6)
  {
    c1 := Take(NewCall(None), GateSettles(false, None), false, false, true);
    c2 := Take(c1, StartRunSettles(Subscribing("run")), false, false, true);
    c3 := Take(c2, SignalCheck, false, false, true);
    c4 := Dispose(c3);
    c5 := Take(c4, TrackerEnds, true, false, true);
    c6 := Take(c5, FacadeEnds, true, false, true);
  }

  /** A concrete run of that call, alone. */
  lemma DisposedRunGoesOn()
    ensures exists events: seq<Event> ::
              CanHappen(START, true, events) && |Run(START, true, events).calls| == 1
                  && LeftRunning(Run(START, true, events).calls[0])
  {
    var c1, c2, c3, c4, c5, c6 := DisposedCallGoesOn();
    hide Take, Dispose, LeftRunning, Enabled, NewCall;
    var s1, s2, s3, s4 := State(false, {}, [NewCall(None)]), State(false, {}, [c1]), State(false, {}, [c2]),
        State(false, {}, [c3]);
    var s5, s6, s7 := State(true, {}, [c4]), State(true, {}, [c5]), State(true, {}, [c6]);
    CallAlone(c5, FacadeEnds, true, c6);
    Then(s6, CallSteps(0, FacadeEnds), [], s7);
    CallAlone(c4, TrackerEnds, true, c5);
    Then(s5, CallSteps(0, TrackerEnds), [CallSteps(0, FacadeEnds)] + [], s6);
    var late := [CallSteps(0, TrackerEnds)] + ([CallSteps(0, FacadeEnds)] + []);
    Then(s4, DisposeAll, late, s5);
    CallAlone(c2, SignalCheck, false, c3);
    Then(s3, CallSteps(0, SignalCheck), [DisposeAll] + late, s4);
    var middle := [CallSteps(0, SignalCheck)] + ([DisposeAll] + late);
    CallAlone(c1, StartRunSettles(Subscribing("run")), false, c2);
    Then(s2, CallSteps(0, StartRunSettles(Subscribing("run"))), middle, s3);
    var early := [CallSteps(0, StartRunSettles(Subscribing("run")))] + middle;
    CallAlone(NewCall(None), GateSettles(false, None), false, c1);
    Then(s1, CallSteps(0, GateSettles(false, None)), early, s2);
    Then(START, Arrives(None), [CallSteps(0, GateSettles(false, None))] + early, s1);
    assert Run(START, true, [Arrives(None)] + ([CallSteps(0, GateSettles(false, None))] + early)) == Run(s7, true, []);
  }

  lemma CallAlone(c: Call, step: Step, disposed: bool, c': Call)
    requires Enabled(c, step) && c' == Take(c, step, disposed, false, true) && c.signal.None?
    ensures Next(State(disposed, {}, [c]), true, CallSteps(0, step)) == State(disposed, {}, [c'])
  {
    hide Take;
    assert [c][0 := c'] == [c'];
  }

  lemma Then(s: State, e: Event, rest: seq<Event>, s': State)
    requires Possible(s, e) && Next(s, true, e) == s' && CanHappen(s', true, rest)
    ensures CanHappen(s, true, [e] + rest) && Run(s, true, [e] + rest) == Run(s', true, rest)
  {
    assert ([e] + rest)[1..] == rest;
  }
}
