/** One streamRun call through facade, dispose tracker and gateway bridge: each
    function is what happens between two awaits. */
module StreamCalls {
  import opened Prelude

  /** Rejection reasons, as far as the code tells them apart. */
  datatype Error = Absent | AbortError | OtherError

  datatype Terminal = RunCompleted | RunFailed(details: string) | RunCancelled

  datatype RunEvent = RunEvent(runId: string, terminal: Option<Terminal>)

  /** What the caller's handlers get, in order. */
  datatype Callback = EventSeen(event: RunEvent) | ErrorSeen(error: Error, nonTerminal: bool) | CompleteSeen

  datatype Settlement = Resolved | Rejected(error: Error)

  datatype Result =
    | Unsupported
    | AbortedGap(cancelled: Option<string>)
    | Live(runId: Option<string>, outcome: Option<Terminal>)
    | Classified(error: Error)

  /** The bridge's closure. listening: its abort listener is registered; checked:
      it looked at the signal after subscribing; threw: subscribe threw at once;
      promise: what the bridge returned. */
  datatype Stream = Stream(listening: bool, checked: bool, settled: bool, completeFired: bool, subscribing: bool,
                           threw: bool, subscription: bool, disposals: nat, seen: seq<Callback>,
                           promise: Option<Settlement>)

  /** What the facade observes; returned: the id startRun returned. */
  datatype Observed = Observed(returned: Option<string>, runId: Option<string>, outcome: Option<Terminal>,
                               sawError: bool, lastError: Error)

  /** The tracker's part. live: its controller is in the set; composed: the
      listeners behind the composed signal are registered; aborted: that signal
      is; done: finally ran. */
  datatype Tracking = Tracking(live: bool, composed: bool, aborted: bool, done: bool)

  /** abortedAtEnd, knew: the caller's signal and the run id when the facade
      looked at them. */
  datatype Ending = Ending(abortedAtEnd: bool, knew: Option<string>, cancels: seq<string>, result: Option<Result>)

  datatype Stage = Gating | Starting | Streaming | Over

  /** signal: the caller's signal, if there is one. */
  datatype Call = Call(signal: Option<nat>, stage: Stage, starts: nat, tracking: Tracking, stream: Stream,
                       observed: Observed, ending: Ending)

  function NewCall(signal: Option<nat>): Call {
    Call(signal, Gating, 0, Tracking(false, false, false, false),
         Stream(false, false, false, false, false, false, false, 0, [], None),
         Observed(None, None, None, false, Absent), Ending(false, None, [], None))
  }

  // --- The bridge ---

  function Finish(t: Stream, error: Error): Stream {
    if t.settled then t
    else t.(settled := true, listening := false, disposals := t.disposals + if t.subscription then 1 else 0,
            promise := if t.promise.Some? then t.promise else Some(if error.Absent? then Resolved else Rejected(error)))
  }

  function FireComplete(t: Stream): Stream {
    if t.settled || t.completeFired then t else t.(completeFired := true, seen := t.seen + [CompleteSeen])
  }

  function EventInStream(t: Stream, event: RunEvent): Stream {
    if t.settled then t
    else
      var forwarded := t.(seen := t.seen + [EventSeen(event)]);
      if event.terminal.Some? then Finish(FireComplete(forwarded), Absent) else forwarded
  }

  function ErrorInStream(t: Stream, error: Error, nonTerminal: bool): Stream {
    if t.settled then t
    else
      var forwarded := t.(seen := t.seen + [ErrorSeen(error, nonTerminal)]);
      if nonTerminal then forwarded else Finish(forwarded, if error.Absent? then OtherError else error)
  }

  function CompleteInStream(t: Stream): Stream { Finish(FireComplete(t), Absent) }

  function SubscribeSettles(t: Stream, failure: Option<Error>): Stream {
    var known := t.(subscribing := false);
    if failure.Some? then Finish(known, failure.value)
    else known.(subscription := true, disposals := t.disposals + if t.settled then 1 else 0)
  }

  function CheckAborted(t: Stream, aborted: bool): Stream {
    if aborted then Finish(t.(checked := true), Absent) else t.(checked := true)
  }

  /** The composed signal fires. */
  function AbortInStream(t: Stream): Stream { if t.listening then Finish(t.(listening := false), Absent) else t }

  // --- The facade's handlers ---

  function ObserveEvent(o: Observed, event: RunEvent): Observed {
    o.(runId := if o.runId.None? && event.runId != "" then Some(event.runId) else o.runId,
       outcome := if event.terminal.Some? then event.terminal else o.outcome)
  }

  function ObserveError(o: Observed, error: Error, nonTerminal: bool): Observed {
    if nonTerminal then o else o.(sawError := true, lastError := error)
  }

  function ObserveRunId(o: Observed, id: string): Observed {
    o.(returned := Some(id), runId := if o.runId.None? && id != "" then Some(id) else o.runId)
  }

  // --- The steps of a call ---

  /** How startRun ends, and what the bridge meets right after. */
  datatype Started =
    | StartFails(error: Error)
    | ProviderThrows(runId: string, error: Error)
    | SubscribeThrows(runId: string, error: Error)
    | Subscribing(runId: string)

  function StartSettles(c: Call, started: Started): Call {
    match started
    case StartFails(error) => c.(stage := Over, stream := c.stream.(promise := Some(Rejected(error))))
    case ProviderThrows(id, error) =>
      c.(stage := Over, stream := c.stream.(promise := Some(Rejected(error))), observed := ObserveRunId(c.observed, id))
    case SubscribeThrows(id, error) =>
      c.(stage := Streaming, observed := ObserveRunId(c.observed, id),
         stream := c.stream.(listening := true, checked := true, threw := true, promise := Some(Rejected(error))))
    case Subscribing(id) =>
      c.(stage := Streaming, observed := ObserveRunId(c.observed, id),
         stream := c.stream.(listening := true, subscribing := true))
  }

  /** The gate passed: the tracker composes the signal and the bridge runs up to
      startRun. */
  function Enter(c: Call, disposed: bool, callerAborted: bool, invalid: Option<Error>): Call {
    var aborted := disposed || (c.signal.Some? && callerAborted);
    var tracked := c.(tracking := Tracking(!disposed, c.signal.Some? && !aborted, aborted, false));
    if aborted then tracked.(stage := Over, stream := c.stream.(promise := Some(Resolved)))
    else if invalid.Some? then tracked.(stage := Over, stream := c.stream.(promise := Some(Rejected(invalid.value))))
    else tracked.(stage := Starting, starts := c.starts + 1)
  }

  /** The composed signal fires; it does so once. */
  function Abort(c: Call): Call {
    if c.tracking.aborted then c
    else c.(tracking := c.tracking.(aborted := true), stream := AbortInStream(c.stream))
  }

  function CallerAborts(c: Call): Call { if c.tracking.composed then Abort(c) else c }

  /** disposeAll, as one call meets it: the controller's own signal is the
      composed one when the caller gave none. */
  function Dispose(c: Call): Call {
    if !c.tracking.live then c
    else
      var reached := if c.signal.None? || c.tracking.composed then Abort(c) else c;
      reached.(tracking := reached.tracking.(live := false))
  }

  /** The tracker's finally. */
  function Leave(c: Call): Call { c.(tracking := c.tracking.(done := true, composed := false, live := false)) }

  function EndAborted(e: Ending, runId: Option<string>, canCancel: bool): Ending {
    if runId.Some? && canCancel then e.(cancels := e.cancels + [runId.value], result := Some(AbortedGap(runId)))
    else e.(result := Some(AbortedGap(None)))
  }

  function EndOf(c: Call, callerAborted: bool, canCancel: bool): Ending
    requires c.stream.promise.Some?
  {
    var e, o := c.ending.(abortedAtEnd := callerAborted, knew := c.observed.runId), c.observed;
    match c.stream.promise.value
    case Rejected(error) =>
      if callerAborted || error.AbortError? then EndAborted(e, o.runId, canCancel)
      else e.(result := Some(Classified(error)))
    case Resolved =>
      if callerAborted then EndAborted(e, o.runId, canCancel)
      else if o.outcome.Some? || !o.sawError then e.(result := Some(Live(o.runId, o.outcome)))
      else if o.lastError.AbortError? then EndAborted(e, o.runId, canCancel)
      else e.(result := Some(Classified(o.lastError)))
  }

  datatype Step =
    | GateSettles(gap: bool, invalid: Option<Error>)
    | StartRunSettles(started: Started)
    | OnEvent(event: RunEvent)
    | OnError(error: Error, nonTerminal: bool)
    | OnComplete
    | SubscribePromise(failure: Option<Error>)
    | SignalCheck
    | TrackerEnds
    | FacadeEnds

  predicate Enabled(c: Call, step: Step) {
    match step
    case GateSettles(_, _) => c.stage.Gating?
    case StartRunSettles(_) => c.stage.Starting?
    case OnEvent(_) => c.stage.Streaming?
    case OnError(_, _) => c.stage.Streaming?
    case OnComplete => c.stage.Streaming?
    case SubscribePromise(_) => c.stream.subscribing
    case SignalCheck => c.stage.Streaming? && !c.stream.checked
    case TrackerEnds => c.stream.promise.Some? && !c.tracking.done
    case FacadeEnds => c.tracking.done && c.stream.promise.Some? && c.ending.result.None?
  }

  function Take(c: Call, step: Step, disposed: bool, callerAborted: bool, canCancel: bool): Call
    requires Enabled(c, step)
  {
    match step
    case GateSettles(gap, invalid) =>
      if gap then c.(stage := Over, ending := c.ending.(result := Some(Unsupported)))
      else Enter(c, disposed, callerAborted, invalid)
    case StartRunSettles(started) => StartSettles(c, started)
    case OnEvent(event) =>
      c.(stream := EventInStream(c.stream, event), observed := if c.stream.settled then c.observed
         else ObserveEvent(c.observed, event))
    case OnError(error, nonTerminal) =>
      c.(stream := ErrorInStream(c.stream, error, nonTerminal),
         observed := if c.stream.settled then c.observed else ObserveError(c.observed, error, nonTerminal))
    case OnComplete => c.(stream := CompleteInStream(c.stream))
    case SubscribePromise(failure) => c.(stream := SubscribeSettles(c.stream, failure))
    case SignalCheck => c.(stream := CheckAborted(c.stream, c.tracking.aborted))
    case TrackerEnds => Leave(c)
    case FacadeEnds => c.(ending := EndOf(c, callerAborted, canCancel))
  }

  // --- What every step keeps ---

  /** How far a caller's callbacks have come. */
  datatype Progress = Open | Terminated | Ended | Wrong

  /** The callback orders a caller may rely on: events and non-terminal errors;
      then one ending: a terminal event and its onComplete, an onComplete alone,
      or a terminal error; then nothing. */
  function Follow(p: Progress, callback: Callback): Progress {
    match p
    case Open =>
      (match callback
       case EventSeen(event) => if event.terminal.Some? then Terminated else Open
       case ErrorSeen(_, nonTerminal) => if nonTerminal then Open else Ended
       case CompleteSeen => Ended)
    case Terminated => if callback.CompleteSeen? then Ended else Wrong
    case Ended => Wrong
    case Wrong => Wrong
  }

  function Scan(seen: seq<Callback>): Progress {
    if seen == [] then Open else Follow(Scan(seen[..|seen| - 1]), seen[|seen| - 1])
  }

  lemma ScanSnoc(seen: seq<Callback>, callback: Callback)
    ensures Scan(seen + [callback]) == Follow(Scan(seen), callback)
  {
    assert (seen + [callback])[..|seen|] == seen;
  }

  /** Bridge discipline: until it settles the callbacks are open-ended, and once
      settled they are open or ended for good; it settles when and only when its
      promise does, but for a subscribe that threw at once; an obtained
      subscription is disposed once, by whichever of subscribing and settling
      comes last. */
  ghost predicate Disciplined(t: Stream, streaming: bool) {
    && (if t.settled then Scan(t.seen) in {Open, Ended} else Scan(t.seen).Open?)
    && (t.completeFired ==> t.settled)
    && (t.settled ==> t.promise.Some? && !t.listening && streaming)
    && (streaming && t.promise.Some? ==> t.settled || t.threw)
    && (t.threw ==> t.promise.Some? && t.promise.value.Rejected? && t.checked && !t.subscribing && !t.subscription)
    && t.disposals == (if t.settled && t.subscription then 1 else 0)
    && (t.subscription || t.subscribing || t.listening || t.checked || t.threw || t.seen != [] ==> streaming)
    && !(t.subscription && t.subscribing)
  }

  /** The facade's books: the run id is the one startRun returned, if it returned
      one; a terminal event or error seen is what the bridge settled with. */
  ghost predicate Booked(o: Observed, t: Stream) {
    && (o.returned.None? ==> o.runId.None?)
    && (o.returned.Some? && o.returned.value != "" ==> o.runId == o.returned)
    && (o.runId.Some? ==> o.runId.value != "")
    && (o.sawError ==>
          && t.settled && o.outcome.None?
          && (t.threw || t.promise == Some(Rejected(if o.lastError.Absent? then OtherError else o.lastError))))
    && (o.outcome.Some? ==> t.settled && !o.sawError && (t.threw || t.promise == Some(Resolved)))
  }

  /** startRun is called once, and only past the gate; the tracker holds on to
      nothing it is done with. */
  ghost predicate Staged(c: Call) {
    && c.starts <= 1
    && (c.stage.Gating? ==> c.starts == 0 && c.tracking == Tracking(false, false, false, false))
    && (c.stage.Starting? || c.stage.Streaming? ==> c.starts == 1)
    && (c.observed.returned.Some? ==> c.starts == 1 && (c.stage.Streaming? || c.stage.Over?))
    && (c.stage.Streaming? ==> c.observed.returned.Some?)
    && (c.stage.Over? ==> c.stream.promise.Some? || c.ending.result == Some(Unsupported))
    && (c.stage.Gating? || c.stage.Starting? ==> c.stream.promise.None? && c.ending.result.None?)
    && (c.tracking.done ==> c.stream.promise.Some? && !c.tracking.composed && !c.tracking.live)
    && (c.tracking.composed ==> c.signal.Some?)
  }

  /** The result of a finished call: an aborted gap, with one cancel request if
      the run is known, when the caller's signal was aborted or the stream failed
      as aborted; otherwise the failure, or the run's outcome. */
  ghost predicate Concluded(e: Ending, promise: Settlement, o: Observed, canCancel: bool) {
    if e.abortedAtEnd || promise == Rejected(AbortError) then
      var cancelled := if canCancel then e.knew else None;
      e.result == Some(AbortedGap(cancelled)) && e.cancels == if cancelled.Some? then [cancelled.value] else []
    else
      e.cancels == [] && e.result == Some(if promise.Rejected? then Classified(promise.error)
                                          else Live(o.runId, o.outcome))
  }

  /** A cancel is requested at most once, with the result. */
  ghost predicate Reported(c: Call, canCancel: bool) {
    match c.ending.result
    case None => c.ending.cancels == []
    case Some(Unsupported) => c.ending.cancels == [] && c.starts == 0 && c.stage.Over? && c.stream.promise.None?
    case _ =>
      && c.tracking.done && c.stream.promise.Some? && Concluded(c.ending, c.stream.promise.value, c.observed, canCancel)
      && ((c.stream.threw && c.observed.returned == Some("")) || c.ending.knew == c.observed.runId)
  }

  ghost predicate Sound(c: Call, canCancel: bool) {
    && Disciplined(c.stream, c.stage.Streaming?) && Booked(c.observed, c.stream)
    && Staged(c) && Reported(c, canCancel)
  }

  lemma NewCallIsSound(signal: Option<nat>, canCancel: bool)
    ensures Sound(NewCall(signal), canCancel)
  {
  }

  lemma StartKeepsSound(c: Call, started: Started, canCancel: bool)
    requires Sound(c, canCancel) && c.stage.Starting?
    ensures Sound(StartSettles(c, started), canCancel)
  {
    hide Scan;
  }

  lemma EnterKeepsSound(c: Call, disposed: bool, callerAborted: bool, invalid: Option<Error>, canCancel: bool)
    requires Sound(c, canCancel) && c.stage.Gating?
    ensures Sound(Enter(c, disposed, callerAborted, invalid), canCancel)
  {
    hide Scan;
  }

  lemma EventKeepsDiscipline(t: Stream, event: RunEvent)
    requires Disciplined(t, true)
    ensures Disciplined(EventInStream(t, event), true)
    ensures !t.settled && event.terminal.Some? && !t.threw ==> EventInStream(t, event).promise == Some(Resolved)
    ensures EventInStream(t, event).settled <==> t.settled || event.terminal.Some?
    ensures EventInStream(t, event).threw == t.threw && (t.promise.Some? ==>
                                                         EventInStream(t, event).promise == t.promise)
  {
    hide Scan;
    ScanSnoc(t.seen, EventSeen(event));
    ScanSnoc(t.seen + [EventSeen(event)], CompleteSeen);
  }

  lemma ErrorKeepsDiscipline(t: Stream, error: Error, nonTerminal: bool)
    requires Disciplined(t, true)
    ensures Disciplined(ErrorInStream(t, error, nonTerminal), true)
  {
    hide Scan;
    ScanSnoc(t.seen, ErrorSeen(error, nonTerminal));
  }

  lemma CompleteKeepsDiscipline(t: Stream)
    requires Disciplined(t, true)
    ensures Disciplined(CompleteInStream(t), true)
  {
    hide Scan;
    ScanSnoc(t.seen, CompleteSeen);
  }

  lemma SubscribeKeepsDiscipline(t: Stream, failure: Option<Error>)
    requires Disciplined(t, true) && t.subscribing
    ensures Disciplined(SubscribeSettles(t, failure), true)
  {
    hide Scan;
  }

  lemma AbortKeepsSound(c: Call, canCancel: bool)
    requires Sound(c, canCancel) && !c.stage.Gating?
    ensures Sound(Abort(c), canCancel) && Abort(c).tracking.aborted
  {
    hide Scan, Booked, Concluded;
    PromiseStays(c.observed, c.stream, AbortInStream(c.stream));
  }

  /** Settling without an error keeps the books of a stream that saw no ending. */
  lemma PromiseStays(o: Observed, t: Stream, t': Stream)
    requires Booked(o, t) && t'.threw == t.threw
    requires t.settled ==> t'.settled && t'.promise == t.promise
    ensures Booked(o, t')
  {
  }

  lemma StreamStepKeepsSound(c: Call, step: Step, disposed: bool, callerAborted: bool, canCancel: bool)
    requires Sound(c, canCancel) && Enabled(c, step) && c.stage.Streaming?
    requires !step.TrackerEnds? && !step.FacadeEnds?
    ensures Sound(Take(c, step, disposed, callerAborted, canCancel), canCancel)
  {
    hide Scan;
    match step
    case OnEvent(event) => EventKeepsDiscipline(c.stream, event);
    case OnError(error, nonTerminal) => ErrorKeepsDiscipline(c.stream, error, nonTerminal);
    case OnComplete => CompleteKeepsDiscipline(c.stream);
    case SubscribePromise(failure) => SubscribeKeepsDiscipline(c.stream, failure);
    case _ =>
  }

  lemma EndKeepsSound(c: Call, callerAborted: bool, canCancel: bool)
    requires Sound(c, canCancel) && Enabled(c, FacadeEnds)
    ensures Sound(c.(ending := EndOf(c, callerAborted, canCancel)), canCancel)
  {
    hide Scan;
    assert c.stage.Streaming? || c.stage.Over?;
  }

  lemma TakeKeepsSound(c: Call, step: Step, disposed: bool, callerAborted: bool, canCancel: bool)
    requires Sound(c, canCancel) && Enabled(c, step)
    ensures Sound(Take(c, step, disposed, callerAborted, canCancel), canCancel)
  {
    assert c.stream.subscribing ==> c.stage.Streaming?;
    hide Disciplined, Booked, Concluded, Enter, StartSettles, EndOf;
    if step.GateSettles? {
      if !step.gap {
        EnterKeepsSound(c, disposed, callerAborted, step.invalid, canCancel);
      }
    } else if step.StartRunSettles? {
      StartKeepsSound(c, step.started, canCancel);
    } else if step.FacadeEnds? {
      EndKeepsSound(c, callerAborted, canCancel);
    } else if !step.TrackerEnds? {
      StreamStepKeepsSound(c, step, disposed, callerAborted, canCancel);
    }
  }
}
