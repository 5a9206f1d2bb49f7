/** Whole runs of a WebSocket connection, and the connection itself. */
module WebSocketRuns {
  import opened Prelude
  import opened Backoff
  import opened Listeners
  import opened WebSocket

  // --- Close listeners ---

  /** Calls made to l, and calls l still waits for. */
  function Dues<D, M>(s: State<D, M>, l: nat): nat { Told(s.closeCalls, l) + Occurs(s.closeListeners, l) }

  lemma EndingKeepsDues<D, M>(s: State<D, M>, error: Option<Fault>, l: nat)
    ensures Dues(Finish(s, error), l) == Dues(s, l) && Dues(ShutDown(s, error), l) == Dues(s, l)
  {
    hide Told, Calls, Detached, AskedToClose;
    ToldAll(s.closeCalls, s.closeListeners, error, l);
  }

  lemma DisconnectKeepsDues<D, M>(s: State<D, M>, policy: RetryPolicy, k: nat, code: int, wasClean: bool, random: real,
                                  elapsedMs: real, l: nat)
    requires k < |s.sockets|
    ensures Dues(Disconnect(s, policy, k, code, wasClean, random, elapsedMs), l) == Dues(s, l)
  {
    hide Told, Occurs, Detached, ComputeBackoffDelay, SleepFits, Finish;
    EndingKeepsDues(s.(sockets := Detached(s.sockets[k := s.sockets[k].(handled := true)])),
                    Some(ConnectionClosed(code)), l);
  }

  lemma StartKeepsDues<D, M>(s: State<D, M>, config: Config, factoryThrows: bool, l: nat)
    ensures Dues(Start(s, config, factoryThrows), l) == Dues(s, l)
            && Dues(AttachOrFail(s, factoryThrows), l) == Dues(s, l)
  {
    hide Told, Occurs, Finish;
    EndingKeepsDues(s, Some(ConnectFailed), l);
    EndingKeepsDues(s.(log := s.log + [Connecting(s.attempt)]), Some(ConnectFailed), l);
  }

  lemma ListeningKeepsDues<D, M>(s: State<D, M>, config: Config, decode: D -> Option<M>, e: Event<D>, l: nat)
    requires Enabled(s, e) && (e.SubscribeClose? || e.UnsubscribeClose?)
    requires e != UnsubscribeClose(l) && (e == SubscribeClose(l) ==> Dues(s, l) == 0)
    ensures Dues(Step(s, config, decode, e), l) == Dues(s, l) + if e == SubscribeClose(l) then 1 else 0
  {
    hide Told, Occurs, Removed;
    if e.SubscribeClose? {
      ToldSnoc(s.closeCalls, CloseCall(e.listener, s.closeError), l);
      OccursIn(s.closeListeners, l);
      OccursSnoc(s.closeListeners, e.listener, l);
    } else {
      OccursRemoved(s.closeListeners, e.listener, l);
    }
  }

  lemma LosingKeepsDues<D, M>(s: State<D, M>, config: Config, decode: D -> Option<M>, e: Event<D>, l: nat)
    requires Enabled(s, e) && (e.Errors? || e.Closes?)
    ensures Dues(Step(s, config, decode, e), l) == Dues(s, l)
  {
    hide Dues, Disconnect;
    if e.Errors? {
      DisconnectKeepsDues(s, config.policy, e.socket, 1006, false, e.random, e.elapsedMs, l);
    } else {
      DisconnectKeepsDues(s, config.policy, e.socket, if e.code.Some? then e.code.value else 1006,
                          e.wasClean.Some? && e.wasClean.value, e.random, e.elapsedMs, l);
    }
  }

  lemma LeadingOnKeepsDues<D, M>(s: State<D, M>, config: Config, decode: D -> Option<M>, e: Event<D>, l: nat)
    requires Enabled(s, e) && (e.SleepSettles? || e.StartSettles?)
    ensures Dues(Step(s, config, decode, e), l) == Dues(s, l)
  {
    hide Told, Occurs, Finish, Start, AttachOrFail;
    if e.SleepSettles? {
      EndingKeepsDues(s.(sleeping := None), Some(ConnectionClosed(s.sleeping.value)), l);
      StartKeepsDues(s.(sleeping := None, attempt := s.attempt + 1), config, e.factoryThrows, l);
    } else {
      EndingKeepsDues(s.(starting := false), Some(ConnectFailed), l);
      StartKeepsDues(s.(starting := false), config, e.factoryThrows, l);
    }
  }

  lemma OthersKeepDues<D, M>(s: State<D, M>, config: Config, decode: D -> Option<M>, e: Event<D>, l: nat)
    requires Enabled(s, e) && !e.SubscribeClose? && !e.UnsubscribeClose? && !e.Errors? && !e.Closes?
    requires !e.SleepSettles? && !e.StartSettles?
    ensures Dues(Step(s, config, decode, e), l) == Dues(s, l)
  {
    hide Told, Occurs, Finish, ShutDown, Removed, Added;
    if e.DecodeSettles? {
      var socket := s.sockets[e.socket];
      EndingKeepsDues(Put(s, e.socket, socket.(decoding := false, settled := socket.settled + 1)), Some(DecodeFailed),
                      l);
    } else if e.Frame? {
      EndingKeepsDues(s, Some(DecodeFailed), l);
    } else if e.AbortFires? {
      EndingKeepsDues(s.(abortable := false), Some(Aborted), l);
    } else if e.CloseCalled? {
      EndingKeepsDues(s, None, l);
    }
  }

  /** Only a subscription of l changes what l is owed, and it is owed one call. */
  lemma StepKeepsDues<D, M>(s: State<D, M>, config: Config, decode: D -> Option<M>, e: Event<D>, l: nat)
    requires Enabled(s, e) && e != UnsubscribeClose(l) && (e == SubscribeClose(l) ==> Dues(s, l) == 0)
    ensures Dues(Step(s, config, decode, e), l) == Dues(s, l) + if e == SubscribeClose(l) then 1 else 0
  {
    hide Step, Dues;
    if e.SubscribeClose? || e.UnsubscribeClose? {
      ListeningKeepsDues(s, config, decode, e, l);
    } else if e.Errors? || e.Closes? {
      LosingKeepsDues(s, config, decode, e, l);
    } else if e.SleepSettles? || e.StartSettles? {
      LeadingOnKeepsDues(s, config, decode, e, l);
    } else {
      OthersKeepDues(s, config, decode, e, l);
    }
  }

  // --- Runs ---

  ghost predicate Possible<D, M>(s: State<D, M>, config: Config, decode: D -> Option<M>, events: seq<Event<D>>)
    decreases |events|
  {
    events == [] || (Enabled(s, events[0]) && Possible(Step(s, config, decode, events[0]), config, decode, events[1..]))
  }

  function Run<D, M>(s: State<D, M>, config: Config, decode: D -> Option<M>, events: seq<Event<D>>): State<D, M>
    requires Possible(s, config, decode, events)
    decreases |events|
  {
    if events == [] then s else Run(Step(s, config, decode, events[0]), config, decode, events[1..])
  }

  lemma {:induction false} RunsStaySafe<D, M>(s: State<D, M>, config: Config, decode: D -> Option<M>,
                                              events: seq<Event<D>>)
    requires ValidPolicy(config.policy) && Possible(s, config, decode, events)
    requires Tidy(s, config.policy.maxAttempts) && Traced(s, config.policy) && Delivered(s, decode) && InOrder(s.log)
    ensures var s' := Run(s, config, decode, events);
            && Tidy(s', config.policy.maxAttempts) && Traced(s', config.policy)
            && Delivered(s', decode) && InOrder(s'.log)
    decreases |events|
  {
    hide Tidy, Traced, Delivered, InOrder, Step;
    if events != [] {
      StepStaysTidy(s, config, decode, events[0]);
      StepStaysTraced(s, config, decode, events[0]);
      StepStaysDelivered(s, config, decode, events[0]);
      StepStaysInOrder(s, config, decode, events[0]);
      RunsStaySafe(Step(s, config, decode, events[0]), config, decode, events[1..]);
    }
  }

  lemma InitialIsClean<D, M>(config: Config, decode: D -> Option<M>, abortable: bool)
    ensures Delivered<D, M>(Initial(abortable), decode) && Scan<M>([], config.policy) == Seen(0, false, false)
  {
    NothingDelivered<M>();
  }

  lemma EndedAtOnceIsTidy<D, M>(config: Config, abortable: bool)
    requires ValidPolicy(config.policy)
    ensures Tidy<D, M>(Finish(Initial(abortable), Some(Aborted)), config.policy.maxAttempts)
  {
  }

  lemma StartedIsTidy<D, M>(config: Config, abortable: bool, factoryThrows: bool)
    requires ValidPolicy(config.policy)
    ensures Tidy<D, M>(Start(Initial(abortable), config, factoryThrows), config.policy.maxAttempts)
  {
    hide AttachOrFail;
    var announced: State<D, M> := Initial(abortable).(log := [] + [Connecting(1)]);
    StartStaysTidy(announced, factoryThrows, config.policy.maxAttempts);
  }

  lemma ConnectIsSafe<D, M>(config: Config, decode: D -> Option<M>, hasSignal: bool, aborted: bool, factoryThrows: bool)
    requires ValidPolicy(config.policy)
    ensures var s: State<D, M> := Connect(config, hasSignal, aborted, factoryThrows);
            Tidy(s, config.policy.maxAttempts) && Traced(s, config.policy) && Delivered(s, decode) && InOrder(s.log)
  {
    hide Tidy, Traced, Delivered, Start, Finish, Scan, Carries;
    var initial: State<D, M> := Initial(hasSignal && !aborted);
    InitialIsClean<D, M>(config, decode, initial.abortable);
    if hasSignal && aborted {
      EndedAtOnceIsTidy<D, M>(config, initial.abortable);
      FinishStaysTraced(initial, Some(Aborted), config.policy);
      EndingCarries(initial, Some(Aborted));
    } else {
      StartedIsTidy<D, M>(config, initial.abortable, factoryThrows);
      StartStaysTraced(initial, config, factoryThrows);
      StartCarries(initial, config, factoryThrows);
    }
    var connected: State<D, M> := Connect(config, hasSignal, aborted, factoryThrows);
    CarryingStaysDelivered(initial, connected, decode);
    CarryingKeepsOrder(initial, connected);
  }

  lemma CarryingKeepsOrder<D, M>(s: State<D, M>, s': State<D, M>)
    requires Carries(s, s') && InOrder(s.log)
    ensures InOrder(s'.log)
  {
    QuietlyKeepsOrder(s.log, s'.log);
  }

  lemma NothingDelivered<M>()
    ensures forall k: nat :: Messages<M>([], k) == []
  {
  }

  /** Safety over every interleaving: attempts and sockets are bounded, one
      socket at most has the handlers, "closed" is emitted once and last exactly
      when the connection ended, ready is settled by then, nothing is left
      registered, and each socket delivered a decoded prefix of its frames, each
      frame under its own index. */
  lemma EveryRunIsSafe<D, M>(config: Config, decode: D -> Option<M>, hasSignal: bool, aborted: bool,
                             factoryThrows: bool, events: seq<Event<D>>)
    requires ValidPolicy(config.policy)
    requires Possible(Connect(config, hasSignal, aborted, factoryThrows), config, decode, events)
    ensures var s: State<D, M> := Run(Connect(config, hasSignal, aborted, factoryThrows), config, decode, events);
            var max := config.policy.maxAttempts;
            && |s.sockets| <= max && Attempts(s.log) <= max
            && (forall i | 0 <= i < |s.sockets| - 1 :: !s.sockets[i].attached)
            && (s.terminal <==> s.log != [] && s.log[|s.log| - 1].Closed?)
            && (forall i | 0 <= i < |s.log| - 1 :: !s.log[i].Closed?)
            && (s.terminal ==> s.ready == if s.everOpened then Resolved else Rejected)
            && (s.terminal ==> s.listeners == [] && s.closeListeners == [] && !s.abortable
                               && forall i | 0 <= i < |s.sockets| :: !s.sockets[i].attached)
            && (forall k | 0 <= k < |s.sockets| && s.terminal ::
                  s.sockets[k].handled || s.sockets[k].closeAsked || s.sockets[k].readyState >= 2)
            && (forall k | 0 <= k < |s.sockets| :: DecodedPrefix(Messages(s.log, k), s.sockets[k].received, decode))
            && InOrder(s.log)
  {
    hide Run, Scan, Connect, Messages, DecodedPrefix, InOrder;
    ConnectIsSafe<D, M>(config, decode, hasSignal, aborted, factoryThrows);
    RunsStaySafe(Connect(config, hasSignal, aborted, factoryThrows), config, decode, events);
    TraceMeans(Run<D, M>(Connect(config, hasSignal, aborted, factoryThrows), config, decode, events).log,
               config.policy);
  }

  function Asked<D>(events: seq<Event<D>>, l: nat): nat {
    if events == [] then 0 else (if events[0] == SubscribeClose(l) then 1 else 0) + Asked(events[1..], l)
  }

  lemma {:induction false} RunKeepsDues<D, M>(s: State<D, M>, config: Config, decode: D -> Option<M>,
                                              events: seq<Event<D>>, l: nat)
    requires Possible(s, config, decode, events)
    requires UnsubscribeClose(l) !in events && Dues(s, l) + Asked(events, l) <= 1
    ensures Dues(Run(s, config, decode, events), l) == Dues(s, l) + Asked(events, l)
    decreases |events|
  {
    hide Dues, Step;
    if events != [] {
      StepKeepsDues(s, config, decode, events[0], l);
      RunKeepsDues(Step(s, config, decode, events[0]), config, decode, events[1..], l);
    }
  }

  /** A close listener registered once, before or after the end, and never
      withdrawn, is called exactly once when the connection has ended, and not
      before. */
  lemma CloseListenerIsToldOnce<D, M>(config: Config, decode: D -> Option<M>, hasSignal: bool, aborted: bool,
                                      factoryThrows: bool, events: seq<Event<D>>, l: nat)
    requires ValidPolicy(config.policy)
    requires Possible(Connect(config, hasSignal, aborted, factoryThrows), config, decode, events)
    requires UnsubscribeClose(l) !in events && Asked(events, l) == 1
    ensures var s: State<D, M> := Run(Connect(config, hasSignal, aborted, factoryThrows), config, decode, events);
            Told(s.closeCalls, l) == if s.terminal then 1 else 0
  {
    hide Run, Step;
    var s: State<D, M> := Connect(config, hasSignal, aborted, factoryThrows);
    assert s.closeCalls == [] && s.closeListeners == [];
    RunKeepsDues(s, config, decode, events, l);
    ConnectIsSafe<D, M>(config, decode, hasSignal, aborted, factoryThrows);
    RunsStaySafe(s, config, decode, events);
  }

  // --- No connection is stranded ---

  /** Nothing will ever happen to this connection by itself, and it has not
      ended. */
  ghost predicate Stranded<D, M>(s: State<D, M>) {
    !s.terminal && !s.starting && s.sleeping.None? && (s.sockets == [] || !s.sockets[Current(s)].attached)
  }

  /** The event is a disconnect worth a retry. */
  predicate AsksForRetry<D, M>(s: State<D, M>, e: Event<D>, maxAttempts: int)
    requires Enabled(s, e)
  {
    && s.attempt < maxAttempts
    && match e
       case Errors(k, _, _) => s.sockets[k].readyState == 3
       case Closes(_, code, wasClean, _, _) => code != Some(1000) && wasClean != Some(true)
       case _ => false
  }

  predicate RandomOutOfRange<D>(e: Event<D>) {
    (e.Errors? || e.Closes?) && !(0.0 <= e.random <= 1.0)
  }

  /** The exact condition: a step leaves the connection stranded, without a
      socket, a timer or a "closed", if and only if it is a disconnect worth a
      retry for which the random source leaves [0, 1]: the delay computation
      throws, and nobody catches it. */
  lemma StrandedExactly<D, M>(s: State<D, M>, config: Config, decode: D -> Option<M>, e: Event<D>)
    requires ValidPolicy(config.policy) && Tidy(s, config.policy.maxAttempts) && Enabled(s, e) && !Stranded(s)
    ensures Stranded(Step(s, config, decode, e)) <==>
              AsksForRetry(s, e, config.policy.maxAttempts) && RandomOutOfRange(e)
  {
    if e.Errors? || e.Closes? {
      LosingStrands(s, config, decode, e);
    } else {
      hide Step, Stranded, Tidy;
      OthersLeadOn(s, config, decode, e);
    }
  }

  lemma LosingStrands<D, M>(s: State<D, M>, config: Config, decode: D -> Option<M>, e: Event<D>)
    requires ValidPolicy(config.policy) && Tidy(s, config.policy.maxAttempts) && Enabled(s, e) && !Stranded(s)
    requires e.Errors? || e.Closes?
    ensures Stranded(Step(s, config, decode, e)) <==>
              AsksForRetry(s, e, config.policy.maxAttempts) && RandomOutOfRange(e)
  {
    hide Tidy, Disconnect, Stranded;
    if e.Errors? {
      DisconnectStrands(s, config.policy, e.socket, 1006, false, e.random, e.elapsedMs);
    } else {
      DisconnectStrands(s, config.policy, e.socket, if e.code.Some? then e.code.value else 1006,
                        e.wasClean.Some? && e.wasClean.value, e.random, e.elapsedMs);
    }
  }

  lemma OthersLeadOn<D, M>(s: State<D, M>, config: Config, decode: D -> Option<M>, e: Event<D>)
    requires Tidy(s, config.policy.maxAttempts) && Enabled(s, e) && !Stranded(s) && !e.Errors? && !e.Closes?
    ensures !Stranded(Step(s, config, decode, e))
  {
    hide Tidy, Finish, ShutDown, AttachOrFail, Added, Removed, Calls;
    EndingEnds(s);
    if e.SleepSettles? {
      EndingEnds(s.(sleeping := None));
      var awake := s.(sleeping := None, attempt := s.attempt + 1, log := s.log + [Connecting(s.attempt + 1)]);
      StartingLeadsOn(awake, e.factoryThrows);
    } else if e.StartSettles? {
      EndingEnds(s.(starting := false));
      StartingLeadsOn(s.(starting := false), e.factoryThrows);
    } else if e.DecodeSettles? {
      var socket := s.sockets[e.socket];
      EndingEnds(Put(s, e.socket, socket.(decoding := false, settled := socket.settled + 1)));
    } else {
      EndingEnds(s.(abortable := false));
    }
  }

  lemma EndingEnds<D, M>(s: State<D, M>)
    ensures forall error :: Finish(s, error).terminal && ShutDown(s, error).terminal
  {
    hide Calls, Detached, AskedToClose;
  }

  lemma StartingLeadsOn<D, M>(s: State<D, M>, factoryThrows: bool)
    ensures !Stranded(AttachOrFail(s, factoryThrows))
  {
    hide Finish;
    EndingEnds(s);
  }

  lemma DisconnectStrands<D, M>(s: State<D, M>, policy: RetryPolicy, k: nat, code: int, wasClean: bool, random: real,
                                elapsedMs: real)
    requires ValidPolicy(policy) && Tidy(s, policy.maxAttempts) && k < |s.sockets| && s.sockets[k].attached
    ensures Stranded(Disconnect(s, policy, k, code, wasClean, random, elapsedMs)) <==>
            !wasClean && code != 1000 && s.attempt < policy.maxAttempts && !(0.0 <= random <= 1.0)
  {
    hide Finish, SleepFits, Jittered, Round;
    var handled := Put(s, k, s.sockets[k].(handled := true));
    EndingEnds(handled.(sockets := Detached(handled.sockets)));
    assert ComputeBackoffDelay(policy, s.attempt, random, None).None? <==> !(0.0 <= random <= 1.0);
  }
}
