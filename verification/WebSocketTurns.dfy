/** The course of a WebSocket connection, event by event: when it ends and why,
    when it waits to try again, when an attempt begins, opens and sends. */
module WebSocketTurns {
  import opened Prelude
  import opened Backoff
  import opened Listeners
  import opened WebSocket
  import opened WebSocketRuns
  import opened WebSocketListening

  /** The event shows that a socket's connection is lost: a close, or an error of a
      socket that is closed. */
  predicate Loses<D, M>(s: State<D, M>, e: Event<D>)
    requires Enabled(s, e)
  {
    e.Closes? || (e.Errors? && s.sockets[e.socket].readyState == 3)
  }

  function LossCode<D>(e: Event<D>): int { if e.Closes? && e.code.Some? then e.code.value else 1006 }

  /** The delay before the attempt after this one. */
  function NextDelay<D, M>(s: State<D, M>, p: RetryPolicy, random: real): int
    requires ValidPolicy(p) && s.attempt >= 1 && 0.0 <= random <= 1.0
  {
    DelayRefusedExactly(p, s.attempt, random, None);
    ComputeBackoffDelay(p, s.attempt, random, None).value
  }

  /** A loss is final when the close was clean or normal, the attempts are used up,
      or the wait would end after the deadline. */
  predicate FinalLoss<D, M>(s: State<D, M>, p: RetryPolicy, e: Event<D>)
    requires ValidPolicy(p) && Enabled(s, e) && Loses(s, e) && s.attempt >= 1
  {
    || (e.Closes? && e.wasClean == Some(true)) || LossCode(e) == 1000 || s.attempt >= p.maxAttempts
    || (0.0 <= e.random <= 1.0 && p.deadlineMs.Some?
        && e.elapsedMs + NextDelay(s, p, e.random) as real > p.deadlineMs.value)
  }

  /** The event ends the connection, with this error. */
  predicate Ends<D, M>(s: State<D, M>, config: Config, decode: D -> Option<M>, e: Event<D>, error: Option<Fault>)
    requires ValidPolicy(config.policy) && Enabled(s, e) && s.attempt >= 1
  {
    || (e.Frame? && e.socket == |s.sockets| - 1 && e.bytes > config.maxFrameBytes && error == Some(DecodeFailed))
    || (e.DecodeSettles? && e.socket == |s.sockets| - 1 && error == Some(DecodeFailed)
        && decode(s.sockets[e.socket].received[s.sockets[e.socket].settled]).None?)
    || (Loses(s, e) && FinalLoss(s, config.policy, e) && error == Some(ConnectionClosed(LossCode(e))))
    || (e.StartSettles? && (e.rejects || e.factoryThrows) && error == Some(ConnectFailed))
    || (e.SleepSettles? && !e.ok && error == Some(ConnectionClosed(s.sleeping.value)))
    || (e.SleepSettles? && e.ok && !config.deferred && e.factoryThrows && error == Some(ConnectFailed))
    || (e.AbortFires? && error == Some(Aborted))
    || (e.CloseCalled? && error == None)
  }

  /** Every call to a close listener names the cause. */
  ghost predicate ToldTheCause<D, M>(s: State<D, M>) {
    && (!s.terminal ==> s.closeCalls == [])
    && forall i | 0 <= i < |s.closeCalls| :: s.closeCalls[i].error == s.closeError
  }

  /** An event that begins no attempt and no wait: who is told of the close is told
      the cause, which stays. */
  ghost predicate Stays<D, M>(s: State<D, M>, s': State<D, M>) {
    && s'.attempt == s.attempt && s'.sleeping == s.sleeping
    && (ToldTheCause(s) ==> ToldTheCause(s') && (s.terminal ==> s'.terminal && s'.closeError == s.closeError))
  }

  lemma FinishStays<D, M>(s: State<D, M>, error: Option<Fault>)
    ensures Stays(s, Finish(s, error)) && Stays(s, ShutDown(s, error))
  {
    hide Detached, AskedToClose;
  }

  lemma DecodingStays<D, M>(s: State<D, M>, config: Config, decode: D -> Option<M>, e: Event<D>)
    requires Enabled(s, e) && e.DecodeSettles?
    ensures Stays(s, Step(s, config, decode, e))
  {
    hide ShutDown;
    var socket := s.sockets[e.socket];
    FinishStays(Put(s, e.socket, socket.(decoding := false, settled := socket.settled + 1)), Some(DecodeFailed));
  }

  lemma ArrivingStays<D, M>(s: State<D, M>, config: Config, decode: D -> Option<M>, e: Event<D>)
    requires Enabled(s, e) && (e.DecodeStarts? || e.Frame? || e.ReadyStateMoves?)
    ensures Stays(s, Step(s, config, decode, e))
  {
    hide ShutDown;
    FinishStays(s, Some(DecodeFailed));
  }

  lemma CallingStays<D, M>(s: State<D, M>, config: Config, decode: D -> Option<M>, e: Event<D>)
    requires Enabled(s, e) && (e.Opens? || e.AbortFires? || e.CloseCalled? || e.Send?)
    ensures Stays(s, Step(s, config, decode, e))
  {
    hide ShutDown;
    FinishStays(s.(abortable := false), Some(Aborted));
    FinishStays(s, None);
  }

  lemma SubscribingStays<D, M>(s: State<D, M>, config: Config, decode: D -> Option<M>, e: Event<D>)
    requires Enabled(s, e) && (e.Subscribe? || e.Unsubscribe? || e.SubscribeClose? || e.UnsubscribeClose?)
    ensures Stays(s, Step(s, config, decode, e))
  {
    hide Added, Removed;
  }

  lemma OtherStays<D, M>(s: State<D, M>, config: Config, decode: D -> Option<M>, e: Event<D>)
    requires Enabled(s, e) && !e.SleepSettles? && !e.StartSettles? && !Loses(s, e)
    ensures Stays(s, Step(s, config, decode, e))
  {
    if e.Errors? {
      assert Step(s, config, decode, e) == s;
    } else {
      hide Step, Stays;
      if e.DecodeSettles? {
        DecodingStays(s, config, decode, e);
      } else if e.DecodeStarts? || e.Frame? || e.ReadyStateMoves? {
        ArrivingStays(s, config, decode, e);
      } else if e.Opens? || e.AbortFires? || e.CloseCalled? || e.Send? {
        CallingStays(s, config, decode, e);
      } else {
        SubscribingStays(s, config, decode, e);
      }
    }
  }

  lemma FinishEnds<D, M>(s: State<D, M>, error: Option<Fault>)
    requires !s.terminal
    ensures Finish(s, error).terminal && Finish(s, error).closeError == error
    ensures ShutDown(s, error).terminal && ShutDown(s, error).closeError == error
  {
    hide Calls, Detached, AskedToClose;
  }

  lemma AttachedIsLive<D, M>(s: State<D, M>, maxAttempts: int)
    requires Tidy(s, maxAttempts)
    ensures s.attempt >= 1
    ensures forall k | 0 <= k < |s.sockets| && s.sockets[k].attached ::
              k == |s.sockets| - 1 && !s.terminal && !s.sockets[k].handled && s.sleeping.None?
  {
  }

  lemma DisconnectTurns<D, M>(s: State<D, M>, p: RetryPolicy, e: Event<D>, k: nat, code: int, wasClean: bool)
    requires ValidPolicy(p) && Enabled(s, e) && Loses(s, e) && s.attempt >= 1 && Live(s, k) && k < |s.sockets|
    requires !s.sockets[k].handled && code == LossCode(e) && wasClean == (e.Closes? && e.wasClean == Some(true))
    ensures var s' := Disconnect(s, p, k, code, wasClean, e.random, e.elapsedMs);
            && s'.attempt == s.attempt
            && (s'.terminal <==> FinalLoss(s, p, e))
            && (s'.terminal ==> s'.closeError == Some(ConnectionClosed(code)))
            && (!s'.terminal && 0.0 <= e.random <= 1.0 ==>
                s'.sleeping == Some(code) &&
                s'.log == s.log + [Retrying(s.attempt, NextDelay(s, p, e.random), e.elapsedMs)])
            && (!s'.terminal && !(0.0 <= e.random <= 1.0) ==> s'.sleeping == s.sleeping && s'.log == s.log)
  {
    hide Finish, Detached, ComputeBackoffDelay;
    var left := Put(s, k, s.sockets[k].(handled := true));
    DelayRefusedExactly(p, s.attempt, e.random, None);
    FinishEnds(left.(sockets := Detached(left.sockets)), Some(ConnectionClosed(code)));
    FinishStays(left.(sockets := Detached(left.sockets)), Some(ConnectionClosed(code)));
  }

  lemma LosingTurns<D, M>(s: State<D, M>, config: Config, decode: D -> Option<M>, e: Event<D>)
    requires ValidPolicy(config.policy) && Tidy(s, config.policy.maxAttempts) && Enabled(s, e)
    requires !s.terminal && s.attempt >= 1 && Loses(s, e)
    ensures var s' := Step(s, config, decode, e);
            && s'.attempt == s.attempt
            && (s'.terminal <==> FinalLoss(s, config.policy, e))
            && (s'.terminal ==> s'.closeError == Some(ConnectionClosed(LossCode(e))))
            && (!s'.terminal && 0.0 <= e.random <= 1.0 ==>
                s'.sleeping == Some(LossCode(e)) &&
                s'.log == s.log + [Retrying(s.attempt, NextDelay(s, config.policy, e.random), e.elapsedMs)])
            && (!s'.terminal && !(0.0 <= e.random <= 1.0) ==> s'.sleeping == s.sleeping && s'.log == s.log)
  {
    AttachedIsLive(s, config.policy.maxAttempts);
    hide Tidy, Disconnect, FinalLoss, NextDelay;
    DisconnectTurns(s, config.policy, e, e.socket, LossCode(e), e.Closes? && e.wasClean == Some(true));
  }

  /** Exactly when an event ends the connection, and the error it ends with. */
  lemma EndsExactly<D, M>(s: State<D, M>, config: Config, decode: D -> Option<M>, e: Event<D>)
    requires ValidPolicy(config.policy) && Tidy(s, config.policy.maxAttempts) && Enabled(s, e)
    requires !s.terminal && s.attempt >= 1
    ensures var s' := Step(s, config, decode, e);
            forall error :: Ends(s, config, decode, e, error) <==> s'.terminal && s'.closeError == error
  {
    if Loses(s, e) {
      hide Step, Tidy, FinalLoss;
      LosingTurns(s, config, decode, e);
    } else if e.SleepSettles? || e.StartSettles? {
      hide Step, Tidy;
      LeadingOnEnds(s, config, decode, e);
    } else if e.Frame? || e.DecodeSettles? {
      hide Step, Tidy, FinalLoss;
      FrameEnds(s, config, decode, e);
    } else {
      hide Step, Tidy, FinalLoss;
      OtherEnds(s, config, decode, e);
    }
  }

  lemma LeadingOnEnds<D, M>(s: State<D, M>, config: Config, decode: D -> Option<M>, e: Event<D>)
    requires ValidPolicy(config.policy) && Enabled(s, e) && !s.terminal && s.attempt >= 1
    requires e.SleepSettles? || e.StartSettles?
    ensures var s' := Step(s, config, decode, e);
            if e.StartSettles? then
              && s'.terminal == (e.rejects || e.factoryThrows) && s'.attempt == s.attempt
              && (s'.terminal ==> s'.closeError == Some(ConnectFailed))
            else
              && s'.terminal == (!e.ok || (!config.deferred && e.factoryThrows))
              && (s'.terminal ==>
                  s'.closeError == Some(if e.ok then ConnectFailed else ConnectionClosed(s.sleeping.value)))
  {
    hide Finish;
    if e.StartSettles? {
      FinishEnds(s.(starting := false), Some(ConnectFailed));
      FinishStays(s.(starting := false), Some(ConnectFailed));
    } else {
      FinishEnds(s.(sleeping := None), Some(ConnectionClosed(s.sleeping.value)));
      var next := s.(sleeping := None, attempt := s.attempt + 1);
      FinishEnds(next.(log := next.log + [Connecting(next.attempt)]), Some(ConnectFailed));
    }
  }

  lemma FrameEnds<D, M>(s: State<D, M>, config: Config, decode: D -> Option<M>, e: Event<D>)
    requires ValidPolicy(config.policy) && Enabled(s, e) && !s.terminal && s.attempt >= 1
    requires e.Frame? || e.DecodeSettles?
    ensures var s' := Step(s, config, decode, e);
            forall error :: Ends(s, config, decode, e, error) <==> s'.terminal && s'.closeError == error
  {
    hide ShutDown, FinalLoss, NextDelay;
    FinishEnds(s, Some(DecodeFailed));
    if e.DecodeSettles? {
      var socket := s.sockets[e.socket];
      FinishEnds(Put(s, e.socket, socket.(decoding := false, settled := socket.settled + 1)), Some(DecodeFailed));
    }
  }

  lemma OtherEnds<D, M>(s: State<D, M>, config: Config, decode: D -> Option<M>, e: Event<D>)
    requires ValidPolicy(config.policy) && Enabled(s, e) && !s.terminal && s.attempt >= 1
    requires !Loses(s, e) && !e.SleepSettles? && !e.StartSettles? && !e.Frame? && !e.DecodeSettles?
    ensures var s' := Step(s, config, decode, e);
            forall error :: Ends(s, config, decode, e, error) <==> s'.terminal && s'.closeError == error
  {
    hide ShutDown, Added, Removed, FinalLoss, NextDelay;
    FinishEnds(s.(abortable := false), Some(Aborted));
    FinishEnds(s, None);
  }

  /** Exactly when a wait begins: a loss that is not final, for which the delay can
      be computed; the wait and its delay are announced. */
  lemma WaitsExactly<D, M>(s: State<D, M>, config: Config, decode: D -> Option<M>, e: Event<D>)
    requires ValidPolicy(config.policy) && Tidy(s, config.policy.maxAttempts) && Enabled(s, e)
    requires !s.terminal && s.attempt >= 1
    ensures var s' := Step(s, config, decode, e);
            var waits := Loses(s, e) && !FinalLoss(s, config.policy, e) && 0.0 <= e.random <= 1.0;
            && (s.sleeping.None? && s'.sleeping.Some? <==> waits)
            && (waits ==>
                && !s'.terminal && s'.attempt == s.attempt && s'.sleeping == Some(LossCode(e))
                && s'.log == s.log + [Retrying(s.attempt, NextDelay(s, config.policy, e.random), e.elapsedMs)])
  {
    if Loses(s, e) {
      AttachedIsLive(s, config.policy.maxAttempts);
      hide Step, Tidy, FinalLoss;
      LosingTurns(s, config, decode, e);
      if FinalLoss(s, config.policy, e) {
        EndingKeepsSleeping(s, config, decode, e);
      }
    } else if e.SleepSettles? || e.StartSettles? {
      LeadingOnStays(s, config, decode, e);
    } else {
      OtherStays(s, config, decode, e);
    }
  }

  lemma LeadingOnStays<D, M>(s: State<D, M>, config: Config, decode: D -> Option<M>, e: Event<D>)
    requires Enabled(s, e) && (e.SleepSettles? || e.StartSettles?)
    ensures Step(s, config, decode, e).sleeping == if e.SleepSettles? then None else s.sleeping
  {
    hide Finish;
    if e.SleepSettles? {
      FinishStays(s.(sleeping := None), Some(ConnectionClosed(s.sleeping.value)));
      var next := s.(sleeping := None, attempt := s.attempt + 1);
      FinishStays(next.(log := next.log + [Connecting(next.attempt)]), Some(ConnectFailed));
    } else {
      FinishStays(s.(starting := false), Some(ConnectFailed));
    }
  }

  lemma EndingKeepsSleeping<D, M>(s: State<D, M>, config: Config, decode: D -> Option<M>, e: Event<D>)
    requires Enabled(s, e) && Loses(s, e) && Step(s, config, decode, e).terminal && !s.terminal
    ensures Step(s, config, decode, e).sleeping == s.sleeping
  {
    hide Finish, Detached, ComputeBackoffDelay, SleepFits;
    var left := Put(s, e.socket, s.sockets[e.socket].(handled := true));
    FinishStays(left.(sockets := Detached(left.sockets)), Some(ConnectionClosed(LossCode(e))));
  }

  /** A wait that ends begins the next attempt, and announces it; its socket is made
      then or, if the target is computed, when that is known. */
  lemma WakingBeginsTheNext<D, M>(s: State<D, M>, config: Config, decode: D -> Option<M>, e: Event<D>)
    requires Enabled(s, e) && !s.terminal && !Step(s, config, decode, e).terminal
    requires e.SleepSettles? || e.StartSettles?
    ensures var s' := Step(s, config, decode, e);
            && s'.sockets == (if e.SleepSettles? && config.deferred then s.sockets
                              else s.sockets + [Socket(0, [], 0, false, false, false, true)])
            && s'.starting == (if e.SleepSettles? then s.starting || config.deferred else false)
            && s'.attempt == (if e.SleepSettles? then s.attempt + 1 else s.attempt)
            && s'.log == s.log + (if e.SleepSettles? then [Connecting(s.attempt + 1)] else [])
            && s'.sleeping == if e.SleepSettles? then None else s.sleeping
  {
    hide Finish;
    if e.StartSettles? {
      FinishEnds(s.(starting := false), Some(ConnectFailed));
    } else {
      FinishEnds(s.(sleeping := None), Some(ConnectionClosed(s.sleeping.value)));
      var next := s.(sleeping := None, attempt := s.attempt + 1);
      FinishEnds(next.(log := next.log + [Connecting(next.attempt)]), Some(ConnectFailed));
    }
  }

  /** The live socket opening resolves ready and is announced, as a connection the
      first time and as a reconnection later; a message to send goes to the live
      socket if and only if that is open, and is announced then. */
  lemma OpensAndSends<D, M>(s: State<D, M>, config: Config, decode: D -> Option<M>, e: Event<D>)
    requires Tidy(s, config.policy.maxAttempts) && Enabled(s, e)
    ensures e.Opens? ==>
              var s' := Step(s, config, decode, e);
              && s'.ready == Resolved
              && s'.log == s.log + [if s.attempt > 1 then Reconnected(s.attempt) else Connected(1)]
    ensures e.Send? ==>
              var s' := Step(s, config, decode, e);
              if !s.terminal && s.sockets != [] && s.sockets[|s.sockets| - 1].readyState == 1 &&
                 !e.aborted && e.encodes && e.taken
              then s'.log == s.log + [Sent(|s.sockets| - 1, e.messageId)] else s'.log == s.log
  {
    AttachedIsLive(s, config.policy.maxAttempts);
  }

  // --- Whole runs ---

  /** Once over, it stays over, for the same cause. */
  lemma StepTells<D, M>(s: State<D, M>, config: Config, decode: D -> Option<M>, e: Event<D>)
    requires Enabled(s, e) && ToldTheCause(s)
    ensures var s' := Step(s, config, decode, e);
            ToldTheCause(s') && (s.terminal ==> s'.terminal && s'.closeError == s.closeError)
  {
    hide Step, ToldTheCause;
    if e.SleepSettles? || e.StartSettles? {
      LeadingOnTells(s, config, decode, e);
    } else if Loses(s, e) {
      LosingTells(s, config, decode, e);
    } else {
      OtherStays(s, config, decode, e);
    }
  }

  lemma LeadingOnTells<D, M>(s: State<D, M>, config: Config, decode: D -> Option<M>, e: Event<D>)
    requires Enabled(s, e) && ToldTheCause(s) && (e.SleepSettles? || e.StartSettles?)
    ensures var s' := Step(s, config, decode, e);
            ToldTheCause(s') && (s.terminal ==> s'.terminal && s'.closeError == s.closeError)
  {
    if e.SleepSettles? {
      hide Finish, SettleSleep;
      WakingTells(s, config, e.ok, e.factoryThrows);
    } else {
      hide Finish;
      FinishStays(s.(starting := false), Some(ConnectFailed));
    }
  }

  lemma LosingTells<D, M>(s: State<D, M>, config: Config, decode: D -> Option<M>, e: Event<D>)
    requires Enabled(s, e) && ToldTheCause(s) && (e.Errors? || e.Closes?)
    ensures var s' := Step(s, config, decode, e);
            ToldTheCause(s') && (s.terminal ==> s'.terminal && s'.closeError == s.closeError)
  {
    hide Finish, Detached, ComputeBackoffDelay, SleepFits;
    var left := Put(s, e.socket, s.sockets[e.socket].(handled := true));
    FinishStays(left.(sockets := Detached(left.sockets)), Some(ConnectionClosed(LossCode(e))));
  }

  lemma WakingTells<D, M>(s: State<D, M>, config: Config, ok: bool, factoryThrows: bool)
    requires s.sleeping.Some? && ToldTheCause(s)
    ensures var s' := SettleSleep(s, config, ok, factoryThrows);
            ToldTheCause(s') && (s.terminal ==> s'.terminal && s'.closeError == s.closeError)
  {
    hide Finish;
    FinishStays(s.(sleeping := None), Some(ConnectionClosed(s.sleeping.value)));
    var next := s.(sleeping := None, attempt := s.attempt + 1);
    FinishStays(next.(log := next.log + [Connecting(next.attempt)]), Some(ConnectFailed));
  }

  lemma {:induction false} RunsTell<D, M>(s: State<D, M>, config: Config, decode: D -> Option<M>, events: seq<Event<D>>)
    requires Possible(s, config, decode, events) && ToldTheCause(s)
    ensures var s' := Run(s, config, decode, events);
            ToldTheCause(s') && (s.terminal ==> s'.terminal && s'.closeError == s.closeError)
    decreases |events|
  {
    hide Step, ToldTheCause;
    if events != [] {
      StepTells(s, config, decode, events[0]);
      RunsTell(Step(s, config, decode, events[0]), config, decode, events[1..]);
    }
  }

  lemma ConnectTells<D, M>(hasSignal: bool, aborted: bool, config: Config, factoryThrows: bool)
    ensures ToldTheCause<D, M>(Connect(config, hasSignal, aborted, factoryThrows))
  {
  }

  /** Whoever is told of the close, by whatever run, is told the error of the event
      that ended the connection. */
  lemma CloseErrorExactly<D, M>(config: Config, decode: D -> Option<M>, hasSignal: bool, aborted: bool,
                                factoryThrows: bool, a: seq<Event<D>>, e: Event<D>, b: seq<Event<D>>)
    requires ValidPolicy(config.policy)
    requires Possible(Connect(config, hasSignal, aborted, factoryThrows), config, decode, a + [e] + b)
    ensures Possible(Connect(config, hasSignal, aborted, factoryThrows), config, decode, a)
    ensures Enabled(Run<D, M>(Connect(config, hasSignal, aborted, factoryThrows), config, decode, a), e)
    ensures var start: State<D, M> := Connect(config, hasSignal, aborted, factoryThrows);
            var s := Run(start, config, decode, a);
            var s', end := Step(s, config, decode, e), Run(start, config, decode, a + [e] + b);
            !s.terminal && s'.terminal ==>
              && s.attempt >= 1 && Ends(s, config, decode, e, end.closeError) && end.terminal
              && forall i | 0 <= i < |end.closeCalls| :: end.closeCalls[i].error == end.closeError
  {
    hide Step, Connect, Ends, ToldTheCause;
    var start: State<D, M> := Connect(config, hasSignal, aborted, factoryThrows);
    RunInParts(start, config, decode, a + [e], b);
    OneMoreEvent(start, config, decode, a, e);
    var s := Run(start, config, decode, a);
    ConnectTells<D, M>(hasSignal, aborted, config, factoryThrows);
    RunsTell(start, config, decode, a);
    StepTells(s, config, decode, e);
    RunsTell(Step(s, config, decode, e), config, decode, b);
    ConnectIsSafe<D, M>(config, decode, hasSignal, aborted, factoryThrows);
    RunsStaySafe(start, config, decode, a);
    if !s.terminal {
      CauseOf(s, config, decode, e);
    }
    TheCause(Run(start, config, decode, a + [e] + b));
  }

  lemma TheCause<D, M>(s: State<D, M>)
    requires ToldTheCause(s)
    ensures forall i | 0 <= i < |s.closeCalls| :: s.closeCalls[i].error == s.closeError
  {
  }

  lemma CauseOf<D, M>(s: State<D, M>, config: Config, decode: D -> Option<M>, e: Event<D>)
    requires ValidPolicy(config.policy) && Tidy(s, config.policy.maxAttempts) && Enabled(s, e) && !s.terminal
    ensures s.attempt >= 1
    ensures var s' := Step(s, config, decode, e); s'.terminal ==> Ends(s, config, decode, e, s'.closeError)
  {
    AttachedIsLive(s, config.policy.maxAttempts);
    hide Step, Tidy;
    EndsExactly(s, config, decode, e);
  }

  function Wakings<D>(events: seq<Event<D>>): nat {
    if events == [] then 0 else Wakings(events[..|events| - 1]) + if events[|events| - 1].SleepSettles? then 1 else 0
  }

  lemma StepCounts<D, M>(s: State<D, M>, config: Config, decode: D -> Option<M>, e: Event<D>)
    requires ValidPolicy(config.policy) && Tidy(s, config.policy.maxAttempts) && Enabled(s, e) && ToldTheCause(s)
    requires !Step(s, config, decode, e).terminal
    ensures !s.terminal && Step(s, config, decode, e).attempt == s.attempt + if e.SleepSettles? then 1 else 0
  {
    AttachedIsLive(s, config.policy.maxAttempts);
    hide Step, Tidy, ToldTheCause, FinalLoss;
    StepTells(s, config, decode, e);
    if Loses(s, e) {
      LosingTurns(s, config, decode, e);
    } else if e.SleepSettles? || e.StartSettles? {
      WakingBeginsTheNext(s, config, decode, e);
    } else {
      OtherStays(s, config, decode, e);
    }
  }

  /** A connection that is not over has begun one attempt more than it has ended
      waits. */
  lemma {:induction false} AttemptsExactly<D, M>(config: Config, decode: D -> Option<M>, hasSignal: bool, aborted: bool,
                                                 factoryThrows: bool, events: seq<Event<D>>)
    requires ValidPolicy(config.policy)
    requires Possible(Connect(config, hasSignal, aborted, factoryThrows), config, decode, events)
    ensures var s: State<D, M> := Run(Connect(config, hasSignal, aborted, factoryThrows), config, decode, events);
            !s.terminal ==> s.attempt == 1 + Wakings(events) == Attempts(s.log)
    decreases |events|
  {
    hide Step, Tidy, ToldTheCause;
    var start: State<D, M> := Connect(config, hasSignal, aborted, factoryThrows);
    ConnectIsSafe<D, M>(config, decode, hasSignal, aborted, factoryThrows);
    ConnectTells<D, M>(hasSignal, aborted, config, factoryThrows);
    RunsStaySafe(start, config, decode, events);
    TraceMeans(Run(start, config, decode, events).log, config.policy);
    if events != [] {
      hide Connect, Traced;
      var init, last := events[..|events| - 1], events[|events| - 1];
      assert events == init + [last];
      OneMoreEvent(start, config, decode, init, last);
      AttemptsExactly<D, M>(config, decode, hasSignal, aborted, factoryThrows, init);
      RunsStaySafe(start, config, decode, init);
      RunsTell(start, config, decode, init);
      if !Run(start, config, decode, events).terminal {
        StepCounts(Run(start, config, decode, init), config, decode, last);
      }
    }
  }
}
