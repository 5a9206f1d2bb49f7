/** A reconnecting WebSocket connection: every handler is one atomic step, and
    steps interleave freely. */
module WebSocket {
  import opened Prelude
  import opened Backoff
  import opened Listeners

  /** One socket made by the factory. received: the frames its message handler
      queued; settled: how many of them the decode chain is done with; attached: it
      has the handlers. */
  datatype Socket<D> = Socket(readyState: int, received: seq<D>, settled: nat, decoding: bool, handled: bool,
                              closeAsked: bool, attached: bool)

  datatype Fault = ConnectFailed | ConnectionClosed(code: int) | DecodeFailed | Aborted

  datatype Ready = Undecided | Resolved | Rejected

  /** What observers see, in order. index: which of its socket's queued frames a
      message is the decoding of. */
  datatype Item<M> =
    | Connecting(attempt: int)
    | Connected(attempt: int)
    | Reconnected(attempt: int)
    | Retrying(attempt: int, delayMs: int, elapsedMs: real)
    | Closed(attempt: int)
    | Message(socket: nat, index: nat, message: M, to: seq<nat>)
    | Sent(socket: nat, messageId: Option<string>)

  /** deferred: the url or the protocols come from a function. */
  datatype Config = Config(policy: RetryPolicy, deferred: bool, maxFrameBytes: nat)

  /** The closure's variables. The variable `socket` is the last of sockets;
      abortable: the abort listener is registered; sleeping: the close code a
      retry waits with. */
  datatype State<D, M> = State(
    sockets: seq<Socket<D>>, attempt: int, everOpened: bool, terminal: bool, closeError: Option<Fault>,
    ready: Ready, listeners: seq<nat>, closeListeners: seq<nat>, closeCalls: seq<CloseCall<Fault>>,
    starting: bool, sleeping: Option<int>, abortable: bool, log: seq<Item<M>>)

  function Current<D, M>(s: State<D, M>): int { |s.sockets| - 1 }

  predicate Live<D, M>(s: State<D, M>, k: nat) { !s.terminal && k == Current(s) }

  datatype Event<D> =
    | Opens(socket: nat)
    | Frame(socket: nat, data: D, bytes: nat)
    | DecodeStarts(socket: nat)
    | DecodeSettles(socket: nat)
    | Errors(socket: nat, random: real, elapsedMs: real)
    | Closes(socket: nat, code: Option<int>, wasClean: Option<bool>, random: real, elapsedMs: real)
    | ReadyStateMoves(socket: nat, to: int)
    | StartSettles(rejects: bool, factoryThrows: bool)
    | SleepSettles(ok: bool, factoryThrows: bool)
    | AbortFires
    | CloseCalled
    | Subscribe(listener: nat)
    | Unsubscribe(listener: nat)
    | SubscribeClose(listener: nat)
    | UnsubscribeClose(listener: nat)
    | Send(messageId: Option<string>, aborted: bool, encodes: bool, taken: bool)

  /** What can happen next: handlers run while registered, promises settle while
      undecided, a ready state only moves forward. */
  predicate Enabled<D, M>(s: State<D, M>, e: Event<D>) {
    match e
    case Opens(k) => k < |s.sockets| && s.sockets[k].attached
    case Frame(k, _, _) => k < |s.sockets| && s.sockets[k].attached
    case DecodeStarts(k) => k < |s.sockets| && !s.sockets[k].decoding && s.sockets[k].settled < |s.sockets[k].received|
    case DecodeSettles(k) => k < |s.sockets| && s.sockets[k].decoding && s.sockets[k].settled < |s.sockets[k].received|
    case Errors(k, _, _) => k < |s.sockets| && s.sockets[k].attached
    case Closes(k, _, _, _, _) => k < |s.sockets| && s.sockets[k].attached
    case ReadyStateMoves(k, to) => k < |s.sockets| && s.sockets[k].readyState <= to
    case StartSettles(_, _) => s.starting
    case SleepSettles(_, _) => s.sleeping.Some?
    case AbortFires => s.abortable
    case _ => true
  }

  // --- The steps ---

  /** cleanupSocket: it belongs to the socket attached last. */
  function Detached<D>(sockets: seq<Socket<D>>): (left: seq<Socket<D>>)
    ensures |left| == |sockets|
  {
    if sockets == [] then sockets else sockets[|sockets| - 1 := sockets[|sockets| - 1].(attached := false)]
  }

  function Finish<D, M>(s: State<D, M>, error: Option<Fault>): State<D, M> {
    if s.terminal then s
    else s.(terminal := true, closeError := error, sockets := Detached(s.sockets), abortable := false,
            ready := if s.everOpened then s.ready else Rejected, log := s.log + [Closed(s.attempt)],
            closeCalls := s.closeCalls + Calls(s.closeListeners, error), closeListeners := [], listeners := [])
  }

  function AskedToClose<D>(sockets: seq<Socket<D>>): seq<Socket<D>> {
    if sockets == [] || sockets[|sockets| - 1].readyState >= 2 then sockets
    else sockets[|sockets| - 1 := sockets[|sockets| - 1].(closeAsked := true)]
  }

  /** Ends the connection from this side: the last socket is asked to close. */
  function ShutDown<D, M>(s: State<D, M>, error: Option<Fault>): State<D, M> {
    if s.terminal then s else Finish(s.(sockets := AskedToClose(s.sockets)), error)
  }

  function FailDecode<D, M>(s: State<D, M>, k: nat): State<D, M> {
    if !Live(s, k) then s else ShutDown(s, Some(DecodeFailed))
  }

  function Attach<D, M>(s: State<D, M>): State<D, M> {
    s.(sockets := s.sockets + [Socket(0, [], 0, false, false, false, true)])
  }

  function AttachOrFail<D, M>(s: State<D, M>, factoryThrows: bool): State<D, M> {
    if factoryThrows then Finish(s, Some(ConnectFailed)) else Attach(s)
  }

  function Start<D, M>(s: State<D, M>, config: Config, factoryThrows: bool): State<D, M> {
    var announced := s.(log := s.log + [Connecting(s.attempt)]);
    if config.deferred then announced.(starting := true) else AttachOrFail(announced, factoryThrows)
  }

  function Initial<D, M>(abortable: bool): State<D, M> {
    State([], 1, false, false, None, Undecided, [], [], [], false, None, abortable, [])
  }

  /** connect(). */
  function Connect<D, M>(config: Config, hasSignal: bool, aborted: bool, factoryThrows: bool): State<D, M> {
    var initial := Initial(hasSignal && !aborted);
    if hasSignal && aborted then Finish(initial, Some(Aborted)) else Start(initial, config, factoryThrows)
  }

  function Open<D, M>(s: State<D, M>, k: nat): State<D, M> {
    if !Live(s, k) then s
    else s.(everOpened := true, ready := Resolved,
            log := s.log + [if s.attempt == 1 then Connected(s.attempt) else Reconnected(s.attempt)])
  }

  function Put<D, M>(s: State<D, M>, k: nat, socket: Socket<D>): State<D, M>
    requires k < |s.sockets|
  {
    s.(sockets := s.sockets[k := socket])
  }

  function TakeFrame<D, M>(s: State<D, M>, config: Config, k: nat, data: D, bytes: nat): State<D, M>
    requires k < |s.sockets|
  {
    if bytes > config.maxFrameBytes then FailDecode(s, k)
    else Put(s, k, s.sockets[k].(received := s.sockets[k].received + [data]))
  }

  /** A link of the decode chain begins: it is skipped once the socket is not
      the live one. */
  function BeginDecode<D, M>(s: State<D, M>, k: nat): State<D, M>
    requires k < |s.sockets|
  {
    if Live(s, k) then Put(s, k, s.sockets[k].(decoding := true))
    else Put(s, k, s.sockets[k].(settled := s.sockets[k].settled + 1))
  }

  function SettleDecode<D, M>(s: State<D, M>, decode: D -> Option<M>, k: nat): State<D, M>
    requires k < |s.sockets| && s.sockets[k].settled < |s.sockets[k].received|
  {
    var decoded := decode(s.sockets[k].received[s.sockets[k].settled]);
    var s' := Put(s, k, s.sockets[k].(decoding := false, settled := s.sockets[k].settled + 1));
    if decoded.None? then FailDecode(s', k)
    else if Live(s', k) then s'.(log := s'.log + [Message(k, s.sockets[k].settled, decoded.value, s'.listeners)])
    else s'
  }

  function HandleClose<D, M>(s: State<D, M>, policy: RetryPolicy, code: int, wasClean: bool, random: real,
                             elapsedMs: real)
    : State<D, M>
  {
    var detached := s.(sockets := Detached(s.sockets));
    if wasClean || code == 1000 || s.attempt >= policy.maxAttempts then Finish(detached, Some(ConnectionClosed(code)))
    else
      var delay := ComputeBackoffDelay(policy, s.attempt, random, None);
      if delay.None? then detached
      else if !SleepFits(policy, elapsedMs, delay.value) then Finish(detached, Some(ConnectionClosed(code)))
      else detached.(log := s.log + [Retrying(s.attempt, delay.value, elapsedMs)], sleeping := Some(code))
  }

  function Disconnect<D, M>(s: State<D, M>, policy: RetryPolicy, k: nat, code: int, wasClean: bool, random: real,
                            elapsedMs: real)
    : State<D, M>
    requires k < |s.sockets|
  {
    if s.sockets[k].handled || !Live(s, k) then s
    else HandleClose(Put(s, k, s.sockets[k].(handled := true)), policy, code, wasClean, random, elapsedMs)
  }

  function SettleStart<D, M>(s: State<D, M>, rejects: bool, factoryThrows: bool): State<D, M> {
    var settled := s.(starting := false);
    if rejects then Finish(settled, Some(ConnectFailed))
    else if s.terminal then settled
    else AttachOrFail(settled, factoryThrows)
  }

  function SettleSleep<D, M>(s: State<D, M>, config: Config, ok: bool, factoryThrows: bool): State<D, M>
    requires s.sleeping.Some?
  {
    var awake := s.(sleeping := None);
    if s.terminal then awake
    else if !ok then Finish(awake, Some(ConnectionClosed(s.sleeping.value)))
    else Start(awake.(attempt := s.attempt + 1), config, factoryThrows)
  }

  function ListenForClose<D, M>(s: State<D, M>, listener: nat): State<D, M> {
    if s.terminal then s.(closeCalls := s.closeCalls + [CloseCall(listener, s.closeError)])
    else s.(closeListeners := Added(s.closeListeners, listener))
  }

  /** Whether send() hands its message to a socket: the last one, and only open. */
  predicate GoesOut<D, M>(s: State<D, M>, aborted: bool, encodes: bool, taken: bool) {
    !aborted && !s.terminal && s.sockets != [] && s.sockets[Current(s)].readyState == 1 && encodes && taken
  }

  /** send(): a message that cannot go out is refused, never kept for later. */
  function SendMessage<D, M>(s: State<D, M>, messageId: Option<string>, aborted: bool, encodes: bool, taken: bool)
    : State<D, M>
  {
    if GoesOut(s, aborted, encodes, taken) then s.(log := s.log + [Sent(Current(s), messageId)]) else s
  }

  function Step<D, M>(s: State<D, M>, config: Config, decode: D -> Option<M>, e: Event<D>): State<D, M>
    requires Enabled(s, e)
  {
    match e
    case Opens(k) => Open(s, k)
    case Frame(k, data, bytes) => TakeFrame(s, config, k, data, bytes)
    case DecodeStarts(k) => BeginDecode(s, k)
    case DecodeSettles(k) => SettleDecode(s, decode, k)
    case Errors(k, random, elapsedMs) =>
      if s.sockets[k].readyState == 3 then Disconnect(s, config.policy, k, 1006, false, random, elapsedMs) else s
    case Closes(k, code, wasClean, random, elapsedMs) =>
      Disconnect(s, config.policy, k, if code.Some? then code.value else 1006, wasClean.Some? && wasClean.value,
                 random, elapsedMs)
    case ReadyStateMoves(k, to) => Put(s, k, s.sockets[k].(readyState := to))
    case StartSettles(rejects, factoryThrows) => SettleStart(s, rejects, factoryThrows)
    case SleepSettles(ok, factoryThrows) => SettleSleep(s, config, ok, factoryThrows)
    case AbortFires => ShutDown(s.(abortable := false), Some(Aborted))
    case CloseCalled => ShutDown(s, None)
    case Subscribe(l) => if s.terminal then s else s.(listeners := Added(s.listeners, l))
    case Unsubscribe(l) => s.(listeners := Removed(s.listeners, l))
    case SubscribeClose(l) => ListenForClose(s, l)
    case UnsubscribeClose(l) => s.(closeListeners := Removed(s.closeListeners, l))
    case Send(id, aborted, encodes, taken) => SendMessage(s, id, aborted, encodes, taken)
  }

  // --- What every step keeps ---

  ghost predicate Chained<D>(socket: Socket<D>) {
    socket.settled <= |socket.received| && (socket.decoding ==> socket.settled < |socket.received|)
  }

  /** One socket at most has the handlers, the last one; and no socket is left
      behind: each was seen to disconnect, or at the end was asked to, or closes
      already. busy: no socket has the handlers. */
  ghost predicate NoneLeft<D>(sockets: seq<Socket<D>>, busy: bool, terminal: bool) {
    && (forall k | 0 <= k < |sockets| :: Chained(sockets[k]))
    && (forall k | 0 <= k < |sockets| - 1 :: !sockets[k].attached && sockets[k].handled)
    && (forall k | 0 <= k < |sockets| :: sockets[k].attached ==> !sockets[k].handled && !busy && !terminal)
    && (forall k | 0 <= k < |sockets| && !terminal :: sockets[k].attached || sockets[k].handled)
    && (forall k | 0 <= k < |sockets| && terminal ::
          sockets[k].handled || sockets[k].closeAsked || sockets[k].readyState >= 2)
  }

  /** The phases exclude each other; a finished connection holds on to nothing;
      ready is settled by the first open or by the end, whichever comes first;
      and no attempt makes more than one socket. */
  ghost predicate Tidy<D, M>(s: State<D, M>, maxAttempts: int) {
    && NoneLeft(s.sockets, s.starting || s.sleeping.Some?, s.terminal)
    && !(s.starting && s.sleeping.Some?)
    && (s.terminal ==> s.listeners == [] && s.closeListeners == [] && !s.abortable && s.ready != Undecided)
    && (!s.terminal ==> s.closeCalls == [] && s.closeError.None?)
    && (s.ready.Resolved? <==> s.everOpened)
    && (s.ready.Rejected? ==> s.terminal)
    && 1 <= s.attempt <= maxAttempts
    && (s.sleeping.Some? && !s.terminal ==> s.attempt < maxAttempts)
    && |s.sockets| + (if s.starting then 1 else 0) <= s.attempt
  }

  lemma SocketChanges<D>(sockets: seq<Socket<D>>, k: nat, to: Socket<D>, busy: bool, terminal: bool)
    requires NoneLeft(sockets, busy, terminal) && k < |sockets| && Chained(to)
    requires to.attached == sockets[k].attached && to.handled == sockets[k].handled
    requires to.closeAsked == sockets[k].closeAsked && to.readyState >= sockets[k].readyState
    ensures NoneLeft(sockets[k := to], busy, terminal)
  {
  }

  lemma SocketsEnd<D>(sockets: seq<Socket<D>>, busy: bool)
    requires NoneLeft(sockets, busy, false)
    ensures NoneLeft(Detached(AskedToClose(sockets)), busy, true)
    ensures busy || sockets == [] ==> NoneLeft(Detached(sockets), busy, true)
    ensures busy || sockets == [] ==> NoneLeft(Detached(sockets), false, true)
  {
  }

  lemma SocketDisconnects<D>(sockets: seq<Socket<D>>, k: nat)
    requires NoneLeft(sockets, false, false) && k < |sockets| && sockets[k].attached
    ensures var left := Detached(sockets[k := sockets[k].(handled := true)]);
            NoneLeft(left, true, false) && NoneLeft(left, false, true) && NoneLeft(left, false, false)
                && |left| == |sockets|
    ensures k == |sockets| - 1
  {
  }

  lemma SocketAttaches<D>(sockets: seq<Socket<D>>)
    requires NoneLeft(sockets, true, false)
    ensures NoneLeft(sockets + [Socket(0, [], 0, false, false, false, true)], false, false)
  {
  }

  lemma BusyOrNot<D>(sockets: seq<Socket<D>>, busy: bool, terminal: bool)
    requires NoneLeft(sockets, busy, terminal)
    ensures busy || terminal ==> NoneLeft(sockets, false, terminal) && NoneLeft(sockets, true, terminal)
    ensures forall k | 0 <= k < |sockets| && sockets[k].attached :: !busy && !terminal && k == |sockets| - 1
    ensures forall k | 0 <= k < |sockets| :: Chained(sockets[k])
  {
  }

  lemma ShutDownStaysTidy<D, M>(s: State<D, M>, error: Option<Fault>, maxAttempts: int)
    requires Tidy(s, maxAttempts)
    ensures Tidy(ShutDown(s, error), maxAttempts)
  {
    hide NoneLeft, Calls;
    if !s.terminal {
      SocketsEnd(s.sockets, s.starting || s.sleeping.Some?);
    }
  }

  lemma DisconnectStaysTidy<D, M>(s: State<D, M>, policy: RetryPolicy, k: nat, code: int, wasClean: bool, random: real,
                                  elapsedMs: real)
    requires Tidy(s, policy.maxAttempts) && k < |s.sockets| && s.sockets[k].attached
    ensures Tidy(Disconnect(s, policy, k, code, wasClean, random, elapsedMs), policy.maxAttempts)
  {
    hide NoneLeft, Calls, ComputeBackoffDelay, SleepFits, Detached;
    BusyOrNot(s.sockets, s.starting || s.sleeping.Some?, s.terminal);
    SocketDisconnects(s.sockets, k);
    var left := Detached(s.sockets[k := s.sockets[k].(handled := true)]);
    assert Detached(left) == left by { DetachedTwice(s.sockets[k := s.sockets[k].(handled := true)]); }
  }

  lemma DetachedTwice<D>(sockets: seq<Socket<D>>)
    ensures Detached(Detached(sockets)) == Detached(sockets)
  {
  }

  lemma StartStaysTidy<D, M>(s: State<D, M>, factoryThrows: bool, maxAttempts: int)
    requires Tidy(s.(starting := true, sleeping := None), maxAttempts) && !s.starting && s.sleeping.None? && !s.terminal
    ensures Tidy(AttachOrFail(s, factoryThrows), maxAttempts)
  {
    hide NoneLeft, Calls, Detached;
    SocketAttaches(s.sockets);
    SocketsEnd(s.sockets, true);
  }

  lemma WakingStaysTidy<D, M>(s: State<D, M>, config: Config, ok: bool, factoryThrows: bool)
    requires Tidy(s, config.policy.maxAttempts) && s.sleeping.Some?
    ensures Tidy(SettleSleep(s, config, ok, factoryThrows), config.policy.maxAttempts)
  {
    hide NoneLeft, Calls, Detached, AttachOrFail;
    BusyOrNot(s.sockets, true, s.terminal);
    if !s.terminal {
      SocketsEnd(s.sockets, true);
      if ok {
        StartStaysTidy(s.(sleeping := None, attempt := s.attempt + 1, log := s.log + [Connecting(s.attempt + 1)]),
                       factoryThrows, config.policy.maxAttempts);
      }
    }
  }

  lemma StartingStaysTidy<D, M>(s: State<D, M>, rejects: bool, factoryThrows: bool, maxAttempts: int)
    requires Tidy(s, maxAttempts) && s.starting
    ensures Tidy(SettleStart(s, rejects, factoryThrows), maxAttempts)
  {
    hide NoneLeft, Calls, Detached, AttachOrFail;
    BusyOrNot(s.sockets, true, s.terminal);
    if !s.terminal {
      SocketsEnd(s.sockets, true);
      StartStaysTidy(s.(starting := false), factoryThrows, maxAttempts);
    }
  }

  lemma DecodingStaysTidy<D, M>(s: State<D, M>, config: Config, decode: D -> Option<M>, e: Event<D>)
    requires Tidy(s, config.policy.maxAttempts) && Enabled(s, e) && (e.DecodeStarts? || e.DecodeSettles?)
    ensures Tidy(Step(s, config, decode, e), config.policy.maxAttempts)
  {
    hide NoneLeft, Calls, ShutDown;
    var k, socket, busy := e.socket, s.sockets[e.socket], s.starting || s.sleeping.Some?;
    BusyOrNot(s.sockets, busy, s.terminal);
    var settled := socket.(decoding := false, settled := socket.settled + 1);
    if e.DecodeStarts? {
      SocketChanges(s.sockets, k, if Live(s, k) then socket.(decoding := true)
                    else settled.(decoding := socket.decoding), busy, s.terminal);
    } else {
      SocketChanges(s.sockets, k, settled, busy, s.terminal);
      ShutDownStaysTidy(Put(s, k, settled), Some(DecodeFailed), config.policy.maxAttempts);
    }
  }

  lemma ArrivingStaysTidy<D, M>(s: State<D, M>, config: Config, decode: D -> Option<M>, e: Event<D>)
    requires Tidy(s, config.policy.maxAttempts) && Enabled(s, e) && (e.Frame? || e.ReadyStateMoves?)
    ensures Tidy(Step(s, config, decode, e), config.policy.maxAttempts)
  {
    hide NoneLeft, Calls, ShutDown;
    var socket, busy := s.sockets[e.socket], s.starting || s.sleeping.Some?;
    BusyOrNot(s.sockets, busy, s.terminal);
    if e.Frame? {
      var longer := socket.(received := socket.received + [e.data]);
      SocketChanges(s.sockets, e.socket, longer, busy, s.terminal);
      ShutDownStaysTidy(s, Some(DecodeFailed), config.policy.maxAttempts);
    } else {
      SocketChanges(s.sockets, e.socket, socket.(readyState := e.to), busy, s.terminal);
    }
  }

  lemma LosingStaysTidy<D, M>(s: State<D, M>, config: Config, decode: D -> Option<M>, e: Event<D>)
    requires Tidy(s, config.policy.maxAttempts) && Enabled(s, e) && (e.Errors? || e.Closes?)
    ensures Tidy(Step(s, config, decode, e), config.policy.maxAttempts)
  {
    hide Tidy, Disconnect;
    if e.Errors? {
      DisconnectStaysTidy(s, config.policy, e.socket, 1006, false, e.random, e.elapsedMs);
    } else {
      DisconnectStaysTidy(s, config.policy, e.socket, if e.code.Some? then e.code.value else 1006,
                          e.wasClean.Some? && e.wasClean.value, e.random, e.elapsedMs);
    }
  }

  lemma LeadingOnStaysTidy<D, M>(s: State<D, M>, config: Config, decode: D -> Option<M>, e: Event<D>)
    requires Tidy(s, config.policy.maxAttempts) && Enabled(s, e) && (e.SleepSettles? || e.StartSettles?)
    ensures Tidy(Step(s, config, decode, e), config.policy.maxAttempts)
  {
    hide Tidy, SettleSleep, SettleStart;
    if e.SleepSettles? {
      WakingStaysTidy(s, config, e.ok, e.factoryThrows);
    } else {
      StartingStaysTidy(s, e.rejects, e.factoryThrows, config.policy.maxAttempts);
    }
  }

  lemma CallingStaysTidy<D, M>(s: State<D, M>, config: Config, decode: D -> Option<M>, e: Event<D>)
    requires Tidy(s, config.policy.maxAttempts) && Enabled(s, e)
    requires e.Opens? || e.Subscribe? || e.Unsubscribe? || e.SubscribeClose? || e.UnsubscribeClose? || e.Send?
    ensures Tidy(Step(s, config, decode, e), config.policy.maxAttempts)
  {
    hide NoneLeft, Added, Calls;
    BusyOrNot(s.sockets, s.starting || s.sleeping.Some?, s.terminal);
  }

  lemma EndingStaysTidy<D, M>(s: State<D, M>, config: Config, decode: D -> Option<M>, e: Event<D>)
    requires Tidy(s, config.policy.maxAttempts) && Enabled(s, e) && (e.AbortFires? || e.CloseCalled?)
    ensures Tidy(Step(s, config, decode, e), config.policy.maxAttempts)
  {
    assert Tidy(s.(abortable := false), config.policy.maxAttempts) by { hide NoneLeft; }
    hide Tidy, ShutDown;
    ShutDownStaysTidy(s.(abortable := false), Some(Aborted), config.policy.maxAttempts);
    ShutDownStaysTidy(s, None, config.policy.maxAttempts);
  }

  lemma StepStaysTidy<D, M>(s: State<D, M>, config: Config, decode: D -> Option<M>, e: Event<D>)
    requires Tidy(s, config.policy.maxAttempts) && Enabled(s, e)
    ensures Tidy(Step(s, config, decode, e), config.policy.maxAttempts)
  {
    hide Tidy, Step;
    if e.DecodeStarts? || e.DecodeSettles? {
      DecodingStaysTidy(s, config, decode, e);
    } else if e.Frame? || e.ReadyStateMoves? {
      ArrivingStaysTidy(s, config, decode, e);
    } else if e.Errors? || e.Closes? {
      LosingStaysTidy(s, config, decode, e);
    } else if e.SleepSettles? || e.StartSettles? {
      LeadingOnStaysTidy(s, config, decode, e);
    } else if e.AbortFires? || e.CloseCalled? {
      EndingStaysTidy(s, config, decode, e);
    } else {
      CallingStaysTidy(s, config, decode, e);
    }
  }

  // --- The trace ---

  /** How far a trace has come: the attempt announced last, whether a retry was
      announced since, and whether it is over. */
  datatype Seen = Seen(attempt: int, retrying: bool, over: bool) | Bad

  /** The traces an observer may rely on: attempts are numbered from 1 up to the
      maximum without a gap, every one but the first announced by a retry that
      fits the deadline; a connection opens under its own number, and never
      during a retry; nothing follows "closed". */
  function Follow<M>(seen: Seen, item: Item<M>, policy: RetryPolicy): Seen {
    if seen.Bad? || seen.over then Bad
    else
      match item
      case Connecting(n) => if n == seen.attempt + 1 <= policy.maxAttempts
          && (n == 1 || seen.retrying) then Seen(n, false, false) else Bad
      case Connected(n) => if n == seen.attempt == 1 && !seen.retrying then seen else Bad
      case Reconnected(n) => if n == seen.attempt > 1 && !seen.retrying then seen else Bad
      case Retrying(n, delayMs, elapsedMs) =>
        if n == seen.attempt && !seen.retrying && SleepFits(policy, elapsedMs, delayMs)
            && 0 <= delayMs <= Round(policy.maxDelayMs)
        then Seen(n, true, false) else Bad
      case Closed(n) => if n == seen.attempt || (n == 1 && seen.attempt == 0) then seen.(over := true) else Bad
      case Message(_, _, _, _) => seen
      case Sent(_, _) => seen
  }

  function Scan<M>(log: seq<Item<M>>, policy: RetryPolicy): Seen {
    if log == [] then Seen(0, false, false) else Follow(Scan(log[..|log| - 1], policy), log[|log| - 1], policy)
  }

  lemma ScanSnoc<M>(log: seq<Item<M>>, item: Item<M>, policy: RetryPolicy)
    ensures Scan(log + [item], policy) == Follow(Scan(log, policy), item, policy)
  {
    assert (log + [item])[..|log|] == log;
  }

  ghost predicate Traced<D, M>(s: State<D, M>, policy: RetryPolicy) {
    var seen := Scan(s.log, policy);
    && seen.Seen? && seen.over == s.terminal
    && (!s.terminal ==> seen.attempt == s.attempt && seen.retrying == s.sleeping.Some?)
  }

  lemma FinishStaysTraced<D, M>(s: State<D, M>, error: Option<Fault>, policy: RetryPolicy)
    requires s.terminal ==> Traced(s, policy)
    requires var seen := Scan(s.log, policy);
             !s.terminal ==> seen.Seen? && !seen.over && (seen.attempt == s.attempt
                                                          || (seen.attempt == 0 && s.attempt == 1))
    ensures Traced(Finish(s, error), policy) && Traced(ShutDown(s, error), policy)
  {
    hide Calls, Scan, Detached, AskedToClose;
    ScanSnoc(s.log, Closed(s.attempt), policy);
  }

  lemma DisconnectStaysTraced<D, M>(s: State<D, M>, policy: RetryPolicy, k: nat, code: int, wasClean: bool,
                                    random: real, elapsedMs: real)
    requires ValidPolicy(policy) && Tidy(s, policy.maxAttempts) && Traced(s, policy) && k < |s.sockets|
             && s.sockets[k].attached
    ensures Traced(Disconnect(s, policy, k, code, wasClean, random, elapsedMs), policy)
  {
    hide Scan, Detached, ComputeBackoffDelay, SleepFits, Finish;
    var left := s.(sockets := Detached(s.sockets[k := s.sockets[k].(handled := true)]));
    FinishStaysTraced(left, Some(ConnectionClosed(code)), policy);
    var delay := ComputeBackoffDelay(policy, s.attempt, random, None);
    if delay.Some? {
      DelayBounds(policy, s.attempt, random, None);
      ScanSnoc(s.log, Retrying(s.attempt, delay.value, elapsedMs), policy);
    }
  }

  lemma StartStaysTraced<D, M>(s: State<D, M>, config: Config, factoryThrows: bool)
    requires s.sleeping.None? && !s.terminal
    requires Scan(s.log, config.policy) == Seen(s.attempt - 1, s.attempt > 1, false)
             && 1 <= s.attempt <= config.policy.maxAttempts
    ensures Traced(Start(s, config, factoryThrows), config.policy)
  {
    hide Scan, Finish;
    ScanSnoc(s.log, Connecting(s.attempt), config.policy);
    FinishStaysTraced(s.(log := s.log + [Connecting(s.attempt)]), Some(ConnectFailed), config.policy);
  }

  lemma OpeningStaysTraced<D, M>(s: State<D, M>, k: nat, policy: RetryPolicy)
    requires Traced(s, policy) && s.sleeping.None? && s.attempt >= 1
    ensures Traced(Open(s, k), policy)
  {
    hide Scan;
    ScanSnoc(s.log, if s.attempt == 1 then Connected(s.attempt) else Reconnected(s.attempt), policy);
  }

  lemma DecodingStaysTraced<D, M>(s: State<D, M>, decode: D -> Option<M>, k: nat, policy: RetryPolicy)
    requires Traced(s, policy) && Enabled(s, DecodeSettles(k))
    ensures Traced(SettleDecode(s, decode, k), policy)
  {
    hide Scan, ShutDown;
    var socket := s.sockets[k];
    var decoded := decode(socket.received[socket.settled]);
    FinishStaysTraced(Put(s, k, socket.(decoding := false, settled := socket.settled + 1)), Some(DecodeFailed), policy);
    if decoded.Some? {
      ScanSnoc(s.log, Message(k, socket.settled, decoded.value, s.listeners), policy);
    }
  }

  lemma WakingStaysTraced<D, M>(s: State<D, M>, config: Config, ok: bool, factoryThrows: bool)
    requires Traced(s, config.policy) && s.sleeping.Some? && (!s.terminal ==>
                                                              1 <= s.attempt < config.policy.maxAttempts)
    ensures Traced(SettleSleep(s, config, ok, factoryThrows), config.policy)
  {
    hide Scan, Finish, Start;
    if !s.terminal {
      FinishStaysTraced(s.(sleeping := None), Some(ConnectionClosed(s.sleeping.value)), config.policy);
      StartStaysTraced(s.(sleeping := None, attempt := s.attempt + 1), config, factoryThrows);
    }
  }

  lemma ResolvingStaysTraced<D, M>(s: State<D, M>, rejects: bool, factoryThrows: bool, policy: RetryPolicy)
    requires Traced(s, policy) && s.starting && s.sleeping.None?
    ensures Traced(SettleStart(s, rejects, factoryThrows), policy)
  {
    hide Scan, Finish;
    FinishStaysTraced(s.(starting := false), Some(ConnectFailed), policy);
  }

  /** What traces do not show may change. */
  lemma UntracedMayChange<D, M>(s: State<D, M>, s': State<D, M>, policy: RetryPolicy)
    requires Traced(s, policy) && s'.log == s.log && s'.attempt == s.attempt && s'.terminal == s.terminal
             && s'.sleeping == s.sleeping
    ensures Traced(s', policy)
  {
  }

  lemma EndingStepStaysTraced<D, M>(s: State<D, M>, config: Config, decode: D -> Option<M>, e: Event<D>)
    requires Traced(s, config.policy) && Enabled(s, e) && (e.Frame? || e.AbortFires? || e.CloseCalled?)
    ensures Traced(Step(s, config, decode, e), config.policy)
  {
    hide Scan, ShutDown;
    FinishStaysTraced(s, Some(DecodeFailed), config.policy);
    FinishStaysTraced(s.(abortable := false), Some(Aborted), config.policy);
    FinishStaysTraced(s, None, config.policy);
  }

  predicate Untraced<D>(e: Event<D>) {
    e.DecodeStarts? || e.ReadyStateMoves? || e.Subscribe? || e.Unsubscribe? || e.SubscribeClose? || e.UnsubscribeClose?
  }

  lemma UntracedStepStaysTraced<D, M>(s: State<D, M>, config: Config, decode: D -> Option<M>, e: Event<D>)
    requires Traced(s, config.policy) && Enabled(s, e) && Untraced(e)
    ensures Traced(Step(s, config, decode, e), config.policy)
  {
    hide Traced, Removed, Added;
    UntracedMayChange(s, Step(s, config, decode, e), config.policy);
  }

  /** What send() can do. */
  lemma SendStep<D, M>(s: State<D, M>, config: Config, decode: D -> Option<M>, e: Event<D>)
    requires Enabled(s, e) && e.Send?
    ensures var s' := Step(s, config, decode, e);
            s' == s || (!s.terminal && s.sockets != [] && s' == s.(log := s.log + [Sent(Current(s), e.messageId)]))
  {
  }

  lemma SentStaysTraced<D, M>(s: State<D, M>, item: Item<M>, policy: RetryPolicy)
    requires Traced(s, policy) && !s.terminal && item.Sent?
    ensures Traced(s.(log := s.log + [item]), policy)
  {
    hide Scan;
    ScanSnoc(s.log, item, policy);
  }

  lemma AttachedIsIdle<D, M>(s: State<D, M>, k: nat, maxAttempts: int)
    requires Tidy(s, maxAttempts) && k < |s.sockets| && s.sockets[k].attached
    ensures s.sleeping.None? && s.attempt >= 1
  {
  }

  lemma SocketStepStaysTraced<D, M>(s: State<D, M>, config: Config, decode: D -> Option<M>, e: Event<D>)
    requires ValidPolicy(config.policy) && Tidy(s, config.policy.maxAttempts) && Traced(s, config.policy)
             && Enabled(s, e)
    requires e.Opens? || e.Errors? || e.Closes?
    ensures Traced(Step(s, config, decode, e), config.policy)
  {
    AttachedIsIdle(s, e.socket, config.policy.maxAttempts);
    hide Traced, Disconnect, Open, Tidy;
    if e.Opens? {
      OpeningStaysTraced(s, e.socket, config.policy);
    } else if e.Errors? {
      DisconnectStaysTraced(s, config.policy, e.socket, 1006, false, e.random, e.elapsedMs);
    } else {
      DisconnectStaysTraced(s, config.policy, e.socket, if e.code.Some? then e.code.value else 1006,
                            e.wasClean.Some? && e.wasClean.value, e.random, e.elapsedMs);
    }
  }

  lemma PhaseOf<D, M>(s: State<D, M>, maxAttempts: int)
    requires Tidy(s, maxAttempts)
    ensures s.starting ==> s.sleeping.None?
    ensures s.sleeping.Some? && !s.terminal ==> 1 <= s.attempt < maxAttempts
  {
  }

  lemma PromiseStepStaysTraced<D, M>(s: State<D, M>, config: Config, decode: D -> Option<M>, e: Event<D>)
    requires Tidy(s, config.policy.maxAttempts) && Traced(s, config.policy) && Enabled(s, e)
    requires e.DecodeSettles? || e.SleepSettles? || e.StartSettles?
    ensures Traced(Step(s, config, decode, e), config.policy)
  {
    PhaseOf(s, config.policy.maxAttempts);
    hide Traced, SettleDecode, SettleSleep, SettleStart, Tidy;
    if e.DecodeSettles? {
      DecodingStaysTraced(s, decode, e.socket, config.policy);
    } else if e.SleepSettles? {
      WakingStaysTraced(s, config, e.ok, e.factoryThrows);
    } else {
      ResolvingStaysTraced(s, e.rejects, e.factoryThrows, config.policy);
    }
  }

  lemma StepStaysTraced<D, M>(s: State<D, M>, config: Config, decode: D -> Option<M>, e: Event<D>)
    requires ValidPolicy(config.policy) && Tidy(s, config.policy.maxAttempts) && Traced(s, config.policy)
             && Enabled(s, e)
    ensures Traced(Step(s, config, decode, e), config.policy)
  {
    hide Traced, Step, Tidy;
    if Untraced(e) {
      UntracedStepStaysTraced(s, config, decode, e);
    } else if e.Send? {
      SendStep(s, config, decode, e);
      if !s.terminal && s.sockets != [] {
        SentStaysTraced(s, Sent(Current(s), e.messageId), config.policy);
      }
    } else if e.Opens? || e.Errors? || e.Closes? {
      SocketStepStaysTraced(s, config, decode, e);
    } else if e.Frame? || e.AbortFires? || e.CloseCalled? {
      EndingStepStaysTraced(s, config, decode, e);
    } else {
      PromiseStepStaysTraced(s, config, decode, e);
    }
  }

  /** In a trace of this language "closed" comes exactly once and last, and one
      attempt is announced for each number up to the last. */
  lemma {:induction false} TraceMeans<M>(log: seq<Item<M>>, policy: RetryPolicy)
    requires Scan(log, policy).Seen?
    ensures Scan(log, policy).over <==> log != [] && log[|log| - 1].Closed?
    ensures forall i | 0 <= i < |log| - 1 :: !log[i].Closed?
    ensures Scan(log, policy).attempt == Attempts(log) <= Max(0, policy.maxAttempts)
  {
    if log != [] {
      TraceMeans(log[..|log| - 1], policy);
    }
  }

  function Attempts<M>(log: seq<Item<M>>): nat {
    if log == [] then 0 else Attempts(log[..|log| - 1]) + if log[|log| - 1].Connecting? then 1 else 0
  }

  // --- Deliveries ---

  function Messages<M>(log: seq<Item<M>>, k: nat): seq<M> {
    if log == [] then []
    else
      var last := log[|log| - 1];
      Messages(log[..|log| - 1], k) + if last.Message? && last.socket == k then [last.message] else []
  }

  lemma MessagesSnoc<M>(log: seq<Item<M>>, item: Item<M>, k: nat)
    ensures Messages(log + [item], k) == Messages(log, k) + if item.Message? && item.socket == k then [item.message]
            else []
  {
    assert (log + [item])[..|log|] == log;
  }

  /** What a socket delivered is a prefix of its decoded frames, in order. */
  ghost predicate DecodedPrefix<D, M>(messages: seq<M>, received: seq<D>, decode: D -> Option<M>) {
    |messages| <= |received| && forall i | 0 <= i < |messages| :: decode(received[i]) == Some(messages[i])
  }

  /** Each socket delivered a prefix of its frames: while it is the live one, as
      far as its decode chain has come. */
  ghost predicate Delivered<D, M>(s: State<D, M>, decode: D -> Option<M>) {
    && (forall k: nat | k < |s.sockets| ::
          && DecodedPrefix(Messages(s.log, k), s.sockets[k].received, decode)
          && |Messages(s.log, k)| <= s.sockets[k].settled
          && (Live(s, k) ==> |Messages(s.log, k)| == s.sockets[k].settled))
    && forall k: nat | k >= |s.sockets| :: Messages(s.log, k) == []
  }

  /** Nothing but frames arriving and being settled; sockets may be added. */
  ghost predicate SameChains<D>(before: seq<Socket<D>>, after: seq<Socket<D>>) {
    && |before| <= |after|
    && (forall k | 0 <= k < |before| ::
          before[k].received <= after[k].received && before[k].settled == after[k].settled)
    && forall k | |before| <= k < |after| :: after[k].settled == 0
  }

  /** The log grew by no message, in either direction. */
  ghost predicate Quietly<M>(before: seq<Item<M>>, after: seq<Item<M>>) {
    before <= after && forall i | |before| <= i < |after| :: !after[i].Message? && !after[i].Sent?
  }

  lemma {:induction false} QuietlyKeepsMessages<M>(before: seq<Item<M>>, after: seq<Item<M>>)
    requires Quietly(before, after)
    ensures forall k: nat :: Messages(after, k) == Messages(before, k)
    decreases |after|
  {
    if |after| > |before| {
      QuietlyKeepsMessages(before, after[..|after| - 1]);
    } else {
      assert before == after;
    }
  }

  /** A step that delivers nothing, sends nothing and settles no frame. */
  ghost predicate Carries<D, M>(s: State<D, M>, s': State<D, M>) {
    && SameChains(s.sockets, s'.sockets) && Quietly(s.log, s'.log)
    && (s.terminal ==> s'.terminal)
    && |s'.sockets| <= |s.sockets| + 1
  }

  lemma CarryingStaysDelivered<D, M>(s: State<D, M>, s': State<D, M>, decode: D -> Option<M>)
    requires Delivered(s, decode) && Carries(s, s')
    ensures Delivered(s', decode)
  {
    hide Messages, Quietly;
    QuietlyKeepsMessages(s.log, s'.log);
  }

  lemma EndingCarries<D, M>(s: State<D, M>, error: Option<Fault>)
    ensures Carries(s, Finish(s, error)) && Carries(s, ShutDown(s, error))
  {
    hide Calls;
  }

  lemma CarriesAfter<D, M>(s: State<D, M>, handled: State<D, M>, s': State<D, M>)
    requires SameChains(s.sockets, handled.sockets) && |handled.sockets| == |s.sockets|
    requires handled.log == s.log && handled.terminal == s.terminal && Carries(handled, s')
    ensures Carries(s, s')
  {
  }

  lemma DisconnectCarries<D, M>(s: State<D, M>, policy: RetryPolicy, k: nat, code: int, wasClean: bool, random: real,
                                elapsedMs: real)
    requires k < |s.sockets|
    ensures Carries(s, Disconnect(s, policy, k, code, wasClean, random, elapsedMs))
  {
    hide Finish, ComputeBackoffDelay, SleepFits;
    var handled := Put(s, k, s.sockets[k].(handled := true));
    if !s.sockets[k].handled && Live(s, k) {
      assert SameChains(s.sockets, Detached(handled.sockets));
      hide SameChains, Detached;
      var detached := handled.(sockets := Detached(handled.sockets));
      EndingCarries(detached, Some(ConnectionClosed(code)));
      CarriesAfter(s, detached, Finish(detached, Some(ConnectionClosed(code))));
    }
  }

  lemma StartCarries<D, M>(s: State<D, M>, config: Config, factoryThrows: bool)
    ensures Carries(s, Start(s, config, factoryThrows)) && Carries(s, AttachOrFail(s, factoryThrows))
  {
    hide Finish;
    var announced := s.(log := s.log + [Connecting(s.attempt)]);
    EndingCarries(s, Some(ConnectFailed));
    EndingCarries(announced, Some(ConnectFailed));
  }

  lemma SocketStepCarries<D, M>(s: State<D, M>, config: Config, decode: D -> Option<M>, e: Event<D>)
    requires Enabled(s, e) && (e.Opens? || e.Errors? || e.Closes?)
    ensures Carries(s, Step(s, config, decode, e))
  {
    hide Disconnect;
    if e.Errors? {
      DisconnectCarries(s, config.policy, e.socket, 1006, false, e.random, e.elapsedMs);
    } else if e.Closes? {
      DisconnectCarries(s, config.policy, e.socket, if e.code.Some? then e.code.value else 1006,
                        e.wasClean.Some? && e.wasClean.value, e.random, e.elapsedMs);
    }
  }

  lemma EndingStepCarries<D, M>(s: State<D, M>, config: Config, decode: D -> Option<M>, e: Event<D>)
    requires Enabled(s, e) && (e.AbortFires? || e.CloseCalled?)
    ensures Carries(s, Step(s, config, decode, e))
  {
    hide ShutDown;
    EndingCarries(s.(abortable := false), Some(Aborted));
    EndingCarries(s, None);
  }

  lemma FrameCarries<D, M>(s: State<D, M>, config: Config, k: nat, data: D, bytes: nat)
    requires k < |s.sockets|
    ensures Carries(s, TakeFrame(s, config, k, data, bytes))
  {
    hide ShutDown;
    if bytes > config.maxFrameBytes {
      EndingCarries(s, Some(DecodeFailed));
      hide Quietly, SameChains;
      StayingCarries(s);
    }
  }

  lemma StayingCarries<D, M>(s: State<D, M>)
    ensures Carries(s, s)
  {
  }

  lemma SendingStaysDelivered<D, M>(s: State<D, M>, config: Config, decode: D -> Option<M>, e: Event<D>)
    requires Delivered(s, decode) && Enabled(s, e) && e.Send?
    ensures Delivered(Step(s, config, decode, e), decode)
  {
    hide Messages, DecodedPrefix;
    if s.sockets != [] {
      forall k: nat ensures Messages(s.log + [Sent(Current(s), e.messageId)], k) == Messages(s.log, k) {
        MessagesSnoc(s.log, Sent(Current(s), e.messageId), k);
      }
    }
  }

  lemma FrameStepCarries<D, M>(s: State<D, M>, config: Config, decode: D -> Option<M>, e: Event<D>)
    requires Enabled(s, e) && e.Frame?
    ensures Carries(s, Step(s, config, decode, e))
  {
    hide Carries, TakeFrame;
    FrameCarries(s, config, e.socket, e.data, e.bytes);
  }

  lemma StartingStepCarries<D, M>(s: State<D, M>, config: Config, decode: D -> Option<M>, e: Event<D>)
    requires Enabled(s, e) && (e.SleepSettles? || e.StartSettles?)
    ensures Carries(s, Step(s, config, decode, e))
  {
    hide Finish, Start, AttachOrFail;
    if e.SleepSettles? {
      EndingCarries(s.(sleeping := None), Some(ConnectionClosed(s.sleeping.value)));
      StartCarries(s.(sleeping := None, attempt := s.attempt + 1), config, e.factoryThrows);
    } else {
      EndingCarries(s.(starting := false), Some(ConnectFailed));
      StartCarries(s.(starting := false), config, e.factoryThrows);
    }
  }

  lemma UntracedStepCarries<D, M>(s: State<D, M>, config: Config, decode: D -> Option<M>, e: Event<D>)
    requires Enabled(s, e) && Untraced(e) && !(e.DecodeStarts? && !Live(s, e.socket))
    ensures Carries(s, Step(s, config, decode, e))
  {
    hide Removed, Added;
  }

  lemma StepCarries<D, M>(s: State<D, M>, config: Config, decode: D -> Option<M>, e: Event<D>)
    requires Enabled(s, e) && !e.DecodeSettles? && !e.Send? && !(e.DecodeStarts? && !Live(s, e.socket))
    ensures Carries(s, Step(s, config, decode, e))
  {
    hide Carries, Step;
    if Untraced(e) {
      UntracedStepCarries(s, config, decode, e);
    } else if e.Opens? || e.Errors? || e.Closes? {
      SocketStepCarries(s, config, decode, e);
    } else if e.Frame? {
      FrameStepCarries(s, config, decode, e);
    } else if e.AbortFires? || e.CloseCalled? {
      EndingStepCarries(s, config, decode, e);
    } else {
      StartingStepCarries(s, config, decode, e);
    }
  }

  /** A link of a chain is settled without a delivery: its socket is not live. */
  lemma SkippedStaysDelivered<D, M>(s: State<D, M>, s': State<D, M>, k: nat, decode: D -> Option<M>)
    requires Delivered(s, decode) && k < |s.sockets| && !Live(s', k)
    requires SameChains(s.sockets[k := s.sockets[k].(settled := s.sockets[k].settled + 1)], s'.sockets)
             && |s'.sockets| == |s.sockets|
    requires s'.terminal || !s.terminal
    requires s'.log == s.log || (!s.terminal && s'.log == s.log + [Closed(s.attempt)])
    ensures Delivered(s', decode)
  {
    hide Messages;
    assert Quietly(s.log, s'.log);
    QuietlyKeepsMessages(s.log, s'.log);
    var sockets := s.sockets[k := s.sockets[k].(settled := s.sockets[k].settled + 1)];
    assert forall j | 0 <= j < |sockets| :: s.sockets[j].received <= s'.sockets[j].received;
  }

  lemma MessageStaysDelivered<D, M>(s: State<D, M>, k: nat, decode: D -> Option<M>)
    requires Delivered(s, decode) && Live(s, k) && k < |s.sockets| && s.sockets[k].settled < |s.sockets[k].received|
    requires decode(s.sockets[k].received[s.sockets[k].settled]).Some?
    ensures Delivered(SettleDecode(s, decode, k), decode)
  {
    hide Messages;
    var decoded := decode(s.sockets[k].received[s.sockets[k].settled]);
    forall j: nat ensures Messages(s.log + [Message(k, s.sockets[k].settled, decoded.value, s.listeners)], j) ==
                          Messages(s.log, j) + if j == k then [decoded.value] else []
    {
      MessagesSnoc(s.log, Message(k, s.sockets[k].settled, decoded.value, s.listeners), j);
    }
  }

  lemma SkippingStaysDelivered<D, M>(s: State<D, M>, decode: D -> Option<M>, k: nat)
    requires Delivered(s, decode) && Enabled(s, DecodeStarts(k)) && !Live(s, k)
    ensures Delivered(BeginDecode(s, k), decode)
  {
    hide Delivered;
    SkippedStaysDelivered(s, BeginDecode(s, k), k, decode);
  }

  lemma SettlingStaysDelivered<D, M>(s: State<D, M>, decode: D -> Option<M>, k: nat)
    requires Delivered(s, decode) && Enabled(s, DecodeSettles(k))
    ensures Delivered(SettleDecode(s, decode, k), decode)
  {
    hide Delivered, Calls;
    if Live(s, k) && decode(s.sockets[k].received[s.sockets[k].settled]).Some? {
      MessageStaysDelivered(s, k, decode);
    } else {
      SkippedStaysDelivered(s, SettleDecode(s, decode, k), k, decode);
    }
  }

  lemma StepStaysDelivered<D, M>(s: State<D, M>, config: Config, decode: D -> Option<M>, e: Event<D>)
    requires Delivered(s, decode) && Enabled(s, e)
    ensures Delivered(Step(s, config, decode, e), decode)
  {
    hide Delivered, Carries, BeginDecode, SettleDecode;
    if e.DecodeStarts? && !Live(s, e.socket) {
      SkippingStaysDelivered(s, decode, e.socket);
    } else if e.DecodeSettles? {
      SettlingStaysDelivered(s, decode, e.socket);
    } else if e.Send? {
      SendingStaysDelivered(s, config, decode, e);
    } else {
      hide Step;
      StepCarries(s, config, decode, e);
      CarryingStaysDelivered(s, Step(s, config, decode, e), decode);
    }
  }

  // --- Order ---

  /** Each socket's messages come in the order of its frames, none left out and
      none twice: a message's index is the number of those before it. */
  ghost predicate InOrder<M>(log: seq<Item<M>>) {
    log == [] ||
    var before, last := log[..|log| - 1], log[|log| - 1];
    InOrder(before) && (last.Message? ==> last.index == |Messages(before, last.socket)|)
  }

  lemma {:induction false} QuietlyKeepsOrder<M>(before: seq<Item<M>>, after: seq<Item<M>>)
    requires Quietly(before, after) && InOrder(before)
    ensures InOrder(after)
    decreases |after|
  {
    if |after| > |before| {
      QuietlyKeepsOrder(before, after[..|after| - 1]);
    } else {
      assert before == after;
    }
  }

  lemma SettlingKeepsOrder<D, M>(s: State<D, M>, decode: D -> Option<M>, k: nat)
    requires Delivered(s, decode) && InOrder(s.log) && Enabled(s, DecodeSettles(k))
    ensures InOrder(SettleDecode(s, decode, k).log)
  {
    hide Messages, ShutDown;
    var socket := s.sockets[k];
    var s' := Put(s, k, socket.(decoding := false, settled := socket.settled + 1));
    var decoded := decode(socket.received[socket.settled]);
    if decoded.None? {
      EndingCarries(s', Some(DecodeFailed));
      QuietlyKeepsOrder(s.log, SettleDecode(s, decode, k).log);
    } else if Live(s, k) {
      var log := s.log + [Message(k, socket.settled, decoded.value, s.listeners)];
      assert log[..|log| - 1] == s.log;
    }
  }

  lemma SendingKeepsOrder<D, M>(s: State<D, M>, config: Config, decode: D -> Option<M>, e: Event<D>)
    requires InOrder(s.log) && Enabled(s, e) && e.Send?
    ensures InOrder(Step(s, config, decode, e).log)
  {
    if s.sockets != [] {
      var log := s.log + [Sent(Current(s), e.messageId)];
      assert log[..|log| - 1] == s.log;
    }
  }

  /** Every step delivers the next frame of its socket's chain, if any. */
  lemma StepStaysInOrder<D, M>(s: State<D, M>, config: Config, decode: D -> Option<M>, e: Event<D>)
    requires Delivered(s, decode) && InOrder(s.log) && Enabled(s, e)
    ensures InOrder(Step(s, config, decode, e).log)
  {
    hide Delivered, InOrder, BeginDecode, SettleDecode, Quietly;
    if e.DecodeSettles? {
      SettlingKeepsOrder(s, decode, e.socket);
    } else if e.DecodeStarts? && !Live(s, e.socket) {
      BeginningIsSilent(s, e.socket);
    } else if e.Send? {
      SendingKeepsOrder(s, config, decode, e);
    } else {
      hide Step;
      StepCarries(s, config, decode, e);
      QuietlyKeepsOrder(s.log, Step(s, config, decode, e).log);
    }
  }

  lemma BeginningIsSilent<D, M>(s: State<D, M>, k: nat)
    requires k < |s.sockets|
    ensures BeginDecode(s, k).log == s.log
  {
  }

  // --- Sending ---

  /** The message id an item sends with, if it has one. */
  function IdSent<M>(item: Item<M>): seq<string> {
    if item.Sent? && item.messageId.Some? && item.messageId.value != "" then [item.messageId.value] else []
  }

  function SentIds<M>(log: seq<Item<M>>): seq<string> {
    if log == [] then [] else SentIds(log[..|log| - 1]) + IdSent(log[|log| - 1])
  }

  lemma SentIdsSnoc<M>(log: seq<Item<M>>, item: Item<M>)
    ensures SentIds(log + [item]) == SentIds(log) + IdSent(item)
  {
    assert (log + [item])[..|log|] == log;
  }

  lemma {:induction false} QuietlySendsNothing<M>(before: seq<Item<M>>, after: seq<Item<M>>)
    requires Quietly(before, after)
    ensures SentIds(after) == SentIds(before)
    decreases |after|
  {
    if |after| > |before| {
      QuietlySendsNothing(before, after[..|after| - 1]);
    } else {
      assert before == after;
    }
  }

  /** The id that goes out with an event, if one does. */
  function IdTaken<D, M>(s: State<D, M>, e: Event<D>): seq<string> {
    if e.Send? && GoesOut(s, e.aborted, e.encodes, e.taken) && e.messageId.Some? && e.messageId.value != ""
    then [e.messageId.value] else []
  }

  lemma SettlingSendsNothing<D, M>(s: State<D, M>, decode: D -> Option<M>, k: nat)
    requires Enabled(s, DecodeSettles(k))
    ensures SentIds(SettleDecode(s, decode, k).log) == SentIds(s.log)
  {
    hide ShutDown, SentIds;
    var socket := s.sockets[k];
    var decoded := decode(socket.received[socket.settled]);
    if decoded.None? {
      EndingCarries(Put(s, k, socket.(decoding := false, settled := socket.settled + 1)), Some(DecodeFailed));
      QuietlySendsNothing(s.log, SettleDecode(s, decode, k).log);
    } else if Live(s, k) {
      SentIdsSnoc(s.log, Message(k, socket.settled, decoded.value, s.listeners));
    }
  }

  /** No step sends anything but the message of the send() it is. */
  lemma StepSends<D, M>(s: State<D, M>, config: Config, decode: D -> Option<M>, e: Event<D>)
    requires Enabled(s, e)
    ensures SentIds(Step(s, config, decode, e).log) == SentIds(s.log) + IdTaken(s, e)
  {
    hide SentIds, BeginDecode, SettleDecode, Quietly;
    if e.DecodeSettles? {
      SettlingSendsNothing(s, decode, e.socket);
    } else if e.DecodeStarts? && !Live(s, e.socket) {
      BeginningIsSilent(s, e.socket);
    } else if e.Send? {
      if s.sockets != [] {
        SentIdsSnoc(s.log, Sent(Current(s), e.messageId));
      }
    } else {
      hide Step;
      StepCarries(s, config, decode, e);
      QuietlySendsNothing(s.log, Step(s, config, decode, e).log);
    }
  }
}
