/** Who hears what over a whole run of a WebSocket connection, told by the events
    that happened and the log alone. */
module WebSocketListening {
  import opened Prelude
  import opened Backoff
  import opened Listeners
  import opened WebSocket
  import opened WebSocketRuns

  /** The listener subscribed, and did not withdraw since. */
  predicate Wants<D>(events: seq<Event<D>>, l: nat) {
    events != [] &&
    var last := events[|events| - 1];
    if last.Subscribe? && last.listener == l then true
    else !(last.Unsubscribe? && last.listener == l) && Wants(events[..|events| - 1], l)
  }

  /** The frames that came in on socket k. */
  function Frames<D>(events: seq<Event<D>>, k: nat): seq<D> {
    if events == [] then []
    else
      var last := events[|events| - 1];
      Frames(events[..|events| - 1], k) + if last.Frame? && last.socket == k then [last.data] else []
  }

  /** How many frames of socket k were decoded. */
  function Settlings<D>(events: seq<Event<D>>, k: nat): nat {
    if events == [] then 0
    else
      var last := events[|events| - 1];
      Settlings(events[..|events| - 1], k) + if last.DecodeSettles? && last.socket == k then 1 else 0
  }

  /** All messages handed out, and those handed to listener l. */
  function Said<M>(log: seq<Item<M>>): seq<M> {
    if log == [] then []
    else
      var last := log[|log| - 1];
      Said(log[..|log| - 1]) + if last.Message? then [last.message] else []
  }

  function Heard<M>(log: seq<Item<M>>, l: nat): seq<M> {
    if log == [] then []
    else
      var last := log[|log| - 1];
      Heard(log[..|log| - 1], l) + if last.Message? && l in last.to then [last.message] else []
  }

  // --- Runs in parts ---

  lemma {:induction false} RunInParts<D, M>(s: State<D, M>, config: Config, decode: D -> Option<M>, a: seq<Event<D>>,
                                            b: seq<Event<D>>)
    requires Possible(s, config, decode, a + b)
    ensures Possible(s, config, decode, a) && Possible(Run(s, config, decode, a), config, decode, b)
    ensures Run(s, config, decode, a + b) == Run(Run(s, config, decode, a), config, decode, b)
    decreases |a|
  {
    hide Step;
    if a == [] {
      assert a + b == b;
    } else {
      assert (a + b)[1..] == a[1..] + b;
      RunInParts(Step(s, config, decode, a[0]), config, decode, a[1..], b);
    }
  }

  lemma OneMoreEvent<D, M>(s: State<D, M>, config: Config, decode: D -> Option<M>, a: seq<Event<D>>, e: Event<D>)
    requires Possible(s, config, decode, a + [e])
    ensures Possible(s, config, decode, a) && Enabled(Run(s, config, decode, a), e)
    ensures Run(s, config, decode, a + [e]) == Step(Run(s, config, decode, a), config, decode, e)
  {
    hide Step;
    RunInParts(s, config, decode, a, [e]);
    assert [e][1..] == [];
  }

  // --- The listeners ---

  /** The listener set is that of the events so far. */
  ghost predicate Listening<D, M>(s: State<D, M>, events: seq<Event<D>>) {
    !s.terminal ==> Distinct(s.listeners) && forall l :: l in s.listeners <==> Wants(events, l)
  }

  /** Still open, with the same listeners, unless it ended. */
  ghost predicate Keeps<D, M>(s: State<D, M>, s': State<D, M>) {
    s'.terminal || (!s.terminal && s'.listeners == s.listeners)
  }

  lemma EndingKeeps<D, M>(s: State<D, M>, error: Option<Fault>)
    ensures Finish(s, error).terminal && ShutDown(s, error).terminal
  {
    hide Calls, Detached, AskedToClose;
  }

  lemma DisconnectKeeps<D, M>(s: State<D, M>, policy: RetryPolicy, k: nat, code: int, wasClean: bool, random: real,
                              elapsedMs: real)
    requires k < |s.sockets|
    ensures Keeps(s, Disconnect(s, policy, k, code, wasClean, random, elapsedMs))
  {
    hide Detached, ComputeBackoffDelay, SleepFits, Finish;
    EndingKeeps(s.(sockets := Detached(s.sockets[k := s.sockets[k].(handled := true)])), Some(ConnectionClosed(code)));
  }

  lemma StartKeeps<D, M>(s: State<D, M>, config: Config, factoryThrows: bool)
    requires !s.terminal
    ensures Keeps(s, Start(s, config, factoryThrows)) && Keeps(s, AttachOrFail(s, factoryThrows))
  {
    hide Finish;
    EndingKeeps(s, Some(ConnectFailed));
    EndingKeeps(s.(log := s.log + [Connecting(s.attempt)]), Some(ConnectFailed));
  }

  lemma LosingKeeps<D, M>(s: State<D, M>, config: Config, decode: D -> Option<M>, e: Event<D>)
    requires Enabled(s, e) && (e.Errors? || e.Closes?)
    ensures Keeps(s, Step(s, config, decode, e))
  {
    hide Disconnect;
    if e.Errors? {
      DisconnectKeeps(s, config.policy, e.socket, 1006, false, e.random, e.elapsedMs);
    } else {
      DisconnectKeeps(s, config.policy, e.socket, if e.code.Some? then e.code.value else 1006,
                      e.wasClean.Some? && e.wasClean.value, e.random, e.elapsedMs);
    }
  }

  lemma LeadingOnKeeps<D, M>(s: State<D, M>, config: Config, decode: D -> Option<M>, e: Event<D>)
    requires Enabled(s, e) && (e.SleepSettles? || e.StartSettles?)
    ensures Keeps(s, Step(s, config, decode, e))
  {
    hide Finish, Start, AttachOrFail;
    if e.SleepSettles? {
      EndingKeeps(s.(sleeping := None), Some(ConnectionClosed(s.sleeping.value)));
      if !s.terminal {
        StartKeeps(s.(sleeping := None, attempt := s.attempt + 1), config, e.factoryThrows);
      }
    } else {
      EndingKeeps(s.(starting := false), Some(ConnectFailed));
      if !s.terminal {
        StartKeeps(s.(starting := false), config, e.factoryThrows);
      }
    }
  }

  lemma EndingStepKeeps<D, M>(s: State<D, M>, config: Config, decode: D -> Option<M>, e: Event<D>)
    requires Enabled(s, e) && (e.AbortFires? || e.CloseCalled? || e.Frame? || e.DecodeSettles?)
    ensures Keeps(s, Step(s, config, decode, e))
  {
    hide ShutDown;
    EndingKeeps(s, Some(DecodeFailed));
    EndingKeeps(s, None);
    EndingKeeps(s.(abortable := false), Some(Aborted));
    if e.DecodeSettles? {
      var socket := s.sockets[e.socket];
      EndingKeeps(Put(s, e.socket, socket.(decoding := false, settled := socket.settled + 1)), Some(DecodeFailed));
    }
  }

  lemma StepListens<D, M>(s: State<D, M>, config: Config, decode: D -> Option<M>, e: Event<D>)
    requires Enabled(s, e) && !Step(s, config, decode, e).terminal
    ensures !s.terminal
    ensures var s' := Step(s, config, decode, e);
            s'.listeners == if e.Subscribe? then Added(s.listeners, e.listener)
                            else if e.Unsubscribe? then Removed(s.listeners, e.listener) else s.listeners
  {
    if e.Errors? || e.Closes? {
      hide Step;
      LosingKeeps(s, config, decode, e);
    } else if e.SleepSettles? || e.StartSettles? {
      hide Step;
      LeadingOnKeeps(s, config, decode, e);
    } else if e.AbortFires? || e.CloseCalled? || e.Frame? || e.DecodeSettles? {
      hide Step;
      EndingStepKeeps(s, config, decode, e);
    } else {
      hide Added, Removed;
    }
  }

  lemma StepKeepsListening<D, M>(s: State<D, M>, config: Config, decode: D -> Option<M>, a: seq<Event<D>>, e: Event<D>)
    requires Listening(s, a) && Enabled(s, e)
    ensures Listening(Step(s, config, decode, e), a + [e])
  {
    hide Step, Added, Removed, Distinct;
    var s' := Step(s, config, decode, e);
    if !s'.terminal {
      StepListens(s, config, decode, e);
      assert (a + [e])[..|a|] == a;
      if e.Subscribe? {
        AddedHas(s.listeners, e.listener);
      } else if e.Unsubscribe? {
        RemovedHas(s.listeners, e.listener);
      }
    }
  }

  // --- The frames ---

  /** The live socket's frames are those that came in on it, and it is done with as
      many as were decoded; sockets not made yet have none. */
  ghost predicate Tracked<D, M>(s: State<D, M>, events: seq<Event<D>>) {
    && (forall k: nat | k >= |s.sockets| :: Frames(events, k) == [] && Settlings(events, k) == 0)
    && (!s.terminal && s.sockets != [] ==>
          var k := Current(s);
          s.sockets[k].received == Frames(events, k) && s.sockets[k].settled == Settlings(events, k))
  }

  /** How a step changes the live socket's chain. */
  ghost predicate ChainMoves<D, M>(s: State<D, M>, s': State<D, M>, e: Event<D>) {
    && |s.sockets| <= |s'.sockets|
    && (!s'.terminal && s'.sockets != [] ==>
          var k := Current(s');
          var to := s'.sockets[k];
          if k >= |s.sockets| then to.received == [] && to.settled == 0 && !e.Frame? && !e.DecodeSettles?
          else
            && !s.terminal && k == Current(s)
            && to.received == s.sockets[k].received + (if e.Frame? && e.socket == k then [e.data] else [])
            && to.settled == s.sockets[k].settled + if e.DecodeSettles? && e.socket == k then 1 else 0)
  }

  lemma EndingMoves<D, M>(s: State<D, M>, error: Option<Fault>)
    ensures var s' := Finish(s, error); s'.terminal && |s'.sockets| == |s.sockets|
    ensures var s' := ShutDown(s, error); s'.terminal && |s'.sockets| == |s.sockets|
  {
    hide Calls, Detached;
  }

  lemma FrameMoves<D, M>(s: State<D, M>, config: Config, decode: D -> Option<M>, e: Event<D>)
    requires Enabled(s, e) && (e.Frame? || e.DecodeStarts? || e.ReadyStateMoves?)
    ensures ChainMoves(s, Step(s, config, decode, e), e)
  {
    hide ShutDown;
    EndingMoves(s, Some(DecodeFailed));
  }

  lemma DecodingMoves<D, M>(s: State<D, M>, config: Config, decode: D -> Option<M>, e: Event<D>)
    requires Enabled(s, e) && e.DecodeSettles?
    ensures ChainMoves(s, Step(s, config, decode, e), e)
  {
    hide ShutDown;
    var socket := s.sockets[e.socket];
    EndingMoves(Put(s, e.socket, socket.(decoding := false, settled := socket.settled + 1)), Some(DecodeFailed));
  }

  lemma DisconnectMoves<D, M>(s: State<D, M>, policy: RetryPolicy, k: nat, code: int, wasClean: bool, random: real,
                              elapsedMs: real, e: Event<D>)
    requires k < |s.sockets| && !e.Frame? && !e.DecodeSettles?
    ensures ChainMoves(s, Disconnect(s, policy, k, code, wasClean, random, elapsedMs), e)
  {
    hide Finish, ComputeBackoffDelay, SleepFits, Detached;
    var handled := s.sockets[k := s.sockets[k].(handled := true)];
    DetachedChains(handled);
    EndingMoves(s.(sockets := Detached(handled)), Some(ConnectionClosed(code)));
  }

  lemma DetachedChains<D>(sockets: seq<Socket<D>>)
    ensures forall j | 0 <= j < |sockets| ::
              Detached(sockets)[j].received == sockets[j].received && Detached(sockets)[j].settled == sockets[j].settled
  {
  }

  lemma LosingMoves<D, M>(s: State<D, M>, config: Config, decode: D -> Option<M>, e: Event<D>)
    requires Enabled(s, e) && (e.Errors? || e.Closes?)
    ensures ChainMoves(s, Step(s, config, decode, e), e)
  {
    hide Disconnect;
    if e.Errors? {
      DisconnectMoves(s, config.policy, e.socket, 1006, false, e.random, e.elapsedMs, e);
    } else {
      DisconnectMoves(s, config.policy, e.socket, if e.code.Some? then e.code.value else 1006,
                      e.wasClean.Some? && e.wasClean.value, e.random, e.elapsedMs, e);
    }
  }

  lemma StartMoves<D, M>(s: State<D, M>, config: Config, factoryThrows: bool, e: Event<D>)
    requires !e.Frame? && !e.DecodeSettles? && !s.terminal
    ensures ChainMoves(s, Start(s, config, factoryThrows), e) && ChainMoves(s, AttachOrFail(s, factoryThrows), e)
  {
    hide Finish;
    EndingMoves(s, Some(ConnectFailed));
    EndingMoves(s.(log := s.log + [Connecting(s.attempt)]), Some(ConnectFailed));
  }

  lemma LeadingOnMoves<D, M>(s: State<D, M>, config: Config, decode: D -> Option<M>, e: Event<D>)
    requires Enabled(s, e) && (e.SleepSettles? || e.StartSettles?)
    ensures ChainMoves(s, Step(s, config, decode, e), e)
  {
    hide Finish, Start, AttachOrFail;
    if e.SleepSettles? {
      EndingMoves(s.(sleeping := None), Some(ConnectionClosed(s.sleeping.value)));
      if !s.terminal {
        StartMoves(s.(sleeping := None, attempt := s.attempt + 1), config, e.factoryThrows, e);
      }
    } else {
      EndingMoves(s.(starting := false), Some(ConnectFailed));
      if !s.terminal {
        StartMoves(s.(starting := false), config, e.factoryThrows, e);
      }
    }
  }

  lemma CallingMoves<D, M>(s: State<D, M>, config: Config, decode: D -> Option<M>, e: Event<D>)
    requires Enabled(s, e) && !e.Frame? && !e.DecodeStarts? && !e.DecodeSettles? && !e.ReadyStateMoves?
    requires !e.Errors? && !e.Closes? && !e.SleepSettles? && !e.StartSettles?
    ensures ChainMoves(s, Step(s, config, decode, e), e)
  {
    hide ShutDown, Added, Removed;
    EndingMoves(s.(abortable := false), Some(Aborted));
    EndingMoves(s, None);
  }

  lemma StepMoves<D, M>(s: State<D, M>, config: Config, decode: D -> Option<M>, e: Event<D>)
    requires Enabled(s, e)
    ensures ChainMoves(s, Step(s, config, decode, e), e)
  {
    hide Step, ChainMoves;
    if e.Frame? || e.DecodeStarts? || e.ReadyStateMoves? {
      FrameMoves(s, config, decode, e);
    } else if e.DecodeSettles? {
      DecodingMoves(s, config, decode, e);
    } else if e.Errors? || e.Closes? {
      LosingMoves(s, config, decode, e);
    } else if e.SleepSettles? || e.StartSettles? {
      LeadingOnMoves(s, config, decode, e);
    } else {
      CallingMoves(s, config, decode, e);
    }
  }

  lemma StepKeepsTracked<D, M>(s: State<D, M>, config: Config, decode: D -> Option<M>, a: seq<Event<D>>, e: Event<D>)
    requires Tracked(s, a) && Enabled(s, e)
    ensures Tracked(Step(s, config, decode, e), a + [e])
  {
    hide Step, ChainMoves;
    StepMoves(s, config, decode, e);
    MovesKeepTracked(s, Step(s, config, decode, e), a, e);
  }

  lemma MovesKeepTracked<D, M>(s: State<D, M>, s': State<D, M>, a: seq<Event<D>>, e: Event<D>)
    requires Tracked(s, a) && ChainMoves(s, s', e)
    requires (e.Frame? || e.DecodeSettles?) ==> e.socket < |s.sockets|
    ensures Tracked(s', a + [e])
  {
    assert (a + [e])[..|a|] == a;
    forall k: nat
      ensures Frames(a + [e], k) == Frames(a, k) + if e.Frame? && e.socket == k then [e.data] else []
      ensures Settlings(a + [e], k) == Settlings(a, k) + if e.DecodeSettles? && e.socket == k then 1 else 0
    {
    }
  }

  // --- Whole runs ---

  lemma {:induction false} RunsAreFollowed<D, M>(s: State<D, M>, config: Config, decode: D -> Option<M>,
                                                 events: seq<Event<D>>)
    requires Possible(s, config, decode, events) && Delivered(s, decode)
    requires Listening(s, []) && Tracked(s, [])
    ensures var s' := Run(s, config, decode, events);
            Listening(s', events) && Tracked(s', events) && Delivered(s', decode)
    decreases |events|
  {
    hide Listening, Tracked, Step, Delivered;
    if events != [] {
      var init, last := events[..|events| - 1], events[|events| - 1];
      assert events == init + [last];
      OneMoreEvent(s, config, decode, init, last);
      RunsAreFollowed(s, config, decode, init);
      var before := Run(s, config, decode, init);
      StepKeepsListening(before, config, decode, init, last);
      StepKeepsTracked(before, config, decode, init, last);
      StepStaysDelivered(before, config, decode, last);
    }
  }

  lemma ConnectIsFollowed<D, M>(config: Config, decode: D -> Option<M>, hasSignal: bool, aborted: bool,
                                factoryThrows: bool)
    ensures var s: State<D, M> := Connect(config, hasSignal, aborted, factoryThrows);
            Listening(s, []) && Tracked(s, []) && Delivered(s, decode)
  {
    var initial: State<D, M> := Initial(hasSignal && !aborted);
    InitialIsClean<D, M>(config, decode, initial.abortable);
    var s: State<D, M> := Connect(config, hasSignal, aborted, factoryThrows);
    assert Listening(s, []) && Tracked(s, []);
    hide Finish, Start, Delivered;
    EndingCarries(initial, Some(Aborted));
    StartCarries(initial, config, factoryThrows);
    CarryingStaysDelivered(initial, s, decode);
  }

  /** The event decodes the next frame of the live socket. */
  predicate Decodes<D, M>(s: State<D, M>, decode: D -> Option<M>, a: seq<Event<D>>, e: Event<D>) {
    && e.DecodeSettles? && !s.terminal && e.socket == |s.sockets| - 1
    && Settlings(a, e.socket) < |Frames(a, e.socket)|
    && decode(Frames(a, e.socket)[Settlings(a, e.socket)]).Some?
  }

  /** What a step hands out, given what the events so far make of the state. */
  ghost predicate Says<D, M>(s: State<D, M>, s': State<D, M>, decode: D -> Option<M>, a: seq<Event<D>>, e: Event<D>) {
    && s.log <= s'.log
    && if Decodes(s, decode, a, e) then
         var k := |s.sockets| - 1;
         var n := Settlings(a, k);
         && |s'.log| == |s.log| + 1
         && var item := s'.log[|s.log|];
            && item.Message? && item.socket == k && item.index == n
            && decode(Frames(a, k)[n]) == Some(item.message)
            && Distinct(item.to) && forall l :: l in item.to <==> Wants(a, l)
       else forall j | |s.log| <= j < |s'.log| :: !s'.log[j].Message?
  }

  lemma DecodingSays<D, M>(s: State<D, M>, config: Config, decode: D -> Option<M>, a: seq<Event<D>>, e: Event<D>)
    requires Listening(s, a) && Tracked(s, a) && Enabled(s, e) && e.DecodeSettles?
    ensures Says(s, Step(s, config, decode, e), decode, a, e)
  {
    hide ShutDown, Wants, Frames, Settlings, Distinct;
    var socket := s.sockets[e.socket];
    EndingCarries(Put(s, e.socket, socket.(decoding := false, settled := socket.settled + 1)), Some(DecodeFailed));
  }

  lemma StepSays<D, M>(s: State<D, M>, config: Config, decode: D -> Option<M>, a: seq<Event<D>>, e: Event<D>)
    requires Listening(s, a) && Tracked(s, a) && Enabled(s, e)
    ensures Says(s, Step(s, config, decode, e), decode, a, e)
  {
    hide Wants, Frames, Settlings, Distinct, SameChains;
    if e.DecodeSettles? {
      hide Step, Says;
      DecodingSays(s, config, decode, a, e);
    } else if e.Send? || (e.DecodeStarts? && !Live(s, e.socket)) {
      hide Listening, Tracked;
    } else {
      hide Step, Listening, Tracked;
      StepCarries(s, config, decode, e);
    }
  }

  /** Exactly what is handed out, and to whom: an event hands out a message if and
      only if it is a frame of the live socket decoding; the message is what that
      frame, the next in order, decodes to, and it goes once to each listener that
      wants it and to nobody else. */
  lemma MessagesExactly<D, M>(config: Config, decode: D -> Option<M>, hasSignal: bool, aborted: bool,
                              factoryThrows: bool, a: seq<Event<D>>, e: Event<D>)
    requires Possible(Connect(config, hasSignal, aborted, factoryThrows), config, decode, a + [e])
    ensures Possible(Connect(config, hasSignal, aborted, factoryThrows), config, decode, a)
    ensures var start: State<D, M> := Connect(config, hasSignal, aborted, factoryThrows);
            var s, s' := Run(start, config, decode, a), Run(start, config, decode, a + [e]);
            Says(s, s', decode, a, e)
  {
    hide Step, Listening, Tracked, Delivered, Connect, Says;
    var start: State<D, M> := Connect(config, hasSignal, aborted, factoryThrows);
    OneMoreEvent(start, config, decode, a, e);
    ConnectIsFollowed<D, M>(config, decode, hasSignal, aborted, factoryThrows);
    RunsAreFollowed(start, config, decode, a);
    StepSays(Run(start, config, decode, a), config, decode, a, e);
  }

  /** The live socket has handed out what its first frames decode to, as many as
      were decoded: none is lost on the way. */
  lemma LiveSocketDelivers<D, M>(config: Config, decode: D -> Option<M>, hasSignal: bool, aborted: bool,
                                 factoryThrows: bool, events: seq<Event<D>>)
    requires Possible(Connect(config, hasSignal, aborted, factoryThrows), config, decode, events)
    ensures var s: State<D, M> := Run(Connect(config, hasSignal, aborted, factoryThrows), config, decode, events);
            !s.terminal && s.sockets != [] ==>
              var k: nat := |s.sockets| - 1;
              var frames, said := Frames(events, k), Messages(s.log, k);
              && |said| == Settlings(events, k) <= |frames|
              && forall i | 0 <= i < |said| :: decode(frames[i]) == Some(said[i])
  {
    hide Step, Listening, Connect, Messages, Frames, Settlings;
    var start: State<D, M> := Connect(config, hasSignal, aborted, factoryThrows);
    ConnectIsFollowed<D, M>(config, decode, hasSignal, aborted, factoryThrows);
    RunsAreFollowed(start, config, decode, events);
  }

  lemma {:induction false} SilenceKeepsHeard<M>(before: seq<Item<M>>, after: seq<Item<M>>, l: nat)
    requires before <= after && forall j | |before| <= j < |after| :: !after[j].Message?
    ensures Said(after) == Said(before) && Heard(after, l) == Heard(before, l)
    decreases |after|
  {
    if |after| > |before| {
      SilenceKeepsHeard(before, after[..|after| - 1], l);
    } else {
      assert before == after;
    }
  }

  lemma EventHears<D, M>(config: Config, decode: D -> Option<M>, hasSignal: bool, aborted: bool, factoryThrows: bool,
                         a: seq<Event<D>>, e: Event<D>, l: nat)
    requires Possible(Connect(config, hasSignal, aborted, factoryThrows), config, decode, a + [e])
    ensures Possible(Connect(config, hasSignal, aborted, factoryThrows), config, decode, a)
    ensures var start: State<D, M> := Connect(config, hasSignal, aborted, factoryThrows);
            var s, s' := Run(start, config, decode, a), Run(start, config, decode, a + [e]);
            && Said(s.log) <= Said(s'.log)
            && Heard(s'.log, l) == Heard(s.log, l) + if Wants(a, l) then Said(s'.log)[|Said(s.log)|..] else []
  {
    hide Run, Connect, Wants, Possible, Frames, Settlings, Said, Heard, Distinct;
    MessagesExactly<D, M>(config, decode, hasSignal, aborted, factoryThrows, a, e);
    var start: State<D, M> := Connect(config, hasSignal, aborted, factoryThrows);
    var s, s' := Run(start, config, decode, a), Run(start, config, decode, a + [e]);
    if Decodes(s, decode, a, e) {
      assert s'.log == s.log + [s'.log[|s.log|]];
      ItemIsHeard(s.log, s'.log[|s.log|], l);
    } else {
      SilenceKeepsHeard(s.log, s'.log, l);
    }
  }

  lemma ItemIsHeard<M>(log: seq<Item<M>>, item: Item<M>, l: nat)
    requires item.Message?
    ensures Said(log + [item]) == Said(log) + [item.message]
    ensures Heard(log + [item], l) == Heard(log, l) + if l in item.to then [item.message] else []
  {
    assert (log + [item])[..|log|] == log;
  }

  /** From any point of a run on: a listener that wants messages then and does not
      withdraw hears exactly the messages handed out afterwards, once each and in
      order; one that does not want any and does not subscribe hears nothing. */
  lemma {:induction false} ListenerHears<D, M>(config: Config, decode: D -> Option<M>, hasSignal: bool, aborted: bool,
                                               factoryThrows: bool, a: seq<Event<D>>, b: seq<Event<D>>, l: nat)
    requires Possible(Connect(config, hasSignal, aborted, factoryThrows), config, decode, a + b)
    ensures Possible(Connect(config, hasSignal, aborted, factoryThrows), config, decode, a)
    ensures var start: State<D, M> := Connect(config, hasSignal, aborted, factoryThrows);
            var before, now := Run(start, config, decode, a).log, Run(start, config, decode, a + b).log;
            && Said(before) <= Said(now)
            && (Wants(a, l) && Unsubscribe(l) !in b ==>
                Heard(now, l) == Heard(before, l) + Said(now)[|Said(before)|..])
            && (!Wants(a, l) && Subscribe(l) !in b ==> Heard(now, l) == Heard(before, l))
    decreases |b|
  {
    hide Run, Connect, Possible, Said, Heard, Wants;
    if b == [] {
      assert a + b == a;
    } else {
      var init, e := b[..|b| - 1], b[|b| - 1];
      assert b == init + [e];
      Associates(a, init, [e]);
      EventHears<D, M>(config, decode, hasSignal, aborted, factoryThrows, a + init, e, l);
      ListenerHears<D, M>(config, decode, hasSignal, aborted, factoryThrows, a, init, l);
      WantingLasts(a, init, l);
    }
  }

  lemma {:induction false} WantingLasts<D>(a: seq<Event<D>>, b: seq<Event<D>>, l: nat)
    ensures Wants(a, l) && Unsubscribe(l) !in b ==> Wants(a + b, l)
    ensures !Wants(a, l) && Subscribe(l) !in b ==> !Wants(a + b, l)
  {
    if b == [] {
      assert a + b == a;
    } else {
      var init, e := b[..|b| - 1], b[|b| - 1];
      assert b == init + [e] && (a + b)[..|a + b| - 1] == a + init;
      WantingLasts(a, init, l);
    }
  }
}
