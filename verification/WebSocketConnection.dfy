/** The WebSocket connection: its handlers as methods over the closure's
    variables. */
module WebSocketConnections {
  import opened Prelude
  import opened Backoff
  import opened Listeners
  import opened WebSocket

  class WebSocketConnection<D, M> {
    const config: Config
    const decode: D -> Option<M>
    var sockets: seq<Socket<D>>
    var attempt: int
    var everOpened: bool
    var terminal: bool
    var closeError: Option<Fault>
    var ready: Ready
    var listeners: seq<nat>
    var closeListeners: seq<nat>
    var closeCalls: seq<CloseCall<Fault>>
    var starting: bool
    var sleeping: Option<int>
    var abortable: bool
    var log: seq<Item<M>>

    ghost function View(): State<D, M>
      reads this
    {
      State(sockets, attempt, everOpened, terminal, closeError, ready, listeners, closeListeners, closeCalls,
            starting, sleeping, abortable, log)
    }

    constructor (config: Config, decode: D -> Option<M>, hasSignal: bool, aborted: bool, factoryThrows: bool)
      ensures View() == Connect(config, hasSignal, aborted, factoryThrows)
      ensures this.config == config && this.decode == decode
    {
      hide AttachOrFail, Finish;
      this.config, this.decode := config, decode;
      sockets, attempt, everOpened, terminal, closeError, ready := [], 1, false, false, None, Undecided;
      listeners, closeListeners, closeCalls, starting, sleeping := [], [], [], false, None;
      abortable, log := hasSignal && !aborted, [];
      new;
      if hasSignal && aborted {
        End(Some(Aborted));
      } else {
        Begin(factoryThrows);
      }
    }

    /** cleanupSocket. */
    method Cleanup()
      modifies `sockets
      ensures sockets == Detached(old(sockets))
    {
      if sockets != [] {
        var last := |sockets| - 1;
        sockets := sockets[last := sockets[last].(attached := false)];
      }
    }

    /** Calls the close listeners in order. */
    method Tell(current: seq<nat>, error: Option<Fault>)
      modifies `closeCalls
      ensures closeCalls == old(closeCalls) + Calls(current, error)
    {
      for i := 0 to |current|
        invariant closeCalls == old(closeCalls) + Calls(current[..i], error)
      {
        assert Calls(current[..i + 1], error) == Calls(current[..i], error) + [CloseCall(current[i], error)];
        closeCalls := closeCalls + [CloseCall(current[i], error)];
      }
      assert current[..|current|] == current;
    }

    /** finish. */
    method End(error: Option<Fault>)
      modifies this
      ensures View() == Finish(old(View()), error)
    {
      hide Detached, Calls;
      if !terminal {
        var current := closeListeners;
        Release(error);
        Tell(current, error);
      }
    }

    method Release(error: Option<Fault>)
      requires !terminal
      modifies `terminal, `closeError, `abortable, `sockets, `ready, `log, `closeListeners, `listeners
      ensures terminal && closeError == error && !abortable && sockets == Detached(old(sockets))
      ensures ready == (if everOpened then old(ready) else Rejected) && log == old(log) + [Closed(attempt)]
      ensures closeListeners == [] && listeners == []
    {
      hide Detached;
      terminal, closeError, abortable := true, error, false;
      Cleanup();
      if !everOpened {
        ready := Rejected;
      }
      log := log + [Closed(attempt)];
      closeListeners, listeners := [], [];
    }

    /** closeSocket, then finish. */
    method CloseFromHere(error: Option<Fault>)
      requires !terminal
      modifies this
      ensures View() == ShutDown(old(View()), error)
    {
      hide Finish, Detached;
      ghost var was := View();
      if sockets != [] && sockets[|sockets| - 1].readyState < 2 {
        var last := |sockets| - 1;
        sockets := sockets[last := sockets[last].(closeAsked := true)];
      }
      assert View() == was.(sockets := AskedToClose(was.sockets));
      End(error);
    }

    method FailDecoding(k: nat)
      modifies this
      ensures View() == FailDecode(old(View()), k)
    {
      hide ShutDown;
      if terminal || k != |sockets| - 1 {
        return;
      }
      CloseFromHere(Some(DecodeFailed));
    }

    method MakeSocket(factoryThrows: bool)
      modifies this
      ensures View() == AttachOrFail(old(View()), factoryThrows)
    {
      hide Finish;
      if factoryThrows {
        End(Some(ConnectFailed));
      } else {
        sockets := sockets + [Socket(0, [], 0, false, false, false, true)];
      }
    }

    /** start. */
    method Begin(factoryThrows: bool)
      modifies this
      ensures View() == Start(old(View()), config, factoryThrows)
    {
      hide AttachOrFail;
      ghost var was := View();
      log := log + [Connecting(attempt)];
      assert View() == was.(log := was.log + [Connecting(was.attempt)]);
      if config.deferred {
        starting := true;
      } else {
        MakeSocket(factoryThrows);
      }
    }

    method OnOpen(k: nat)
      requires k < |sockets| && sockets[k].attached
      modifies this
      ensures View() == Step(old(View()), config, decode, Opens(k))
    {
      if terminal || k != |sockets| - 1 {
        return;
      }
      everOpened := true;
      log := log + [if attempt == 1 then Connected(attempt) else Reconnected(attempt)];
      ready := Resolved;
    }

    method OnMessage(k: nat, data: D, bytes: nat)
      requires k < |sockets| && sockets[k].attached
      modifies this
      ensures View() == Step(old(View()), config, decode, Frame(k, data, bytes))
    {
      hide FailDecode;
      if bytes > config.maxFrameBytes {
        FailDecoding(k);
        return;
      }
      sockets := sockets[k := sockets[k].(received := sockets[k].received + [data])];
    }

    /** The next link of a socket's decode chain starts. */
    method OnDecodeTurn(k: nat)
      requires k < |sockets| && !sockets[k].decoding && sockets[k].settled < |sockets[k].received|
      modifies this
      ensures View() == Step(old(View()), config, decode, DecodeStarts(k))
    {
      if terminal || k != |sockets| - 1 {
        sockets := sockets[k := sockets[k].(settled := sockets[k].settled + 1)];
      } else {
        sockets := sockets[k := sockets[k].(decoding := true)];
      }
    }

    method OnDecoded(k: nat)
      requires k < |sockets| && sockets[k].decoding && sockets[k].settled < |sockets[k].received|
      modifies this
      ensures View() == Step(old(View()), config, decode, DecodeSettles(k))
    {
      hide FailDecode;
      ghost var was := View();
      var socket := sockets[k];
      var decoded := decode(socket.received[socket.settled]);
      sockets := sockets[k := socket.(decoding := false, settled := socket.settled + 1)];
      assert View() == Put(was, k, socket.(decoding := false, settled := socket.settled + 1));
      if decoded.None? {
        FailDecoding(k);
      } else if !terminal && k == |sockets| - 1 {
        log := log + [Message(k, socket.settled, decoded.value, listeners)];
      }
    }

    /** disconnect and handleClose, up to the sleep. */
    method OnDisconnect(k: nat, code: int, wasClean: bool, random: real, elapsedMs: real)
      requires k < |sockets|
      modifies this
      ensures View() == Disconnect(old(View()), config.policy, k, code, wasClean, random, elapsedMs)
    {
      hide Finish, ComputeBackoffDelay, SleepFits, Detached;
      if sockets[k].handled || terminal || k != |sockets| - 1 {
        return;
      }
      ghost var was := View();
      sockets := sockets[k := sockets[k].(handled := true)];
      Cleanup();
      ghost var detached := was.(sockets := Detached(was.sockets[k := was.sockets[k].(handled := true)]));
      assert View() == detached;
      var retryable := !wasClean && code != 1000;
      if !retryable || attempt >= config.policy.maxAttempts {
        End(Some(ConnectionClosed(code)));
        return;
      }
      var delay := ComputeBackoffDelay(config.policy, attempt, random, None);
      if delay.None? {
        return;
      }
      if !SleepFits(config.policy, elapsedMs, delay.value) {
        End(Some(ConnectionClosed(code)));
        return;
      }
      log := log + [Retrying(attempt, delay.value, elapsedMs)];
      sleeping := Some(code);
    }

    method OnError(k: nat, random: real, elapsedMs: real)
      requires k < |sockets| && sockets[k].attached
      modifies this
      ensures View() == Step(old(View()), config, decode, Errors(k, random, elapsedMs))
    {
      hide Disconnect;
      if sockets[k].readyState == 3 {
        OnDisconnect(k, 1006, false, random, elapsedMs);
      }
    }

    method OnClose(k: nat, code: Option<int>, wasClean: Option<bool>, random: real, elapsedMs: real)
      requires k < |sockets| && sockets[k].attached
      modifies this
      ensures View() == Step(old(View()), config, decode, Closes(k, code, wasClean, random, elapsedMs))
    {
      hide Disconnect;
      OnDisconnect(k, if code.Some? then code.value else 1006, wasClean.Some? && wasClean.value, random, elapsedMs);
    }

    /** The end of startAsync. */
    method OnTargetResolved(rejects: bool, factoryThrows: bool)
      requires starting
      modifies this
      ensures View() == Step(old(View()), config, decode, StartSettles(rejects, factoryThrows))
    {
      hide Finish, AttachOrFail;
      ghost var was := View();
      starting := false;
      assert View() == was.(starting := false);
      if rejects {
        End(Some(ConnectFailed));
      } else if !terminal {
        MakeSocket(factoryThrows);
      }
    }

    /** The rest of handleClose, after the sleep. */
    method OnSleepSettled(ok: bool, factoryThrows: bool)
      requires sleeping.Some?
      modifies this
      ensures View() == Step(old(View()), config, decode, SleepSettles(ok, factoryThrows))
    {
      hide Finish, Start;
      ghost var was := View();
      var code := sleeping.value;
      sleeping := None;
      assert View() == was.(sleeping := None);
      if terminal {
        return;
      }
      if !ok {
        End(Some(ConnectionClosed(code)));
        return;
      }
      attempt := attempt + 1;
      assert View() == was.(sleeping := None, attempt := was.attempt + 1);
      Begin(factoryThrows);
    }

    method OnAbort()
      requires abortable
      modifies this
      ensures View() == Step(old(View()), config, decode, AbortFires)
    {
      hide ShutDown;
      ghost var was := View();
      abortable := false;
      assert View() == was.(abortable := false);
      ShutDownOfEnded(View(), Some(Aborted));
      if !terminal {
        CloseFromHere(Some(Aborted));
      }
    }

    method Close()
      modifies this
      ensures View() == Step(old(View()), config, decode, CloseCalled)
    {
      hide ShutDown;
      ShutDownOfEnded(View(), None);
      if !terminal {
        CloseFromHere(None);
      }
    }

    static lemma ShutDownOfEnded(s: State<D, M>, error: Option<Fault>)
      ensures s.terminal ==> ShutDown(s, error) == s
    {
    }

    /** send(); false is a thrown error. */
    method SendOut(messageId: Option<string>, aborted: bool, encodes: bool, taken: bool) returns (ok: bool)
      modifies this
      ensures ok == GoesOut(old(View()), aborted, encodes, taken)
      ensures View() == Step(old(View()), config, decode, Send(messageId, aborted, encodes, taken))
    {
      if aborted || terminal || sockets == [] || sockets[|sockets| - 1].readyState != 1 {
        return false;
      }
      if !encodes || !taken {
        return false;
      }
      log := log + [Sent(|sockets| - 1, messageId)];
      return true;
    }

    method Listen(l: nat)
      modifies this
      ensures View() == Step(old(View()), config, decode, Event<D>.Subscribe(l))
    {
      if !terminal && l !in listeners {
        listeners := listeners + [l];
      }
    }

    method ListenForEnd(l: nat)
      modifies this
      ensures View() == Step(old(View()), config, decode, SubscribeClose(l))
    {
      if terminal {
        closeCalls := closeCalls + [CloseCall(l, closeError)];
      } else if l !in closeListeners {
        closeListeners := closeListeners + [l];
      }
    }
  }
}
