/** A message channel over a byte channel: chunks in, messages out, one close. */
module FramedChannels {
  import opened Prelude
  import opened Framing
  import opened Listeners
  import J = JsonLines

  datatype CloseError = ChannelError | IncompleteFrame

  /** One message handed to the listeners there were. */
  datatype Delivery<V> = Delivery(message: V, to: seq<nat>)

  /** failed: the decoder threw; what it does afterwards is not modelled. */
  datatype State<V> = State(consumed: seq<Byte>, failed: bool, closed: bool, closedError: Option<CloseError>,
                            listeners: seq<nat>, closeListeners: seq<nat>, log: seq<Delivery<V>>,
                            closeCalls: seq<CloseCall<CloseError>>)

  function Initial<V>(): State<V> { State([], false, false, None, [], [], [], []) }

  datatype Event =
    | Chunk(bytes: seq<Byte>)
    | Closes(failed: bool, finishThrows: bool)
    | Subscribe(listener: nat)
    | Unsubscribe(listener: nat)
    | SubscribeClose(listener: nat)
    | UnsubscribeClose(listener: nat)

  /** Chunks arrive while the channel listens and its decoder works. */
  predicate Enabled<V>(s: State<V>, e: Event) { e.Chunk? ==> !s.closed && !s.failed }

  function Deliveries<V>(messages: seq<V>, to: seq<nat>): seq<Delivery<V>> {
    seq(|messages|, i requires 0 <= i < |messages| => Delivery(messages[i], to))
  }

  function Said<V>(log: seq<Delivery<V>>): seq<V> { seq(|log|, i requires 0 <= i < |log| => log[i].message) }

  function TakeChunk<V>(s: State<V>, max: nat, json: Json<V>, bytes: seq<Byte>): State<V> {
    var decoded := J.Decode([], s.consumed + bytes, max, json);
    var taken := s.(consumed := s.consumed + bytes);
    if decoded.Rejected? || |decoded.values| < |s.log| then taken.(failed := true)
    else taken.(log := s.log + Deliveries(decoded.values[|s.log|..], s.listeners))
  }

  /** notifyClosed: an unfinished frame is an error of its own. */
  function Close<V>(s: State<V>, max: nat, json: Json<V>, failed: bool, finishThrows: bool): State<V> {
    if s.closed then s
    else
      var decoded := J.Decode([], s.consumed, max, json);
      var incomplete := if s.failed || decoded.Rejected? then finishThrows else decoded.pending != [];
      var error := if incomplete then Some(IncompleteFrame) else if failed then Some(ChannelError) else None;
      s.(closed := true, closedError := error, listeners := [], closeListeners := [],
         closeCalls := s.closeCalls + Calls(s.closeListeners, error))
  }

  function Step<V>(s: State<V>, max: nat, json: Json<V>, e: Event): State<V>
    requires Enabled(s, e)
  {
    match e
    case Chunk(bytes) => TakeChunk(s, max, json, bytes)
    case Closes(failed, finishThrows) => Close(s, max, json, failed, finishThrows)
    case Subscribe(l) => s.(listeners := Added(s.listeners, l))
    case Unsubscribe(l) => s.(listeners := Removed(s.listeners, l))
    case SubscribeClose(l) =>
      if s.closed then s.(closeCalls := s.closeCalls + [CloseCall(l, s.closedError)])
      else s.(closeListeners := Added(s.closeListeners, l))
    case UnsubscribeClose(l) => s.(closeListeners := Removed(s.closeListeners, l))
  }

  // --- Runs ---

  ghost predicate Possible<V>(s: State<V>, max: nat, json: Json<V>, events: seq<Event>)
    decreases |events|
  {
    events == [] || (Enabled(s, events[0]) && Possible(Step(s, max, json, events[0]), max, json, events[1..]))
  }

  function Run<V>(s: State<V>, max: nat, json: Json<V>, events: seq<Event>): State<V>
    requires Possible(s, max, json, events)
    decreases |events|
  {
    if events == [] then s else Run(Step(s, max, json, events[0]), max, json, events[1..])
  }

  /** All bytes of a run's chunks. */
  function Bytes(events: seq<Event>): seq<Byte> {
    if events == [] then [] else (if events[0].Chunk? then events[0].bytes else []) + Bytes(events[1..])
  }

  /** What was said is what the bytes decode to. */
  ghost predicate Faithful<V>(s: State<V>, max: nat, json: Json<V>) {
    var decoded := J.Decode([], s.consumed, max, json);
    if s.failed then decoded.Rejected? else decoded.Accepted? && Said(s.log) == decoded.values
  }

  lemma SaidOfMore<V>(log: seq<Delivery<V>>, messages: seq<V>, to: seq<nat>)
    ensures Said(log + Deliveries(messages, to)) == Said(log) + messages
  {
  }

  lemma {:induction false} ValuesGrow<V>(done: seq<V>, s: seq<Byte>, max: nat, json: Json<V>)
    ensures J.Decode(done, s, max, json).Accepted? ==> done <= J.Decode(done, s, max, json).values
    decreases |s|
  {
    hide J.Decode, J.ReadLine;
    var i := IndexOf(s, LF);
    J.DecodeUnfolds(done, s, i, max, json);
    var line := J.ReadLine(s[..i], max, json);
    if i < |s| && line.Blank? {
      ValuesGrow(done, s[i + 1..], max, json);
    } else if i < |s| && line.Value? {
      ValuesGrow(done + [line.value], s[i + 1..], max, json);
    }
  }

  lemma StepKeepsFaithful<V>(s: State<V>, max: nat, json: Json<V>, e: Event)
    requires Faithful(s, max, json) && Enabled(s, e)
    ensures Faithful(Step(s, max, json, e), max, json)
  {
    hide J.Decode;
    if e.Chunk? {
      var before := J.Decode([], s.consumed, max, json);
      J.DecodeResumes([], s.consumed, e.bytes, max, json);
      ValuesGrow(before.values, before.pending + e.bytes, max, json);
      assert |Said(s.log)| == |s.log|;
      var after := J.Decode([], s.consumed + e.bytes, max, json);
      if after.Accepted? {
        SaidOfMore(s.log, after.values[|s.log|..], s.listeners);
      }
    }
  }

  lemma {:induction false} RunStaysFaithful<V>(s: State<V>, max: nat, json: Json<V>, events: seq<Event>)
    requires Faithful(s, max, json) && Possible(s, max, json, events)
    ensures Faithful(Run(s, max, json, events), max, json)
    ensures Run(s, max, json, events).consumed == s.consumed + Bytes(events)
    decreases |events|
  {
    hide Faithful, J.Decode;
    if events != [] {
      StepKeepsFaithful(s, max, json, events[0]);
      RunStaysFaithful(Step(s, max, json, events[0]), max, json, events[1..]);
    }
  }

  /** The messages listener l got. */
  function Heard<V>(log: seq<Delivery<V>>, l: nat): seq<V> {
    if log == [] then []
    else
      var last := log[|log| - 1];
      Heard(log[..|log| - 1], l) + if l in last.to then [last.message] else []
  }

  lemma HeardSnoc<V>(log: seq<Delivery<V>>, last: Delivery<V>, l: nat)
    ensures Heard(log + [last], l) == Heard(log, l) + if l in last.to then [last.message] else []
  {
    assert (log + [last])[..|log|] == log;
  }

  lemma {:induction false} HeardAll<V>(log: seq<Delivery<V>>, messages: seq<V>, to: seq<nat>, l: nat)
    requires l in to
    ensures Heard(log + Deliveries(messages, to), l) == Heard(log, l) + messages
  {
    hide Heard;
    if messages == [] {
      assert log + Deliveries(messages, to) == log;
    } else {
      var n := |messages| - 1;
      var init, last := messages[..n], messages[n];
      HeardAll(log, init, to, l);
      assert messages == init + [last];
      assert log + Deliveries(messages, to) == (log + Deliveries(init, to)) + [Delivery(last, to)];
      HeardSnoc(log + Deliveries(init, to), Delivery(last, to), l);
      Associates(Heard(log, l), init, [last]);
    }
  }

  lemma {:induction false} StillThere(s: seq<nat>, x: nat, l: nat)
    requires l in s && l != x
    ensures l in Removed(s, x)
  {
    if s[0] != l {
      StillThere(s[1..], x, l);
    }
  }

  lemma {:induction false} ListenerHears<V>(s: State<V>, max: nat, json: Json<V>, events: seq<Event>, l: nat)
    requires Possible(s, max, json, events) && Unsubscribe(l) !in events
    requires (l in s.listeners || s.closed) && Heard(s.log, l) == Said(s.log)
    ensures var s' := Run(s, max, json, events); Heard(s'.log, l) == Said(s'.log)
    decreases |events|
  {
    hide J.Decode, Heard;
    if events != [] {
      var e := events[0];
      if e.Chunk? {
        var decoded := J.Decode([], s.consumed + e.bytes, max, json);
        if decoded.Accepted? && |decoded.values| >= |s.log| {
          HeardAll(s.log, decoded.values[|s.log|..], s.listeners, l);
          SaidOfMore(s.log, decoded.values[|s.log|..], s.listeners);
        }
      } else if e.Unsubscribe? && l in s.listeners {
        StillThere(s.listeners, e.listener, l);
      }
      ListenerHears(Step(s, max, json, e), max, json, events[1..], l);
    }
  }

  /** Encoder, any chunking and channel together: a listener that subscribed
      first and stayed gets exactly the messages sent, once each and in order,
      and the close that follows carries no decoding error. */
  lemma MessagesArriveExactlyOnce<V(!new)>(vs: seq<V>, max: nat, json: Json<V>, events: seq<Event>, l: nat)
    requires Lawful(json) && J.EncodeAll(vs, max, json).Some?
    requires events != [] && events[0] == Subscribe(l) && Unsubscribe(l) !in events
    requires Possible(Initial(), max, json, events) && Bytes(events) == J.EncodeAll(vs, max, json).value
    ensures var s := Run(Initial(), max, json, events);
            && !s.failed && Said(s.log) == vs && Heard(s.log, l) == vs
            && forall failed, finishThrows ::
                 !s.closed ==> Close(s, max, json, failed, finishThrows).closedError == if failed
                     then Some(ChannelError) else None
  {
    hide J.Decode, J.EncodeAll, Heard, Said, Bytes;
    var start: State<V> := Initial();
    NothingYet<V>(max, json, l);
    RunStaysFaithful(start, max, json, events);
    J.RoundTrip([], vs, max, json);
    NothingBefore(vs);
    NothingBefore(Bytes(events));
    var first := Step(start, max, json, events[0]);
    ListenerHears(first, max, json, events[1..], l);
  }

  lemma NothingYet<V>(max: nat, json: Json<V>, l: nat)
    ensures Faithful<V>(Initial(), max, json) && Heard<V>([], l) == [] && Said<V>([]) == []
  {
    J.UnfinishedIsAccepted<V>([], [], max, json);
  }

  // --- Closing ---

  /** Calls made to l, and calls l still waits for. */
  function Dues<V>(s: State<V>, l: nat): nat { Told(s.closeCalls, l) + Occurs(s.closeListeners, l) }

  /** Nobody is called before the end, nobody waits after it, and every call
      carries the one close error. */
  ghost predicate Notified<V>(s: State<V>) {
    && (if s.closed then s.closeListeners == [] else s.closeCalls == [])
    && forall i | 0 <= i < |s.closeCalls| :: s.closeCalls[i].error == s.closedError
  }

  /** Once closed, nothing is delivered and the error stays. */
  lemma StepKeepsNotified<V>(s: State<V>, max: nat, json: Json<V>, e: Event)
    requires Enabled(s, e) && Notified(s)
    ensures var s' := Step(s, max, json, e);
            && Notified(s')
            && (s.closed ==> s'.closed && s'.log == s.log && s'.closedError == s.closedError)
  {
    hide J.Decode;
  }

  lemma StepKeepsDues<V>(s: State<V>, max: nat, json: Json<V>, e: Event, l: nat)
    requires Enabled(s, e) && e != UnsubscribeClose(l) && (e == SubscribeClose(l) ==> Dues(s, l) == 0)
    ensures Dues(Step(s, max, json, e), l) == Dues(s, l) + if e == SubscribeClose(l) then 1 else 0
  {
    hide J.Decode, Told, Occurs, Removed;
    if e.SubscribeClose? {
      ToldSnoc(s.closeCalls, CloseCall(e.listener, s.closedError), l);
      OccursIn(s.closeListeners, l);
      OccursSnoc(s.closeListeners, e.listener, l);
    } else if e.UnsubscribeClose? {
      OccursRemoved(s.closeListeners, e.listener, l);
    } else if e.Closes? && !s.closed {
      var error := Close(s, max, json, e.failed, e.finishThrows).closedError;
      ToldAll(s.closeCalls, s.closeListeners, error, l);
      NobodyOccurs(l);
    }
  }

  lemma NobodyOccurs(l: nat)
    ensures Occurs([], l) == 0
  {
  }

  function Asked(events: seq<Event>, l: nat): nat {
    if events == [] then 0 else (if events[0] == SubscribeClose(l) then 1 else 0) + Asked(events[1..], l)
  }

  lemma {:induction false} RunKeepsDues<V>(s: State<V>, max: nat, json: Json<V>, events: seq<Event>, l: nat)
    requires Possible(s, max, json, events) && Notified(s)
    requires UnsubscribeClose(l) !in events && Dues(s, l) + Asked(events, l) <= 1
    ensures var s' := Run(s, max, json, events);
            Dues(s', l) == Dues(s, l) + Asked(events, l) && Notified(s')
    decreases |events|
  {
    hide Dues, Step, Notified;
    if events != [] {
      StepKeepsDues(s, max, json, events[0], l);
      StepKeepsNotified(s, max, json, events[0]);
      RunKeepsDues(Step(s, max, json, events[0]), max, json, events[1..], l);
    }
  }

  /** After the end nothing is delivered, whatever else happens. */
  lemma {:induction false} ClosedForGood<V>(s: State<V>, max: nat, json: Json<V>, events: seq<Event>)
    requires Possible(s, max, json, events) && Notified(s) && s.closed
    ensures var s' := Run(s, max, json, events); s'.closed && s'.log == s.log && s'.closedError == s.closedError
    decreases |events|
  {
    hide Step, Notified;
    if events != [] {
      StepKeepsNotified(s, max, json, events[0]);
      ClosedForGood(Step(s, max, json, events[0]), max, json, events[1..]);
    }
  }

  /** It closes once. A close listener registered once, before or after the end,
      and never withdrawn, is called exactly once when the channel has closed, and
      not before; all are told the same error. */
  lemma CloseListenerIsToldOnce<V>(max: nat, json: Json<V>, events: seq<Event>, l: nat)
    requires Possible(Initial(), max, json, events)
    requires UnsubscribeClose(l) !in events && Asked(events, l) == 1
    ensures var s := Run(Initial<V>(), max, json, events);
            && Told(s.closeCalls, l) == (if s.closed then 1 else 0)
            && forall i | 0 <= i < |s.closeCalls| :: s.closeCalls[i].error == s.closedError
  {
    hide Run, Step;
    RunKeepsDues(Initial<V>(), max, json, events, l);
  }

  // --- The channel ---

  class FramedChannel<V> {
    const decoder: J.JsonLinesDecoder<V>
    ghost var consumed: seq<Byte>
    var failed: bool
    var closed: bool
    var closedError: Option<CloseError>
    var listeners: seq<nat>
    var closeListeners: seq<nat>
    var log: seq<Delivery<V>>
    var closeCalls: seq<CloseCall<CloseError>>

    ghost function View(): State<V>
      reads this
    {
      State(consumed, failed, closed, closedError, listeners, closeListeners, log, closeCalls)
    }

    ghost predicate Valid()
      reads this, decoder, decoder.buffered, decoder.buffered.storage
    {
      && Faithful(View(), decoder.max, decoder.json)
      && (!failed ==> decoder.Valid() && decoder.consumed == consumed)
    }

    constructor (max: nat, json: Json<V>)
      ensures Valid() && View() == Initial() && decoder.max == max && decoder.json == json
      ensures fresh(decoder) && fresh(decoder.buffered) && fresh(decoder.buffered.storage)
    {
      hide J.Decode;
      decoder := new J.JsonLinesDecoder(max, json);
      consumed, failed, closed, closedError := [], false, false, None;
      listeners, closeListeners, log, closeCalls := [], [], [], [];
      new;
      NothingYet<V>(max, json, 0);
    }

    method Deliver(message: V)
      modifies `log
      ensures log == old(log) + [Delivery(message, listeners)]
    {
      log := log + [Delivery(message, listeners)];
    }

    /** The byte channel hands over a chunk. */
    method OnChunk(bytes: seq<Byte>)
      requires Valid() && !closed && !failed
      modifies this, decoder, decoder.buffered, decoder.buffered.storage
      ensures Valid() && View() == Step(old(View()), decoder.max, decoder.json, Chunk(bytes))
    {
      hide J.Decode, Said;
      ghost var was := View();
      StepKeepsFaithful(was, decoder.max, decoder.json, Chunk(bytes));
      SaidLength(log);
      consumed := consumed + bytes;
      var pushed := decoder.Push(bytes);
      if pushed.None? {
        failed := true;
        return;
      }
      ghost var decoded := J.Decode([], consumed, decoder.max, decoder.json);
      assert decoded.values == Said(was.log) + pushed.value;
      for i := 0 to |pushed.value|
        modifies this
        invariant log == was.log + Deliveries(pushed.value[..i], listeners)
        invariant View() == was.(consumed := was.consumed + bytes, log := log)
      {
        assert Deliveries(pushed.value[..i + 1], listeners) ==
               Deliveries(pushed.value[..i], listeners) + [Delivery(pushed.value[i], listeners)];
        Deliver(pushed.value[i]);
      }
      assert pushed.value[..|pushed.value|] == pushed.value == decoded.values[|was.log|..];
    }

    method Listen(l: nat)
      requires Valid()
      modifies `listeners
      ensures Valid() && View() == Step(old(View()), decoder.max, decoder.json, Subscribe(l))
    {
      hide J.Decode;
      listeners := Added(listeners, l);
    }

    method ListenForClose(l: nat)
      requires Valid()
      modifies `closeListeners, `closeCalls
      ensures Valid() && View() == Step(old(View()), decoder.max, decoder.json, SubscribeClose(l))
    {
      hide J.Decode;
      if closed {
        closeCalls := closeCalls + [CloseCall(l, closedError)];
      } else {
        closeListeners := Added(closeListeners, l);
      }
    }

    /** notifyClosed; finishThrows is what a decoder that threw before does. */
    method OnClose(error: bool, finishThrows: bool)
      requires Valid()
      modifies this
      ensures Valid() && View() == Step(old(View()), decoder.max, decoder.json, Closes(error, finishThrows))
    {
      hide J.Decode, Said;
      if closed {
        return;
      }
      closed := true;
      var incomplete := finishThrows;
      if !failed {
        var rest := decoder.Finish();
        incomplete := rest.None?;
      }
      closedError := if incomplete then Some(IncompleteFrame) else if error then Some(ChannelError) else None;
      listeners := [];
      var closing := closeListeners;
      closeListeners := [];
      closeCalls := closeCalls + Calls(closing, closedError);
    }
  }

  lemma SaidLength<V>(log: seq<Delivery<V>>)
    ensures |Said(log)| == |log|
  {
  }
}
