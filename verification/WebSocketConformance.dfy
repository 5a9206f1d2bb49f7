/** The repository's trace checker for WebSocket connections, and which traces of
    the connection pass it. */
module WebSocketConformance {
  import opened Prelude
  import opened Backoff
  import opened Listeners
  import opened WebSocket
  import opened WebSocketRuns

  datatype Observed =
    | Opened(generation: int)
    | Ended(generation: int)
    | Delivery(generation: int, sequence: nat)
    | Sent(generation: int, messageId: Option<string>)

  // --- The checker ---

  /** The last thing known about a generation is that it opened. */
  predicate IsOpen(events: seq<Observed>, g: int) {
    if events == [] then false
    else
      var last := events[|events| - 1];
      if last == Opened(g) then true else if last == Ended(g) then false else IsOpen(events[..|events| - 1], g)
  }

  predicate IsFrame(e: Observed) { e.Delivery? || e.Sent? }

  /** Frame i is sent or delivered while its generation is not open. */
  predicate Outside(events: seq<Observed>, i: nat)
    requires i < |events|
  {
    IsFrame(events[i]) && !IsOpen(events[..i], events[i].generation)
  }

  ghost predicate AfterClose(events: seq<Observed>) {
    exists i | 0 <= i < |events| :: Outside(events, i)
  }

  /** Two frames of one generation are delivered out of order. */
  ghost predicate OutOfOrder(events: seq<Observed>) {
    exists i, j | 0 <= i < j < |events| ::
      && events[i].Delivery? && events[j].Delivery? && events[i].generation == events[j].generation
      && events[j].sequence <= events[i].sequence
  }

  /** A message id is sent twice. */
  ghost predicate Replayed(events: seq<Observed>) {
    exists i, j | 0 <= i < j < |events| ::
      && events[i].Sent? && events[j].Sent? && events[i].messageId == events[j].messageId
      && events[i].messageId.Some? && events[i].messageId.value != ""
  }

  function Connections(events: seq<Observed>): nat {
    if events == [] then 0 else Connections(events[..|events| - 1]) + if events[|events| - 1].Opened? then 1 else 0
  }

  /** The deliveries so far keep to their order, and latest holds the last
      sequence number of each generation. */
  ghost predicate Latest(events: seq<Observed>, latest: map<int, nat>) {
    && (forall j | 0 <= j < |events| && events[j].Delivery? ::
          events[j].generation in latest && events[j].sequence <= latest[events[j].generation])
    && forall g | g in latest :: exists j :: 0 <= j < |events| && events[j] == Delivery(g, latest[g])
  }

  ghost predicate SentSoFar(events: seq<Observed>, ids: set<string>) {
    forall id :: id in ids <==>
          exists j :: 0 <= j < |events| && events[j].Sent? && events[j].messageId == Some(id) && id != ""
  }

  /** inspectWebSocket: its three findings, and the connections it counted. */
  method InspectWebSocket(events: seq<Observed>)
    returns (outOfOrder: bool, afterClose: bool, replayed: bool, connections: nat)
    ensures outOfOrder <==> OutOfOrder(events)
    ensures afterClose <==> AfterClose(events)
    ensures replayed <==> Replayed(events)
    ensures connections == Connections(events)
  {
    hide IsOpen, AfterClose, OutOfOrder, Replayed, Latest, SentSoFar, Outside;
    outOfOrder, afterClose, replayed, connections := false, false, false, 0;
    var state: map<int, bool>, latest: map<int, nat>, ids: set<string> := map[], map[], {};
    NothingFound();
    assert events[..0] == [];
    for i := 0 to |events|
      invariant forall g :: (g in state && state[g]) <==> IsOpen(events[..i], g)
      invariant afterClose <==> AfterClose(events[..i])
      invariant outOfOrder <==> OutOfOrder(events[..i])
      invariant !outOfOrder ==> Latest(events[..i], latest)
      invariant replayed <==> Replayed(events[..i])
      invariant SentSoFar(events[..i], ids)
      invariant connections == Connections(events[..i])
    {
      var e := events[i];
      assert events[..i + 1] == events[..i] + [e] && events[..i + 1][..i] == events[..i];
      OpenSnoc(events[..i], e);
      OutsideSnoc(events[..i], e);
      if !outOfOrder {
        OrderSnoc(events[..i], e, latest);
      } else {
        StaysOutOfOrder(events[..i], e);
      }
      SentSnoc(events[..i], e, ids);
      if e.Opened? {
        state := state[e.generation := true];
        connections := connections + 1;
        continue;
      }
      if e.Ended? {
        state := state[e.generation := false];
        continue;
      }
      if !(e.generation in state && state[e.generation]) {
        afterClose := true;
      }
      if e.Delivery? {
        if e.generation in latest && e.sequence <= latest[e.generation] {
          outOfOrder := true;
        }
        latest := latest[e.generation := e.sequence];
      } else if e.messageId.Some? && e.messageId.value != "" {
        if e.messageId.value in ids {
          replayed := true;
        }
        ids := ids + {e.messageId.value};
      }
    }
    assert events[..|events|] == events;
  }

  lemma NothingFound()
    ensures !AfterClose([]) && !OutOfOrder([]) && !Replayed([]) && Latest([], map[]) && SentSoFar([], {})
    ensures forall g :: !IsOpen([], g)
  {
  }

  lemma OpenSnoc(events: seq<Observed>, e: Observed)
    ensures forall g :: IsOpen(events + [e], g) <==> e == Opened(g) || (e != Ended(g) && IsOpen(events, g))
  {
    assert (events + [e])[..|events|] == events;
  }

  lemma OutsideSnoc(events: seq<Observed>, e: Observed)
    ensures AfterClose(events + [e]) <==> AfterClose(events) || (IsFrame(e) && !IsOpen(events, e.generation))
  {
    hide IsOpen;
    var all := events + [e];
    assert all[..|events|] == events;
    forall i | 0 <= i < |events| ensures Outside(all, i) == Outside(events, i) {
      assert all[..i] == events[..i];
    }
    if AfterClose(events) {
      var i :| 0 <= i < |events| && Outside(events, i);
      assert Outside(all, i);
    }
    if IsFrame(e) && !IsOpen(events, e.generation) {
      assert Outside(all, |events|);
    }
  }

  lemma StaysOutOfOrder(events: seq<Observed>, e: Observed)
    requires OutOfOrder(events)
    ensures OutOfOrder(events + [e])
  {
    var i, j :| 0 <= i < j < |events| && events[i].Delivery? && events[j].Delivery?
        && events[i].generation == events[j].generation
                && events[j].sequence <= events[i].sequence;
    assert (events + [e])[i] == events[i] && (events + [e])[j] == events[j];
  }

  lemma OrderSnoc(events: seq<Observed>, e: Observed, latest: map<int, nat>)
    requires !OutOfOrder(events) && Latest(events, latest)
    ensures OutOfOrder(events + [e]) <==> e.Delivery? && e.generation in latest && e.sequence <= latest[e.generation]
    ensures !OutOfOrder(events + [e]) ==>
              Latest(events + [e], if e.Delivery? then latest[e.generation := e.sequence] else latest)
  {
    var all := events + [e];
    var next := if e.Delivery? then latest[e.generation := e.sequence] else latest;
    if e.Delivery? && e.generation in latest && e.sequence <= latest[e.generation] {
      var j :| 0 <= j < |events| && events[j] == Delivery(e.generation, latest[e.generation]);
      assert all[j] == events[j] && all[|events|] == e;
    } else {
      forall i, j | 0 <= i < j < |all| && all[i].Delivery? && all[j].Delivery? && all[i].generation == all[j].generation
        ensures all[i].sequence < all[j].sequence
      {
        assert all[i] == events[i];
      }
      forall g | g in next ensures exists j :: 0 <= j < |all| && all[j] == Delivery(g, next[g]) {
        if e.Delivery? && g == e.generation {
          assert all[|events|] == Delivery(g, next[g]);
        } else {
          var j :| 0 <= j < |events| && events[j] == Delivery(g, latest[g]);
          assert all[j] == Delivery(g, next[g]);
        }
      }
    }
  }

  lemma SentSnoc(events: seq<Observed>, e: Observed, ids: set<string>)
    requires SentSoFar(events, ids)
    ensures var id := if e.Sent? && e.messageId.Some? then e.messageId.value else "";
            && SentSoFar(events + [e], if id != "" then ids + {id} else ids)
            && (Replayed(events + [e]) <==> Replayed(events) || (id != "" && id in ids))
  {
    var all := events + [e];
    var id := if e.Sent? && e.messageId.Some? then e.messageId.value else "";
    assert all[|events|] == e && forall j | 0 <= j < |events| :: all[j] == events[j];
    if Replayed(events) {
      var i, j :| 0 <= i < j < |events| && events[i].Sent? && events[j].Sent?
          && events[i].messageId == events[j].messageId
                  && events[i].messageId.Some? && events[i].messageId.value != "";
      assert all[i] == events[i] && all[j] == events[j];
    }
    if id != "" && id in ids {
      var j :| 0 <= j < |events| && events[j].Sent? && events[j].messageId == Some(id) && id != "";
      assert all[j] == events[j];
    }
    forall x ensures x in (if id != "" then ids + {id} else ids) <==>
      exists j :: 0 <= j < |all| && all[j].Sent? && all[j].messageId == Some(x) && x != ""
    {
      if x in ids {
        var j :| 0 <= j < |events| && events[j].Sent? && events[j].messageId == Some(x) && x != "";
        assert all[j] == events[j];
      }
    }
  }

  // --- The connection's traces ---

  function Noted<M>(item: Item<M>): seq<Observed> {
    if item.Connecting? then []
    else if item.Connected? || item.Reconnected? then [Opened(item.attempt)]
    else if item.Message? then [Delivery(item.socket + 1, item.index)]
    else if item.Sent? then [Observed.Sent(item.socket + 1, item.messageId)]
    else [Ended(item.attempt)]
  }

  /** What a fixture records of a log: a generation is an attempt's number, and a
      frame's sequence its place among the frames its socket received. */
  function Observe<M>(log: seq<Item<M>>): seq<Observed> {
    if log == [] then [] else Observe(log[..|log| - 1]) + Noted(log[|log| - 1])
  }

  ghost predicate HasOpened<M>(log: seq<Item<M>>, n: int) {
    exists i | 0 <= i < |log| :: log[i] == Connected(n) || log[i] == Reconnected(n)
  }

  lemma ObserveSnoc<M>(log: seq<Item<M>>, item: Item<M>)
    ensures Observe(log + [item]) == Observe(log) + Noted(item)
    ensures item.Connecting? ==> Observe(log + [item]) == Observe(log)
  {
    assert (log + [item])[..|log|] == log;
  }

  lemma OpenedSnoc<M>(log: seq<Item<M>>, item: Item<M>)
    ensures forall n :: HasOpened(log + [item], n) <==>
              HasOpened(log, n) || item == Connected(n) || item == Reconnected(n)
  {
    var all := log + [item];
    assert all[|log|] == item && forall i | 0 <= i < |log| :: all[i] == log[i];
    forall n | HasOpened(log, n) ensures HasOpened(all, n) {
      var i :| 0 <= i < |log| && (log[i] == Connected(n) || log[i] == Reconnected(n));
      assert all[i] == log[i];
    }
  }

  /** One more item: what the checker makes of it. */
  lemma Watch<M>(log: seq<Item<M>>, item: Item<M>)
    ensures var all := Observe(log + [item]);
            && (forall g :: IsOpen(all, g) <==>
                  if item.Connected? || item.Reconnected? then item.attempt == g || IsOpen(Observe(log), g)
                  else if item.Retrying? || item.Closed? then item.attempt != g && IsOpen(Observe(log), g)
                  else IsOpen(Observe(log), g))
            && (AfterClose(all) <==>
                  AfterClose(Observe(log)) || ((item.Message? || item.Sent?) && !IsOpen(Observe(log), item.socket + 1)))
            && (forall n :: HasOpened(log + [item], n) <==>
                HasOpened(log, n) || item == Connected(n) || item == Reconnected(n))
  {
    hide IsOpen, AfterClose, HasOpened;
    ObserveSnoc(log, item);
    OpenedSnoc(log, item);
    var seen := Observe(log);
    forall e: Observed ensures forall g :: IsOpen(seen + [e], g) <==>
          e == Opened(g) || (e != Ended(g) && IsOpen(seen, g)) {
      OpenSnoc(seen, e);
    }
    forall e: Observed ensures AfterClose(seen + [e]) <==>
          AfterClose(seen) || (IsFrame(e) && !IsOpen(seen, e.generation)) {
      OutsideSnoc(seen, e);
    }
  }

  lemma OrderedSnoc(events: seq<Observed>, e: Observed)
    requires !OutOfOrder(events)
    requires forall j | 0 <= j < |events| && events[j].Delivery? ::
               e.Delivery? && events[j].generation == e.generation ==> events[j].sequence < e.sequence
    ensures !OutOfOrder(events + [e])
  {
    var all := events + [e];
    assert all[|events|] == e && forall j | 0 <= j < |events| :: all[j] == events[j];
  }

  /** Deliveries are numbered below the messages of their socket so far. */
  ghost predicate Numbered<M>(events: seq<Observed>, log: seq<Item<M>>) {
    forall j | 0 <= j < |events| && events[j].Delivery? ::
      events[j].generation >= 1 && events[j].sequence < |Messages(log, events[j].generation - 1)|
  }

  lemma NumberedSnoc<M>(log: seq<Item<M>>, item: Item<M>)
    requires Numbered(Observe(log), log) && (item.Message? ==> item.index == |Messages(log, item.socket)|)
    ensures Numbered(Observe(log + [item]), log + [item])
  {
    hide Messages, Observe;
    ObserveSnoc(log, item);
    forall k: nat ensures Messages(log + [item], k) == Messages(log, k) + if item.Message?
        && item.socket == k then [item.message] else [] {
      MessagesSnoc(log, item, k);
    }
  }

  /** One more item, in order. */
  lemma OrderedItem<M>(log: seq<Item<M>>, item: Item<M>)
    requires !OutOfOrder(Observe(log)) && Numbered(Observe(log), log)
    requires item.Message? ==> item.index == |Messages(log, item.socket)|
    ensures !OutOfOrder(Observe(log + [item])) && Numbered(Observe(log + [item]), log + [item])
  {
    hide Messages, OutOfOrder, Observe;
    NumberedSnoc(log, item);
    ObserveSnoc(log, item);
    if !item.Connecting? {
      OrderedSnoc(Observe(log), Noted(item)[0]);
    }
  }

  /** A log that delivers each socket's frames in order passes for ordered. */
  lemma {:induction false} LogsAreOrdered<M>(log: seq<Item<M>>)
    requires InOrder(log)
    ensures !OutOfOrder(Observe(log)) && Numbered(Observe(log), log)
  {
    if log != [] {
      hide Messages, OutOfOrder, Observe, Numbered;
      var init, last := log[..|log| - 1], log[|log| - 1];
      LogsAreOrdered(init);
      OrderedItem(init, last);
      assert log == init + [last];
    }
  }

  ghost predicate Twice(ids: seq<string>) {
    exists i, j :: 0 <= i < j < |ids| && ids[i] == ids[j]
  }

  lemma TwiceSnoc(ids: seq<string>, id: string)
    ensures Twice(ids + [id]) <==> Twice(ids) || id in ids
  {
    var all := ids + [id];
    assert all[|ids|] == id && forall j | 0 <= j < |ids| :: all[j] == ids[j];
    if Twice(ids) {
      var i, j :| 0 <= i < j < |ids| && ids[i] == ids[j];
      assert all[i] == all[j];
    }
    if id in ids {
      var i :| 0 <= i < |ids| && ids[i] == id;
      assert all[i] == all[|ids|];
    }
  }

  /** A log passes for free of replays unless it sends an id twice. */
  lemma {:induction false} ReplaysAreSentTwice<M>(log: seq<Item<M>>)
    ensures Replayed(Observe(log)) <==> Twice(SentIds(log))
    ensures SentSoFar(Observe(log), set id | id in SentIds(log))
  {
    hide Replayed, SentSoFar, Observe, Twice;
    if log == [] {
      NothingFound();
      NothingTwice<M>();
      assert (set id | id in SentIds(log)) == {};
    } else {
      var init, last := log[..|log| - 1], log[|log| - 1];
      ReplaysAreSentTwice(init);
      assert log == init + [last];
      ObserveSnoc(init, last);
      SentIdsSnoc(init, last);
      var ids := set id | id in SentIds(init);
      if Noted(last) != [] {
        SentSnoc(Observe(init), Noted(last)[0], ids);
      }
      if IdSent(last) == [] {
        assert SentIds(log) == SentIds(init);
      } else {
        TwiceSnoc(SentIds(init), IdSent(last)[0]);
        assert (set id | id in SentIds(log)) == ids + {IdSent(last)[0]};
      }
    }
  }

  lemma NothingTwice<M>()
    ensures Observe<M>([]) == [] && SentIds<M>([]) == [] && !Twice([])
  {
  }

  /** While the connection lives, its last generation is open for the checker just
      when it opened and no retry was announced since. */
  ghost predicate Watched<D, M>(s: State<D, M>) {
    !s.terminal ==>
      && |s.sockets| + (if s.starting then 1 else 0) == s.attempt
      && (forall n :: HasOpened(s.log, n) ==> n <= |s.sockets|)
      && (IsOpen(Observe(s.log), |s.sockets|) <==>
            s.sockets != [] && HasOpened(s.log, |s.sockets|) && s.sleeping.None? && !s.starting)
  }

  /** The step delivers a frame to the listeners, or hands a message to a socket. */
  predicate Passes<D, M>(s: State<D, M>, decode: D -> Option<M>, e: Event<D>)
    requires Enabled(s, e)
  {
    || (e.DecodeSettles? && Live(s, e.socket)
        && decode(s.sockets[e.socket].received[s.sockets[e.socket].settled]).Some?)
    || (e.Send? && GoesOut(s, e.aborted, e.encodes, e.taken))
  }

  /** It does so for a socket that has not opened yet, or is gone: a retry waits,
      or the next attempt resolves its url. */
  ghost predicate Late<D, M>(s: State<D, M>, decode: D -> Option<M>, e: Event<D>)
    requires Enabled(s, e)
  {
    && Passes(s, decode, e)
    && (s.sleeping.Some? || s.starting || !HasOpened(s.log, |s.sockets|))
  }

  lemma EndingStaysWatched<D, M>(s: State<D, M>, error: Option<Fault>)
    ensures s.terminal ==> Finish(s, error) == s && ShutDown(s, error) == s
    ensures Watched(Finish(s, error)) && Watched(ShutDown(s, error))
    ensures AfterClose(Observe(Finish(s, error).log)) <==> AfterClose(Observe(s.log))
    ensures AfterClose(Observe(ShutDown(s, error).log)) <==> AfterClose(Observe(s.log))
  {
    hide Observe, AfterClose, IsOpen, HasOpened, Calls, Detached, AskedToClose;
    Watch(s.log, Closed(s.attempt));
  }

  /** What the watch does not look at may change. */
  lemma UnwatchedMayChange<D, M>(s: State<D, M>, s': State<D, M>)
    requires Watched(s) && |s'.sockets| == |s.sockets| && s'.log == s.log && s'.attempt == s.attempt
    requires s'.terminal == s.terminal && s'.starting == s.starting && s'.sleeping == s.sleeping
    ensures Watched(s')
  {
  }

  lemma RetryingStaysWatched<D, M>(s: State<D, M>, code: int, delayMs: int, elapsedMs: real)
    requires Watched(s) && !s.terminal && !s.starting && s.sockets != []
    ensures var s' := s.(log := s.log + [Retrying(s.attempt, delayMs, elapsedMs)], sleeping := Some(code));
            Watched(s') && (AfterClose(Observe(s'.log)) <==> AfterClose(Observe(s.log)))
  {
    hide Observe, AfterClose, IsOpen, HasOpened;
    Watch(s.log, Retrying(s.attempt, delayMs, elapsedMs));
  }

  function Gone<D, M>(s: State<D, M>, k: nat): State<D, M>
    requires k < |s.sockets|
  {
    s.(sockets := Detached(s.sockets[k := s.sockets[k].(handled := true)]))
  }

  /** How a disconnect can go. */
  lemma DisconnectOutcomes<D, M>(s: State<D, M>, policy: RetryPolicy, k: nat, code: int, wasClean: bool, random: real,
                                 elapsedMs: real)
    returns (delayMs: int)
    requires k < |s.sockets|
    ensures var s', left := Disconnect(s, policy, k, code, wasClean, random, elapsedMs), Gone(s, k);
            || s' == s || s' == left || s' == Finish(left, Some(ConnectionClosed(code)))
            || (!s.terminal && s' == left.(log := left.log + [Retrying(left.attempt, delayMs, elapsedMs)],
                                           sleeping := Some(code)))
    ensures Gone(s, k).log == s.log && !(s.sockets[k].attached && !s.terminal && Gone(s, k).sockets == [])
  {
    hide Finish, ComputeBackoffDelay, SleepFits, Detached;
    var delay := ComputeBackoffDelay(policy, s.attempt, random, None);
    delayMs := if delay.Some? then delay.value else 0;
  }

  lemma DisconnectStaysWatched<D, M>(s: State<D, M>, policy: RetryPolicy, k: nat, code: int, wasClean: bool,
                                     random: real, elapsedMs: real)
    requires Watched(s) && k < |s.sockets| && !s.starting
    ensures var s' := Disconnect(s, policy, k, code, wasClean, random, elapsedMs);
            Watched(s') && (AfterClose(Observe(s'.log)) <==> AfterClose(Observe(s.log)))
  {
    var delayMs := DisconnectOutcomes(s, policy, k, code, wasClean, random, elapsedMs);
    hide Watched, Observe, AfterClose, Disconnect, Finish;
    UnwatchedMayChange(s, Gone(s, k));
    EndingStaysWatched(Gone(s, k), Some(ConnectionClosed(code)));
    if !s.terminal {
      RetryingStaysWatched(Gone(s, k), code, delayMs, elapsedMs);
    }
  }

  lemma AttachingStaysWatched<D, M>(s: State<D, M>, factoryThrows: bool)
    requires !s.terminal && !s.starting && s.sleeping.None? && |s.sockets| + 1 == s.attempt
    requires forall n :: HasOpened(s.log, n) ==> n <= |s.sockets|
    ensures var s' := AttachOrFail(s, factoryThrows);
            Watched(s') && (AfterClose(Observe(s'.log)) <==> AfterClose(Observe(s.log)))
  {
    hide AfterClose, HasOpened, Finish;
    EndingStaysWatched(s, Some(ConnectFailed));
    OpenMeansOpened(s.log, |s.sockets| + 1);
  }

  lemma {:induction false} OpenMeansOpened<M>(log: seq<Item<M>>, g: int)
    ensures IsOpen(Observe(log), g) ==> HasOpened(log, g)
  {
    hide HasOpened;
    if log != [] {
      var init, last := log[..|log| - 1], log[|log| - 1];
      OpenMeansOpened(init, g);
      assert log == init + [last];
      Watch(init, last);
    }
  }

  lemma StartStaysWatched<D, M>(s: State<D, M>, config: Config, factoryThrows: bool)
    requires !s.terminal && !s.starting && s.sleeping.None? && |s.sockets| + 1 == s.attempt
    requires forall n :: HasOpened(s.log, n) ==> n <= |s.sockets|
    requires IsOpen(Observe(s.log), |s.sockets|) ==> false
    ensures var s' := Start(s, config, factoryThrows);
            Watched(s') && (AfterClose(Observe(s'.log)) <==> AfterClose(Observe(s.log)))
  {
    hide Observe, AfterClose, IsOpen, HasOpened, AttachOrFail;
    Watch(s.log, Connecting(s.attempt));
    AttachingStaysWatched(s.(log := s.log + [Connecting(s.attempt)]), factoryThrows);
  }

  lemma OpeningStaysWatched<D, M>(s: State<D, M>, k: nat)
    requires Watched(s) && !s.starting && s.sleeping.None? && k < |s.sockets|
    ensures Watched(Open(s, k)) && (AfterClose(Observe(Open(s, k).log)) <==> AfterClose(Observe(s.log)))
  {
    hide Observe, AfterClose, IsOpen, HasOpened;
    Watch(s.log, if s.attempt == 1 then Connected(s.attempt) else Reconnected(s.attempt));
  }

  lemma DecodingStaysWatched<D, M>(s: State<D, M>, decode: D -> Option<M>, k: nat)
    requires Watched(s) && Enabled(s, DecodeSettles(k))
    ensures Watched(SettleDecode(s, decode, k))
    ensures AfterClose(Observe(SettleDecode(s, decode, k).log)) <==>
              AfterClose(Observe(s.log)) || Late(s, decode, DecodeSettles(k))
  {
    hide Observe, AfterClose, IsOpen, HasOpened, ShutDown;
    var socket := s.sockets[k];
    var decoded := decode(socket.received[socket.settled]);
    EndingStaysWatched(Put(s, k, socket.(decoding := false, settled := socket.settled + 1)), Some(DecodeFailed));
    if decoded.Some? {
      Watch(s.log, Message(k, socket.settled, decoded.value, s.listeners));
    }
  }

  lemma WakingStaysWatched<D, M>(s: State<D, M>, config: Config, ok: bool, factoryThrows: bool)
    requires Watched(s) && s.sleeping.Some? && !s.starting
    ensures var s' := SettleSleep(s, config, ok, factoryThrows);
            Watched(s') && (AfterClose(Observe(s'.log)) <==> AfterClose(Observe(s.log)))
  {
    hide Observe, AfterClose, IsOpen, HasOpened, Finish, Start;
    if !s.terminal {
      EndingStaysWatched(s.(sleeping := None), Some(ConnectionClosed(s.sleeping.value)));
      StartStaysWatched(s.(sleeping := None, attempt := s.attempt + 1), config, factoryThrows);
    }
  }

  lemma ResolvingStaysWatched<D, M>(s: State<D, M>, rejects: bool, factoryThrows: bool)
    requires Watched(s) && s.starting && s.sleeping.None?
    ensures var s' := SettleStart(s, rejects, factoryThrows);
            Watched(s') && (AfterClose(Observe(s'.log)) <==> AfterClose(Observe(s.log)))
  {
    hide Observe, AfterClose, IsOpen, HasOpened, Finish, AttachOrFail;
    EndingStaysWatched(s.(starting := false), Some(ConnectFailed));
    if !s.terminal {
      AttachingStaysWatched(s.(starting := false), factoryThrows);
    }
  }

  /** Events the checker does not see. */
  predicate Unseen<D>(config: Config, e: Event<D>) {
    e.DecodeStarts? || e.ReadyStateMoves? || e.Subscribe? || e.Unsubscribe? || e.SubscribeClose? || e.UnsubscribeClose?
    || (e.Frame? && e.bytes <= config.maxFrameBytes)
  }

  lemma UnseenStaysWatched<D, M>(s: State<D, M>, config: Config, decode: D -> Option<M>, e: Event<D>)
    requires Watched(s) && Enabled(s, e) && Unseen(config, e)
    ensures Watched(Step(s, config, decode, e)) && Step(s, config, decode, e).log == s.log
  {
    hide Watched, Removed, Added;
    UnwatchedMayChange(s, Step(s, config, decode, e));
  }

  lemma NothingAttachedWhenBusy<D, M>(s: State<D, M>, k: nat, maxAttempts: int)
    requires Tidy(s, maxAttempts) && k < |s.sockets| && s.sockets[k].attached
    ensures !s.starting && s.sleeping.None?
  {
  }

  lemma SendingStaysWatched<D, M>(s: State<D, M>, config: Config, decode: D -> Option<M>, e: Event<D>)
    requires Watched(s) && Enabled(s, e) && e.Send?
    ensures Watched(Step(s, config, decode, e))
    ensures AfterClose(Observe(Step(s, config, decode, e).log)) <==> AfterClose(Observe(s.log)) || Late(s, decode, e)
  {
    hide Observe, AfterClose, IsOpen, HasOpened;
    if s.sockets != [] {
      Watch(s.log, Item<M>.Sent(Current(s), e.messageId));
    }
  }

  lemma OnlyPassingIsLate<D, M>(s: State<D, M>, decode: D -> Option<M>, e: Event<D>)
    requires Enabled(s, e)
    ensures Late(s, decode, e) ==> e.DecodeSettles? || e.Send?
  {
  }

  lemma SocketStepStaysWatched<D, M>(s: State<D, M>, config: Config, decode: D -> Option<M>, e: Event<D>)
    requires Tidy(s, config.policy.maxAttempts) && Watched(s) && Enabled(s, e) && (e.Opens? || e.Errors? || e.Closes?)
    ensures Watched(Step(s, config, decode, e))
    ensures AfterClose(Observe(Step(s, config, decode, e).log)) <==> AfterClose(Observe(s.log))
  {
    NothingAttachedWhenBusy(s, e.socket, config.policy.maxAttempts);
    hide Watched, Observe, AfterClose, Disconnect, Open, Tidy;
    if e.Opens? {
      OpeningStaysWatched(s, e.socket);
    } else if e.Errors? {
      DisconnectStaysWatched(s, config.policy, e.socket, 1006, false, e.random, e.elapsedMs);
    } else {
      DisconnectStaysWatched(s, config.policy, e.socket, if e.code.Some? then e.code.value else 1006,
                             e.wasClean.Some? && e.wasClean.value, e.random, e.elapsedMs);
    }
  }

  lemma EndingStepStaysWatched<D, M>(s: State<D, M>, config: Config, decode: D -> Option<M>, e: Event<D>)
    requires Watched(s) && Enabled(s, e) && !Unseen(config, e) && (e.Frame? || e.AbortFires? || e.CloseCalled?)
    ensures Watched(Step(s, config, decode, e))
    ensures AfterClose(Observe(Step(s, config, decode, e).log)) <==> AfterClose(Observe(s.log))
  {
    hide Watched, Observe, AfterClose, Finish, ShutDown;
    EndingStaysWatched(s, Some(DecodeFailed));
    EndingStaysWatched(s, None);
    EndingStaysWatched(s.(abortable := false), Some(Aborted));
    UnwatchedMayChange(s, s.(abortable := false));
  }

  lemma PromiseStepStaysWatched<D, M>(s: State<D, M>, config: Config, decode: D -> Option<M>, e: Event<D>)
    requires Watched(s) && Enabled(s, e) && !(s.starting && s.sleeping.Some?)
    requires e.DecodeSettles? || e.SleepSettles? || e.StartSettles?
    ensures Watched(Step(s, config, decode, e))
    ensures AfterClose(Observe(Step(s, config, decode, e).log)) <==> AfterClose(Observe(s.log)) || Late(s, decode, e)
  {
    OnlyPassingIsLate(s, decode, e);
    hide Late, Watched, Observe, AfterClose, SettleDecode, SettleSleep, SettleStart;
    if e.DecodeSettles? {
      DecodingStaysWatched(s, decode, e.socket);
    } else if e.SleepSettles? {
      WakingStaysWatched(s, config, e.ok, e.factoryThrows);
    } else {
      ResolvingStaysWatched(s, e.rejects, e.factoryThrows);
    }
  }

  /** Every step keeps the watch, and only a late frame is ever reported. */
  lemma StepStaysWatched<D, M>(s: State<D, M>, config: Config, decode: D -> Option<M>, e: Event<D>)
    requires Tidy(s, config.policy.maxAttempts) && Watched(s) && Enabled(s, e)
    ensures Watched(Step(s, config, decode, e))
    ensures AfterClose(Observe(Step(s, config, decode, e).log)) <==> AfterClose(Observe(s.log)) || Late(s, decode, e)
  {
    hide Late, Watched, Observe, AfterClose, Step, Tidy;
    PhaseOf(s, config.policy.maxAttempts);
    OnlyPassingIsLate(s, decode, e);
    if Unseen(config, e) {
      UnseenStaysWatched(s, config, decode, e);
    } else if e.Send? {
      SendingStaysWatched(s, config, decode, e);
    } else if e.Opens? || e.Errors? || e.Closes? {
      SocketStepStaysWatched(s, config, decode, e);
    } else if e.Frame? || e.AbortFires? || e.CloseCalled? {
      EndingStepStaysWatched(s, config, decode, e);
    } else {
      PromiseStepStaysWatched(s, config, decode, e);
    }
  }

  ghost predicate PassesLate<D, M>(s: State<D, M>, config: Config, decode: D -> Option<M>, events: seq<Event<D>>)
    requires Possible(s, config, decode, events)
    decreases |events|
  {
    events != [] && (Late(s, decode, events[0]) || PassesLate(Step(s, config, decode, events[0]), config, decode,
                                                              events[1..]))
  }

  lemma {:induction false} RunStaysWatched<D, M>(s: State<D, M>, config: Config, decode: D -> Option<M>,
                                                 events: seq<Event<D>>)
    requires Tidy(s, config.policy.maxAttempts) && Watched(s) && Possible(s, config, decode, events)
    ensures AfterClose(Observe(Run(s, config, decode, events).log)) <==>
            AfterClose(Observe(s.log)) || PassesLate(s, config, decode, events)
    decreases |events|
  {
    hide Tidy, Watched, Late, Step, AfterClose, Observe;
    if events != [] {
      StepStaysTidy(s, config, decode, events[0]);
      StepStaysWatched(s, config, decode, events[0]);
      RunStaysWatched(Step(s, config, decode, events[0]), config, decode, events[1..]);
    }
  }

  /** The ids the connection took from its caller, in order. */
  function IdsTaken<D, M>(s: State<D, M>, config: Config, decode: D -> Option<M>, events: seq<Event<D>>): seq<string>
    requires Possible(s, config, decode, events)
    decreases |events|
  {
    if events == [] then []
    else IdTaken(s, events[0]) + IdsTaken(Step(s, config, decode, events[0]), config, decode, events[1..])
  }

  lemma {:induction false} RunSends<D, M>(s: State<D, M>, config: Config, decode: D -> Option<M>, events: seq<Event<D>>)
    requires Possible(s, config, decode, events)
    ensures SentIds(Run(s, config, decode, events).log) == SentIds(s.log) + IdsTaken(s, config, decode, events)
    decreases |events|
  {
    hide Step, SentIds, IdTaken;
    if events != [] {
      StepSends(s, config, decode, events[0]);
      RunSends(Step(s, config, decode, events[0]), config, decode, events[1..]);
    }
  }

  lemma ConnectSendsNothing<D, M>(config: Config, hasSignal: bool, aborted: bool, factoryThrows: bool)
    ensures SentIds(Connect<D, M>(config, hasSignal, aborted, factoryThrows).log) == []
  {
    hide Finish, Start, SentIds;
    var initial: State<D, M> := Initial(hasSignal && !aborted);
    EndingCarries(initial, Some(Aborted));
    StartCarries(initial, config, factoryThrows);
    QuietlySendsNothing(initial.log, Connect<D, M>(config, hasSignal, aborted, factoryThrows).log);
    NothingTwice<M>();
  }

  /** Every trace of the connection keeps each socket's frames in order, and shows
      a replay only when the caller had an id accepted twice: each accepted
      message goes out once, whatever reconnects. What is reported as outside an
      open generation is exactly the late frames, such as one still being decoded
      when its socket disconnects: it reaches the listeners while the retry
      waits. */
  lemma TracesConformExactly<D, M>(config: Config, decode: D -> Option<M>, hasSignal: bool, aborted: bool,
                                   factoryThrows: bool, events: seq<Event<D>>)
    requires ValidPolicy(config.policy)
    requires Possible(Connect(config, hasSignal, aborted, factoryThrows), config, decode, events)
    ensures var start: State<D, M> := Connect(config, hasSignal, aborted, factoryThrows);
            var log := Run(start, config, decode, events).log;
            && !OutOfOrder(Observe(log))
            && SentIds(log) == IdsTaken(start, config, decode, events)
            && (Replayed(Observe(log)) <==> Twice(IdsTaken(start, config, decode, events)))
            && (AfterClose(Observe(log)) <==> PassesLate(start, config, decode, events))
  {
    hide Run, OutOfOrder, Replayed, Watched, Late, SentIds, Twice, InOrder;
    var start: State<D, M> := Connect(config, hasSignal, aborted, factoryThrows);
    ConnectIsSafe<D, M>(config, decode, hasSignal, aborted, factoryThrows);
    RunsStaySafe(start, config, decode, events);
    LogsAreOrdered(Run(start, config, decode, events).log);
    ConnectIsWatched<D, M>(config, hasSignal, aborted, factoryThrows);
    RunStaysWatched(start, config, decode, events);
    ConnectSendsNothing<D, M>(config, hasSignal, aborted, factoryThrows);
    RunSends(start, config, decode, events);
    ReplaysAreSentTwice(Run(start, config, decode, events).log);
  }

  lemma ConnectIsWatched<D, M>(config: Config, hasSignal: bool, aborted: bool, factoryThrows: bool)
    ensures var s: State<D, M> := Connect(config, hasSignal, aborted, factoryThrows);
            Watched(s) && !AfterClose(Observe(s.log))
  {
    hide Watched, Finish, Start;
    var initial: State<D, M> := Initial(hasSignal && !aborted);
    NothingSeen<M>();
    EndingStaysWatched(initial, Some(Aborted));
    StartStaysWatched(initial, config, factoryThrows);
  }

  lemma NothingSeen<M>()
    ensures Observe<M>([]) == [] && !AfterClose(Observe<M>([])) && forall n ::
            !HasOpened<M>([], n) && !IsOpen(Observe<M>([]), n)
  {
  }

  lemma Precede<D, M>(s: State<D, M>, config: Config, decode: D -> Option<M>, e: Event<D>, rest: seq<Event<D>>)
    requires Enabled(s, e) && Possible(Step(s, config, decode, e), config, decode, rest)
    ensures Possible(s, config, decode, [e] + rest)
    ensures PassesLate(Step(s, config, decode, e), config, decode, rest) ==> PassesLate(s, config, decode, [e] + rest)
    ensures Late(s, decode, e) ==> PassesLate(s, config, decode, [e] + rest)
  {
    assert ([e] + rest)[1..] == rest;
  }

  const TWO_ATTEMPTS := Config(RetryPolicy(2, 0.0, 0.0, 0.0, None), false, 100)

  /** A connection whose first socket has just queued the frame d. */
  function Queued<D, M>(d: D): State<D, M> {
    var initial: State<D, M> := Initial(false);
    initial.(sockets := [Socket(0, [d], 0, false, false, false, true)], log := [Connecting(1), Connected(1)],
             everOpened := true, ready := Resolved)
  }

  lemma FirstFrame<D, M>(decode: D -> Option<M>, d: D)
    ensures var s: State<D, M> := Connect(TWO_ATTEMPTS, false, false, false);
            && Enabled(s, Opens(0)) && Enabled(Step(s, TWO_ATTEMPTS, decode, Opens(0)), Frame(0, d, 1))
            && Step(Step(s, TWO_ATTEMPTS, decode, Opens(0)), TWO_ATTEMPTS, decode, Frame(0, d, 1)) == Queued(d)
  {
    var s0: State<D, M> := Connect(TWO_ATTEMPTS, false, false, false);
    var s1 := Step(s0, TWO_ATTEMPTS, decode, Opens(0));
    var s2 := Step(s1, TWO_ATTEMPTS, decode, Frame(0, d, 1));
    assert s2.sockets[0].received == [d];
    assert s2.sockets == [Socket(0, [d], 0, false, false, false, true)];
    assert s2.log == [Connecting(1), Connected(1)];
  }

  lemma DroppedWhileDecoding<D, M>(decode: D -> Option<M>, d: D)
    requires decode(d).Some?
    ensures var s: State<D, M> := Queued(d);
            var drop := Closes(0, None, None, 0.0, 0.0);
            && Enabled(s, DecodeStarts(0)) && Enabled(Step(s, TWO_ATTEMPTS, decode, DecodeStarts(0)), drop)
            && var gone := Step(Step(s, TWO_ATTEMPTS, decode, DecodeStarts(0)), TWO_ATTEMPTS, decode, drop);
               Enabled(gone, DecodeSettles(0)) && Late(gone, decode, DecodeSettles(0))
  {
    assert ComputeBackoffDelay(TWO_ATTEMPTS.policy, 1, 0.0, None) == Some(0);
    hide ComputeBackoffDelay, HasOpened;
  }

  /** A concrete run: a frame is being decoded when the socket drops, and is
      delivered during the wait for the second attempt. */
  lemma LateDeliveryHappens<D, M>(decode: D -> Option<M>, d: D)
    requires decode(d).Some?
    ensures var start: State<D, M> := Connect(TWO_ATTEMPTS, false, false, false);
            exists events :: Possible(start, TWO_ATTEMPTS, decode, events)
                && PassesLate(start, TWO_ATTEMPTS, decode, events)
  {
    FirstFrame<D, M>(decode, d);
    DroppedWhileDecoding<D, M>(decode, d);
    hide Late, Step, Connect, Enabled, Queued;
    var s0: State<D, M> := Connect(TWO_ATTEMPTS, false, false, false);
    var drop := Closes(0, None, None, 0.0, 0.0);
    var s1 := Step(s0, TWO_ATTEMPTS, decode, Opens(0));
    var s2 := Step(s1, TWO_ATTEMPTS, decode, Frame(0, d, 1));
    var s3 := Step(s2, TWO_ATTEMPTS, decode, DecodeStarts(0));
    var s4 := Step(s3, TWO_ATTEMPTS, decode, drop);
    Precede(s4, TWO_ATTEMPTS, decode, DecodeSettles(0), []);
    var last := [DecodeSettles(0)] + [];
    Precede(s3, TWO_ATTEMPTS, decode, drop, last);
    Precede(s2, TWO_ATTEMPTS, decode, DecodeStarts(0), [drop] + last);
    Precede(s1, TWO_ATTEMPTS, decode, Frame(0, d, 1), [DecodeStarts(0)] + ([drop] + last));
    Precede(s0, TWO_ATTEMPTS, decode, Opens(0), [Frame(0, d, 1)] + ([DecodeStarts(0)] + ([drop] + last)));
  }
}
