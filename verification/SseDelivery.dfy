/** What a reconnecting subscription remembers between connections, and that it
    turns overlapping replays of a server's log into exactly-once delivery. */
module SseDelivery {
  import opened Prelude
  import opened SseBlocks

  /** seen: the Set of ids, oldest first. */
  datatype Session = Session(seen: seq<string>, cursor: Option<string>, retryMs: Option<real>,
                             delivered: seq<SseMessage>)

  function LastOf<T>(s: seq<T>, n: nat): seq<T> {
    if |s| <= n then s else s[|s| - n..]
  }

  /** One message arriving: a known id is dropped, a new one moves the cursor and
      the window of known ids. */
  function Receive(s: Session, m: SseMessage, capacity: nat): Session {
    var heard := if m.retry.Some? && m.retry.value >= 0.0 then s.(retryMs := m.retry) else s;
    if m.id.None? || m.id.value == "" then heard.(delivered := s.delivered + [m])
    else if m.id.value in s.seen then heard
    else heard.(cursor := m.id, seen := LastOf(s.seen + [m.id.value], capacity), delivered := s.delivered + [m])
  }

  function ReceiveAll(s: Session, ms: seq<SseMessage>, capacity: nat): Session {
    if ms == [] then s
    else Receive(ReceiveAll(s, ms[..|ms| - 1], capacity), ms[|ms| - 1], capacity)
  }

  lemma {:induction false} ReceiveAppend(s: Session, a: seq<SseMessage>, b: seq<SseMessage>, capacity: nat)
    ensures ReceiveAll(s, a + b, capacity) == ReceiveAll(ReceiveAll(s, a, capacity), b, capacity)
  {
    if b == [] {
      assert a + b == a;
    } else {
      var init := b[..|b| - 1];
      ReceiveAppend(s, a, init, capacity);
      assert (a + b)[..|a + b| - 1] == a + init;
    }
  }

  lemma ReceiveSnoc(s: Session, ms: seq<SseMessage>, m: SseMessage, capacity: nat)
    ensures ReceiveAll(s, ms + [m], capacity) == Receive(ReceiveAll(s, ms, capacity), m, capacity)
  {
    assert (ms + [m])[..|ms|] == ms;
  }

  /** The message callback. */
  method HandleMessage(s: Session, m: SseMessage, capacity: nat) returns (s': Session, deliver: bool)
    requires |s.seen| <= capacity
    ensures s' == Receive(s, m, capacity) && |s'.seen| <= capacity
    ensures s'.delivered == s.delivered + if deliver then [m] else []
  {
    s', deliver := s, true;
    if m.retry.Some? && m.retry.value >= 0.0 {
      s' := s'.(retryMs := m.retry);
    }
    if m.id.Some? && m.id.value != "" {
      if m.id.value in s.seen {
        return s', false;
      }
      s' := s'.(cursor := m.id);
      if capacity > 0 {
        var seen := s.seen + [m.id.value];
        while |seen| > capacity
          invariant LastOf(seen, capacity) == LastOf(s.seen + [m.id.value], capacity)
        {
          seen := seen[1..];
        }
        s' := s'.(seen := seen);
      }
    }
    s' := s'.(delivered := s.delivered + [m]);
  }

  // --- Exactly once, in order ---

  /** A server's log: every event has an id of its own. */
  ghost predicate IsLog(log: seq<SseMessage>) {
    && (forall i | 0 <= i < |log| :: log[i].id.Some? && log[i].id.value != "")
    && forall i, j | 0 <= i < j < |log| :: log[i].id != log[j].id
  }

  function Ids(ms: seq<SseMessage>): seq<string>
    requires forall m | m in ms :: m.id.Some?
  {
    seq(|ms|, i requires 0 <= i < |ms| => assert ms[i] in ms; ms[i].id.value)
  }

  /** The session has delivered exactly the first d events, remembers the ids of
      the last `capacity` of them, and its cursor is the last one's. */
  ghost predicate Synced(s: Session, log: seq<SseMessage>, d: nat, start: Option<string>, capacity: nat)
    requires IsLog(log)
  {
    && d <= |log|
    && s.delivered == log[..d]
    && s.seen == LastOf(Ids(log[..d]), capacity)
    && s.cursor == if d == 0 then start else log[d - 1].id
  }

  lemma WindowOfDistinct(all: seq<string>, first: nat, d: nat, k: nat)
    requires Distinct(all) && first <= d <= |all| && k < |all|
    ensures all[k] in all[first..d] <==> first <= k < d
  {
    if first <= k < d {
      assert all[first..d][k - first] == all[k];
    }
  }

  lemma IdsOfLog(log: seq<SseMessage>, d: nat)
    requires IsLog(log) && d <= |log|
    ensures Distinct(Ids(log)) && Ids(log[..d]) == Ids(log)[..d]
  {
  }

  lemma LastOfPrefix<T>(s: seq<T>, d: nat, n: nat)
    requires d <= |s|
    ensures LastOf(s[..d], n) == s[if d <= n then 0 else d - n..d]
  {
  }

  /** Known ids are exactly those of the last `capacity` events delivered. */
  lemma SeenExactly(s: Session, log: seq<SseMessage>, d: nat, start: Option<string>, capacity: nat, k: nat)
    requires IsLog(log) && Synced(s, log, d, start, capacity) && k < |log|
    ensures log[k].id.value in s.seen <==> k < d <= k + capacity
  {
    hide LastOf;
    IdsOfLog(log, d);
    LastOfPrefix(Ids(log), d, capacity);
    WindowOfDistinct(Ids(log), if d <= capacity then 0 else d - capacity, d, k);
  }

  lemma KnownEvent(s: Session, log: seq<SseMessage>, d: nat, start: Option<string>, capacity: nat, k: nat)
    requires IsLog(log) && Synced(s, log, d, start, capacity) && k < d <= k + capacity
    ensures Synced(Receive(s, log[k], capacity), log, d, start, capacity)
  {
    hide LastOf, Ids;
    SeenExactly(s, log, d, start, capacity, k);
  }

  lemma NextEvent(s: Session, log: seq<SseMessage>, d: nat, start: Option<string>, capacity: nat)
    requires IsLog(log) && Synced(s, log, d, start, capacity) && d < |log|
    ensures Synced(Receive(s, log[d], capacity), log, d + 1, start, capacity)
  {
    SeenExactly(s, log, d, start, capacity, d);
    assert log[..d + 1] == log[..d] + [log[d]];
    assert Ids(log[..d + 1]) == Ids(log[..d]) + [log[d].id.value];
    var a, b := Ids(log[..d]), Ids(log[..d + 1]);
    assert LastOf(LastOf(a, capacity) + [log[d].id.value], capacity) == LastOf(b, capacity);
  }

  /** A connection that starts inside the window of known ids, and not past the
      next event, continues the log: the replayed part is dropped, the rest is
      delivered. */
  lemma {:induction false} ConnectionContinues(s: Session, log: seq<SseMessage>, d: nat, start: Option<string>,
                                               capacity: nat, a: nat, b: nat)
    requires IsLog(log) && Synced(s, log, d, start, capacity)
    requires a <= b <= |log| && a <= d <= a + capacity
    ensures Synced(ReceiveAll(s, log[a..b], capacity), log, Max(d, b), start, capacity)
    decreases b
  {
    hide Receive, Synced, LastOf, Ids, IsLog, ReceiveAll;
    if a < b {
      var before := ReceiveAll(s, log[a..b - 1], capacity);
      SliceSnoc(log, a, b);
      ReceiveSnoc(s, log[a..b - 1], log[b - 1], capacity);
      ConnectionContinues(s, log, d, start, capacity, a, b - 1);
      if b <= d {
        KnownEvent(before, log, d, start, capacity, b - 1);
      } else {
        NextEvent(before, log, b - 1, start, capacity);
      }
    } else {
      ReceiveNothing(s, capacity);
      assert log[a..b] == [];
    }
  }

  lemma SliceSnoc<T>(s: seq<T>, a: nat, b: nat)
    requires a < b <= |s|
    ensures s[a..b] == s[a..b - 1] + [s[b - 1]]
  {
  }

  lemma ReceiveNothing(s: Session, capacity: nat)
    ensures ReceiveAll(s, [], capacity) == s
  {
  }

  lemma {:induction false} DeliveredGrows(s: Session, ms: seq<SseMessage>, capacity: nat)
    ensures s.delivered <= ReceiveAll(s, ms, capacity).delivered
  {
    if ms != [] {
      DeliveredGrows(s, ms[..|ms| - 1], capacity);
    }
  }

  /** The exact condition: what is delivered stays a gap-free, duplicate-free
      prefix of the log if and only if the connection brings nothing or starts
      inside the window of known ids and not past the next event. */
  lemma DeliveryStaysPrefixExactly(s: Session, log: seq<SseMessage>, d: nat, start: Option<string>, capacity: nat,
                                   a: nat, b: nat)
    requires IsLog(log) && Synced(s, log, d, start, capacity)
    requires a <= b <= |log|
    ensures ReceiveAll(s, log[a..b], capacity).delivered <= log <==> (a == b || a <= d <= a + capacity)
  {
    var after := ReceiveAll(s, log[a..b], capacity);
    if a == b || a <= d <= a + capacity {
      if a < b {
        ConnectionContinues(s, log, d, start, capacity, a, b);
      }
    } else {
      var first := [log[a]];
      SeenExactly(s, log, d, start, capacity, a);
      assert log[a..b] == first + log[a + 1..b];
      ReceiveAppend(s, first, log[a + 1..b], capacity);
      assert first[..0] == [];
      var one := ReceiveAll(s, first, capacity);
      assert one == Receive(s, log[a], capacity) && one.delivered == log[..d] + first;
      DeliveredGrows(one, log[a + 1..b], capacity);
      assert d < |after.delivered| && after.delivered[d] == log[a];
      assert d < |log| ==> log[d].id != log[a].id;
    }
  }

  // --- Any messages at all ---

  predicate Named(m: SseMessage) { m.id.Some? && m.id.value != "" }

  /** The ids among these messages, in order. */
  function IdsIn(ms: seq<SseMessage>): seq<string> {
    if ms == [] then []
    else
      var last := ms[|ms| - 1];
      IdsIn(ms[..|ms| - 1]) + if Named(last) then [last.id.value] else []
  }

  /** The messages without an id, in order. */
  function Nameless(ms: seq<SseMessage>): seq<SseMessage> {
    if ms == [] then []
    else
      var last := ms[|ms| - 1];
      Nameless(ms[..|ms| - 1]) + if Named(last) then [] else [last]
  }

  /** The session remembers the last `capacity` ids it delivered. */
  ghost predicate Remembers(s: Session, capacity: nat) { s.seen == LastOf(IdsIn(s.delivered), capacity) }

  /** A message is handed on exactly if it has no id, or one that is not among the
      last `capacity` ids handed on; only then does its id become the cursor. */
  lemma HandedOnExactly(s: Session, m: SseMessage, capacity: nat)
    requires Remembers(s, capacity)
    ensures var s' := Receive(s, m, capacity);
            var unknown := !Named(m) || m.id.value !in LastOf(IdsIn(s.delivered), capacity);
            && Remembers(s', capacity)
            && s'.delivered == (if unknown then s.delivered + [m] else s.delivered)
            && s'.cursor == (if unknown && Named(m) then m.id else s.cursor)
            && s'.retryMs == if m.retry.Some? && m.retry.value >= 0.0 then m.retry else s.retryMs
  {
    assert (s.delivered + [m])[..|s.delivered|] == s.delivered;
  }

  /** Whatever arrives: messages without an id all come through, in their order;
      every id comes through at least once, and exactly once while no more than
      `capacity` ids have been handed on. */
  lemma {:induction false} NothingIsLost(s: Session, ms: seq<SseMessage>, capacity: nat)
    requires Remembers(s, capacity)
    ensures var s' := ReceiveAll(s, ms, capacity);
            && Remembers(s', capacity) && s.delivered <= s'.delivered
            && Nameless(s'.delivered) == Nameless(s.delivered) + Nameless(ms)
            && (forall id :: id in IdsIn(s'.delivered) <==> id in IdsIn(s.delivered) || id in IdsIn(ms))
            && (Distinct(IdsIn(s.delivered)) && |IdsIn(s'.delivered)| <= capacity + 1 ==>
                Distinct(IdsIn(s'.delivered)))
  {
    if ms != [] {
      var init, m := ms[..|ms| - 1], ms[|ms| - 1];
      var before := ReceiveAll(s, init, capacity);
      NothingIsLost(s, init, capacity);
      HandedOnExactly(before, m, capacity);
      OneMoreHandedOn(before, m, capacity);
      Associates(Nameless(s.delivered), Nameless(init), if Named(m) then [] else [m]);
    }
  }

  lemma OneMoreHandedOn(s: Session, m: SseMessage, capacity: nat)
    requires Remembers(s, capacity)
    ensures var s' := Receive(s, m, capacity);
            && s.delivered <= s'.delivered && |IdsIn(s.delivered)| <= |IdsIn(s'.delivered)|
            && Nameless(s'.delivered) == Nameless(s.delivered) + (if Named(m) then [] else [m])
            && (forall id :: id in IdsIn(s'.delivered) <==>
                             id in IdsIn(s.delivered) || (Named(m) && id == m.id.value))
            && (Distinct(IdsIn(s.delivered)) && |IdsIn(s'.delivered)| <= capacity + 1 ==>
                Distinct(IdsIn(s'.delivered)))
  {
    HandedOnExactly(s, m, capacity);
    hide Receive;
    var all := s.delivered + [m];
    assert all[..|s.delivered|] == s.delivered;
  }

  // --- Whole runs ---

  /** The part of the log a connection brings: events from .. to - 1. */
  datatype Replay = Replay(from: nat, to: nat)

  /** Every connection starts at most `capacity` events before the next one due
      and never past it; d is how many were delivered so far. */
  ghost predicate Honest(replays: seq<Replay>, log: seq<SseMessage>, d: nat, capacity: nat)
    decreases |replays|
  {
    replays == [] ||
    (&& replays[0].from <= replays[0].to <= |log|
     && replays[0].from <= d <= replays[0].from + capacity
     && Honest(replays[1..], log, Max(d, replays[0].to), capacity))
  }

  function Progress(replays: seq<Replay>, d: nat): nat
    decreases |replays|
  {
    if replays == [] then d else Progress(replays[1..], Max(d, replays[0].to))
  }

  function RunConnections(s: Session, log: seq<SseMessage>, replays: seq<Replay>, capacity: nat): Session
    requires forall r | r in replays :: r.from <= r.to <= |log|
    decreases |replays|
  {
    if replays == [] then s
    else
      assert replays[0] in replays;
      RunConnections(ReceiveAll(s, log[replays[0].from..replays[0].to], capacity), log, replays[1..], capacity)
  }

  /** Over any run of connections, the ids delivered are a duplicate-free,
      gap-free prefix of the log, as far as any connection reached. */
  lemma {:induction false} ExactlyOnce(s: Session, log: seq<SseMessage>, replays: seq<Replay>, d: nat,
                                       start: Option<string>, capacity: nat)
    requires IsLog(log) && Synced(s, log, d, start, capacity)
    requires Honest(replays, log, d, capacity)
    requires forall r | r in replays :: r.from <= r.to <= |log|
    ensures Synced(RunConnections(s, log, replays, capacity), log, Progress(replays, d), start, capacity)
    decreases |replays|
  {
    if replays != [] {
      var r := replays[0];
      ConnectionContinues(s, log, d, start, capacity, r.from, r.to);
      ExactlyOnce(ReceiveAll(s, log[r.from..r.to], capacity), log, replays[1..], Max(d, r.to), start, capacity);
    }
  }
}
