/** Who hears what over a whole run of a message channel, and what its close is
    reported as: told by the events alone. */
module ChannelRuns {
  import opened Prelude
  import opened Framing
  import opened Listeners
  import opened FramedChannels
  import J = JsonLines

  /** The listener subscribed, and did not withdraw since. */
  predicate Wants(events: seq<Event>, l: nat) {
    events != [] &&
    var last := events[|events| - 1];
    last == Subscribe(l) || (last != Unsubscribe(l) && Wants(events[..|events| - 1], l))
  }

  lemma {:induction false} RunInParts<V>(s: State<V>, max: nat, json: Json<V>, a: seq<Event>, b: seq<Event>)
    requires Possible(s, max, json, a + b)
    ensures Possible(s, max, json, a) && Possible(Run(s, max, json, a), max, json, b)
    ensures Run(s, max, json, a + b) == Run(Run(s, max, json, a), max, json, b)
    decreases |a|
  {
    hide Step;
    if a == [] {
      assert a + b == b;
    } else {
      assert (a + b)[1..] == a[1..] + b;
      RunInParts(Step(s, max, json, a[0]), max, json, a[1..], b);
    }
  }

  lemma OneMoreEvent<V>(max: nat, json: Json<V>, a: seq<Event>, e: Event)
    requires Possible(Initial(), max, json, a + [e])
    ensures Possible(Initial<V>(), max, json, a) && Enabled(Run(Initial<V>(), max, json, a), e)
    ensures Run(Initial<V>(), max, json, a + [e]) == Step(Run(Initial<V>(), max, json, a), max, json, e)
  {
    hide Step;
    RunInParts(Initial<V>(), max, json, a, [e]);
    assert [e][1..] == [];
  }

  // --- The listeners ---

  /** While the channel is open, its listener set is that of the events so far. */
  ghost predicate Listening<V>(s: State<V>, events: seq<Event>) {
    !s.closed ==> Distinct(s.listeners) && forall l :: l in s.listeners <==> Wants(events, l)
  }

  lemma StepKeepsListening<V>(s: State<V>, max: nat, json: Json<V>, a: seq<Event>, e: Event)
    requires Listening(s, a) && Enabled(s, e)
    ensures Listening(Step(s, max, json, e), a + [e])
  {
    hide J.Decode, Added, Removed, Distinct;
    assert (a + [e])[..|a|] == a;
    if e.Subscribe? {
      AddedHas(s.listeners, e.listener);
    } else if e.Unsubscribe? {
      RemovedHas(s.listeners, e.listener);
    }
  }

  lemma {:induction false} RunKeepsListening<V>(max: nat, json: Json<V>, events: seq<Event>)
    requires Possible(Initial(), max, json, events)
    ensures Listening(Run(Initial<V>(), max, json, events), events)
    decreases |events|
  {
    hide Step;
    if events != [] {
      var init, last := events[..|events| - 1], events[|events| - 1];
      assert events == init + [last];
      OneMoreEvent(max, json, init, last);
      RunKeepsListening(max, json, init);
      hide Listening;
      StepKeepsListening(Run(Initial<V>(), max, json, init), max, json, init, last);
    }
  }

  // --- What is handed out ---

  /** These deliveries go once to each listener that wants them and to nobody else. */
  ghost predicate GoesToTheWanting<V>(deliveries: seq<Delivery<V>>, events: seq<Event>) {
    forall i | 0 <= i < |deliveries| ::
      Distinct(deliveries[i].to) && forall l :: l in deliveries[i].to <==> Wants(events, l)
  }

  /** Exactly what is handed out, and to whom: a chunk hands out the messages that the
      bytes so far decode to beyond those handed out before, unless they do not
      decode; nothing else hands out anything. */
  lemma MessagesExactly<V>(max: nat, json: Json<V>, a: seq<Event>, e: Event)
    requires Possible(Initial(), max, json, a + [e])
    ensures Possible(Initial<V>(), max, json, a)
    ensures var s, s' := Run(Initial<V>(), max, json, a), Run(Initial<V>(), max, json, a + [e]);
            var decoded := J.Decode([], Bytes(a + [e]), max, json);
            && s.log <= s'.log && GoesToTheWanting(s'.log[|s.log|..], a)
            && (e.Chunk? && decoded.Accepted? ==> Said(s'.log) == decoded.values)
            && (!e.Chunk? || decoded.Rejected? ==> s'.log == s.log)
  {
    hide J.Decode, Step, Bytes, Listening, Said, Run;
    OneMoreEvent(max, json, a, e);
    RunKeepsListening(max, json, a);
    NothingYet<V>(max, json, 0);
    RunStaysFaithful<V>(Initial(), max, json, a);
    RunStaysFaithful<V>(Initial(), max, json, a + [e]);
    NothingBefore(Bytes(a + [e]));
    StepHandsOut(Run(Initial<V>(), max, json, a), max, json, a, e);
  }

  lemma StepHandsOut<V>(s: State<V>, max: nat, json: Json<V>, a: seq<Event>, e: Event)
    requires Listening(s, a) && Enabled(s, e) && Faithful(s, max, json)
    ensures var s' := Step(s, max, json, e);
            && s.log <= s'.log && GoesToTheWanting(s'.log[|s.log|..], a)
            && (!e.Chunk? || s'.failed ==> s'.log == s.log)
            && (e.Chunk? ==> !s.failed && (s'.failed <==> J.Decode([], s'.consumed, max, json).Rejected?))
  {
    hide J.Decode, Wants, Distinct;
    if e.Chunk? {
      StepKeepsFaithful(s, max, json, e);
      var decoded := J.Decode([], s.consumed + e.bytes, max, json);
      if decoded.Accepted? && |decoded.values| >= |s.log| {
        var more := Deliveries(decoded.values[|s.log|..], s.listeners);
        assert (s.log + more)[|s.log|..] == more;
      }
    }
  }

  // --- Who hears it ---

  lemma SaidAppend<V>(log: seq<Delivery<V>>, more: seq<Delivery<V>>)
    ensures Said(log + more) == Said(log) + Said(more)
    ensures (Said(log) + Said(more))[|Said(log)|..] == Said(more)
  {
  }

  lemma {:induction false} HandedOutIsHeard<V>(log: seq<Delivery<V>>, more: seq<Delivery<V>>, events: seq<Event>,
                                               l: nat)
    requires GoesToTheWanting(more, events)
    ensures Heard(log + more, l) == Heard(log, l) + if Wants(events, l) then Said(more) else []
  {
    hide Wants, Heard;
    if more == [] {
      assert log + more == log;
    } else {
      var init, last := more[..|more| - 1], more[|more| - 1];
      assert l in last.to <==> Wants(events, l);
      HandedOutIsHeard(log, init, events, l);
      hide GoesToTheWanting;
      assert more == init + [last];
      Associates(log, init, [last]);
      HeardSnoc(log + init, last, l);
      SaidAppend(init, [last]);
      assert Said([last]) == [last.message];
      hide Said;
      Associates(Heard(log, l), Said(init), [last.message]);
    }
  }

  lemma EventHears<V>(max: nat, json: Json<V>, a: seq<Event>, e: Event, l: nat)
    requires Possible(Initial(), max, json, a + [e])
    ensures Possible(Initial<V>(), max, json, a)
    ensures var s, s' := Run(Initial<V>(), max, json, a), Run(Initial<V>(), max, json, a + [e]);
            && Said(s.log) <= Said(s'.log)
            && Heard(s'.log, l) == Heard(s.log, l) + if Wants(a, l) then Said(s'.log)[|Said(s.log)|..] else []
  {
    hide J.Decode, Step, Bytes, Run, Possible, Wants, GoesToTheWanting, Said, Heard;
    MessagesExactly(max, json, a, e);
    var s, s' := Run(Initial<V>(), max, json, a), Run(Initial<V>(), max, json, a + [e]);
    assert s'.log == s.log + s'.log[|s.log|..];
    SaidAppend(s.log, s'.log[|s.log|..]);
    HandedOutIsHeard(s.log, s'.log[|s.log|..], a, l);
  }

  lemma {:induction false} WantingLasts(a: seq<Event>, b: seq<Event>, l: nat)
    ensures Wants(a, l) && Unsubscribe(l) !in b ==> Wants(a + b, l)
    ensures !Wants(a, l) && Subscribe(l) !in b ==> !Wants(a + b, l)
  {
    if b == [] {
      assert a + b == a;
    } else {
      var init, e := b[..|b| - 1], b[|b| - 1];
      assert b == init + [e] && (a + b)[..|a + b| - 1] == a + init;
      WantingLasts(a, init, l);
    }
  }

  /** From any point of a run on: a listener that wants messages then and does not
      withdraw hears exactly the messages handed out afterwards, once each and in
      order; one that does not want any and does not subscribe hears nothing. */
  lemma {:induction false} ListenerHearsTheRest<V>(max: nat, json: Json<V>, a: seq<Event>, b: seq<Event>, l: nat)
    requires Possible(Initial(), max, json, a + b)
    ensures Possible(Initial<V>(), max, json, a)
    ensures var before, now := Run(Initial<V>(), max, json, a).log, Run(Initial<V>(), max, json, a + b).log;
            && Said(before) <= Said(now)
            && (Wants(a, l) && Unsubscribe(l) !in b ==>
                Heard(now, l) == Heard(before, l) + Said(now)[|Said(before)|..])
            && (!Wants(a, l) && Subscribe(l) !in b ==> Heard(now, l) == Heard(before, l))
    decreases |b|
  {
    hide Run, Possible, Said, Heard, Wants;
    if b == [] {
      assert a + b == a;
    } else {
      var init, e := b[..|b| - 1], b[|b| - 1];
      assert b == init + [e];
      Associates(a, init, [e]);
      EventHears(max, json, a + init, e, l);
      ListenerHearsTheRest(max, json, a, init, l);
      WantingLasts(a, init, l);
    }
  }

  // --- The close ---

  /** The one close error: an unfinished frame, the channel's own error, or none.
      What a decoder that had refused its input does then is its own affair. */
  lemma CloseErrorExactly<V>(max: nat, json: Json<V>, a: seq<Event>, failed: bool, finishThrows: bool, b: seq<Event>)
    requires Possible(Initial(), max, json, a + [Closes(failed, finishThrows)] + b)
    ensures Possible(Initial<V>(), max, json, a)
    ensures var s, end := Run(Initial<V>(), max, json, a),
                Run(Initial<V>(), max, json, a + [Closes(failed, finishThrows)] + b);
            var decoded := J.Decode([], Bytes(a), max, json);
            !s.closed ==>
              && end.closed && end.log == s.log
              && (forall i | 0 <= i < |end.closeCalls| :: end.closeCalls[i].error == end.closedError)
              && (end.closedError == Some(IncompleteFrame) <==>
                  if decoded.Rejected? then finishThrows else decoded.pending != [])
              && (end.closedError == Some(ChannelError) <==>
                  failed && end.closedError != Some(IncompleteFrame))
              && (end.closedError == None <==> !failed && end.closedError != Some(IncompleteFrame))
  {
    hide J.Decode, Step, Bytes, Run, Said;
    var e := Closes(failed, finishThrows);
    RunInParts(Initial<V>(), max, json, a + [e], b);
    OneMoreEvent(max, json, a, e);
    NothingYet<V>(max, json, 0);
    RunStaysFaithful<V>(Initial(), max, json, a);
    NothingBefore(Bytes(a));
    RunsNotify(Initial<V>(), max, json, a);
    var s := Run(Initial<V>(), max, json, a);
    if !s.closed {
      ClosingSays(s, max, json, failed, finishThrows);
      StepKeepsNotified(s, max, json, e);
      ClosedForGood(Step(s, max, json, e), max, json, b);
      RunsNotify(Step(s, max, json, e), max, json, b);
    }
  }

  lemma {:induction false} RunsNotify<V>(s: State<V>, max: nat, json: Json<V>, events: seq<Event>)
    requires Possible(s, max, json, events) && Notified(s)
    ensures Notified(Run(s, max, json, events))
    decreases |events|
  {
    hide Step, Notified;
    if events != [] {
      StepKeepsNotified(s, max, json, events[0]);
      RunsNotify(Step(s, max, json, events[0]), max, json, events[1..]);
    }
  }

  lemma ClosingSays<V>(s: State<V>, max: nat, json: Json<V>, failed: bool, finishThrows: bool)
    requires Faithful(s, max, json) && !s.closed
    ensures var s', decoded := Step(s, max, json, Closes(failed, finishThrows)), J.Decode([], s.consumed, max, json);
            && s'.closed && s'.log == s.log
            && (s'.closedError == Some(IncompleteFrame) <==>
                if decoded.Rejected? then finishThrows else decoded.pending != [])
            && (s'.closedError == Some(ChannelError) <==> failed && s'.closedError != Some(IncompleteFrame))
            && (s'.closedError == None <==> !failed && s'.closedError != Some(IncompleteFrame))
  {
    hide J.Decode;
  }
}
