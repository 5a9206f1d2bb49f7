/** What settles each request of a JSON-RPC transport, and as what: told by the
    events of a run and the requests still unsettled. */
module JsonRpcSettlements {
  import opened Prelude
  import opened JsonRpc

  /** Request t was issued and is not settled. */
  predicate Unsettled(s: State, t: nat) { t < |s.ids| && !Settled(s.settlements, t) }

  /** What a response means: a result alone is a result, an error alone that has a
      code is that error, anything else is malformed. */
  ghost predicate MeansOutcome(hasResult: bool, hasError: bool, errorCode: Option<real>, outcome: Outcome) {
    && (outcome == Result <==> hasResult && !hasError)
    && (forall code :: outcome == RemoteError(code) <==> hasError && !hasResult && errorCode == Some(code))
    && (outcome == Malformed <==> hasResult == hasError || (hasError && errorCode.None?))
  }

  lemma {:induction false} RunInParts(s: State, a: seq<Event>, b: seq<Event>)
    requires Possible(s, a + b)
    ensures Possible(s, a) && Possible(Run(s, a), b) && Run(s, a + b) == Run(Run(s, a), b)
    decreases |a|
  {
    hide Step;
    if a == [] {
      assert a + b == b;
    } else {
      assert (a + b)[1..] == a[1..] + b;
      RunInParts(Step(s, a[0]), a[1..], b);
    }
  }

  lemma OneMoreEvent(a: seq<Event>, e: Event)
    requires Possible(START, a + [e])
    ensures Possible(START, a) && Enabled(Run(START, a), e) && Run(START, a + [e]) == Step(Run(START, a), e)
  {
    hide Step;
    RunInParts(START, a, [e]);
    assert [e][1..] == [];
  }

  /** After a careful run the requests with an entry are the unsettled ones. */
  lemma CarefulState(a: seq<Event>)
    requires Possible(START, a) && Careful(START, a)
    ensures var s := Run(START, a);
            && (forall t: nat | Unsettled(s, t) :: s.ids[t] in s.pending && s.pending[s.ids[t]] == t)
            && (forall id | id in s.pending :: Unsettled(s, s.pending[id]) && s.ids[s.pending[id]] == id)
            && (s.closed ==> s.pending == map[])
            && (forall t | t in s.sending && t < |s.ids| && s.ids[t] in s.pending :: s.pending[s.ids[t]] == t)
            && (forall t: nat | t in s.listening :: Unsettled(s, t))
  {
    hide Run, Step;
    StartIsSound();
    CarefulRunsSettleExactlyOnce(START, a);
  }

  /** A response settles the unsettled request of its id, as what it means; if there
      is none, nothing is settled and the observer is told. */
  lemma ResponseExactly(a: seq<Event>, id: Id, hasResult: bool, hasError: bool, errorCode: Option<real>)
    requires Possible(START, a + [Receive(Response(id, hasResult, hasError, errorCode))])
    ensures Possible(START, a)
    ensures var s, s' := Run(START, a), Run(START, a + [Receive(Response(id, hasResult, hasError, errorCode))]);
            Careful(START, a) ==>
              && (forall t: nat | Unsettled(s, t) && s.ids[t] == id ::
                    && |s'.settlements| == |s.settlements| + 1 && s.settlements <= s'.settlements
                    && s'.settlements[|s.settlements|].ticket == t
                    && MeansOutcome(hasResult, hasError, errorCode, s'.settlements[|s.settlements|].outcome))
              && ((forall t: nat | Unsettled(s, t) :: s.ids[t] != id) ==>
                  s'.settlements == s.settlements && (!s.closed ==> s'.reports == s.reports + 1))
  {
    OneMoreEvent(a, Receive(Response(id, hasResult, hasError, errorCode)));
    if Careful(START, a) {
      CarefulState(a);
      hide Run, Possible, Careful, Settled;
      var s := Run(START, a);
      if id in s.pending {
        assert Unsettled(s, s.pending[id]);
      }
    }
  }

  /** A send that fails, or an abort, rejects its own request if that is unsettled,
      and nothing else. */
  lemma FailureExactly(a: seq<Event>, t: nat, e: Event)
    requires (e == SendFails(t) || e == AbortFires(t)) && Possible(START, a + [e])
    ensures Possible(START, a)
    ensures var s, s' := Run(START, a), Run(START, a + [e]);
            Careful(START, a) ==>
              s'.settlements == s.settlements +
              if Unsettled(s, t) then [Settlement(t, if e.SendFails? then SendFailed else Aborted)] else []
  {
    OneMoreEvent(a, e);
    if Careful(START, a) {
      CarefulState(a);
      hide Run, Possible, Careful, Settled;
      var s := Run(START, a);
      assert s.settlements + [] == s.settlements;
      if s.ids[t] in s.pending {
        assert Unsettled(s, s.pending[s.ids[t]]);
      }
    }
  }

  /** Each unsettled request was rejected with the close, in the order issued, and
      nothing else was settled. */
  ghost predicate ClosesAll(s: State, s': State) {
    && s'.closed && s.settlements <= s'.settlements
    && (forall t: nat | t < |s.ids| :: Settled(s'.settlements, t))
    && (forall i | |s.settlements| <= i < |s'.settlements| ::
          s'.settlements[i].outcome == Closed && Unsettled(s, s'.settlements[i].ticket))
    && forall i, j | |s.settlements| <= i < j < |s'.settlements| ::
         s'.settlements[i].ticket < s'.settlements[j].ticket
  }

  /** Closing rejects exactly the unsettled requests. */
  lemma CloseExactly(a: seq<Event>)
    requires Possible(START, a + [ChannelCloses])
    ensures Possible(START, a)
    ensures Careful(START, a) ==> ClosesAll(Run(START, a), Run(START, a + [ChannelCloses]))
  {
    hide Run, Possible, Careful, Sound, IsExact, Endangered, ClosesAll, Step, Finish;
    OneMoreEvent(a, ChannelCloses);
    if Careful(START, a) {
      StartIsSound();
      CarefulRunsSettleExactlyOnce(START, a);
      ClosingIsFinishing(Run(START, a));
      ClosingSettles(Run(START, a));
    }
  }

  lemma ClosingIsFinishing(s: State)
    ensures Step(s, ChannelCloses) == Finish(s)
  {
    hide Finish;
  }

  lemma ClosingSettles(s: State)
    requires Sound(s) && IsExact(s)
    ensures ClosesAll(s, Finish(s))
  {
    FinishKeepsExact(s);
    var waiting := Waiting(s.pending, s.ids, |s.ids|);
    WaitingAreUnsettled(s);
    WaitingInOrder(s.pending, s.ids, |s.ids|);
    assert forall t: nat | t < |s.ids| :: !Waits(Finish(s).pending, s.ids, t);
    hide Settled, Waiting, Sound, Unsettled;
    var closing := AllClosed(waiting);
    assert forall i | 0 <= i < |closing| :: closing[i] == Settlement(waiting[i], Closed);
    if s.closed {
      assert Finish(s).settlements == s.settlements + [];
    } else {
      assert Finish(s).settlements == s.settlements + closing;
      hide AllClosed;
    }
  }

  lemma WaitingAreUnsettled(s: State)
    requires Sound(s) && IsExact(s)
    ensures var waiting := Waiting(s.pending, s.ids, |s.ids|);
            forall i | 0 <= i < |waiting| :: Unsettled(s, waiting[i])
  {
    WaitingWaits(s.pending, s.ids, |s.ids|);
    hide Settled, Waiting;
    var waiting := Waiting(s.pending, s.ids, |s.ids|);
    forall i | 0 <= i < |waiting| ensures Unsettled(s, waiting[i]) {
      assert waiting[i] in waiting && Waits(s.pending, s.ids, waiting[i]);
    }
  }

  ghost predicate Ascending(tickets: seq<nat>, n: nat) {
    && (forall i | 0 <= i < |tickets| :: tickets[i] < n)
    && forall i, j | 0 <= i < j < |tickets| :: tickets[i] < tickets[j]
  }

  lemma AscendingSnoc(tickets: seq<nat>, n: nat)
    requires Ascending(tickets, n)
    ensures Ascending(tickets + [n], n + 1) && Ascending(tickets + [], n + 1)
  {
    assert tickets + [] == tickets;
  }

  lemma {:induction false} WaitingInOrder(pending: map<Id, nat>, ids: seq<Id>, n: nat)
    requires n <= |ids|
    ensures Ascending(Waiting(pending, ids, n), n)
  {
    if n > 0 {
      WaitingInOrder(pending, ids, n - 1);
      AscendingSnoc(Waiting(pending, ids, n - 1), n - 1);
      hide Ascending;
    }
  }

  /** A request goes out exactly if the transport is open, its signal is not
      aborted, and its id is valid and no unsettled request's; a send that throws at
      once rejects it at once. */
  lemma IssueExactly(a: seq<Event>, generated: GeneratedId, hasSignal: bool, aborted: bool, sendThrows: bool)
    requires Possible(START, a + [Issue(generated, hasSignal, aborted, sendThrows)])
    ensures Possible(START, a)
    ensures var s, s' := Run(START, a), Run(START, a + [Issue(generated, hasSignal, aborted, sendThrows)]);
            var goes := !s.closed && !aborted && generated.Valid?
                        && forall t: nat | Unsettled(s, t) :: s.ids[t] != generated.id;
            Careful(START, a) ==>
              && s'.ids == (if goes then s.ids + [generated.id] else s.ids)
              && s'.settlements == s.settlements + (if goes && sendThrows then [Settlement(|s.ids|, SendFailed)]
                                                    else [])
              && (goes && !sendThrows ==> |s.ids| in s'.sending)
              && (goes && !sendThrows && hasSignal ==> |s.ids| in s'.listening)
              && (!goes ==> s' == s)
  {
    OneMoreEvent(a, Issue(generated, hasSignal, aborted, sendThrows));
    if Careful(START, a) {
      CarefulState(a);
      hide Run, Possible, Careful, Settled;
      var s := Run(START, a);
      assert s.settlements + [] == s.settlements;
      if generated.Valid? && generated.id in s.pending {
        assert Unsettled(s, s.pending[generated.id]);
      }
    }
  }

  /** Why a request is refused, in the order the reasons are looked at. */
  lemma RefusedExactly(s: State, aborted: bool, generated: GeneratedId)
    ensures var refusal := Refused(s, aborted, generated);
            && (refusal == Some(TransportClosed) <==> s.closed)
            && (refusal == Some(AlreadyAborted) <==> !s.closed && aborted)
            && (refusal == Some(InvalidId) <==> !s.closed && !aborted && generated.Invalid?)
            && (refusal == Some(DuplicateId) <==>
                !s.closed && !aborted && generated.Valid? && generated.id in s.pending)
  {
  }

  /** Exactly what the protocol observer is told of; only a response touches a
      request. */
  lemma ReportsExactly(s: State, m: Message)
    ensures var s' := Step(s, Receive(m));
            && s'.reports == s.reports +
               (if !s.closed && (m.NotJsonRpc? || m.NoId? || (m.Response? &&
                    (m.id !in s.pending || MeansOutcome(m.hasResult, m.hasError, m.errorCode, Malformed))))
                then 1 else 0)
            && (!m.Response? || s.closed || m.id !in s.pending ==> s' == s.(reports := s'.reports))
  {
  }

  // --- Every settlement has its cause ---

  /** The event is of the kind that settles a request so: its own failed send or
      abort, the close, or a response under its id that means this. */
  ghost predicate Causes(e: Event, s: State, st: Settlement) {
    match st.outcome
    case SendFailed =>
      e == SendFails(st.ticket) || (e.Issue? && e.sendThrows && st.ticket == |s.ids|)
    case Aborted => e == AbortFires(st.ticket)
    case Closed => e == ChannelCloses
    case _ =>
      && e.Receive? && e.message.Response? && st.ticket < |s.ids| && e.message.id == s.ids[st.ticket]
      && MeansOutcome(e.message.hasResult, e.message.hasError, e.message.errorCode, st.outcome)
  }

  lemma StepCauses(s: State, e: Event)
    requires Sound(s) && Enabled(s, e)
    ensures var s' := Step(s, e);
            && s.settlements <= s'.settlements
            && forall i | |s.settlements| <= i < |s'.settlements| :: Causes(e, s, s'.settlements[i])
  {
  }

  /** In every run, careful or not, each settlement was made by an event that is a
      cause of it when it happened. */
  lemma {:induction false} SettlementsHaveCauses(events: seq<Event>, i: nat)
    requires Possible(START, events) && i < |Run(START, events).settlements|
    ensures exists k: nat ::
              && k < |events| && Possible(START, events[..k])
              && Causes(events[k], Run(START, events[..k]), Run(START, events).settlements[i])
    decreases |events|
  {
    hide Step, Causes;
    if events == [] {
      assert false;
    } else {
      var init, last := events[..|events| - 1], events[|events| - 1];
      assert events == init + [last];
      OneMoreEvent(init, last);
      var s := Run(START, init);
      SoundRuns(START, init);
      StepCauses(s, last);
      if i < |s.settlements| {
        SettlementsHaveCauses(init, i);
        var k: nat :| k < |init| && Possible(START, init[..k]) && Causes(init[k], Run(START, init[..k]),
                                                                         s.settlements[i]);
        assert events[..k] == init[..k] && events[k] == init[k];
      } else {
        assert events[..|init|] == init && events[|init|] == last;
      }
    }
  }

  lemma {:induction false} SoundRuns(s: State, events: seq<Event>)
    requires Sound(s) && Possible(s, events)
    ensures Sound(Run(s, events))
    decreases |events|
  {
    hide Sound, Step;
    if events != [] {
      StepKeepsSound(s, events[0]);
      SoundRuns(Step(s, events[0]), events[1..]);
    }
  }
}
