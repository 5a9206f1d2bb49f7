/** The lazily made backend behind a gated surface: one promise, remembered with
    `??=`, forgotten by the callers it fails. */
module LazyBackends {
  import opened Prelude

  datatype Attempt = Pending | Fulfilled | Failed

  /** A call that awaits an attempt; answer: Some(true) when it got the backend,
      Some(false) when it resolved to a gap. */
  datatype Caller = Caller(attempt: nat, answer: Option<bool>)

  /** memo: which attempt's promise is remembered. */
  datatype State = State(memo: Option<nat>, attempts: seq<Attempt>, callers: seq<Caller>)

  const START := State(None, [], [])

  datatype Event =
    | Call
    | AttemptSettles(attempt: nat, ok: bool)
    | CallerResumes(caller: nat)

  predicate Enabled(s: State, e: Event) {
    match e
    case Call => true
    case AttemptSettles(a, _) => a < |s.attempts| && s.attempts[a].Pending?
    case CallerResumes(c) =>
      c < |s.callers| && s.callers[c].answer.None? && s.callers[c].attempt < |s.attempts|
          && !s.attempts[s.callers[c].attempt].Pending?
  }

  function Step(s: State, e: Event): State
    requires Enabled(s, e)
  {
    match e
    case Call =>
      if s.memo.Some? then s.(callers := s.callers + [Caller(s.memo.value, None)])
      else State(Some(|s.attempts|), s.attempts + [Pending], s.callers + [Caller(|s.attempts|, None)])
    case AttemptSettles(a, ok) => s.(attempts := s.attempts[a := if ok then Fulfilled else Failed])
    case CallerResumes(c) =>
      var a := s.callers[c].attempt;
      var answered := s.(callers := s.callers[c := Caller(a, Some(s.attempts[a].Fulfilled?))]);
      if s.attempts[a].Failed? && s.memo == Some(a) then answered.(memo := None) else answered
  }

  ghost predicate Waiting(s: State, c: nat, a: nat) {
    c < |s.callers| && s.callers[c] == Caller(a, None)
  }

  /** Only the last attempt can be under way or have succeeded, and then it is the
      one remembered; a failed attempt is remembered only while a caller is still
      about to forget it. */
  ghost predicate Sound(s: State) {
    && (forall c | 0 <= c < |s.callers| :: s.callers[c].attempt < |s.attempts|)
    && (forall c | 0 <= c < |s.callers| && s.callers[c].answer.Some? ::
          s.attempts[s.callers[c].attempt] == if s.callers[c].answer.value then Fulfilled else Failed)
    && (s.memo.Some? ==> s.memo.value == |s.attempts| - 1)
    && (forall a | 0 <= a < |s.attempts| && !s.attempts[a].Failed? :: s.memo == Some(a))
    && (s.memo.Some? && !s.attempts[s.memo.value].Fulfilled? ==> exists c: nat :: Waiting(s, c, s.memo.value))
  }

  lemma StepKeepsSound(s: State, e: Event)
    requires Sound(s) && Enabled(s, e)
    ensures Sound(Step(s, e))
  {
    var s' := Step(s, e);
    if e.Call? {
      assert Waiting(s', |s.callers|, s'.callers[|s.callers|].attempt);
      if s.memo.Some? && !s.attempts[s.memo.value].Fulfilled? {
        var c :| Waiting(s, c, s.memo.value);
        assert Waiting(s', c, s.memo.value);
      }
    } else if s.memo.Some? && !s.attempts[s.memo.value].Fulfilled? {
      var c :| Waiting(s, c, s.memo.value);
      if !(e.CallerResumes? && e.caller == c) {
        assert Waiting(s', c, s.memo.value);
      }
    }
  }

  // --- Whole runs ---

  ghost predicate Possible(s: State, events: seq<Event>)
    decreases |events|
  {
    events == [] || (Enabled(s, events[0]) && Possible(Step(s, events[0]), events[1..]))
  }

  function Run(s: State, events: seq<Event>): State
    requires Possible(s, events)
    decreases |events|
  {
    if events == [] then s else Run(Step(s, events[0]), events[1..])
  }

  lemma {:induction false} RunKeepsSound(s: State, events: seq<Event>)
    requires Sound(s) && Possible(s, events)
    ensures Sound(Run(s, events))
    decreases |events|
  {
    hide Sound, Step;
    if events != [] {
      StepKeepsSound(s, events[0]);
      RunKeepsSound(Step(s, events[0]), events[1..]);
    }
  }

  /** However many callers race: at most one attempt is under way, and whatever
      failed attempt is still remembered, some caller is about to forget it. */
  lemma NeverPoisoned(events: seq<Event>)
    requires Possible(START, events)
    ensures var s := Run(START, events);
            && (forall i | 0 <= i < |s.attempts| - 1 :: s.attempts[i].Failed?)
            && (s.memo.Some? && s.memo.value < |s.attempts| && s.attempts[s.memo.value].Failed? ==>
                  exists c: nat :: Waiting(s, c, s.memo.value) && Enabled(s, CallerResumes(c))
                      && Step(s, CallerResumes(c)).memo.None?)
  {
    RunKeepsSound(START, events);
    var s := Run(START, events);
    hide Run;
    if s.memo.Some? && s.attempts[s.memo.value].Failed? {
      var c :| Waiting(s, c, s.memo.value);
      assert Step(s, CallerResumes(c)).memo.None?;
    }
  }

  /** A caller of a failed attempt forgets that attempt only: a newer one stays. */
  lemma NewerAttemptStays(s: State, c: nat)
    requires Sound(s) && Enabled(s, CallerResumes(c)) && s.memo.Some?
    ensures Step(s, CallerResumes(c)).memo == s.memo
            <==> s.attempts[s.memo.value] != Failed || s.callers[c].attempt != s.memo.value
  {
  }

  /** A caller never changes the attempt it waits for. */
  lemma {:induction false} ServedByOwn(s: State, a: nat, events: seq<Event>)
    requires Sound(s) && a < |s.attempts| && s.attempts[a].Fulfilled? && Possible(s, events)
    ensures var s' := Run(s, events);
            && Sound(s') && s'.attempts == s.attempts && |s.callers| <= |s'.callers|
            && (forall c | 0 <= c < |s.callers| :: s'.callers[c].attempt == s.callers[c].attempt)
            && forall c | |s.callers| <= c < |s'.callers| :: s'.callers[c].attempt == a
    decreases |events|
  {
    if events != [] {
      StepKeepsSound(s, events[0]);
      ServedByOwn(Step(s, events[0]), a, events[1..]);
    }
  }

  /** Once an attempt succeeded, the factory is never called again, and every
      later caller is served by it. */
  lemma SuccessIsKept(s: State, a: nat, events: seq<Event>)
    requires Sound(s) && a < |s.attempts| && s.attempts[a].Fulfilled? && Possible(s, events)
    ensures var s' := Run(s, events);
            && s'.attempts == s.attempts && s'.memo == Some(a) && |s.callers| <= |s'.callers|
            && forall c | |s.callers| <= c < |s'.callers| ::
                 s'.callers[c].attempt == a && s'.callers[c].answer != Some(false)
  {
    ServedByOwn(s, a, events);
  }

  class LazyBackend {
    var memo: Option<nat>
    var attempts: seq<Attempt>
    var callers: seq<Caller>

    ghost function View(): State
      reads this
    {
      State(memo, attempts, callers)
    }

    constructor ()
      ensures View() == START
    {
      memo, attempts, callers := None, [], [];
    }

    /** A gated call, up to its await. */
    method Ask() returns (caller: nat)
      modifies this
      ensures caller == old(|callers|)
      ensures View() == Step(old(View()), Call)
    {
      caller := |callers|;
      if memo.None? {
        memo, attempts := Some(|attempts|), attempts + [Pending];
      }
      callers := callers + [Caller(memo.value, None)];
    }

    method OnSettled(a: nat, ok: bool)
      requires a < |attempts| && attempts[a].Pending?
      modifies this
      ensures View() == Step(old(View()), AttemptSettles(a, ok))
    {
      attempts := attempts[a := if ok then Fulfilled else Failed];
    }

    /** The rest of the call, after its await. */
    method OnResumed(c: nat)
      requires Enabled(View(), CallerResumes(c))
      modifies this
      ensures View() == Step(old(View()), CallerResumes(c))
    {
      var pending := callers[c].attempt;
      if attempts[pending].Failed? {
        if memo == Some(pending) {
          memo := None;
        }
        callers := callers[c := Caller(pending, Some(false))];
      } else {
        callers := callers[c := Caller(pending, Some(true))];
      }
    }
  }
}
