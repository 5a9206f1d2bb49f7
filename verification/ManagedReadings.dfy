/** Every status and output a managed agent's log can read as, and exactly when. */
module ManagedReadings {
  import opened Prelude
  import opened ManagedLifecycle
  import SseStream

  /** Events that say nothing about the status. */
  predicate Silent(k: Kind) { k.AgentMessage? || k.ContentNotAList? || k.WorkflowUnnamed? || k.OtherKind? }

  /** Event n - 1 is the last that says something about the status. */
  ghost predicate SpeaksLast(kinds: seq<Kind>, n: nat) {
    0 < n <= |kinds| && !Silent(kinds[n - 1]) && forall j | n <= j < |kinds| :: Silent(kinds[j])
  }

  /** The turn under way after n events was interrupted. */
  ghost predicate Interrupted(kinds: seq<Kind>, n: nat)
    requires n <= |kinds|
  {
    exists i :: 0 <= i < n && kinds[i] == Interrupt && forall j | i < j < n :: !kinds[j].TurnStart?
  }

  /** A workflow is open after n events. */
  ghost predicate WorkflowOpenAfter(kinds: seq<Kind>, n: nat)
    requires n <= |kinds|
  {
    exists i :: 0 <= i < n && kinds[i].WorkflowOpen? && forall j | i < j < n :: kinds[j] != WorkflowEnded(kinds[i].name)
  }

  lemma {:induction false} InterruptSinceTurn(kinds: seq<Kind>)
    ensures Interrupt in SinceTurn(kinds) <==> Interrupted(kinds, |kinds|)
  {
    if kinds != [] {
      var n := |kinds| - 1;
      var init, last := kinds[..n], kinds[n];
      InterruptSinceTurn(init);
      if last == Interrupt {
        assert kinds[n] == Interrupt;
      } else if !last.TurnStart? {
        if i :| 0 <= i < n && init[i] == Interrupt && forall j | i < j < n :: !init[j].TurnStart? {
          assert kinds[i] == Interrupt;
        }
        if i :| 0 <= i < |kinds| && kinds[i] == Interrupt && forall j | i < j < |kinds| :: !kinds[j].TurnStart? {
          assert init[i] == Interrupt;
        }
      }
    }
  }

  lemma OpenExactly(kinds: seq<Kind>)
    ensures WorkflowOpenAfter(kinds, |kinds|) <==> exists name :: WorkflowIsOpen(kinds, name)
  {
    if i :| 0 <= i < |kinds| && kinds[i].WorkflowOpen? &&
            forall j | i < j < |kinds| :: kinds[j] != WorkflowEnded(kinds[i].name) {
      assert WorkflowIsOpen(kinds, kinds[i].name);
    }
    if name :| WorkflowIsOpen(kinds, name) {
      var i :| 0 <= i < |kinds| && kinds[i] == WorkflowOpen(name) && WorkflowEnded(name) !in kinds[i + 1..];
      assert forall j | i < j < |kinds| :: kinds[j] == kinds[i + 1..][j - i - 1];
    }
  }

  /** Each status, and the last events that give it. */
  ghost predicate StatusIs(kinds: seq<Kind>, n: nat, status: Status)
    requires SpeaksLast(kinds, n)
  {
    var last := kinds[n - 1];
    var done := last == Idle(EndTurn) && !Interrupted(kinds, n);
    && (status == Status.Paused <==> last.Interrupt? || (last.Idle? && !done))
    && (status == Status.Unknown <==> last.Terminated?)
    && (status == Status.Completed <==> done && !WorkflowOpenAfter(kinds, n))
    && (status == Status.Running <==>
        || last.TurnStart? || last.WorkflowOpen? || last.WorkflowEnded? || last.RunningStatus?
        || (done && WorkflowOpenAfter(kinds, n)))
  }

  lemma StatusNow(kinds: seq<Kind>)
    requires kinds != [] && !Silent(kinds[|kinds| - 1])
    ensures StatusIs(kinds, |kinds|, StatusOf(kinds))
  {
    InterruptSinceTurn(kinds);
    OpenExactly(kinds);
    hide Interrupted, WorkflowOpenAfter, WorkflowIsOpen, SinceTurn;
  }

  /** A log reads as unknown until an event says something about the status, and as
      the last such event says from then on. */
  lemma {:induction false} StatusExactly(kinds: seq<Kind>)
    ensures forall n: nat | SpeaksLast(kinds, n) :: StatusIs(kinds, n, StatusOf(kinds))
    ensures (forall k | k in kinds :: Silent(k)) ==> StatusOf(kinds) == Status.Unknown
  {
    if kinds != [] {
      var n := |kinds| - 1;
      var init := kinds[..n];
      if Silent(kinds[n]) {
        StatusExactly(init);
        forall m: nat | SpeaksLast(kinds, m) ensures StatusIs(kinds, m, StatusOf(kinds)) {
          assert SpeaksLast(init, m);
          SameStatus(kinds, m, StatusOf(init));
        }
        assert forall k | k in init :: k in kinds;
      } else {
        StatusNow(kinds);
        assert kinds[n] in kinds;
        assert forall m: nat | SpeaksLast(kinds, m) :: m == |kinds|;
      }
    }
  }

  lemma SameStatus(kinds: seq<Kind>, m: nat, status: Status)
    requires kinds != [] && SpeaksLast(kinds, m) && SpeaksLast(kinds[..|kinds| - 1], m)
    requires StatusIs(kinds[..|kinds| - 1], m, status)
    ensures StatusIs(kinds, m, status)
  {
    var init := kinds[..|kinds| - 1];
    assert Interrupted(init, m) <==> Interrupted(kinds, m) by {
      if i :| 0 <= i < m && kinds[i] == Interrupt && forall j | i < j < m :: !kinds[j].TurnStart? {
        assert init[i] == Interrupt;
      }
      if i :| 0 <= i < m && init[i] == Interrupt && forall j | i < j < m :: !init[j].TurnStart? {
        assert kinds[i] == Interrupt;
      }
    }
    assert WorkflowOpenAfter(init, m) <==> WorkflowOpenAfter(kinds, m) by {
      if i :| 0 <= i < m && kinds[i].WorkflowOpen? && forall j | i < j < m :: kinds[j] != WorkflowEnded(kinds[i].name) {
        assert init[i].WorkflowOpen?;
      }
      if i :| 0 <= i < m && init[i].WorkflowOpen? && forall j | i < j < m :: init[j] != WorkflowEnded(init[i].name) {
        assert kinds[i].WorkflowOpen?;
      }
    }
    hide Interrupted, WorkflowOpenAfter;
  }

  // --- The output ---

  function Word(b: Block): string { if b.TextBlock? then b.text else "" }

  /** The text of a message, one block after the other. */
  function Spoken(blocks: seq<Block>): string {
    if blocks == [] then "" else Word(blocks[0]) + Spoken(blocks[1..])
  }

  function Words(k: Kind): string { if k.AgentMessage? then Spoken(k.blocks) else "" }

  /** The text of all messages. */
  function SpokenIn(kinds: seq<Kind>): string {
    if kinds == [] then "" else Words(kinds[0]) + SpokenIn(kinds[1..])
  }

  ghost predicate Speaks(kinds: seq<Kind>) {
    exists i, j :: 0 <= i < |kinds| && kinds[i].AgentMessage? && 0 <= j < |kinds[i].blocks| &&
                   kinds[i].blocks[j].TextBlock?
  }

  lemma {:induction false} TurnOnly(before: seq<Kind>, current: seq<Kind>)
    requires before == [] || before[|before| - 1].TurnStart?
    requires forall k | k in current :: !k.TurnStart?
    ensures SinceTurn(before + current) == current
  {
    if current == [] {
      assert before + current == before;
    } else {
      var init, last := current[..|current| - 1], current[|current| - 1];
      assert current == init + [last] && last in current && forall k | k in init :: k in current;
      TurnOnly(before, init);
      TextsAppend(before + init, last);
      hide SinceTurn;
      Associates(before, init, [last]);
    }
  }

  lemma {:induction false} BlocksSpeak(blocks: seq<Block>)
    ensures Flatten(TextsOf(blocks)) == Spoken(blocks)
    ensures TextsOf(blocks) == [] <==> forall j | 0 <= j < |blocks| :: !blocks[j].TextBlock?
  {
    if blocks != [] {
      var n := |blocks| - 1;
      var init, last := blocks[..n], blocks[n];
      BlocksSpeak(init);
      assert blocks == init + [last];
      SpokenSnoc(init, last);
      if last.TextBlock? {
        FlattenSnoc(TextsOf(init), last.text);
      } else {
        assert TextsOf(init) + [] == TextsOf(init) && Spoken(init) + "" == Spoken(init);
      }
    }
  }

  lemma {:induction false} SpokenSnoc(blocks: seq<Block>, last: Block)
    ensures Spoken(blocks + [last]) == Spoken(blocks) + Word(last)
  {
    var all := blocks + [last];
    if blocks == [] {
      assert all[1..] == [] && all[0] == last;
      assert Word(last) + "" == Word(last) && "" + Word(last) == Word(last);
    } else {
      assert all[1..] == blocks[1..] + [last] && all[0] == blocks[0];
      SpokenSnoc(blocks[1..], last);
      Associates(Word(blocks[0]), Spoken(blocks[1..]), Word(last));
    }
  }

  lemma {:induction false} SpokenInSnoc(kinds: seq<Kind>, last: Kind)
    ensures SpokenIn(kinds + [last]) == SpokenIn(kinds) + Words(last)
  {
    hide Spoken;
    var all := kinds + [last];
    if kinds == [] {
      assert all[1..] == [] && all[0] == last;
      assert Words(last) + "" == Words(last) && "" + Words(last) == Words(last);
    } else {
      assert all[1..] == kinds[1..] + [last] && all[0] == kinds[0];
      SpokenInSnoc(kinds[1..], last);
      Associates(Words(kinds[0]), SpokenIn(kinds[1..]), Words(last));
    }
  }

  lemma {:induction false} KindsSpeak(kinds: seq<Kind>)
    ensures Flatten(Texts(kinds)) == SpokenIn(kinds)
    ensures Texts(kinds) == [] <==> !Speaks(kinds)
  {
    if kinds != [] {
      var n := |kinds| - 1;
      var init, last := kinds[..n], kinds[n];
      KindsSpeak(init);
      assert kinds == init + [last];
      SpokenInSnoc(init, last);
      SpeaksSnoc(init, last);
      hide Speaks;
      if last.AgentMessage? {
        BlocksSpeak(last.blocks);
        FlattenAppend(Texts(init), TextsOf(last.blocks));
      } else {
        assert Texts(init) + [] == Texts(init) && SpokenIn(init) + "" == SpokenIn(init);
      }
    }
  }

  lemma SpeaksSnoc(init: seq<Kind>, last: Kind)
    ensures Speaks(init + [last]) <==>
            Speaks(init) || (last.AgentMessage? && exists j :: 0 <= j < |last.blocks| && last.blocks[j].TextBlock?)
  {
    var all := init + [last];
    assert all[|init|] == last && forall i | 0 <= i < |init| :: all[i] == init[i];
    if i, j :| 0 <= i < |init| && init[i].AgentMessage? && 0 <= j < |init[i].blocks| && init[i].blocks[j].TextBlock? {
      assert all[i].AgentMessage? && all[i].blocks[j].TextBlock?;
    }
    if last.AgentMessage? {
      if j :| 0 <= j < |last.blocks| && last.blocks[j].TextBlock? {
        assert all[|init|].blocks[j].TextBlock?;
      }
    }
  }

  lemma {:induction false} FlattenAppend(a: seq<string>, b: seq<string>)
    ensures Flatten(a + b) == Flatten(a) + Flatten(b)
  {
    if a == [] {
      assert a + b == b;
    } else {
      assert (a + b)[1..] == a[1..] + b;
      FlattenAppend(a[1..], b);
    }
  }

  /** The output is what was spoken since the last turn began, and absent if nothing
      was. */
  lemma OutputExactly(before: seq<Kind>, current: seq<Kind>)
    requires before == [] || before[|before| - 1].TurnStart?
    requires forall k | k in current :: !k.TurnStart?
    ensures Output(before + current) == if Speaks(current) then Some(SpokenIn(current)) else None
    ensures OutputBytes(before + current) == SseStream.Utf8Len(SpokenIn(current))
  {
    TurnOnly(before, current);
    KindsSpeak(current);
  }

  // --- Refusals ---

  /** Exactly the logs that are refused: some event is not a record; or one that
      counts names no workflow, has no proper reason or content, or brings the output
      above the limit. */
  lemma RefusedExactly(events: seq<Event>, max: nat)
    ensures Reading(events, max).ProtocolError? <==>
            exists i :: 0 <= i < |events| &&
              (events[i].NotRecord? ||
               (Counts(events, i) &&
                var k := events[i].kind;
                || k.WorkflowUnnamed? || k.ContentNotAList? || (k.Idle? && k.stop.MalformedReason?)
                || (k.AgentMessage? && exists b :: b in k.blocks && (b.NotARecord? || b.BadText?))
                || OutputBytes(Primary(events[..i + 1])) > max))
  {
    hide Counts, Primary, OutputBytes;
    forall i | 0 <= i < |events|
      ensures !MakesSense(events, i, max) <==>
              (events[i].NotRecord? ||
               (Counts(events, i) &&
                var k := events[i].kind;
                || k.WorkflowUnnamed? || k.ContentNotAList? || (k.Idle? && k.stop.MalformedReason?)
                || (k.AgentMessage? && exists b :: b in k.blocks && (b.NotARecord? || b.BadText?))
                || OutputBytes(Primary(events[..i + 1])) > max))
    {
    }
    hide MakesSense;
  }
}
