/** Status and output of a managed agent's run, read off its event log. */
module ManagedLifecycle {
  import opened Prelude
  import SseStream

  datatype Block = NotARecord | OtherBlock | TextBlock(text: string) | BadText

  datatype Stop = NoReason | EndTurn | OtherReason | MalformedReason

  datatype Kind =
    | TurnStart
    | Interrupt
    | WorkflowOpen(name: string)
    | WorkflowEnded(name: string)
    | WorkflowUnnamed
    | RunningStatus
    | Idle(stop: Stop)
    | Terminated
    | AgentMessage(blocks: seq<Block>)
    | ContentNotAList
    | OtherKind

  /** id: its identifier, when that is a string. */
  datatype Event = NotRecord | Record(otherThread: bool, id: Option<string>, kind: Kind)

  datatype Status = Unknown | Running | Paused | Completed

  datatype Result = Observed(status: Status, output: Option<string>) | ProtocolError

  // --- What an event log says ---

  /** Event i belongs to the primary thread and is the first with its id there. */
  ghost predicate Counts(events: seq<Event>, i: nat)
    requires i < |events|
  {
    && events[i].Record? && !events[i].otherThread
    && (events[i].id.Some? ==> !Earlier(events[..i], events[i].id.value))
  }

  ghost predicate Earlier(events: seq<Event>, id: string) {
    exists j | 0 <= j < |events| :: events[j].Record? && !events[j].otherThread && events[j].id == Some(id)
  }

  /** The events that count. */
  ghost function Primary(events: seq<Event>): seq<Kind> {
    if events == [] then []
    else
      var n := |events| - 1;
      Primary(events[..n]) + if Counts(events, n) then [events[n].kind] else []
  }

  /** What came after the last turn start. */
  function SinceTurn(kinds: seq<Kind>): seq<Kind> {
    if kinds == [] || kinds[|kinds| - 1].TurnStart? then [] else SinceTurn(kinds[..|kinds| - 1]) + [kinds[|kinds| - 1]]
  }

  function TextsOf(blocks: seq<Block>): seq<string> {
    if blocks == [] then []
    else TextsOf(blocks[..|blocks| - 1]) + if blocks[|blocks| - 1].TextBlock? then [blocks[|blocks| - 1].text] else []
  }

  function Texts(kinds: seq<Kind>): seq<string> {
    if kinds == [] then []
    else Texts(kinds[..|kinds| - 1]) + if kinds[|kinds| - 1].AgentMessage? then TextsOf(kinds[|kinds| - 1].blocks)
        else []
  }

  /** All text of the current turn, if there was any block of it. */
  function Output(kinds: seq<Kind>): Option<string> {
    var texts := Texts(SinceTurn(kinds));
    if texts == [] then None else Some(Flatten(texts))
  }

  function OutputBytes(kinds: seq<Kind>): nat { SseStream.Utf8Len(Flatten(Texts(SinceTurn(kinds)))) }

  predicate BearsStatus(k: Kind) {
    k.TurnStart? || k.Interrupt? || k.WorkflowOpen? || k.WorkflowEnded? || k.RunningStatus? || k.Idle? || k.Terminated?
  }

  ghost predicate WorkflowIsOpen(kinds: seq<Kind>, name: string) {
    exists i | 0 <= i < |kinds| :: kinds[i] == WorkflowOpen(name) && WorkflowEnded(name) !in kinds[i + 1..]
  }

  /** The agent is done: its turn ended, nobody interrupted it, and no workflow
      is open. */
  ghost predicate EndsCompleted(kinds: seq<Kind>) {
    && kinds != [] && kinds[|kinds| - 1] == Idle(EndTurn)
    && Interrupt !in SinceTurn(kinds)
    && forall name: string :: !WorkflowIsOpen(kinds, name)
  }

  /** The status its last status-bearing event gives. */
  ghost function StatusAt(kinds: seq<Kind>): Status
    requires kinds != [] && BearsStatus(kinds[|kinds| - 1])
  {
    match kinds[|kinds| - 1]
    case Interrupt => Paused
    case Terminated => Unknown
    case Idle(stop) =>
      if !stop.EndTurn? || Interrupt in SinceTurn(kinds) then Paused
      else if EndsCompleted(kinds) then Completed else Running
    case _ => Running
  }

  ghost function StatusOf(kinds: seq<Kind>): Status {
    if kinds == [] then Unknown
    else if BearsStatus(kinds[|kinds| - 1]) then StatusAt(kinds)
    else StatusOf(kinds[..|kinds| - 1])
  }

  predicate BadBlock(b: Block) { b.NotARecord? || b.BadText? }

  predicate BadKind(k: Kind) {
    k.WorkflowUnnamed? || k == Idle(MalformedReason) || k.ContentNotAList?
        || (k.AgentMessage? && exists b | b in k.blocks :: BadBlock(b))
  }

  ghost predicate MakesSense(events: seq<Event>, i: nat, max: nat)
    requires i < |events|
  {
    && events[i].Record?
    && (Counts(events, i) ==> !BadKind(events[i].kind) && OutputBytes(Primary(events[..i + 1])) <= max)
  }

  /** Every event is a record, every event that counts is well formed, and the
      output never exceeds the limit. */
  ghost predicate WellFormed(events: seq<Event>, max: nat) {
    forall i | 0 <= i < |events| :: MakesSense(events, i, max)
  }

  ghost function Reading(events: seq<Event>, max: nat): Result {
    if WellFormed(events, max) then Observed(StatusOf(Primary(events)), Output(Primary(events))) else ProtocolError
  }

  // --- The fold ---

  ghost predicate Agrees(kinds: seq<Kind>, status: Status, output: Option<string>, size: nat, interrupted: bool,
                         workflows: set<string>)
  {
    && status == StatusOf(kinds)
    && output == Output(kinds) && size == OutputBytes(kinds)
    && (interrupted <==> Interrupt in SinceTurn(kinds))
    && forall name :: name in workflows <==> WorkflowIsOpen(kinds, name)
  }

  lemma StaysOpen(kinds: seq<Kind>, k: Kind, name: string)
    requires k == WorkflowOpen(name) || (k != WorkflowEnded(name) && WorkflowIsOpen(kinds, name))
    ensures WorkflowIsOpen(kinds + [k], name)
  {
    var all := kinds + [k];
    if k == WorkflowOpen(name) {
      assert all[|kinds|] == k && all[|kinds| + 1..] == [];
    } else {
      var i :| 0 <= i < |kinds| && kinds[i] == WorkflowOpen(name) && WorkflowEnded(name) !in kinds[i + 1..];
      assert all[i + 1..] == kinds[i + 1..] + [k];
      assert all[i] == WorkflowOpen(name);
    }
  }

  lemma WasOpen(kinds: seq<Kind>, k: Kind, name: string)
    requires WorkflowIsOpen(kinds + [k], name)
    ensures k == WorkflowOpen(name) || (k != WorkflowEnded(name) && WorkflowIsOpen(kinds, name))
  {
    var all := kinds + [k];
    var i :| 0 <= i < |all| && all[i] == WorkflowOpen(name) && WorkflowEnded(name) !in all[i + 1..];
    if i < |kinds| {
      assert all[i + 1..] == kinds[i + 1..] + [k] && kinds[i] == WorkflowOpen(name);
      assert (kinds[i + 1..] + [k])[|kinds| - i - 1] == k;
    }
  }

  lemma StillOpen(kinds: seq<Kind>, k: Kind, name: string)
    ensures WorkflowIsOpen(kinds + [k], name) <==>
              k == WorkflowOpen(name) || (k != WorkflowEnded(name) && WorkflowIsOpen(kinds, name))
  {
    hide WorkflowIsOpen;
    if WorkflowIsOpen(kinds + [k], name) {
      WasOpen(kinds, k, name);
    } else if k == WorkflowOpen(name) || (k != WorkflowEnded(name) && WorkflowIsOpen(kinds, name)) {
      StaysOpen(kinds, k, name);
    }
  }

  lemma TextsAppend(a: seq<Kind>, k: Kind)
    ensures SinceTurn(a + [k]) == if k.TurnStart? then [] else SinceTurn(a) + [k]
    ensures Texts(a + [k]) == if k.AgentMessage? then Texts(a) + TextsOf(k.blocks) else Texts(a)
    ensures StatusOf(a + [k]) == if BearsStatus(k) then StatusAt(a + [k]) else StatusOf(a)
  {
    assert (a + [k])[..|a|] == a;
  }

  /** One event of the log, as the loop body handles it: every branch keeps the
      variables in agreement with the reading. */
  lemma OneMore(kinds: seq<Kind>, k: Kind, status: Status, output: Option<string>, size: nat, interrupted: bool,
                workflows: set<string>)
    requires Agrees(kinds, status, output, size, interrupted, workflows) && !BadKind(k)
    ensures match k
            case TurnStart => Agrees(kinds + [k], Running, None, 0, false, workflows)
            case Interrupt => Agrees(kinds + [k], Paused, output, size, true, workflows)
            case WorkflowOpen(name) => Agrees(kinds + [k], Running, output, size, interrupted, workflows + {name})
            case WorkflowEnded(name) => Agrees(kinds + [k], Running, output, size, interrupted, workflows - {name})
            case RunningStatus => Agrees(kinds + [k], Running, output, size, interrupted, workflows)
            case Idle(stop) =>
              Agrees(kinds + [k], if stop.EndTurn? && !interrupted
                     then (if workflows != {} then Running else Completed) else Paused, output, size, interrupted,
                     workflows)
            case Terminated => Agrees(kinds + [k], Unknown, output, size, interrupted, workflows)
            case AgentMessage(blocks) =>
              var texts := Texts(SinceTurn(kinds)) + TextsOf(blocks);
              Agrees(kinds + [k], status, if texts == [] then None else Some(Flatten(texts)),
                     SseStream.Utf8Len(Flatten(texts)), interrupted, workflows)
            case _ => Agrees(kinds + [k], status, output, size, interrupted, workflows)
  {
    hide SinceTurn, Texts, StatusOf, WorkflowIsOpen, SseStream.Utf8Len;
    TextsAppend(kinds, k);
    TextsAppend(SinceTurn(kinds), k);
    forall name: string ensures WorkflowIsOpen(kinds + [k], name) <==>
      k == WorkflowOpen(name) || (k != WorkflowEnded(name) && WorkflowIsOpen(kinds, name))
    {
      StillOpen(kinds, k, name);
    }
    TextsOfNothing();
    if k == Idle(EndTurn) && workflows != {} {
      var name :| name in workflows;
      assert WorkflowIsOpen(kinds + [k], name);
    }
  }

  lemma TextsOfNothing()
    ensures Texts([]) == [] && SseStream.Utf8Len(Flatten<char>([])) == 0
  {
  }

  lemma SenseOfPrefix(events: seq<Event>, n: nat, i: nat, max: nat)
    requires i < n <= |events|
    ensures Counts(events[..n], i) == Counts(events, i) && MakesSense(events[..n], i, max) == MakesSense(events, i, max)
  {
    assert events[..n][..i] == events[..i] && events[..n][..i + 1] == events[..i + 1];
  }

  lemma PrefixGrows(events: seq<Event>, i: nat, max: nat)
    requires i < |events| && WellFormed(events[..i], max)
    ensures WellFormed(events[..i + 1], max) <==> MakesSense(events, i, max)
    ensures !MakesSense(events, i, max) ==> !WellFormed(events, max)
    ensures Primary(events[..i + 1]) == if Counts(events, i) then Primary(events[..i]) + [events[i].kind]
            else Primary(events[..i])
  {
    hide MakesSense, Counts;
    var longer := events[..i + 1];
    forall j | 0 <= j <= i ensures MakesSense(longer, j, max) == MakesSense(events, j, max) {
      SenseOfPrefix(events, i + 1, j, max);
    }
    forall j | 0 <= j < i ensures MakesSense(longer, j, max) {
      SenseOfPrefix(events, i, j, max);
      assert MakesSense(events[..i], j, max);
    }
    SenseOfPrefix(events, i + 1, i, max);
    assert events[..i + 1][..i] == events[..i];
  }

  lemma EarlierGrows(events: seq<Event>, i: nat, id: string)
    requires i < |events|
    ensures Earlier(events[..i + 1], id) <==>
            Earlier(events[..i], id) || (events[i].Record? && !events[i].otherThread && events[i].id == Some(id))
  {
    var longer := events[..i + 1];
    if Earlier(events[..i], id) {
      var j :| 0 <= j < i && events[..i][j].Record? && !events[..i][j].otherThread && events[..i][j].id == Some(id);
      assert longer[j] == events[..i][j];
    }
    if Earlier(longer, id) {
      var j :| 0 <= j < |longer| && longer[j].Record? && !longer[j].otherThread && longer[j].id == Some(id);
      assert j < i ==> events[..i][j] == longer[j];
    }
    assert longer[i] == events[i];
  }

  lemma TextsOfPrefix(blocks: seq<Block>, i: nat)
    requires i < |blocks|
    ensures TextsOf(blocks[..i + 1]) ==
            if blocks[i].TextBlock? then TextsOf(blocks[..i]) + [blocks[i].text] else TextsOf(blocks[..i])
  {
    assert blocks[..i + 1][..i] == blocks[..i];
  }

  lemma {:induction false} MoreTextsMoreBytes(texts: seq<string>, blocks: seq<Block>, i: nat)
    requires i <= |blocks|
    ensures SseStream.Utf8Len(Flatten(texts + TextsOf(blocks[..i]))) <= SseStream.Utf8Len(Flatten(texts
                                                                                                  + TextsOf(blocks)))
    decreases |blocks| - i
  {
    if i < |blocks| {
      MoreTextsMoreBytes(texts, blocks, i + 1);
      TextsOfPrefix(blocks, i);
      var before := texts + TextsOf(blocks[..i]);
      if blocks[i].TextBlock? {
        FlattenSnoc(before, blocks[i].text);
        SseStream.Utf8Append(Flatten(before), blocks[i].text);
        assert before + [blocks[i].text] == texts + TextsOf(blocks[..i + 1]);
      }
    } else {
      assert blocks[..i] == blocks;
    }
  }

  function OutputOf(texts: seq<string>): Option<string> { if texts == [] then None else Some(Flatten(texts)) }

  /** The inner loop, over one message's blocks. */
  method ReadBlocks(blocks: seq<Block>, output0: Option<string>, size0: nat, max: nat, ghost texts: seq<string>)
    returns (ok: bool, output: Option<string>, size: nat)
    requires output0 == OutputOf(texts) && size0 == SseStream.Utf8Len(Flatten(texts)) <= max
    ensures var all := texts + TextsOf(blocks);
            && (ok <==> (forall b | b in blocks :: !BadBlock(b)) && SseStream.Utf8Len(Flatten(all)) <= max)
            && (ok ==> output == OutputOf(all) && size == SseStream.Utf8Len(Flatten(all)))
  {
    hide TextsOf, SseStream.Utf8Len;
    ok, output, size := true, output0, size0;
    assert texts + TextsOf(blocks[..0]) == texts by { assert blocks[..0] == []; TextsOfNone(); }
    for i := 0 to |blocks|
      invariant forall j | 0 <= j < i :: !BadBlock(blocks[j])
      invariant output == OutputOf(texts + TextsOf(blocks[..i]))
      invariant size == SseStream.Utf8Len(Flatten(texts + TextsOf(blocks[..i]))) <= max
    {
      TextsOfPrefix(blocks, i);
      ghost var before := texts + TextsOf(blocks[..i]);
      if BadBlock(blocks[i]) {
        return false, None, 0;
      }
      if blocks[i].TextBlock? {
        FlattenSnoc(before, blocks[i].text);
        SseStream.Utf8Append(Flatten(before), blocks[i].text);
        MoreTextsMoreBytes(texts, blocks, i + 1);
        assert before + [blocks[i].text] == texts + TextsOf(blocks[..i + 1]);
        size := size + SseStream.Utf8Len(blocks[i].text);
        if size > max {
          return false, None, 0;
        }
        output := Some((if output.Some? then output.value else "") + blocks[i].text);
        NothingBefore(blocks[i].text);
      }
    }
    assert blocks[..|blocks|] == blocks;
  }

  lemma TextsOfNone()
    ensures TextsOf([]) == []
  {
  }

  /** Reads a log event by event. */
  method Observe(events: seq<Event>, max: nat) returns (r: Result)
    ensures r == Reading(events, max)
  {
    hide Primary, WellFormed, MakesSense, Agrees, StatusOf, Output;
    var status, output, size: nat := Status.Unknown, None, 0;
    var interrupted, workflows: set<string>, seen: set<string> := false, {}, {};
    NothingRead(max);
    assert events[..0] == [];
    for i := 0 to |events|
      invariant WellFormed(events[..i], max) && size <= max
      invariant Agrees(Primary(events[..i]), status, output, size, interrupted, workflows)
      invariant forall id :: id in seen <==> Earlier(events[..i], id)
    {
      ghost var kinds := Primary(events[..i]);
      PrefixGrows(events, i, max);
      forall id: string ensures Earlier(events[..i + 1], id) <==>
        Earlier(events[..i], id) || (events[i].Record? && !events[i].otherThread && events[i].id == Some(id))
      {
        EarlierGrows(events, i, id);
      }
      Sense(events, i, max);
      var e := events[i];
      if e.NotRecord? {
        return ProtocolError;
      }
      if e.otherThread {
        continue;
      }
      if e.id.Some? {
        if e.id.value in seen {
          continue;
        }
        seen := seen + {e.id.value};
      }
      var ok;
      ok, status, output, size, interrupted, workflows := TakeKind(e.kind, max, status, output, size, interrupted,
                                                                   workflows, kinds);
      if !ok {
        return ProtocolError;
      }
    }
    assert events[..|events|] == events;
    AgreementReads(Primary(events), status, output, size, interrupted, workflows);
    r := Observed(status, output);
  }

  lemma NothingRead(max: nat)
    ensures WellFormed([], max) && Agrees(Primary([]), Status.Unknown, None, 0, false, {})
    ensures forall id: string :: !Earlier([], id)
  {
  }

  lemma Sense(events: seq<Event>, i: nat, max: nat)
    requires i < |events|
    ensures events[i].NotRecord? ==> !MakesSense(events, i, max)
    ensures events[i].Record? && !Counts(events, i) ==> MakesSense(events, i, max)
    ensures Counts(events, i) ==>
              (MakesSense(events, i, max) <==> !BadKind(events[i].kind) && OutputBytes(Primary(events[..i + 1])) <= max)
  {
  }

  lemma AgreementReads(kinds: seq<Kind>, status: Status, output: Option<string>, size: nat, interrupted: bool,
                       workflows: set<string>)
    requires Agrees(kinds, status, output, size, interrupted, workflows)
    ensures status == StatusOf(kinds) && output == Output(kinds) && size == OutputBytes(kinds)
  {
  }

  /** The branches of the loop body, for an event that counts. */
  method TakeKind(k: Kind, max: nat, status0: Status, output0: Option<string>, size0: nat, interrupted0: bool,
                  workflows0: set<string>, ghost kinds: seq<Kind>)
    returns (ok: bool, status: Status, output: Option<string>, size: nat, interrupted: bool, workflows: set<string>)
    requires Agrees(kinds, status0, output0, size0, interrupted0, workflows0) && size0 <= max
    ensures ok <==> !BadKind(k) && OutputBytes(kinds + [k]) <= max
    ensures ok ==> Agrees(kinds + [k], status, output, size, interrupted, workflows) && size <= max
  {
    hide Agrees, Output, OutputBytes, Texts, TextsOf, SinceTurn;
    status, output, size, interrupted, workflows := status0, output0, size0, interrupted0, workflows0;
    AgreementReads(kinds, status0, output0, size0, interrupted0, workflows0);
    Unfolds(kinds);
    if !BadKind(k) {
      OneMore(kinds, k, status0, output0, size0, interrupted0, workflows0);
    }
    ok := true;
    match k {
      case TurnStart =>
        interrupted, status, output, size := false, Running, None, 0;
      case Interrupt =>
        interrupted, status := true, Paused;
      case WorkflowUnnamed =>
        return false, status, output, size, interrupted, workflows;
      case WorkflowOpen(name) =>
        workflows, status := workflows + {name}, Running;
      case WorkflowEnded(name) =>
        workflows, status := workflows - {name}, Running;
      case RunningStatus =>
        status := Running;
      case Idle(stop) =>
        if stop.MalformedReason? {
          return false, status, output, size, interrupted, workflows;
        }
        status := if stop.EndTurn? && !interrupted then (if workflows != {} then Running else Status.Completed)
            else Paused;
      case Terminated =>
        status := Status.Unknown;
      case ContentNotAList =>
        return false, status, output, size, interrupted, workflows;
      case AgentMessage(blocks) =>
        ok, output, size := ReadBlocks(blocks, output, size, max, Texts(SinceTurn(kinds)));
        TextsAppend(kinds, k);
        TextsAppend(SinceTurn(kinds), k);
        Unfolds(kinds + [k]);
      case OtherKind =>
    }
    if ok && !k.AgentMessage? {
      AgreementReads(kinds + [k], status, output, size, interrupted, workflows);
    }
  }

  lemma Unfolds(kinds: seq<Kind>)
    ensures Output(kinds) == OutputOf(Texts(SinceTurn(kinds)))
    ensures OutputBytes(kinds) == SseStream.Utf8Len(Flatten(Texts(SinceTurn(kinds))))
  {
  }

  // --- What a reading means ---

  /** The first n events end completed, and nothing after bears on the status. */
  ghost predicate CompletesAt(kinds: seq<Kind>, n: nat) {
    0 < n <= |kinds| && EndsCompleted(kinds[..n]) && forall j | n <= j < |kinds| :: !BearsStatus(kinds[j])
  }

  lemma CompletesBefore(kinds: seq<Kind>, n: nat)
    requires kinds != [] && !BearsStatus(kinds[|kinds| - 1])
    ensures CompletesAt(kinds, n) <==> CompletesAt(kinds[..|kinds| - 1], n)
  {
    var init := kinds[..|kinds| - 1];
    if n <= |init| {
      assert init[..n] == kinds[..n];
    } else if n == |kinds| {
      assert kinds[..n] == kinds;
    }
  }

  lemma CompletesNow(kinds: seq<Kind>)
    requires kinds != [] && BearsStatus(kinds[|kinds| - 1])
    ensures StatusAt(kinds) == Status.Completed <==> CompletesAt(kinds, |kinds|)
    ensures forall n: nat :: CompletesAt(kinds, n) ==> n == |kinds|
  {
    assert kinds[..|kinds|] == kinds;
  }

  /** A run reads as completed if and only if, among the events that count, the
      last that bears on the status is an end-of-turn idle that no interrupt of
      its turn and no open workflow precedes. */
  lemma {:induction false} CompletedExactly(kinds: seq<Kind>)
    ensures StatusOf(kinds) == Status.Completed <==> exists n: nat :: CompletesAt(kinds, n)
  {
    if kinds != [] {
      hide CompletesAt, StatusAt;
      if BearsStatus(kinds[|kinds| - 1]) {
        CompletesNow(kinds);
      } else {
        var init := kinds[..|kinds| - 1];
        CompletedExactly(init);
        forall n: nat ensures CompletesAt(kinds, n) <==> CompletesAt(init, n) {
          CompletesBefore(kinds, n);
        }
        assert StatusOf(kinds) == StatusOf(init);
      }
    }
  }

  /** Whether an event counts depends on which ids came before it, not on how
      often. */
  lemma {:induction false} SkippedChangesNothing(a: seq<Event>, e: Event, b: seq<Event>, max: nat)
    requires e.Record? && !Counts(a + [e], |a|)
    ensures Primary(a + [e] + b) == Primary(a + b)
    ensures WellFormed(a + [e] + b, max) <==> WellFormed(a + b, max)
    ensures forall id: string :: Earlier(a + [e] + b, id) <==> Earlier(a + b, id)
    decreases |b|
  {
    hide MakesSense, Earlier, Counts;
    var with, without := a + [e] + b, a + b;
    if b == [] {
      assert with == a + [e] && without == a;
      WellFormedSnoc(a, e, max);
      PrimarySnoc(a, e);
      assert with[..|a|] == a && with[..|a| + 1] == with;
      Sense(with, |a|, max);
      forall id: string ensures Earlier(with, id) <==> Earlier(a, id) {
        EarlierGrows(with, |a|, id);
        SkippedIsKnown(a, e);
      }
    } else {
      var n, last := |b| - 1, b[|b| - 1];
      SkippedChangesNothing(a, e, b[..n], max);
      assert with == (a + [e] + b[..n]) + [last] && without == (a + b[..n]) + [last];
      SameLast(a + [e] + b[..n], a + b[..n], last, max);
    }
  }

  lemma SkippedIsKnown(a: seq<Event>, e: Event)
    requires e.Record? && !Counts(a + [e], |a|)
    ensures e.otherThread || (e.id.Some? && Earlier(a, e.id.value))
  {
    assert (a + [e])[..|a|] == a;
  }

  /** The same event after logs that read the same. */
  lemma SameLast(a: seq<Event>, b: seq<Event>, e: Event, max: nat)
    requires Primary(a) == Primary(b) && (WellFormed(a, max) <==> WellFormed(b, max))
    requires forall id: string :: Earlier(a, id) <==> Earlier(b, id)
    ensures Primary(a + [e]) == Primary(b + [e]) && (WellFormed(a + [e], max) <==> WellFormed(b + [e], max))
    ensures forall id: string :: Earlier(a + [e], id) <==> Earlier(b + [e], id)
  {
    var c, d := a + [e], b + [e];
    assert c[..|a|] == a && c[..|a| + 1] == c && d[..|b|] == b && d[..|b| + 1] == d;
    assert Counts(c, |a|) == Counts(d, |b|);
    hide Primary, Earlier, Counts, OutputBytes, BadKind;
    WellFormedSnoc(a, e, max);
    WellFormedSnoc(b, e, max);
    PrimarySnoc(a, e);
    PrimarySnoc(b, e);
    forall id: string ensures Earlier(c, id) <==> Earlier(d, id) {
      EarlierGrows(c, |a|, id);
      EarlierGrows(d, |b|, id);
    }
  }

  lemma PrimarySnoc(a: seq<Event>, e: Event)
    ensures Primary(a + [e]) == if Counts(a + [e], |a|) then Primary(a) + [e.kind] else Primary(a)
  {
    assert (a + [e])[..|a|] == a;
  }

  lemma WellFormedSnoc(a: seq<Event>, e: Event, max: nat)
    ensures WellFormed(a + [e], max) <==> WellFormed(a, max) && MakesSense(a + [e], |a|, max)
  {
    hide MakesSense;
    var all := a + [e];
    forall j | 0 <= j < |a| ensures MakesSense(all, j, max) == MakesSense(a, j, max) {
      assert all[..|a|] == a;
      SenseOfPrefix(all, |a|, j, max);
    }
  }

  /** Polling pages may overlap: an event of the primary thread whose id was seen
      before, or any event of another thread, changes nothing wherever it is
      inserted, whatever it says. */
  lemma ReinsertionChangesNothing(a: seq<Event>, e: Event, b: seq<Event>, max: nat)
    requires e.Record? && (e.otherThread || (e.id.Some? && Earlier(a, e.id.value)))
    ensures Reading(a + [e] + b, max) == Reading(a + b, max)
  {
    assert (a + [e])[..|a|] == a;
    SkippedChangesNothing(a, e, b, max);
  }
}
