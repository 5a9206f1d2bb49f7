/** The whole SSE path composed: a server that renders its log, bodies cut into
    any pieces, the parser, the reconnect loop and the dedupe window. */
module SseEndToEnd {
  import opened Prelude
  import opened SseBlocks
  import opened SseStream
  import opened SseRendering
  import opened SseDelivery
  import opened SseTransport

  /** A server's event log, as it can be written on the wire. */
  ghost predicate WireLog(log: seq<SseMessage>, number: ReadNumber, text: PrintNumber) {
    IsLog(log) && forall m | m in log :: Writable(m, number, text)
  }

  /** Where a Last-Event-ID may ask to resume; the log begins after `base`. */
  ghost predicate ResumesAt(log: seq<SseMessage>, base: Option<string>, lastEventId: Option<string>, d: nat) {
    d <= |log| && lastEventId == if d == 0 then base else log[d - 1].id
  }

  /** The server answers a request with events of its log, starting at most
      `capacity` before the one due and never past it. A body that is cut ends
      anywhere, be it within an event. */
  ghost predicate Serves(lastEventId: Option<string>, base: Option<string>, body: Body, r: Replay, log: seq<SseMessage>,
                         capacity: nat, text: PrintNumber)
  {
    && r.from <= r.to <= |log|
    && (forall d: nat | ResumesAt(log, base, lastEventId, d) :: r.from <= d <= r.from + capacity)
    && var written := RenderAll(log[r.from..r.to], text);
       if body.surroundings.cut then Flatten(body.pieces) <= written else Flatten(body.pieces) == written
  }

  /** It does so whenever it answers with an event stream; nothing is asked of
      other answers. */
  ghost predicate ServerKeeps(r: Request, circumstances: int -> Circumstance, links: seq<Link>, replays: seq<Replay>,
                              log: seq<SseMessage>, text: PrintNumber)
  {
    && |replays| == |links|
    && forall i | 0 <= i < |links| ::
         var c := circumstances(links[i].attempt);
         ReadableBody(c.opening).Some? ==>
           Serves(links[i].lastEventId, ResumeHeader(r.cursor, Supplied(r, c)), ReadableBody(c.opening).value,
                  replays[i], log, r.capacity, text)
  }

  /** How far into the log any request reached. */
  function Reached(links: seq<Link>, replays: seq<Replay>): nat
    requires |replays| == |links|
  {
    if links == [] then 0
    else
      var n := |links| - 1;
      var before := Reached(links[..n], replays[..n]);
      if links[n].received == [] then before else Max(before, replays[n].from + |links[n].received|)
  }

  lemma RenderedMeaning(ms: seq<SseMessage>, number: ReadNumber, text: PrintNumber)
    requires forall m | m in ms :: Writable(m, number, text)
    ensures Meaning(RenderAll(ms, text), number) == ms
  {
    hide Drain, Messages, RenderAll, Writable;
    RenderedDrains([], ms, number, text);
    Beginning(number);
    EmptyBlock(number);
    assert [] + ms + [] == ms;
  }

  lemma EmptyBlock(number: ReadNumber)
    ensures MessageOf("", number) == []
  {
    assert SplitLines("") == [""] && Values([""], "data") == Values([""][..0], "data");
  }

  /** The whole blocks of a written text that is cut off are its first messages. */
  lemma CutMeaning(ms: seq<SseMessage>, number: ReadNumber, text: PrintNumber, s: string)
    requires forall m | m in ms :: Writable(m, number, text)
    requires s <= RenderAll(ms, text)
    ensures Messages(Drain([], s).blocks, number) <= ms
  {
    hide Drain, Messages, RenderAll, Writable;
    var all := RenderAll(ms, text);
    RenderedDrains([], ms, number, text);
    Beginning(number);
    assert s + all[|s|..] == all;
    PieceDrains(s, all[|s|..], number, 0);
    assert [] + ms == ms;
  }

  /** The request's body was read whole: nothing interfered, and the budget was
      kept. */
  ghost predicate ReadWhole(opening: Opening, max: nat) {
    var body := ReadableBody(opening);
    body.Some? && body.value.surroundings.Quiet() && Fits(body.value.pieces, max)
  }

  lemma ReadingBrings(link: Link, opening: Opening, max: nat, number: ReadNumber)
    requires Brought(link, opening, max, number) && ReadableBody(opening).Some?
    ensures var body := ReadableBody(opening).value;
            var s := Flatten(body.pieces);
            && link.received <= (if body.surroundings.cut then Messages(Drain([], s).blocks, number)
                                 else Meaning(s, number))
            && (ReadWhole(opening, max) ==> !body.surroundings.cut && link.received == Meaning(s, number))
  {
    hide Drain, Messages, Meaning, Fits;
  }

  lemma BroughtOf(ms: seq<SseMessage>, link: Link, opening: Opening, r: Request, text: PrintNumber)
    requires (forall m | m in ms :: Writable(m, r.number, text)) && Brought(link, opening, r.maxBufferBytes, r.number)
    requires ReadableBody(opening).Some?
    requires var body := ReadableBody(opening).value;
             var written := RenderAll(ms, text);
             if body.surroundings.cut then Flatten(body.pieces) <= written else Flatten(body.pieces) == written
    ensures link.received <= ms && (ReadWhole(opening, r.maxBufferBytes) ==> link.received == ms)
  {
    hide RenderAll, Meaning, Drain, Messages, Writable, Brought, ReadWhole, ReadableBody;
    ReadingBrings(link, opening, r.maxBufferBytes, r.number);
    RenderedMeaning(ms, r.number, text);
    if ReadableBody(opening).value.surroundings.cut {
      CutMeaning(ms, r.number, text, Flatten(ReadableBody(opening).value.pieces));
    }
  }

  lemma PrefixOfSlice<T>(a: seq<T>, s: seq<T>, from: nat, to: nat)
    requires from <= to <= |s| && a <= s[from..to]
    ensures from + |a| <= to && a == s[from..from + |a|]
  {
  }

  /** What a request brought is the part of the log the server began to write: all
      of it when nothing interfered and the budget was kept. */
  lemma ReceivedIsReplay(link: Link, opening: Opening, base: Option<string>, replay: Replay, log: seq<SseMessage>,
                         r: Request, text: PrintNumber)
    requires WireLog(log, r.number, text) && Brought(link, opening, r.maxBufferBytes, r.number)
    requires ReadableBody(opening).Some?
    requires Serves(link.lastEventId, base, ReadableBody(opening).value, replay, log, r.capacity, text)
    ensures var n := |link.received|;
            && replay.from + n <= replay.to && link.received == log[replay.from..replay.from + n]
            && (ReadWhole(opening, r.maxBufferBytes) ==> replay.from + n == replay.to)
  {
    hide RenderAll, Writable, IsLog, Brought, ReadWhole, ReadableBody, ResumesAt;
    BroughtOf(log[replay.from..replay.to], link, opening, r, text);
    PrefixOfSlice(link.received, log, replay.from, replay.to);
  }

  lemma CursorIsLast(s: Session, log: seq<SseMessage>, d: nat, start: Option<string>, supplied: Option<string>,
                     capacity: nat)
    requires IsLog(log) && Synced(s, log, d, start, capacity)
    ensures ResumesAt(log, ResumeHeader(start, supplied), ResumeHeader(s.cursor, supplied), d)
  {
  }

  /** One more request, on values. */
  lemma ServedContinues(s: Session, link: Link, c: Circumstance, replay: Replay, log: seq<SseMessage>, d: nat,
                        r: Request, text: PrintNumber)
    requires WireLog(log, r.number, text) && Synced(s, log, d, r.cursor, r.capacity)
    requires link.lastEventId == ResumeHeader(s.cursor, Supplied(r, c))
             && Brought(link, c.opening, r.maxBufferBytes, r.number)
    requires ReadableBody(c.opening).Some? ==>
               Serves(link.lastEventId, ResumeHeader(r.cursor, Supplied(r, c)), ReadableBody(c.opening).value, replay,
                      log, r.capacity, text)
    ensures Synced(ReceiveAll(s, link.received, r.capacity), log,
                   if link.received == [] then d else Max(d, replay.from + |link.received|), r.cursor, r.capacity)
  {
    hide Writable, IsLog, Receive, Synced, ResumesAt, ResumeHeader, Supplied, RenderAll, Explained, Fits;
    if ReadableBody(c.opening).Some? {
      CursorIsLast(s, log, d, r.cursor, Supplied(r, c), r.capacity);
      var base := ResumeHeader(r.cursor, Supplied(r, c));
      assert replay.from <= d <= replay.from + r.capacity;
      ReceivedIsReplay(link, c.opening, base, replay, log, r, text);
      ConnectionContinues(s, log, d, r.cursor, r.capacity, replay.from, replay.from + |link.received|);
    }
  }

  lemma NothingSynced(log: seq<SseMessage>, r: Request)
    requires IsLog(log)
    ensures Synced(After(r, []), log, 0, r.cursor, r.capacity)
  {
    assert log[..0] == [] && Ids([]) == [];
  }

  lemma FewerLinks(links: seq<Link>, r: Request, circumstances: int -> Circumstance)
    requires links != [] && LinksFollow(links, r, circumstances)
    ensures var init, last := links[..|links| - 1], links[|links| - 1];
            && LinksFollow(init, r, circumstances)
            && last.lastEventId == ResumeHeader(After(r, init).cursor, Supplied(r, circumstances(last.attempt)))
  {
    hide After, ResumeHeader, Supplied;
    var init := links[..|links| - 1];
    forall i | 0 <= i < |init|
      ensures init[i].lastEventId == ResumeHeader(After(r, init[..i]).cursor,
                                                  Supplied(r, circumstances(init[i].attempt)))
    {
      assert init[..i] == links[..i];
    }
  }

  lemma {:induction false} LinksDeliver(r: Request, circumstances: int -> Circumstance, links: seq<Link>,
                                        replays: seq<Replay>, log: seq<SseMessage>, text: PrintNumber)
    requires WireLog(log, r.number, text) && LinksFollow(links, r, circumstances)
    requires forall i | 0 <= i < |links| :: Brought(links[i], circumstances(links[i].attempt).opening,
                                                    r.maxBufferBytes, r.number)
    requires ServerKeeps(r, circumstances, links, replays, log, text)
    ensures Synced(After(r, links), log, Reached(links, replays), r.cursor, r.capacity)
  {
    hide Serves, Brought, After, Synced, LinksFollow, Writable, IsLog, ResumeHeader, Supplied;
    if links == [] {
      NothingSynced(log, r);
    } else {
      var n := |links| - 1;
      var init, link := links[..n], links[n];
      FewerLinks(links, r, circumstances);
      LinksDeliver(r, circumstances, init, replays[..n], log, text);
      assert links == init + [link];
      AfterOneMore(init, link, r);
      ServedContinues(After(r, init), link, circumstances(link.attempt), replays[n], log, Reached(init, replays[..n]),
                      r, text);
    }
  }

  lemma {:induction false} ReachedIsLargest(links: seq<Link>, replays: seq<Replay>, i: nat)
    requires |replays| == |links| && i < |links| && links[i].received != []
    ensures replays[i].from + |links[i].received| <= Reached(links, replays)
  {
    var n := |links| - 1;
    if i < n {
      ReachedIsLargest(links[..n], replays[..n], i);
    }
  }

  /** Whatever the requests bring, wherever they are cut off and however their
      bodies are chunked, the subscription has delivered exactly the first events
      of the log, each once and in order: as many as any request reached, so all
      events of every body that was read whole. */
  lemma DeliversThePrefix(r: Request, circumstances: int -> Circumstance, items: seq<SseTransport.Item>,
                          links: seq<Link>, session: Session, result: SseTransport.Result, replays: seq<Replay>,
                          log: seq<SseMessage>, text: PrintNumber)
    requires Subscribed(r, circumstances, items, links, session, result)
    requires WireLog(log, r.number, text) && ServerKeeps(r, circumstances, links, replays, log, text)
    ensures var d := Reached(links, replays);
            && d <= |log| && Deliveries(items) == log[..d] && Synced(session, log, d, r.cursor, r.capacity)
            && forall i | 0 <= i < |links| ::
                 var whole := ReadWhole(circumstances(links[i].attempt).opening, r.maxBufferBytes);
                 && (links[i].received != [] ==> replays[i].from + |links[i].received| <= d)
                 && (whole && replays[i].from < replays[i].to ==> replays[i].to <= d)
  {
    hide Serves, Brought, After, LinksFollow, Writable, ClosedLog, Deliveries, Settled, Fits, Receive, LastOf,
         ResumeHeader, Supplied;
    LinksDeliver(r, circumstances, links, replays, log, text);
    forall i | 0 <= i < |links|
      ensures var whole := ReadWhole(circumstances(links[i].attempt).opening, r.maxBufferBytes);
              && (links[i].received != [] ==> replays[i].from + |links[i].received| <= Reached(links, replays))
              && (whole && replays[i].from < replays[i].to ==> replays[i].to <= Reached(links, replays))
    {
      var c := circumstances(links[i].attempt);
      if links[i].received != [] {
        ReachedIsLargest(links, replays, i);
      }
      if ReadableBody(c.opening).Some? {
        ReceivedIsReplay(links[i], c.opening, ResumeHeader(r.cursor, Supplied(r, c)), replays[i], log, r, text);
      }
    }
  }

  // --- The trace checker ---

  /** One request as a fixture observes it: the cursor the subscription had, and
      the Last-Event-ID the server got. */
  datatype Connection = Connection(attempt: int, requested: Option<string>, accepted: Option<string>)

  predicate Resumed(c: Connection) { c.requested.Some? ==> c.requested == c.accepted }

  function Highest(connections: seq<Connection>): int {
    if connections == [] then 0 else Max(Highest(connections[..|connections| - 1]),
                                         connections[|connections| - 1].attempt)
  }

  /** inspectSse: whether a reconnect did not resume, whether an id was delivered
      twice, and the attempts counted. */
  method InspectSse(connections: seq<Connection>, deliveredIds: seq<string>)
    returns (notResumed: bool, repeated: bool, attempts: int)
    ensures notResumed <==> exists c :: c in connections && !Resumed(c)
    ensures repeated <==> !Distinct(deliveredIds)
    ensures (forall c | c in connections :: c.attempt <= attempts) && attempts == Highest(connections)
  {
    notResumed, attempts := false, 0;
    for i := 0 to |connections|
      invariant notResumed <==> exists c :: c in connections[..i] && !Resumed(c)
      invariant (forall c | c in connections[..i] :: c.attempt <= attempts) && attempts == Highest(connections[..i])
    {
      assert connections[..i + 1] == connections[..i] + [connections[i]];
      assert connections[i] in connections[..i + 1];
      if connections[i].requested.Some? && connections[i].requested != connections[i].accepted {
        notResumed := true;
      }
      attempts := Max(attempts, connections[i].attempt);
    }
    assert connections[..|connections|] == connections;
    SizeOfSet(deliveredIds);
    repeated := |set id | id in deliveredIds| != |deliveredIds|;
  }

  /** What a fixture records of a subscription's requests. */
  function Observe(r: Request, links: seq<Link>): seq<Connection> {
    seq(|links|, i requires 0 <= i < |links| =>
      var cursor := After(r, links[..i]).cursor;
      Connection(links[i].attempt, if SaysSomething(cursor) then cursor else None, links[i].lastEventId))
  }

  /** The trace of every subscription passes the checker: whatever headers the
      sources supply, the cursor is what goes out on the wire, and no attempt is
      beyond the maximum; and against a server that keeps its log, no id is
      delivered twice. */
  lemma SubscriptionConforms(r: Request, circumstances: int -> Circumstance, items: seq<SseTransport.Item>,
                             links: seq<Link>, session: Session, result: SseTransport.Result)
    requires Subscribed(r, circumstances, items, links, session, result)
    ensures forall c | c in Observe(r, links) :: Resumed(c) && c.attempt <= r.policy.maxAttempts
    ensures forall replays, log, text |
              WireLog(log, r.number, text) && ServerKeeps(r, circumstances, links, replays, log, text) ::
              (forall m | m in Deliveries(items) :: m.id.Some?) && Distinct(Ids(Deliveries(items)))
  {
    hide After, Supplied, Writable, Brought, ClosedLog, Deliveries, Settled, Serves, LastOf, WireLog;
    forall c | c in Observe(r, links) ensures Resumed(c) && c.attempt <= r.policy.maxAttempts {
      var i :| 0 <= i < |links| && Observe(r, links)[i] == c;
    }
    forall replays, log, text | WireLog(log, r.number, text) && ServerKeeps(r, circumstances, links, replays, log, text)
      ensures (forall m | m in Deliveries(items) :: m.id.Some?) && Distinct(Ids(Deliveries(items)))
    {
      DeliversThePrefix(r, circumstances, items, links, session, result, replays, log, text);
      var d := Reached(links, replays);
      LogHasIds(log, r.number, text, d);
    }
  }

  lemma LogHasIds(log: seq<SseMessage>, number: ReadNumber, text: PrintNumber, d: nat)
    requires WireLog(log, number, text) && d <= |log|
    ensures (forall m | m in log[..d] :: m.id.Some?) && Distinct(Ids(log[..d]))
  {
    IdsOfLog(log, d);
  }
}
