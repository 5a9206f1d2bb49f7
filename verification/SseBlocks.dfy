/** Server-Sent Events text: blocks, their boundaries and their fields. Differs
    on purpose from section 9.2.6 of the WHATWG HTML standard: a bare CR ends
    no line. */
module SseBlocks {
  import opened Prelude

  datatype SseMessage = SseMessage(data: string, event: Option<string>, id: Option<string>, retry: Option<real>)

  // --- Boundaries ---

  datatype Separator = LfLf | CrlfCrlf {
    function Size(): nat { if LfLf? then 2 else 4 }
  }

  predicate SeparatorAt(s: string, kind: Separator, k: nat) {
    match kind
    case LfLf => k + 2 <= |s| && s[k] == '\n' && s[k + 1] == '\n'
    case CrlfCrlf => k + 4 <= |s| && s[k] == '\r' && s[k + 1] == '\n' && s[k + 2] == '\r' && s[k + 3] == '\n'
  }

  /** Where the first separator of this kind from k on starts, or |s|. */
  function FirstFrom(s: string, kind: Separator, k: nat): (i: nat)
    requires k <= |s|
    ensures k <= i <= |s|
    ensures i < |s| ==> SeparatorAt(s, kind, i)
    ensures forall j: nat | k <= j < i :: !SeparatorAt(s, kind, j)
    decreases |s| - k
  {
    if k == |s| || SeparatorAt(s, kind, k) then k else FirstFrom(s, kind, k + 1)
  }

  datatype Split = Split(block: string, rest: string)

  /** Cuts off the block before the earliest boundary of either kind. */
  function TakeNext(buffer: string): (r: Option<Split>)
    ensures r.Some? ==> |r.value.rest| < |buffer|
  {
    var lf := FirstFrom(buffer, LfLf, 0);
    var crlf := FirstFrom(buffer, CrlfCrlf, 0);
    if lf == |buffer| && crlf == |buffer| then None
    else if crlf < |buffer| && (lf == |buffer| || crlf < lf) then Some(Split(buffer[..crlf], buffer[crlf + 4..]))
    else Some(Split(buffer[..lf], buffer[lf + 2..]))
  }

  ghost predicate BoundaryAt(s: string, k: nat) {
    SeparatorAt(s, LfLf, k) || SeparatorAt(s, CrlfCrlf, k)
  }

  lemma TakeNextIs(s: string, k: nat, kind: Separator)
    requires SeparatorAt(s, kind, k)
    requires forall j: nat | j < k :: !BoundaryAt(s, j)
    ensures TakeNext(s) == Some(Split(s[..k], s[k + kind.Size()..]))
  {
    var lf, crlf := FirstFrom(s, LfLf, 0), FirstFrom(s, CrlfCrlf, 0);
    if lf < k {
      assert BoundaryAt(s, lf);
    }
    if crlf < k {
      assert BoundaryAt(s, crlf);
    }
  }

  lemma NoBoundary(s: string)
    requires forall j: nat | j < |s| :: !BoundaryAt(s, j)
    ensures TakeNext(s).None?
  {
    var lf, crlf := FirstFrom(s, LfLf, 0), FirstFrom(s, CrlfCrlf, 0);
    assert lf < |s| ==> BoundaryAt(s, lf);
    assert crlf < |s| ==> BoundaryAt(s, crlf);
  }

  /** What TakeNext finds: a separator with no boundary before it. */
  lemma TakeNextFinds(s: string) returns (k: nat, kind: Separator)
    requires TakeNext(s).Some?
    ensures SeparatorAt(s, kind, k)
    ensures forall j: nat | j < k :: !BoundaryAt(s, j)
    ensures TakeNext(s).value == Split(s[..k], s[k + kind.Size()..])
  {
    var lf, crlf := FirstFrom(s, LfLf, 0), FirstFrom(s, CrlfCrlf, 0);
    if crlf < |s| && (lf == |s| || crlf < lf) {
      k, kind := crlf, CrlfCrlf;
    } else {
      k, kind := lf, LfLf;
    }
  }

  lemma NothingFound(s: string, j: nat)
    requires TakeNext(s).None?
    ensures !BoundaryAt(s, j)
  {
    assert FirstFrom(s, LfLf, 0) == |s| == FirstFrom(s, CrlfCrlf, 0);
  }

  lemma BoundaryAppend(s: string, t: string, j: nat, kind: Separator)
    ensures SeparatorAt(s, kind, j) ==> SeparatorAt(s + t, kind, j)
    ensures j + kind.Size() <= |s| ==> SeparatorAt(s + t, kind, j) == SeparatorAt(s, kind, j)
  {
  }

  /** More text never moves a boundary already found: a CR LF CR LF that starts
      earlier but ends later would overlap it, and cannot. */
  lemma TakeNextStable(s: string, t: string)
    requires TakeNext(s).Some?
    ensures TakeNext(s + t) == Some(Split(TakeNext(s).value.block, TakeNext(s).value.rest + t))
  {
    var k, kind := TakeNextFinds(s);
    BoundaryAppend(s, t, k, kind);
    forall j: nat | j < k ensures !BoundaryAt(s + t, j) {
      assert !BoundaryAt(s, j);
      BoundaryAppend(s, t, j, LfLf);
      BoundaryAppend(s, t, j, CrlfCrlf);
    }
    TakeNextIs(s + t, k, kind);
    assert (s + t)[..k] == s[..k] && (s + t)[k + kind.Size()..] == s[k + kind.Size()..] + t;
  }

  // --- Draining ---

  datatype Drained = Drained(blocks: seq<string>, rest: string)

  /** Every complete block of the text, added to those already `done`, and the
      text left over. */
  function Drain(done: seq<string>, s: string): Drained
    decreases |s|
  {
    match TakeNext(s)
    case None => Drained(done, s)
    case Some(next) => Drain(done + [next.block], next.rest)
  }

  lemma DrainUnfolds(done: seq<string>, s: string)
    ensures Drain(done, s) == match TakeNext(s)
                              case None => Drained(done, s)
                              case Some(next) => Drain(done + [next.block], next.rest)
  {
  }

  lemma {:induction false} DrainResumes(done: seq<string>, s: string, t: string)
    ensures Drain(done, s + t) == Drain(Drain(done, s).blocks, Drain(done, s).rest + t)
    decreases |s|
  {
    if TakeNext(s).Some? {
      var next := TakeNext(s).value;
      TakeNextStable(s, t);
      DrainResumes(done + [next.block], next.rest, t);
    }
  }

  lemma {:induction false} DrainKeeps(done: seq<string>, s: string)
    ensures done <= Drain(done, s).blocks
    ensures TakeNext(Drain(done, s).rest).None?
    decreases |s|
  {
    if TakeNext(s).Some? {
      DrainKeeps(done + [TakeNext(s).value.block], TakeNext(s).value.rest);
    }
  }

  // --- Fields ---

  function DropCR(line: string): string {
    if line != [] && line[|line| - 1] == '\r' then line[..|line| - 1] else line
  }

  /** Lines end at LF or CR LF; the last one need not end at all. */
  function SplitLines(s: string): (lines: seq<string>)
    ensures lines != []
    decreases |s|
  {
    var i := IndexOf(s, '\n');
    if i == |s| then [s] else [DropCR(s[..i])] + SplitLines(s[i + 1..])
  }

  datatype Field = Field(name: string, value: string)

  /** A line's field; None for a blank line or a comment. */
  function ReadField(line: string): Option<Field> {
    if line == [] || line[0] == ':' then None
    else
      var i := IndexOf(line, ':');
      var raw := if i < |line| then line[i + 1..] else "";
      Some(Field(line[..i], if raw != [] && raw[0] == ' ' then raw[1..] else raw))
  }

  /** The values given to a field, in order. */
  function Values(lines: seq<string>, name: string): seq<string> {
    if lines == [] then []
    else
      var last := ReadField(lines[|lines| - 1]);
      Values(lines[..|lines| - 1], name) + if last.Some? && last.value.name == name then [last.value.value] else []
  }

  lemma ValuesSnoc(lines: seq<string>, i: nat, name: string)
    requires i < |lines|
    ensures var field := ReadField(lines[i]);
            Values(lines[..i + 1], name) ==
            if field.Some? && field.value.name == name then Values(lines[..i], name) + [field.value.value]
            else Values(lines[..i], name)
  {
    assert lines[..i + 1][..i] == lines[..i];
  }

  function Join(parts: seq<string>): string {
    if parts == [] then ""
    else if |parts| == 1 then parts[0]
    else parts[0] + "\n" + Join(parts[1..])
  }

  function Last<T>(s: seq<T>): Option<T> {
    if s == [] then None else Some(s[|s| - 1])
  }

  /** Number() of a text, when it is finite. */
  type ReadNumber = string -> Option<real>

  /** The last value that is a finite number. */
  function LastNumber(values: seq<string>, number: ReadNumber): Option<real> {
    if values == [] then None
    else if number(values[|values| - 1]).Some? then number(values[|values| - 1])
    else LastNumber(values[..|values| - 1], number)
  }

  lemma LastNumberSnoc(values: seq<string>, value: string, number: ReadNumber)
    ensures LastNumber(values + [value], number) == if number(value).Some? then number(value)
            else LastNumber(values, number)
  {
    assert (values + [value])[..|values|] == values;
  }

  lemma NoValues(number: ReadNumber)
    ensures LastNumber([], number) == None && forall name :: Values([], name) == []
  {
  }

  /** A block's meaning: all data lines joined, and the last value of each other
      field. A block without data is no message. */
  function ReadBlock(block: string, number: ReadNumber): Option<SseMessage> {
    var lines := SplitLines(block);
    var data := Values(lines, "data");
    if data == [] then None
    else Some(SseMessage(Join(data), Last(Values(lines, "event")), Last(Values(lines, "id")),
                         LastNumber(Values(lines, "retry"), number)))
  }

  method ParseSseBlock(block: string, number: ReadNumber) returns (message: Option<SseMessage>)
    ensures message == ReadBlock(block, number)
  {
    hide Values, LastNumber, ReadField, SplitLines;
    var lines := SplitLines(block);
    NoValues(number);
    var data: seq<string> := [];
    var event: Option<string>, id: Option<string>, retry: Option<real> := None, None, None;
    for i := 0 to |lines|
      invariant data == Values(lines[..i], "data")
      invariant event == Last(Values(lines[..i], "event"))
      invariant id == Last(Values(lines[..i], "id"))
      invariant retry == LastNumber(Values(lines[..i], "retry"), number)
    {
      ValuesSnoc(lines, i, "data");
      ValuesSnoc(lines, i, "event");
      ValuesSnoc(lines, i, "id");
      ValuesSnoc(lines, i, "retry");
      var field := ReadField(lines[i]);
      if field.None? {
        continue;
      }
      var name, value := field.value.name, field.value.value;
      if name == "data" {
        data := data + [value];
      } else if name == "event" {
        event := Some(value);
      } else if name == "id" {
        id := Some(value);
      } else if name == "retry" {
        var parsed := number(value);
        LastNumberSnoc(Values(lines[..i], "retry"), value, number);
        if parsed.Some? {
          retry := parsed;
        }
      }
    }
    assert lines[..|lines|] == lines;
    return if data == [] then None else Some(SseMessage(Join(data), event, id, retry));
  }

  /** A block's message, if it is one. */
  function MessageOf(block: string, number: ReadNumber): seq<SseMessage> {
    match ReadBlock(block, number) case None => [] case Some(m) => [m]
  }

  function Messages(blocks: seq<string>, number: ReadNumber): seq<SseMessage> {
    if blocks == [] then []
    else Messages(blocks[..|blocks| - 1], number) + MessageOf(blocks[|blocks| - 1], number)
  }

  method DrainSseMessages(buffer: string, number: ReadNumber) returns (messages: seq<SseMessage>, rest: string)
    ensures messages == Messages(Drain([], buffer).blocks, number)
    ensures rest == Drain([], buffer).rest
  {
    messages, rest := [], buffer;
    ghost var blocks: seq<string> := [];
    var next := TakeNext(rest);
    while next.Some?
      invariant next == TakeNext(rest)
      invariant messages == Messages(blocks, number)
      invariant Drain(blocks, rest) == Drain([], buffer)
      decreases |rest|
    {
      rest := next.value.rest;
      var message := ParseSseBlock(next.value.block, number);
      MessagesSnoc(blocks, next.value.block, number);
      blocks := blocks + [next.value.block];
      if message.Some? {
        messages := messages + [message.value];
      }
      next := TakeNext(rest);
    }
  }

  lemma MessagesSnoc(blocks: seq<string>, block: string, number: ReadNumber)
    ensures Messages(blocks + [block], number) == Messages(blocks, number) + MessageOf(block, number)
  {
    assert (blocks + [block])[..|blocks|] == blocks;
  }

  lemma {:induction false} MessagesPrefix(a: seq<string>, b: seq<string>, number: ReadNumber)
    requires a <= b
    ensures Messages(a, number) <= Messages(b, number)
  {
    if |a| < |b| {
      assert a <= b[..|b| - 1];
      MessagesPrefix(a, b[..|b| - 1], number);
    } else {
      assert a == b;
    }
  }
}
