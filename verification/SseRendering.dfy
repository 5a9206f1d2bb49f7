/** A server's side of Server-Sent Events: how a well-formed message is written,
    and that the parser reads it back. */
module SseRendering {
  import opened Prelude
  import opened SseBlocks

  /** Text that fits on one line. */
  predicate Clean(line: string) {
    '\n' !in line && (line != [] ==> line[|line| - 1] != '\r')
  }

  predicate NoneEmpty(lines: seq<string>) {
    forall i | 0 <= i < |lines| :: lines[i] != []
  }

  predicate CleanLines(lines: seq<string>) {
    forall line | line in lines :: Clean(line)
  }

  function SplitData(data: string): (lines: seq<string>)
    ensures lines != []
    decreases |data|
  {
    var i := IndexOf(data, '\n');
    if i == |data| then [data] else [data[..i]] + SplitData(data[i + 1..])
  }

  /** String() of a number. */
  type PrintNumber = real -> string

  /** A message whose fields can be written: its texts keep to their lines, and a
      retry delay is a number that is read back as it was printed. */
  predicate Writable(m: SseMessage, number: ReadNumber, text: PrintNumber) {
    && (m.event.Some? ==> Clean(m.event.value))
    && (m.id.Some? ==> Clean(m.id.value))
    && CleanLines(SplitData(m.data))
    && (m.retry.Some? ==> Clean(text(m.retry.value)) && number(text(m.retry.value)) == m.retry)
  }

  function Labelled(name: string, values: seq<string>): seq<string> {
    if values == [] then []
    else Labelled(name, values[..|values| - 1]) + [name + ": " + values[|values| - 1]]
  }

  function Optional(value: Option<string>): seq<string> {
    match value case None => [] case Some(v) => [v]
  }

  function Printed(value: Option<real>, text: PrintNumber): Option<string> {
    match value case None => None case Some(v) => Some(text(v))
  }

  function FieldLines(m: SseMessage, text: PrintNumber): seq<string> {
    Labelled("event", Optional(m.event)) + Labelled("id", Optional(m.id))
        + Labelled("retry", Optional(Printed(m.retry, text)))
    + Labelled("data", SplitData(m.data))
  }

  function Render(m: SseMessage, text: PrintNumber): string { Join(FieldLines(m, text)) + "\n\n" }

  function RenderAll(ms: seq<SseMessage>, text: PrintNumber): string {
    if ms == [] then "" else Render(ms[0], text) + RenderAll(ms[1..], text)
  }

  lemma {:induction false} JoinSplitData(data: string)
    ensures Join(SplitData(data)) == data
    decreases |data|
  {
    var i := IndexOf(data, '\n');
    IndexOfFinds(data, '\n');
    if i < |data| {
      JoinSplitData(data[i + 1..]);
      assert SplitData(data)[1..] == SplitData(data[i + 1..]);
      assert data == data[..i] + "\n" + data[i + 1..];
    }
  }

  /** A clean line is cut off at its line feed. */
  lemma LineCutsOff(line: string, rest: string)
    requires Clean(line)
    ensures SplitLines(line + "\n" + rest) == [line] + SplitLines(rest)
  {
    var s := line + "\n" + rest;
    assert s[..|line|] == line && s[|line|] == '\n' && s[|line| + 1..] == rest;
    IndexOfIsFirst(s, '\n', |line|);
  }

  lemma {:induction false} SplitJoin(lines: seq<string>)
    requires lines != [] && CleanLines(lines)
    ensures SplitLines(Join(lines)) == lines
  {
    var first := lines[0];
    assert Clean(first);
    if |lines| == 1 {
      assert first[..|first|] == first && lines == [first];
      IndexOfIsFirst(first, '\n', |first|);
    } else {
      var rest := lines[1..];
      LineCutsOff(first, Join(rest));
      SplitJoin(rest);
      assert [first] + rest == lines;
    }
  }

  /** Lines that are clean and not empty hide no block boundary. */
  lemma {:induction false} JoinHasNoBoundary(lines: seq<string>, t: string, j: nat)
    requires lines != [] && CleanLines(lines) && NoneEmpty(lines)
    requires j < |Join(lines)|
    ensures !BoundaryAt(Join(lines) + "\n\n" + t, j)
  {
    var first := lines[0];
    var s := Join(lines) + "\n\n" + t;
    assert Clean(first) && first != [];
    assert s[..|first|] == first && s[|first|] == '\n';
    if j < |first| {
      assert s[j] == first[j] && s[j] in first;
      if j + 1 < |first| {
        assert s[j + 1] == first[j + 1] && s[j + 1] in first;
      }
    } else {
      var rest := lines[1..];
      assert s == first + "\n" + (Join(rest) + "\n\n" + t);
      assert Clean(rest[0]) && rest[0] != [] && rest[0][0] in rest[0];
      assert Join(rest)[0] == rest[0][0];
      if j > |first| {
        var k := j - |first| - 1;
        var s' := Join(rest) + "\n\n" + t;
        JoinHasNoBoundary(rest, t, k);
        assert s[|first| + 1..] == s';
        ShiftBoundary(s, |first| + 1, k);
      }
    }
  }

  lemma ShiftBoundary(s: string, n: nat, k: nat)
    requires n <= |s|
    ensures BoundaryAt(s, n + k) == BoundaryAt(s[n..], k)
  {
    if n + k + 4 <= |s| {
      assert s[n..][k] == s[n + k] && s[n..][k + 1] == s[n + k + 1] && s[n..][k + 2] == s[n + k + 2]
             && s[n..][k + 3] == s[n + k + 3];
    } else if n + k + 2 <= |s| {
      assert s[n..][k] == s[n + k] && s[n..][k + 1] == s[n + k + 1];
    }
  }

  // --- Reading the fields back ---

  lemma FieldReadsBack(name: string, value: string)
    requires name != [] && ':' !in name
    ensures ReadField(name + ": " + value) == Some(Field(name, value))
  {
    var line := name + ": " + value;
    assert line[..|name|] == name && line[|name|] == ':';
    IndexOfIsFirst(line, ':', |name|);
    assert line[|name| + 1..] == " " + value;
    assert (" " + value)[1..] == value;
    assert line[0] == name[0] && name[0] in name;
  }

  lemma {:induction false} LabelledValues(name: string, values: seq<string>, other: string)
    requires name != [] && ':' !in name
    ensures Values(Labelled(name, values), other) == if name == other then values else []
  {
    hide ReadField;
    if values != [] {
      var init, last := values[..|values| - 1], values[|values| - 1];
      var lines := Labelled(name, init) + [name + ": " + last];
      LabelledValues(name, init, other);
      FieldReadsBack(name, last);
      assert lines[..|lines| - 1] == Labelled(name, init);
      ValuesUnfolds(lines, other);
      assert init + [last] == values;
    }
  }

  lemma ValuesUnfolds(lines: seq<string>, name: string)
    requires lines != []
    ensures var last := ReadField(lines[|lines| - 1]);
            Values(lines, name) ==
            Values(lines[..|lines| - 1], name) + if last.Some? && last.value.name == name then [last.value.value]
                else []
  {
  }

  lemma {:induction false} ValuesAppend(a: seq<string>, b: seq<string>, name: string)
    ensures Values(a + b, name) == Values(a, name) + Values(b, name)
  {
    hide ReadField;
    if b == [] {
      assert a + b == a;
    } else {
      var init, ab := b[..|b| - 1], a + b;
      ValuesAppend(a, init, name);
      assert ab[..|ab| - 1] == a + init && ab[|ab| - 1] == b[|b| - 1];
      ValuesUnfolds(ab, name);
      ValuesUnfolds(b, name);
    }
  }

  lemma FieldLinesValues(m: SseMessage, text: PrintNumber, name: string)
    ensures Values(FieldLines(m, text), name) ==
            (if name == "event" then Optional(m.event) else []) +
            (if name == "id" then Optional(m.id) else []) +
            (if name == "retry" then Optional(Printed(m.retry, text)) else []) +
            (if name == "data" then SplitData(m.data) else [])
  {
    hide Values, Labelled, SplitData, Optional, Printed;
    var e, i, d := Labelled("event", Optional(m.event)), Labelled("id", Optional(m.id)),
        Labelled("data", SplitData(m.data));
    var r := Labelled("retry", Optional(Printed(m.retry, text)));
    ValuesAppend(e + i + r, d, name);
    ValuesAppend(e + i, r, name);
    ValuesAppend(e, i, name);
    LabelledValues("event", Optional(m.event), name);
    LabelledValues("id", Optional(m.id), name);
    LabelledValues("retry", Optional(Printed(m.retry, text)), name);
    LabelledValues("data", SplitData(m.data), name);
  }

  /** The one field of a name, among empty lists. */
  lemma OnlyOne<T>(a: seq<T>)
    ensures a + [] + [] + [] == a && [] + a + [] + [] == a && [] + [] + a + [] == a && [] + [] + [] + a == a
  {
  }

  lemma OneFieldValues(m: SseMessage, text: PrintNumber)
    ensures Values(FieldLines(m, text), "event") == Optional(m.event)
            && Values(FieldLines(m, text), "id") == Optional(m.id)
    ensures Values(FieldLines(m, text), "retry") == Optional(Printed(m.retry, text))
    ensures Values(FieldLines(m, text), "data") == SplitData(m.data)
  {
    hide Values, FieldLines, SplitData, Optional, Printed;
    FieldLinesValues(m, text, "event");
    FieldLinesValues(m, text, "id");
    FieldLinesValues(m, text, "retry");
    FieldLinesValues(m, text, "data");
    OnlyOne(Optional(m.event));
    OnlyOne(Optional(m.id));
    OnlyOne(Optional(Printed(m.retry, text)));
    OnlyOne(SplitData(m.data));
  }

  lemma {:induction false} LabelledIsClean(name: string, values: seq<string>)
    requires Clean(name) && CleanLines(values)
    ensures CleanLines(Labelled(name, values))
    ensures NoneEmpty(Labelled(name, values))
  {
    if values != [] {
      LabelledIsClean(name, values[..|values| - 1]);
      var last := values[|values| - 1];
      assert Clean(last);
    }
  }

  lemma FieldLinesAreClean(m: SseMessage, number: ReadNumber, text: PrintNumber)
    requires Writable(m, number, text)
    ensures FieldLines(m, text) != [] && CleanLines(FieldLines(m, text)) && NoneEmpty(FieldLines(m, text))
  {
    LabelledIsClean("event", Optional(m.event));
    LabelledIsClean("id", Optional(m.id));
    LabelledIsClean("retry", Optional(Printed(m.retry, text)));
    LabelledIsClean("data", SplitData(m.data));
  }

  lemma LastOfOptional(value: Option<string>)
    ensures Last(Optional(value)) == value
  {
  }

  lemma LastPrinted(value: Option<real>, number: ReadNumber, text: PrintNumber)
    requires value.Some? ==> number(text(value.value)) == value
    ensures LastNumber(Optional(Printed(value, text)), number) == value
  {
    NoValues(number);
    if value.Some? {
      LastNumberSnoc([], text(value.value), number);
      assert [] + [text(value.value)] == Optional(Printed(value, text));
    }
  }

  /** The parser reads a written message back, field for field. */
  lemma BlockReadsBack(m: SseMessage, number: ReadNumber, text: PrintNumber)
    requires Writable(m, number, text)
    ensures ReadBlock(Join(FieldLines(m, text)), number) == Some(m)
  {
    FieldLinesAreClean(m, number, text);
    LastPrinted(m.retry, number, text);
    hide SplitLines, Values, FieldLines, SplitData, Optional, Last, LastNumber, Join, CleanLines, NoneEmpty;
    SplitJoin(FieldLines(m, text));
    OneFieldValues(m, text);
    JoinSplitData(m.data);
    LastOfOptional(m.event);
    LastOfOptional(m.id);
  }

  lemma RenderedBlockIsNext(m: SseMessage, t: string, number: ReadNumber, text: PrintNumber)
    requires Writable(m, number, text)
    ensures TakeNext(Render(m, text) + t) == Some(Split(Join(FieldLines(m, text)), t))
  {
    FieldLinesAreClean(m, number, text);
    hide FieldLines, Join, CleanLines, NoneEmpty, TakeNext;
    var block := Join(FieldLines(m, text));
    var s := block + "\n\n" + t;
    forall j: nat | j < |block| ensures !BoundaryAt(s, j) {
      JoinHasNoBoundary(FieldLines(m, text), t, j);
    }
    assert s[..|block|] == block && s[|block| + 2..] == t;
    TakeNextIs(s, |block|, LfLf);
  }

  /** Whole messages, written one after the other, drain to exactly those
      messages with nothing left over. */
  lemma {:induction false} RenderedDrains(done: seq<string>, ms: seq<SseMessage>, number: ReadNumber, text: PrintNumber)
    requires forall m | m in ms :: Writable(m, number, text)
    ensures Drain(done, RenderAll(ms, text)).rest == ""
    ensures Messages(Drain(done, RenderAll(ms, text)).blocks, number) == Messages(done, number) + ms
    decreases |ms|
  {
    hide Writable, Render, FieldLines, Join, ReadBlock, TakeNext, Drain, Messages;
    if ms == [] {
      NothingToTake();
      DrainUnfolds(done, "");
      assert Messages(done, number) + [] == Messages(done, number);
    } else {
      var m, rest := ms[0], RenderAll(ms[1..], text);
      var block := Join(FieldLines(m, text));
      RenderedBlockIsNext(m, rest, number, text);
      DrainUnfolds(done, Render(m, text) + rest);
      RenderedDrains(done + [block], ms[1..], number, text);
      MessagesSnoc(done, block, number);
      BlockReadsBack(m, number, text);
      assert Messages(done, number) + [m] + ms[1..] == Messages(done, number) + ms;
    }
  }

  lemma NothingToTake()
    ensures TakeNext("").None?
  {
  }
}
