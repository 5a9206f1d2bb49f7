/** Every way a block's lines can be written, and what the parser makes of them. */
module SseForms {
  import opened Prelude
  import opened SseBlocks
  import opened SseStream
  import R = SseRendering

  /** A line of a block: a field with a space behind its colon, or without one, or
      without a colon; a comment; or nothing. */
  datatype Form = Spaced(name: string, value: string) | Tight(name: string, value: string) | Bare(name: string)
                | Comment(text: string) | Blank {
    function Text(): string {
      match this
      case Spaced(name, value) => name + ": " + value
      case Tight(name, value) => name + ":" + value
      case Bare(name) => name
      case Comment(text) => ":" + text
      case Blank => ""
    }

    /** It keeps to one line; a value behind a bare colon does not begin with a space. */
    predicate OneLine() {
      && '\n' !in Text()
      && (Spaced? || Tight? || Bare? ==> name != "" && ':' !in name)
      && (Tight? ==> value == "" || value[0] != ' ')
    }
  }

  datatype Ending = Lf | CrLf {
    function Text(): string { if Lf? then "\n" else "\r\n" }
  }

  /** A line with its ending: a carriage return before a bare line feed would be part
      of the ending. */
  datatype Line = Line(form: Form, ending: Ending) {
    predicate Valid() {
      form.OneLine() && (ending.Lf? && form.Text() != "" ==> form.Text()[|form.Text()| - 1] != '\r')
    }
  }

  /** Lines with their endings, and a last one without. */
  function Block(lines: seq<Line>, last: Form): string {
    if lines == [] then last.Text() else lines[0].form.Text() + lines[0].ending.Text() + Block(lines[1..], last)
  }

  function Texts(lines: seq<Line>, last: Form): seq<string> {
    if lines == [] then [last.Text()] else [lines[0].form.Text()] + Texts(lines[1..], last)
  }

  function Forms(lines: seq<Line>, last: Form): seq<Form> {
    if lines == [] then [last] else [lines[0].form] + Forms(lines[1..], last)
  }

  /** The values given to a field, in order; one without a colon gives "". */
  function Given(forms: seq<Form>, name: string): seq<string> {
    if forms == [] then []
    else
      (match forms[0]
       case Spaced(n, value) => if n == name then [value] else []
       case Tight(n, value) => if n == name then [value] else []
       case Bare(n) => if n == name then [""] else []
       case _ => []) + Given(forms[1..], name)
  }

  lemma {:induction false} BlockSplits(lines: seq<Line>, last: Form)
    requires last.OneLine() && forall line | line in lines :: line.Valid()
    ensures SplitLines(Block(lines, last)) == Texts(lines, last)
  {
    if lines == [] {
      var s := last.Text();
      assert s[..|s|] == s;
      IndexOfIsFirst(s, '\n', |s|);
    } else {
      var line, rest := lines[0], Block(lines[1..], last);
      assert line in lines && line.Valid();
      BlockSplits(lines[1..], last);
      LineSplits(line, rest);
    }
  }

  lemma LineSplits(line: Line, rest: string)
    requires line.Valid()
    ensures SplitLines(line.form.Text() + line.ending.Text() + rest) == [line.form.Text()] + SplitLines(rest)
  {
    var text := line.form.Text();
    var raw := if line.ending.Lf? then text else text + "\r";
    var s := text + line.ending.Text() + rest;
    assert s == raw + "\n" + rest;
    assert s[..|raw|] == raw && s[|raw|] == '\n' && s[|raw| + 1..] == rest;
    assert '\n' !in raw;
    IndexOfIsFirst(s, '\n', |raw|);
    assert DropCR(raw) == text;
  }

  lemma FormReads(form: Form)
    requires form.OneLine()
    ensures ReadField(form.Text()) ==
            match form
            case Spaced(name, value) => Some(Field(name, value))
            case Tight(name, value) => Some(Field(name, value))
            case Bare(name) => Some(Field(name, ""))
            case _ => None
  {
    match form
    case Spaced(name, value) => R.FieldReadsBack(name, value);
    case Tight(name, value) =>
      var line := form.Text();
      assert line[..|name|] == name && line[|name|] == ':' && line[|name| + 1..] == value;
      assert line[0] == name[0] && name[0] in name;
      IndexOfIsFirst(line, ':', |name|);
    case Bare(name) =>
      assert name[..|name|] == name && name[0] in name;
      IndexOfIsFirst(name, ':', |name|);
    case _ =>
  }

  lemma {:induction false} TextsGive(lines: seq<Line>, last: Form, name: string)
    requires last.OneLine() && forall line | line in lines :: line.Valid()
    ensures Values(Texts(lines, last), name) == Given(Forms(lines, last), name)
  {
    hide Values, Given;
    if lines == [] {
      OneTextGives(last, name);
    } else {
      var form := lines[0].form;
      assert lines[0] in lines && lines[0].Valid();
      TextsGive(lines[1..], last, name);
      OneTextGives(form, name);
      R.ValuesAppend([form.Text()], Texts(lines[1..], last), name);
      GivenCons(form, Forms(lines[1..], last), name);
    }
  }

  lemma GivenCons(form: Form, rest: seq<Form>, name: string)
    ensures Given([form] + rest, name) == Given([form], name) + Given(rest, name)
  {
    assert ([form] + rest)[1..] == rest && [form][1..] == [];
  }

  lemma OneTextGives(form: Form, name: string)
    requires form.OneLine()
    ensures Values([form.Text()], name) == Given([form], name)
  {
    FormReads(form);
    assert [form.Text()][..0] == [] && [form][1..] == [];
    R.ValuesUnfolds([form.Text()], name);
  }

  // --- The message ---

  /** The number given last, among those that are numbers. */
  ghost predicate IsLastNumber(values: seq<string>, number: ReadNumber, retry: Option<real>) {
    if retry.None? then forall i | 0 <= i < |values| :: number(values[i]).None?
    else exists k :: 0 <= k < |values| && number(values[k]) == retry
                     && forall i | k < i < |values| :: number(values[i]).None?
  }

  lemma {:induction false} LastNumberIs(values: seq<string>, number: ReadNumber)
    ensures IsLastNumber(values, number, LastNumber(values, number))
  {
    if values != [] {
      var init, n := values[..|values| - 1], |values| - 1;
      LastNumberIs(init, number);
      if number(values[n]).Some? {
        assert number(values[n]) == LastNumber(values, number);
      } else {
        NotANumber(init, values[n], number, LastNumber(init, number));
        assert init + [values[n]] == values;
      }
    }
  }

  lemma NotANumber(values: seq<string>, value: string, number: ReadNumber, retry: Option<real>)
    requires IsLastNumber(values, number, retry) && number(value).None?
    ensures IsLastNumber(values + [value], number, retry)
  {
    var all := values + [value];
    if retry.Some? {
      var k :| 0 <= k < |values| && number(values[k]) == retry
               && forall i | k < i < |values| :: number(values[i]).None?;
      assert number(all[k]) == retry;
      forall i | k < i < |all| ensures number(all[i]).None? {
        assert i < |values| ==> all[i] == values[i];
      }
    }
  }

  lemma {:induction false} JoinKeepsLines(lines: seq<string>)
    requires lines != [] && forall line | line in lines :: '\n' !in line
    ensures R.SplitData(Join(lines)) == lines
  {
    var first := lines[0];
    if |lines| == 1 {
      assert first[..|first|] == first;
      IndexOfIsFirst(first, '\n', |first|);
    } else {
      var s := Join(lines);
      assert s == first + "\n" + Join(lines[1..]);
      assert s[..|first|] == first && s[|first|] == '\n' && s[|first| + 1..] == Join(lines[1..]);
      IndexOfIsFirst(s, '\n', |first|);
      JoinKeepsLines(lines[1..]);
    }
  }

  lemma {:induction false} GivenOnOneLine(forms: seq<Form>, name: string)
    requires forall form | form in forms :: form.OneLine()
    ensures forall value | value in Given(forms, name) :: '\n' !in value
  {
    if forms != [] {
      assert forms[0] in forms && forms[0].OneLine();
      ValueOnOneLine(forms[0]);
      assert forall form | form in forms[1..] :: form in forms;
      GivenOnOneLine(forms[1..], name);
    }
  }

  lemma ValueOnOneLine(form: Form)
    requires form.OneLine()
    ensures form.Spaced? || form.Tight? ==> '\n' !in form.value
  {
    if form.Spaced? || form.Tight? {
      forall i | 0 <= i < |form.value| ensures form.value[i] != '\n' {
        assert form.Text()[|form.Text()| - |form.value| + i] == form.value[i];
      }
    }
  }

  lemma {:induction false} FormsOnOneLine(lines: seq<Line>, last: Form)
    requires last.OneLine() && forall line | line in lines :: line.Valid()
    ensures forall form | form in Forms(lines, last) :: form.OneLine()
  {
    if lines != [] {
      assert lines[0] in lines && lines[0].Valid();
      FormsOnOneLine(lines[1..], last);
    }
  }

  /** A block written in any mixture of forms and line endings is a message exactly
      if some data is given; then its data has the values given as its lines, its
      event and id are those given last, and its retry is the number given last. */
  lemma BlockMeans(lines: seq<Line>, last: Form, number: ReadNumber)
    requires last.OneLine() && forall line | line in lines :: line.Valid()
    ensures var forms, message := Forms(lines, last), ReadBlock(Block(lines, last), number);
            && (message.None? <==> Given(forms, "data") == [])
            && (message.Some? ==>
                var events, ids := Given(forms, "event"), Given(forms, "id");
                && R.SplitData(message.value.data) == Given(forms, "data")
                && message.value.event == (if events == [] then None else Some(events[|events| - 1]))
                && message.value.id == (if ids == [] then None else Some(ids[|ids| - 1]))
                && IsLastNumber(Given(forms, "retry"), number, message.value.retry))
  {
    hide Forms, Block, Given, Texts, SplitLines, Values, LastNumber, Join, IsLastNumber;
    var forms := Forms(lines, last);
    BlockSplits(lines, last);
    TextsGive(lines, last, "data");
    TextsGive(lines, last, "event");
    TextsGive(lines, last, "id");
    TextsGive(lines, last, "retry");
    FormsOnOneLine(lines, last);
    GivenOnOneLine(forms, "data");
    LastNumberIs(Given(forms, "retry"), number);
    if Given(forms, "data") != [] {
      JoinKeepsLines(Given(forms, "data"));
    }
  }

  // --- The body ---

  /** A block that is cut off whole: no separator begins before its own. */
  ghost predicate CutsOff(block: string, kind: Separator) {
    forall j: nat | j < |block| :: !BoundaryAt(block + Text(kind), j)
  }

  /** Blocks with their separators, and text behind the last. */
  function Body(blocks: seq<string>, kinds: seq<Separator>, last: string): string
    requires |kinds| == |blocks|
  {
    if blocks == [] then last else blocks[0] + Text(kinds[0]) + Body(blocks[1..], kinds[1..], last)
  }

  /** What the blocks mean, one after the other. */
  function MessagesIn(blocks: seq<string>, number: ReadNumber): seq<SseMessage> {
    if blocks == [] then []
    else
      var first := ReadBlock(blocks[0], number);
      (if first.Some? then [first.value] else []) + MessagesIn(blocks[1..], number)
  }

  lemma BlockCutsOff(block: string, kind: Separator, rest: string)
    requires CutsOff(block, kind)
    ensures TakeNext(block + Text(kind) + rest) == Some(Split(block, rest))
  {
    var s := block + Text(kind);
    assert s[|block|..] == Text(kind) && s[..|block|] == block;
    assert SeparatorAt(s, kind, |block|);
    TakeNextIs(s, |block|, kind);
    assert s[|block| + kind.Size()..] == "";
    TakeNextStable(s, rest);
    NothingBefore(rest);
  }

  lemma {:induction false} MessagesCons(block: string, blocks: seq<string>, number: ReadNumber)
    ensures Messages([block] + blocks, number) == MessageOf(block, number) + Messages(blocks, number)
  {
    hide ReadBlock;
    if blocks == [] {
      assert [block] + [] == [block] && [block][..0] == [];
      assert MessageOf(block, number) + [] == MessageOf(block, number);
    } else {
      var init, last := blocks[..|blocks| - 1], blocks[|blocks| - 1];
      var all := [block] + blocks;
      assert all[..|all| - 1] == [block] + init && all[|all| - 1] == last;
      MessagesCons(block, init, number);
      Associates(MessageOf(block, number), Messages(init, number), MessageOf(last, number));
    }
  }

  /** A body means the messages of its blocks in order, and that of the text behind
      the last one, which needs no separator. */
  lemma {:induction false} BodyMeans(blocks: seq<string>, kinds: seq<Separator>, last: string, number: ReadNumber)
    requires |kinds| == |blocks| && forall i | 0 <= i < |blocks| :: CutsOff(blocks[i], kinds[i])
    requires forall j: nat | j < |last| :: !BoundaryAt(last, j)
    ensures Meaning(Body(blocks, kinds, last), number) == MessagesIn(blocks + [last], number)
  {
    hide Drain, Messages, ReadBlock, TakeNext, CutsOff;
    if blocks == [] {
      NoBoundary(last);
      DrainUnfolds([], last);
      NoValuesYet(number);
      assert [] + [last] == [last] && [last][1..] == [];
      NothingBefore(MessageOf(last, number));
      assert MessageOf(last, number) + [] == MessageOf(last, number);
    } else {
      var rest := Body(blocks[1..], kinds[1..], last);
      var all := Body(blocks, kinds, last);
      BlockCutsOff(blocks[0], kinds[0], rest);
      DrainUnfolds([], all);
      NothingBefore([blocks[0]]);
      DrainAdds([blocks[0]], rest);
      MessagesCons(blocks[0], Drain([], rest).blocks, number);
      BodyMeans(blocks[1..], kinds[1..], last, number);
      assert (blocks + [last])[1..] == blocks[1..] + [last];
      Associates(MessageOf(blocks[0], number), Messages(Drain([], rest).blocks, number),
                 MessageOf(Drain([], rest).rest, number));
    }
  }

  lemma NoValuesYet(number: ReadNumber)
    ensures Messages([], number) == []
  {
  }
}
