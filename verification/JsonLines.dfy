/** The JSON Lines codec: one JSON text per line. */
module JsonLines {
  import opened Prelude
  import opened Framing
  import opened FrameBuffers

  function DropCR(line: seq<Byte>): seq<Byte> {
    if line != [] && line[|line| - 1] == CR then line[..|line| - 1] else line
  }

  datatype Line<V> = TooLong | Blank | Malformed | Value(value: V)

  function ReadLine<V>(raw: seq<Byte>, max: nat, json: Json<V>): Line<V> {
    var line := DropCR(raw);
    if |line| > max then TooLong
    else if line == [] then Blank
    else match json.Parse(line) case None => Malformed case Some(v) => Value(v)
  }

  /** The whole-input meaning: split at LF, drop one trailing CR, skip blank
      lines, hold every line (and the unfinished one) to the size limit. The
      values found are added to those already `done`. */
  function Decode<V>(done: seq<V>, s: seq<Byte>, max: nat, json: Json<V>): Decoding<V>
    decreases |s|
  {
    var i := IndexOf(s, LF);
    var line := ReadLine(s[..i], max, json);
    if line.TooLong? then Rejected
    else if i == |s| then Accepted(done, s)
    else if line.Blank? then Decode(done, s[i + 1..], max, json)
    else if line.Value? then Decode(done + [line.value], s[i + 1..], max, json)
    else Rejected
  }

  /** The definition, for proofs that keep Decode folded. */
  lemma DecodeUnfolds<V>(done: seq<V>, s: seq<Byte>, i: nat, max: nat, json: Json<V>)
    requires i == IndexOf(s, LF)
    ensures var line := ReadLine(s[..i], max, json);
            Decode(done, s, max, json) ==
            if line.TooLong? then Rejected
            else if i == |s| then Accepted(done, s)
            else if line.Blank? then Decode(done, s[i + 1..], max, json)
            else if line.Value? then Decode(done + [line.value], s[i + 1..], max, json)
            else Rejected
  {
  }

  lemma IndexOfAppend(s: seq<Byte>, t: seq<Byte>)
    ensures IndexOf(s + t, LF) == if IndexOf(s, LF) < |s| then IndexOf(s, LF) else |s| + IndexOf(t, LF)
  {
    IndexOfFinds(s, LF);
    IndexOfFinds(t, LF);
    var i, j := IndexOf(s, LF), IndexOf(t, LF);
    if i < |s| {
      assert (s + t)[..i] == s[..i];
      IndexOfIsFirst(s + t, LF, i);
    } else {
      assert (s + t)[..|s| + j] == s[..i] + t[..j];
      IndexOfIsFirst(s + t, LF, |s| + j);
    }
  }

  /** One turn of the decoder's loop, on values: the held bytes and the input up
      to its first LF make up the next line. */
  lemma NextLine<V>(done: seq<V>, held: seq<Byte>, input: seq<Byte>, end: nat, max: nat, json: Json<V>)
    requires LF !in held && end == IndexOf(input, LF)
    ensures var line := ReadLine(held + input[..end], max, json);
            Decode(done, held + input, max, json) ==
            if line.TooLong? then Rejected
            else if end == |input| then Accepted(done, held + input[..end])
            else if line.Blank? then Decode(done, input[end + 1..], max, json)
            else if line.Value? then Decode(done + [line.value], input[end + 1..], max, json)
            else Rejected
  {
    hide Decode, ReadLine;
    IndexOfFinds(held, LF);
    assert held[..|held|] == held;
    IndexOfAppend(held, input);
    DecodeUnfolds(done, held + input, |held| + end, max, json);
    assert (held + input)[..|held| + end] == held + input[..end];
    if end < |input| {
      assert (held + input)[|held| + end + 1..] == input[end + 1..];
    } else {
      assert input[..end] == input;
    }
  }

  lemma LongerStaysTooLong<V>(s: seq<Byte>, t: seq<Byte>, max: nat, json: Json<V>)
    requires ReadLine(s, max, json).TooLong? && s <= t
    ensures ReadLine(t, max, json).TooLong?
  {
  }

  /** Decoding may be interrupted anywhere: the pending bytes are all that is
      needed to go on, and a refusal is never taken back. */
  lemma {:induction false} DecodeResumes<V>(done: seq<V>, s: seq<Byte>, t: seq<Byte>, max: nat, json: Json<V>)
    ensures match Decode(done, s, max, json)
            case Rejected => Decode(done, s + t, max, json) == Rejected
            case Accepted(values, pending) =>
              Decode(done, s + t, max, json) == Decode(values, pending + t, max, json)
    decreases |s|
  {
    hide Decode, ReadLine;
    var i := IndexOf(s, LF);
    var line := ReadLine(s[..i], max, json);
    DecodeUnfolds(done, s, i, max, json);
    if i < |s| {
      IndexOfAppend(s, t);
      DecodeUnfolds(done, s + t, i, max, json);
      assert (s + t)[..i] == s[..i];
      assert (s + t)[i + 1..] == s[i + 1..] + t;
      if line.Blank? {
        DecodeResumes(done, s[i + 1..], t, max, json);
      } else if line.Value? {
        DecodeResumes(done + [line.value], s[i + 1..], t, max, json);
      }
    } else if line.TooLong? {
      var j := IndexOf(s + t, LF);
      IndexOfAppend(s, t);
      DecodeUnfolds(done, s + t, j, max, json);
      assert s[..i] <= (s + t)[..j];
      LongerStaysTooLong(s[..i], (s + t)[..j], max, json);
    }
  }

  /** A line still waiting for its LF, within the size limit. */
  ghost predicate Unfinished(s: seq<Byte>, max: nat) {
    LF !in s && |DropCR(s)| <= max
  }

  lemma {:induction false} PendingIsUnfinished<V>(done: seq<V>, s: seq<Byte>, max: nat, json: Json<V>)
    requires Decode(done, s, max, json).Accepted?
    ensures Unfinished(Decode(done, s, max, json).pending, max)
    decreases |s|
  {
    hide Decode;
    var i := IndexOf(s, LF);
    DecodeUnfolds(done, s, i, max, json);
    IndexOfFinds(s, LF);
    if i < |s| {
      var line := ReadLine(s[..i], max, json);
      if line.Blank? {
        PendingIsUnfinished(done, s[i + 1..], max, json);
      } else if line.Value? {
        PendingIsUnfinished(done + [line.value], s[i + 1..], max, json);
      }
    } else {
      assert s[..i] == s;
    }
  }

  lemma UnfinishedIsAccepted<V>(done: seq<V>, s: seq<Byte>, max: nat, json: Json<V>)
    requires Unfinished(s, max)
    ensures Decode(done, s, max, json) == Accepted(done, s)
  {
    assert s[..|s|] == s;
    IndexOfIsFirst(s, LF, |s|);
  }

  function Encode<V>(v: V, max: nat, json: Json<V>): Option<seq<Byte>> {
    match json.Stringify(v)
    case None => None
    case Some(body) => if |body| > max then None else Some(body + [LF])
  }

  function EncodeAll<V>(vs: seq<V>, max: nat, json: Json<V>): Option<seq<Byte>> {
    if vs == [] then Some([])
    else
      match (Encode(vs[0], max, json), EncodeAll(vs[1..], max, json))
      case (Some(first), Some(rest)) => Some(first + rest)
      case _ => None
  }

  /** Values are encodable exactly when each has a JSON text within the limit. */
  lemma {:induction false} EncodableExactly<V>(vs: seq<V>, max: nat, json: Json<V>)
    ensures EncodeAll(vs, max, json).Some? <==>
            forall i | 0 <= i < |vs| :: json.Stringify(vs[i]).Some? && |json.Stringify(vs[i]).value| <= max
  {
    if vs != [] {
      EncodableExactly(vs[1..], max, json);
      assert forall i | 1 <= i < |vs| :: vs[i] == vs[1..][i - 1];
    }
  }

  /** Decoding undoes encoding: the lines of any encodable values decode to
      exactly those values, with nothing pending. */
  lemma {:induction false} RoundTrip<V(!new)>(done: seq<V>, vs: seq<V>, max: nat, json: Json<V>)
    requires Lawful(json)
    requires EncodeAll(vs, max, json).Some?
    ensures Decode(done, EncodeAll(vs, max, json).value, max, json) == Accepted(done + vs, [])
    decreases |vs|
  {
    hide Decode;
    if vs == [] {
      UnfinishedIsAccepted(done, [], max, json);
      assert done + vs == done;
    } else {
      var body := json.Stringify(vs[0]).value;
      var rest := EncodeAll(vs[1..], max, json).value;
      var s := body + [LF] + rest;
      assert LawfulText(json, vs[0], body);
      assert s[..|body|] == body && s[|body|] == LF && s[|body| + 1..] == rest;
      IndexOfIsFirst(s, LF, |body|);
      DecodeUnfolds(done, s, |body|, max, json);
      RoundTrip(done + [vs[0]], vs[1..], max, json);
      assert done + [vs[0]] + vs[1..] == done + vs;
    }
  }

  // --- Lines and their texts ---

  /** A raw line carries its text bare or with one CR behind it. */
  ghost predicate Carries(line: seq<Byte>, text: seq<Byte>) {
    LF !in line && (line == text + [CR] || (line == text && (text == [] || text[|text| - 1] != CR)))
  }

  ghost predicate Carry(lines: seq<seq<Byte>>, texts: seq<seq<Byte>>) {
    |lines| == |texts| && forall i | 0 <= i < |lines| :: Carries(lines[i], texts[i])
  }

  /** Complete lines, each with its LF. */
  function LinesText(lines: seq<seq<Byte>>): seq<Byte> {
    if lines == [] then [] else lines[0] + [LF] + LinesText(lines[1..])
  }

  /** What texts mean: the values of those that are not empty. */
  function Values<V>(texts: seq<seq<Byte>>, json: Json<V>): seq<V>
    requires forall t | t in texts && t != [] :: json.Parse(t).Some?
  {
    if texts == [] then []
    else
      assert texts[0] in texts && forall t | t in texts[1..] :: t in texts;
      (if texts[0] == [] then [] else [json.Parse(texts[0]).value]) + Values(texts[1..], json)
  }

  predicate Good<V>(text: seq<Byte>, max: nat, json: Json<V>) {
    |text| <= max && (text != [] ==> json.Parse(text).Some?)
  }

  ghost predicate Readable<V>(texts: seq<seq<Byte>>, max: nat, json: Json<V>) {
    forall t | t in texts :: Good(t, max, json)
  }

  ghost function Outcome<V>(done: seq<V>, texts: seq<seq<Byte>>, last: seq<Byte>, lastText: seq<Byte>, max: nat,
                            json: Json<V>): Decoding<V>
  {
    if Readable(texts, max, json) && |lastText| <= max then
      ReadableParses(texts, max, json);
      Accepted(done + Values(texts, json), last)
    else Rejected
  }

  lemma OutcomeUnfolds<V>(done: seq<V>, texts: seq<seq<Byte>>, last: seq<Byte>, lastText: seq<Byte>, max: nat,
                          json: Json<V>)
    requires texts != []
    ensures Outcome(done, texts, last, lastText, max, json) ==
            if |texts[0]| > max then Rejected
            else if texts[0] == [] then Outcome(done, texts[1..], last, lastText, max, json)
            else match json.Parse(texts[0])
                 case None => Rejected
                 case Some(v) => Outcome(done + [v], texts[1..], last, lastText, max, json)
  {
    hide Readable, Values;
    ReadableUnfolds(texts, max, json);
    if Readable(texts, max, json) && texts[0] != [] {
      ReadableParses(texts[1..], max, json);
      Associates(done, [json.Parse(texts[0]).value], Values(texts[1..], json));
    }
  }

  lemma ReadableUnfolds<V>(texts: seq<seq<Byte>>, max: nat, json: Json<V>)
    requires texts != []
    ensures Readable(texts, max, json) <==> Good(texts[0], max, json) && Readable(texts[1..], max, json)
    ensures Readable(texts, max, json) ==>
              Values(texts, json) ==
              if texts[0] == [] then Values(texts[1..], json)
              else [json.Parse(texts[0]).value] + Values(texts[1..], json)
  {
    hide Good;
    assert texts == [texts[0]] + texts[1..];
    assert forall t | t in texts :: t == texts[0] || t in texts[1..];
    if Readable(texts, max, json) {
      ReadableParses(texts, max, json);
      NothingBefore(Values(texts[1..], json));
    }
  }

  lemma ReadableParses<V>(texts: seq<seq<Byte>>, max: nat, json: Json<V>)
    requires Readable(texts, max, json)
    ensures forall t | t in texts && t != [] :: json.Parse(t).Some?
  {
  }

  /** Any complete lines and an unfinished one: accepted exactly if each text, the
      unfinished one too, is within the limit and each that is not empty parses;
      then the values are theirs, in order, and the unfinished line is pending. */
  lemma {:induction false} LinesDecode<V>(done: seq<V>, lines: seq<seq<Byte>>, texts: seq<seq<Byte>>, last: seq<Byte>,
                                          lastText: seq<Byte>, max: nat, json: Json<V>)
    requires Carry(lines, texts) && Carries(last, lastText)
    ensures Decode(done, LinesText(lines) + last, max, json) == Outcome(done, texts, last, lastText, max, json)
    decreases |lines|
  {
    hide Decode, Outcome, ReadLine, Carries;
    var s := LinesText(lines) + last;
    if lines == [] {
      LineAlone(last, lastText);
      DecodeUnfolds(done, s, |s|, max, json);
      CarriedIsRead(last, lastText, max, json);
      NoLines(done, last, lastText, max, json);
    } else {
      var rest := LinesText(lines[1..]) + last;
      FirstLine(lines[0], texts[0], rest);
      assert s == lines[0] + [LF] + rest;
      DecodeUnfolds(done, s, |lines[0]|, max, json);
      CarriedIsRead(lines[0], texts[0], max, json);
      OutcomeUnfolds(done, texts, last, lastText, max, json);
      var line := ReadLine(lines[0], max, json);
      if line.Blank? || line.Value? {
        LinesDecode(if line.Value? then done + [line.value] else done, lines[1..], texts[1..], last, lastText, max,
                    json);
      }
    }
  }

  lemma NoLines<V>(done: seq<V>, last: seq<Byte>, lastText: seq<Byte>, max: nat, json: Json<V>)
    ensures Outcome(done, [], last, lastText, max, json) ==
            if |lastText| <= max then Accepted(done, last) else Rejected
  {
    assert done + [] == done;
  }

  lemma LineAlone(line: seq<Byte>, text: seq<Byte>)
    requires Carries(line, text)
    ensures IndexOf([] + line, LF) == |line| && ([] + line)[..|line|] == line == [] + line
  {
    NothingBefore(line);
    assert line[..|line|] == line;
    IndexOfIsFirst(line, LF, |line|);
  }

  lemma FirstLine(line: seq<Byte>, text: seq<Byte>, rest: seq<Byte>)
    requires Carries(line, text)
    ensures var s := line + [LF] + rest;
            IndexOf(s, LF) == |line| && s[..|line|] == line && s[|line| + 1..] == rest
  {
    var s := line + [LF] + rest;
    assert s[..|line|] == line && s[|line|] == LF;
    IndexOfIsFirst(s, LF, |line|);
  }

  lemma CarriedIsRead<V>(line: seq<Byte>, text: seq<Byte>, max: nat, json: Json<V>)
    requires Carries(line, text)
    ensures ReadLine(line, max, json) ==
            if |text| > max then TooLong else if text == [] then Blank
            else match json.Parse(text) case None => Malformed case Some(v) => Value(v)
  {
  }

  class JsonLinesDecoder<V> {
    const max: nat
    const json: Json<V>
    const buffered: FrameBuffer
    ghost var consumed: seq<Byte>
    ghost var decoded: seq<V>

    /** Everything pushed so far decodes, the buffer holds its pending line, and
        its copies are paid for. */
    ghost predicate Valid()
      reads this, buffered, buffered.storage
    {
      && buffered.Valid() && Amortized(buffered.Cost(), max + 1, max + 1)
      && Decode([], consumed, max, json) == Accepted(decoded, buffered.Bytes())
    }

    constructor (max: nat, json: Json<V>)
      ensures Valid() && fresh(buffered) && fresh(buffered.storage)
      ensures this.max == max && this.json == json && consumed == [] && decoded == []
    {
      this.max, this.json := max, json;
      buffered := new FrameBuffer();
      consumed, decoded := [], [];
      new;
      UnfinishedIsAccepted<V>([], [], max, json);
    }

    /** Adds a piece of the current line and, when the piece completes it, reads
        the line and clears the buffer. An unparsed line shows as Blank. */
    method Extend(piece: seq<Byte>, complete: bool) returns (line: Line<V>)
      requires buffered.Valid() && Amortized(buffered.Cost(), max + 1, max + 1)
      modifies buffered, buffered.storage
      ensures buffered.Valid() && Amortized(buffered.Cost(), max + 1, max + 1)
      ensures buffered.storage == old(buffered.storage) || fresh(buffered.storage)
      ensures var whole := ReadLine(old(buffered.Bytes()) + piece, max, json);
              line == if complete || whole.TooLong? then whole else Blank
      ensures !line.TooLong? && !line.Malformed? ==>
                buffered.Bytes() == if complete then [] else old(buffered.Bytes()) + piece
    {
      hide Amortized, AppendGrowth;
      AppendKeepsAmortized(buffered.Cost(), |piece|, max + 1, max + 1, max + 1);
      var ok := buffered.Append(piece, max + 1);
      ClearKeepsAmortized(buffered.Cost(), max + 1, max + 1);
      if !ok {
        return TooLong;
      }
      var frame := DropCR(buffered.Bytes());
      if |frame| > max {
        return TooLong;
      }
      line := Blank;
      if complete {
        if frame != [] {
          match json.Parse(frame) {
            case None => return Malformed;
            case Some(v) => line := Value(v);
          }
        }
        buffered.Clear();
      }
    }

    /** Takes one chunk; None is the thrown decode error. */
    method Push(chunk: seq<Byte>) returns (r: Option<seq<V>>)
      requires Valid()
      modifies `consumed, `decoded, buffered, buffered.storage
      ensures consumed == old(consumed) + chunk
      ensures buffered.storage == old(buffered.storage) || fresh(buffered.storage)
      ensures r.Some? <==> Decode([], consumed, max, json).Accepted?
      ensures r.Some? ==> Valid() && decoded == old(decoded) + r.value
    {
      hide Decode, ReadLine, Amortized;
      ghost var all := Decode([], consumed + chunk, max, json);
      ghost var done := decoded;
      DecodeResumes([], consumed, chunk, max, json);
      PendingIsUnfinished([], consumed, max, json);
      consumed := consumed + chunk;
      var values: seq<V> := [];
      var start := 0;
      while start < |chunk|
        modifies buffered, buffered.storage
        invariant start <= |chunk| && done == decoded + values
        invariant buffered.Valid() && Amortized(buffered.Cost(), max + 1, max + 1) && Unfinished(buffered.Bytes(), max)
        invariant buffered.storage == old(buffered.storage) || fresh(buffered.storage)
        invariant all == Decode(done, buffered.Bytes() + chunk[start..], max, json)
      {
        var size := IndexOf(chunk[start..], LF);
        var end := start + size;
        NextLine(done, buffered.Bytes(), chunk[start..], size, max, json);
        SliceOfRest(chunk, start, size);
        var line := Extend(chunk[start..end], end < |chunk|);
        if line.TooLong? || line.Malformed? {
          return None;
        }
        if end == |chunk| {
          break;
        }
        if line.Value? {
          Snoc(decoded, values, line.value);
          values, done := values + [line.value], done + [line.value];
        }
        start := end + 1;
        NothingBefore(chunk[start..]);
      }
      if start == |chunk| {
        assert buffered.Bytes() + chunk[start..] == buffered.Bytes();
        UnfinishedIsAccepted(done, buffered.Bytes(), max, json);
      }
      decoded := done;
      return Some(values);
    }

    /** However much came in, its buffer copied less than twice the longest line. */
    lemma CopiesLittle()
      requires Valid()
      ensures buffered.copied == 0 || buffered.copied < 2 * buffered.peak
    {
      AmortizedIsThrifty(buffered.Cost(), max + 1, max + 1);
    }

    /** The end of the stream; None is the thrown incomplete-frame error. */
    method Finish() returns (r: Option<seq<V>>)
      requires Valid()
      ensures r == if Decode([], consumed, max, json).pending == [] then Some([]) else None
    {
      r := if buffered.length > 0 then None else Some([]);
    }
  }

  /** Feeds every chunk to a fresh decoder, then ends the stream: whatever the
      chunking, the outcome is that of the bytes glued together. */
  method DecodeAll<V>(chunks: seq<seq<Byte>>, max: nat, json: Json<V>) returns (r: Option<seq<V>>)
    ensures r == Finished(Decode([], Flatten(chunks), max, json))
  {
    var decoder := new JsonLinesDecoder(max, json);
    var values: seq<V> := [];
    for i := 0 to |chunks|
      invariant fresh(decoder) && fresh(decoder.buffered) && fresh(decoder.buffered.storage)
      invariant decoder.max == max && decoder.json == json
      invariant decoder.Valid() && decoder.decoded == values
      invariant decoder.consumed == Flatten(chunks[..i])
    {
      assert chunks[..i + 1] == chunks[..i] + [chunks[i]];
      FlattenSnoc(chunks[..i], chunks[i]);
      var pushed := decoder.Push(chunks[i]);
      if pushed.None? {
        RefusedForGood(chunks, i + 1, max, json);
        return None;
      }
      values := values + pushed.value;
    }
    assert chunks[..|chunks|] == chunks;
    var rest := decoder.Finish();
    assert values + [] == values;
    return if rest.Some? then Some(values + rest.value) else None;
  }

  lemma RefusedForGood<V>(chunks: seq<seq<Byte>>, i: nat, max: nat, json: Json<V>)
    requires i <= |chunks|
    requires Decode([], Flatten(chunks[..i]), max, json).Rejected?
    ensures Decode([], Flatten(chunks), max, json).Rejected?
  {
    FlattenSplit(chunks, i);
    DecodeResumes([], Flatten(chunks[..i]), Flatten(chunks[i..]), max, json);
  }
}
