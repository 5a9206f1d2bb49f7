/** The Content-Length codec: the Header Part of the Language Server Protocol
    3.17 base protocol, a blank line, then a JSON body of the stated length. */
module ContentLength {
  import opened Prelude
  import opened Framing
  import opened FrameBuffers
  import opened Decimals

  const COLON: Byte := 0x3a
  const SPACE: Byte := 0x20
  /** "content-length" */
  const FIELD: seq<Byte> := [0x63, 0x6f, 0x6e, 0x74, 0x65, 0x6e, 0x74, 0x2d, 0x6c, 0x65, 0x6e, 0x67, 0x74, 0x68]
  /** "Content-Length: " */
  const LABEL: seq<Byte> := [0x43, 0x6f, 0x6e, 0x74, 0x65, 0x6e, 0x74, 0x2d, 0x4c, 0x65, 0x6e, 0x67, 0x74, 0x68, 0x3a,
                             0x20]
  const MAX_SAFE_INTEGER := 0x1f_ffff_ffff_ffff

  datatype Limits = Limits(maxHeaderBytes: nat, maxBodyBytes: nat)

  /** The whitespace a regular expression's \s finds in single-byte text. */
  predicate IsSpace(b: Byte) { 0x09 <= b <= 0x0d || b == SPACE || b == 0xa0 }

  function Lower(b: Byte): Byte { if 0x41 <= b <= 0x5a then b + 0x20 else b }

  function SkipSpaces(s: seq<Byte>): seq<Byte> { s[Leading(s, (b: Byte) => IsSpace(b))..] }

  /** Header lines, split at every CR LF. */
  function SplitLines(s: seq<Byte>): (lines: seq<seq<Byte>>)
    ensures lines != []
    decreases |s|
  {
    if s == [] then [[]]
    else if |s| >= 2 && s[0] == CR && s[1] == LF then [[]] + SplitLines(s[2..])
    else
      var rest := SplitLines(s[1..]);
      [[s[0]] + rest[0]] + rest[1..]
  }

  /** What follows the colon of a line whose field is Content-Length in any case. */
  function LengthValue(line: seq<Byte>): Option<seq<Byte>> {
    if |line| < |FIELD| || exists i | 0 <= i < |FIELD| :: Lower(line[i]) != FIELD[i] then None
    else
      var rest := SkipSpaces(line[|FIELD|..]);
      if rest != [] && rest[0] == COLON then Some(rest[1..]) else None
  }

  /** A decimal number with optional space around it, and nothing else. */
  function LengthNumber(value: seq<Byte>): Option<nat> {
    var s := SkipSpaces(value);
    var k := Leading(s, (b: Byte) => IsDigit(b));
    if k == 0 || SkipSpaces(s[k..]) != [] then None else Some(Read(s[..k]))
  }

  function LengthLines(lines: seq<seq<Byte>>): seq<seq<Byte>> {
    if lines == [] then []
    else (if LengthValue(lines[0]).Some? then [lines[0]] else []) + LengthLines(lines[1..])
  }

  /** The body length a header announces; None is a thrown decode error. */
  function ParseHeader(header: seq<Byte>, maxBodyBytes: nat): Option<nat> {
    var lengths := LengthLines(SplitLines(header));
    if |lengths| != 1 || LengthValue(lengths[0]).None? then None
    else
      match LengthNumber(LengthValue(lengths[0]).value)
      case None => None
      case Some(n) => if n > MAX_SAFE_INTEGER || n > maxBodyBytes then None else Some(n)
  }

  predicate BlankLineAt(s: seq<Byte>, k: nat) {
    k + 4 <= |s| && s[k] == CR && s[k + 1] == LF && s[k + 2] == CR && s[k + 3] == LF
  }

  /** Where the first blank line starts, or |s| when there is none. */
  function HeaderEnd(s: seq<Byte>): (i: nat)
    ensures i <= |s| && (i < |s| ==> i + 4 <= |s|)
  {
    if s == [] || BlankLineAt(s, 0) then 0 else 1 + HeaderEnd(s[1..])
  }

  /** The whole-input meaning: headers up to their blank line, within the header
      limit, each followed by as many body bytes as it announces. */
  function Decode<V>(done: seq<V>, s: seq<Byte>, limits: Limits, json: Json<V>): Decoding<V>
    decreases |s|
  {
    var i := HeaderEnd(s);
    if i == |s| then
      if |s| > limits.maxHeaderBytes + 3 then Rejected else Accepted(done, s)
    else if i > limits.maxHeaderBytes || ParseHeader(s[..i], limits.maxBodyBytes).None? then Rejected
    else
      var size := ParseHeader(s[..i], limits.maxBodyBytes).value;
      var rest := s[i + 4..];
      if |rest| < size then Accepted(done, s)
      else if json.Parse(rest[..size]).None? then Rejected
      else Decode(done + [json.Parse(rest[..size]).value], rest[size..], limits, json)
  }

  lemma DecodeUnfolds<V>(done: seq<V>, s: seq<Byte>, i: nat, limits: Limits, json: Json<V>)
    requires i == HeaderEnd(s)
    ensures var d := Decode(done, s, limits, json);
            if i == |s| then
              d == if |s| > limits.maxHeaderBytes + 3 then Rejected else Accepted(done, s)
            else if i > limits.maxHeaderBytes || ParseHeader(s[..i], limits.maxBodyBytes).None? then d == Rejected
            else d == ReadBody(done, s[..i + 4], ParseHeader(s[..i], limits.maxBodyBytes).value, s[i + 4..], limits,
                               json)
  {
    if i < |s| {
      assert s[..i + 4] + s[i + 4..] == s;
    }
  }

  /** Decoding after a complete header (`head`, with its blank line). */
  function ReadBody<V>(done: seq<V>, head: seq<Byte>, size: nat, rest: seq<Byte>, limits: Limits, json: Json<V>)
    : Decoding<V>
  {
    if |rest| < size then Accepted(done, head + rest)
    else if json.Parse(rest[..size]).None? then Rejected
    else Decode(done + [json.Parse(rest[..size]).value], rest[size..], limits, json)
  }

  // --- The blank line ---

  lemma {:induction false} HeaderEndIs(s: seq<Byte>, i: nat)
    requires i <= |s| && (i < |s| ==> BlankLineAt(s, i))
    requires forall k: nat | k < i :: !BlankLineAt(s, k)
    ensures HeaderEnd(s) == i
  {
    if i > 0 {
      assert !BlankLineAt(s, 0);
      forall k: nat | k < i - 1 ensures !BlankLineAt(s[1..], k) {
        assert !BlankLineAt(s, k + 1);
      }
      HeaderEndIs(s[1..], i - 1);
    }
  }

  lemma {:induction false} HeaderEndFinds(s: seq<Byte>)
    ensures HeaderEnd(s) < |s| ==> BlankLineAt(s, HeaderEnd(s))
    ensures forall k: nat | k < HeaderEnd(s) :: !BlankLineAt(s, k)
  {
    if s != [] && !BlankLineAt(s, 0) {
      HeaderEndFinds(s[1..]);
      forall k: nat | k < HeaderEnd(s) ensures !BlankLineAt(s, k) {
        assert k > 0 ==> !BlankLineAt(s[1..], k - 1);
      }
    }
  }

  lemma BlankLineAppend(s: seq<Byte>, t: seq<Byte>, k: nat)
    requires k + 4 <= |s|
    ensures BlankLineAt(s + t, k) == BlankLineAt(s, k)
  {
  }

  /** A blank line, once found, is found in every longer input; before that,
      the first one can only reach beyond the bytes seen. */
  lemma HeaderEndAppend(s: seq<Byte>, t: seq<Byte>)
    ensures HeaderEnd(s) < |s| ==> HeaderEnd(s + t) == HeaderEnd(s)
    ensures HeaderEnd(s) == |s| ==> HeaderEnd(s + t) + 3 >= |s|
  {
    HeaderEndFinds(s);
    var i := HeaderEnd(s);
    if i < |s| {
      forall k: nat | k <= i ensures BlankLineAt(s + t, k) == (k == i) {
        BlankLineAppend(s, t, k);
      }
      HeaderEndIs(s + t, i);
    } else {
      var j := HeaderEnd(s + t);
      HeaderEndFinds(s + t);
      if j + 4 <= |s| {
        BlankLineAppend(s, t, j);
      }
    }
  }

  // --- Resumption ---

  lemma {:induction false} DecodeResumes<V>(done: seq<V>, s: seq<Byte>, t: seq<Byte>, limits: Limits, json: Json<V>)
    ensures match Decode(done, s, limits, json)
            case Rejected => Decode(done, s + t, limits, json) == Rejected
            case Accepted(values, pending) =>
              Decode(done, s + t, limits, json) == Decode(values, pending + t, limits, json)
    decreases |s|
  {
    hide Decode, ParseHeader;
    var i := HeaderEnd(s);
    DecodeUnfolds(done, s, i, limits, json);
    HeaderEndAppend(s, t);
    DecodeUnfolds(done, s + t, HeaderEnd(s + t), limits, json);
    if i < |s| {
      assert (s + t)[..i] == s[..i] && (s + t)[..i + 4] == s[..i + 4] && (s + t)[i + 4..] == s[i + 4..] + t;
      var size := ParseHeader(s[..i], limits.maxBodyBytes);
      if i <= limits.maxHeaderBytes && size.Some? {
        var rest := s[i + 4..];
        if |rest| < size.value {
          assert s[..i + 4] + rest == s;
        } else {
          BodyResumes(done, s[..i + 4], size.value, rest, t, limits, json);
          if json.Parse(rest[..size.value]).Some? {
            DecodeResumes(done + [json.Parse(rest[..size.value]).value], rest[size.value..], t, limits, json);
          }
        }
      }
    }
  }

  lemma BodyResumes<V>(done: seq<V>, head: seq<Byte>, size: nat, rest: seq<Byte>, t: seq<Byte>, limits: Limits,
                       json: Json<V>)
    requires size <= |rest|
    ensures ReadBody(done, head, size, rest + t, limits, json) ==
            if json.Parse(rest[..size]).None? then Rejected
            else Decode(done + [json.Parse(rest[..size]).value], rest[size..] + t, limits, json)
  {
    hide Decode;
    assert (rest + t)[..size] == rest[..size] && (rest + t)[size..] == rest[size..] + t;
  }

  // --- The rolling register ---

  const REGISTER_SIZE := 0x1_0000_0000
  const BLANK_LINE := 0x0d0a0d0a

  /** The boundary register after s: eight bits shifted in a byte, 32 bits kept. */
  function Register(s: seq<Byte>): (r: nat)
    ensures r < REGISTER_SIZE
  {
    if s == [] then 0 else (Register(s[..|s| - 1]) * 256 + s[|s| - 1]) % REGISTER_SIZE
  }

  /** Four bytes as the big-endian number they spell. */
  function Word(a: int, b: int, c: int, d: int): int {
    a * 0x100_0000 + b * 0x1_0000 + c * 256 + d
  }

  lemma WordFits(a: Byte, b: Byte, c: Byte, d: Byte)
    ensures 0 <= Word(a, b, c, d) < REGISTER_SIZE
  {
  }

  lemma Wraps(q: int, r: int)
    requires 0 <= r < REGISTER_SIZE
    ensures (q * REGISTER_SIZE + r) % REGISTER_SIZE == r
  {
  }

  /** Shifting a byte into a register that spells w, x, y, z drops w. */
  lemma ShiftIn(w: Byte, x: Byte, y: Byte, z: Byte, b: Byte)
    ensures (Word(w, x, y, z) * 256 + b) % REGISTER_SIZE == Word(x, y, z, b)
  {
    assert Word(w, x, y, z) * 256 + b == w * REGISTER_SIZE + Word(x, y, z, b);
    WordFits(x, y, z, b);
    hide Word;
    Wraps(w, Word(x, y, z, b));
  }

  /** Byte k from the end, with zeros before the beginning. */
  function FromEnd(s: seq<Byte>, k: nat): Byte {
    if k < |s| then s[|s| - 1 - k] else 0
  }

  /** The register holds exactly the last four bytes. */
  lemma {:induction false} RegisterHoldsLastFour(s: seq<Byte>)
    ensures Register(s) == Word(FromEnd(s, 3), FromEnd(s, 2), FromEnd(s, 1), FromEnd(s, 0))
  {
    if s == [] {
      assert Word(0, 0, 0, 0) == 0;
    } else {
      var t := s[..|s| - 1];
      RegisterHoldsLastFour(t);
      hide Word;
      assert FromEnd(s, 3) == FromEnd(t, 2) && FromEnd(s, 2) == FromEnd(t, 1) && FromEnd(s, 1) == FromEnd(t, 0);
      ShiftIn(FromEnd(t, 3), FromEnd(t, 2), FromEnd(t, 1), FromEnd(t, 0), s[|s| - 1]);
    }
  }

  /** The test the decoder makes is the test for a blank line just completed. */
  lemma RegisterFindsBlankLine(s: seq<Byte>)
    ensures Register(s) == BLANK_LINE <==> |s| >= 4 && BlankLineAt(s, |s| - 4)
  {
    hide Register;
    RegisterHoldsLastFour(s);
  }

  // --- The incremental decoder ---

  /** Part of a header: no blank line yet, and still within the limit. */
  ghost predicate OpenHeader(s: seq<Byte>, limits: Limits) {
    HeaderEnd(s) == |s| && |s| <= limits.maxHeaderBytes + 3
  }

  /** A whole header with its blank line, announcing `size` body bytes. */
  ghost predicate WholeHeader(head: seq<Byte>, size: nat, limits: Limits) {
    && |head| >= 4
    && HeaderEnd(head) == |head| - 4 <= limits.maxHeaderBytes
    && ParseHeader(head[..|head| - 4], limits.maxBodyBytes) == Some(size)
  }

  lemma OpenHeaderIsAccepted<V>(done: seq<V>, s: seq<Byte>, limits: Limits, json: Json<V>)
    requires OpenHeader(s, limits)
    ensures Decode(done, s, limits, json) == Accepted(done, s)
  {
  }

  lemma WholeHeaderReadsBody<V>(done: seq<V>, head: seq<Byte>, size: nat, rest: seq<Byte>, limits: Limits,
                                json: Json<V>)
    requires WholeHeader(head, size, limits)
    ensures Decode(done, head + rest, limits, json) == ReadBody(done, head, size, rest, limits, json)
  {
    hide Decode, ParseHeader, ReadBody;
    var i := |head| - 4;
    HeaderEndAppend(head, rest);
    DecodeUnfolds(done, head + rest, i, limits, json);
    assert (head + rest)[..i] == head[..i] && (head + rest)[..i + 4] == head && (head + rest)[i + 4..] == rest;
  }

  datatype HeaderStep = More | Bad | Complete(size: nat)

  /** What the decoder makes of a header so far: its register decides whether
      the last byte ended it. */
  function ReadHeader(s: seq<Byte>, limits: Limits): HeaderStep {
    if Register(s) != BLANK_LINE then
      if |s| > limits.maxHeaderBytes + 3 then Bad else More
    else
      RegisterFindsBlankLine(s);
      match ParseHeader(s[..|s| - 4], limits.maxBodyBytes)
      case None => Bad
      case Some(size) => Complete(size)
  }

  lemma RegisterSnoc(s: seq<Byte>, b: Byte)
    ensures Register(s + [b]) == (Register(s) * 256 + b) % REGISTER_SIZE
  {
    assert (s + [b])[..|s|] == s;
  }

  lemma HeaderByte(before: seq<Byte>, b: Byte, limits: Limits)
    requires OpenHeader(before, limits)
    ensures var s := before + [b];
            match ReadHeader(s, limits)
            case More => OpenHeader(s, limits)
            case Complete(size) => WholeHeader(s, size, limits)
            case Bad => HeaderEnd(s) == if Register(s) == BLANK_LINE then |s| - 4 else |s|
  {
    hide Register;
    var s := before + [b];
    RegisterFindsBlankLine(s);
    HeaderEndFinds(before);
    forall k: nat | k + 4 < |s| ensures !BlankLineAt(s, k) {
      BlankLineAppend(before, [b], k);
    }
    HeaderEndIs(s, if Register(s) == BLANK_LINE then |s| - 4 else |s|);
  }

  lemma BadHeaderRefused<V>(done: seq<V>, before: seq<Byte>, b: Byte, t: seq<Byte>, limits: Limits, json: Json<V>)
    requires OpenHeader(before, limits) && ReadHeader(before + [b], limits).Bad?
    ensures Decode(done, before + [b] + t, limits, json) == Rejected
  {
    hide Decode, Register, ParseHeader;
    var s := before + [b];
    HeaderByte(before, b, limits);
    RegisterFindsBlankLine(s);
    HeaderEndAppend(s, t);
    var i := HeaderEnd(s + t);
    DecodeUnfolds(done, s + t, i, limits, json);
    if Register(s) == BLANK_LINE {
      assert (s + t)[..i] == s[..i];
    }
  }

  datatype BodyStep<V> = MoreBody | BadBody | Body(value: V)

  function ReadBodyStep<V>(body: seq<Byte>, size: nat, json: Json<V>): BodyStep<V> {
    if |body| < size then MoreBody
    else match json.Parse(body) case None => BadBody case Some(v) => Body(v)
  }

  function LowerLimit(limits: Limits): int { Min(limits.maxHeaderBytes + 4, limits.maxBodyBytes) }

  function UpperLimit(limits: Limits): int { Max(limits.maxHeaderBytes + 4, limits.maxBodyBytes) }

  class ContentLengthDecoder<V> {
    const limits: Limits
    const json: Json<V>
    const buffered: FrameBuffer
    var expectedBodyBytes: Option<nat>
    var boundary: nat
    ghost var consumed: seq<Byte>
    ghost var decoded: seq<V>
    /** The header of the body being read, with its blank line. */
    ghost var head: seq<Byte>

    /** The buffer's copies are paid for under the limits of headers and bodies. */
    ghost predicate Paid()
      reads this, buffered
    {
      Amortized(buffered.Cost(), LowerLimit(limits), UpperLimit(limits))
    }

    ghost predicate Framed()
      reads this, buffered, buffered.storage
    {
      && buffered.Valid() && Paid()
      && match expectedBodyBytes
         case None => head == [] && boundary == Register(buffered.Bytes()) && OpenHeader(buffered.Bytes(), limits)
         case Some(size) => boundary == 0 && WholeHeader(head, size, limits) && buffered.length < size
    }

    /** Everything pushed so far decodes, and what is pending is the unfinished
        header, or the header and the body bytes so far. */
    ghost predicate Valid()
      reads this, buffered, buffered.storage
    {
      Framed() && Decode([], consumed, limits, json) == Accepted(decoded, head + buffered.Bytes())
    }

    constructor (limits: Limits, json: Json<V>)
      ensures Valid() && fresh(buffered) && fresh(buffered.storage)
      ensures this.limits == limits && this.json == json && consumed == [] && decoded == []
    {
      this.limits, this.json := limits, json;
      buffered := new FrameBuffer();
      expectedBodyBytes, boundary := None, 0;
      consumed, decoded, head := [], [], [];
      new;
      OpenHeaderIsAccepted<V>([], [], limits, json);
    }

    /** Takes one header byte. */
    method TakeHeaderByte(byte: Byte) returns (step: HeaderStep)
      requires Framed() && expectedBodyBytes.None?
      modifies `expectedBodyBytes, `boundary, `head, buffered, buffered.storage
      ensures buffered.Valid() && (buffered.storage == old(buffered.storage) || fresh(buffered.storage))
      ensures step == ReadHeader(old(buffered.Bytes()) + [byte], limits)
      ensures step.More? ==> Framed() && expectedBodyBytes.None? && buffered.Bytes() == old(buffered.Bytes()) + [byte]
      ensures step.Complete? ==>
                && Paid() && expectedBodyBytes == Some(step.size) && boundary == 0 && buffered.Bytes() == []
                && head == old(buffered.Bytes()) + [byte] && WholeHeader(head, step.size, limits)
    {
      hide Register, ParseHeader, OpenHeader, Amortized, AppendGrowth;
      ghost var s := buffered.Bytes() + [byte];
      AppendKeepsAmortized(buffered.Cost(), 1, limits.maxHeaderBytes + 4, LowerLimit(limits), UpperLimit(limits));
      HeaderByte(buffered.Bytes(), byte, limits);
      RegisterSnoc(buffered.Bytes(), byte);
      OpenHeaderIsShort(buffered.Bytes(), limits);
      var ok := buffered.Append([byte], limits.maxHeaderBytes + 4);
      if !ok {
        return Bad;
      }
      ClearKeepsAmortized(buffered.Cost(), LowerLimit(limits), UpperLimit(limits));
      boundary := (boundary * 256 + byte) % REGISTER_SIZE;
      if boundary != BLANK_LINE {
        return if buffered.length > limits.maxHeaderBytes + 3 then Bad else More;
      }
      RegisterFindsBlankLine(s);
      match ParseHeader(buffered.Bytes()[..buffered.length - 4], limits.maxBodyBytes) {
        case None => return Bad;
        case Some(size) =>
          head := s;
          expectedBodyBytes := Some(size);
          buffered.Clear();
          boundary := 0;
          return Complete(size);
      }
    }

    /** Takes body bytes, no more than are missing. */
    method TakeBody(piece: seq<Byte>) returns (step: BodyStep<V>)
      requires buffered.Valid() && Paid() && expectedBodyBytes.Some? && boundary == 0
      requires WholeHeader(head, expectedBodyBytes.value, limits)
      requires buffered.length + |piece| <= expectedBodyBytes.value
      modifies `expectedBodyBytes, `head, buffered, buffered.storage
      ensures buffered.Valid() && (buffered.storage == old(buffered.storage) || fresh(buffered.storage))
      ensures var body := old(buffered.Bytes()) + piece;
              && step == ReadBodyStep(body, old(expectedBodyBytes).value, json)
              && (!step.BadBody? ==> Framed())
              && (step.MoreBody? ==>
                  expectedBodyBytes == old(expectedBodyBytes) && head == old(head) && buffered.Bytes() == body)
              && (step.Body? ==> expectedBodyBytes.None? && buffered.Bytes() == [])
    {
      hide ParseHeader, Register, Amortized, AppendGrowth;
      HeaderFits(head, expectedBodyBytes.value, limits);
      AppendKeepsAmortized(buffered.Cost(), |piece|, limits.maxBodyBytes, LowerLimit(limits), UpperLimit(limits));
      var ok := buffered.Append(piece, limits.maxBodyBytes);
      ClearKeepsAmortized(buffered.Cost(), LowerLimit(limits), UpperLimit(limits));
      if !ok {
        return BadBody;
      }
      if buffered.length < expectedBodyBytes.value {
        return MoreBody;
      }
      match json.Parse(buffered.Bytes()) {
        case None => return BadBody;
        case Some(v) =>
          buffered.Clear();
          expectedBodyBytes, head := None, [];
          NothingIsOpen(limits);
          return Body(v);
      }
    }

    /** At the end of a chunk, what is held is what is pending. */
    lemma PendingIsAccepted(done: seq<V>, rest: seq<Byte>)
      requires Framed() && rest == []
      ensures Decode(done, head + buffered.Bytes() + rest, limits, json) == Accepted(done, head + buffered.Bytes())
    {
      hide Decode, WholeHeader, OpenHeader, Register, Amortized;
      if expectedBodyBytes.None? {
        HeaderDone([], buffered.Bytes());
        assert head + buffered.Bytes() + rest == buffered.Bytes();
        assert head + buffered.Bytes() == buffered.Bytes();
        OpenHeaderIsAccepted(done, buffered.Bytes(), limits, json);
      } else {
        OpenBodyIsAccepted(done, head, buffered.Bytes(), rest, expectedBodyBytes.value, limits, json);
      }
    }

    /** Takes one chunk; None is the thrown decode error. */
    method Push(chunk: seq<Byte>) returns (r: Option<seq<V>>)
      requires Valid()
      modifies this, buffered, buffered.storage
      ensures consumed == old(consumed) + chunk
      ensures buffered.storage == old(buffered.storage) || fresh(buffered.storage)
      ensures r.Some? <==> Decode([], consumed, limits, json).Accepted?
      ensures r.Some? ==> Valid() && decoded == old(decoded) + r.value
    {
      hide Decode, ReadHeader, ReadBody, WholeHeader, OpenHeader, Register, ParseHeader, Amortized, LowerLimit,
           UpperLimit;
      ghost var all := Decode([], consumed + chunk, limits, json);
      ghost var done := decoded;
      DecodeResumes([], consumed, chunk, limits, json);
      consumed := consumed + chunk;
      var values: seq<V> := [];
      var offset := 0;
      while offset < |chunk|
        modifies `expectedBodyBytes, `boundary, `head, buffered, buffered.storage
        invariant offset <= |chunk| && done == decoded + values
        invariant Framed()
        invariant buffered.storage == old(buffered.storage) || fresh(buffered.storage)
        invariant all == Decode(done, head + buffered.Bytes() + chunk[offset..], limits, json)
      {
        if expectedBodyBytes.None? {
          ghost var before := buffered.Bytes();
          HeaderSplit(head, before, chunk, offset);
          var step := TakeHeaderByte(chunk[offset]);
          offset := offset + 1;
          if step.Bad? {
            BadHeaderRefused(done, before, chunk[offset - 1], chunk[offset..], limits, json);
            return None;
          }
          if step.More? {
            NothingBefore(buffered.Bytes());
            continue;
          }
          HeaderDone(head, chunk[offset..]);
        }
        ghost var held, rest, size0 := buffered.Bytes(), chunk[offset..], expectedBodyBytes.value;
        var size := Min(expectedBodyBytes.value - buffered.length, |chunk| - offset);
        SliceOfRest(chunk, offset, size);
        BodyPiece(done, head, held, rest, size0, size, limits, json);
        var step := TakeBody(chunk[offset..offset + size]);
        offset := offset + size;
        if step.BadBody? {
          return None;
        }
        if step.Body? {
          Snoc(decoded, values, step.value);
          values, done := values + [step.value], done + [step.value];
          NothingBefore(chunk[offset..]);
          HeaderDone([], chunk[offset..]);
        } else {
          PendingIsAccepted(done, chunk[offset..]);
        }
      }
      PendingIsAccepted(done, chunk[offset..]);
      decoded := done;
      return Some(values);
    }

    /** However much came in, its buffer copied less than three times the longest
        frame. */
    lemma CopiesLittle()
      requires Valid()
      ensures buffered.copied == 0 || buffered.copied < 3 * buffered.peak
    {
      AmortizedIsThrifty(buffered.Cost(), LowerLimit(limits), UpperLimit(limits));
    }

    /** The end of the stream; None is the thrown incomplete-frame error. */
    method Finish() returns (r: Option<seq<V>>)
      requires Valid()
      ensures r == if Decode([], consumed, limits, json).pending == [] then Some([]) else None
    {
      hide ParseHeader;
      r := if expectedBodyBytes.Some? || buffered.length > 0 then None else Some([]);
    }
  }

  lemma NothingIsOpen(limits: Limits)
    ensures OpenHeader([], limits) && Register([]) == 0
  {
  }

  lemma HeaderFits(head: seq<Byte>, size: nat, limits: Limits)
    requires WholeHeader(head, size, limits)
    ensures size <= limits.maxBodyBytes
  {
  }

  lemma HeaderSplit(head: seq<Byte>, before: seq<Byte>, chunk: seq<Byte>, offset: nat)
    requires head == [] && offset < |chunk|
    ensures head + before + chunk[offset..] == before + [chunk[offset]] + chunk[offset + 1..]
    ensures before + [chunk[offset]] + chunk[offset + 1..] == [] + (before + [chunk[offset]]) + chunk[offset + 1..]
  {
  }

  lemma HeaderDone(head: seq<Byte>, rest: seq<Byte>)
    ensures head + rest == head + [] + rest
  {
  }

  lemma OpenBodyIsAccepted<V>(done: seq<V>, head: seq<Byte>, body: seq<Byte>, nothing: seq<Byte>, size: nat,
                              limits: Limits, json: Json<V>)
    requires WholeHeader(head, size, limits) && |body| < size && nothing == []
    ensures Decode(done, head + body + nothing, limits, json) == Accepted(done, head + body)
  {
    hide Decode, WholeHeader;
    WholeHeaderReadsBody(done, head, size, body, limits, json);
    assert head + body + nothing == head + body;
  }

  /** One piece of a body, on values. */
  lemma BodyPiece<V>(done: seq<V>, head: seq<Byte>, held: seq<Byte>, rest: seq<Byte>, size: nat, k: nat, limits: Limits,
                     json: Json<V>)
    requires WholeHeader(head, size, limits) && |held| <= size
    requires k == Min(size - |held|, |rest|)
    ensures var all := Decode(done, head + held + rest, limits, json);
            match ReadBodyStep(held + rest[..k], size, json)
            case MoreBody => k == |rest| && all == Accepted(done, head + (held + rest[..k]))
            case BadBody => all == Rejected
            case Body(v) => all == Decode(done + [v], rest[k..], limits, json)
  {
    hide Decode, WholeHeader;
    assert head + held + rest == head + (held + rest);
    WholeHeaderReadsBody(done, head, size, held + rest, limits, json);
    if |held + rest| < size {
      assert rest[..k] == rest;
    } else {
      assert (held + rest)[..size] == held + rest[..k] && (held + rest)[size..] == rest[k..];
    }
  }

  lemma OpenHeaderIsShort(s: seq<Byte>, limits: Limits)
    requires OpenHeader(s, limits)
    ensures |s| <= limits.maxHeaderBytes + 3
  {
  }

  // --- The encoder ---

  const BLANK: seq<Byte> := [CR, LF, CR, LF]

  predicate ValidLimits(limits: Limits) {
    1 <= limits.maxHeaderBytes <= MAX_SAFE_INTEGER && 1 <= limits.maxBodyBytes <= MAX_SAFE_INTEGER
  }

  function Header(size: nat): seq<Byte> { LABEL + Print(size) }

  function Encode<V>(v: V, limits: Limits, json: Json<V>): Option<seq<Byte>> {
    match json.Stringify(v)
    case None => None
    case Some(body) => if |body| > limits.maxBodyBytes then None else Some(Header(|body|) + BLANK + body)
  }

  function EncodeAll<V>(vs: seq<V>, limits: Limits, json: Json<V>): Option<seq<Byte>> {
    if vs == [] then Some([])
    else
      match (Encode(vs[0], limits, json), EncodeAll(vs[1..], limits, json))
      case (Some(first), Some(rest)) => Some(first + rest)
      case _ => None
  }

  lemma {:induction false} NoCRNoSplit(s: seq<Byte>)
    requires CR !in s
    ensures SplitLines(s) == [s]
  {
    if s != [] {
      NoCRNoSplit(s[1..]);
      assert s[0] in s && [s[0]] + s[1..] == s;
    }
  }

  lemma DigitsAreNumber(digits: seq<Byte>)
    requires digits != [] && forall b | b in digits :: IsDigit(b)
    ensures LengthNumber([SPACE] + digits) == Some(Read(digits))
  {
    var s := [SPACE] + digits;
    assert s[..1] == [SPACE] && s[1..] == digits && digits[0] in digits;
    LeadingIs(s, 1, (b: Byte) => IsSpace(b));
    assert digits[..|digits|] == digits && digits[|digits|..] == [];
    LeadingIs(digits, |digits|, (b: Byte) => IsDigit(b));
  }

  lemma LabelIsField(rest: seq<Byte>)
    ensures LengthValue(LABEL + rest) == Some([SPACE] + rest)
  {
    var line := LABEL + rest;
    var tail := line[|FIELD|..];
    assert tail == [COLON, SPACE] + rest;
    assert tail[..0] == [];
    LeadingIs(tail, 0, (b: Byte) => IsSpace(b));
    assert tail[1..] == [SPACE] + rest;
  }

  /** The header the encoder writes announces the size it was given. */
  lemma HeaderParses(size: nat, max: nat)
    requires size <= max <= MAX_SAFE_INTEGER
    ensures ParseHeader(Header(size), max) == Some(size)
  {
    hide Print, Read, LengthValue, LengthNumber;
    var digits := Print(size);
    forall b | b in Header(size) ensures b != CR {
      assert b in LABEL || b in digits;
    }
    NoCRNoSplit(Header(size));
    LabelIsField(digits);
    DigitsAreNumber(digits);
    ReadUndoesPrint(size);
    assert LengthLines([Header(size)]) == [Header(size)] by {
      assert [Header(size)][1..] == [];
    }
  }

  lemma HeaderEndsAtBlank(size: nat, rest: seq<Byte>)
    ensures HeaderEnd(Header(size) + BLANK + rest) == |Header(size)|
  {
    var header := Header(size);
    var s := header + BLANK + rest;
    forall k: nat | k < |header| ensures !BlankLineAt(s, k) {
      assert s[k] == header[k] && header[k] in LABEL + Print(size);
      assert header[k] in LABEL || header[k] in Print(size);
    }
    HeaderEndIs(s, |header|);
  }

  /** One encoded value at the head of a stream. The encoder does not check the
      header limit: the frame is read back if and only if its header fits. */
  lemma FrameReadsBack<V(!new)>(done: seq<V>, v: V, rest: seq<Byte>, limits: Limits, json: Json<V>)
    requires Lawful(json) && ValidLimits(limits)
    requires Encode(v, limits, json).Some?
    ensures var size := |json.Stringify(v).value|;
            Decode(done, Encode(v, limits, json).value + rest, limits, json) ==
            if |Header(size)| > limits.maxHeaderBytes then Rejected
            else Decode(done + [v], rest, limits, json)
  {
    hide Decode, ParseHeader, Header, HeaderEnd;
    var body := json.Stringify(v).value;
    assert LawfulText(json, v, body);
    var header := Header(|body|);
    var s := header + BLANK + body + rest;
    assert s == header + BLANK + (body + rest);
    HeaderEndsAtBlank(|body|, body + rest);
    HeaderParses(|body|, limits.maxBodyBytes);
    DecodeUnfolds(done, s, |header|, limits, json);
    assert s[..|header|] == header && s[|header| + 4..] == body + rest;
    assert (body + rest)[..|body|] == body && (body + rest)[|body|..] == rest;
  }

  ghost predicate HeadersFit<V>(vs: seq<V>, limits: Limits, json: Json<V>) {
    forall v | v in vs :: json.Stringify(v).Some? ==> |Header(|json.Stringify(v).value|)| <= limits.maxHeaderBytes
  }

  /** Values are encodable exactly when each has a JSON text within the limit. */
  lemma {:induction false} EncodableExactly<V>(vs: seq<V>, limits: Limits, json: Json<V>)
    ensures EncodeAll(vs, limits, json).Some? <==>
            forall i | 0 <= i < |vs| ::
              json.Stringify(vs[i]).Some? && |json.Stringify(vs[i]).value| <= limits.maxBodyBytes
  {
    hide Header;
    if vs != [] {
      EncodableExactly(vs[1..], limits, json);
      assert forall i | 1 <= i < |vs| :: vs[i] == vs[1..][i - 1];
    }
  }

  /** Decoding undoes encoding: the concatenated frames of any encodable values
      whose headers fit decode to exactly those values, with nothing pending. */
  lemma {:induction false} RoundTrip<V(!new)>(done: seq<V>, vs: seq<V>, limits: Limits, json: Json<V>)
    requires Lawful(json) && ValidLimits(limits)
    requires EncodeAll(vs, limits, json).Some? && HeadersFit(vs, limits, json)
    ensures Decode(done, EncodeAll(vs, limits, json).value, limits, json) == Accepted(done + vs, [])
    decreases |vs|
  {
    hide Decode, Encode, Header;
    if vs == [] {
      NothingIsOpen(limits);
      OpenHeaderIsAccepted(done, [], limits, json);
      assert done + vs == done;
    } else {
      var rest := EncodeAll(vs[1..], limits, json).value;
      EncodedHasText(vs[0], limits, json);
      FrameReadsBack(done, vs[0], rest, limits, json);
      RoundTrip(done + [vs[0]], vs[1..], limits, json);
      assert done + [vs[0]] + vs[1..] == done + vs;
    }
  }

  lemma EncodedHasText<V>(v: V, limits: Limits, json: Json<V>)
    requires Encode(v, limits, json).Some?
    ensures json.Stringify(v).Some?
  {
  }

  /** Feeds every chunk to a fresh decoder, then ends the stream: whatever the
      chunking, the outcome is that of the bytes glued together. */
  method DecodeAll<V>(chunks: seq<seq<Byte>>, limits: Limits, json: Json<V>) returns (r: Option<seq<V>>)
    ensures r == Finished(Decode([], Flatten(chunks), limits, json))
  {
    hide Decode, OpenHeader, WholeHeader;
    var decoder := new ContentLengthDecoder(limits, json);
    var values: seq<V> := [];
    for i := 0 to |chunks|
      invariant fresh(decoder) && fresh(decoder.buffered) && fresh(decoder.buffered.storage)
      invariant decoder.limits == limits && decoder.json == json
      invariant decoder.Valid() && decoder.decoded == values
      invariant decoder.consumed == Flatten(chunks[..i])
    {
      assert chunks[..i + 1] == chunks[..i] + [chunks[i]];
      FlattenSnoc(chunks[..i], chunks[i]);
      var pushed := decoder.Push(chunks[i]);
      if pushed.None? {
        RefusedForGood(chunks, i + 1, limits, json);
        return None;
      }
      values := values + pushed.value;
    }
    assert chunks[..|chunks|] == chunks;
    var rest := decoder.Finish();
    assert values + [] == values;
    return if rest.Some? then Some(values + rest.value) else None;
  }

  lemma RefusedForGood<V>(chunks: seq<seq<Byte>>, i: nat, limits: Limits, json: Json<V>)
    requires i <= |chunks|
    requires Decode([], Flatten(chunks[..i]), limits, json).Rejected?
    ensures Decode([], Flatten(chunks), limits, json).Rejected?
  {
    hide Decode;
    FlattenSplit(chunks, i);
    DecodeResumes([], Flatten(chunks[..i]), Flatten(chunks[i..]), limits, json);
  }
}
