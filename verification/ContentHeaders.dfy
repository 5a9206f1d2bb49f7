/** What a Content-Length header of any number of lines announces, told by the
    lines themselves. */
module ContentHeaders {
  import opened Prelude
  import opened Framing
  import opened Decimals
  import opened ContentLength

  /** "CONTENT-LENGTH" */
  const UPPER_FIELD: seq<Byte> := [0x43, 0x4f, 0x4e, 0x54, 0x45, 0x4e, 0x54, 0x2d, 0x4c, 0x45, 0x4e, 0x47, 0x54, 0x48]

  ghost predicate IsLine(line: seq<Byte>) {
    forall k | 0 <= k < |line| - 1 :: !(line[k] == CR && line[k + 1] == LF)
  }

  /** Lines with a CR LF between each two. */
  function JoinLines(lines: seq<seq<Byte>>): seq<Byte> {
    if lines == [] then [] else if |lines| == 1 then lines[0] else lines[0] + [CR, LF] + JoinLines(lines[1..])
  }

  ghost predicate Spaces(s: seq<Byte>) { forall b | b in s :: IsSpace(b) }

  /** The name content-length, each letter in either case. */
  ghost predicate IsName(name: seq<Byte>) {
    |name| == |FIELD| && forall i | 0 <= i < |name| :: name[i] == FIELD[i] || name[i] == UPPER_FIELD[i]
  }

  /** The name, optional space, a colon, and the value. */
  ghost predicate Assigns(line: seq<Byte>, name: seq<Byte>, gap: seq<Byte>, value: seq<Byte>) {
    IsName(name) && Spaces(gap) && line == name + gap + [COLON] + value
  }

  ghost predicate IsLengthLine(line: seq<Byte>) {
    exists name, gap, value :: Assigns(line, name, gap, value)
  }

  /** The decimal numeral of n, perhaps behind zeros, with optional space around. */
  ghost predicate Spells(value: seq<Byte>, before: seq<Byte>, zeros: seq<Byte>, n: nat, after: seq<Byte>) {
    && Spaces(before) && Spaces(after) && (forall b | b in zeros :: b == ZERO)
    && value == before + (zeros + Print(n)) + after
  }

  /** The line says the body has n bytes. */
  ghost predicate SaysLength(line: seq<Byte>, n: nat) {
    exists name, gap, before, zeros, after, value ::
      Assigns(line, name, gap, value) && Spells(value, before, zeros, n, after)
  }

  /** Line i, and no other, is a length line; it says n, which is within the
      limit. */
  ghost predicate Announces(lines: seq<seq<Byte>>, i: nat, n: nat, maxBodyBytes: nat) {
    && i < |lines| && SaysLength(lines[i], n) && n <= maxBodyBytes && n <= MAX_SAFE_INTEGER
    && forall j | 0 <= j < |lines| && j != i :: !IsLengthLine(lines[j])
  }

  // --- Lines ---

  lemma {:induction false} FirstLine(line: seq<Byte>, rest: seq<Byte>)
    requires IsLine(line)
    ensures SplitLines(line) == [line]
    ensures SplitLines(line + [CR, LF] + rest) == [line] + SplitLines(rest)
  {
    var s := line + [CR, LF] + rest;
    if line == [] {
      assert s[2..] == rest;
    } else {
      assert IsLine(line[1..]);
      FirstLine(line[1..], rest);
      assert s[1..] == line[1..] + [CR, LF] + rest;
      assert [line[0]] + line[1..] == line;
    }
  }

  lemma {:induction false} SplittingUndoesJoining(lines: seq<seq<Byte>>)
    requires lines != [] && forall line | line in lines :: IsLine(line)
    ensures SplitLines(JoinLines(lines)) == lines
  {
    hide SplitLines;
    if |lines| == 1 {
      FirstLine(lines[0], []);
    } else {
      FirstLine(lines[0], JoinLines(lines[1..]));
      SplittingUndoesJoining(lines[1..]);
    }
  }

  // --- One line ---

  lemma NameExactly(name: seq<Byte>)
    requires |name| == |FIELD|
    ensures IsName(name) <==> !exists i | 0 <= i < |FIELD| :: Lower(name[i]) != FIELD[i]
  {
    forall i | 0 <= i < |FIELD|
      ensures Lower(name[i]) == FIELD[i] <==> name[i] == FIELD[i] || name[i] == UPPER_FIELD[i]
    {
      OneLetter(name[i], i);
    }
  }

  lemma OneLetter(b: Byte, i: nat)
    requires i < |FIELD|
    ensures Lower(b) == FIELD[i] <==> b == FIELD[i] || b == UPPER_FIELD[i]
  {
    assert FIELD[i] == UPPER_FIELD[i] || (0x41 <= UPPER_FIELD[i] <= 0x5a && FIELD[i] == UPPER_FIELD[i] + 0x20);
  }

  /** What the decoder finds behind the name. */
  function BehindName(tail: seq<Byte>): Option<seq<Byte>> {
    var rest := SkipSpaces(tail);
    if rest != [] && rest[0] == COLON then Some(rest[1..]) else None
  }

  lemma LengthValueOf(name: seq<Byte>, tail: seq<Byte>)
    requires |name| == |FIELD|
    ensures LengthValue(name + tail) == if IsName(name) then BehindName(tail) else None
  {
    hide IsName, SkipSpaces, Lower, FIELD;
    NameExactly(name);
    var line := name + tail;
    assert line[|FIELD|..] == tail;
    assert forall i | 0 <= i < |FIELD| :: line[i] == name[i];
  }

  lemma BehindNameIs(gap: seq<Byte>, value: seq<Byte>)
    requires Spaces(gap)
    ensures BehindName(gap + [COLON] + value) == Some(value)
  {
    var tail := gap + [COLON] + value;
    assert tail[..|gap|] == gap && tail[|gap|] == COLON;
    LeadingIs(tail, |gap|, (b: Byte) => IsSpace(b));
    assert tail[|gap|..] == [COLON] + value;
  }

  lemma BehindNameSplits(tail: seq<Byte>) returns (gap: seq<Byte>)
    requires BehindName(tail).Some?
    ensures Spaces(gap) && tail == gap + [COLON] + BehindName(tail).value
  {
    var k := Leading(tail, (b: Byte) => IsSpace(b));
    gap := tail[..k];
    assert tail == gap + [tail[k]] + tail[k + 1..];
  }

  lemma LengthValueIs(line: seq<Byte>, name: seq<Byte>, gap: seq<Byte>, value: seq<Byte>)
    requires Assigns(line, name, gap, value)
    ensures LengthValue(line) == Some(value)
  {
    hide BehindName, LengthValue, FIELD, Spaces;
    var tail := gap + [COLON] + value;
    assert line == name + tail;
    assert |name| == |FIELD|;
    LengthValueOf(name, tail);
    BehindNameIs(gap, value);
  }

  lemma LengthValueAssigns(line: seq<Byte>) returns (name: seq<Byte>, gap: seq<Byte>)
    requires LengthValue(line).Some?
    ensures Assigns(line, name, gap, LengthValue(line).value)
  {
    hide BehindName, FIELD, Spaces, IsName;
    name := line[..|FIELD|];
    var tail := line[|FIELD|..];
    assert line == name + tail;
    LengthValueOf(name, tail);
    gap := BehindNameSplits(tail);
    var value := LengthValue(line).value;
    assert name + tail == name + gap + [COLON] + value;
  }

  lemma LengthLineExactly(line: seq<Byte>)
    ensures LengthValue(line).Some? <==> IsLengthLine(line)
  {
    hide LengthValue;
    if LengthValue(line).Some? {
      var name, gap := LengthValueAssigns(line);
    }
    if name, gap, value :| Assigns(line, name, gap, value) {
      LengthValueIs(line, name, gap, value);
    }
  }

  // --- The number ---

  lemma {:induction false} ReadWithZeros(zeros: seq<Byte>, n: nat)
    requires forall b | b in zeros :: b == ZERO
    ensures forall b | b in zeros + Print(n) :: IsDigit(b)
    ensures Read(zeros + Print(n)) == n
    decreases n
  {
    var s := zeros + Print(n);
    if n < 10 {
      assert s[..|s| - 1] == zeros;
      ReadZeros(zeros);
    } else {
      ReadWithZeros(zeros, n / 10);
      assert s[..|s| - 1] == zeros + Print(n / 10);
    }
  }

  lemma {:induction false} ReadZeros(zeros: seq<Byte>)
    requires forall b | b in zeros :: b == ZERO
    ensures Read(zeros) == 0
  {
    if zeros != [] {
      var init, last := zeros[..|zeros| - 1], zeros[|zeros| - 1];
      assert last in zeros && forall b | b in init :: b in zeros;
      ReadZeros(init);
    }
  }

  /** Every string of digits is the numeral of its number, behind zeros. */
  lemma {:induction false} DigitsSpell(digits: seq<Byte>) returns (zeros: seq<Byte>)
    requires digits != [] && forall b | b in digits :: IsDigit(b)
    ensures (forall b | b in zeros :: b == ZERO) && digits == zeros + Print(Read(digits))
  {
    var init, last := digits[..|digits| - 1], digits[|digits| - 1];
    assert digits == init + [last] && last in digits && forall b | b in init :: b in digits;
    var n := Read(digits);
    assert n == 10 * Read(init) + (last - ZERO);
    if init == [] {
      zeros := [];
      assert Print(n) == [last];
    } else {
      var z := DigitsSpell(init);
      if Read(init) == 0 {
        zeros := z + [ZERO];
        assert init == zeros;
        assert Print(n) == [last];
      } else {
        zeros := z;
        assert n / 10 == Read(init) && n % 10 == last - ZERO;
        assert Print(n) == Print(Read(init)) + [last];
        Associates(zeros, Print(Read(init)), [last]);
      }
    }
  }

  lemma LengthNumberIs(value: seq<Byte>, before: seq<Byte>, zeros: seq<Byte>, n: nat, after: seq<Byte>)
    requires Spells(value, before, zeros, n, after)
    ensures LengthNumber(value) == Some(n)
  {
    hide Print, Read, SkipSpaces, Spaces;
    var digits := zeros + Print(n);
    ReadWithZeros(zeros, n);
    SpacesSkipped(before, digits, after);
    SpacesSkipped(after, [], []);
    NothingBefore(after);
    DigitsEnd(digits, after);
  }

  lemma SpacesSkipped(before: seq<Byte>, digits: seq<Byte>, after: seq<Byte>)
    requires Spaces(before) && (digits == [] ==> after == []) && forall b | b in digits :: IsDigit(b)
    ensures SkipSpaces(before + digits + after) == digits + after
    ensures digits == [] ==> SkipSpaces(before) == []
  {
    var s := before + digits + after;
    assert s[..|before|] == before && s[|before|..] == digits + after;
    assert digits != [] ==> digits[0] in digits && s[|before|] == digits[0];
    LeadingIs(s, |before|, (b: Byte) => IsSpace(b));
    assert digits == [] ==> s == before;
  }

  lemma DigitsEnd(digits: seq<Byte>, after: seq<Byte>)
    requires digits != [] && (forall b | b in digits :: IsDigit(b)) && Spaces(after)
    ensures Leading(digits + after, (b: Byte) => IsDigit(b)) == |digits|
    ensures (digits + after)[..|digits|] == digits && (digits + after)[|digits|..] == after
  {
    var s := digits + after;
    assert s[..|digits|] == digits;
    assert after != [] ==> after[0] in after && s[|digits|] == after[0];
    LeadingIs(s, |digits|, (b: Byte) => IsDigit(b));
  }

  lemma LengthNumberSpells(value: seq<Byte>) returns (before: seq<Byte>, zeros: seq<Byte>, after: seq<Byte>)
    requires LengthNumber(value).Some?
    ensures Spells(value, before, zeros, LengthNumber(value).value, after)
  {
    hide SkipSpaces, LengthNumber, Print, Read, Spaces;
    before := SpacesSplit(value);
    var digits;
    digits, after := NumberSplits(value);
    zeros := DigitsSpell(digits);
    Associates(before, digits, after);
  }

  lemma SpacesSplit(s: seq<Byte>) returns (before: seq<Byte>)
    ensures Spaces(before) && s == before + SkipSpaces(s)
  {
    before := s[..Leading(s, (b: Byte) => IsSpace(b))];
  }

  lemma NumberSplits(value: seq<Byte>) returns (digits: seq<Byte>, after: seq<Byte>)
    requires LengthNumber(value).Some?
    ensures digits != [] && (forall b | b in digits :: IsDigit(b)) && Spaces(after)
    ensures SkipSpaces(value) == digits + after && LengthNumber(value) == Some(Read(digits))
  {
    hide SkipSpaces, Read, Spaces;
    var s := SkipSpaces(value);
    var k := Leading(s, (b: Byte) => IsDigit(b));
    digits, after := s[..k], s[k..];
    OnlySpaces(after);
  }

  lemma OnlySpaces(s: seq<Byte>)
    requires SkipSpaces(s) == []
    ensures Spaces(s)
  {
    assert s[..|s|] == s;
  }

  /** A line says at most one length, the one the decoder reads. */
  lemma SaysLengthExactly(line: seq<Byte>, n: nat)
    ensures SaysLength(line, n) <==> LengthValue(line).Some? && LengthNumber(LengthValue(line).value) == Some(n)
  {
    hide LengthValue, LengthNumber;
    if LengthValue(line).Some? && LengthNumber(LengthValue(line).value) == Some(n) {
      var name, gap := LengthValueAssigns(line);
      var before, zeros, after := LengthNumberSpells(LengthValue(line).value);
    }
    if SaysLength(line, n) {
      var name, gap, before, zeros, after, value :|
        Assigns(line, name, gap, value) && Spells(value, before, zeros, n, after);
      LengthValueIs(line, name, gap, value);
      LengthNumberIs(value, before, zeros, n, after);
    }
  }

  // --- The header ---

  /** Which lines the filter keeps. */
  lemma {:induction false} LengthLinesAre(lines: seq<seq<Byte>>)
    ensures LengthLines(lines) == [] <==> forall j | 0 <= j < |lines| :: LengthValue(lines[j]).None?
    ensures forall i | 0 <= i < |lines| && LengthValue(lines[i]).Some? ::
              (forall j | 0 <= j < |lines| && j != i :: LengthValue(lines[j]).None?) <==> |LengthLines(lines)| == 1
    ensures |LengthLines(lines)| == 1 ==>
              exists i :: 0 <= i < |lines| && LengthValue(lines[i]).Some? && LengthLines(lines) == [lines[i]]
  {
    hide LengthValue;
    if lines != [] {
      var rest := lines[1..];
      LengthLinesAre(rest);
      assert forall j | 1 <= j < |lines| :: lines[j] == rest[j - 1];
      assert forall j | 0 <= j < |rest| :: rest[j] == lines[j + 1];
      assert LengthLines(lines) == (if LengthValue(lines[0]).Some? then [lines[0]] else []) + LengthLines(rest);
      forall i | 0 <= i < |lines| && LengthValue(lines[i]).Some?
        ensures (forall j | 0 <= j < |lines| && j != i :: LengthValue(lines[j]).None?) <==> |LengthLines(lines)| == 1
      {
        if i > 0 {
          assert LengthValue(rest[i - 1]).Some?;
        }
      }
    }
  }

  /** A header of any lines parses to n exactly when one of them, and no other, is
      a length line, and it says n within the limit. */
  lemma HeaderExactly(lines: seq<seq<Byte>>, n: nat, maxBodyBytes: nat)
    requires lines != [] && forall line | line in lines :: IsLine(line)
    ensures ParseHeader(JoinLines(lines), maxBodyBytes) == Some(n) <==>
            exists i: nat :: Announces(lines, i, n, maxBodyBytes)
  {
    hide LengthValue, LengthNumber, LengthLines, SplitLines, SaysLength, IsLengthLine;
    SplittingUndoesJoining(lines);
    LengthLinesAre(lines);
    forall j | 0 <= j < |lines|
      ensures LengthValue(lines[j]).Some? <==> IsLengthLine(lines[j])
      ensures SaysLength(lines[j], n) <==>
              LengthValue(lines[j]).Some? && LengthNumber(LengthValue(lines[j]).value) == Some(n)
    {
      LengthLineExactly(lines[j]);
      SaysLengthExactly(lines[j], n);
    }
    if ParseHeader(JoinLines(lines), maxBodyBytes) == Some(n) {
      var i: nat :| i < |lines| && LengthValue(lines[i]).Some? && LengthLines(lines) == [lines[i]];
      assert Announces(lines, i, n, maxBodyBytes);
    }
  }

  // --- The frame ---

  /** The lines of a header: none is empty, or the header is. */
  ghost predicate HeaderLines(lines: seq<seq<Byte>>) {
    && lines != [] && (forall line | line in lines :: IsLine(line))
    && (lines == [[]] || forall line | line in lines :: line != [])
  }

  lemma {:induction false} NoBlankLineInside(lines: seq<seq<Byte>>, rest: seq<Byte>, k: nat)
    requires HeaderLines(lines) && k < |JoinLines(lines)|
    ensures !BlankLineAt(JoinLines(lines) + BLANK + rest, k)
  {
    hide BlankLineAt;
    var line := lines[0];
    assert line in lines;
    if |lines| == 1 {
      assert line + BLANK + rest == line + [CR, LF] + ([CR, LF] + rest);
      NoneWithin(line, [CR, LF] + rest, k);
    } else {
      LaterLines(lines);
      var t := JoinLines(lines[1..]) + BLANK + rest;
      Regroups(line, JoinLines(lines[1..]), rest);
      if k < |line| + 2 {
        SecondLineStarts(lines[1..], rest);
        if k < |line| {
          NoneWithin(line, t, k);
        } else {
          NoneBetween(line, t, k);
        }
      } else {
        NoBlankLineInside(lines[1..], rest, k - |line| - 2);
        Later(line + [CR, LF], t, k - |line| - 2);
      }
    }
  }

  lemma LaterLines(lines: seq<seq<Byte>>)
    requires HeaderLines(lines) && |lines| > 1
    ensures HeaderLines(lines[1..]) && lines[1] != [] && IsLine(lines[1]) && lines[1..][0] == lines[1]
  {
    assert forall l | l in lines[1..] :: l in lines;
    assert lines[1] in lines;
  }

  lemma Regroups(line: seq<Byte>, others: seq<Byte>, rest: seq<Byte>)
    ensures line + [CR, LF] + others + BLANK + rest == line + [CR, LF] + (others + BLANK + rest)
  {
  }

  lemma NoneWithin(line: seq<Byte>, t: seq<Byte>, k: nat)
    requires IsLine(line) && k < |line|
    ensures !BlankLineAt(line + [CR, LF] + t, k)
  {
    var s := line + [CR, LF] + t;
    assert s[k] == line[k] && s[k + 1] == if k + 1 < |line| then line[k + 1] else CR;
  }

  lemma NoneBetween(line: seq<Byte>, t: seq<Byte>, k: nat)
    requires |line| <= k < |line| + 2 && |t| >= 2 && !(t[0] == CR && t[1] == LF)
    ensures !BlankLineAt(line + [CR, LF] + t, k)
  {
  }

  lemma Later(a: seq<Byte>, t: seq<Byte>, k: nat)
    ensures BlankLineAt(a + t, |a| + k) == BlankLineAt(t, k)
  {
  }

  lemma SecondLineStarts(lines: seq<seq<Byte>>, rest: seq<Byte>)
    requires lines != [] && lines[0] != [] && IsLine(lines[0])
    ensures var t := JoinLines(lines) + BLANK + rest;
            |t| >= 2 && !(t[0] == CR && t[1] == LF)
  {
  }

  lemma HeaderEndsHere(lines: seq<seq<Byte>>, rest: seq<Byte>)
    requires HeaderLines(lines)
    ensures HeaderEnd(JoinLines(lines) + BLANK + rest) == |JoinLines(lines)|
  {
    var header := JoinLines(lines);
    hide JoinLines, HeaderLines;
    forall k: nat | k < |header| ensures !BlankLineAt(header + BLANK + rest, k) {
      NoBlankLineInside(lines, rest, k);
    }
    HeaderEndIs(header + BLANK + rest, |header|);
  }

  /** A header that fits and announces n is followed by a body of n bytes, be it
      one line or many. */
  lemma FrameOfLines<V>(done: seq<V>, lines: seq<seq<Byte>>, i: nat, n: nat, rest: seq<Byte>, limits: Limits,
                        json: Json<V>)
    requires HeaderLines(lines) && Announces(lines, i, n, limits.maxBodyBytes)
    requires |JoinLines(lines)| <= limits.maxHeaderBytes
    ensures var s := JoinLines(lines) + BLANK + rest;
            Decode(done, s, limits, json) ==
            if |rest| < n then Accepted(done, s)
            else if json.Parse(rest[..n]).None? then Rejected
            else Decode(done + [json.Parse(rest[..n]).value], rest[n..], limits, json)
  {
    hide Decode, ParseHeader, JoinLines, Announces, HeaderEnd;
    HeaderExactly(lines, n, limits.maxBodyBytes);
    HeaderEndsHere(lines, rest);
    var header := JoinLines(lines);
    var s := header + BLANK + rest;
    DecodeUnfolds(done, s, |header|, limits, json);
    assert s[..|header|] == header && s[|header| + 4..] == rest && s[..|header| + 4] + rest == s;
  }

  /** A header that announces nothing, or does not fit, is refused. */
  lemma SilentHeaderRefused<V>(done: seq<V>, lines: seq<seq<Byte>>, rest: seq<Byte>, limits: Limits, json: Json<V>)
    requires HeaderLines(lines)
    requires |JoinLines(lines)| > limits.maxHeaderBytes ||
             !exists i: nat, n: nat :: Announces(lines, i, n, limits.maxBodyBytes)
    ensures Decode(done, JoinLines(lines) + BLANK + rest, limits, json) == Rejected
  {
    hide Decode, ParseHeader, JoinLines, Announces, HeaderEnd;
    HeaderEndsHere(lines, rest);
    var header := JoinLines(lines);
    var s := header + BLANK + rest;
    DecodeUnfolds(done, s, |header|, limits, json);
    assert s[..|header|] == header;
    if |header| <= limits.maxHeaderBytes && ParseHeader(header, limits.maxBodyBytes).Some? {
      HeaderExactly(lines, ParseHeader(header, limits.maxBodyBytes).value, limits.maxBodyBytes);
    }
  }

  /** Announcing something is having one length line, not none and not two, that
      says a number within the limits. */
  lemma AnnouncesExactly(lines: seq<seq<Byte>>, maxBodyBytes: nat)
    ensures (exists i: nat, n: nat :: Announces(lines, i, n, maxBodyBytes)) <==>
            && (exists i :: 0 <= i < |lines| && IsLengthLine(lines[i]))
            && (forall i, j | 0 <= i < j < |lines| :: !IsLengthLine(lines[i]) || !IsLengthLine(lines[j]))
            && (forall i | 0 <= i < |lines| && IsLengthLine(lines[i]) :: exists n: nat :: SaysLength(lines[i], n))
            && (forall i, n: nat | 0 <= i < |lines| && SaysLength(lines[i], n) ::
                  n <= maxBodyBytes && n <= MAX_SAFE_INTEGER)
  {
    forall j, n: nat | 0 <= j < |lines| && SaysLength(lines[j], n)
      ensures IsLengthLine(lines[j]) && forall m: nat | SaysLength(lines[j], m) :: m == n
    {
      LengthLineExactly(lines[j]);
      forall m: nat | SaysLength(lines[j], m) ensures m == n {
        SaysLengthExactly(lines[j], n);
        SaysLengthExactly(lines[j], m);
      }
    }
    hide SaysLength, IsLengthLine;
    if i: nat, n: nat :| Announces(lines, i, n, maxBodyBytes) {
      assert IsLengthLine(lines[i]);
    }
    if i :| 0 <= i < |lines| && IsLengthLine(lines[i]) {
      if n: nat :| SaysLength(lines[i], n) {
        if n <= maxBodyBytes && n <= MAX_SAFE_INTEGER &&
           forall j | 0 <= j < |lines| && j != i :: !IsLengthLine(lines[j]) {
          assert Announces(lines, i, n, maxBodyBytes);
        }
      }
    }
  }

  /** What waits for more input is a header within the limit, not yet ended, or
      one header and less than the body it announces. */
  lemma {:induction false} PendingIsOneFrame<V>(done: seq<V>, s: seq<Byte>, limits: Limits, json: Json<V>)
    requires Decode(done, s, limits, json).Accepted?
    ensures var pending := Decode(done, s, limits, json).pending;
            var i := HeaderEnd(pending);
            if i == |pending| then |pending| <= limits.maxHeaderBytes + 3
            else i <= limits.maxHeaderBytes && |pending| < i + 4 + limits.maxBodyBytes
    decreases |s|
  {
    hide HeaderEnd;
    var i := HeaderEnd(s);
    if i < |s| {
      var size := ParseHeader(s[..i], limits.maxBodyBytes).value;
      var rest := s[i + 4..];
      if |rest| >= size {
        PendingIsOneFrame(done + [json.Parse(rest[..size]).value], rest[size..], limits, json);
      }
    }
  }
}
