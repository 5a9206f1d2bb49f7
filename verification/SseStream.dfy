/** Consuming a Server-Sent Events body piece by piece, under a byte budget. */
module SseStream {
  import opened Prelude
  import opened SseBlocks

  // --- UTF-8 lengths ---

  function CharBytes(c: char): nat {
    if c as int < 0x80 then 1 else if c as int < 0x800 then 2 else if c as int < 0x1_0000 then 3 else 4
  }

  function Utf8Len(s: string): nat {
    if s == "" then 0 else Utf8Len(s[..|s| - 1]) + CharBytes(s[|s| - 1])
  }

  lemma {:induction false} Utf8Append(a: string, b: string)
    ensures Utf8Len(a + b) == Utf8Len(a) + Utf8Len(b)
  {
    if b == "" {
      assert a + b == a;
    } else {
      var init := b[..|b| - 1];
      Utf8Append(a, init);
      assert (a + b)[..|a + b| - 1] == a + init;
    }
  }

  function Text(kind: Separator): string { if kind.LfLf? then "\n\n" else "\r\n\r\n" }

  lemma TextBytes(kind: Separator)
    ensures Utf8Len(Text(kind)) == kind.Size()
  {
    OneChar('\n');
    OneChar('\r');
    Utf8Append("\n", "\n");
    Utf8Append("\r", "\n");
    Utf8Append("\r\n", "\r\n");
    assert "\n" + "\n" == "\n\n" && "\r" + "\n" == "\r\n" && "\r\n" + "\r\n" == "\r\n\r\n";
  }

  lemma SeparatorBytes(s: string, kind: Separator, k: nat)
    requires SeparatorAt(s, kind, k)
    ensures Utf8Len(s) == Utf8Len(s[..k]) + kind.Size() + Utf8Len(s[k + kind.Size()..])
  {
    hide Utf8Len;
    var before, after := s[..k], s[k + kind.Size()..];
    assert s[k..k + kind.Size()] == Text(kind);
    assert s == before + Text(kind) + after;
    Utf8Append(before + Text(kind), after);
    Utf8Append(before, Text(kind));
    TextBytes(kind);
  }

  lemma OneChar(c: char)
    ensures Utf8Len([c]) == CharBytes(c)
  {
    assert [c][..0] == "";
  }

  /** Cutting a block off frees its bytes and those of its separator, which are
      as many as its characters. */
  lemma TakeNextBytes(s: string)
    requires TakeNext(s).Some?
    ensures var next := TakeNext(s).value;
            Utf8Len(s) == Utf8Len(next.block) + (|s| - |next.block| - |next.rest|) + Utf8Len(next.rest)
  {
    var k, kind := TakeNextFinds(s);
    SeparatorBytes(s, kind, k);
  }

  // --- The consumer ---

  /** What the surroundings do: whether the (latched) signal is seen aborted once
      so many pieces were fed and so many messages delivered, whether the handler
      throws on the k-th message, and whether the body is cut: a read rejects
      instead of reporting the end. */
  datatype Surroundings = Surroundings(aborted: (nat, nat) -> bool, throws: nat -> bool, cut: bool) {
    ghost predicate Quiet() {
      (forall fed, delivered :: !aborted(fed, delivered)) && (forall k :: !throws(k)) && !cut
    }
  }

  datatype End = Completed | Aborted | LimitExceeded | HandlerThrew | ReadFailed

  /** The messages a whole body text means: its complete blocks, then the
      trailing block. */
  function Meaning(s: string, number: ReadNumber): seq<SseMessage> {
    var drained := Drain([], s);
    Messages(drained.blocks, number) + MessageOf(drained.rest, number)
  }

  ghost predicate BlocksFit(blocks: seq<string>, max: nat) {
    forall block | block in blocks :: Utf8Len(block) <= max
  }

  /** No block is too long, and after no piece is too much text left over. */
  ghost predicate Fits(pieces: seq<string>, max: nat) {
    && BlocksFit(Drain([], Flatten(pieces)).blocks, max)
    && forall k | 0 <= k <= |pieces| :: Utf8Len(Drain([], Flatten(pieces[..k])).rest) <= max
  }

  lemma {:induction false} DrainAdds(done: seq<string>, s: string)
    ensures Drain(done, s).blocks == done + Drain([], s).blocks
    ensures Drain(done, s).rest == Drain([], s).rest
    decreases |s|
  {
    if TakeNext(s).Some? {
      var next := TakeNext(s).value;
      DrainAdds(done + [next.block], next.rest);
      DrainAdds([next.block], next.rest);
      assert [] + [next.block] == [next.block];
    }
  }

  /** Adds a decoded piece to the buffer, delivers every complete block, and
      checks the budget. None: more may come. */
  method AppendDecoded(buffer0: string, bufferedBytes0: nat, delivered0: seq<SseMessage>, decoded: string, fed: nat,
                       max: nat, number: ReadNumber, env: Surroundings)
    returns (buffer: string, bufferedBytes: nat, delivered: seq<SseMessage>, end: Option<End>)
    requires bufferedBytes0 == Utf8Len(buffer0) && TakeNext(buffer0).None?
    ensures bufferedBytes == Utf8Len(buffer)
    ensures var drained := Drain([], buffer0 + decoded);
            && delivered0 <= delivered <= delivered0 + Messages(drained.blocks, number)
            && (end.None? ==> buffer == drained.rest && delivered == delivered0 + Messages(drained.blocks, number))
            && (end.None? ==> BlocksFit(drained.blocks, max) && (decoded != "" ==> bufferedBytes <= max))
            && (end == Some(LimitExceeded) ==>
                  decoded != "" && (!BlocksFit(drained.blocks, max) || Utf8Len(drained.rest) > max))
    ensures end != Some(Completed) && end != Some(ReadFailed)
    ensures end == Some(HandlerThrew) ==> delivered != [] && env.throws(|delivered| - 1)
    ensures end == Some(Aborted) ==> env.aborted(fed, |delivered|)
  {
    hide Drain, Messages, Utf8Len, ReadBlock, TakeNext;
    ghost var drained := Drain([], buffer0 + decoded);
    buffer, bufferedBytes, delivered := buffer0, bufferedBytes0, delivered0;
    NothingDrained(buffer0, number);
    NothingBefore(delivered0);
    if decoded == "" {
      assert buffer0 + decoded == buffer0;
      return buffer, bufferedBytes, delivered, None;
    }
    if env.aborted(fed, |delivered|) {
      return buffer, bufferedBytes, delivered, Some(Aborted);
    }
    Utf8Append(buffer, decoded);
    buffer := buffer + decoded;
    bufferedBytes := bufferedBytes + Utf8Len(decoded);
    ghost var blocks: seq<string> := [];
    var next := TakeNext(buffer);
    while next.Some?
      invariant next == TakeNext(buffer)
      invariant bufferedBytes == Utf8Len(buffer)
      invariant delivered == delivered0 + Messages(blocks, number)
      invariant BlocksFit(blocks, max)
      invariant Drain(blocks, buffer) == drained
      decreases |buffer|
    {
      var block, rest := next.value.block, next.value.rest;
      NextBlock(blocks, buffer, number);
      if env.aborted(fed, |delivered|) {
        return buffer, bufferedBytes, delivered, Some(Aborted);
      }
      var blockBytes := Utf8Len(block);
      if blockBytes > max {
        return buffer, bufferedBytes, delivered, Some(LimitExceeded);
      }
      TakeNextBytes(buffer);
      bufferedBytes := bufferedBytes - (blockBytes + (|buffer| - |block| - |rest|));
      buffer := rest;
      blocks := blocks + [block];
      var message := ParseSseBlock(block, number);
      if message.Some? {
        delivered := delivered + [message.value];
        if env.throws(|delivered| - 1) {
          return buffer, bufferedBytes, delivered, Some(HandlerThrew);
        }
      }
      next := TakeNext(buffer);
    }
    DrainUnfolds(blocks, buffer);
    end := if bufferedBytes > max then Some(LimitExceeded) else None;
  }

  lemma NothingDrained(s: string, number: ReadNumber)
    requires TakeNext(s).None?
    ensures Drain([], s) == Drained([], s) && Messages([], number) == []
    ensures TakeNext(s + "") == TakeNext(s)
  {
    assert s + "" == s;
  }

  /** One turn of the draining loop, on values. */
  lemma NextBlock(blocks: seq<string>, s: string, number: ReadNumber)
    requires TakeNext(s).Some?
    ensures var (next, all) := (TakeNext(s).value, Drain(blocks, s));
            && all == Drain(blocks + [next.block], next.rest)
            && next.block in all.blocks
            && Messages(blocks, number) <= Messages(all.blocks, number)
            && Messages(blocks + [next.block], number) <= Messages(all.blocks, number)
            && Messages(blocks + [next.block], number) == Messages(blocks, number) + MessageOf(next.block, number)
            && |next.rest| < |s|
  {
    hide Drain, Messages, ReadBlock, TakeNext;
    var next := TakeNext(s).value;
    DrainUnfolds(blocks, s);
    DrainKeeps(blocks + [next.block], next.rest);
    var all := Drain(blocks, s).blocks;
    assert (blocks + [next.block])[|blocks|] == next.block;
    MessagesPrefix(blocks, all, number);
    MessagesPrefix(blocks + [next.block], all, number);
    MessagesSnoc(blocks, next.block, number);
  }

  /** What a reading delivered, given how it ended: a prefix of the body's
      meaning, and all of it when it completes; of a body that is cut, whole
      blocks only. */
  ghost predicate Explained(end: End, delivered: seq<SseMessage>, pieces: seq<string>, max: nat, number: ReadNumber,
                            env: Surroundings)
  {
    var whole := Messages(Drain([], Flatten(pieces)).blocks, number);
    && delivered <= (if env.cut then whole else Meaning(Flatten(pieces), number))
    && match end
       case Completed => !env.cut && delivered == Meaning(Flatten(pieces), number) && Fits(pieces, max)
       case ReadFailed => env.cut && delivered == whole && Fits(pieces, max)
       case LimitExceeded => !Fits(pieces, max)
       case HandlerThrew => delivered != [] && env.throws(|delivered| - 1)
       case Aborted => exists fed :: 0 <= fed <= |pieces| && env.aborted(fed, |delivered|)
  }

  /** Reads a body that arrives as these decoded pieces (the last one from
      flushing the decoder). Left alone, it completes if and only if the budget
      is kept. */
  method ConsumeSseStream(pieces: seq<string>, max: nat, number: ReadNumber, env: Surroundings)
    returns (delivered: seq<SseMessage>, end: End)
    ensures Explained(end, delivered, pieces, max, number, env)
    ensures env.Quiet() ==> end == if Fits(pieces, max) then Completed else LimitExceeded
  {
    hide Drain, Messages, Utf8Len, TakeNext, ReadBlock, Explained;
    var buffer, bufferedBytes := "", 0;
    delivered := [];
    Beginning(number);
    for i := 0 to |pieces|
      invariant Reached(buffer, delivered, pieces, i, max, number)
      invariant bufferedBytes == Utf8Len(buffer) && TakeNext(buffer).None?
    {
      assert Reached(buffer, delivered, pieces, i, max, number);
      if env.aborted(i, |delivered|) {
        StopIsExplained(Aborted, delivered, pieces, i, i, max, number, env);
        return delivered, Aborted;
      }
      ghost var buffer0, delivered0 := buffer, delivered;
      var stopped;
      buffer, bufferedBytes, delivered, stopped := AppendDecoded(buffer, bufferedBytes, delivered, pieces[i], i, max,
                                                                 number, env);
      OnePieceMore(buffer0, delivered0, pieces, i, max, number);
      if stopped.Some? {
        StopIsExplained(stopped.value, delivered, pieces, i + 1, i, max, number, env);
        return delivered, stopped.value;
      }
      RestHasNoBoundary(buffer0 + pieces[i]);
    }
    assert pieces[..|pieces|] == pieces;
    if env.aborted(|pieces|, |delivered|) {
      StopIsExplained(Aborted, delivered, pieces, |pieces|, |pieces|, max, number, env);
      return delivered, Aborted;
    }
    EndIsExplained(buffer, delivered, pieces, max, number, env);
    assert delivered + [] == delivered;
    if env.cut {
      return delivered, ReadFailed;
    }
    var trailing := ParseSseBlock(buffer, number);
    if trailing.Some? {
      delivered := delivered + [trailing.value];
      if env.throws(|delivered| - 1) {
        return delivered, HandlerThrew;
      }
    }
    return delivered, Completed;
  }

  /** The first i pieces were taken in, within the budget. */
  ghost predicate Reached(buffer: string, delivered: seq<SseMessage>, pieces: seq<string>, i: nat, max: nat,
                          number: ReadNumber)
    requires i <= |pieces|
  {
    var drained := Drain([], Flatten(pieces[..i]));
    && buffer == drained.rest && delivered == Messages(drained.blocks, number) && BlocksFit(drained.blocks, max)
    && forall k | 0 <= k <= i :: Utf8Len(Drain([], Flatten(pieces[..k])).rest) <= max
  }

  lemma RestHasNoBoundary(s: string)
    ensures TakeNext(Drain([], s).rest).None?
  {
    DrainKeeps([], s);
  }

  /** What the next piece drains to, and what going over the budget with it means
      for the whole. */
  lemma OnePieceMore(buffer: string, delivered: seq<SseMessage>, pieces: seq<string>, i: nat, max: nat,
                     number: ReadNumber)
    requires i < |pieces| && Reached(buffer, delivered, pieces, i, max, number)
    ensures var left, all := Drain([], buffer + pieces[i]), Drain([], Flatten(pieces[..i + 1]));
            && all.rest == left.rest && Messages(all.blocks, number) == delivered + Messages(left.blocks, number)
            && (BlocksFit(left.blocks, max) && Utf8Len(left.rest) <= max ==>
                  Reached(left.rest, delivered + Messages(left.blocks, number), pieces, i + 1, max, number))
            && (pieces[i] == "" ==> left == Drained([], buffer) && Utf8Len(left.rest) <= max)
            && (!BlocksFit(left.blocks, max) || Utf8Len(left.rest) > max ==> !Fits(pieces, max))
  {
    hide Drain, Messages, Utf8Len, TakeNext;
    var before := Flatten(pieces[..i]);
    assert pieces[..i + 1] == pieces[..i] + [pieces[i]];
    FlattenSnoc(pieces[..i], pieces[i]);
    PieceDrains(before, pieces[i], number, max);
    WholeExtends(pieces, i + 1, number, max);
    if pieces[i] == "" {
      assert buffer + pieces[i] == buffer;
      RestHasNoBoundary(before);
      NothingDrained(buffer, number);
      assert before + pieces[i] == before;
    }
  }

  lemma StopIsExplained(end: End, delivered: seq<SseMessage>, pieces: seq<string>, i: nat, fed: nat, max: nat,
                        number: ReadNumber, env: Surroundings)
    requires i <= |pieces| && fed <= |pieces| && delivered <= Messages(Drain([], Flatten(pieces[..i])).blocks, number)
    requires match end
             case Aborted => env.aborted(fed, |delivered|)
             case HandlerThrew => delivered != [] && env.throws(|delivered| - 1)
             case LimitExceeded => !Fits(pieces, max)
             case _ => false
    ensures Explained(end, delivered, pieces, max, number, env)
  {
    hide Drain, Messages, Fits;
    WholeExtends(pieces, i, number, max);
  }

  lemma EndIsExplained(buffer: string, delivered: seq<SseMessage>, pieces: seq<string>, max: nat, number: ReadNumber,
                       env: Surroundings)
    requires Reached(buffer, delivered, pieces, |pieces|, max, number)
    ensures Fits(pieces, max)
    ensures env.cut ==> Explained(ReadFailed, delivered, pieces, max, number, env)
    ensures var all := delivered + MessageOf(buffer, number);
            && (!env.cut ==> Explained(Completed, all, pieces, max, number, env))
            && (!env.cut && all != [] && env.throws(|all| - 1) ==>
                Explained(HandlerThrew, all, pieces, max, number, env))
  {
    hide Drain, Messages, Utf8Len, ReadBlock;
    assert pieces[..|pieces|] == pieces;
  }

  lemma Beginning(number: ReadNumber)
    ensures Drain([], "") == Drained([], "") && Messages([], number) == []
    ensures Utf8Len("") == 0 && TakeNext("").None?
  {
  }

  /** Feeding one more piece drains the text left over, with the piece added. */
  lemma PieceDrains(before: string, piece: string, number: ReadNumber, max: nat)
    ensures var left := Drain([], Drain([], before).rest + piece);
            && Drain([], before + piece).rest == left.rest
            && Drain([], before + piece).blocks == Drain([], before).blocks + left.blocks
            && Messages(Drain([], before + piece).blocks, number) ==
               Messages(Drain([], before).blocks, number) + Messages(left.blocks, number)
            && (BlocksFit(Drain([], before + piece).blocks, max) <==>
                  BlocksFit(Drain([], before).blocks, max) && BlocksFit(left.blocks, max))
  {
    hide Drain, Messages;
    var first := Drain([], before);
    DrainResumes([], before, piece);
    DrainAdds(first.blocks, first.rest + piece);
    MessagesAppend(first.blocks, Drain([], first.rest + piece).blocks, number);
  }

  lemma {:induction false} MessagesAppend(a: seq<string>, b: seq<string>, number: ReadNumber)
    ensures Messages(a + b, number) == Messages(a, number) + Messages(b, number)
  {
    hide Messages, MessageOf;
    if b == [] {
      assert a + b == a;
      NothingDrained("", number);
    } else {
      var init, last := b[..|b| - 1], b[|b| - 1];
      assert init + [last] == b;
      MessagesAppend(a, init, number);
      Associates(a, init, [last]);
      MessagesSnoc(a + init, last, number);
      MessagesSnoc(init, last, number);
      Associates(Messages(a, number), Messages(init, number), MessageOf(last, number));
    }
  }

  /** What the first pieces deliver is a prefix of what all of them mean, and a
      piece that breaks the budget breaks it for the whole. */
  lemma WholeExtends(pieces: seq<string>, i: nat, number: ReadNumber, max: nat)
    requires i <= |pieces|
    ensures Messages(Drain([], Flatten(pieces[..i])).blocks, number) <= Messages(Drain([], Flatten(pieces)).blocks,
                                                                                 number)
    ensures !BlocksFit(Drain([], Flatten(pieces[..i])).blocks, max) ==> !Fits(pieces, max)
  {
    hide Drain, Messages;
    FlattenSplit(pieces, i);
    var s, t := Flatten(pieces[..i]), Flatten(pieces[i..]);
    PieceDrains(s, t, number, max);
  }

  // --- When the budget is kept ---

  /** MAX_DECODE_CHUNK_BYTES. */
  const MAX_DECODE_CHUNK_BYTES: nat := 65536

  /** The bytes of a body are decoded slice by slice, whatever chunks the network
      delivers: a piece is the text of a slice, with up to three bytes of a
      character that began before it. */
  ghost predicate Sliced(pieces: seq<string>, max: nat) {
    forall piece | piece in pieces :: Utf8Len(piece) <= Min(max, MAX_DECODE_CHUNK_BYTES) + 3
  }

  lemma OneBlockDrains(block: string)
    requires block != "" && '\n' !in block
    ensures Drain([], block + "\n\n") == Drained([block], "")
    ensures Drain([], block + "\n") == Drained([], block + "\n")
    ensures forall k | 0 <= k <= |block| :: Drain([], block[..k]) == Drained([], block[..k])
  {
    hide Drain, TakeNext;
    var n := |block|;
    forall j: nat | j < n ensures !BoundaryAt(block + "\n\n", j) && !BoundaryAt(block + "\n", j) {
      assert (block + "\n\n")[j] == block[j] == (block + "\n")[j];
      assert j + 1 < n ==> block[j + 1] in block;
    }
    TakeNextIs(block + "\n\n", n, LfLf);
    NoBoundary(block + "\n");
    assert (block + "\n\n")[..n] == block && (block + "\n\n")[n + 2..] == "";
    DrainUnfolds([], block + "\n\n");
    DrainUnfolds([], block + "\n");
    Beginning(_ => None);
    DrainAdds([block], "");
    assert [] + [block] == [block] && [block] + [] == [block];
    forall k | 0 <= k <= n ensures Drain([], block[..k]) == Drained([], block[..k]) {
      forall j: nat | j < k ensures !BoundaryAt(block[..k], j) {
        assert j + 1 < k ==> block[j + 1] in block;
      }
      NoBoundary(block[..k]);
      DrainUnfolds([], block[..k]);
    }
  }

  lemma PrefixBytes(s: string, k: nat)
    requires k <= |s|
    ensures Utf8Len(s[..k]) <= Utf8Len(s)
  {
    Utf8Append(s[..k], s[k..]);
    assert s[..k] + s[k..] == s;
  }

  lemma FlattenPair(pieces: seq<string>, a: string, b: string)
    ensures Flatten(pieces + [a, b]) == Flatten(pieces) + a + b
  {
    hide Flatten;
    FlattenSnoc(pieces, a);
    FlattenSnoc(pieces + [a], b);
    assert (pieces + [a]) + [b] == pieces + [a, b];
  }

  lemma SeparatorIsSliced(pieces: seq<string>, max: nat)
    requires Sliced(pieces, max)
    ensures Sliced(pieces + ["\n\n"], max) && Sliced(pieces + ["\n", "\n"], max)
  {
    TextBytes(LfLf);
    OneChar('\n');
  }

  /** As long as only the block's own pieces came, they all wait. */
  lemma BlockWaits(block: string, pieces: seq<string>, more: seq<string>, k: nat)
    requires block != "" && '\n' !in block && Flatten(pieces) == block && k <= |pieces|
    ensures Utf8Len(Drain([], Flatten((pieces + more)[..k])).rest) <= Utf8Len(block)
  {
    hide Drain, Utf8Len;
    assert (pieces + more)[..k] == pieces[..k];
    FlattenSplit(pieces, k);
    var n := |Flatten(pieces[..k])|;
    assert Flatten(pieces[..k]) == block[..n];
    OneBlockDrains(block);
    PrefixBytes(block, n);
  }

  /** Whether the budget holds does depend on the chunking: a separator arriving
      in two pieces is counted, one arriving whole is not. The pieces of the block
      are any that slicing may produce. */
  lemma BudgetDependsOnChunking(block: string, pieces: seq<string>)
    requires '\n' !in block && block != "" && Flatten(pieces) == block && Sliced(pieces, Utf8Len(block))
    ensures var max, whole, cut := Utf8Len(block), pieces + ["\n\n"], pieces + ["\n", "\n"];
            && Sliced(whole, max) && Sliced(cut, max) && Flatten(whole) == Flatten(cut)
            && Fits(whole, max) && !Fits(cut, max)
  {
    var max, n, whole, cut := Utf8Len(block), |pieces|, pieces + ["\n\n"], pieces + ["\n", "\n"];
    hide Drain, Utf8Len, Sliced, Flatten;
    SeparatorIsSliced(pieces, max);
    OneBlockDrains(block);
    FlattenSnoc(pieces, "\n\n");
    FlattenPair(pieces, "\n", "\n");
    assert block + "\n" + "\n" == block + "\n\n";
    Beginning(_ => None);
    forall k | 0 <= k <= n + 1 ensures Utf8Len(Drain([], Flatten(whole[..k])).rest) <= max {
      if k <= n {
        BlockWaits(block, pieces, ["\n\n"], k);
      } else {
        assert whole[..k] == whole;
      }
    }
    FlattenSnoc(pieces, "\n");
    assert cut[..n + 1] == pieces + ["\n"];
    Utf8Append(block, "\n");
    OneChar('\n');
    assert Utf8Len(Drain([], Flatten(cut[..n + 1])).rest) == max + 1;
  }

  /** Every block fits together with its separator but the last character, and so
      does the text after the last separator. */
  ghost predicate KeepsBudget(s: string, max: nat)
    decreases |s|
  {
    match TakeNext(s)
    case None => Utf8Len(s) <= max
    case Some(next) =>
      Utf8Len(next.block) + (|s| - |next.block| - |next.rest|) - 1 <= max && KeepsBudget(next.rest, max)
  }

  ghost predicate EveryChunkingFits(s: string, max: nat) {
    forall pieces | Flatten(pieces) == s && Sliced(pieces, max) :: Fits(pieces, max)
  }

  function Singles(s: string): seq<string> {
    if s == "" then [] else Singles(s[..|s| - 1]) + [[s[|s| - 1]]]
  }

  lemma {:induction false} SinglesAreSliced(s: string, max: nat)
    requires max >= 1
    ensures Sliced(Singles(s), max)
  {
    if s != "" {
      SinglesAreSliced(s[..|s| - 1], max);
      OneChar(s[|s| - 1]);
    }
  }

  lemma {:induction false} SinglesPrefix(s: string, k: nat)
    requires k <= |s|
    ensures |Singles(s)| == |s| && Flatten(Singles(s)[..k]) == s[..k]
  {
    if k == 0 {
      if s != "" {
        SinglesPrefix(s[..|s| - 1], 0);
      }
    } else {
      var init := s[..|s| - 1];
      SinglesPrefix(init, if k < |s| then k else |init|);
      if k < |s| {
        assert Singles(s)[..k] == Singles(init)[..k] && s[..k] == init[..k];
      } else {
        assert Singles(init)[..|init|] == Singles(init) && Singles(s)[..k] == Singles(s);
        FlattenSnoc(Singles(init), [s[|s| - 1]]);
        assert init[..|init|] == init;
      }
    }
  }

  /** A boundary shows once its separator is complete, and not before. */
  lemma CutOff(s: string, k: nat, kind: Separator, m: nat)
    requires SeparatorAt(s, kind, k) && (forall j: nat | j < k :: !BoundaryAt(s, j))
    requires m <= |s|
    ensures m < k + kind.Size() ==> TakeNext(s[..m]).None?
    ensures m >= k + kind.Size() ==> TakeNext(s[..m]) == Some(Split(s[..k], s[k + kind.Size()..m]))
  {
    forall j: nat | j < k ensures !BoundaryAt(s[..m], j) {
      assert s[..m] + s[m..] == s;
      assert !BoundaryAt(s, j);
      BoundaryAppend(s[..m], s[m..], j, LfLf);
      BoundaryAppend(s[..m], s[m..], j, CrlfCrlf);
    }
    if m < k + kind.Size() {
      NoBoundary(s[..m]);
    } else {
      TakeNextIs(s[..m], k, kind);
      assert s[..m][..k] == s[..k] && s[..m][k + kind.Size()..] == s[k + kind.Size()..m];
    }
  }

  /** What still waits after m characters, before and after the first boundary. */
  lemma WaitsAt(s: string, k: nat, kind: Separator, m: nat)
    requires SeparatorAt(s, kind, k) && (forall j: nat | j < k :: !BoundaryAt(s, j))
    requires m <= |s|
    ensures m < k + kind.Size() ==> Drain([], s[..m]).rest == s[..m]
    ensures m >= k + kind.Size() ==> Drain([], s[..m]).rest == Drain([], s[k + kind.Size()..m]).rest
  {
    hide Drain, TakeNext;
    CutOff(s, k, kind, m);
    DrainUnfolds([], s[..m]);
    if m >= k + kind.Size() {
      DrainAdds([] + [s[..k]], s[k + kind.Size()..m]);
    }
  }

  /** The bytes waiting when the separator lacks its last character. */
  lemma WaitingBytes(s: string, k: nat, kind: Separator)
    requires SeparatorAt(s, kind, k)
    ensures Utf8Len(s[..k + kind.Size() - 1]) == Utf8Len(s[..k]) + kind.Size() - 1
  {
    var n := kind.Size() - 1;
    var part := s[k..k + n];
    assert part == if kind.LfLf? then "\n" else "\r\n\r";
    OneChar('\n');
    OneChar('\r');
    Utf8Append("\r", "\n");
    Utf8Append("\r\n", "\r");
    assert "\r" + "\n" == "\r\n" && "\r\n" + "\r" == "\r\n\r";
    Utf8Append(s[..k], part);
    assert s[..k] + part == s[..k + n];
  }

  lemma WholeTextWaits(s: string, m: nat)
    requires TakeNext(s).None? && m <= |s|
    ensures Drain([], s[..m]).rest == s[..m]
  {
    forall j: nat | j < m ensures !BoundaryAt(s[..m], j) {
      NothingFound(s, j);
      assert s[..m] + s[m..] == s;
      BoundaryAppend(s[..m], s[m..], j, LfLf);
      BoundaryAppend(s[..m], s[m..], j, CrlfCrlf);
    }
    NoBoundary(s[..m]);
  }

  lemma {:induction false} BudgetHolds(s: string, max: nat, m: nat)
    requires KeepsBudget(s, max) && m <= |s|
    ensures Utf8Len(Drain([], s[..m]).rest) <= max
    decreases |s|
  {
    hide Drain, Utf8Len;
    if TakeNext(s).None? {
      WholeTextWaits(s, m);
      PrefixBytes(s, m);
    } else {
      var k, kind := TakeNextFinds(s);
      WaitsAt(s, k, kind, m);
      var n := k + kind.Size();
      if m < n {
        WaitingBytes(s, k, kind);
        PrefixBytes(s[..n - 1], m);
        assert s[..n - 1][..m] == s[..m];
      } else {
        BudgetHolds(s[n..], max, m - n);
        assert s[n..][..m - n] == s[n..m];
      }
    }
  }

  lemma {:induction false} BudgetHoldsBlocks(s: string, max: nat)
    requires KeepsBudget(s, max)
    ensures BlocksFit(Drain([], s).blocks, max)
    decreases |s|
  {
    hide Drain, Utf8Len;
    DrainUnfolds([], s);
    if TakeNext(s).Some? {
      var next := TakeNext(s).value;
      var k, kind := TakeNextFinds(s);
      BudgetHoldsBlocks(next.rest, max);
      DrainAdds([] + [next.block], next.rest);
    }
  }

  /** Where a text that does not keep the budget goes over it. */
  lemma {:induction false} BudgetBreaks(s: string, max: nat) returns (m: nat)
    requires !KeepsBudget(s, max)
    ensures m <= |s| && Utf8Len(Drain([], s[..m]).rest) > max
    decreases |s|
  {
    hide Drain, Utf8Len;
    if TakeNext(s).None? {
      m := |s|;
      WholeTextWaits(s, m);
      assert s[..m] == s;
    } else {
      var k, kind := TakeNextFinds(s);
      var n := k + kind.Size();
      WaitingBytes(s, k, kind);
      if Utf8Len(s[..n - 1]) > max {
        m := n - 1;
        WaitsAt(s, k, kind, m);
      } else {
        var m' := BudgetBreaks(s[n..], max);
        m := n + m';
        WaitsAt(s, k, kind, m);
        assert s[n..][..m'] == s[n..m];
      }
    }
  }

  /** The exact condition: a text is accepted however it is chunked if and only if
      each of its blocks, with its separator but one character, keeps the budget,
      and so does what follows the last one; then any other pieces would do too. */
  lemma AcceptedUnderEveryChunking(s: string, max: nat)
    requires max >= 1
    ensures EveryChunkingFits(s, max) <==> KeepsBudget(s, max)
    ensures KeepsBudget(s, max) ==> forall pieces | Flatten(pieces) == s :: Fits(pieces, max)
  {
    hide Drain, Utf8Len, KeepsBudget, Sliced;
    if KeepsBudget(s, max) {
      BudgetHoldsBlocks(s, max);
      forall pieces | Flatten(pieces) == s ensures Fits(pieces, max) {
        forall k | 0 <= k <= |pieces| ensures Utf8Len(Drain([], Flatten(pieces[..k])).rest) <= max {
          FlattenSplit(pieces, k);
          var n := |Flatten(pieces[..k])|;
          assert s[..n] == Flatten(pieces[..k]);
          BudgetHolds(s, max, n);
        }
      }
    } else {
      var m := BudgetBreaks(s, max);
      SinglesPrefix(s, |s|);
      SinglesPrefix(s, m);
      SinglesAreSliced(s, max);
      assert Singles(s)[..|s|] == Singles(s) && s[..|s|] == s;
      assert !Fits(Singles(s), max);
    }
  }
}
