/** The growable byte buffer both stdio codecs accumulate frames in. */
module FrameBuffers {
  import opened Prelude

  const MIN_CAPACITY := 256

  /** What regrowth costs: current capacity and contents, bytes copied by all
      regrowths so far, the longest contents so far, and the capacity that the
      latest copying regrowth left behind. */
  datatype Growth = Growth(capacity: nat, length: nat, copied: nat, peak: nat, outgrown: nat)

  /** limit: the one the append is under. */
  datatype Op = Append(size: nat, limit: int) | Clear

  const FRESH_GROWTH := Growth(0, 0, 0, 0, 0)

  function AppendGrowth(g: Growth, size: nat, limit: int): Growth {
    var needed := g.length + size;
    if needed > limit then g
    else if needed > g.capacity then
      Growth(Min(limit, Max(Max(needed, MIN_CAPACITY), 2 * g.capacity)), needed,
             g.copied + g.length, Max(g.peak, needed), g.capacity)
    else g.(length := needed, peak := Max(g.peak, needed))
  }

  function ClearGrowth(g: Growth): Growth { g.(length := 0) }

  function Replay(g: Growth, ops: seq<Op>): Growth
    decreases |ops|
  {
    if ops == [] then g
    else
      match ops[0]
      case Append(size, limit) => Replay(AppendGrowth(g, size, limit), ops[1..])
      case Clear => Replay(ClearGrowth(g), ops[1..])
  }

  /** Every append is under one of two limits, as those of headers and bodies. */
  ghost predicate Under(ops: seq<Op>, lo: int, hi: int) {
    forall i | 0 <= i < |ops| && ops[i].Append? :: ops[i].limit == lo || ops[i].limit == hi
  }

  /** Doubling pays for every earlier copy: all of them together cost at most
      twice the capacity just outgrown, which the contents exceeded. A capacity
      cut down to the lower limit need not have doubled: the next copy is paid for
      by a third one. */
  ghost predicate Amortized(g: Growth, lo: int, hi: int) {
    && g.length <= g.capacity && g.length <= g.peak && g.outgrown <= g.capacity <= Max(0, hi)
    && (g.outgrown < g.peak || g.outgrown == 0)
    && if g.capacity < lo then g.copied <= 2 * g.outgrown <= g.capacity
       else if g.capacity == lo then g.copied <= 2 * g.outgrown
       else g.copied <= 3 * g.outgrown && (g.capacity >= 2 * g.outgrown || g.capacity >= hi)
  }

  lemma AppendKeepsAmortized(g: Growth, size: nat, limit: int, lo: int, hi: int)
    requires Amortized(g, lo, hi) && lo <= hi && (limit == lo || limit == hi)
    ensures Amortized(AppendGrowth(g, size, limit), lo, hi)
  {
  }

  lemma ClearKeepsAmortized(g: Growth, lo: int, hi: int)
    requires Amortized(g, lo, hi)
    ensures Amortized(ClearGrowth(g), lo, hi)
  {
  }

  lemma {:induction false} AmortizedAlways(g: Growth, ops: seq<Op>, lo: int, hi: int)
    requires Amortized(g, lo, hi) && lo <= hi && Under(ops, lo, hi)
    ensures Amortized(Replay(g, ops), lo, hi)
    decreases |ops|
  {
    if ops != [] {
      match ops[0]
      case Append(size, limit) =>
        AppendKeepsAmortized(g, size, limit, lo, hi);
        AmortizedAlways(AppendGrowth(g, size, limit), ops[1..], lo, hi);
      case Clear => AmortizedAlways(ClearGrowth(g), ops[1..], lo, hi);
    }
  }

  /** Less than three times the longest contents was copied, and with one limit
      less than twice. */
  ghost predicate Thrifty(g: Growth, lo: int, hi: int) {
    g.copied == 0 || g.copied < (if lo == hi then 2 else 3) * g.peak
  }

  lemma AmortizedIsThrifty(g: Growth, lo: int, hi: int)
    requires Amortized(g, lo, hi)
    ensures Thrifty(g, lo, hi)
  {
  }

  /** The linear-copy claim: all regrowths of a buffer's life copy less than three
      times the longest contents it ever held, and with one limit less than
      twice. */
  lemma CopiedLinearly(ops: seq<Op>, lo: int, hi: int)
    requires lo <= hi && Under(ops, lo, hi)
    ensures Thrifty(Replay(FRESH_GROWTH, ops), lo, hi)
  {
    AmortizedAlways(FRESH_GROWTH, ops, lo, hi);
    AmortizedIsThrifty(Replay(FRESH_GROWTH, ops), lo, hi);
  }

  const G1 := Growth(256, 256, 0, 256, 0)
  const G2 := Growth(512, 512, 256, 512, 256)
  const G3 := Growth(516, 513, 768, 513, 512)
  const G4 := Growth(516, 516, 768, 516, 512)
  const G5 := Growth(1032, 517, 1284, 517, 516)

  lemma GrowsPastTwice()
    ensures AppendGrowth(FRESH_GROWTH, 256, 516) == G1 && AppendGrowth(G1, 256, 516) == G2
            && AppendGrowth(G2, 1, 516) == G3
    ensures AppendGrowth(G3, 3, 516) == G4 && AppendGrowth(G4, 1, 4096) == G5
  {
  }

  lemma NothingMore(g: Growth)
    ensures Replay(g, []) == g && Under([], 516, 4096)
  {
  }

  /** With two limits, twice is not enough: a buffer that grew to the lower one is
      copied once more for a single byte. */
  lemma TwiceIsNotEnough()
    ensures exists ops :: Under(ops, 516, 4096) && Replay(FRESH_GROWTH, ops).copied > 2 * Replay(FRESH_GROWTH, ops).peak
  {
    GrowsPastTwice();
    NothingMore(G5);
    hide AppendGrowth, Replay, Under;
    var ops1 := Then(G4, 1, 4096, G5, []);
    var ops2 := Then(G3, 3, 516, G4, ops1);
    var ops3 := Then(G2, 1, 516, G3, ops2);
    var ops4 := Then(G1, 256, 516, G2, ops3);
    var ops5 := Then(FRESH_GROWTH, 256, 516, G1, ops4);
    assert Under(ops5, 516, 4096) && Replay(FRESH_GROWTH, ops5) == G5;
  }

  lemma Then(g: Growth, size: nat, limit: int, g': Growth, rest: seq<Op>) returns (ops: seq<Op>)
    requires AppendGrowth(g, size, limit) == g' && limit in {516, 4096} && Under(rest, 516, 4096)
    ensures Replay(g, ops) == Replay(g', rest) && Under(ops, 516, 4096)
  {
    ops := [Append(size, limit)] + rest;
    assert ops[1..] == rest;
  }

  class FrameBuffer {
    var storage: array<Byte>
    var length: nat
    ghost var copied: nat
    ghost var peak: nat
    ghost var outgrown: nat

    ghost predicate Valid()
      reads this
    {
      length <= storage.Length
    }

    ghost function Cost(): Growth
      reads this
    {
      Growth(storage.Length, length, copied, peak, outgrown)
    }

    /** The unread bytes. */
    function Bytes(): seq<Byte>
      requires Valid()
      reads this, storage
    {
      storage[..length]
    }

    constructor ()
      ensures Valid() && fresh(storage)
      ensures Bytes() == [] && Cost() == FRESH_GROWTH
    {
      storage := new Byte[0];
      length := 0;
      copied, peak, outgrown := 0, 0, 0;
    }

    /** Refused, with nothing changed, exactly when the contents would pass the limit. */
    method Append(chunk: seq<Byte>, limit: int) returns (ok: bool)
      requires Valid()
      modifies this, storage
      ensures Valid() && (storage == old(storage) || fresh(storage))
      ensures ok == (old(length) + |chunk| <= limit)
      ensures Bytes() == if ok then old(Bytes()) + chunk else old(Bytes())
      ensures Cost() == AppendGrowth(old(Cost()), |chunk|, limit)
    {
      if |chunk| > limit - length {
        return false;
      }
      var needed := length + |chunk|;
      if needed > storage.Length {
        var capacity := Min(limit, Max(Max(needed, MIN_CAPACITY), 2 * storage.Length));
        var next := new Byte[capacity];
        forall i | 0 <= i < length {
          next[i] := storage[i];
        }
        copied, outgrown := copied + length, storage.Length;
        storage := next;
      }
      forall i | 0 <= i < |chunk| {
        storage[length + i] := chunk[i];
      }
      length := needed;
      peak := Max(peak, needed);
      assert storage[..needed] == old(storage[..length]) + chunk;
      return true;
    }

    method Clear()
      requires Valid()
      modifies `length
      ensures Valid() && Bytes() == []
      ensures Cost() == ClearGrowth(old(Cost()))
    {
      length := 0;
    }
  }
}
