/** Decimal digits, as a header carries a length. */
module Decimals {
  import opened Prelude

  const ZERO: Byte := 0x30

  predicate IsDigit(b: Byte) { ZERO <= b <= ZERO + 9 }

  function Print(n: nat): (s: seq<Byte>)
    ensures s != [] && forall b | b in s :: IsDigit(b)
  {
    if n < 10 then [ZERO + n] else Print(n / 10) + [ZERO + n % 10]
  }

  function Read(s: seq<Byte>): nat
    requires forall b | b in s :: IsDigit(b)
  {
    if s == [] then 0
    else
      var last := s[|s| - 1];
      assert last in s && IsDigit(last);
      10 * Read(s[..|s| - 1]) + (last - ZERO)
  }

  lemma {:induction false} ReadUndoesPrint(n: nat)
    ensures Read(Print(n)) == n
  {
    if n < 10 {
      assert Print(n)[..0] == [];
    } else {
      ReadUndoesPrint(n / 10);
      assert Print(n)[..|Print(n)| - 1] == Print(n / 10);
    }
  }

  /** How many leading elements satisfy p. */
  function Leading(s: seq<Byte>, p: Byte -> bool): (k: nat)
    ensures k <= |s|
    ensures forall b | b in s[..k] :: p(b)
    ensures k < |s| ==> !p(s[k])
  {
    if s == [] || !p(s[0]) then 0
    else
      var k := 1 + Leading(s[1..], p);
      assert s[..k] == [s[0]] + s[1..][..k - 1];
      k
  }

  lemma {:induction false} LeadingIs(s: seq<Byte>, k: nat, p: Byte -> bool)
    requires k <= |s| && forall b | b in s[..k] :: p(b)
    requires k < |s| ==> !p(s[k])
    ensures Leading(s, p) == k
  {
    if k > 0 {
      assert s[0] in s[..k];
      assert s[..k] == [s[0]] + s[1..][..k - 1];
      LeadingIs(s[1..], k - 1, p);
    }
  }
}
