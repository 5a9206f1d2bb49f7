/** Listener sets, in the order they were added, and close notifications. */
module Listeners {
  import opened Prelude

  datatype CloseCall<+E> = CloseCall(listener: nat, error: Option<E>)

  function Added(listeners: seq<nat>, l: nat): seq<nat> { if l in listeners then listeners else listeners + [l] }

  function Removed(listeners: seq<nat>, l: nat): seq<nat> {
    if listeners == [] then [] else (if listeners[0] == l then [] else [listeners[0]]) + Removed(listeners[1..], l)
  }

  /** Each listener called once, in order. */
  function Calls<E>(listeners: seq<nat>, error: Option<E>): seq<CloseCall<E>> {
    seq(|listeners|, i requires 0 <= i < |listeners| => CloseCall(listeners[i], error))
  }

  /** How often listener l is among them. */
  function Occurs(listeners: seq<nat>, l: nat): nat {
    if listeners == [] then 0 else Occurs(listeners[..|listeners| - 1], l) + if listeners[|listeners| - 1] == l then 1
    else 0
  }

  /** How often listener l was called. */
  function Told<E>(calls: seq<CloseCall<E>>, l: nat): nat {
    if calls == [] then 0 else Told(calls[..|calls| - 1], l) + if calls[|calls| - 1].listener == l then 1 else 0
  }

  lemma ToldSnoc<E>(calls: seq<CloseCall<E>>, call: CloseCall<E>, l: nat)
    ensures Told(calls + [call], l) == Told(calls, l) + if call.listener == l then 1 else 0
  {
    assert (calls + [call])[..|calls|] == calls;
  }

  lemma {:induction false} ToldAll<E>(calls: seq<CloseCall<E>>, listeners: seq<nat>, error: Option<E>, l: nat)
    ensures Told(calls + Calls(listeners, error), l) == Told(calls, l) + Occurs(listeners, l)
  {
    if listeners == [] {
      assert calls + Calls(listeners, error) == calls;
    } else {
      var init, last := listeners[..|listeners| - 1], listeners[|listeners| - 1];
      ToldAll(calls, init, error, l);
      assert calls + Calls(listeners, error) == (calls + Calls(init, error)) + [CloseCall(last, error)];
      ToldSnoc(calls + Calls(init, error), CloseCall(last, error), l);
    }
  }

  lemma {:induction false} OccursIn(listeners: seq<nat>, l: nat)
    ensures Occurs(listeners, l) > 0 <==> l in listeners
  {
    if listeners != [] {
      OccursIn(listeners[..|listeners| - 1], l);
      assert listeners == listeners[..|listeners| - 1] + [listeners[|listeners| - 1]];
    }
  }

  lemma {:induction false} OccursRemoved(listeners: seq<nat>, x: nat, l: nat)
    requires x != l
    ensures Occurs(Removed(listeners, x), l) == Occurs(listeners, l)
  {
    if listeners != [] {
      OccursRemoved(listeners[1..], x, l);
      OccursCons(listeners[0], listeners[1..], l);
      assert [listeners[0]] + listeners[1..] == listeners;
      if listeners[0] != x {
        OccursCons(listeners[0], Removed(listeners[1..], x), l);
      } else {
        NothingBefore(Removed(listeners[1..], x));
      }
    }
  }

  lemma {:induction false} OccursCons(x: nat, rest: seq<nat>, l: nat)
    ensures Occurs([x] + rest, l) == Occurs(rest, l) + if x == l then 1 else 0
  {
    if rest == [] {
      assert ([x] + rest)[..0] == [];
    } else {
      OccursCons(x, rest[..|rest| - 1], l);
      assert ([x] + rest)[..|rest|] == [x] + rest[..|rest| - 1];
    }
  }

  lemma OccursSnoc(listeners: seq<nat>, x: nat, l: nat)
    ensures Occurs(listeners + [x], l) == Occurs(listeners, l) + if x == l then 1 else 0
  {
    assert (listeners + [x])[..|listeners|] == listeners;
  }

  /** Adding and removing, as a set that keeps its order. */
  lemma AddedHas(listeners: seq<nat>, l: nat)
    ensures forall x :: x in Added(listeners, l) <==> x == l || x in listeners
    ensures Distinct(listeners) ==> Distinct(Added(listeners, l))
  {
  }

  lemma {:induction false} RemovedHas(listeners: seq<nat>, l: nat)
    ensures forall x :: x in Removed(listeners, l) <==> x != l && x in listeners
    ensures Distinct(listeners) ==> Distinct(Removed(listeners, l))
  {
    if listeners != [] {
      RemovedHas(listeners[1..], l);
      assert listeners == [listeners[0]] + listeners[1..];
      if Distinct(listeners) {
        DistinctTail(listeners);
      }
    }
  }

  lemma DistinctTail(listeners: seq<nat>)
    requires listeners != [] && Distinct(listeners)
    ensures Distinct(listeners[1..]) && listeners[0] !in listeners[1..]
  {
  }
}
