/** The bounded cache of terminal run statuses: what it answers, in terms of
    everything it was ever asked to remember. */
module RunStores {
  import opened Prelude

  datatype Entry<V> = Entry(id: string, value: V)

  // --- The Map, in insertion order ---

  function Without<V>(entries: seq<Entry<V>>, id: string): seq<Entry<V>> {
    if entries == [] then []
    else
      var last := entries[|entries| - 1];
      Without(entries[..|entries| - 1], id) + if last.id == id then [] else [last]
  }

  /** One remember: the id moves to the end, and one entry too many drops the
      oldest. */
  function Remember<V>(entries: seq<Entry<V>>, capacity: int, e: Entry<V>): seq<Entry<V>> {
    if e.id == "" then entries
    else
      var all := Without(entries, e.id) + [e];
      if |all| > capacity then all[1..] else all
  }

  function RememberAll<V>(history: seq<Entry<V>>, capacity: int): seq<Entry<V>> {
    if history == [] then []
    else Remember(RememberAll(history[..|history| - 1], capacity), capacity, history[|history| - 1])
  }

  function Lookup<V>(entries: seq<Entry<V>>, id: string): Option<V> {
    if entries == [] then None
    else if entries[|entries| - 1].id == id then Some(entries[|entries| - 1].value)
    else Lookup(entries[..|entries| - 1], id)
  }

  // --- What the history says, independently ---

  /** The status remembered last under an id. */
  function Latest<V>(history: seq<Entry<V>>, id: string): Option<V> {
    if history == [] then None
    else if history[|history| - 1].id == id then Some(history[|history| - 1].value)
    else Latest(history[..|history| - 1], id)
  }

  /** The other ids remembered since. */
  function Newer<V>(history: seq<Entry<V>>, id: string): set<string> {
    if history == [] || history[|history| - 1].id == id then {}
    else
      var last := history[|history| - 1].id;
      Newer(history[..|history| - 1], id) + if last == "" then {} else {last}
  }

  /** Every id remembered, oldest first, with no bound. */
  function Unbounded<V>(history: seq<Entry<V>>): seq<Entry<V>> {
    if history == [] then []
    else
      var before, last := Unbounded(history[..|history| - 1]), history[|history| - 1];
      if last.id == "" then before else Without(before, last.id) + [last]
  }

  ghost predicate UniqueIds<V>(entries: seq<Entry<V>>) {
    forall i, j | 0 <= i < j < |entries| :: entries[i].id != entries[j].id
  }

  function Recent<V>(entries: seq<Entry<V>>, n: nat): seq<Entry<V>> {
    if |entries| <= n then entries else entries[|entries| - n..]
  }

  lemma {:induction false} WithoutMissing<V>(entries: seq<Entry<V>>, id: string)
    requires forall i | 0 <= i < |entries| :: entries[i].id != id
    ensures Without(entries, id) == entries
  {
    if entries != [] {
      WithoutMissing(entries[..|entries| - 1], id);
    }
  }

  lemma {:induction false} WithoutOne<V>(entries: seq<Entry<V>>, k: nat)
    requires UniqueIds(entries) && k < |entries|
    ensures Without(entries, entries[k].id) == entries[..k] + entries[k + 1..]
  {
    var init := entries[..|entries| - 1];
    if k == |entries| - 1 {
      WithoutMissing(init, entries[k].id);
    } else {
      WithoutOne(init, k);
      assert entries[..k] + entries[k + 1..] == (init[..k] + init[k + 1..]) + [entries[|entries| - 1]];
    }
  }

  lemma IdIsThere<V>(entries: seq<Entry<V>>, id: string) returns (k: nat)
    requires UniqueIds(entries)
    ensures k <= |entries|
    ensures if k == |entries| then
              Without(entries, id) == entries && forall i | 0 <= i < |entries| :: entries[i].id != id
            else entries[k].id == id && Without(entries, id) == entries[..k] + entries[k + 1..]
  {
    if exists i :: 0 <= i < |entries| && entries[i].id == id {
      k :| 0 <= k < |entries| && entries[k].id == id;
      WithoutOne(entries, k);
    } else {
      k := |entries|;
      WithoutMissing(entries, id);
    }
  }

  lemma MovedIsUnique<V>(entries: seq<Entry<V>>, e: Entry<V>)
    requires UniqueIds(entries)
    ensures UniqueIds(Without(entries, e.id) + [e])
  {
    hide Without;
    var k := IdIsThere(entries, e.id);
  }

  /** Moving an entry to the end and cutting to the bound commute; k is where it
      is, |entries| if it is nowhere. */
  lemma CutsCommute<V>(entries: seq<Entry<V>>, recent: seq<Entry<V>>, n: nat, k: nat, e: Entry<V>)
    requires recent == Recent(entries, n) && k <= |entries|
    ensures |recent| <= |entries|
    ensures var cut := |entries| - |recent|;
            var moved := (if k == |entries| then entries else entries[..k] + entries[k + 1..]) + [e];
            var left := (if k == |entries| || k < cut then recent else recent[..k - cut] + recent[k - cut + 1..]) + [e];
            (if |left| > n then left[1..] else left) == Recent(moved, n)
  {
    var cut := |entries| - |recent|;
    if k < cut {
      var moved := entries[..k] + entries[k + 1..] + [e];
      assert moved[cut - 1..] == recent + [e];
    } else if k < |entries| {
      var moved := entries[..k] + entries[k + 1..] + [e];
      assert moved[cut..] == recent[..k - cut] + recent[k - cut + 1..] + [e];
    } else {
      assert (entries + [e])[cut..] == recent + [e];
    }
  }

  lemma RecentIsUnique<V>(entries: seq<Entry<V>>, n: nat)
    requires UniqueIds(entries)
    ensures UniqueIds(Recent(entries, n))
  {
  }

  lemma WithoutOfRecent<V>(entries: seq<Entry<V>>, n: nat, k: nat, id: string)
    requires UniqueIds(entries) && k <= |entries|
    requires if k == |entries| then forall i | 0 <= i < |entries| :: entries[i].id != id else entries[k].id == id
    ensures var recent := Recent(entries, n);
            var cut := |entries| - |recent|;
            Without(recent, id) == if k == |entries| || k < cut then recent
                else recent[..k - cut] + recent[k - cut + 1..]
  {
    hide Without;
    var recent := Recent(entries, n);
    var cut := |entries| - |recent|;
    if k == |entries| || k < cut {
      WithoutMissing(recent, id);
    } else {
      RecentIsUnique(entries, n);
      hide UniqueIds;
      assert recent[k - cut] == entries[k];
      WithoutOne(recent, k - cut);
    }
  }

  lemma RecentOfMoved<V>(entries: seq<Entry<V>>, n: nat, e: Entry<V>)
    requires UniqueIds(entries) && e.id != ""
    ensures Remember(Recent(entries, n), n, e) == Recent(Without(entries, e.id) + [e], n)
  {
    hide Without, UniqueIds, Recent;
    var k := IdIsThere(entries, e.id);
    CutsCommute(entries, Recent(entries, n), n, k, e);
    WithoutOfRecent(entries, n, k, e.id);
  }

  /** The cache is the most recent part of the unbounded one. */
  lemma {:induction false} CacheIsRecent<V>(history: seq<Entry<V>>, capacity: int)
    ensures UniqueIds(Unbounded(history))
    ensures RememberAll(history, capacity) == Recent(Unbounded(history), Max(capacity, 0))
  {
    if history != [] {
      var init, last := history[..|history| - 1], history[|history| - 1];
      CacheIsRecent(init, capacity);
      if last.id != "" {
        MovedIsUnique(Unbounded(init), last);
        RecentOfMoved(Unbounded(init), Max(capacity, 0), last);
        var before := Recent(Unbounded(init), Max(capacity, 0));
        if capacity < 0 {
          assert before == [] && Without(before, last.id) == [];
          assert Remember(before, capacity, last) == Remember(before, 0, last);
        }
      }
    }
  }

  lemma SmallerSet(small: set<string>, x: string)
    requires x !in small
    ensures |small + {x}| == |small| + 1
  {
  }

  /** Where an id stands in the unbounded cache: after it come exactly the ids
      remembered since. */
  lemma {:induction false} PositionIsRecency<V>(history: seq<Entry<V>>, id: string) returns (k: nat)
    requires id != ""
    ensures var all := Unbounded(history);
            && k <= |all| && UniqueIds(all)
            && (if k == |all| then Latest(history, id).None? && (forall i | 0 <= i < |all| :: all[i].id != id)
                else all[k].id == id && Latest(history, id) == Some(all[k].value)
                     && (forall x :: x in Newer(history, id) <==> exists i :: k < i < |all| && all[i].id == x)
                     && |Newer(history, id)| == |all| - 1 - k)
  {
    var all := Unbounded(history);
    k := 0;
    if history != [] {
      var init, last := history[..|history| - 1], history[|history| - 1];
      var before := Unbounded(init);
      var p := PositionIsRecency(init, id);
      if last.id == "" {
        k := p;
      } else {
        var q := IdIsThere(before, last.id);
        MovedIsUnique(before, last);
        if last.id == id {
          k := |all| - 1;
        } else {
          k := MovedPosition(before, last, p, q, id);
          if p < |before| {
            NewerGrows(init, last, before, all, p, k, q);
          }
        }
      }
    }
  }

  /** Where the others end up when q's entry moves to the end. */
  lemma MovedPosition<V>(before: seq<Entry<V>>, last: Entry<V>, p: nat, q: nat, id: string) returns (k: nat)
    requires UniqueIds(before) && p <= |before| && q <= |before| && last.id != id
    requires if q == |before| then forall i | 0 <= i < |before| :: before[i].id != last.id else before[q].id == last.id
    requires if p == |before| then forall i | 0 <= i < |before| :: before[i].id != id else before[p].id == id
    ensures var all := (if q == |before| then before else before[..q] + before[q + 1..]) + [last];
            if p == |before| then k == |all| && forall i | 0 <= i < |all| :: all[i].id != id
            else k == (if q < p then p - 1 else p) && k < |all| && all[k] == before[p]
  {
    var all := (if q == |before| then before else before[..q] + before[q + 1..]) + [last];
    k := if p == |before| then |all| else if q < p then p - 1 else p;
  }

  /** After the moved position come the ids that came after before, and the last. */
  lemma AfterMoved<V>(before: seq<Entry<V>>, last: Entry<V>, all: seq<Entry<V>>, p: nat, k: nat, q: nat, x: string)
    requires p < |before| && q <= |before| && q != p && k == if q < p then p - 1 else p
    requires all == (if q == |before| then before else before[..q] + before[q + 1..]) + [last]
    requires q < |before| ==> before[q].id == last.id
    ensures (exists i :: k < i < |all| && all[i].id == x) <==>
              x == last.id || exists i :: p < i < |before| && before[i].id == x
  {
    if x == last.id {
      assert all[|all| - 1].id == x;
    }
    if i :| p < i < |before| && before[i].id == x && x != last.id {
      assert all[if q < i then i - 1 else i].id == x;
    }
    if i :| k < i < |all| && all[i].id == x && x != last.id {
      assert before[if q <= i then i + 1 else i].id == x;
    }
  }

  lemma NewerGrows<V>(init: seq<Entry<V>>, last: Entry<V>, before: seq<Entry<V>>, all: seq<Entry<V>>, p: nat, k: nat,
                      q: nat)
    requires UniqueIds(before) && p < |before| && q <= |before| && before[p].id != last.id && last.id != ""
    requires all == (if q == |before| then before else before[..q] + before[q + 1..]) + [last]
    requires if q == |before| then forall i | 0 <= i < |before| :: before[i].id != last.id else before[q].id == last.id
    requires k == if q < p then p - 1 else p
    requires forall x :: x in Newer(init, before[p].id) <==> exists i :: p < i < |before| && before[i].id == x
    requires |Newer(init, before[p].id)| == |before| - 1 - p
    ensures var newer := Newer(init + [last], before[p].id);
            && (forall x :: x in newer <==> exists i :: k < i < |all| && all[i].id == x)
            && |newer| == |all| - 1 - k
  {
    var id := before[p].id;
    var since := Newer(init, id);
    assert (init + [last])[..|init|] == init;
    assert Newer(init + [last], id) == since + {last.id};
    hide Newer;
    if p < q < |before| {
      assert last.id in since && since + {last.id} == since;
    } else {
      assert last.id !in since;
      SmallerSet(since, last.id);
    }
    forall x ensures x in since + {last.id} <==> exists i :: k < i < |all| && all[i].id == x {
      AfterMoved(before, last, all, p, k, q, x);
    }
  }

  lemma {:induction false} LookupUnique<V>(entries: seq<Entry<V>>, k: nat)
    requires UniqueIds(entries) && k < |entries|
    ensures Lookup(entries, entries[k].id) == Some(entries[k].value)
  {
    if k < |entries| - 1 {
      LookupUnique(entries[..|entries| - 1], k);
    }
  }

  lemma {:induction false} LookupMissing<V>(entries: seq<Entry<V>>, id: string)
    requires forall i | 0 <= i < |entries| :: entries[i].id != id
    ensures Lookup(entries, id) == None
  {
    if entries != [] {
      LookupMissing(entries[..|entries| - 1], id);
    }
  }

  /** The store refines its history: get answers with the status remembered last
      under the id, if and only if fewer than `capacity` other ids were
      remembered since; and it never holds more than `capacity` entries. */
  lemma GetMatchesHistory<V>(history: seq<Entry<V>>, capacity: int, id: string)
    requires id != ""
    ensures Lookup(RememberAll(history, capacity), id) ==
            if Latest(history, id).Some? && |Newer(history, id)| < capacity then Latest(history, id) else None
    ensures |RememberAll(history, capacity)| <= Max(capacity, 0)
  {
    hide Unbounded, Newer, Latest, Lookup, RememberAll;
    CacheIsRecent(history, capacity);
    var k := PositionIsRecency(history, id);
    var all, n := Unbounded(history), Max(capacity, 0);
    var cut := |all| - |Recent(all, n)|;
    if cut <= k < |all| {
      assert Recent(all, n)[k - cut] == all[k];
      LookupUnique(Recent(all, n), k - cut);
    } else {
      LookupMissing(Recent(all, n), id);
    }
  }

  /** A status without an id is never remembered, nor found. */
  lemma {:induction false} EmptyIdIsNeverFound<V>(history: seq<Entry<V>>, capacity: int)
    ensures Lookup(RememberAll(history, capacity), "") == None
  {
    CacheIsRecent(history, capacity);
    UnboundedHasNoEmptyId(history);
    var all, n := Unbounded(history), Max(capacity, 0);
    LookupMissing(Recent(all, n), "");
  }

  lemma {:induction false} UnboundedHasNoEmptyId<V>(history: seq<Entry<V>>)
    ensures forall i | 0 <= i < |Unbounded(history)| :: Unbounded(history)[i].id != ""
  {
    if history != [] {
      UnboundedHasNoEmptyId(history[..|history| - 1]);
      CacheIsRecent(history[..|history| - 1], 0);
      var k := IdIsThere(Unbounded(history[..|history| - 1]), history[|history| - 1].id);
    }
  }
}
