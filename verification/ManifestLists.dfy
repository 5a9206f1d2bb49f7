/** The lists of a team manifest: unique strings, and entries with unique keys. */
module ManifestLists {
  import opened Prelude
  import opened Text
  import opened ManifestPaths

  // --- Unique strings ---

  /** First occurrences. */
  function Unique(values: seq<string>): seq<string> {
    if values == [] then []
    else
      var before, last := Unique(values[..|values| - 1]), values[|values| - 1];
      if last in before then before else before + [last]
  }

  /** The values that say something, trimmed. */
  function Said(values: seq<string>): seq<string> {
    if values == [] then []
    else
      var last := Trim(values[|values| - 1]);
      Said(values[..|values| - 1]) + if last == "" then [] else [last]
  }

  function UniqueStrings(values: seq<string>): seq<string> { Unique(Said(values)) }

  lemma UniqueSnoc(values: seq<string>, x: string)
    ensures Unique(values + [x]) == if x in Unique(values) then Unique(values) else Unique(values) + [x]
  {
    assert (values + [x])[..|values|] == values;
  }

  lemma {:induction false} UniqueIsDistinct(values: seq<string>)
    ensures Distinct(Unique(values)) && forall x :: x in Unique(values) <==> x in values
  {
    if values != [] {
      UniqueIsDistinct(values[..|values| - 1]);
      assert values == values[..|values| - 1] + [values[|values| - 1]];
    }
  }

  lemma {:induction false} UniqueStays(values: seq<string>)
    requires Distinct(values)
    ensures Unique(values) == values
  {
    if values != [] {
      var init := values[..|values| - 1];
      UniqueStays(init);
      assert values == init + [values[|values| - 1]];
      assert forall i | 0 <= i < |init| :: init[i] != values[|values| - 1];
    }
  }

  /** Repeats on the left of a sum may be dropped first. */
  lemma {:induction false} UniqueLeft(a: seq<string>, b: seq<string>)
    ensures Unique(Unique(a) + b) == Unique(a + b)
  {
    if b == [] {
      UniqueIsDistinct(a);
      UniqueStays(Unique(a));
      assert a + b == a && Unique(a) + b == Unique(a);
    } else {
      var init, last := b[..|b| - 1], b[|b| - 1];
      UniqueLeft(a, init);
      assert a + b == (a + init) + [last] && Unique(a) + b == (Unique(a) + init) + [last];
      UniqueSnoc(a + init, last);
      UniqueSnoc(Unique(a) + init, last);
    }
  }

  /** And so may repeats on the right. */
  lemma {:induction false} UniqueRight(a: seq<string>, b: seq<string>)
    ensures Unique(a + Unique(b)) == Unique(a + b)
  {
    if b != [] {
      var init, last := b[..|b| - 1], b[|b| - 1];
      UniqueRight(a, init);
      assert b == init + [last] && a + b == (a + init) + [last];
      UniqueSnoc(init, last);
      UniqueSnoc(a + init, last);
      if last in Unique(init) {
        UniqueIsDistinct(init);
        UniqueIsDistinct(a + init);
      } else {
        assert a + Unique(b) == (a + Unique(init)) + [last];
        UniqueSnoc(a + Unique(init), last);
      }
    }
  }

  predicate AllSaid(values: seq<string>) { forall v | v in values :: v != "" && Trimmed(v) }

  lemma {:induction false} SaidIsSaid(values: seq<string>)
    ensures AllSaid(Said(values))
  {
    if values != [] {
      SaidIsSaid(values[..|values| - 1]);
      TrimTrims(values[|values| - 1]);
    }
  }

  lemma {:induction false} SaidStays(values: seq<string>)
    requires AllSaid(values)
    ensures Said(values) == values
  {
    hide Said, Trim, Trimmed;
    if values == [] {
      NothingUnique();
    } else {
      var init, last := values[..|values| - 1], values[|values| - 1];
      assert values == init + [last] && values[..|values|] == values;
      assert last in values && forall v | v in init :: v in values;
      SaidStays(init);
      TrimmedStays(last);
      SaidSnoc(values, |init|);
    }
  }

  lemma UniqueStringsIdempotent(values: seq<string>)
    ensures UniqueStrings(UniqueStrings(values)) == UniqueStrings(values)
    ensures Distinct(UniqueStrings(values)) && AllSaid(UniqueStrings(values))
  {
    SaidIsSaid(values);
    UniqueIsDistinct(Said(values));
    SaidStays(UniqueStrings(values));
    UniqueStays(UniqueStrings(values));
  }

  /** The loop. */
  method CollectUniqueStrings(values: seq<string>) returns (result: seq<string>)
    ensures result == UniqueStrings(values)
  {
    hide Unique, Said;
    var seen: set<string> := {};
    result := [];
    assert values[..0] == [] && Unique([]) == [] && Said([]) == [] by { NothingUnique(); }
    for i := 0 to |values|
      invariant result == Unique(Said(values[..i])) && forall x :: x in seen <==> x in result
    {
      SaidSnoc(values, i);
      var trimmed := NonEmpty(Some(values[i]));
      if trimmed.None? || trimmed.value in seen {
        if trimmed.Some? {
          UniqueSnoc(Said(values[..i]), trimmed.value);
        }
        continue;
      }
      UniqueSnoc(Said(values[..i]), trimmed.value);
      seen := seen + {trimmed.value};
      result := result + [trimmed.value];
    }
    assert values[..|values|] == values;
  }

  lemma NothingUnique()
    ensures Unique([]) == [] && Said([]) == []
  {
  }

  lemma SaidSnoc(values: seq<string>, i: nat)
    requires i < |values|
    ensures Said(values[..i + 1]) == if Trim(values[i]) == "" then Said(values[..i])
            else Said(values[..i]) + [Trim(values[i])]
  {
    assert values[..i + 1][..i] == values[..i];
  }

  // --- Entries with unique keys ---

  function KeysOf<T>(entries: seq<T>, key: T -> string): seq<string> {
    seq(|entries|, i requires 0 <= i < |entries| => key(entries[i]))
  }

  /** Every entry normalized; None if one of them throws. */
  function Each<T>(entries: seq<T>, f: T -> Option<T>): Option<seq<T>> {
    if entries == [] then Some([])
    else
      var before, last := Each(entries[..|entries| - 1], f), f(entries[|entries| - 1]);
      if before.None? || last.None? then None else Some(before.value + [last.value])
  }

  /** A list whose entries normalize to entries with different keys. */
  function NormalizeEach<T>(entries: seq<T>, f: T -> Option<T>, key: T -> string): Option<seq<T>> {
    var each := Each(entries, f);
    if each.Some? && Unique(KeysOf(each.value, key)) == KeysOf(each.value, key) then each else None
  }

  lemma {:induction false} EachIs<T>(entries: seq<T>, f: T -> Option<T>)
    ensures Each(entries, f).Some? <==> forall i | 0 <= i < |entries| :: f(entries[i]).Some?
    ensures Each(entries, f).Some? ==>
              |Each(entries, f).value| == |entries| && forall i | 0 <= i < |entries| ::
                  f(entries[i]) == Some(Each(entries, f).value[i])
  {
    if entries != [] {
      EachIs(entries[..|entries| - 1], f);
    }
  }

  lemma {:induction false} EachStays<T>(entries: seq<T>, f: T -> Option<T>)
    requires forall i | 0 <= i < |entries| :: f(entries[i]) == Some(entries[i])
    ensures Each(entries, f) == Some(entries)
  {
    if entries != [] {
      var init := entries[..|entries| - 1];
      assert forall i | 0 <= i < |init| :: init[i] == entries[i];
      EachStays(init, f);
      assert init + [entries[|entries| - 1]] == entries;
    }
  }

  ghost predicate Settles<T>(x: T, f: T -> Option<T>) { f(x).Some? ==> f(f(x).value) == f(x) }

  /** If the entry normalizer settles, so does the list normalizer, and its
      results have different keys. */
  lemma NormalizeEachSettles<T>(entries: seq<T>, f: T -> Option<T>, key: T -> string)
    requires forall i | 0 <= i < |entries| :: Settles(entries[i], f)
    requires NormalizeEach(entries, f, key).Some?
    ensures var ys := NormalizeEach(entries, f, key).value;
            && NormalizeEach(ys, f, key) == Some(ys)
            && Distinct(KeysOf(ys, key))
            && forall i | 0 <= i < |ys| :: f(ys[i]) == Some(ys[i])
  {
    var ys := NormalizeEach(entries, f, key).value;
    EachIs(entries, f);
    forall i | 0 <= i < |ys| ensures f(ys[i]) == Some(ys[i]) {
      assert Settles(entries[i], f);
    }
    EachStays(ys, f);
    UniqueIsDistinct(KeysOf(ys, key));
  }

  /** A list is refused exactly when an entry is, or two keys are the same. */
  lemma RefusedExactly<T>(entries: seq<T>, f: T -> Option<T>, key: T -> string)
    ensures NormalizeEach(entries, f, key).None? <==>
            || (exists i :: 0 <= i < |entries| && f(entries[i]).None?)
            || (Each(entries, f).Some? && !Distinct(KeysOf(Each(entries, f).value, key)))
  {
    EachIs(entries, f);
    if Each(entries, f).Some? {
      var keys := KeysOf(Each(entries, f).value, key);
      UniqueIsDistinct(keys);
      if Distinct(keys) {
        UniqueStays(keys);
      }
    }
  }

  /** The loop all the duplicate-checked normalizers share. */
  method NormalizeList<T>(entries: seq<T>, f: T -> Option<T>, key: T -> string) returns (result: Option<seq<T>>)
    ensures result == NormalizeEach(entries, f, key)
  {
    hide Unique;
    var seen: set<string>, normalized: seq<T> := {}, [];
    NothingUnique();
    assert entries[..0] == [] && KeysOf(normalized, key) == [];
    for i := 0 to |entries|
      invariant Each(entries[..i], f) == Some(normalized) && |normalized| == i
      invariant Distinct(KeysOf(normalized, key)) && forall x :: x in seen <==> x in KeysOf(normalized, key)
    {
      assert entries[..i + 1][..i] == entries[..i];
      var entry := f(entries[i]);
      if entry.None? {
        EachIs(entries, f);
        return None;
      }
      var longer := normalized + [entry.value];
      assert KeysOf(longer, key) == KeysOf(normalized, key) + [key(entry.value)];
      if key(entry.value) in seen {
        ghost var j :| 0 <= j < i && KeysOf(normalized, key)[j] == key(entry.value);
        assert KeysOf(longer, key)[j] == KeysOf(longer, key)[i];
        RepeatRefused(entries, i, f, key, longer);
        return None;
      }
      seen := seen + {key(entry.value)};
      normalized := longer;
    }
    assert entries[..|entries|] == entries;
    UniqueStays(KeysOf(normalized, key));
    return Some(normalized);
  }

  lemma RepeatRefused<T>(entries: seq<T>, i: nat, f: T -> Option<T>, key: T -> string, longer: seq<T>)
    requires i < |entries| && Each(entries[..i + 1], f) == Some(longer) && !Distinct(KeysOf(longer, key))
    ensures NormalizeEach(entries, f, key).None?
  {
    EachIs(entries, f);
    EachIs(entries[..i + 1], f);
    RefusedExactly(entries, f, key);
    if Each(entries, f).Some? {
      var all := Each(entries, f).value;
      assert forall j | 0 <= j <= i :: all[j] == longer[j];
      var j, k :| 0 <= j < k < |longer| && KeysOf(longer, key)[j] == KeysOf(longer, key)[k];
      assert KeysOf(all, key)[j] == KeysOf(all, key)[k];
    }
  }

  // --- Maps and records, in insertion order ---

  function Get<T>(entries: seq<T>, key: T -> string, k: string): Option<T> {
    var p := IndexOf(KeysOf(entries, key), k);
    if p < |entries| then Some(entries[p]) else None
  }

  /** Sets an entry: combined with the one under its key, in place, or at the end. */
  function Upsert<T>(entries: seq<T>, x: T, key: T -> string, combine: (T, T) -> T): seq<T> {
    var p := IndexOf(KeysOf(entries, key), key(x));
    if p < |entries| then entries[p := combine(entries[p], x)] else entries + [x]
  }

  /** Sets the entries of b, one after the other. */
  function UpsertAll<T>(a: seq<T>, b: seq<T>, key: T -> string, combine: (T, T) -> T): seq<T> {
    if b == [] then a else Upsert(UpsertAll(a, b[..|b| - 1], key, combine), b[|b| - 1], key, combine)
  }

  /** Whatever comes later. */
  function Newer<T>(before: T, after: T): T { after }

  /** Combining keeps the key. */
  ghost predicate KeepsKey<T(!new)>(key: T -> string, combine: (T, T) -> T) {
    forall x, y :: key(x) == key(y) ==> key(combine(x, y)) == key(x)
  }

  function Combined<T>(x: Option<T>, y: Option<T>, combine: (T, T) -> T): Option<T> {
    if x.None? then y else if y.None? then x else Some(combine(x.value, y.value))
  }

  lemma GetFinds<T>(entries: seq<T>, key: T -> string, k: string)
    ensures Get(entries, key, k).Some? <==> k in KeysOf(entries, key)
    ensures Get(entries, key, k).Some? ==> key(Get(entries, key, k).value) == k && Get(entries, key, k).value in entries
  {
    var keys := KeysOf(entries, key);
    IndexOfFinds(keys, k);
    assert keys[..|keys|] == keys;
  }

  lemma GetAt<T>(entries: seq<T>, key: T -> string, i: nat)
    requires i < |entries| && Distinct(KeysOf(entries, key))
    ensures Get(entries, key, key(entries[i])) == Some(entries[i])
  {
    var keys := KeysOf(entries, key);
    assert forall j | 0 <= j < i :: keys[j] != keys[i];
    IndexOfIsFirst(keys, key(entries[i]), i);
  }

  /** Keys in order and what is under them say everything. */
  lemma SameEntries<T>(a: seq<T>, b: seq<T>, key: T -> string)
    requires KeysOf(a, key) == KeysOf(b, key) && Distinct(KeysOf(a, key))
    requires forall k :: Get(a, key, k) == Get(b, key, k)
    ensures a == b
  {
    assert |KeysOf(a, key)| == |a| && |KeysOf(b, key)| == |b|;
    forall i | 0 <= i < |a| ensures a[i] == b[i] {
      GetAt(a, key, i);
      GetAt(b, key, i);
      assert KeysOf(a, key)[i] == KeysOf(b, key)[i];
    }
  }

  lemma UpsertMeans<T(!new)>(entries: seq<T>, x: T, key: T -> string, combine: (T, T) -> T)
    requires Distinct(KeysOf(entries, key)) && KeepsKey(key, combine)
    ensures var after := Upsert(entries, x, key, combine);
            && KeysOf(after, key) == Unique(KeysOf(entries, key) + [key(x)]) && Distinct(KeysOf(after, key))
            && forall k :: Get(after, key, k) ==
                           if k == key(x) then Combined(Get(entries, key, k), Some(x), combine)
                           else Get(entries, key, k)
  {
    hide Unique;
    var keys, after := KeysOf(entries, key), Upsert(entries, x, key, combine);
    UniqueIsDistinct(keys + [key(x)]);
    UniqueSnoc(keys, key(x));
    UniqueStays(keys);
    GetFinds(entries, key, key(x));
    var p := IndexOf(keys, key(x));
    assert KeysOf(after, key) == if p < |entries| then keys else keys + [key(x)];
    forall k ensures Get(after, key, k) == if k == key(x) then Combined(Get(entries, key, k), Some(x), combine)
        else Get(entries, key, k) {
      GetFinds(entries, key, k);
      GetFinds(after, key, k);
      if k in keys {
        GetSame(entries, after, key, k, IndexOf(keys, k));
      } else if k == key(x) {
        GetAt(after, key, |entries|);
      }
    }
  }

  lemma GetSame<T>(entries: seq<T>, after: seq<T>, key: T -> string, k: string, q: nat)
    requires KeysOf(entries, key) <= KeysOf(after, key) && Distinct(KeysOf(after, key))
    requires q < |entries| && key(entries[q]) == k
    ensures q < |after| && Get(after, key, k) == Some(after[q])
  {
    assert KeysOf(after, key)[q] == KeysOf(entries, key)[q] == k;
    GetAt(after, key, q);
  }

  lemma KeysOfSum<T>(a: seq<T>, b: seq<T>, key: T -> string)
    ensures KeysOf(a + b, key) == KeysOf(a, key) + KeysOf(b, key)
  {
  }

  lemma KeysOfSnoc<T>(entries: seq<T>, key: T -> string)
    requires entries != []
    ensures var init, last := entries[..|entries| - 1], entries[|entries| - 1];
            && entries == init + [last] && KeysOf(entries, key) == KeysOf(init, key) + [key(last)]
            && (Distinct(KeysOf(entries, key)) ==> Distinct(KeysOf(init, key)))
  {
    var keys, init := KeysOf(entries, key), KeysOf(entries[..|entries| - 1], key);
    assert forall i | 0 <= i < |init| :: init[i] == keys[i];
  }

  lemma {:induction false} UpsertAllKeys<T(!new)>(a: seq<T>, b: seq<T>, key: T -> string, combine: (T, T) -> T)
    requires Distinct(KeysOf(a, key)) && KeepsKey(key, combine)
    ensures var all := UpsertAll(a, b, key, combine);
            KeysOf(all, key) == Unique(KeysOf(a, key) + KeysOf(b, key)) && Distinct(KeysOf(all, key))
  {
    hide Unique, Get, Upsert;
    if b == [] {
      UniqueStays(KeysOf(a, key));
      assert KeysOf(a, key) + KeysOf(b, key) == KeysOf(a, key);
    } else {
      var init, last := b[..|b| - 1], b[|b| - 1];
      assert KeysOf(b, key) == KeysOf(init, key) + [key(last)];
      UpsertAllKeys(a, init, key, combine);
      UpsertMeans(UpsertAll(a, init, key, combine), last, key, combine);
      UniqueLeft(KeysOf(a, key) + KeysOf(init, key), [key(last)]);
      assert (KeysOf(a, key) + KeysOf(init, key)) + [key(last)] == KeysOf(a, key) + KeysOf(b, key);
    }
  }

  lemma {:induction false} UpsertAllMeans<T(!new)>(a: seq<T>, b: seq<T>, key: T -> string, combine: (T, T) -> T)
    requires Distinct(KeysOf(a, key)) && Distinct(KeysOf(b, key)) && KeepsKey(key, combine)
    ensures forall k :: Get(UpsertAll(a, b, key, combine), key, k) == Combined(Get(a, key, k), Get(b, key, k), combine)
  {
    hide Unique, Get, Upsert;
    if b == [] {
      forall k ensures Get(b, key, k) == None {
        GetFinds(b, key, k);
      }
    } else {
      var init, last := b[..|b| - 1], b[|b| - 1];
      var before := UpsertAll(a, init, key, combine);
      KeysOfSnoc(b, key);
      UpsertAllMeans(a, init, key, combine);
      UpsertAllKeys(a, init, key, combine);
      UpsertMeans(before, last, key, combine);
      forall k ensures Get(UpsertAll(a, b, key, combine), key, k) == Combined(Get(a, key, k), Get(b, key, k), combine) {
        GetOfSnoc(init, last, key, k);
      }
    }
  }

  lemma GetOfSnoc<T>(init: seq<T>, last: T, key: T -> string, k: string)
    requires Distinct(KeysOf(init + [last], key))
    ensures Get(init + [last], key, k) == if k == key(last) then Some(last) else Get(init, key, k)
    ensures Get(init, key, key(last)) == None
  {
    var all := init + [last];
    var keys := KeysOf(all, key);
    assert keys == KeysOf(init, key) + [key(last)];
    GetFinds(init, key, key(last));
    assert forall i | 0 <= i < |init| :: KeysOf(init, key)[i] == keys[i] != keys[|init|];
    if k == key(last) {
      GetAt(all, key, |init|);
    } else {
      GetFinds(init, key, k);
      GetFinds(all, key, k);
      if k in KeysOf(init, key) {
        GetSame(init, all, key, k, IndexOf(KeysOf(init, key), k));
      }
    }
  }

  lemma {:induction false} DistinctStays<T(!new)>(entries: seq<T>, key: T -> string, combine: (T, T) -> T)
    requires Distinct(KeysOf(entries, key))
    ensures UpsertAll([], entries, key, combine) == entries
  {
    if entries != [] {
      var init, last := entries[..|entries| - 1], entries[|entries| - 1];
      KeysOfSnoc(entries, key);
      DistinctStays(init, key, combine);
      GetOfSnoc(init, last, key, key(last));
    }
  }

  /** Setting b's entries, then c's, or b with c's set: the same, where combining
      itself does not care. */
  lemma UpsertAllAssociates<T(!new)>(a: seq<T>, b: seq<T>, c: seq<T>, key: T -> string, combine: (T, T) -> T)
    requires Distinct(KeysOf(a, key)) && Distinct(KeysOf(b, key)) && Distinct(KeysOf(c, key)) && KeepsKey(key, combine)
    requires forall x, y, z | x in a && y in b && z in c && key(x) == key(y) == key(z) ::
               combine(combine(x, y), z) == combine(x, combine(y, z))
    ensures UpsertAll(UpsertAll(a, b, key, combine), c, key, combine) ==
              UpsertAll(a, UpsertAll(b, c, key, combine), key, combine)
  {
    hide Unique, Get, UpsertAll;
    var ab, bc := UpsertAll(a, b, key, combine), UpsertAll(b, c, key, combine);
    UpsertAllKeys(a, b, key, combine);
    UpsertAllKeys(b, c, key, combine);
    UpsertAllKeys(ab, c, key, combine);
    UpsertAllKeys(a, bc, key, combine);
    UpsertAllMeans(a, b, key, combine);
    UpsertAllMeans(b, c, key, combine);
    UpsertAllMeans(ab, c, key, combine);
    UpsertAllMeans(a, bc, key, combine);
    var ka, kb, kc := KeysOf(a, key), KeysOf(b, key), KeysOf(c, key);
    UniqueLeft(ka + kb, kc);
    UniqueRight(ka, kb + kc);
    assert (ka + kb) + kc == ka + (kb + kc);
    forall k ensures Get(UpsertAll(ab, c, key, combine), key, k) == Get(UpsertAll(a, bc, key, combine), key, k) {
      GetFinds(a, key, k);
      GetFinds(b, key, k);
      GetFinds(c, key, k);
    }
    SameEntries(UpsertAll(ab, c, key, combine), UpsertAll(a, bc, key, combine), key);
  }
}
