/** The store itself, over mutable status objects: it shares none of them with
    its callers. */
module SynchronousRunStores {
  import opened Prelude
  import opened RunStores

  datatype Scalar = Text(text: string) | Number(number: real)

  class Fields {
    var values: map<string, Scalar>

    constructor (values: map<string, Scalar>)
      ensures this.values == values
    {
      this.values := values;
    }
  }

  class Tokens {
    var values: map<string, Scalar>
    var raw: Fields?

    constructor (values: map<string, Scalar>, raw: Fields?)
      ensures this.values == values && this.raw == raw
    {
      this.values, this.raw := values, raw;
    }
  }

  class RunStatus {
    var runId: string
    var values: map<string, Scalar>
    var usage: Fields?
    var errorDetails: Fields?
    var tokens: Tokens?

    constructor (runId: string, values: map<string, Scalar>, usage: Fields?, errorDetails: Fields?, tokens: Tokens?)
      ensures this.runId == runId && this.values == values && this.usage == usage
      ensures this.errorDetails == errorDetails && this.tokens == tokens
    {
      this.runId, this.values, this.usage, this.errorDetails, this.tokens := runId, values, usage, errorDetails, tokens;
    }
  }

  datatype TokensValue = TokensValue(values: map<string, Scalar>, raw: Option<map<string, Scalar>>)

  /** What a status says, all the way down. */
  datatype StatusValue = StatusValue(runId: string, values: map<string, Scalar>, usage: Option<map<string, Scalar>>,
                                     errorDetails: Option<map<string, Scalar>>, tokens: Option<TokensValue>)

  /** Everything the status is made of lies in the region. */
  ghost predicate Within(s: RunStatus, region: set<object>)
    reads region
  {
    && s in region
    && (s.usage != null ==> s.usage in region)
    && (s.errorDetails != null ==> s.errorDetails in region)
    && (s.tokens != null ==> s.tokens in region && (s.tokens.raw != null ==> s.tokens.raw in region))
  }

  ghost function Value(s: RunStatus, region: set<object>): StatusValue
    requires Within(s, region)
    reads region
  {
    StatusValue(s.runId, s.values,
                if s.usage == null then None else Some(s.usage.values),
                if s.errorDetails == null then None else Some(s.errorDetails.values),
                if s.tokens == null then None
                else Some(TokensValue(s.tokens.values, if s.tokens.raw == null then None
                                      else Some(s.tokens.raw.values))))
  }

  method CopyFields(f: Fields?) returns (copy: Fields?, ghost made: set<object>)
    ensures copy == null <==> f == null
    ensures copy != null ==> copy.values == f.values && copy in made
    ensures fresh(made)
  {
    copy, made := null, {};
    if f != null {
      copy := new Fields(f.values);
      made := {copy};
    }
  }

  /** A deep copy: it says the same, and is made of new objects only. */
  method Snapshot(s: RunStatus, ghost region: set<object>) returns (copy: RunStatus, ghost made: set<object>)
    requires Within(s, region)
    ensures fresh(made) && Within(copy, made)
    ensures Value(copy, made) == Value(s, region)
  {
    var usage, usageMade := CopyFields(s.usage);
    var details, detailsMade := CopyFields(s.errorDetails);
    var tokens: Tokens? := null;
    made := usageMade + detailsMade;
    if s.tokens != null {
      var raw, rawMade := CopyFields(s.tokens.raw);
      tokens := new Tokens(s.tokens.values, raw);
      made := made + rawMade + {tokens};
    }
    copy := new RunStatus(s.runId, s.values, usage, details, tokens);
    made := made + {copy};
  }

  /** The map's entries over the region they live in. */
  ghost function Contents(entries: seq<Entry<RunStatus>>, region: set<object>): seq<Entry<StatusValue>>
    requires forall i | 0 <= i < |entries| :: Within(entries[i].value, region)
    reads region
  {
    seq(|entries|, i requires 0 <= i < |entries| && Within(entries[i].value, region) reads region =>
      Entry(entries[i].id, Value(entries[i].value, region)))
  }

  class SynchronousRunStore {
    const capacity: int
    var entries: seq<Entry<RunStatus>>
    /** The objects the store is made of. */
    ghost var Repr: set<object>
    /** Everything it was asked to remember. */
    ghost var History: seq<Entry<StatusValue>>

    ghost predicate Valid()
      reads this, Repr
    {
      && this !in Repr
      && (forall i | 0 <= i < |entries| :: Within(entries[i].value, Repr))
      && Contents(entries, Repr) == RememberAll(History, capacity)
    }

    constructor (capacity: int)
      ensures Valid() && History == [] && Repr == {} && this.capacity == capacity
    {
      this.capacity, entries, Repr, History := capacity, [], {}, [];
    }

    /** The Map's delete, set and eviction. */
    method Put(id: string, copy: RunStatus, ghost made: set<object>)
      requires id != "" && (forall i | 0 <= i < |entries| :: Within(entries[i].value, Repr)) && Within(copy, made)
      requires this !in Repr && this !in made
      modifies `entries, `Repr
      ensures Repr == old(Repr) + made && forall i | 0 <= i < |entries| :: Within(entries[i].value, Repr)
      ensures Contents(entries, Repr) == RunStores.Remember(old(Contents(entries, Repr)), capacity,
                                                            Entry(id, old(Value(copy, made))))
    {
      hide Value, Contents, RunStores.Without;
      WithoutOfContents(entries, id, Repr);
      ContentsInLarger(RunStores.Without(entries, id), Repr, Repr + made);
      ValueInLarger(copy, made, Repr + made);
      Repr := Repr + made;
      var all := RunStores.Without(entries, id) + [Entry(id, copy)];
      ContentsOfAppended(RunStores.Without(entries, id), Entry(id, copy), Repr);
      entries := if |all| > capacity then all[1..] else all;
    }

    method Remember(status: RunStatus, ghost region: set<object>)
      requires Valid() && Within(status, region) && this !in region
      modifies this
      ensures Valid() && Repr >= old(Repr) && fresh(Repr - old(Repr))
      ensures History == old(History) + [Entry(status.runId, old(Value(status, region)))]
    {
      hide Value, Contents, RememberAll, RunStores.Remember;
      ghost var e := Entry(status.runId, Value(status, region));
      HistoryGrows(History, capacity, e);
      History := History + [e];
      if status.runId != "" {
        var copy, made := Snapshot(status, region);
        Put(status.runId, copy, made);
      }
    }

    /** A copy of the status remembered last under the id, if and only if fewer
        than `capacity` other ids were remembered since. */
    method Get(runId: string) returns (status: RunStatus?, ghost made: set<object>)
      requires Valid()
      ensures fresh(made) && (status != null ==> Within(status, made))
      ensures (if status == null then None else Some(Value(status, made))) ==
              if runId != "" && Latest(History, runId).Some? && |Newer(History, runId)| < capacity
                  then Latest(History, runId)
              else None
    {
      if runId == "" {
        EmptyIdIsNeverFound(History, capacity);
      } else {
        GetMatchesHistory(History, capacity, runId);
      }
      hide RememberAll, Latest, Newer;
      status, made := null, {};
      var i := |entries|;
      ghost var all := Contents(entries, Repr);
      assert all[..i] == all;
      while i > 0
        invariant 0 <= i <= |entries| && Lookup(all[..i], runId) == Lookup(all, runId)
      {
        i := i - 1;
        assert all[..i + 1][..i] == all[..i];
        if entries[i].id == runId {
          status, made := Snapshot(entries[i].value, Repr);
          return;
        }
      }
    }
  }

  lemma {:induction false} WithoutOfContents(entries: seq<Entry<RunStatus>>, id: string, region: set<object>)
    requires forall i | 0 <= i < |entries| :: Within(entries[i].value, region)
    ensures forall i | 0 <= i < |Without(entries, id)| :: Within(Without(entries, id)[i].value, region)
    ensures Contents(Without(entries, id), region) == Without(Contents(entries, region), id)
  {
    if entries != [] {
      WithoutOfContents(entries[..|entries| - 1], id, region);
      assert Contents(entries, region)[..|entries| - 1] == Contents(entries[..|entries| - 1], region);
    }
  }

  lemma ContentsInLarger(entries: seq<Entry<RunStatus>>, region: set<object>, larger: set<object>)
    requires region <= larger && forall i | 0 <= i < |entries| :: Within(entries[i].value, region)
    ensures forall i | 0 <= i < |entries| :: Within(entries[i].value, larger)
    ensures Contents(entries, region) == Contents(entries, larger)
  {
  }

  lemma HistoryGrows(history: seq<Entry<StatusValue>>, capacity: int, e: Entry<StatusValue>)
    ensures RememberAll(history + [e], capacity) == RunStores.Remember(RememberAll(history, capacity), capacity, e)
    ensures e.id == "" ==> RememberAll(history + [e], capacity) == RememberAll(history, capacity)
  {
    assert (history + [e])[..|history|] == history;
  }

  lemma ValueInLarger(s: RunStatus, region: set<object>, larger: set<object>)
    requires region <= larger && Within(s, region)
    ensures Within(s, larger) && Value(s, larger) == Value(s, region)
  {
  }

  lemma ContentsOfAppended(kept: seq<Entry<RunStatus>>, e: Entry<RunStatus>, region: set<object>)
    requires Within(e.value, region) && forall i | 0 <= i < |kept| :: Within(kept[i].value, region)
    ensures var all := kept + [e];
            && (forall i | 0 <= i < |all| :: Within(all[i].value, region))
            && Contents(all, region) == Contents(kept, region) + [Entry(e.id, Value(e.value, region))]
            && (forall i | 0 <= i < |all[1..]| :: Within(all[1..][i].value, region))
            && Contents(all[1..], region) == Contents(all, region)[1..]
            && |Contents(all, region)| == |all|
  {
    hide Value;
  }

  /** Overwrites a status, all the way down. */
  method Scribble(s: RunStatus, ghost region: set<object>, values: map<string, Scalar>)
    requires Within(s, region)
    modifies region
    ensures Within(s, region)
  {
    s.values := values;
    if s.usage != null {
      s.usage.values := values;
    }
    if s.errorDetails != null {
      s.errorDetails.values := values;
    }
    if s.tokens != null {
      s.tokens.values := values;
      if s.tokens.raw != null {
        s.tokens.raw.values := values;
      }
    }
    s.runId := "";
  }

  /** Whatever a caller does to the status it passed in, or to one it got back,
      the store answers the same. */
  method MutationsStayOutside(store: SynchronousRunStore, status: RunStatus, ghost region: set<object>, id: string,
                              values: map<string, Scalar>)
    requires store.Valid() && Within(status, region) && region !! store.Repr && store !in region
    modifies store, region
    ensures store.Valid()
    ensures store.History == old(store.History) + [Entry(old(status.runId), old(Value(status, region)))]
  {
    store.Remember(status, region);
    Scribble(status, region, values);
    var got, made := store.Get(id);
    if got != null {
      Scribble(got, made, values);
    }
  }
}
