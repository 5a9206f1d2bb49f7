/** Header dictionaries: names are compared without case, and the last one set
    wins. */
module Headers {
  import opened Prelude

  datatype Header = Header(name: string, value: string)

  /** A record of headers, in enumeration order. */
  type Dictionary = seq<Header>

  /** toLowerCase. */
  type Lower = string -> string

  /** The first header with this name in any case, or |d|. */
  function Find(d: Dictionary, name: string, lower: Lower): (i: nat)
    ensures i <= |d|
    ensures i < |d| ==> lower(d[i].name) == lower(name)
    ensures forall j | 0 <= j < i :: lower(d[j].name) != lower(name)
  {
    if d == [] then 0
    else
      var i := Find(d[..|d| - 1], name, lower);
      if i < |d| - 1 || lower(d[|d| - 1].name) == lower(name) then i else |d|
  }

  function Dropped(d: Dictionary, name: string, lower: Lower): Dictionary {
    var i := Find(d, name, lower);
    if i == |d| then d else d[..i] + d[i + 1..]
  }

  /** Assigning to a property: in place if the very name is there. */
  function Assigned(d: Dictionary, name: string, value: string): Dictionary {
    if exists i | 0 <= i < |d| :: d[i].name == name
    then seq(|d|, i requires 0 <= i < |d| => if d[i].name == name then Header(name, value) else d[i])
    else d + [Header(name, value)]
  }

  function SetHeader(d: Dictionary, name: string, value: string, lower: Lower): Dictionary {
    Assigned(Dropped(d, name, lower), name, value)
  }

  function SetAll(d: Dictionary, source: Dictionary, lower: Lower): Dictionary {
    if source == [] then d
    else
      var last := source[|source| - 1];
      SetHeader(SetAll(d, source[..|source| - 1], lower), last.name, last.value, lower)
  }

  /** The value under a lower-case name. */
  function Lookup(d: Dictionary, folded: string, lower: Lower): Option<string> {
    if d == [] then None
    else if lower(d[|d| - 1].name) == folded then Some(d[|d| - 1].value)
    else Lookup(d[..|d| - 1], folded, lower)
  }

  /** No two names are the same but for case. */
  ghost predicate UniqueNames(d: Dictionary, lower: Lower) {
    forall i, j | 0 <= i < j < |d| :: lower(d[i].name) != lower(d[j].name)
  }

  lemma {:induction false} LookupAt(d: Dictionary, i: nat, lower: Lower)
    requires UniqueNames(d, lower) && i < |d|
    ensures Lookup(d, lower(d[i].name), lower) == Some(d[i].value)
  {
    if i < |d| - 1 {
      LookupAt(d[..|d| - 1], i, lower);
    }
  }

  lemma {:induction false} LookupNone(d: Dictionary, folded: string, lower: Lower)
    ensures Lookup(d, folded, lower).None? <==> forall i | 0 <= i < |d| :: lower(d[i].name) != folded
  {
    if d != [] {
      LookupNone(d[..|d| - 1], folded, lower);
    }
  }

  lemma DroppedMeans(d: Dictionary, name: string, lower: Lower, folded: string)
    requires UniqueNames(d, lower)
    ensures UniqueNames(Dropped(d, name, lower), lower)
    ensures Lookup(Dropped(d, name, lower), folded, lower) == if lower(name) == folded then None
            else Lookup(d, folded, lower)
  {
    var i, left := Find(d, name, lower), Dropped(d, name, lower);
    hide Lookup;
    LookupNone(left, folded, lower);
    LookupNone(d, folded, lower);
    if lower(name) != folded && Lookup(d, folded, lower).Some? {
      var k :| 0 <= k < |d| && lower(d[k].name) == folded;
      LookupAt(d, k, lower);
      assert left[if k < i then k else k - 1] == d[k];
      LookupAt(left, if k < i then k else k - 1, lower);
    }
  }

  /** Setting a header leaves one of its name, with the new value, and every other
      as it was. */
  lemma SetHeaderMeans(d: Dictionary, name: string, value: string, lower: Lower, folded: string)
    requires UniqueNames(d, lower)
    ensures UniqueNames(SetHeader(d, name, value, lower), lower)
    ensures Lookup(SetHeader(d, name, value, lower), folded, lower) ==
            if lower(name) == folded then Some(value) else Lookup(d, folded, lower)
  {
    var left := Dropped(d, name, lower);
    DroppedMeans(d, name, lower, folded);
    DroppedMeans(d, name, lower, lower(name));
    LookupNone(left, lower(name), lower);
    assert SetHeader(d, name, value, lower) == left + [Header(name, value)];
    assert (left + [Header(name, value)])[..|left|] == left;
  }

  /** Setting all headers of a source: each has the value the source gives it
      last, every other the one it had. */
  lemma {:induction false} SetAllMeans(d: Dictionary, source: Dictionary, lower: Lower, folded: string)
    requires UniqueNames(d, lower)
    ensures UniqueNames(SetAll(d, source, lower), lower)
    ensures Lookup(SetAll(d, source, lower), folded, lower) ==
            if Lookup(source, folded, lower).Some? then Lookup(source, folded, lower) else Lookup(d, folded, lower)
  {
    if source != [] {
      var init, last := source[..|source| - 1], source[|source| - 1];
      hide SetHeader, UniqueNames;
      SetAllMeans(d, init, lower, folded);
      SetHeaderMeans(SetAll(d, init, lower), last.name, last.value, lower, folded);
    }
  }

  /** A loop of header assignments. */
  method CopyInto(d0: Dictionary, source: Dictionary, lower: Lower) returns (d: Dictionary)
    ensures d == SetAll(d0, source, lower)
  {
    hide SetHeader;
    d := d0;
    assert source[..0] == [];
    for i := 0 to |source|
      invariant d == SetAll(d0, source[..i], lower)
    {
      assert source[..i + 1][..i] == source[..i];
      d := SetHeader(d, source[i].name, source[i].value, lower);
    }
    assert source[..|source|] == source;
  }

  /** The headers of three sources, the later the more specific. */
  function Layered(defaults: Dictionary, request: Dictionary, auth: Dictionary, lower: Lower): Dictionary {
    SetAll(SetAll(SetAll([], defaults, lower), request, lower), auth, lower)
  }

  lemma LayeredMeans(defaults: Dictionary, request: Dictionary, auth: Dictionary, lower: Lower, folded: string)
    ensures UniqueNames(Layered(defaults, request, auth, lower), lower)
    ensures Lookup(Layered(defaults, request, auth, lower), folded, lower) ==
            if Lookup(auth, folded, lower).Some? then Lookup(auth, folded, lower)
            else if Lookup(request, folded, lower).Some? then Lookup(request, folded, lower)
            else Lookup(defaults, folded, lower)
  {
    hide SetAll, UniqueNames;
    assert UniqueNames([], lower) && Lookup([], folded, lower) == None by { EmptyIsUnique(folded, lower); }
    SetAllMeans([], defaults, lower, folded);
    SetAllMeans(SetAll([], defaults, lower), request, lower, folded);
    SetAllMeans(SetAll(SetAll([], defaults, lower), request, lower), auth, lower, folded);
  }

  lemma EmptyIsUnique(folded: string, lower: Lower)
    ensures UniqueNames([], lower) && Lookup([], folded, lower) == None
  {
  }

  const IDEMPOTENCY_KEY := "Idempotency-Key"
  const LAST_EVENT_ID := "Last-Event-ID"

  /** The two header names fold as ASCII does. */
  ghost predicate FoldsNames(lower: Lower) {
    lower(IDEMPOTENCY_KEY) == "idempotency-key" && lower("idempotency-key") == "idempotency-key"
    && lower(LAST_EVENT_ID) == "last-event-id"
  }

  /** The HTTP transport's headers. Whatever the three sources hold, at most one
      header has the idempotency key's name in any case, and it carries the key
      given, if one was given; every other header has its most specific value. */
  method MergeHttpHeaders(defaults: Dictionary, request: Dictionary, auth: Dictionary, key: Option<string>,
                          lower: Lower)
    returns (headers: Dictionary)
    requires FoldsNames(lower)
    ensures UniqueNames(headers, lower) && Lookup(headers, "idempotency-key", lower) == key
    ensures forall folded | folded != "idempotency-key" ::
              Lookup(headers, folded, lower) == Lookup(Layered(defaults, request, auth, lower), folded, lower)
  {
    hide SetAll, Dropped, Assigned, Lookup, UniqueNames;
    headers := CopyInto([], defaults, lower);
    headers := CopyInto(headers, request, lower);
    headers := CopyInto(headers, auth, lower);
    ghost var layered := Layered(defaults, request, auth, lower);
    assert headers == layered;
    LayeredMeans(defaults, request, auth, lower, "idempotency-key");
    headers := Dropped(headers, "idempotency-key", lower);
    forall folded ensures UniqueNames(headers, lower)
                      && Lookup(headers, folded, lower) == if folded == "idempotency-key" then None
                          else Lookup(layered, folded, lower)
    {
      DroppedMeans(layered, "idempotency-key", lower, folded);
    }
    if key.Some? {
      ghost var before := headers;
      NoneToDrop(headers, IDEMPOTENCY_KEY, lower);
      headers := Assigned(headers, IDEMPOTENCY_KEY, key.value);
      forall folded ensures UniqueNames(headers, lower)
                        && Lookup(headers, folded, lower) == if folded == "idempotency-key" then key
                            else Lookup(before, folded, lower)
      {
        SetHeaderMeans(before, IDEMPOTENCY_KEY, key.value, lower, folded);
      }
    }
  }

  lemma NoneToDrop(d: Dictionary, name: string, lower: Lower)
    requires Lookup(d, lower(name), lower).None?
    ensures Dropped(d, name, lower) == d
  {
    LookupNone(d, lower(name), lower);
  }

  /** The SSE transport's headers: a cursor that says something is the
      Last-Event-ID sent; without one, it is whatever the sources supply. */
  method MergeSseHeaders(defaults: Dictionary, request: Dictionary, auth: Dictionary, cursor: Option<string>,
                         lower: Lower)
    returns (headers: Dictionary)
    requires FoldsNames(lower)
    ensures UniqueNames(headers, lower)
    ensures Lookup(headers, "last-event-id", lower) ==
            if cursor.Some? && cursor.value != "" then cursor
            else Lookup(Layered(defaults, request, auth, lower), "last-event-id", lower)
    ensures forall folded | folded != "last-event-id" ::
              Lookup(headers, folded, lower) == Lookup(Layered(defaults, request, auth, lower), folded, lower)
  {
    hide SetAll, Lookup, UniqueNames, SetHeader;
    headers := CopyInto([], defaults, lower);
    headers := CopyInto(headers, request, lower);
    headers := CopyInto(headers, auth, lower);
    ghost var layered := Layered(defaults, request, auth, lower);
    LayeredMeans(defaults, request, auth, lower, "last-event-id");
    if cursor.Some? && cursor.value != "" {
      headers := SetHeader(headers, LAST_EVENT_ID, cursor.value, lower);
      forall folded ensures UniqueNames(headers, lower)
                        && Lookup(headers, folded, lower) == if folded == "last-event-id" then cursor
                            else Lookup(layered, folded, lower)
      {
        SetHeaderMeans(layered, LAST_EVENT_ID, cursor.value, lower, folded);
      }
    }
  }
}
