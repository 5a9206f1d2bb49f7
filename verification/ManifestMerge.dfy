/** Merging the manifest's, the team's and the member's version of one action. */
module ManifestMerge {
  import opened Prelude
  import opened ManifestPaths
  import opened ManifestLists
  import opened Manifests
  import opened ManifestNormalization

  // --- Scalars ---

  /** `override ?? base`, kept only when truthy: an empty override hides the base. */
  function Pick(base: Option<string>, override: Option<string>): Option<string> {
    var picked := if override.Some? then override else base;
    if picked == Some("") then None else picked
  }

  /** Whichever is defined, the override first. */
  function Or<T>(base: Option<T>, override: Option<T>): Option<T> { if override.Some? then override else base }

  /** mergeRecords: one without entries is none. */
  function MergeRecords(base: Option<Metadata>, override: Option<Metadata>): Option<Metadata> {
    var merged := (if base.Some? then base.value else map[]) + (if override.Some? then override.value else map[]);
    if merged == map[] then None else Some(merged)
  }

  // --- Contracts ---

  function MergeParam(base: Param, override: Param): Param {
    Param(base.key, Pick(base.kind, override.kind), Or(base.required, override.required),
          Or(base.initial, override.initial), UniqueStrings(base.values + override.values),
          UniqueStrings(base.aliases + override.aliases), Pick(base.description, override.description),
          MergeRecords(base.metadata, override.metadata))
  }

  function MergeParams(base: seq<Param>, override: seq<Param>): seq<Param> {
    UpsertAll(UpsertAll([], base, ParamKey, Newer), override, ParamKey, MergeParam)
  }

  function NoInput(): Input { Input(None, None, [], None, [], None) }

  function MergeInput(base: Option<Input>, override: Option<Input>): Option<Input> {
    if base.None? && override.None? then None
    else
      var a, b := if base.Some? then base.value else NoInput(), if override.Some? then override.value else NoInput();
      Some(Input(Pick(a.mode, b.mode), Pick(a.command, b.command), MergeParams(a.params, b.params),
                 Or(a.schema, b.schema), UniqueStrings(a.examples + b.examples), MergeRecords(a.metadata, b.metadata)))
  }

  function MergeArtifact(base: Artifact, override: Artifact): Artifact {
    Artifact(base.key, Pick(base.contentType, override.contentType), Pick(base.path, override.path),
             Pick(base.description, override.description), MergeRecords(base.metadata, override.metadata))
  }

  function MergeArtifacts(base: seq<Artifact>, override: seq<Artifact>): seq<Artifact> {
    UpsertAll(UpsertAll([], base, ArtifactKey, Newer), override, ArtifactKey, MergeArtifact)
  }

  function NoOutput(): Output { Output(None, None, None, [], None) }

  function MergeOutput(base: Option<Output>, override: Option<Output>): Option<Output> {
    if base.None? && override.None? then None
    else
      var a, b := if base.Some? then base.value else NoOutput(), if override.Some? then override.value else NoOutput();
      Some(Output(Pick(a.mode, b.mode), Pick(a.contentType, b.contentType), Or(a.schema, b.schema),
                  MergeArtifacts(a.artifacts, b.artifacts), MergeRecords(a.metadata, b.metadata)))
  }

  function NoRoute(): Route { Route(None, None, None, None) }

  function MergeRoute(base: Option<Route>, override: Option<Route>): Option<Route> {
    if base.None? && override.None? then None
    else
      var a, b := if base.Some? then base.value else NoRoute(), if override.Some? then override.value else NoRoute();
      Some(Route(Pick(a.verb, b.verb), Pick(a.surfaceKey, b.surfaceKey), Pick(a.path, b.path),
                 MergeRecords(a.metadata, b.metadata)))
  }

  function MergeDefaults(base: seq<Default>, override: seq<Default>): seq<Default> {
    UpsertAll(UpsertAll([], base, DefaultKey, Newer), override, DefaultKey, Newer)
  }

  /** mergeTeamActionContracts; None where the ids differ. */
  function MergeAction(base: Action, override: Action): Option<Action> {
    if base.id != override.id then None
    else Some(Action(base.id, Pick(base.title, override.title), Pick(base.description, override.description),
                     Or(base.enabled, override.enabled), MergeRoute(base.route, override.route),
                     MergeInput(base.input, override.input), MergeOutput(base.output, override.output),
                     MergeDefaults(base.defaults, override.defaults),
                     UniqueStrings(base.capabilities + override.capabilities),
                     MergeRecords(base.metadata, override.metadata)))
  }

  // --- What a normalized contract looks like ---

  predicate SaysSomething(text: Option<string>) { text != Some("") }

  ghost predicate Tidy(values: seq<string>) { Distinct(values) && AllSaid(values) }

  ghost predicate TidyParam(p: Param) {
    SaysSomething(p.kind) && SaysSomething(p.description) && Tidy(p.values) && Tidy(p.aliases)
  }

  ghost predicate TidyArtifact(a: Artifact) {
    SaysSomething(a.contentType) && SaysSomething(a.path) && SaysSomething(a.description)
  }

  ghost predicate TidyInput(i: Input) {
    && SaysSomething(i.mode) && SaysSomething(i.command) && Tidy(i.examples)
    && Distinct(KeysOf(i.params, ParamKey)) && forall p | p in i.params :: TidyParam(p)
  }

  ghost predicate TidyOutput(o: Output) {
    && SaysSomething(o.mode) && SaysSomething(o.contentType)
    && Distinct(KeysOf(o.artifacts, ArtifactKey)) && forall a | a in o.artifacts :: TidyArtifact(a)
  }

  ghost predicate TidyRoute(r: Route) { SaysSomething(r.verb) && SaysSomething(r.surfaceKey) && SaysSomething(r.path) }

  ghost predicate TidyAction(a: Action) {
    && SaysSomething(a.title) && SaysSomething(a.description) && Tidy(a.capabilities)
    && Distinct(KeysOf(a.defaults, DefaultKey))
    && (a.route.Some? ==> TidyRoute(a.route.value)) && (a.input.Some? ==> TidyInput(a.input.value))
    && (a.output.Some? ==> TidyOutput(a.output.value))
  }

  // --- The field mergers associate ---

  /** On scalars that say something, the last defined one wins. */
  lemma PickAssociates(a: Option<string>, b: Option<string>, c: Option<string>)
    requires SaysSomething(a) && SaysSomething(b) && SaysSomething(c)
    ensures Pick(Pick(a, b), c) == Pick(a, Pick(b, c)) == Or(Or(a, b), c)
    ensures SaysSomething(Pick(a, b))
  {
  }

  /** The exact condition for three scalars of any kind: grouping matters just
      when an empty text overrides a text. */
  lemma PickAssociatesExactly(a: Option<string>, b: Option<string>, c: Option<string>)
    ensures Pick(Pick(a, b), c) == Pick(a, Pick(b, c)) <==> !(a.Some? && a.value != "" && Or(b, c) == Some(""))
  {
  }

  lemma RecordsAssociate(a: Option<Metadata>, b: Option<Metadata>, c: Option<Metadata>)
    ensures MergeRecords(MergeRecords(a, b), c) == MergeRecords(a, MergeRecords(b, c))
    ensures forall k :: k in Entries(MergeRecords(a, b)) <==> k in Entries(a) || k in Entries(b)
    ensures forall k | k in Entries(MergeRecords(a, b)) ::
              Entries(MergeRecords(a, b))[k] == if k in Entries(b) then Entries(b)[k] else Entries(a)[k]
  {
    var x, y, z := Entries(a), Entries(b), Entries(c);
    assert (x + y) + z == x + (y + z);
    assert Entries(MergeRecords(a, b)) == x + y && Entries(MergeRecords(b, c)) == y + z;
  }

  function Entries(m: Option<Metadata>): Metadata { if m.Some? then m.value else map[] }

  /** On tidy lists, a merge is the ordered union. */
  lemma ListsAssociate(a: seq<string>, b: seq<string>, c: seq<string>)
    requires Tidy(a) && Tidy(b) && Tidy(c)
    ensures UniqueStrings(a + b) == Unique(a + b) && Tidy(UniqueStrings(a + b))
    ensures UniqueStrings(UniqueStrings(a + b) + c) == UniqueStrings(a + UniqueStrings(b + c)) == Unique(a + b + c)
  {
    hide Unique, Said;
    SaidStays(a + b);
    SaidStays(b + c);
    UniqueIsDistinct(a + b);
    UniqueIsDistinct(b + c);
    SaidStays(Unique(a + b) + c);
    SaidStays(a + Unique(b + c));
    UniqueLeft(a + b, c);
    UniqueRight(a, b + c);
    assert (a + b) + c == a + (b + c);
  }

  lemma MergeParamAssociates(a: Param, b: Param, c: Param)
    requires TidyParam(a) && TidyParam(b) && TidyParam(c)
    ensures MergeParam(MergeParam(a, b), c) == MergeParam(a, MergeParam(b, c))
    ensures TidyParam(MergeParam(a, b))
  {
    hide Pick, UniqueStrings, MergeRecords, Tidy;
    PickAssociates(a.kind, b.kind, c.kind);
    PickAssociates(a.description, b.description, c.description);
    ListsAssociate(a.values, b.values, c.values);
    ListsAssociate(a.aliases, b.aliases, c.aliases);
    RecordsAssociate(a.metadata, b.metadata, c.metadata);
  }

  lemma MergeArtifactAssociates(a: Artifact, b: Artifact, c: Artifact)
    requires TidyArtifact(a) && TidyArtifact(b) && TidyArtifact(c)
    ensures MergeArtifact(MergeArtifact(a, b), c) == MergeArtifact(a, MergeArtifact(b, c))
    ensures TidyArtifact(MergeArtifact(a, b))
  {
    hide Pick, MergeRecords;
    PickAssociates(a.contentType, b.contentType, c.contentType);
    PickAssociates(a.path, b.path, c.path);
    PickAssociates(a.description, b.description, c.description);
    RecordsAssociate(a.metadata, b.metadata, c.metadata);
  }

  // --- Keyed lists ---

  /** Merged entries are one side's, or the combination of both. */
  lemma MergedEntries<T(!new)>(a: seq<T>, b: seq<T>, key: T -> string, combine: (T, T) -> T, x: T)
    requires Distinct(KeysOf(a, key)) && Distinct(KeysOf(b, key)) && KeepsKey(key, combine)
    requires x in UpsertAll(a, b, key, combine)
    ensures x in a || x in b || exists y, z :: y in a && z in b && key(y) == key(z) && x == combine(y, z)
  {
    hide Get, Unique;
    var all := UpsertAll(a, b, key, combine);
    UpsertAllKeys(a, b, key, combine);
    UpsertAllMeans(a, b, key, combine);
    var i :| 0 <= i < |all| && all[i] == x;
    GetAt(all, key, i);
    GetFinds(a, key, key(x));
    GetFinds(b, key, key(x));
  }

  lemma ParamsAssociate(a: seq<Param>, b: seq<Param>, c: seq<Param>)
    requires Distinct(KeysOf(a, ParamKey)) && Distinct(KeysOf(b, ParamKey)) && Distinct(KeysOf(c, ParamKey))
    requires forall p | p in a || p in b || p in c :: TidyParam(p)
    ensures MergeParams(MergeParams(a, b), c) == MergeParams(a, MergeParams(b, c))
    ensures Distinct(KeysOf(MergeParams(a, b), ParamKey)) && forall p | p in MergeParams(a, b) :: TidyParam(p)
    ensures KeysOf(MergeParams(a, b), ParamKey) == Unique(KeysOf(a, ParamKey) + KeysOf(b, ParamKey))
    ensures forall k :: Get(MergeParams(a, b), ParamKey, k) ==
              Combined(Get(a, ParamKey, k), Get(b, ParamKey, k), MergeParam)
  {
    hide Unique, Get, UpsertAll, TidyParam;
    var ab, bc := UpsertAll(a, b, ParamKey, MergeParam), UpsertAll(b, c, ParamKey, MergeParam);
    assert KeepsKey(ParamKey, MergeParam);
    UpsertAllKeys(a, b, ParamKey, MergeParam);
    UpsertAllKeys(b, c, ParamKey, MergeParam);
    UpsertAllMeans(a, b, ParamKey, MergeParam);
    DistinctStays(a, ParamKey, Newer);
    DistinctStays(b, ParamKey, Newer);
    DistinctStays(ab, ParamKey, Newer);
    forall x, y, z | x in a && y in b && z in c
      ensures MergeParam(MergeParam(x, y), z) == MergeParam(x, MergeParam(y, z)) && TidyParam(MergeParam(x, y))
    {
      MergeParamAssociates(x, y, z);
    }
    UpsertAllAssociates(a, b, c, ParamKey, MergeParam);
    forall p | p in ab ensures TidyParam(p) {
      MergedEntries(a, b, ParamKey, MergeParam, p);
      if y, z :| y in a && z in b && ParamKey(y) == ParamKey(z) && p == MergeParam(y, z) {
        MergeParamAssociates(y, z, z);
      }
    }
  }

  lemma ArtifactsAssociate(a: seq<Artifact>, b: seq<Artifact>, c: seq<Artifact>)
    requires Distinct(KeysOf(a, ArtifactKey)) && Distinct(KeysOf(b, ArtifactKey)) && Distinct(KeysOf(c, ArtifactKey))
    requires forall x | x in a || x in b || x in c :: TidyArtifact(x)
    ensures MergeArtifacts(MergeArtifacts(a, b), c) == MergeArtifacts(a, MergeArtifacts(b, c))
    ensures Distinct(KeysOf(MergeArtifacts(a, b), ArtifactKey))
    ensures forall x | x in MergeArtifacts(a, b) :: TidyArtifact(x)
    ensures KeysOf(MergeArtifacts(a, b), ArtifactKey) == Unique(KeysOf(a, ArtifactKey) + KeysOf(b, ArtifactKey))
    ensures forall k :: Get(MergeArtifacts(a, b), ArtifactKey, k) ==
                        Combined(Get(a, ArtifactKey, k), Get(b, ArtifactKey, k), MergeArtifact)
  {
    hide Unique, Get, UpsertAll, TidyArtifact;
    var ab, bc := UpsertAll(a, b, ArtifactKey, MergeArtifact), UpsertAll(b, c, ArtifactKey, MergeArtifact);
    assert KeepsKey(ArtifactKey, MergeArtifact);
    UpsertAllKeys(a, b, ArtifactKey, MergeArtifact);
    UpsertAllKeys(b, c, ArtifactKey, MergeArtifact);
    UpsertAllMeans(a, b, ArtifactKey, MergeArtifact);
    DistinctStays(a, ArtifactKey, Newer);
    DistinctStays(b, ArtifactKey, Newer);
    DistinctStays(ab, ArtifactKey, Newer);
    forall x, y, z | x in a && y in b && z in c
      ensures MergeArtifact(MergeArtifact(x, y), z) == MergeArtifact(x, MergeArtifact(y, z))
    {
      MergeArtifactAssociates(x, y, z);
    }
    UpsertAllAssociates(a, b, c, ArtifactKey, MergeArtifact);
    forall x | x in ab ensures TidyArtifact(x) {
      MergedEntries(a, b, ArtifactKey, MergeArtifact, x);
      if y, z :| y in a && z in b && ArtifactKey(y) == ArtifactKey(z) && x == MergeArtifact(y, z) {
        MergeArtifactAssociates(y, z, z);
      }
    }
  }

  lemma DefaultsAssociate(a: seq<Default>, b: seq<Default>, c: seq<Default>)
    requires Distinct(KeysOf(a, DefaultKey)) && Distinct(KeysOf(b, DefaultKey)) && Distinct(KeysOf(c, DefaultKey))
    ensures MergeDefaults(MergeDefaults(a, b), c) == MergeDefaults(a, MergeDefaults(b, c))
    ensures Distinct(KeysOf(MergeDefaults(a, b), DefaultKey))
    ensures forall k :: Get(MergeDefaults(a, b), DefaultKey, k) == Or(Get(a, DefaultKey, k), Get(b, DefaultKey, k))
  {
    hide Unique, Get, UpsertAll;
    assert KeepsKey(DefaultKey, Newer);
    var ab := UpsertAll(a, b, DefaultKey, Newer);
    UpsertAllKeys(a, b, DefaultKey, Newer);
    UpsertAllMeans(a, b, DefaultKey, Newer);
    DistinctStays(a, DefaultKey, Newer);
    DistinctStays(b, DefaultKey, Newer);
    DistinctStays(ab, DefaultKey, Newer);
    UpsertAllAssociates(a, b, c, DefaultKey, Newer);
  }

  // --- The parts of a contract ---

  lemma RoutesAssociate(a: Option<Route>, b: Option<Route>, c: Option<Route>)
    requires (a.Some? ==> TidyRoute(a.value)) && (b.Some? ==> TidyRoute(b.value)) && (c.Some? ==> TidyRoute(c.value))
    ensures MergeRoute(MergeRoute(a, b), c) == MergeRoute(a, MergeRoute(b, c))
    ensures MergeRoute(a, b).Some? ==> TidyRoute(MergeRoute(a, b).value)
  {
    hide Pick, MergeRecords;
    var x := if a.Some? then a.value else NoRoute();
    var y := if b.Some? then b.value else NoRoute();
    var z := if c.Some? then c.value else NoRoute();
    NothingMerged();
    PickAssociates(x.verb, y.verb, z.verb);
    PickAssociates(x.surfaceKey, y.surfaceKey, z.surfaceKey);
    PickAssociates(x.path, y.path, z.path);
    RecordsAssociate(x.metadata, y.metadata, z.metadata);
  }

  lemma NothingMerged()
    ensures MergeRecords(None, None) == None && Pick(None, None) == None
    ensures MergeParams([], []) == [] && MergeArtifacts([], []) == [] && UniqueStrings([]) == []
  {
  }

  lemma InputsAssociate(a: Option<Input>, b: Option<Input>, c: Option<Input>)
    requires (a.Some? ==> TidyInput(a.value)) && (b.Some? ==> TidyInput(b.value)) && (c.Some? ==> TidyInput(c.value))
    ensures MergeInput(MergeInput(a, b), c) == MergeInput(a, MergeInput(b, c))
    ensures MergeInput(a, b).Some? ==> TidyInput(MergeInput(a, b).value)
  {
    hide Pick, MergeRecords, MergeParams, UniqueStrings, Unique, TidyParam, MergeParam;
    var x := if a.Some? then a.value else NoInput();
    var y := if b.Some? then b.value else NoInput();
    var z := if c.Some? then c.value else NoInput();
    NothingMerged();
    PickAssociates(x.mode, y.mode, z.mode);
    PickAssociates(x.command, y.command, z.command);
    ParamsAssociate(x.params, y.params, z.params);
    ListsAssociate(x.examples, y.examples, z.examples);
    RecordsAssociate(x.metadata, y.metadata, z.metadata);
    NothingBefore(NoInput().examples);
  }

  lemma OutputsAssociate(a: Option<Output>, b: Option<Output>, c: Option<Output>)
    requires (a.Some? ==> TidyOutput(a.value)) && (b.Some? ==> TidyOutput(b.value)) && (c.Some? ==> TidyOutput(c.value))
    ensures MergeOutput(MergeOutput(a, b), c) == MergeOutput(a, MergeOutput(b, c))
    ensures MergeOutput(a, b).Some? ==> TidyOutput(MergeOutput(a, b).value)
  {
    hide Pick, MergeRecords, MergeArtifacts, Unique, TidyArtifact, MergeArtifact;
    var x := if a.Some? then a.value else NoOutput();
    var y := if b.Some? then b.value else NoOutput();
    var z := if c.Some? then c.value else NoOutput();
    NothingMerged();
    PickAssociates(x.mode, y.mode, z.mode);
    PickAssociates(x.contentType, y.contentType, z.contentType);
    ArtifactsAssociate(x.artifacts, y.artifacts, z.artifacts);
    RecordsAssociate(x.metadata, y.metadata, z.metadata);
  }

  /** Merging three normalized versions of an action gives the same however they
      are grouped, and stays normalized. */
  lemma MergeActionAssociates(a: Action, b: Action, c: Action)
    requires TidyAction(a) && TidyAction(b) && TidyAction(c) && a.id == b.id == c.id
    ensures MergeAction(a, b).Some? && TidyAction(MergeAction(a, b).value) && MergeAction(a, b).value.id == a.id
    ensures MergeAction(b, c).Some?
    ensures MergeAction(MergeAction(a, b).value, c) == MergeAction(a, MergeAction(b, c).value)
  {
    hide Pick, MergeRecords, UniqueStrings, Unique, MergeRoute, MergeInput, MergeOutput, MergeDefaults, TidyRoute,
         TidyInput, TidyOutput, Tidy;
    PickAssociates(a.title, b.title, c.title);
    PickAssociates(a.description, b.description, c.description);
    RoutesAssociate(a.route, b.route, c.route);
    InputsAssociate(a.input, b.input, c.input);
    OutputsAssociate(a.output, b.output, c.output);
    DefaultsAssociate(a.defaults, b.defaults, c.defaults);
    ListsAssociate(a.capabilities, b.capabilities, c.capabilities);
    RecordsAssociate(a.metadata, b.metadata, c.metadata);
  }

  // --- Normalized contracts are tidy ---

  lemma NormalTextSaysSomething(text: Option<string>)
    ensures SaysSomething(NonEmpty(text))
  {
  }

  lemma NormalPathSaysSomething(host: Host, text: Option<string>)
    requires OptionalPath(text, host).Some?
    ensures SaysSomething(OptionalPath(text, host).value)
  {
    if NonEmpty(text).Some? {
      AbsolutePathIsNormal(NonEmpty(text).value, host.decode);
    }
  }

  lemma NormalParamIsTidy(p: Param)
    requires NormalizeParam(p) == Some(p)
    ensures TidyParam(p)
  {
    hide NonEmpty, UniqueStrings, RequiredText;
    NormalTextSaysSomething(p.kind);
    NormalTextSaysSomething(p.description);
    UniqueStringsIdempotent(p.values);
    UniqueStringsIdempotent(p.aliases);
  }

  lemma NormalInputIsTidy(i: Input)
    requires NormalizeInput(i) == Some(i)
    ensures TidyInput(i)
  {
    InputSettles(i);
    hide NonEmpty, UniqueStrings, TidyParam, NormalizeParam, Distinct, AllSaid;
    NormalTextSaysSomething(i.mode);
    NormalTextSaysSomething(i.command);
    UniqueStringsIdempotent(i.examples);
    EachIs(i.params, NormalizeParam);
    forall p | p in i.params ensures TidyParam(p) {
      NormalParamIsTidy(p);
    }
  }

  lemma NormalOutputIsTidy(o: Output)
    requires NormalizeOutput(o) == Some(o)
    ensures TidyOutput(o)
  {
    OutputSettles(o);
    hide NonEmpty, Distinct;
    NormalTextSaysSomething(o.mode);
    NormalTextSaysSomething(o.contentType);
    EachIs(o.artifacts, NormalizeArtifact);
    forall a | a in o.artifacts ensures TidyArtifact(a) {
      NormalTextSaysSomething(a.contentType);
      NormalTextSaysSomething(a.path);
      NormalTextSaysSomething(a.description);
    }
  }

  lemma NormalActionIsTidy(host: Host, a: Action)
    requires NormalizeAction(host, a) == Some(a)
    ensures TidyAction(a)
  {
    hide NonEmpty, UniqueStrings, RequiredText, Defaults, NormalizeInput, NormalizeOutput, TidyInput, TidyOutput,
         AllSaid, Distinct, OptionalPath;
    NormalTextSaysSomething(a.title);
    NormalTextSaysSomething(a.description);
    UniqueStringsIdempotent(a.capabilities);
    DefaultsSettle(a.defaults);
    if a.route.Some? {
      NormalTextSaysSomething(a.route.value.surfaceKey);
      NormalPathSaysSomething(host, a.route.value.path);
    }
    if a.input.Some? {
      NormalInputIsTidy(a.input.value);
    }
    if a.output.Some? {
      NormalOutputIsTidy(a.output.value);
    }
  }

  // --- The loops ---

  /** mergeActionParams: the Map is filled from the base, then merged into. */
  method CollectParams(base: seq<Param>, override: seq<Param>) returns (merged: seq<Param>)
    ensures merged == MergeParams(base, override)
  {
    merged := [];
    assert base[..0] == [] && override[..0] == [];
    for i := 0 to |base|
      invariant merged == UpsertAll([], base[..i], ParamKey, Newer)
    {
      assert base[..i + 1][..i] == base[..i];
      merged := Set(merged, base[i], false);
    }
    assert base[..|base|] == base;
    ghost var copied := merged;
    for i := 0 to |override|
      invariant merged == UpsertAll(copied, override[..i], ParamKey, MergeParam)
    {
      assert override[..i + 1][..i] == override[..i];
      merged := Set(merged, override[i], true);
    }
    assert override[..|override|] == override;
  }

  method Set(entries: seq<Param>, p: Param, merging: bool) returns (after: seq<Param>)
    ensures after == Upsert(entries, p, ParamKey, if merging then MergeParam else Newer)
  {
    hide MergeParam;
    ghost var keys := KeysOf(entries, ParamKey);
    assert |keys| == |entries| && forall i | 0 <= i < |keys| :: keys[i] == entries[i].key;
    for i := 0 to |entries|
      invariant p.key !in keys[..i]
    {
      assert keys[i] == entries[i].key && keys[..i + 1] == keys[..i] + [keys[i]];
      if entries[i].key == p.key {
        IndexOfIsFirst(keys, p.key, i);
        return entries[i := if merging then MergeParam(entries[i], p) else p];
      }
    }
    IndexOfIsFirst(keys, p.key, |entries|);
    return entries + [p];
  }
}
