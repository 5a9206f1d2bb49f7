/** The versions of one action over the levels of a manifest: what a merge of
    normalized versions stays, and what the merge of all of them means. */
module ManifestLayers {
  import opened Prelude
  import opened ManifestPaths
  import opened ManifestLists
  import opened Manifests
  import opened ManifestNormalization
  import opened ManifestMerge

  // --- A merge of normalized contracts is normalized ---

  /** On texts that say something a merge picks one of the two. */
  lemma PickIsOne(a: Option<string>, b: Option<string>)
    requires SaysSomething(a) && SaysSomething(b)
    ensures Pick(a, b) == Or(a, b) && (Pick(a, b) == a || Pick(a, b) == b)
  {
  }

  lemma {:induction false} MergedListStaysNormal<T(!new)>(a: seq<T>, b: seq<T>, f: T -> Option<T>, key: T -> string,
                                                          combine: (T, T) -> T)
    requires NormalizeEach(a, f, key) == Some(a) && NormalizeEach(b, f, key) == Some(b) && KeepsKey(key, combine)
    requires forall x, y | x in a && y in b && key(x) == key(y) :: f(combine(x, y)) == Some(combine(x, y))
    ensures var all := UpsertAll(UpsertAll([], a, key, Newer), b, key, combine);
            NormalizeEach(all, f, key) == Some(all)
  {
    hide Unique, UpsertAll, KeepsKey;
    NormalListIs(a, f, key);
    NormalListIs(b, f, key);
    DistinctStays(a, key, Newer);
    var all := UpsertAll(a, b, key, combine);
    UpsertAllKeys(a, b, key, combine);
    forall i | 0 <= i < |all| ensures f(all[i]) == Some(all[i]) {
      MergedEntries(a, b, key, combine, all[i]);
    }
    EachStays(all, f);
    UniqueStays(KeysOf(all, key));
  }

  lemma NormalListIs<T>(entries: seq<T>, f: T -> Option<T>, key: T -> string)
    requires NormalizeEach(entries, f, key) == Some(entries)
    ensures Distinct(KeysOf(entries, key)) && forall x | x in entries :: f(x) == Some(x)
  {
    EachIs(entries, f);
    UniqueIsDistinct(KeysOf(entries, key));
  }

  lemma MergedParamStaysNormal(a: Param, b: Param)
    requires NormalizeParam(a) == Some(a) && NormalizeParam(b) == Some(b)
    ensures NormalizeParam(MergeParam(a, b)) == Some(MergeParam(a, b))
  {
    NormalParamIsTidy(a);
    NormalParamIsTidy(b);
    hide UniqueStrings, RequiredText, NonEmpty, Tidy, MergeRecords, Pick;
    PickIsOne(a.kind, b.kind);
    PickIsOne(a.description, b.description);
    UniqueStringsIdempotent(a.values + b.values);
    UniqueStringsIdempotent(a.aliases + b.aliases);
  }

  lemma MergedArtifactStaysNormal(a: Artifact, b: Artifact)
    requires NormalizeArtifact(a) == Some(a) && NormalizeArtifact(b) == Some(b)
    ensures NormalizeArtifact(MergeArtifact(a, b)) == Some(MergeArtifact(a, b))
  {
  }

  predicate NormalInput(i: Option<Input>) { i.Some? ==> NormalizeInput(i.value) == i }

  predicate NormalOutput(o: Option<Output>) { o.Some? ==> NormalizeOutput(o.value) == o }

  predicate NormalRoute(host: Host, r: Option<Route>) { r.Some? ==> NormalizeRoute(host, r.value) == r }

  lemma MergedInputStaysNormal(a: Option<Input>, b: Option<Input>)
    requires NormalInput(a) && NormalInput(b)
    ensures NormalInput(MergeInput(a, b))
  {
    var x := if a.Some? then a.value else NoInput();
    var y := if b.Some? then b.value else NoInput();
    NothingIsNormal();
    NormalInputIsTidy(x);
    NormalInputIsTidy(y);
    hide UniqueStrings, NonEmpty, Tidy, MergeRecords, Pick, NormalizeParam, MergeParam, TidyParam, NormalizeEach;
    PickIsOne(x.mode, y.mode);
    PickIsOne(x.command, y.command);
    UniqueStringsIdempotent(x.examples + y.examples);
    MergedParamsStayNormal(x.params, y.params);
  }

  lemma MergedParamsStayNormal(a: seq<Param>, b: seq<Param>)
    requires NormalizeEach(a, NormalizeParam, ParamKey) == Some(a)
             && NormalizeEach(b, NormalizeParam, ParamKey) == Some(b)
    ensures NormalizeEach(MergeParams(a, b), NormalizeParam, ParamKey) == Some(MergeParams(a, b))
  {
    assert KeepsKey(ParamKey, MergeParam);
    NormalListIs(a, NormalizeParam, ParamKey);
    NormalListIs(b, NormalizeParam, ParamKey);
    hide MergeParam, NormalizeParam, NormalizeEach, KeepsKey;
    forall x, y | x in a && y in b ensures NormalizeParam(MergeParam(x, y)) == Some(MergeParam(x, y)) {
      MergedParamStaysNormal(x, y);
    }
    MergedListStaysNormal(a, b, NormalizeParam, ParamKey, MergeParam);
  }

  lemma MergedArtifactsStayNormal(a: seq<Artifact>, b: seq<Artifact>)
    requires NormalizeEach(a, NormalizeArtifact, ArtifactKey) == Some(a)
    requires NormalizeEach(b, NormalizeArtifact, ArtifactKey) == Some(b)
    ensures NormalizeEach(MergeArtifacts(a, b), NormalizeArtifact, ArtifactKey) == Some(MergeArtifacts(a, b))
  {
    assert KeepsKey(ArtifactKey, MergeArtifact);
    NormalListIs(a, NormalizeArtifact, ArtifactKey);
    NormalListIs(b, NormalizeArtifact, ArtifactKey);
    hide MergeArtifact, NormalizeArtifact, NormalizeEach, KeepsKey;
    forall x, y | x in a && y in b ensures NormalizeArtifact(MergeArtifact(x, y)) == Some(MergeArtifact(x, y)) {
      MergedArtifactStaysNormal(x, y);
    }
    MergedListStaysNormal(a, b, NormalizeArtifact, ArtifactKey, MergeArtifact);
  }

  lemma NothingIsNormal()
    ensures NormalizeInput(NoInput()) == Some(NoInput()) && NormalizeOutput(NoOutput()) == Some(NoOutput())
    ensures forall host :: NormalizeRoute(host, NoRoute()) == Some(NoRoute())
  {
    NothingUnique();
    NoEntries(NormalizeParam, ParamKey);
    NoEntries(NormalizeArtifact, ArtifactKey);
  }

  lemma MergedOutputStaysNormal(a: Option<Output>, b: Option<Output>)
    requires NormalOutput(a) && NormalOutput(b)
    ensures NormalOutput(MergeOutput(a, b))
  {
    var x := if a.Some? then a.value else NoOutput();
    var y := if b.Some? then b.value else NoOutput();
    NothingIsNormal();
    NormalOutputIsTidy(x);
    NormalOutputIsTidy(y);
    hide NonEmpty, MergeRecords, Pick, NormalizeArtifact, MergeArtifact, TidyArtifact, NormalizeEach;
    PickIsOne(x.mode, y.mode);
    PickIsOne(x.contentType, y.contentType);
    MergedArtifactsStayNormal(x.artifacts, y.artifacts);
  }

  lemma NormalRouteIsTidy(host: Host, r: Route)
    requires NormalizeRoute(host, r) == Some(r)
    ensures TidyRoute(r)
  {
    hide NonEmpty, OptionalPath;
    NormalTextSaysSomething(r.surfaceKey);
    NormalPathSaysSomething(host, r.path);
  }

  lemma MergedRouteStaysNormal(host: Host, a: Option<Route>, b: Option<Route>)
    requires NormalRoute(host, a) && NormalRoute(host, b)
    ensures NormalRoute(host, MergeRoute(a, b))
  {
    var x := if a.Some? then a.value else NoRoute();
    var y := if b.Some? then b.value else NoRoute();
    NothingIsNormal();
    NormalRouteIsTidy(host, x);
    NormalRouteIsTidy(host, y);
    hide NonEmpty, MergeRecords, Pick, Method, OptionalPath;
    PickIsOne(x.verb, y.verb);
    PickIsOne(x.surfaceKey, y.surfaceKey);
    PickIsOne(x.path, y.path);
  }

  lemma MergedDefaultsStayNormal(a: seq<Default>, b: seq<Default>)
    requires Defaults(a) == a && Defaults(b) == b
    ensures Defaults(MergeDefaults(a, b)) == MergeDefaults(a, b)
  {
    DefaultsSettle(a);
    DefaultsSettle(b);
    hide Unique, UpsertAll, SaidDefaults, Defaults, AllSaid;
    assert KeepsKey(DefaultKey, Newer);
    DistinctStays(a, DefaultKey, Newer);
    var all := UpsertAll(a, b, DefaultKey, Newer);
    UpsertAllKeys(a, b, DefaultKey, Newer);
    UnionIsSaid(KeysOf(a, DefaultKey), KeysOf(b, DefaultKey));
    SettledDefaultsStay(all);
  }

  lemma UnionIsSaid(a: seq<string>, b: seq<string>)
    requires AllSaid(a) && AllSaid(b)
    ensures AllSaid(Unique(a + b))
  {
    hide Unique;
    UniqueIsDistinct(a + b);
  }

  lemma SettledDefaultsStay(entries: seq<Default>)
    requires AllSaid(KeysOf(entries, DefaultKey)) && Distinct(KeysOf(entries, DefaultKey))
    ensures Defaults(entries) == entries
  {
    SaidDefaultsStay(entries);
    DistinctStays(entries, DefaultKey, Newer);
  }

  /** What it takes for an action to be normalized, part by part. */
  predicate NormalParts(host: Host, a: Action) {
    && RequiredText(a.id) == Some(a.id) && NonEmpty(a.title) == a.title && NonEmpty(a.description) == a.description
    && NormalRoute(host, a.route) && NormalInput(a.input) && NormalOutput(a.output)
    && Defaults(a.defaults) == a.defaults && UniqueStrings(a.capabilities) == a.capabilities
  }

  lemma NormalByParts(host: Host, a: Action)
    ensures NormalizeAction(host, a) == Some(a) <==> NormalParts(host, a)
  {
    hide UniqueStrings, RequiredText, NonEmpty, NormalizeInput, NormalizeOutput, NormalizeRoute, Defaults;
  }

  /** Merging two normalized versions of an action leaves nothing to normalize. */
  lemma MergeStaysNormal(host: Host, a: Action, b: Action)
    requires NormalizeAction(host, a) == Some(a) && NormalizeAction(host, b) == Some(b) && a.id == b.id
    ensures MergeAction(a, b).Some? && NormalizeAction(host, MergeAction(a, b).value) == MergeAction(a, b)
  {
    NormalActionIsTidy(host, a);
    NormalActionIsTidy(host, b);
    NormalByParts(host, a);
    NormalByParts(host, b);
    hide UniqueStrings, RequiredText, NonEmpty, Tidy, MergeRecords, Pick, NormalizeAction, NormalInput, NormalOutput,
         NormalRoute, MergeInput, MergeOutput, MergeRoute, MergeDefaults, Defaults, TidyInput, TidyOutput, TidyRoute;
    PickIsOne(a.title, b.title);
    PickIsOne(a.description, b.description);
    MergedRouteStaysNormal(host, a.route, b.route);
    MergedInputStaysNormal(a.input, b.input);
    MergedOutputStaysNormal(a.output, b.output);
    MergedDefaultsStayNormal(a.defaults, b.defaults);
    UniqueStringsIdempotent(a.capabilities + b.capabilities);
    NormalByParts(host, MergeAction(a, b).value);
  }

  // --- What the levels amount to ---

  /** One field of every level. */
  function Column<A, B>(rows: seq<A>, field: A -> B): seq<B> {
    seq(|rows|, i requires 0 <= i < |rows| => field(rows[i]))
  }

  /** The last of the values that is defined. */
  function LastDefined<T>(values: seq<Option<T>>): Option<T> {
    if values == [] then None
    else if values[|values| - 1].Some? then values[|values| - 1] else LastDefined(values[..|values| - 1])
  }

  /** The parts of the levels that have one. */
  function Present<T>(parts: seq<Option<T>>): seq<T> {
    if parts == [] then []
    else
      var last := parts[|parts| - 1];
      Present(parts[..|parts| - 1]) + if last.Some? then [last.value] else []
  }

  /** What the levels hold under a key, combined from the least specific on. */
  function Under<T>(lists: seq<seq<T>>, key: T -> string, combine: (T, T) -> T, k: string): Option<T> {
    if lists == [] then None
    else Combined(Under(lists[..|lists| - 1], key, combine, k), Get(lists[|lists| - 1], key, k), combine)
  }

  function EntryAt(record: Option<Metadata>, k: string): Option<Json> {
    if record.Some? && k in record.value then Some(record.value[k]) else None
  }

  /** The value of the last level whose record defines the key. */
  function EntryUnder(records: seq<Option<Metadata>>, k: string): Option<Json> {
    if records == [] then None
    else
      var last := EntryAt(records[|records| - 1], k);
      if last.Some? then last else EntryUnder(records[..|records| - 1], k)
  }

  ghost predicate RecordOver(merged: Option<Metadata>, records: seq<Option<Metadata>>) {
    forall k :: EntryAt(merged, k) == EntryUnder(records, k)
  }

  /** Keys in the order in which they first appear, each with what the levels
      hold under it. */
  ghost predicate KeyedOver<T>(merged: seq<T>, lists: seq<seq<T>>, key: T -> string, combine: (T, T) -> T) {
    && KeysOf(merged, key) == Unique(KeysOf(Flatten(lists), key))
    && forall k :: Get(merged, key, k) == Under(lists, key, combine, k)
  }

  ghost predicate RouteOver(m: Route, routes: seq<Route>) {
    && m.verb == LastDefined(Column(routes, (r: Route) => r.verb))
    && m.surfaceKey == LastDefined(Column(routes, (r: Route) => r.surfaceKey))
    && m.path == LastDefined(Column(routes, (r: Route) => r.path))
    && RecordOver(m.metadata, Column(routes, (r: Route) => r.metadata))
  }

  ghost predicate InputOver(m: Input, inputs: seq<Input>) {
    && m.mode == LastDefined(Column(inputs, (i: Input) => i.mode))
    && m.command == LastDefined(Column(inputs, (i: Input) => i.command))
    && KeyedOver(m.params, Column(inputs, (i: Input) => i.params), ParamKey, MergeParam)
    && m.schema == LastDefined(Column(inputs, (i: Input) => i.schema))
    && m.examples == Unique(Flatten(Column(inputs, (i: Input) => i.examples)))
    && RecordOver(m.metadata, Column(inputs, (i: Input) => i.metadata))
  }

  ghost predicate OutputOver(m: Output, outputs: seq<Output>) {
    && m.mode == LastDefined(Column(outputs, (o: Output) => o.mode))
    && m.contentType == LastDefined(Column(outputs, (o: Output) => o.contentType))
    && m.schema == LastDefined(Column(outputs, (o: Output) => o.schema))
    && KeyedOver(m.artifacts, Column(outputs, (o: Output) => o.artifacts), ArtifactKey, MergeArtifact)
    && RecordOver(m.metadata, Column(outputs, (o: Output) => o.metadata))
  }

  /** The action's own fields. */
  ghost predicate FieldsOver(m: Action, versions: seq<Action>) {
    && m.title == LastDefined(Column(versions, (a: Action) => a.title))
    && m.description == LastDefined(Column(versions, (a: Action) => a.description))
    && m.enabled == LastDefined(Column(versions, (a: Action) => a.enabled))
    && KeyedOver(m.defaults, Column(versions, (a: Action) => a.defaults), DefaultKey, Newer)
    && m.capabilities == Unique(Flatten(Column(versions, (a: Action) => a.capabilities)))
    && RecordOver(m.metadata, Column(versions, (a: Action) => a.metadata))
  }

  function RoutesOf(versions: seq<Action>): seq<Route> { Present(Column(versions, (a: Action) => a.route)) }

  function InputsOf(versions: seq<Action>): seq<Input> { Present(Column(versions, (a: Action) => a.input)) }

  function OutputsOf(versions: seq<Action>): seq<Output> { Present(Column(versions, (a: Action) => a.output)) }

  ghost predicate PartsOver(m: Action, versions: seq<Action>) {
    && (m.route.Some? <==> RoutesOf(versions) != []) && (m.route.Some? ==> RouteOver(m.route.value, RoutesOf(versions)))
    && (m.input.Some? <==> InputsOf(versions) != []) && (m.input.Some? ==> InputOver(m.input.value, InputsOf(versions)))
    && (m.output.Some? <==> OutputsOf(versions) != []) && (m.output.Some? ==>
                                                           OutputOver(m.output.value, OutputsOf(versions)))
  }

  /** The contract is what the levels say, the most specific last: every scalar
      that of the last level that defines it, every list the ordered union, every
      entry under a key the combination of the levels that have the key. */
  ghost predicate ActionOver(m: Action, versions: seq<Action>) { FieldsOver(m, versions) && PartsOver(m, versions) }

  // --- One more level ---

  lemma ColumnSnoc<A, B>(rows: seq<A>, row: A, field: A -> B)
    ensures Column(rows + [row], field) == Column(rows, field) + [field(row)]
  {
  }

  lemma LastDefinedSnoc<T>(values: seq<Option<T>>, x: Option<T>)
    ensures LastDefined(values + [x]) == Or(LastDefined(values), x)
  {
    assert (values + [x])[..|values|] == values;
  }

  lemma PresentSnoc<T>(parts: seq<Option<T>>, x: Option<T>)
    ensures Present(parts + [x]) == Present(parts) + if x.Some? then [x.value] else []
  {
    assert (parts + [x])[..|parts|] == parts;
  }

  lemma UnderSnoc<T>(lists: seq<seq<T>>, list: seq<T>, key: T -> string, combine: (T, T) -> T, k: string)
    ensures Under(lists + [list], key, combine, k) == Combined(Under(lists, key, combine, k), Get(list, key, k),
                                                               combine)
  {
    assert (lists + [list])[..|lists|] == lists;
  }

  lemma EntryUnderSnoc(records: seq<Option<Metadata>>, x: Option<Metadata>, k: string)
    ensures EntryUnder(records + [x], k) == Or(EntryUnder(records, k), EntryAt(x, k))
  {
    assert (records + [x])[..|records|] == records;
  }

  /** A scalar of the next level. */
  lemma ScalarJoins<A, T>(rows: seq<A>, row: A, field: A -> Option<T>)
    ensures LastDefined(Column(rows + [row], field)) == Or(LastDefined(Column(rows, field)), field(row))
  {
    ColumnSnoc(rows, row, field);
    LastDefinedSnoc(Column(rows, field), field(row));
  }

  /** A text of the next level. */
  lemma TextJoins<A>(m: Option<string>, rows: seq<A>, row: A, field: A -> Option<string>)
    requires m == LastDefined(Column(rows, field)) && SaysSomething(m) && SaysSomething(field(row))
    ensures Pick(m, field(row)) == LastDefined(Column(rows + [row], field))
  {
    ScalarJoins(rows, row, field);
    PickIsOne(m, field(row));
  }

  lemma EntryOfMerge(a: Option<Metadata>, b: Option<Metadata>, k: string)
    ensures EntryAt(MergeRecords(a, b), k) == Or(EntryAt(a, k), EntryAt(b, k))
  {
    RecordsAssociate(a, b, None);
  }

  lemma RecordOneMore(m: Option<Metadata>, records: seq<Option<Metadata>>, x: Option<Metadata>)
    requires RecordOver(m, records)
    ensures RecordOver(MergeRecords(m, x), records + [x])
  {
    hide EntryUnder, EntryAt, MergeRecords;
    forall k ensures EntryAt(MergeRecords(m, x), k) == EntryUnder(records + [x], k) {
      EntryOfMerge(m, x, k);
      EntryUnderSnoc(records, x, k);
    }
  }

  lemma RecordJoins<A>(m: Option<Metadata>, rows: seq<A>, row: A, field: A -> Option<Metadata>)
    requires RecordOver(m, Column(rows, field))
    ensures RecordOver(MergeRecords(m, field(row)), Column(rows + [row], field))
  {
    ColumnSnoc(rows, row, field);
    RecordOneMore(m, Column(rows, field), field(row));
  }

  lemma ListJoins<A>(m: seq<string>, rows: seq<A>, row: A, field: A -> seq<string>)
    requires m == Unique(Flatten(Column(rows, field))) && Tidy(m) && Tidy(field(row))
    ensures UniqueStrings(m + field(row)) == Unique(Flatten(Column(rows + [row], field)))
  {
    hide Unique, UniqueStrings;
    ColumnSnoc(rows, row, field);
    FlattenSnoc(Column(rows, field), field(row));
    UniqueLeft(Flatten(Column(rows, field)), field(row));
    ListsAssociate(m, field(row), field(row));
  }

  lemma KeyedJoins<A, T(!new)>(m: seq<T>, rows: seq<A>, row: A, field: A -> seq<T>, key: T -> string,
                               combine: (T, T) -> T)
    requires KeyedOver(m, Column(rows, field), key, combine) && KeepsKey(key, combine)
    requires Distinct(KeysOf(m, key)) && Distinct(KeysOf(field(row), key))
    ensures KeyedOver(UpsertAll(UpsertAll([], m, key, Newer), field(row), key, combine), Column(rows + [row], field),
                      key, combine)
  {
    hide Unique, Get, UpsertAll, Under;
    var lists, list := Column(rows, field), field(row);
    ColumnSnoc(rows, row, field);
    DistinctStays(m, key, Newer);
    UpsertAllKeys(m, list, key, combine);
    UpsertAllMeans(m, list, key, combine);
    FlattenSnoc(lists, list);
    KeysOfSum(Flatten(lists), list, key);
    UniqueLeft(KeysOf(Flatten(lists), key), KeysOf(list, key));
    forall k ensures Get(UpsertAll(m, list, key, combine), key, k) == Under(lists + [list], key, combine, k) {
      UnderSnoc(lists, list, key, combine, k);
    }
  }

  lemma RouteJoins(m: Route, routes: seq<Route>, r: Route)
    requires RouteOver(m, routes) && TidyRoute(m) && TidyRoute(r)
    ensures RouteOver(MergeRoute(Some(m), Some(r)).value, routes + [r])
  {
    hide LastDefined, Column, RecordOver, Pick, MergeRecords;
    TextJoins(m.verb, routes, r, (r: Route) => r.verb);
    TextJoins(m.surfaceKey, routes, r, (r: Route) => r.surfaceKey);
    TextJoins(m.path, routes, r, (r: Route) => r.path);
    RecordJoins(m.metadata, routes, r, (r: Route) => r.metadata);
  }

  lemma InputJoins(m: Input, inputs: seq<Input>, i: Input)
    requires InputOver(m, inputs) && TidyInput(m) && TidyInput(i)
    ensures InputOver(MergeInput(Some(m), Some(i)).value, inputs + [i])
  {
    assert KeepsKey(ParamKey, MergeParam);
    hide LastDefined, Column, RecordOver, KeyedOver, KeepsKey, Pick, MergeRecords, UpsertAll, UniqueStrings, Unique,
         Tidy, TidyParam, MergeParam;
    TextJoins(m.mode, inputs, i, (i: Input) => i.mode);
    TextJoins(m.command, inputs, i, (i: Input) => i.command);
    KeyedJoins(m.params, inputs, i, (i: Input) => i.params, ParamKey, MergeParam);
    ScalarJoins(inputs, i, (i: Input) => i.schema);
    ListJoins(m.examples, inputs, i, (i: Input) => i.examples);
    RecordJoins(m.metadata, inputs, i, (i: Input) => i.metadata);
  }

  lemma OutputJoins(m: Output, outputs: seq<Output>, o: Output)
    requires OutputOver(m, outputs) && TidyOutput(m) && TidyOutput(o)
    ensures OutputOver(MergeOutput(Some(m), Some(o)).value, outputs + [o])
  {
    assert KeepsKey(ArtifactKey, MergeArtifact);
    hide LastDefined, Column, RecordOver, KeyedOver, KeepsKey, Pick, MergeRecords, UpsertAll, TidyArtifact,
         MergeArtifact;
    TextJoins(m.mode, outputs, o, (o: Output) => o.mode);
    TextJoins(m.contentType, outputs, o, (o: Output) => o.contentType);
    ScalarJoins(outputs, o, (o: Output) => o.schema);
    KeyedJoins(m.artifacts, outputs, o, (o: Output) => o.artifacts, ArtifactKey, MergeArtifact);
    RecordJoins(m.metadata, outputs, o, (o: Output) => o.metadata);
  }

  lemma FieldsJoin(m: Action, versions: seq<Action>, a: Action)
    requires FieldsOver(m, versions) && TidyAction(m) && TidyAction(a) && m.id == a.id
    ensures FieldsOver(MergeAction(m, a).value, versions + [a])
  {
    assert KeepsKey(DefaultKey, Newer<Default>);
    hide LastDefined, Column, RecordOver, KeyedOver, KeepsKey, Pick, MergeRecords, UpsertAll, UniqueStrings, Unique,
         Tidy, MergeRoute, MergeInput, MergeOutput, TidyRoute, TidyInput, TidyOutput;
    TextJoins(m.title, versions, a, (a: Action) => a.title);
    TextJoins(m.description, versions, a, (a: Action) => a.description);
    ScalarJoins(versions, a, (a: Action) => a.enabled);
    KeyedJoins(m.defaults, versions, a, (a: Action) => a.defaults, DefaultKey, Newer);
    ListJoins(m.capabilities, versions, a, (a: Action) => a.capabilities);
    RecordJoins(m.metadata, versions, a, (a: Action) => a.metadata);
  }

  // --- Levels without a part ---

  /** Nothing at all, and over no level. */
  lemma NothingOverNothing()
    ensures RouteOver(NoRoute(), []) && InputOver(NoInput(), []) && OutputOver(NoOutput(), [])
    ensures TidyRoute(NoRoute()) && TidyInput(NoInput()) && TidyOutput(NoOutput())
  {
    NothingUnique();
  }

  lemma EntriesStay(m: Option<Metadata>, k: string)
    ensures EntryAt(MergeRecords(m, None), k) == EntryAt(m, k) && EntryAt(MergeRecords(None, m), k) == EntryAt(m, k)
  {
    EntryOfMerge(m, None, k);
    EntryOfMerge(None, m, k);
  }

  lemma RecordsStay(m: Option<Metadata>, records: seq<Option<Metadata>>)
    ensures RecordOver(MergeRecords(m, None), records) <==> RecordOver(m, records)
    ensures RecordOver(MergeRecords(None, m), records) <==> RecordOver(m, records)
  {
    hide EntryUnder, EntryAt, MergeRecords;
    forall k ensures EntryAt(MergeRecords(m, None), k) == EntryAt(m, k)
        && EntryAt(MergeRecords(None, m), k) == EntryAt(m, k) {
      EntriesStay(m, k);
    }
  }

  lemma TextsStay(text: Option<string>)
    requires SaysSomething(text)
    ensures Pick(text, None) == text && Pick(None, text) == text
  {
  }

  lemma TidyListStays(values: seq<string>)
    requires Tidy(values)
    ensures UniqueStrings(values + []) == values && UniqueStrings([] + values) == values
  {
    assert values + [] == values && [] + values == values;
    SaidStays(values);
    UniqueStays(values);
  }

  lemma KeyedListStays<T(!new)>(entries: seq<T>, key: T -> string, combine: (T, T) -> T)
    requires Distinct(KeysOf(entries, key))
    ensures UpsertAll(UpsertAll([], entries, key, Newer), [], key, combine) == entries
    ensures UpsertAll(UpsertAll([], [], key, Newer), entries, key, combine) == entries
  {
    DistinctStays(entries, key, Newer);
    DistinctStays(entries, key, combine);
  }

  lemma RouteStays(r: Route, routes: seq<Route>)
    requires TidyRoute(r)
    ensures RouteOver(MergeRoute(Some(r), None).value, routes) <==> RouteOver(r, routes)
    ensures RouteOver(MergeRoute(None, Some(r)).value, routes) <==> RouteOver(r, routes)
  {
    hide Pick, MergeRecords, LastDefined, Column, RecordOver;
    TextsStay(r.verb);
    TextsStay(r.surfaceKey);
    TextsStay(r.path);
    RecordsStay(r.metadata, Column(routes, (r: Route) => r.metadata));
  }

  lemma InputStays(i: Input, inputs: seq<Input>)
    requires TidyInput(i)
    ensures InputOver(MergeInput(Some(i), None).value, inputs) <==> InputOver(i, inputs)
    ensures InputOver(MergeInput(None, Some(i)).value, inputs) <==> InputOver(i, inputs)
  {
    hide Pick, MergeRecords, LastDefined, Column, RecordOver, KeyedOver, UpsertAll, UniqueStrings, Unique, Tidy,
         TidyParam, MergeParam;
    TextsStay(i.mode);
    TextsStay(i.command);
    KeyedListStays(i.params, ParamKey, MergeParam);
    TidyListStays(i.examples);
    RecordsStay(i.metadata, Column(inputs, (i: Input) => i.metadata));
  }

  lemma OutputStays(o: Output, outputs: seq<Output>)
    requires TidyOutput(o)
    ensures OutputOver(MergeOutput(Some(o), None).value, outputs) <==> OutputOver(o, outputs)
    ensures OutputOver(MergeOutput(None, Some(o)).value, outputs) <==> OutputOver(o, outputs)
  {
    hide Pick, MergeRecords, LastDefined, Column, RecordOver, KeyedOver, UpsertAll, TidyArtifact, MergeArtifact;
    TextsStay(o.mode);
    TextsStay(o.contentType);
    KeyedListStays(o.artifacts, ArtifactKey, MergeArtifact);
    RecordsStay(o.metadata, Column(outputs, (o: Output) => o.metadata));
  }

  /** The route of one more version, if it has one. */
  lemma RoutePartJoins(m: Option<Route>, routes: seq<Route>, r: Option<Route>)
    requires (m.Some? <==> routes != []) && (m.Some? ==> RouteOver(m.value, routes) && TidyRoute(m.value))
    requires r.Some? ==> TidyRoute(r.value)
    ensures var m', routes' := MergeRoute(m, r), routes + if r.Some? then [r.value] else [];
            (m'.Some? <==> routes' != []) && (m'.Some? ==> RouteOver(m'.value, routes'))
  {
    NothingOverNothing();
    hide RouteOver, TidyRoute, Pick, MergeRecords;
    if r.Some? {
      RouteJoins(if m.Some? then m.value else NoRoute(), routes, r.value);
    } else if m.Some? {
      RouteStays(m.value, routes);
      assert routes + [] == routes;
    }
  }

  lemma InputPartJoins(m: Option<Input>, inputs: seq<Input>, i: Option<Input>)
    requires (m.Some? <==> inputs != []) && (m.Some? ==> InputOver(m.value, inputs) && TidyInput(m.value))
    requires i.Some? ==> TidyInput(i.value)
    ensures var m', inputs' := MergeInput(m, i), inputs + if i.Some? then [i.value] else [];
            (m'.Some? <==> inputs' != []) && (m'.Some? ==> InputOver(m'.value, inputs'))
  {
    NothingOverNothing();
    hide InputOver, TidyInput, Pick, MergeRecords, MergeParams, UniqueStrings;
    if i.Some? {
      InputJoins(if m.Some? then m.value else NoInput(), inputs, i.value);
    } else if m.Some? {
      InputStays(m.value, inputs);
      assert inputs + [] == inputs;
    }
  }

  lemma OutputPartJoins(m: Option<Output>, outputs: seq<Output>, o: Option<Output>)
    requires (m.Some? <==> outputs != []) && (m.Some? ==> OutputOver(m.value, outputs) && TidyOutput(m.value))
    requires o.Some? ==> TidyOutput(o.value)
    ensures var m', outputs' := MergeOutput(m, o), outputs + if o.Some? then [o.value] else [];
            (m'.Some? <==> outputs' != []) && (m'.Some? ==> OutputOver(m'.value, outputs'))
  {
    NothingOverNothing();
    hide OutputOver, TidyOutput, Pick, MergeRecords, MergeArtifacts;
    if o.Some? {
      OutputJoins(if m.Some? then m.value else NoOutput(), outputs, o.value);
    } else if m.Some? {
      OutputStays(m.value, outputs);
      assert outputs + [] == outputs;
    }
  }

  lemma PartsSnoc(versions: seq<Action>, a: Action)
    ensures RoutesOf(versions + [a]) == RoutesOf(versions) + if a.route.Some? then [a.route.value] else []
    ensures InputsOf(versions + [a]) == InputsOf(versions) + if a.input.Some? then [a.input.value] else []
    ensures OutputsOf(versions + [a]) == OutputsOf(versions) + if a.output.Some? then [a.output.value] else []
  {
    hide Present, Column;
    ColumnSnoc(versions, a, (a: Action) => a.route);
    ColumnSnoc(versions, a, (a: Action) => a.input);
    ColumnSnoc(versions, a, (a: Action) => a.output);
    PresentSnoc(Column(versions, (a: Action) => a.route), a.route);
    PresentSnoc(Column(versions, (a: Action) => a.input), a.input);
    PresentSnoc(Column(versions, (a: Action) => a.output), a.output);
  }

  lemma PartsJoin(m: Action, versions: seq<Action>, a: Action)
    requires PartsOver(m, versions) && TidyAction(m) && TidyAction(a) && m.id == a.id
    ensures PartsOver(MergeAction(m, a).value, versions + [a])
  {
    hide RouteOver, InputOver, OutputOver, TidyRoute, TidyInput, TidyOutput, Tidy, RoutesOf, InputsOf, OutputsOf,
         MergeRoute, MergeInput, MergeOutput, Pick, MergeDefaults, UniqueStrings, MergeRecords;
    PartsSnoc(versions, a);
    RoutePartJoins(m.route, RoutesOf(versions), a.route);
    InputPartJoins(m.input, InputsOf(versions), a.input);
    OutputPartJoins(m.output, OutputsOf(versions), a.output);
  }

  // --- The first level ---

  function NoAction(id: string): Action { Action(id, None, None, None, None, None, None, [], [], None) }

  lemma NoActionOverNothing(id: string)
    ensures ActionOver(NoAction(id), []) && TidyAction(NoAction(id))
  {
    NothingUnique();
  }

  /** A version merged into nothing differs from itself in empty records at most. */
  lemma FirstFields(a: Action)
    requires TidyAction(a) && FieldsOver(MergeAction(NoAction(a.id), a).value, [a])
    ensures FieldsOver(a, [a])
  {
    hide Pick, MergeRecords, LastDefined, Column, RecordOver, KeyedOver, UpsertAll, UniqueStrings, Unique, Tidy,
         MergeRoute, MergeInput, MergeOutput, TidyRoute, TidyInput, TidyOutput;
    TextsStay(a.title);
    TextsStay(a.description);
    KeyedListStays(a.defaults, DefaultKey, Newer);
    TidyListStays(a.capabilities);
    RecordsStay(a.metadata, Column([a], (a: Action) => a.metadata));
  }

  lemma FirstParts(a: Action)
    requires TidyAction(a) && PartsOver(MergeAction(NoAction(a.id), a).value, [a])
    ensures PartsOver(a, [a])
  {
    hide RouteOver, InputOver, OutputOver, TidyRoute, TidyInput, TidyOutput, Tidy, RoutesOf, InputsOf, OutputsOf, Pick,
         MergeParams, MergeArtifacts, MergeDefaults, UniqueStrings, MergeRecords;
    if a.route.Some? {
      RouteStays(a.route.value, RoutesOf([a]));
    }
    if a.input.Some? {
      InputStays(a.input.value, InputsOf([a]));
    }
    if a.output.Some? {
      OutputStays(a.output.value, OutputsOf([a]));
    }
  }

  lemma OneVersion(a: Action)
    requires TidyAction(a)
    ensures ActionOver(a, [a])
  {
    hide FieldsOver, PartsOver, MergeAction, TidyAction;
    NoActionOverNothing(a.id);
    FieldsJoin(NoAction(a.id), [], a);
    PartsJoin(NoAction(a.id), [], a);
    NothingBefore([a]);
    FirstFields(a);
    FirstParts(a);
  }

  // --- All levels ---

  /** The versions found, least specific first, folded from the left. */
  function MergeAll(versions: seq<Action>): Option<Action>
    requires versions != []
  {
    if |versions| == 1 then Some(versions[0])
    else
      var before := MergeAll(versions[..|versions| - 1]);
      if before.None? then None else MergeAction(before.value, versions[|versions| - 1])
  }

  predicate Versions(host: Host, versions: seq<Action>, id: string) {
    forall i | 0 <= i < |versions| :: NormalizeAction(host, versions[i]) == Some(versions[i]) && versions[i].id == id
  }

  /** A merge leaves no record without entries. */
  predicate RecordsSay(a: Action) {
    && a.metadata != Some(map[]) && (a.route.Some? ==> a.route.value.metadata != Some(map[]))
    && (a.input.Some? ==> a.input.value.metadata != Some(map[]))
        && (a.output.Some? ==> a.output.value.metadata != Some(map[]))
  }

  lemma MergedRecordsSay(a: Action, b: Action)
    requires a.id == b.id
    ensures RecordsSay(MergeAction(a, b).value) && MergeAction(a, b).value.id == a.id
  {
    hide Pick, UniqueStrings, UpsertAll;
  }

  /** Over the levels the most specific reading wins, field by field, and the
      merged contract is normalized; a single version is left as it is. */
  lemma {:induction false} MostSpecificWins(host: Host, versions: seq<Action>, id: string)
    requires versions != [] && Versions(host, versions, id)
    ensures MergeAll(versions).Some?
    ensures var merged := MergeAll(versions).value;
            && merged.id == id && NormalizeAction(host, merged) == Some(merged) && ActionOver(merged, versions)
            && if |versions| == 1 then merged == versions[0] else RecordsSay(merged)
  {
    hide NormalizeAction, MergeAction, TidyAction, FieldsOver, PartsOver, RecordsSay;
    var n := |versions| - 1;
    var init, last := versions[..n], versions[n];
    assert versions == init + [last];
    NormalActionIsTidy(host, last);
    if n == 0 {
      OneVersion(last);
      assert versions == [last];
    } else {
      MostSpecificWins(host, init, id);
      var before := MergeAll(init).value;
      NormalActionIsTidy(host, before);
      MergeStaysNormal(host, before, last);
      FieldsJoin(before, init, last);
      PartsJoin(before, init, last);
      MergedRecordsSay(before, last);
    }
  }
}
