/** Team manifests, and their normalization. */
module Manifests {
  import opened Prelude
  import opened Text
  import opened ManifestPaths
  import opened ManifestLists

  /** A JSON value, by its text. */
  datatype Json = Json(text: string)

  type Metadata = map<string, Json>

  // Absent lists are read as empty ones, and an absent required text as "".

  datatype Param = Param(key: string, kind: Option<string>, required: Option<bool>, initial: Option<Json>,
                         values: seq<string>, aliases: seq<string>, description: Option<string>,
                         metadata: Option<Metadata>)

  datatype Input = Input(mode: Option<string>, command: Option<string>, params: seq<Param>, schema: Option<Metadata>,
                         examples: seq<string>, metadata: Option<Metadata>)

  datatype Artifact = Artifact(key: string, contentType: Option<string>, path: Option<string>,
                               description: Option<string>, metadata: Option<Metadata>)

  datatype Output = Output(mode: Option<string>, contentType: Option<string>, schema: Option<Metadata>,
                           artifacts: seq<Artifact>, metadata: Option<Metadata>)

  datatype Route = Route(verb: Option<string>, surfaceKey: Option<string>, path: Option<string>,
                         metadata: Option<Metadata>)

  /** One entry of a defaults record, in its enumeration order. */
  datatype Default = Default(key: string, value: Json)

  datatype Action = Action(id: string, title: Option<string>, description: Option<string>, enabled: Option<bool>,
                           route: Option<Route>, input: Option<Input>, output: Option<Output>, defaults: seq<Default>,
                           capabilities: seq<string>, metadata: Option<Metadata>)

  datatype Identity = Identity(name: Option<string>, displayName: Option<string>, slug: Option<string>,
                               code: Option<string>, aliases: seq<string>, metadata: Option<Metadata>)

  datatype WorkspacePath = PlainPath(text: string) | KeyedPath(key: string, path: Option<string>)

  datatype Workspace = Workspace(rootPath: string, paths: seq<WorkspacePath>)

  datatype Member = Member(id: string, identity: Option<Identity>, workspace: Option<Workspace>, actions: seq<Action>,
                           capabilities: seq<string>, metadata: Option<Metadata>)

  datatype TeamRoute = TeamRoute(key: string, path: Option<string>)

  datatype Team = Team(id: string, identity: Option<Identity>, members: seq<Member>, workspace: Option<Workspace>,
                       actions: seq<Action>, capabilities: seq<string>, routes: seq<TeamRoute>,
                       metadata: Option<Metadata>)

  datatype Binding = Binding(id: string, teamId: string, memberId: Option<string>, source: Option<string>,
                             channel: Option<string>, actionId: Option<string>, routeKey: Option<string>,
                             sessionKeyPattern: Option<string>, metadata: Option<Metadata>)

  datatype Manifest = Manifest(actions: seq<Action>, bindings: seq<Binding>, teams: seq<Team>)

  /** What the host language brings: decodeURIComponent, with the segment itself
      where that throws, and toUpperCase. */
  datatype Host = Host(decode: string -> string, upper: string -> string)

  const METHODS: seq<string> := ["DELETE", "GET", "PATCH", "POST", "PUT"]
  const PARAM_TYPES: seq<string> := ["boolean", "enum", "file", "json", "number", "string"]
  const INPUT_MODES: seq<string> := ["command", "json", "text"]
  const OUTPUT_MODES: seq<string> := ["artifact", "json", "markdown", "text"]

  /** Upper-casing leaves what is in upper case. */
  ghost predicate Lawful(host: Host) {
    forall m | m in METHODS :: host.upper(m) == m
  }

  // --- Scalars ---

  function RequiredText(text: string): Option<string> { NonEmpty(Some(text)) }

  /** A text out of a fixed choice; the outer None is the thrown error. */
  function OneOf(text: Option<string>, choices: seq<string>): Option<Option<string>> {
    var chosen := NonEmpty(text);
    if chosen.None? || chosen.value in choices then Some(chosen) else None
  }

  function Method(text: Option<string>, host: Host): Option<Option<string>> {
    var chosen := NonEmpty(text);
    if chosen.None? || host.upper(chosen.value) == "" then Some(None)
    else if host.upper(chosen.value) in METHODS then Some(Some(host.upper(chosen.value)))
    else None
  }

  /** A path that may be absent; the outer None is the thrown error. */
  function OptionalPath(text: Option<string>, host: Host): Option<Option<string>> {
    var path := NonEmpty(text);
    if path.None? then Some(None)
    else
      var absolute := AbsolutePath(path.value, host.decode);
      if absolute.None? then None else Some(absolute)
  }

  lemma OneOfSettles(text: Option<string>, choices: seq<string>)
    requires OneOf(text, choices).Some?
    ensures OneOf(OneOf(text, choices).value, choices) == OneOf(text, choices)
  {
    NonEmptyIdempotent(text);
  }

  lemma MethodSettles(text: Option<string>, host: Host)
    requires Lawful(host) && Method(text, host).Some?
    ensures Method(Method(text, host).value, host) == Method(text, host)
  {
    var chosen := Method(text, host).value;
    if chosen.Some? {
      MethodNamesAreTrimmed();
      TrimmedStays(chosen.value);
    }
  }

  lemma MethodNamesAreTrimmed()
    ensures forall m | m in METHODS :: m != "" && Trimmed(m)
  {
  }

  lemma OptionalPathSettles(text: Option<string>, host: Host)
    requires OptionalPath(text, host).Some?
    ensures OptionalPath(OptionalPath(text, host).value, host) == OptionalPath(text, host)
  {
    NonEmptyIdempotent(text);
    if NonEmpty(text).Some? {
      AbsolutePathIsNormal(NonEmpty(text).value, host.decode);
      TrimmedStays(AbsolutePath(NonEmpty(text).value, host.decode).value);
    }
  }

  lemma RequiredTextSettles(text: string)
    requires RequiredText(text).Some?
    ensures RequiredText(RequiredText(text).value) == RequiredText(text)
  {
    NonEmptyIdempotent(Some(text));
  }

  // --- Defaults ---

  function DefaultKey(d: Default): string { d.key }

  function SaidDefaults(entries: seq<Default>): seq<Default> {
    if entries == [] then []
    else
      var before, last := SaidDefaults(entries[..|entries| - 1]), entries[|entries| - 1];
      var key := NonEmpty(Some(last.key));
      if key.None? then before else before + [Default(key.value, last.value)]
  }

  /** normalizeActionDefaults: a later value under the same trimmed key wins; a
      record without entries is the same as none. */
  function Defaults(entries: seq<Default>): seq<Default> {
    UpsertAll([], SaidDefaults(entries), DefaultKey, Newer)
  }

  lemma {:induction false} SaidDefaultsAreSaid(entries: seq<Default>)
    ensures AllSaid(KeysOf(SaidDefaults(entries), DefaultKey))
  {
    if entries != [] {
      var last := entries[|entries| - 1];
      var before := SaidDefaults(entries[..|entries| - 1]);
      hide KeysOf, NonEmpty, AllSaid, Trimmed;
      SaidDefaultsAreSaid(entries[..|entries| - 1]);
      NonEmptyIdempotent(Some(last.key));
      if NonEmpty(Some(last.key)).Some? {
        var said := Default(NonEmpty(Some(last.key)).value, last.value);
        KeysOfSum(before, [said], DefaultKey);
        OneKey(said);
        SaidOneMore(KeysOf(before, DefaultKey), said.key);
      }
    }
  }

  lemma SaidOneMore(values: seq<string>, value: string)
    requires AllSaid(values) && value != "" && Trimmed(value)
    ensures AllSaid(values + [value])
  {
  }

  lemma OneKey(d: Default)
    ensures KeysOf([d], DefaultKey) == [d.key]
  {
    assert |KeysOf([d], DefaultKey)| == 1 && KeysOf([d], DefaultKey)[0] == d.key;
  }

  lemma {:induction false} SaidDefaultsStay(entries: seq<Default>)
    requires AllSaid(KeysOf(entries, DefaultKey))
    ensures SaidDefaults(entries) == entries
  {
    if entries != [] {
      var init, last := entries[..|entries| - 1], entries[|entries| - 1];
      KeysOfSnoc(entries, DefaultKey);
      assert forall v | v in KeysOf(init, DefaultKey) :: v in KeysOf(entries, DefaultKey);
      assert last.key in KeysOf(entries, DefaultKey);
      SaidDefaultsStay(init);
      TrimmedStays(last.key);
    }
  }

  lemma DefaultsSettle(entries: seq<Default>)
    ensures Defaults(Defaults(entries)) == Defaults(entries)
    ensures Distinct(KeysOf(Defaults(entries), DefaultKey)) && AllSaid(KeysOf(Defaults(entries), DefaultKey))
  {
    SaidDefaultsAreSaid(entries);
    var said := SaidDefaults(entries);
    assert KeysOf([], DefaultKey) == [] && [] + KeysOf(said, DefaultKey) == KeysOf(said, DefaultKey);
    UpsertAllKeys([], said, DefaultKey, Newer);
    UniqueIsDistinct(KeysOf(said, DefaultKey));
    SaidDefaultsStay(Defaults(entries));
    DistinctStays(Defaults(entries), DefaultKey, Newer);
  }
}
