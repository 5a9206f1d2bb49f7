/** What becomes of each field of a manifest when it is normalized, and exactly
    which manifests are accepted: a relation between manifests, field by field. */
module ManifestFields {
  import opened Prelude
  import opened Text
  import opened ManifestPaths
  import opened ManifestLists
  import opened Manifests
  import opened ManifestNormalization

  /** A text that must say something is kept without the space around it. */
  predicate Says(text: string, kept: string) { kept == Trim(text) && kept != "" }

  /** One out of these, or nothing said. */
  predicate Chooses(text: Option<string>, kept: Option<string>, choices: set<string>) {
    kept == NonEmpty(text) && (kept.Some? ==> kept.value in choices)
  }

  /** An HTTP method in capitals, or nothing said. */
  predicate ChoosesMethod(host: Host, text: Option<string>, kept: Option<string>) {
    var said := NonEmpty(text);
    if said.None? || host.upper(said.value) == "" then kept.None?
    else kept == Some(host.upper(said.value)) && kept.value in {"DELETE", "GET", "PATCH", "POST", "PUT"}
  }

  /** A path the server accepts, or nothing said. */
  predicate Leads(host: Host, text: Option<string>, kept: Option<string>) {
    if NonEmpty(text).None? then kept.None?
    else kept.Some? && AbsolutePath(text.value, host.decode) == kept
  }

  /** Entry for entry, and no two under the same key. */
  ghost predicate Entries<T(!new)>(xs: seq<T>, ys: seq<T>, becomes: (T, T) -> bool, key: T -> string) {
    && |ys| == |xs| && (forall i | 0 <= i < |xs| :: becomes(xs[i], ys[i]))
    && forall i, j | 0 <= i < j < |ys| :: key(ys[i]) != key(ys[j])
  }

  /** Absent, or there on both sides. */
  ghost predicate Parts<T(!new)>(x: Option<T>, y: Option<T>, becomes: (T, T) -> bool) {
    if x.None? then y.None? else y.Some? && becomes(x.value, y.value)
  }

  // --- Field by field ---

  predicate ParamBecomes(p: Param, n: Param) {
    && Says(p.key, n.key) && Chooses(p.kind, n.kind, {"boolean", "enum", "file", "json", "number", "string"})
    && n.required == p.required && n.initial == p.initial && n.values == UniqueStrings(p.values)
    && n.aliases == UniqueStrings(p.aliases) && n.description == NonEmpty(p.description) && n.metadata == p.metadata
  }

  ghost predicate InputBecomes(i: Input, n: Input) {
    && Chooses(i.mode, n.mode, {"command", "json", "text"}) && n.command == NonEmpty(i.command)
    && Entries(i.params, n.params, ParamBecomes, (p: Param) => p.key)
    && n.schema == i.schema && n.examples == UniqueStrings(i.examples) && n.metadata == i.metadata
  }

  predicate ArtifactBecomes(a: Artifact, n: Artifact) {
    && Says(a.key, n.key) && n.contentType == NonEmpty(a.contentType) && n.path == NonEmpty(a.path)
    && n.description == NonEmpty(a.description) && n.metadata == a.metadata
  }

  ghost predicate OutputBecomes(o: Output, n: Output) {
    && Chooses(o.mode, n.mode, {"artifact", "json", "markdown", "text"}) && n.contentType == NonEmpty(o.contentType)
    && Entries(o.artifacts, n.artifacts, ArtifactBecomes, (a: Artifact) => a.key)
    && n.schema == o.schema && n.metadata == o.metadata
  }

  predicate RouteBecomes(host: Host, r: Route, n: Route) {
    && ChoosesMethod(host, r.verb, n.verb) && n.surfaceKey == NonEmpty(r.surfaceKey) && Leads(host, r.path, n.path)
    && n.metadata == r.metadata
  }

  ghost predicate ActionBecomes(host: Host, a: Action, n: Action) {
    && Says(a.id, n.id) && n.title == NonEmpty(a.title) && n.description == NonEmpty(a.description)
    && n.enabled == a.enabled && Parts(a.route, n.route, (r, m) => RouteBecomes(host, r, m))
    && Parts(a.input, n.input, (i, m) => InputBecomes(i, m)) && Parts(a.output, n.output, (o, m) => OutputBecomes(o, m))
    && n.defaults == Defaults(a.defaults) && n.capabilities == UniqueStrings(a.capabilities)
    && n.metadata == a.metadata
  }

  predicate IdentityBecomes(i: Identity, n: Identity) {
    && n.name == NonEmpty(i.name) && n.displayName == NonEmpty(i.displayName) && n.slug == NonEmpty(i.slug)
    && n.code == NonEmpty(i.code) && n.aliases == UniqueStrings(i.aliases) && n.metadata == i.metadata
  }

  /** A plain path is its own key; a key without a path is its own path. */
  predicate WorkspacePathBecomes(host: Host, e: WorkspacePath, n: WorkspacePath) {
    && n.KeyedPath? && n.path.Some?
    && if e.PlainPath? then n.path == RelativePath(e.text, host.decode) && n.key == n.path.value
       else Says(e.key, n.key) && n.path == RelativePath(if e.path.Some? then e.path.value else n.key, host.decode)
  }

  ghost predicate WorkspaceBecomes(host: Host, w: Workspace, n: Workspace) {
    && AbsolutePath(w.rootPath, host.decode) == Some(n.rootPath) && |n.paths| == |w.paths|
    && forall i | 0 <= i < |w.paths| :: WorkspacePathBecomes(host, w.paths[i], n.paths[i])
  }

  ghost predicate ActionsBecome(host: Host, xs: seq<Action>, ys: seq<Action>) {
    Entries(xs, ys, (a, n) => ActionBecomes(host, a, n), (a: Action) => a.id)
  }

  ghost predicate MemberBecomes(host: Host, m: Member, n: Member) {
    && Says(m.id, n.id) && Parts(m.identity, n.identity, IdentityBecomes)
    && Parts(m.workspace, n.workspace, (w, v) => WorkspaceBecomes(host, w, v))
    && ActionsBecome(host, m.actions, n.actions) && n.capabilities == UniqueStrings(m.capabilities)
    && n.metadata == m.metadata
  }

  predicate TeamRouteBecomes(host: Host, r: TeamRoute, n: TeamRoute) {
    Says(r.key, n.key) && Leads(host, r.path, n.path)
  }

  ghost predicate TeamBecomes(host: Host, t: Team, n: Team) {
    && Says(t.id, n.id) && Parts(t.identity, n.identity, IdentityBecomes)
    && Entries(t.members, n.members, (m, v) => MemberBecomes(host, m, v), (m: Member) => m.id)
    && Parts(t.workspace, n.workspace, (w, v) => WorkspaceBecomes(host, w, v))
    && ActionsBecome(host, t.actions, n.actions) && n.capabilities == UniqueStrings(t.capabilities)
    && Entries(t.routes, n.routes, (r, v) => TeamRouteBecomes(host, r, v), (r: TeamRoute) => r.key)
    && n.metadata == t.metadata
  }

  predicate BindingBecomes(b: Binding, n: Binding) {
    && Says(b.id, n.id) && Says(b.teamId, n.teamId) && n.memberId == NonEmpty(b.memberId)
    && n.source == NonEmpty(b.source) && n.channel == NonEmpty(b.channel) && n.actionId == NonEmpty(b.actionId)
    && n.routeKey == NonEmpty(b.routeKey) && n.sessionKeyPattern == NonEmpty(b.sessionKeyPattern)
    && n.metadata == b.metadata
  }

  ghost predicate ManifestBecomes(host: Host, m: Manifest, n: Manifest) {
    && ActionsBecome(host, m.actions, n.actions)
    && Entries(m.bindings, n.bindings, BindingBecomes, (b: Binding) => b.id)
    && Entries(m.teams, n.teams, (t, v) => TeamBecomes(host, t, v), (t: Team) => t.id)
  }

  // --- The normalizers are this relation ---

  /** f and the relation say the same of x. */
  ghost predicate Agrees<T(!new)>(x: T, f: T -> Option<T>, becomes: (T, T) -> bool) {
    forall y :: f(x) == Some(y) <==> becomes(x, y)
  }

  lemma EntriesExactly<T(!new)>(xs: seq<T>, ys: seq<T>, f: T -> Option<T>, becomes: (T, T) -> bool, key: T -> string,
                                sameKey: T -> string)
    requires forall i | 0 <= i < |xs| :: Agrees(xs[i], f, becomes)
    requires forall x :: key(x) == sameKey(x)
    ensures NormalizeEach(xs, f, key) == Some(ys) <==> Entries(xs, ys, becomes, sameKey)
  {
    EachIs(xs, f);
    if Each(xs, f).Some? {
      var each := Each(xs, f).value;
      UniqueIsDistinct(KeysOf(each, key));
      if Distinct(KeysOf(each, key)) {
        UniqueStays(KeysOf(each, key));
      }
      assert forall i | 0 <= i < |xs| :: becomes(xs[i], each[i]);
      DistinctKeys(each, key);
    }
    if Entries(xs, ys, becomes, sameKey) {
      assert forall i | 0 <= i < |xs| :: f(xs[i]) == Some(ys[i]);
      assert Each(xs, f).value == ys;
      DistinctKeys(ys, key);
    }
  }

  lemma DistinctKeys<T(!new)>(ys: seq<T>, key: T -> string)
    ensures Distinct(KeysOf(ys, key)) <==> forall i, j | 0 <= i < j < |ys| :: key(ys[i]) != key(ys[j])
  {
    hide Distinct;
    var keys := KeysOf(ys, key);
    assert forall i | 0 <= i < |ys| :: keys[i] == key(ys[i]);
    DistinctMeans(keys);
  }

  lemma DistinctMeans(keys: seq<string>)
    ensures Distinct(keys) <==> forall i, j | 0 <= i < j < |keys| :: keys[i] != keys[j]
  {
  }

  lemma ParamExactly(p: Param)
    ensures Agrees(p, NormalizeParam, ParamBecomes)
  {
    hide Trim, UniqueStrings;
  }

  lemma PartsExactly<T(!new)>(x: Option<T>, y: Option<T>, f: T -> Option<T>, becomes: (T, T) -> bool)
    requires x.Some? ==> Agrees(x.value, f, becomes)
    ensures Optional(x, f) == Some(y) <==> Parts(x, y, becomes)
  {
  }

  lemma InputExactly(i: Input, n: Input)
    ensures NormalizeInput(i) == Some(n) <==> InputBecomes(i, n)
  {
    hide NormalizeEach, Entries, UniqueStrings, NonEmpty;
    forall p ensures Agrees(p, NormalizeParam, ParamBecomes) {
      ParamExactly(p);
    }
    EntriesExactly(i.params, n.params, NormalizeParam, ParamBecomes, ParamKey, (p: Param) => p.key);
  }

  lemma ArtifactExactly(a: Artifact)
    ensures Agrees(a, NormalizeArtifact, ArtifactBecomes)
  {
    hide Trim;
  }

  lemma OutputExactly(o: Output, n: Output)
    ensures NormalizeOutput(o) == Some(n) <==> OutputBecomes(o, n)
  {
    hide NormalizeEach, Entries, NonEmpty;
    forall a ensures Agrees(a, NormalizeArtifact, ArtifactBecomes) {
      ArtifactExactly(a);
    }
    EntriesExactly(o.artifacts, n.artifacts, NormalizeArtifact, ArtifactBecomes, ArtifactKey, (a: Artifact) => a.key);
  }

  lemma PathExactly(host: Host, text: Option<string>, kept: Option<string>)
    ensures OptionalPath(text, host) == Some(kept) <==> Leads(host, text, kept)
  {
    hide HasScheme, GoodSegments, Segments, Join;
    if NonEmpty(text).Some? {
      TrimIdempotent(text.value);
    }
    hide Trim;
  }

  lemma RouteExactly(host: Host, r: Route, n: Route)
    ensures NormalizeRoute(host, r) == Some(n) <==> RouteBecomes(host, r, n)
  {
    hide OptionalPath, Leads, NonEmpty;
    PathExactly(host, r.path, n.path);
  }

  lemma ActionExactly(host: Host, a: Action, n: Action)
    ensures NormalizeAction(host, a) == Some(n) <==> ActionBecomes(host, a, n)
  {
    hide NormalizeRoute, NormalizeInput, NormalizeOutput, RouteBecomes, InputBecomes, OutputBecomes, Defaults,
         UniqueStrings, Trim;
    forall r, m ensures NormalizeRoute(host, r) == Some(m) <==> RouteBecomes(host, r, m) {
      RouteExactly(host, r, m);
    }
    forall i, m ensures NormalizeInput(i) == Some(m) <==> InputBecomes(i, m) {
      InputExactly(i, m);
    }
    forall o, m ensures NormalizeOutput(o) == Some(m) <==> OutputBecomes(o, m) {
      OutputExactly(o, m);
    }
  }

  lemma ActionsExactly(host: Host, xs: seq<Action>, ys: seq<Action>)
    ensures NormalizeActions(host, xs) == Some(ys) <==> ActionsBecome(host, xs, ys)
  {
    hide NormalizeAction, ActionBecomes, NormalizeEach, Entries;
    var becomes := (a: Action, n: Action) => ActionBecomes(host, a, n);
    forall a ensures Agrees(a, ActionNormalizer(host), becomes) {
      forall n ensures ActionNormalizer(host)(a) == Some(n) <==> becomes(a, n) {
        ActionExactly(host, a, n);
      }
    }
    EntriesExactly(xs, ys, ActionNormalizer(host), becomes, ActionId, (a: Action) => a.id);
  }

  lemma WorkspacePathExactly(host: Host, e: WorkspacePath, n: WorkspacePath)
    ensures NormalizeWorkspacePath(host, e) == Some(n) <==> WorkspacePathBecomes(host, e, n)
  {
    hide RelativePath, Trim;
  }

  lemma WorkspaceExactly(host: Host, w: Workspace, n: Workspace)
    ensures NormalizeWorkspace(host, w) == Some(n) <==> WorkspaceBecomes(host, w, n)
  {
    hide AbsolutePath, NormalizeWorkspacePath, WorkspacePathBecomes;
    forall e, v ensures NormalizeWorkspacePath(host, e) == Some(v) <==> WorkspacePathBecomes(host, e, v) {
      WorkspacePathExactly(host, e, v);
    }
    var f := WorkspacePathNormalizer(host);
    EachIs(w.paths, f);
    if WorkspaceBecomes(host, w, n) {
      assert forall i | 0 <= i < |w.paths| :: f(w.paths[i]) == Some(n.paths[i]);
      assert Each(w.paths, f).value == n.paths;
    }
  }

  lemma IdentityExactly(i: Identity, n: Identity)
    ensures NormalizeIdentity(i) == Some(n) <==> IdentityBecomes(i, n)
  {
  }

  lemma MemberExactly(host: Host, m: Member, n: Member)
    ensures NormalizeMember(host, m) == Some(n) <==> MemberBecomes(host, m, n)
  {
    hide NormalizeActions, ActionsBecome, NormalizeWorkspace, WorkspaceBecomes, NormalizeIdentity, IdentityBecomes,
         UniqueStrings, Trim;
    ActionsExactly(host, m.actions, n.actions);
    forall w, v ensures NormalizeWorkspace(host, w) == Some(v) <==> WorkspaceBecomes(host, w, v) {
      WorkspaceExactly(host, w, v);
    }
    forall i, v ensures NormalizeIdentity(i) == Some(v) <==> IdentityBecomes(i, v) {
      IdentityExactly(i, v);
    }
  }

  lemma TeamRouteExactly(host: Host, r: TeamRoute, n: TeamRoute)
    ensures NormalizeTeamRoute(host, r) == Some(n) <==> TeamRouteBecomes(host, r, n)
  {
    hide OptionalPath, Leads, Trim;
    PathExactly(host, r.path, n.path);
  }

  /** A team's own lists. */
  lemma TeamListsExactly(host: Host, t: Team, n: Team)
    ensures NormalizeEach(t.members, MemberNormalizer(host), MemberId) == Some(n.members) <==>
            Entries(t.members, n.members, (m, v) => MemberBecomes(host, m, v), (m: Member) => m.id)
    ensures NormalizeEach(t.routes, TeamRouteNormalizer(host), TeamRouteKey) == Some(n.routes) <==>
            Entries(t.routes, n.routes, (r, v) => TeamRouteBecomes(host, r, v), (r: TeamRoute) => r.key)
  {
    hide NormalizeMember, MemberBecomes, NormalizeTeamRoute, TeamRouteBecomes, NormalizeEach, Entries;
    var members := (m: Member, v: Member) => MemberBecomes(host, m, v);
    forall m ensures Agrees(m, MemberNormalizer(host), members) {
      forall v ensures MemberNormalizer(host)(m) == Some(v) <==> members(m, v) {
        MemberExactly(host, m, v);
      }
    }
    EntriesExactly(t.members, n.members, MemberNormalizer(host), members, MemberId, (m: Member) => m.id);
    var routes := (r: TeamRoute, v: TeamRoute) => TeamRouteBecomes(host, r, v);
    forall r ensures Agrees(r, TeamRouteNormalizer(host), routes) {
      forall v ensures TeamRouteNormalizer(host)(r) == Some(v) <==> routes(r, v) {
        TeamRouteExactly(host, r, v);
      }
    }
    EntriesExactly(t.routes, n.routes, TeamRouteNormalizer(host), routes, TeamRouteKey, (r: TeamRoute) => r.key);
  }

  lemma TeamExactly(host: Host, t: Team, n: Team)
    ensures NormalizeTeam(host, t) == Some(n) <==> TeamBecomes(host, t, n)
  {
    hide NormalizeActions, ActionsBecome, NormalizeWorkspace, WorkspaceBecomes, NormalizeIdentity, IdentityBecomes,
         UniqueStrings, Trim, NormalizeEach, Entries, MemberBecomes, TeamRouteBecomes;
    ActionsExactly(host, t.actions, n.actions);
    TeamListsExactly(host, t, n);
    forall w, v ensures NormalizeWorkspace(host, w) == Some(v) <==> WorkspaceBecomes(host, w, v) {
      WorkspaceExactly(host, w, v);
    }
    forall i, v ensures NormalizeIdentity(i) == Some(v) <==> IdentityBecomes(i, v) {
      IdentityExactly(i, v);
    }
  }

  lemma BindingExactly(b: Binding)
    ensures Agrees(b, NormalizeBinding, BindingBecomes)
  {
    hide Trim;
  }

  /** The manifests that are accepted, and what becomes of every field of them, at
      every level. */
  lemma ManifestExactly(host: Host, m: Manifest, n: Manifest)
    ensures NormalizeManifest(host, m) == Some(n) <==>
            ManifestBecomes(host, if m.teams == [] then DEFAULT_MANIFEST else m, n)
  {
    var given := if m.teams == [] then DEFAULT_MANIFEST else m;
    hide NormalizeActions, ActionsBecome, NormalizeTeam, TeamBecomes, NormalizeBinding, BindingBecomes, NormalizeEach,
         Entries;
    ActionsExactly(host, given.actions, n.actions);
    forall b ensures Agrees(b, NormalizeBinding, BindingBecomes) {
      BindingExactly(b);
    }
    EntriesExactly(given.bindings, n.bindings, NormalizeBinding, BindingBecomes, BindingId, (b: Binding) => b.id);
    var becomes := (t: Team, v: Team) => TeamBecomes(host, t, v);
    forall t ensures Agrees(t, TeamNormalizer(host), becomes) {
      forall v ensures TeamNormalizer(host)(t) == Some(v) <==> becomes(t, v) {
        TeamExactly(host, t, v);
      }
    }
    EntriesExactly(given.teams, n.teams, TeamNormalizer(host), becomes, TeamId, (t: Team) => t.id);
  }
}
