/** Normalization of a manifest, level by level; None where it throws. */
module ManifestNormalization {
  import opened Prelude
  import opened Text
  import opened ManifestPaths
  import opened ManifestLists
  import opened Manifests

  // --- Keys ---

  function ParamKey(p: Param): string { p.key }
  function ArtifactKey(a: Artifact): string { a.key }
  function ActionId(a: Action): string { a.id }
  function MemberId(m: Member): string { m.id }
  function TeamRouteKey(r: TeamRoute): string { r.key }
  function TeamId(t: Team): string { t.id }
  function BindingId(b: Binding): string { b.id }

  // --- The normalizers ---

  function NormalizeParam(p: Param): Option<Param> {
    var key, kind := RequiredText(p.key), OneOf(p.kind, PARAM_TYPES);
    if key.None? || kind.None? then None
    else Some(Param(key.value, kind.value, p.required, p.initial, UniqueStrings(p.values), UniqueStrings(p.aliases),
                    NonEmpty(p.description), p.metadata))
  }

  function NormalizeInput(i: Input): Option<Input> {
    var mode, params := OneOf(i.mode, INPUT_MODES), NormalizeEach(i.params, NormalizeParam, ParamKey);
    if mode.None? || params.None? then None
    else Some(Input(mode.value, NonEmpty(i.command), params.value, i.schema, UniqueStrings(i.examples), i.metadata))
  }

  function NormalizeArtifact(a: Artifact): Option<Artifact> {
    var key := RequiredText(a.key);
    if key.None? then None
    else Some(Artifact(key.value, NonEmpty(a.contentType), NonEmpty(a.path), NonEmpty(a.description), a.metadata))
  }

  function NormalizeOutput(o: Output): Option<Output> {
    var mode, artifacts := OneOf(o.mode, OUTPUT_MODES), NormalizeEach(o.artifacts, NormalizeArtifact, ArtifactKey);
    if mode.None? || artifacts.None? then None
    else Some(Output(mode.value, NonEmpty(o.contentType), o.schema, artifacts.value, o.metadata))
  }

  function NormalizeRoute(host: Host, r: Route): Option<Route> {
    var verb, path := Method(r.verb, host), OptionalPath(r.path, host);
    if verb.None? || path.None? then None else Some(Route(verb.value, NonEmpty(r.surfaceKey), path.value, r.metadata))
  }

  /** A part that may be absent; the outer None is the thrown error. */
  function Optional<T>(part: Option<T>, f: T -> Option<T>): Option<Option<T>> {
    if part.None? then Some(None)
    else
      var normalized := f(part.value);
      if normalized.None? then None else Some(normalized)
  }

  function NormalizeAction(host: Host, a: Action): Option<Action> {
    var id := RequiredText(a.id);
    var route := Optional(a.route, r => NormalizeRoute(host, r));
    var input, output := Optional(a.input, NormalizeInput), Optional(a.output, NormalizeOutput);
    if id.None? || route.None? || input.None? || output.None? then None
    else Some(Action(id.value, NonEmpty(a.title), NonEmpty(a.description), a.enabled, route.value, input.value,
                     output.value, Defaults(a.defaults), UniqueStrings(a.capabilities), a.metadata))
  }

  function ActionNormalizer(host: Host): Action -> Option<Action> { (a: Action) => NormalizeAction(host, a) }

  function NormalizeActions(host: Host, actions: seq<Action>): Option<seq<Action>> {
    NormalizeEach(actions, ActionNormalizer(host), ActionId)
  }

  function NormalizeIdentity(i: Identity): Option<Identity> {
    Some(Identity(NonEmpty(i.name), NonEmpty(i.displayName), NonEmpty(i.slug), NonEmpty(i.code),
                  UniqueStrings(i.aliases), i.metadata))
  }

  function NormalizeWorkspacePath(host: Host, e: WorkspacePath): Option<WorkspacePath> {
    match e
    case PlainPath(text) =>
      var path := RelativePath(text, host.decode);
      if path.None? then None else Some(KeyedPath(path.value, path))
    case KeyedPath(raw, text) =>
      var key := RequiredText(raw);
      if key.None? then None
      else
        var path := RelativePath(if text.Some? then text.value else key.value, host.decode);
        if path.None? then None else Some(KeyedPath(key.value, path))
  }

  function WorkspacePathNormalizer(host: Host): WorkspacePath -> Option<WorkspacePath> {
    (e: WorkspacePath) => NormalizeWorkspacePath(host, e)
  }

  function NormalizeWorkspace(host: Host, w: Workspace): Option<Workspace> {
    var root, paths := AbsolutePath(w.rootPath, host.decode), Each(w.paths, WorkspacePathNormalizer(host));
    if root.None? || paths.None? then None else Some(Workspace(root.value, paths.value))
  }

  function NormalizeMember(host: Host, m: Member): Option<Member> {
    var id, workspace := RequiredText(m.id), Optional(m.workspace, w => NormalizeWorkspace(host, w));
    var identity, actions := Optional(m.identity, NormalizeIdentity), NormalizeActions(host, m.actions);
    if id.None? || identity.None? || workspace.None? || actions.None? then None
    else Some(Member(id.value, identity.value, workspace.value, actions.value, UniqueStrings(m.capabilities),
                     m.metadata))
  }

  function MemberNormalizer(host: Host): Member -> Option<Member> { (m: Member) => NormalizeMember(host, m) }

  function NormalizeTeamRoute(host: Host, r: TeamRoute): Option<TeamRoute> {
    var key, path := RequiredText(r.key), OptionalPath(r.path, host);
    if key.None? || path.None? then None else Some(TeamRoute(key.value, path.value))
  }

  function TeamRouteNormalizer(host: Host): TeamRoute -> Option<TeamRoute> {
    (r: TeamRoute) => NormalizeTeamRoute(host, r)
  }

  function NormalizeTeam(host: Host, t: Team): Option<Team> {
    var id, workspace := RequiredText(t.id), Optional(t.workspace, w => NormalizeWorkspace(host, w));
    var identity, actions := Optional(t.identity, NormalizeIdentity), NormalizeActions(host, t.actions);
    var members := NormalizeEach(t.members, MemberNormalizer(host), MemberId);
    var routes := NormalizeEach(t.routes, TeamRouteNormalizer(host), TeamRouteKey);
    if id.None? || identity.None? || workspace.None? || actions.None? || members.None? || routes.None? then None
    else Some(Team(id.value, identity.value, members.value, workspace.value, actions.value,
                   UniqueStrings(t.capabilities), routes.value, t.metadata))
  }

  function TeamNormalizer(host: Host): Team -> Option<Team> { (t: Team) => NormalizeTeam(host, t) }

  function NormalizeBinding(b: Binding): Option<Binding> {
    var id, teamId := RequiredText(b.id), RequiredText(b.teamId);
    if id.None? || teamId.None? then None
    else Some(Binding(id.value, teamId.value, NonEmpty(b.memberId), NonEmpty(b.source), NonEmpty(b.channel),
                      NonEmpty(b.actionId), NonEmpty(b.routeKey), NonEmpty(b.sessionKeyPattern), b.metadata))
  }

  const DEFAULT_MANIFEST := Manifest([], [], [
    Team("default", Some(Identity(Some("default"), Some("default"), Some("default"), Some("default"), [], None)),
         [Member("default-agent", None, None, [], [], None)], None, [], [], [], None)])

  /** normalizeTeamManifest: one without teams is replaced by the default. */
  function NormalizeManifest(host: Host, m: Manifest): Option<Manifest> {
    var given := if m.teams == [] then DEFAULT_MANIFEST else m;
    var actions, bindings := NormalizeActions(host, given.actions),
        NormalizeEach(given.bindings, NormalizeBinding, BindingId);
    var teams := NormalizeEach(given.teams, TeamNormalizer(host), TeamId);
    if actions.None? || bindings.None? || teams.None? then None
    else Some(Manifest(actions.value, bindings.value, teams.value))
  }

  // --- Normalizing twice changes nothing ---

  lemma TextsSettle(a: Option<string>, b: Option<string>, c: Option<string>, d: Option<string>)
    ensures NonEmpty(NonEmpty(a)) == NonEmpty(a) && NonEmpty(NonEmpty(b)) == NonEmpty(b)
    ensures NonEmpty(NonEmpty(c)) == NonEmpty(c) && NonEmpty(NonEmpty(d)) == NonEmpty(d)
  {
    NonEmptyIdempotent(a);
    NonEmptyIdempotent(b);
    NonEmptyIdempotent(c);
    NonEmptyIdempotent(d);
  }

  lemma ParamSettles(p: Param)
    ensures Settles(p, NormalizeParam)
  {
    hide NonEmpty, UniqueStrings, OneOf, RequiredText;
    if NormalizeParam(p).Some? {
      RequiredTextSettles(p.key);
      OneOfSettles(p.kind, PARAM_TYPES);
      UniqueStringsIdempotent(p.values);
      UniqueStringsIdempotent(p.aliases);
      TextsSettle(p.description, None, None, None);
    }
  }

  lemma InputSettles(i: Input)
    ensures Settles(i, NormalizeInput)
    ensures NormalizeInput(i).Some? ==> Distinct(KeysOf(NormalizeInput(i).value.params, ParamKey))
  {
    hide NonEmpty, UniqueStrings, OneOf, NormalizeParam, NormalizeEach;
    if NormalizeInput(i).Some? {
      OneOfSettles(i.mode, INPUT_MODES);
      forall p ensures Settles(p, NormalizeParam) {
        ParamSettles(p);
      }
      NormalizeEachSettles(i.params, NormalizeParam, ParamKey);
      UniqueStringsIdempotent(i.examples);
      TextsSettle(i.command, None, None, None);
    }
  }

  lemma ArtifactSettles(a: Artifact)
    ensures Settles(a, NormalizeArtifact)
  {
    hide NonEmpty, RequiredText;
    if NormalizeArtifact(a).Some? {
      RequiredTextSettles(a.key);
      TextsSettle(a.contentType, a.path, a.description, None);
    }
  }

  lemma OutputSettles(o: Output)
    ensures Settles(o, NormalizeOutput)
    ensures NormalizeOutput(o).Some? ==> Distinct(KeysOf(NormalizeOutput(o).value.artifacts, ArtifactKey))
  {
    hide NonEmpty, OneOf, NormalizeArtifact, NormalizeEach;
    if NormalizeOutput(o).Some? {
      OneOfSettles(o.mode, OUTPUT_MODES);
      forall a ensures Settles(a, NormalizeArtifact) {
        ArtifactSettles(a);
      }
      NormalizeEachSettles(o.artifacts, NormalizeArtifact, ArtifactKey);
      TextsSettle(o.contentType, None, None, None);
    }
  }

  lemma RouteSettles(host: Host, r: Route)
    requires Lawful(host)
    ensures Settles(r, r => NormalizeRoute(host, r))
  {
    hide NonEmpty, Method, OptionalPath;
    if NormalizeRoute(host, r).Some? {
      MethodSettles(r.verb, host);
      OptionalPathSettles(r.path, host);
      TextsSettle(r.surfaceKey, None, None, None);
    }
  }

  lemma ActionSettles(host: Host, a: Action)
    requires Lawful(host)
    ensures Settles(a, ActionNormalizer(host))
  {
    hide NonEmpty, UniqueStrings, RequiredText, Defaults, NormalizeRoute, NormalizeInput, NormalizeOutput;
    if NormalizeAction(host, a).Some? {
      RequiredTextSettles(a.id);
      if a.route.Some? {
        RouteSettles(host, a.route.value);
      }
      if a.input.Some? {
        InputSettles(a.input.value);
      }
      if a.output.Some? {
        OutputSettles(a.output.value);
      }
      DefaultsSettle(a.defaults);
      UniqueStringsIdempotent(a.capabilities);
      TextsSettle(a.title, a.description, None, None);
    }
  }

  lemma ActionsSettle(host: Host, actions: seq<Action>)
    requires Lawful(host) && NormalizeActions(host, actions).Some?
    ensures var ys := NormalizeActions(host, actions).value;
            && NormalizeActions(host, ys) == Some(ys) && Distinct(KeysOf(ys, ActionId))
            && forall i | 0 <= i < |ys| :: NormalizeAction(host, ys[i]) == Some(ys[i])
  {
    hide NormalizeAction, NormalizeEach;
    forall a ensures Settles(a, ActionNormalizer(host)) {
      ActionSettles(host, a);
    }
    NormalizeEachSettles(actions, ActionNormalizer(host), ActionId);
  }

  lemma IdentitySettles(i: Identity)
    ensures Settles(i, NormalizeIdentity)
  {
    hide NonEmpty, UniqueStrings;
    UniqueStringsIdempotent(i.aliases);
    TextsSettle(i.name, i.displayName, i.slug, i.code);
  }

  lemma WorkspacePathSettles(host: Host, e: WorkspacePath)
    ensures Settles(e, WorkspacePathNormalizer(host))
  {
    hide RelativePath, Trim, GoodSegment, Segments, Split, HasScheme;
    var once := NormalizeWorkspacePath(host, e);
    if once.Some? {
      var text := if e.PlainPath? then e.text else if e.path.Some? then e.path.value else RequiredText(e.key).value;
      RelativePathIsNormal(text, host.decode);
      if e.PlainPath? {
        TrimmedStays(once.value.key);
      } else {
        RequiredTextSettles(e.key);
      }
    }
  }

  lemma WorkspaceSettles(host: Host, w: Workspace)
    ensures Settles(w, w => NormalizeWorkspace(host, w))
  {
    hide AbsolutePath, NormalizeWorkspacePath, GoodSegment, Segments, Split;
    var once := NormalizeWorkspace(host, w);
    if once.Some? {
      AbsolutePathIsNormal(w.rootPath, host.decode);
      var f := WorkspacePathNormalizer(host);
      EachIs(w.paths, f);
      forall i | 0 <= i < |once.value.paths| ensures f(once.value.paths[i]) == Some(once.value.paths[i]) {
        WorkspacePathSettles(host, w.paths[i]);
      }
      EachStays(once.value.paths, f);
    }
  }

  lemma MemberSettles(host: Host, m: Member)
    requires Lawful(host)
    ensures Settles(m, MemberNormalizer(host))
  {
    hide NonEmpty, UniqueStrings, RequiredText, NormalizeActions, NormalizeWorkspace, NormalizeIdentity;
    if NormalizeMember(host, m).Some? {
      RequiredTextSettles(m.id);
      ActionsSettle(host, m.actions);
      UniqueStringsIdempotent(m.capabilities);
      if m.identity.Some? {
        IdentitySettles(m.identity.value);
      }
      if m.workspace.Some? {
        WorkspaceSettles(host, m.workspace.value);
      }
    }
  }

  lemma TeamRouteSettles(host: Host, r: TeamRoute)
    ensures Settles(r, TeamRouteNormalizer(host))
  {
    hide RequiredText, OptionalPath;
    if NormalizeTeamRoute(host, r).Some? {
      RequiredTextSettles(r.key);
      OptionalPathSettles(r.path, host);
    }
  }

  /** A team's own lists, once normalized: settled, with different keys. */
  lemma TeamListsSettle(host: Host, t: Team)
    requires Lawful(host) && NormalizeTeam(host, t).Some?
    ensures var n := NormalizeTeam(host, t).value;
            && NormalizeEach(n.members, MemberNormalizer(host), MemberId) == Some(n.members)
            && NormalizeEach(n.routes, TeamRouteNormalizer(host), TeamRouteKey) == Some(n.routes)
            && Distinct(KeysOf(n.members, MemberId)) && Distinct(KeysOf(n.routes, TeamRouteKey))
            && forall i | 0 <= i < |n.members| :: NormalizeMember(host, n.members[i]) == Some(n.members[i])
  {
    hide NormalizeMember, NormalizeTeamRoute, NormalizeEach, NormalizeActions, NormalizeWorkspace, NormalizeIdentity,
         RequiredText, UniqueStrings;
    forall m ensures Settles(m, MemberNormalizer(host)) {
      MemberSettles(host, m);
    }
    forall r ensures Settles(r, TeamRouteNormalizer(host)) {
      TeamRouteSettles(host, r);
    }
    NormalizeEachSettles(t.members, MemberNormalizer(host), MemberId);
    NormalizeEachSettles(t.routes, TeamRouteNormalizer(host), TeamRouteKey);
  }

  lemma TeamSettles(host: Host, t: Team)
    requires Lawful(host)
    ensures Settles(t, TeamNormalizer(host))
  {
    hide UniqueStrings, RequiredText, NormalizeActions, NormalizeWorkspace, NormalizeIdentity, NormalizeEach,
         MemberNormalizer, TeamRouteNormalizer;
    if NormalizeTeam(host, t).Some? {
      RequiredTextSettles(t.id);
      ActionsSettle(host, t.actions);
      TeamListsSettle(host, t);
      UniqueStringsIdempotent(t.capabilities);
      if t.identity.Some? {
        IdentitySettles(t.identity.value);
      }
      if t.workspace.Some? {
        WorkspaceSettles(host, t.workspace.value);
      }
    }
  }

  lemma BindingSettles(b: Binding)
    ensures Settles(b, NormalizeBinding)
  {
    hide NonEmpty, RequiredText;
    if NormalizeBinding(b).Some? {
      RequiredTextSettles(b.id);
      RequiredTextSettles(b.teamId);
      TextsSettle(b.memberId, b.source, b.channel, b.actionId);
      TextsSettle(b.routeKey, b.sessionKeyPattern, None, None);
    }
  }

  // --- The manifest as a whole ---

  ghost predicate UniqueAction(a: Action) {
    && (a.input.Some? ==> Distinct(KeysOf(a.input.value.params, ParamKey)))
    && (a.output.Some? ==> Distinct(KeysOf(a.output.value.artifacts, ArtifactKey)))
    && Distinct(KeysOf(a.defaults, DefaultKey)) && Distinct(a.capabilities)
  }

  ghost predicate UniqueActions(actions: seq<Action>) {
    Distinct(KeysOf(actions, ActionId)) && forall i | 0 <= i < |actions| :: UniqueAction(actions[i])
  }

  ghost predicate UniqueTeam(t: Team) {
    && Distinct(KeysOf(t.members, MemberId)) && Distinct(KeysOf(t.routes, TeamRouteKey)) && UniqueActions(t.actions)
    && forall i | 0 <= i < |t.members| :: UniqueActions(t.members[i].actions)
  }

  /** Ids and keys are unique at every level. */
  ghost predicate UniqueManifest(m: Manifest) {
    && UniqueActions(m.actions) && Distinct(KeysOf(m.bindings, BindingId)) && Distinct(KeysOf(m.teams, TeamId))
    && forall i | 0 <= i < |m.teams| :: UniqueTeam(m.teams[i])
  }

  lemma NormalActionIsUnique(host: Host, a: Action)
    requires NormalizeAction(host, a) == Some(a)
    ensures UniqueAction(a)
  {
    hide NormalizeRoute, NormalizeInput, NormalizeOutput, Defaults, UniqueStrings, NonEmpty, RequiredText;
    if a.input.Some? {
      InputSettles(a.input.value);
    }
    if a.output.Some? {
      OutputSettles(a.output.value);
    }
    DefaultsSettle(a.defaults);
    UniqueStringsIdempotent(a.capabilities);
  }

  lemma NormalActionsAreUnique(host: Host, actions: seq<Action>)
    requires Lawful(host) && NormalizeActions(host, actions) == Some(actions)
    ensures UniqueActions(actions)
  {
    hide NormalizeActions, NormalizeAction, UniqueAction;
    ActionsSettle(host, actions);
    forall i | 0 <= i < |actions| ensures UniqueAction(actions[i]) {
      NormalActionIsUnique(host, actions[i]);
    }
  }

  lemma NormalTeamIsUnique(host: Host, t: Team)
    requires Lawful(host) && NormalizeTeam(host, t) == Some(t)
    ensures UniqueTeam(t)
  {
    hide NormalizeActions, UniqueActions, NormalizeEach, NormalizeWorkspace, NormalizeIdentity, RequiredText,
         UniqueStrings;
    TeamListsSettle(host, t);
    NormalActionsAreUnique(host, t.actions);
    forall i | 0 <= i < |t.members| ensures UniqueActions(t.members[i].actions) {
      assert NormalizeMember(host, t.members[i]) == Some(t.members[i]);
      NormalActionsAreUnique(host, t.members[i].actions);
    }
  }

  /** Normalizing is idempotent, its result has unique ids at every level, and it
      has at least one team. */
  lemma ManifestNormalizationIsIdempotent(host: Host, m: Manifest)
    requires Lawful(host)
    ensures NormalizeManifest(host, m).Some? ==>
              var n := NormalizeManifest(host, m).value;
              NormalizeManifest(host, n) == Some(n) && UniqueManifest(n) && n.teams != []
  {
    if NormalizeManifest(host, m).Some? {
      AcceptedManifestIsNormal(host, m);
    }
  }

  lemma AcceptedManifestIsNormal(host: Host, m: Manifest)
    requires Lawful(host) && NormalizeManifest(host, m).Some?
    ensures var n := NormalizeManifest(host, m).value;
            NormalizeManifest(host, n) == Some(n) && UniqueManifest(n) && n.teams != []
  {
    hide NormalizeActions, NormalizeEach, NormalizeTeam, NormalizeBinding, UniqueActions, UniqueTeam;
    var given := if m.teams == [] then DEFAULT_MANIFEST else m;
    var n := NormalizeManifest(host, m).value;
    ActionsSettle(host, given.actions);
    NormalActionsAreUnique(host, n.actions);
    forall b ensures Settles(b, NormalizeBinding) {
      BindingSettles(b);
    }
    NormalizeEachSettles(given.bindings, NormalizeBinding, BindingId);
    forall t ensures Settles(t, TeamNormalizer(host)) {
      TeamSettles(host, t);
    }
    NormalizeEachSettles(given.teams, TeamNormalizer(host), TeamId);
    SameLength(given.teams, TeamNormalizer(host), TeamId);
    forall i | 0 <= i < |n.teams| ensures UniqueTeam(n.teams[i]) {
      NormalTeamIsUnique(host, n.teams[i]);
    }
  }

  /** A manifest without teams becomes the default one, which is accepted and
      normal. */
  lemma DefaultManifestIsNormal(host: Host, actions: seq<Action>, bindings: seq<Binding>)
    ensures NormalizeManifest(host, Manifest(actions, bindings, [])) == Some(DEFAULT_MANIFEST)
  {
    var team := DEFAULT_MANIFEST.teams[0];
    var member := team.members[0];
    TrimmedStays("default");
    TrimmedStays("default-agent");
    NothingUnique();
    assert member.actions == [] && NormalizeActions(host, []) == Some([]) by {
      NoEntries(ActionNormalizer(host), ActionId);
    }
    assert NormalizeMember(host, member) == Some(member);
    OneEntry(member, MemberNormalizer(host), MemberId);
    NoEntries(TeamRouteNormalizer(host), TeamRouteKey);
    assert NormalizeTeam(host, team) == Some(team);
    OneEntry(team, TeamNormalizer(host), TeamId);
    NoEntries(NormalizeBinding, BindingId);
  }

  lemma NoEntries<T>(f: T -> Option<T>, key: T -> string)
    ensures NormalizeEach([], f, key) == Some([])
  {
  }

  lemma OneEntry<T>(x: T, f: T -> Option<T>, key: T -> string)
    requires f(x) == Some(x)
    ensures NormalizeEach([x], f, key) == Some([x])
  {
    EachStays([x], f);
    UniqueStays(KeysOf([x], key));
  }

  lemma SameLength<T>(entries: seq<T>, f: T -> Option<T>, key: T -> string)
    ensures NormalizeEach(entries, f, key).Some? ==> |NormalizeEach(entries, f, key).value| == |entries|
  {
    EachIs(entries, f);
  }
}
