/** Looking things up in a manifest: the merged action contract of a member, and
    the binding that routes a gateway message. */
module ManifestResolution {
  import opened Prelude
  import opened Text
  import opened ManifestPaths
  import opened ManifestLists
  import opened Manifests
  import opened ManifestNormalization
  import opened ManifestLayers

  datatype Resolution = Resolved(action: Action) | MissingText | UnknownTeam | UnknownMember | UnknownAction
      | CannotMerge

  function Found(actions: seq<Action>, id: string): seq<Action> {
    var found := Get(actions, ActionId, id);
    if found.Some? then [found.value] else []
  }

  /** The versions of an action in scope, least specific first. */
  function Scoped(m: Manifest, team: Team, member: Option<Member>, id: string): seq<Action> {
    Found(m.actions, id) + Found(team.actions, id) + if member.Some? then Found(member.value.actions, id) else []
  }

  /** resolveTeamActionContract. */
  function ResolveAction(m: Manifest, teamId: string, actionId: string, memberId: Option<string>): Resolution {
    var team, action, member := RequiredText(teamId), RequiredText(actionId), NonEmpty(memberId);
    if team.None? || action.None? then MissingText
    else
      var theTeam := Get(m.teams, TeamId, team.value);
      if theTeam.None? then UnknownTeam
      else
        var theMember := if member.Some? then Get(theTeam.value.members, MemberId, member.value) else None;
        if member.Some? && theMember.None? then UnknownMember
        else
          var versions := Scoped(m, theTeam.value, theMember, action.value);
          if versions == [] then UnknownAction
          else if MergeAll(versions).Some? then Resolved(MergeAll(versions).value) else CannotMerge
  }

  lemma FoundIsNormal(host: Host, actions: seq<Action>, id: string)
    requires Lawful(host) && NormalizeActions(host, actions) == Some(actions)
    ensures Versions(host, Found(actions, id), id)
  {
    hide NormalizeActions, NormalizeAction;
    GetFinds(actions, ActionId, id);
    ActionsSettle(host, actions);
  }

  lemma ScopedIsNormal(host: Host, m: Manifest, team: Team, member: Option<Member>, id: string)
    requires Lawful(host) && NormalizeActions(host, m.actions) == Some(m.actions)
    requires NormalizeActions(host, team.actions) == Some(team.actions)
    requires member.Some? ==> NormalizeActions(host, member.value.actions) == Some(member.value.actions)
    ensures Versions(host, Scoped(m, team, member, id), id)
  {
    hide NormalizeActions, NormalizeAction, Found;
    FoundIsNormal(host, m.actions, id);
    FoundIsNormal(host, team.actions, id);
    if member.Some? {
      FoundIsNormal(host, member.value.actions, id);
    }
  }

  lemma NormalTeamHasNormalActions(host: Host, t: Team)
    requires Lawful(host) && NormalizeTeam(host, t) == Some(t)
    ensures NormalizeActions(host, t.actions) == Some(t.actions)
    ensures forall i | 0 <= i < |t.members| :: NormalizeActions(host, t.members[i].actions) ==
              Some(t.members[i].actions)
  {
    hide NormalizeActions, NormalizeEach, NormalizeWorkspace, NormalizeIdentity, RequiredText, UniqueStrings;
    TeamListsSettle(host, t);
    forall i | 0 <= i < |t.members| ensures NormalizeActions(host, t.members[i].actions) == Some(t.members[i].actions) {
      assert NormalizeMember(host, t.members[i]) == Some(t.members[i]);
    }
  }

  /** In a normalized manifest an action that is found anywhere resolves, to a
      normalized contract that is, field by field, the most specific reading of
      the versions in scope, which never fail to merge. */
  lemma ResolvedActionIsMostSpecific(host: Host, m: Manifest, teamId: string, actionId: string,
                                     memberId: Option<string>)
    requires Lawful(host) && NormalizeManifest(host, m) == Some(m)
    ensures var r := ResolveAction(m, teamId, actionId, memberId);
            && !r.CannotMerge?
            && (r.Resolved? ==>
                  var team := Get(m.teams, TeamId, Trim(teamId)).value;
                  var member := if NonEmpty(memberId).Some? then Get(team.members, MemberId, Trim(memberId.value))
                      else None;
                  var versions := Scoped(m, team, member, Trim(actionId));
                  && versions != [] && Versions(host, versions, Trim(actionId))
                  && r.action.id == Trim(actionId) && NormalizeAction(host, r.action) == Some(r.action)
                  && ActionOver(r.action, versions)
                  && if |versions| == 1 then r.action == versions[0] else RecordsSay(r.action))
  {
    hide NormalizeActions, NormalizeEach, NormalizeTeam, NormalizeBinding, NormalizeAction, Found, MergeAll, Trim,
         Versions, ActionOver, RecordsSay;
    var team := RequiredText(teamId);
    if team.Some? {
      GetFinds(m.teams, TeamId, team.value);
      var theTeam := Get(m.teams, TeamId, team.value);
      if theTeam.Some? {
        assert NormalizeTeam(host, theTeam.value) == Some(theTeam.value) by { TeamOfNormal(host, m, theTeam.value); }
        NormalTeamHasNormalActions(host, theTeam.value);
        var member := NonEmpty(memberId);
        var theMember := if member.Some? then Get(theTeam.value.members, MemberId, member.value) else None;
        if member.Some? {
          GetFinds(theTeam.value.members, MemberId, member.value);
        }
        assert NormalizeActions(host, m.actions) == Some(m.actions);
        ScopedIsNormal(host, m, theTeam.value, theMember, Trim(actionId));
        var versions := Scoped(m, theTeam.value, theMember, Trim(actionId));
        if versions != [] {
          MostSpecificWins(host, versions, Trim(actionId));
        }
      }
    }
  }

  lemma TeamOfNormal(host: Host, m: Manifest, t: Team)
    requires Lawful(host) && NormalizeManifest(host, m) == Some(m) && t in m.teams
    ensures NormalizeTeam(host, t) == Some(t)
  {
    hide NormalizeActions, NormalizeTeam, NormalizeBinding, Unique;
    ManifestHasTeams(host, m);
    EachIs(m.teams, TeamNormalizer(host));
  }

  lemma ManifestHasTeams(host: Host, m: Manifest)
    requires Lawful(host) && NormalizeManifest(host, m) == Some(m)
    ensures m.teams != []
  {
    ManifestNormalizationIsIdempotent(host, m);
  }

  // --- Route bindings ---

  datatype Options = Options(bindingId: Option<string>, source: Option<string>, channel: Option<string>,
                             session: Option<string>, agentId: Option<string>, actionId: Option<string>)

  /** toLowerCase, and whether a binding's session key pattern fits a session. */
  datatype Matching = Matching(lower: string -> string, fits: (Binding, Option<string>) -> bool)

  function Folded(text: Option<string>, matching: Matching): Option<string> {
    var chosen := NonEmpty(text);
    if chosen.Some? && matching.lower(chosen.value) != "" then Some(matching.lower(chosen.value)) else None
  }

  /** A condition of the binding is met: by either of the values it may name. */
  predicate Named(condition: Option<string>, one: Option<string>, other: Option<string>) {
    condition.None? || condition == one || condition == other
  }

  /** A condition only counts when the message says something about it. */
  predicate Compatible(condition: Option<string>, given: Option<string>) {
    condition.None? || given.None? || condition == given
  }

  predicate Truthy(text: Option<string>) { text.Some? && text.value != "" }

  /** Every condition the binding sets is met. */
  predicate Matches(b: Binding, o: Options, matching: Matching) {
    var source, channel := Folded(o.source, matching), Folded(o.channel, matching);
    && (Truthy(o.bindingId) ==> b.id == Trim(o.bindingId.value))
    && Named(Folded(b.source, matching), source, channel) && Named(Folded(b.channel, matching), channel, source)
    && Compatible(Folded(b.memberId, matching), Folded(o.agentId, matching))
    && Compatible(Folded(b.actionId, matching), Folded(o.actionId, matching))
    && matching.fits(b, o.session)
  }

  function Points(set_: bool, points: nat): nat { if set_ then points else 0 }

  function Specificity(b: Binding, o: Options, matching: Matching): nat {
    Points(Truthy(o.bindingId), 100) + Points(Truthy(b.sessionKeyPattern), 20)
    + Points(Folded(b.source, matching).Some?, 10) + Points(Folded(b.channel, matching).Some?, 10)
    + Points(Folded(b.memberId, matching).Some?, 5) + Points(Folded(b.actionId, matching).Some?, 5)
  }

  /** bindingMatchScore, with its early exits. */
  method Score(b: Binding, o: Options, matching: Matching) returns (score: int)
    ensures score == if Matches(b, o, matching) then Specificity(b, o, matching) else -1
  {
    hide Folded, Trim;
    if Truthy(o.bindingId) && b.id != Trim(o.bindingId.value) {
      return -1;
    }
    var inputSource, inputChannel := Folded(o.source, matching), Folded(o.channel, matching);
    var inputAgent, inputAction := Folded(o.agentId, matching), Folded(o.actionId, matching);
    var source, channel := Folded(b.source, matching), Folded(b.channel, matching);
    var member, action := Folded(b.memberId, matching), Folded(b.actionId, matching);
    if source.Some? && source != inputSource && source != inputChannel {
      return -1;
    }
    if channel.Some? && channel != inputChannel && channel != inputSource {
      return -1;
    }
    if member.Some? && inputAgent.Some? && member != inputAgent {
      return -1;
    }
    if action.Some? && inputAction.Some? && action != inputAction {
      return -1;
    }
    if !matching.fits(b, o.session) {
      return -1;
    }
    score := 0;
    if Truthy(o.bindingId) {
      score := score + 100;
    }
    if Truthy(b.sessionKeyPattern) {
      score := score + 20;
    }
    if source.Some? {
      score := score + 10;
    }
    if channel.Some? {
      score := score + 10;
    }
    if member.Some? {
      score := score + 5;
    }
    if action.Some? {
      score := score + 5;
    }
  }

  /** i is the first of the most specific bindings that match. */
  ghost predicate IsBest(bindings: seq<Binding>, i: nat, o: Options, matching: Matching) {
    && i < |bindings| && Matches(bindings[i], o, matching)
    && (forall j | 0 <= j < |bindings| && Matches(bindings[j], o, matching) ::
          Specificity(bindings[j], o, matching) <= Specificity(bindings[i], o, matching))
    && forall j | 0 <= j < i && Matches(bindings[j], o, matching) ::
         Specificity(bindings[j], o, matching) < Specificity(bindings[i], o, matching)
  }

  /** One more binding: the better one is the best of those so far. */
  lemma NextBest(bindings: seq<Binding>, i: nat, selected: nat, selectedScore: int, o: Options, matching: Matching)
    requires i < |bindings|
    requires selectedScore == -1 ==> forall j | 0 <= j < i :: !Matches(bindings[j], o, matching)
    requires selectedScore >= 0 ==>
               selected < i && IsBest(bindings[..i], selected, o, matching)
               && selectedScore == Specificity(bindings[selected], o, matching)
    requires selectedScore >= -1
    ensures var score := if Matches(bindings[i], o, matching) then Specificity(bindings[i], o, matching) else -1;
            && (score > selectedScore ==> IsBest(bindings[..i + 1], i, o, matching))
            && (score <= selectedScore && selectedScore >= 0 ==> IsBest(bindings[..i + 1], selected, o, matching))
  {
    hide Matches, Specificity;
    assert forall j | 0 <= j < i :: bindings[..i + 1][j] == bindings[..i][j] == bindings[j];
    assert bindings[..i + 1][i] == bindings[i];
  }

  datatype Selection = NoBinding | Selected(index: nat) | BadBindings | UnknownTeamOf(index: nat)
      | UnknownMemberOf(index: nat)

  /** The best-score loop of resolveGatewayRouteBinding: the first most specific
      match, or none exactly when nothing matches; its team and member must exist. */
  method SelectBinding(m: Manifest, o: Options, matching: Matching) returns (r: Selection)
    ensures var bindings := NormalizeEach(m.bindings, NormalizeBinding, BindingId);
            match r
            case BadBindings => bindings.None?
            case NoBinding => bindings.Some? && forall b | b in bindings.value :: !Matches(b, o, matching)
            case Selected(i) =>
              && bindings.Some? && IsBest(bindings.value, i, o, matching)
              && var team := Get(m.teams, TeamId, bindings.value[i].teamId);
                 team.Some? && (bindings.value[i].memberId.Some? ==>
                   Get(team.value.members, MemberId, bindings.value[i].memberId.value).Some?)
            case UnknownTeamOf(i) =>
              bindings.Some? && IsBest(bindings.value, i, o, matching)
                  && Get(m.teams, TeamId, bindings.value[i].teamId).None?
            case UnknownMemberOf(i) =>
              && bindings.Some? && IsBest(bindings.value, i, o, matching)
              && var team := Get(m.teams, TeamId, bindings.value[i].teamId);
                 team.Some? && bindings.value[i].memberId.Some?
                 && Get(team.value.members, MemberId, bindings.value[i].memberId.value).None?
  {
    hide Matches, Specificity, NormalizeBinding, Get, IsBest;
    var normalized := NormalizeList(m.bindings, NormalizeBinding, BindingId);
    if normalized.None? {
      return BadBindings;
    }
    var bindings := normalized.value;
    var selected, selectedScore := 0, -1;
    for i := 0 to |bindings|
      invariant selectedScore == -1 ==> forall j | 0 <= j < i :: !Matches(bindings[j], o, matching)
      invariant selectedScore >= -1
      invariant selectedScore >= 0 ==>
        && selected < i && IsBest(bindings[..i], selected, o, matching)
        && selectedScore == Specificity(bindings[selected], o, matching)
    {
      var score := Score(bindings[i], o, matching);
      NextBest(bindings, i, selected, selectedScore, o, matching);
      if score > selectedScore {
        selected, selectedScore := i, score;
      }
    }
    assert bindings[..|bindings|] == bindings;
    if selectedScore < 0 {
      return NoBinding;
    }
    var b := bindings[selected];
    var team := Get(m.teams, TeamId, b.teamId);
    if team.None? {
      return UnknownTeamOf(selected);
    }
    if b.memberId.Some? && Get(team.value.members, MemberId, b.memberId.value).None? {
      return UnknownMemberOf(selected);
    }
    return Selected(selected);
  }
}
