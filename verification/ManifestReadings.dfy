/** What a resolved action says under each key, and when an action resolves: told
    by the levels of a manifest alone. */
module ManifestReadings {
  import opened Prelude
  import opened Text
  import opened ManifestPaths
  import opened ManifestLists
  import opened Manifests
  import opened ManifestNormalization
  import opened ManifestMerge
  import opened ManifestLayers
  import opened ManifestResolution

  // --- Params and artifacts over the levels ---

  /** The entries the levels have under a key, least specific first. */
  function Holding<T>(lists: seq<seq<T>>, key: T -> string, k: string): seq<T> {
    if lists == [] then []
    else
      var last := Get(lists[|lists| - 1], key, k);
      Holding(lists[..|lists| - 1], key, k) + if last.Some? then [last.value] else []
  }

  /** Every field of a param as the last level defines it, every list the ordered
      union. */
  ghost predicate ParamOver(m: Param, params: seq<Param>) {
    && (forall i | 0 <= i < |params| :: params[i].key == m.key)
    && m.kind == LastDefined(Column(params, (p: Param) => p.kind))
    && m.required == LastDefined(Column(params, (p: Param) => p.required))
    && m.initial == LastDefined(Column(params, (p: Param) => p.initial))
    && m.values == Unique(Flatten(Column(params, (p: Param) => p.values)))
    && m.aliases == Unique(Flatten(Column(params, (p: Param) => p.aliases)))
    && m.description == LastDefined(Column(params, (p: Param) => p.description))
    && RecordOver(m.metadata, Column(params, (p: Param) => p.metadata))
  }

  ghost predicate ArtifactOver(m: Artifact, artifacts: seq<Artifact>) {
    && (forall i | 0 <= i < |artifacts| :: artifacts[i].key == m.key)
    && m.contentType == LastDefined(Column(artifacts, (a: Artifact) => a.contentType))
    && m.path == LastDefined(Column(artifacts, (a: Artifact) => a.path))
    && m.description == LastDefined(Column(artifacts, (a: Artifact) => a.description))
    && RecordOver(m.metadata, Column(artifacts, (a: Artifact) => a.metadata))
  }

  lemma ParamAlone(p: Param)
    requires TidyParam(p)
    ensures ParamOver(p, [p])
  {
    UniqueStays(p.values);
    UniqueStays(p.aliases);
    ScalarAlone(p, (p: Param) => p.kind);
    ScalarAlone(p, (p: Param) => p.required);
    ScalarAlone(p, (p: Param) => p.initial);
    ColumnOfOne(p, (p: Param) => p.values);
    ColumnOfOne(p, (p: Param) => p.aliases);
    ScalarAlone(p, (p: Param) => p.description);
    ColumnOfOne(p, (p: Param) => p.metadata);
    hide Column, Unique, EntryAt, LastDefined;
    FlattenOfOne(p.values);
    FlattenOfOne(p.aliases);
    RecordAlone(p.metadata);
  }

  lemma ColumnOfOne<A, B>(row: A, field: A -> B)
    ensures Column([row], field) == [field(row)]
  {
  }

  lemma ScalarAlone<A, T>(row: A, field: A -> Option<T>)
    ensures LastDefined(Column([row], field)) == field(row)
  {
    ColumnOfOne(row, field);
    assert [field(row)][..0] == [];
  }

  lemma FlattenOfOne<T>(s: seq<T>)
    ensures Flatten([s]) == s
  {
    assert [s][1..] == [];
  }

  lemma RecordAlone(m: Option<Metadata>)
    ensures RecordOver(m, [m])
  {
    hide EntryAt;
    forall k ensures EntryAt(m, k) == EntryUnder([m], k) {
      assert [m][..0] == [];
    }
  }

  lemma ArtifactAlone(a: Artifact)
    ensures ArtifactOver(a, [a])
  {
    ScalarAlone(a, (a: Artifact) => a.contentType);
    ScalarAlone(a, (a: Artifact) => a.path);
    ScalarAlone(a, (a: Artifact) => a.description);
    ColumnOfOne(a, (a: Artifact) => a.metadata);
    hide Column, EntryAt, LastDefined;
    RecordAlone(a.metadata);
  }

  lemma ParamJoins(m: Param, params: seq<Param>, p: Param)
    requires ParamOver(m, params) && TidyParam(m) && TidyParam(p) && p.key == m.key
    ensures ParamOver(MergeParam(m, p), params + [p])
  {
    hide LastDefined, Column, RecordOver, Pick, MergeRecords, UniqueStrings, Unique, Tidy;
    TextJoins(m.kind, params, p, (p: Param) => p.kind);
    ScalarJoins(params, p, (p: Param) => p.required);
    ScalarJoins(params, p, (p: Param) => p.initial);
    ListJoins(m.values, params, p, (p: Param) => p.values);
    ListJoins(m.aliases, params, p, (p: Param) => p.aliases);
    TextJoins(m.description, params, p, (p: Param) => p.description);
    RecordJoins(m.metadata, params, p, (p: Param) => p.metadata);
  }

  lemma ArtifactJoins(m: Artifact, artifacts: seq<Artifact>, a: Artifact)
    requires ArtifactOver(m, artifacts) && TidyArtifact(m) && TidyArtifact(a) && a.key == m.key
    ensures ArtifactOver(MergeArtifact(m, a), artifacts + [a])
  {
    hide LastDefined, Column, RecordOver, Pick, MergeRecords;
    TextJoins(m.contentType, artifacts, a, (a: Artifact) => a.contentType);
    TextJoins(m.path, artifacts, a, (a: Artifact) => a.path);
    TextJoins(m.description, artifacts, a, (a: Artifact) => a.description);
    RecordJoins(m.metadata, artifacts, a, (a: Artifact) => a.metadata);
  }

  lemma {:induction false} ParamsUnder(lists: seq<seq<Param>>, k: string)
    requires forall list, p | list in lists && p in list :: TidyParam(p)
    ensures var under, holding := Under(lists, ParamKey, MergeParam, k), Holding(lists, ParamKey, k);
            && (under.Some? <==> holding != [])
            && (under.Some? ==> ParamOver(under.value, holding) && TidyParam(under.value) && under.value.key == k)
  {
    hide Get, MergeParam, TidyParam, ParamOver;
    if lists != [] {
      var init, last := lists[..|lists| - 1], lists[|lists| - 1];
      assert last in lists && forall list | list in init :: list in lists;
      ParamsUnder(init, k);
      GetFinds(last, ParamKey, k);
      var before, here := Under(init, ParamKey, MergeParam, k), Get(last, ParamKey, k);
      if here.Some? {
        if before.Some? {
          ParamJoins(before.value, Holding(init, ParamKey, k), here.value);
          MergeParamAssociates(before.value, here.value, here.value);
          MergedKey(before.value, here.value);
        } else {
          ParamAlone(here.value);
          assert Holding(init, ParamKey, k) + [here.value] == [here.value];
        }
      } else {
        assert Holding(init, ParamKey, k) + [] == Holding(init, ParamKey, k);
      }
    }
  }

  lemma MergedKey(a: Param, b: Param)
    ensures MergeParam(a, b).key == a.key
  {
  }

  lemma MergedArtifactKey(a: Artifact, b: Artifact)
    ensures MergeArtifact(a, b).key == a.key
  {
  }

  lemma {:induction false} ArtifactsUnder(lists: seq<seq<Artifact>>, k: string)
    requires forall list, a | list in lists && a in list :: TidyArtifact(a)
    ensures var under, holding := Under(lists, ArtifactKey, MergeArtifact, k), Holding(lists, ArtifactKey, k);
            && (under.Some? <==> holding != [])
            && (under.Some? ==> ArtifactOver(under.value, holding) && TidyArtifact(under.value) && under.value.key == k)
  {
    hide Get, MergeArtifact, TidyArtifact, ArtifactOver;
    if lists != [] {
      var init, last := lists[..|lists| - 1], lists[|lists| - 1];
      assert last in lists && forall list | list in init :: list in lists;
      ArtifactsUnder(init, k);
      GetFinds(last, ArtifactKey, k);
      var before, here := Under(init, ArtifactKey, MergeArtifact, k), Get(last, ArtifactKey, k);
      if here.Some? {
        if before.Some? {
          ArtifactJoins(before.value, Holding(init, ArtifactKey, k), here.value);
          MergeArtifactAssociates(before.value, here.value, here.value);
          MergedArtifactKey(before.value, here.value);
        } else {
          ArtifactAlone(here.value);
          assert Holding(init, ArtifactKey, k) + [here.value] == [here.value];
        }
      } else {
        assert Holding(init, ArtifactKey, k) + [] == Holding(init, ArtifactKey, k);
      }
    }
  }

  /** The contract merged over the levels, to the last field: each param and each
      artifact under a key is what the levels that have the key say. */
  ghost predicate EntriesOver(m: Action, versions: seq<Action>) {
    && (m.input.Some? ==>
          var lists := Column(InputsOf(versions), (i: Input) => i.params);
          forall k ::
            var p, holding := Get(m.input.value.params, ParamKey, k), Holding(lists, ParamKey, k);
            (p.Some? <==> holding != []) && (p.Some? ==> ParamOver(p.value, holding)))
    && (m.output.Some? ==>
          var lists := Column(OutputsOf(versions), (o: Output) => o.artifacts);
          forall k ::
            var a, holding := Get(m.output.value.artifacts, ArtifactKey, k), Holding(lists, ArtifactKey, k);
            (a.Some? <==> holding != []) && (a.Some? ==> ArtifactOver(a.value, holding)))
  }

  lemma EntriesAreMostSpecific(host: Host, m: Action, versions: seq<Action>, id: string)
    requires Versions(host, versions, id) && ActionOver(m, versions)
    ensures EntriesOver(m, versions)
  {
    PartsAreTidy(host, versions, id);
    hide Get, Under, Holding, ParamOver, ArtifactOver, FieldsOver, InputsOf, OutputsOf, RoutesOf, Unique, LastDefined,
         RecordOver, TidyParam, TidyArtifact, NormalizeAction;
    if m.input.Some? {
      var lists := Column(InputsOf(versions), (i: Input) => i.params);
      forall k
        ensures var p, holding := Get(m.input.value.params, ParamKey, k), Holding(lists, ParamKey, k);
                (p.Some? <==> holding != []) && (p.Some? ==> ParamOver(p.value, holding))
      {
        ParamsUnder(lists, k);
      }
    }
    if m.output.Some? {
      var lists := Column(OutputsOf(versions), (o: Output) => o.artifacts);
      forall k
        ensures var a, holding := Get(m.output.value.artifacts, ArtifactKey, k), Holding(lists, ArtifactKey, k);
                (a.Some? <==> holding != []) && (a.Some? ==> ArtifactOver(a.value, holding))
      {
        ArtifactsUnder(lists, k);
      }
    }
  }

  lemma {:induction false} PresentAre<T>(parts: seq<Option<T>>)
    ensures forall x :: x in Present(parts) <==> Some(x) in parts
  {
    if parts != [] {
      PresentAre(parts[..|parts| - 1]);
      assert parts == parts[..|parts| - 1] + [parts[|parts| - 1]];
    }
  }

  lemma PartsAreTidy(host: Host, versions: seq<Action>, id: string)
    requires Versions(host, versions, id)
    ensures forall list, p | list in Column(InputsOf(versions), (i: Input) => i.params) && p in list :: TidyParam(p)
    ensures forall list, a | list in Column(OutputsOf(versions), (o: Output) => o.artifacts) && a in list ::
              TidyArtifact(a)
  {
    hide TidyParam, TidyArtifact, NormalizeAction;
    forall i | 0 <= i < |versions| ensures TidyAction(versions[i]) {
      NormalActionIsTidy(host, versions[i]);
    }
    PresentAre(Column(versions, (a: Action) => a.input));
    PresentAre(Column(versions, (a: Action) => a.output));
    hide Present;
    forall x | x in InputsOf(versions) ensures TidyInput(x) {
      var i :| 0 <= i < |versions| && Column(versions, (a: Action) => a.input)[i] == Some(x);
      assert versions[i].input == Some(x);
    }
    forall x | x in OutputsOf(versions) ensures TidyOutput(x) {
      var i :| 0 <= i < |versions| && Column(versions, (a: Action) => a.output)[i] == Some(x);
      assert versions[i].output == Some(x);
    }
    hide InputsOf, OutputsOf;
    TidyParams(InputsOf(versions));
    TidyArtifacts(OutputsOf(versions));
  }

  lemma TidyParams(inputs: seq<Input>)
    requires forall x | x in inputs :: TidyInput(x)
    ensures forall list, p | list in Column(inputs, (i: Input) => i.params) && p in list :: TidyParam(p)
  {
    forall list, p | list in Column(inputs, (i: Input) => i.params) && p in list ensures TidyParam(p) {
      var i :| 0 <= i < |inputs| && Column(inputs, (i: Input) => i.params)[i] == list;
      assert inputs[i] in inputs && inputs[i].params == list;
    }
  }

  lemma TidyArtifacts(outputs: seq<Output>)
    requires forall x | x in outputs :: TidyOutput(x)
    ensures forall list, a | list in Column(outputs, (o: Output) => o.artifacts) && a in list :: TidyArtifact(a)
  {
    forall list, a | list in Column(outputs, (o: Output) => o.artifacts) && a in list ensures TidyArtifact(a) {
      var i :| 0 <= i < |outputs| && Column(outputs, (o: Output) => o.artifacts)[i] == list;
      assert outputs[i] in outputs && outputs[i].artifacts == list;
    }
  }

  // --- When an action resolves ---

  /** Entry i is the first under its key. */
  ghost predicate FirstOf<T>(entries: seq<T>, key: T -> string, k: string, i: nat) {
    i < |entries| && key(entries[i]) == k && forall j | 0 <= j < i :: key(entries[j]) != k
  }

  /** The levels, least specific first, resolve the action so: unknown if none has
      it; otherwise to the contract they say. */
  ghost predicate FromLevels(host: Host, levels: seq<seq<Action>>, id: string, r: Resolution) {
    var versions := Holding(levels, ActionId, id);
    if versions == [] then r == UnknownAction
    else
      && r.Resolved? && r.action.id == id && NormalizeAction(host, r.action) == Some(r.action)
      && ActionOver(r.action, versions) && EntriesOver(r.action, versions)
      && (|versions| == 1 ==> r.action == versions[0])
  }

  ghost predicate InTeam(host: Host, m: Manifest, team: Team, id: string, member: Option<string>, r: Resolution) {
    if member.None? then FromLevels(host, [m.actions, team.actions], id, r)
    else if forall i | 0 <= i < |team.members| :: team.members[i].id != member.value then r == UnknownMember
    else exists i: nat ::
           FirstOf(team.members, MemberId, member.value, i)
           && FromLevels(host, [m.actions, team.actions, team.members[i].actions], id, r)
  }

  /** How an action resolves: whether the texts that must say something do, whether
      the team and the member exist, and what the levels have. */
  ghost predicate ResolvesTo(host: Host, m: Manifest, teamId: string, actionId: string, memberId: Option<string>,
                             r: Resolution)
  {
    var team, action := Trim(teamId), Trim(actionId);
    if team == "" || action == "" then r == MissingText
    else if forall i | 0 <= i < |m.teams| :: m.teams[i].id != team then r == UnknownTeam
    else exists i: nat ::
           FirstOf(m.teams, TeamId, team, i) && InTeam(host, m, m.teams[i], action, NonEmpty(memberId), r)
  }

  lemma GetExactly<T>(entries: seq<T>, key: T -> string, k: string)
    ensures Get(entries, key, k).None? <==> forall i | 0 <= i < |entries| :: key(entries[i]) != k
    ensures Get(entries, key, k).Some? ==>
              var i := IndexOf(KeysOf(entries, key), k);
              FirstOf(entries, key, k, i) && Get(entries, key, k) == Some(entries[i])
  {
    var keys := KeysOf(entries, key);
    IndexOfFinds(keys, k);
    assert forall i | 0 <= i < |entries| :: keys[i] == key(entries[i]);
    var i := IndexOf(keys, k);
    if i < |entries| {
      forall j | 0 <= j < i ensures key(entries[j]) != k {
        assert keys[..i][j] == keys[j];
      }
    } else {
      assert keys[..i] == keys;
      forall j | 0 <= j < |entries| ensures key(entries[j]) != k {
        assert keys[j] in keys;
      }
    }
  }

  lemma HoldingSnoc(lists: seq<seq<Action>>, list: seq<Action>, id: string)
    ensures Holding(lists + [list], ActionId, id) == Holding(lists, ActionId, id) + Found(list, id)
  {
    assert (lists + [list])[..|lists|] == lists;
  }

  /** The levels in scope, least specific first. */
  function Levels(m: Manifest, team: Team, member: Option<Member>): seq<seq<Action>> {
    [m.actions, team.actions] + if member.Some? then [member.value.actions] else []
  }

  lemma ScopedIsHolding(m: Manifest, team: Team, member: Option<Member>, id: string)
    ensures Scoped(m, team, member, id) == Holding(Levels(m, team, member), ActionId, id)
  {
    HoldingSnoc([], m.actions, id);
    HoldingSnoc([m.actions], team.actions, id);
    hide Found;
    assert [] + [m.actions] == [m.actions] && [m.actions] + [team.actions] == [m.actions, team.actions];
    NothingBefore(Found(m.actions, id));
    if member.Some? {
      HoldingSnoc([m.actions, team.actions], member.value.actions, id);
    } else {
      assert Levels(m, team, member) == [m.actions, team.actions];
    }
  }

  /** The decisions of the lookup, one after the other. */
  lemma LookupUnfolds(m: Manifest, teamId: string, actionId: string, memberId: Option<string>)
    ensures var r, team, who := ResolveAction(m, teamId, actionId, memberId), Get(m.teams, TeamId, Trim(teamId)),
                NonEmpty(memberId);
            if Trim(teamId) == "" || Trim(actionId) == "" then r == MissingText
            else if team.None? then r == UnknownTeam
            else
              var member := if who.Some? then Get(team.value.members, MemberId, who.value) else None;
              if who.Some? && member.None? then r == UnknownMember
              else Scoped(m, team.value, member, Trim(actionId)) == [] <==> r == UnknownAction
  {
    hide Get, Scoped, Trim, MergeAll;
  }

  /** Once team and member are found. */
  lemma LookupInLevels(host: Host, m: Manifest, teamId: string, actionId: string, memberId: Option<string>, team: Team,
                       member: Option<Member>)
    requires Lawful(host) && NormalizeManifest(host, m) == Some(m)
    requires Trim(teamId) != "" && Trim(actionId) != "" && Get(m.teams, TeamId, Trim(teamId)) == Some(team)
    requires if NonEmpty(memberId).Some? then Get(team.members, MemberId, NonEmpty(memberId).value) == member != None
             else member.None?
    ensures FromLevels(host, Levels(m, team, member), Trim(actionId), ResolveAction(m, teamId, actionId, memberId))
  {
    LookupUnfolds(m, teamId, actionId, memberId);
    ResolvedActionIsMostSpecific(host, m, teamId, actionId, memberId);
    MemberIsTrimmed(memberId);
    hide *;
    LevelsSay(host, m, team, member, Trim(actionId), ResolveAction(m, teamId, actionId, memberId));
  }

  lemma LookupInTeam(host: Host, m: Manifest, teamId: string, actionId: string, memberId: Option<string>)
    requires Lawful(host) && NormalizeManifest(host, m) == Some(m)
    requires Trim(teamId) != "" && Trim(actionId) != "" && Get(m.teams, TeamId, Trim(teamId)).Some?
    ensures InTeam(host, m, Get(m.teams, TeamId, Trim(teamId)).value, Trim(actionId), NonEmpty(memberId),
                   ResolveAction(m, teamId, actionId, memberId))
  {
    var team, who := Get(m.teams, TeamId, Trim(teamId)).value, NonEmpty(memberId);
    LookupUnfolds(m, teamId, actionId, memberId);
    hide Get, FromLevels, Scoped, NormalizeManifest, ResolveAction, FirstOf, Trim, NonEmpty, Levels;
    if who.None? {
      LookupInLevels(host, m, teamId, actionId, memberId, team, None);
      LevelsOf(m, team, None);
    } else {
      GetExactly(team.members, MemberId, who.value);
      var member := Get(team.members, MemberId, who.value);
      if member.Some? {
        LookupInLevels(host, m, teamId, actionId, memberId, team, member);
        LevelsOf(m, team, member);
      }
    }
  }

  lemma MemberIsTrimmed(memberId: Option<string>)
    ensures NonEmpty(memberId).Some? ==> memberId.Some? && NonEmpty(memberId).value == Trim(memberId.value)
  {
  }

  lemma LevelsOf(m: Manifest, team: Team, member: Option<Member>)
    ensures member.None? ==> Levels(m, team, member) == [m.actions, team.actions]
    ensures member.Some? ==> Levels(m, team, member) == [m.actions, team.actions, member.value.actions]
  {
  }

  /** In a normalized manifest every action resolves as the levels in scope say. */
  lemma ResolutionExactly(host: Host, m: Manifest, teamId: string, actionId: string, memberId: Option<string>)
    requires Lawful(host) && NormalizeManifest(host, m) == Some(m)
    ensures ResolvesTo(host, m, teamId, actionId, memberId, ResolveAction(m, teamId, actionId, memberId))
  {
    LookupUnfolds(m, teamId, actionId, memberId);
    GetExactly(m.teams, TeamId, Trim(teamId));
    hide Get, InTeam, Scoped, NormalizeManifest, ResolveAction, FirstOf, Trim, NonEmpty;
    if Trim(teamId) != "" && Trim(actionId) != "" && Get(m.teams, TeamId, Trim(teamId)).Some? {
      LookupInTeam(host, m, teamId, actionId, memberId);
    }
  }

  lemma LevelsSay(host: Host, m: Manifest, team: Team, member: Option<Member>, id: string, r: Resolution)
    requires var versions := Scoped(m, team, member, id);
             if versions == [] then r == UnknownAction
             else
               && r.Resolved? && r.action.id == id && NormalizeAction(host, r.action) == Some(r.action)
               && Versions(host, versions, id) && ActionOver(r.action, versions)
               && (|versions| == 1 ==> r.action == versions[0])
    ensures FromLevels(host, Levels(m, team, member), id, r)
  {
    hide Versions, ActionOver, EntriesOver, Scoped, NormalizeAction, Holding;
    var versions := Scoped(m, team, member, id);
    ScopedIsHolding(m, team, member, id);
    if versions != [] {
      EntriesAreMostSpecific(host, r.action, versions, id);
    }
  }

  // --- Which binding a message gets ---

  /** The text says t, in lower case. */
  predicate SaysLower(text: Option<string>, matching: Matching, t: string) {
    text.Some? && Trim(text.value) != "" && matching.lower(Trim(text.value)) == t != ""
  }

  ghost predicate SaysAny(text: Option<string>, matching: Matching) { exists t :: SaysLower(text, matching, t) }

  lemma FoldedExactly(text: Option<string>, matching: Matching)
    ensures forall t :: SaysLower(text, matching, t) <==> Folded(text, matching) == Some(t)
    ensures SaysAny(text, matching) <==> Folded(text, matching).Some?
  {
    hide Trim;
    if Folded(text, matching).Some? {
      assert SaysLower(text, matching, Folded(text, matching).value);
    }
  }

  /** A binding matches exactly if it is the one asked for, what it says about source
      and channel is the message's source or channel, what it says about member and
      action does not contradict the message, and its session pattern fits. */
  lemma MatchesExactly(b: Binding, o: Options, matching: Matching)
    ensures Matches(b, o, matching) <==>
            && (o.bindingId.Some? && o.bindingId.value != "" ==> b.id == Trim(o.bindingId.value))
            && (forall t | SaysLower(b.source, matching, t) || SaysLower(b.channel, matching, t) ::
                  SaysLower(o.source, matching, t) || SaysLower(o.channel, matching, t))
            && (forall t, u | SaysLower(b.memberId, matching, t) && SaysLower(o.agentId, matching, u) :: t == u)
            && (forall t, u | SaysLower(b.actionId, matching, t) && SaysLower(o.actionId, matching, u) :: t == u)
            && matching.fits(b, o.session)
  {
    FoldedExactly(b.source, matching);
    FoldedExactly(b.channel, matching);
    FoldedExactly(b.memberId, matching);
    FoldedExactly(b.actionId, matching);
    FoldedExactly(o.source, matching);
    FoldedExactly(o.channel, matching);
    FoldedExactly(o.agentId, matching);
    FoldedExactly(o.actionId, matching);
    hide Folded, SaysLower, Trim;
  }

  /** A session pattern outweighs a source or a channel, and those a member or an
      action; every condition counts, and being asked for by id outweighs them all. */
  lemma SpecificityExactly(b: Binding, o: Options, matching: Matching)
    ensures Specificity(b, o, matching) ==
            (if o.bindingId.Some? && o.bindingId.value != "" then 100 else 0)
            + (if b.sessionKeyPattern.Some? && b.sessionKeyPattern.value != "" then 20 else 0)
            + (if SaysAny(b.source, matching) then 10 else 0) + (if SaysAny(b.channel, matching) then 10 else 0)
            + (if SaysAny(b.memberId, matching) then 5 else 0) + (if SaysAny(b.actionId, matching) then 5 else 0)
  {
    FoldedExactly(b.source, matching);
    FoldedExactly(b.channel, matching);
    FoldedExactly(b.memberId, matching);
    FoldedExactly(b.actionId, matching);
    hide Folded, SaysAny;
  }
}
