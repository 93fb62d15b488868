/**
 * The group/team assignment editor of app/components/tournmants/Details.tsx.
 * Every update is a function from the old list of groups to the new one; the
 * editor keeps group names unique and team names unique within a group.
 */
module Details {

  import opened Wrappers
  import opened Strings
  import opened Seqs
  import ImageKeys

  /** A team in a group; a team loaded from the tournament may lack a name. */
  datatype GroupTeam = GroupTeam(name: Option<string>)

  datatype Group = Group(name: string, teams: seq<GroupTeam>)

  /** An entry of the global team list offered by the picker. */
  datatype TeamInfo = TeamInfo(id: string, name: string)

  predicate UniqueGroupNames(gs: seq<Group>)
  {
    forall i, j :: 0 <= i < j < |gs| ==> gs[i].name != gs[j].name
  }

  predicate DistinctNames(ts: seq<GroupTeam>)
  {
    forall i, j :: 0 <= i < j < |ts| ==> ts[i].name != ts[j].name
  }

  predicate UniqueTeamNames(g: Group)
  {
    DistinctNames(g.teams)
  }

  predicate AllTeamNamesUnique(gs: seq<Group>)
  {
    forall i :: 0 <= i < |gs| ==> UniqueTeamNames(gs[i])
  }

  predicate HasGroup(gs: seq<Group>, name: string)
  {
    exists i :: 0 <= i < |gs| && gs[i].name == name
  }

  /**
   * `handleAddGroup`: a blank name or the name of an existing group changes
   * nothing; any other name (untrimmed) is appended as a group with no teams.
   */
  function AddGroup(gs: seq<Group>, groupName: string): (r: seq<Group>)
    ensures IsBlank(groupName) || HasGroup(gs, groupName) ==> r == gs
    ensures !IsBlank(groupName) && !HasGroup(gs, groupName) ==> r == gs + [Group(groupName, [])]
  {
    TrimEmptyIffBlank(groupName);
    if Trim(groupName) == "" then gs
    else if exists i :: 0 <= i < |gs| && gs[i].name == groupName then gs
    else gs + [Group(groupName, [])]
  }

  /** The group with a team appended unless a team of that name is already in it. */
  function AddTeamToGroup(g: Group, team: TeamInfo): (r: Group)
    ensures r.name == g.name
    ensures (exists j :: 0 <= j < |g.teams| && g.teams[j].name == Some(team.name)) ==> r == g
    ensures !(exists j :: 0 <= j < |g.teams| && g.teams[j].name == Some(team.name))
            ==> r.teams == g.teams + [GroupTeam(Some(team.name))]
  {
    if exists j :: 0 <= j < |g.teams| && g.teams[j].name == Some(team.name) then g
    else g.(teams := g.teams + [GroupTeam(Some(team.name))])
  }

  /**
   * `handleAddTeam`: every group named `groupName` gets the team (see
   * AddTeamToGroup); the other groups, the order and the length are unchanged.
   * No team (`!team`) changes nothing.
   */
  function AddTeam(gs: seq<Group>, groupName: string, team: Option<TeamInfo>): (r: seq<Group>)
    ensures |r| == |gs|
    ensures team.None? ==> r == gs
    ensures team.Some? ==> forall i :: 0 <= i < |gs| ==>
              r[i] == if gs[i].name == groupName then AddTeamToGroup(gs[i], team.value) else gs[i]
  {
    match team
    case None => gs
    case Some(t) => seq(|gs|, i requires 0 <= i < |gs| =>
                          if gs[i].name == groupName then AddTeamToGroup(gs[i], t) else gs[i])
  }

  /** The test of `filter(t => t.name !== teamName)`. */
  function NotNamed(teamName: string): GroupTeam -> bool
  {
    (t: GroupTeam) => t.name != Some(teamName)
  }

  /**
   * The teams of `ts` not named `teamName`: in their order, each one as often
   * as in `ts`, and no team of that name.
   */
  function WithoutTeam(ts: seq<GroupTeam>, teamName: string): (r: seq<GroupTeam>)
    ensures |r| <= |ts|
    ensures forall j :: 0 <= j < |r| ==> r[j].name != Some(teamName) && r[j] in ts
    ensures forall j :: 0 <= j < |ts| && ts[j].name != Some(teamName) ==> ts[j] in r
    ensures IsSubsequence(r, ts)
    ensures forall t :: multiset(r)[t] == if t.name != Some(teamName) then multiset(ts)[t] else 0
  {
    FilterIsSubsequence(ts, NotNamed(teamName));
    FilterCounts(ts, NotNamed(teamName));
    Filter(ts, NotNamed(teamName))
  }

  /** `handleRemoveTeam`: the named group loses every team of that name; nothing else changes. */
  function RemoveTeam(gs: seq<Group>, groupName: string, teamName: string): (r: seq<Group>)
    ensures |r| == |gs|
    ensures forall i :: 0 <= i < |gs| ==> r[i].name == gs[i].name
    ensures forall i :: 0 <= i < |gs| && gs[i].name != groupName ==> r[i] == gs[i]
    ensures forall i :: 0 <= i < |gs| && gs[i].name == groupName ==>
              r[i].teams == WithoutTeam(gs[i].teams, teamName)
  {
    seq(|gs|, i requires 0 <= i < |gs| =>
          if gs[i].name == groupName then gs[i].(teams := WithoutTeam(gs[i].teams, teamName)) else gs[i])
  }

  lemma AddGroupKeepsUnique(gs: seq<Group>, groupName: string)
    requires UniqueGroupNames(gs)
    ensures UniqueGroupNames(AddGroup(gs, groupName))
  {
  }

  lemma AddTeamKeepsGroupNames(gs: seq<Group>, groupName: string, team: Option<TeamInfo>)
    requires UniqueGroupNames(gs)
    ensures UniqueGroupNames(AddTeam(gs, groupName, team))
  {
  }

  lemma RemoveTeamKeepsGroupNames(gs: seq<Group>, groupName: string, teamName: string)
    requires UniqueGroupNames(gs)
    ensures UniqueGroupNames(RemoveTeam(gs, groupName, teamName))
  {
  }

  /** Adding a team keeps team names unique within every group. */
  lemma AddTeamKeepsUnique(gs: seq<Group>, groupName: string, team: Option<TeamInfo>)
    requires AllTeamNamesUnique(gs)
    ensures AllTeamNamesUnique(AddTeam(gs, groupName, team))
  {
    var r := AddTeam(gs, groupName, team);
    forall i | 0 <= i < |gs| ensures UniqueTeamNames(r[i]) {
      if team.Some? && gs[i].name == groupName {
        AddTeamToGroupKeepsUnique(gs[i], team.value);
      }
    }
  }

  lemma AddTeamToGroupKeepsUnique(g: Group, team: TeamInfo)
    requires UniqueTeamNames(g)
    ensures UniqueTeamNames(AddTeamToGroup(g, team))
  {
  }

  /** Removing a team keeps team names unique within every group, and the name is gone from that group. */
  lemma RemoveTeamKeepsUnique(gs: seq<Group>, groupName: string, teamName: string)
    requires AllTeamNamesUnique(gs)
    ensures AllTeamNamesUnique(RemoveTeam(gs, groupName, teamName))
    ensures forall i, j :: 0 <= i < |gs| && gs[i].name == groupName && 0 <= j < |RemoveTeam(gs, groupName, teamName)[i].teams|
              ==> RemoveTeam(gs, groupName, teamName)[i].teams[j].name != Some(teamName)
  {
    var r := RemoveTeam(gs, groupName, teamName);
    forall i | 0 <= i < |gs| ensures UniqueTeamNames(r[i]) {
      if gs[i].name == groupName {
        assert UniqueTeamNames(gs[i]);
        WithoutTeamKeepsUnique(gs[i].teams, teamName);
        assert r[i].teams == WithoutTeam(gs[i].teams, teamName);
      }
    }
  }

  /** Filtering a list with distinct names leaves a list with distinct names. */
  lemma {:induction false} WithoutTeamKeepsUnique(ts: seq<GroupTeam>, teamName: string)
    requires DistinctNames(ts)
    ensures DistinctNames(WithoutTeam(ts, teamName))
  {
    if ts != [] {
      DistinctTail(ts);
      WithoutTeamKeepsUnique(ts[1..], teamName);
      if ts[0].name != Some(teamName) {
        HeadNotInFilteredTail(ts, teamName);
        DistinctCons(ts[0], WithoutTeam(ts[1..], teamName));
      }
    }
  }

  lemma DistinctTail(ts: seq<GroupTeam>)
    requires ts != [] && DistinctNames(ts)
    ensures DistinctNames(ts[1..])
  {
    var tail := ts[1..];
    forall i, j | 0 <= i < j < |tail| ensures tail[i].name != tail[j].name {
      assert tail[i] == ts[i + 1] && tail[j] == ts[j + 1];
    }
  }

  lemma HeadNotInFilteredTail(ts: seq<GroupTeam>, teamName: string)
    requires ts != [] && DistinctNames(ts)
    ensures forall j :: 0 <= j < |WithoutTeam(ts[1..], teamName)| ==> WithoutTeam(ts[1..], teamName)[j].name != ts[0].name
  {
    var tail := ts[1..];
    var rest := WithoutTeam(tail, teamName);
    forall j | 0 <= j < |rest| ensures rest[j].name != ts[0].name {
      var k :| 0 <= k < |tail| && tail[k] == rest[j];
      assert ts[k + 1] == rest[j];
    }
  }

  lemma DistinctCons(t: GroupTeam, rest: seq<GroupTeam>)
    requires DistinctNames(rest)
    requires forall j :: 0 <= j < |rest| ==> rest[j].name != t.name
    ensures DistinctNames([t] + rest)
  {
    var r := [t] + rest;
    forall i, j | 0 <= i < j < |r| ensures r[i].name != r[j].name {
      assert r[j] == rest[j - 1];
      if i > 0 {
        assert r[i] == rest[i - 1];
      }
    }
  }

  /** `assignedTeamNames`: the names of all teams of all groups, group by group, in order. */
  function AssignedTeamNames(gs: seq<Group>): (r: seq<Option<string>>)
  {
    if gs == [] then [] else TeamNames(gs[0].teams) + AssignedTeamNames(gs[1..])
  }

  /** `teams.map(t => t.name)`. */
  function TeamNames(ts: seq<GroupTeam>): (r: seq<Option<string>>)
    ensures |r| == |ts|
    ensures forall j :: 0 <= j < |ts| ==> r[j] == ts[j].name
  {
    if ts == [] then [] else [ts[0].name] + TeamNames(ts[1..])
  }

  /** A name is taken exactly when some team of some group carries it. */
  lemma {:induction false} AssignedTeamNamesMembership(gs: seq<Group>, n: Option<string>)
    ensures n in AssignedTeamNames(gs)
            <==> exists i, j :: 0 <= i < |gs| && 0 <= j < |gs[i].teams| && gs[i].teams[j].name == n
  {
    if gs != [] {
      AssignedTeamNamesMembership(gs[1..], n);
      if n in AssignedTeamNames(gs[1..]) {
        var i, j :| 0 <= i < |gs[1..]| && 0 <= j < |gs[1..][i].teams| && gs[1..][i].teams[j].name == n;
        assert gs[i + 1].teams[j].name == n;
      }
      if exists i, j :: 0 <= i < |gs| && 0 <= j < |gs[i].teams| && gs[i].teams[j].name == n {
        var i, j :| 0 <= i < |gs| && 0 <= j < |gs[i].teams| && gs[i].teams[j].name == n;
        if i == 0 {
          assert TeamNames(gs[0].teams)[j] == n;
        } else {
          assert gs[1..][i - 1].teams[j].name == n;
        }
      }
    }
  }

  /** The flattened list has one entry per team, group by group. */
  lemma {:induction false} AssignedTeamNamesAppend(gs: seq<Group>, g: Group)
    ensures AssignedTeamNames(gs + [g]) == AssignedTeamNames(gs) + TeamNames(g.teams)
  {
    if gs == [] {
      assert [g][1..] == [];
    } else {
      assert (gs + [g])[1..] == gs[1..] + [g];
      AssignedTeamNamesAppend(gs[1..], g);
    }
  }

  /** The test of `filter(t => !assignedTeamNames.includes(t.name))`. */
  function Untaken(taken: seq<Option<string>>): TeamInfo -> bool
  {
    (t: TeamInfo) => Some(t.name) !in taken
  }

  /**
   * The picker's options: the teams whose name is not yet taken to any group,
   * in list order and each as often as in the list.
   */
  function PickerTeams(teamList: seq<TeamInfo>, taken: seq<Option<string>>): (r: seq<TeamInfo>)
    ensures |r| <= |teamList|
    ensures forall j :: 0 <= j < |r| ==> r[j] in teamList && Some(r[j].name) !in taken
    ensures forall j :: 0 <= j < |teamList| && Some(teamList[j].name) !in taken ==> teamList[j] in r
    ensures IsSubsequence(r, teamList)
    ensures forall t :: multiset(r)[t] == if Some(t.name) !in taken then multiset(teamList)[t] else 0
  {
    FilterIsSubsequence(teamList, Untaken(taken));
    FilterCounts(teamList, Untaken(taken));
    Filter(teamList, Untaken(taken))
  }

  /** A group of the loaded tournament: its name and its team assignments, if loaded. */
  datatype LoadedAssignment = LoadedAssignment(team: Option<TeamInfo>)
  datatype LoadedGroup = LoadedGroup(name: string, assignments: Option<seq<LoadedAssignment>>)

  /** The editor's view of a loaded group: `team?.name` per assignment, `[]` when absent. */
  function FromLoaded(g: LoadedGroup): (r: Group)
    ensures r.name == g.name
    ensures g.assignments.None? ==> r.teams == []
    ensures g.assignments.Some? ==> |r.teams| == |g.assignments.value|
    ensures g.assignments.Some? ==> forall j :: 0 <= j < |r.teams| ==>
              r.teams[j].name == (if g.assignments.value[j].team.Some?
                                  then Some(g.assignments.value[j].team.value.name) else None)
  {
    match g.assignments
    case None => Group(g.name, [])
    case Some(a) => Group(g.name, seq(|a|, j requires 0 <= j < |a| =>
                      GroupTeam(if a[j].team.Some? then Some(a[j].team.value.name) else None)))
  }

  /**
   * The initialising effect: without loaded groups nothing changes; groups the
   * editor already holds are kept; only an empty editor takes the loaded groups.
   */
  function InitGroups(prev: seq<Group>, loaded: Option<seq<LoadedGroup>>): (r: seq<Group>)
    ensures loaded.None? || prev != [] ==> r == prev
    ensures loaded.Some? && prev == [] ==> |r| == |loaded.value|
    ensures loaded.Some? && prev == [] ==> forall i :: 0 <= i < |r| ==> r[i] == FromLoaded(loaded.value[i])
  {
    if loaded.None? || |prev| > 0 then prev
    else seq(|loaded.value|, i requires 0 <= i < |loaded.value| => FromLoaded(loaded.value[i]))
  }

  /** One entry of the `groups` field that `handleSave` sends. */
  datatype GroupPayload = GroupPayload(name: string, teamNames: seq<Option<string>>)

  /** The `groups` payload: each group, in order, as its name and its team names in order. */
  function SavePayload(gs: seq<Group>): (r: seq<GroupPayload>)
    ensures |r| == |gs|
    ensures forall i :: 0 <= i < |gs| ==> r[i].name == gs[i].name && r[i].teamNames == TeamNames(gs[i].teams)
  {
    seq(|gs|, i requires 0 <= i < |gs| => GroupPayload(gs[i].name, TeamNames(gs[i].teams)))
  }

  /** The names the payload sends are exactly the taken team names, in the same order. */
  lemma {:induction false} SavePayloadFlattens(gs: seq<Group>)
    ensures Flatten(SavePayload(gs)) == AssignedTeamNames(gs)
  {
    if gs != [] {
      assert SavePayload(gs)[1..] == SavePayload(gs[1..]);
      SavePayloadFlattens(gs[1..]);
    }
  }

  function Flatten(ps: seq<GroupPayload>): seq<Option<string>>
  {
    if ps == [] then [] else ps[0].teamNames + Flatten(ps[1..])
  }

  /** The fields of the form being edited: the name field and the chosen thumbnail, if any. */
  datatype EditData = EditData(name: string, thumbnailFile: Option<ImageKeys.UploadFile>)

  /** The `FormData` of the PATCH request. */
  datatype SaveForm = SaveForm(name: string, groups: seq<GroupPayload>, thumbnail: Option<ImageKeys.UploadFile>)

  /**
   * `handleSave`: nothing is sent without a tournament id; otherwise the form
   * carries the edited name (`editData.name` is a string, so `?? tournament.name`
   * never applies), every group with its team names, and the thumbnail only
   * when one was chosen.
   */
  function HandleSave(tournamentId: Option<string>, tournamentName: string, edit: EditData, gs: seq<Group>)
    : (r: Option<SaveForm>)
    ensures r.None? <==> !Truthy(tournamentId)
    ensures r.Some? ==> r.value.name == edit.name && r.value.thumbnail == edit.thumbnailFile
    ensures r.Some? ==> |r.value.groups| == |gs|
                        && (forall i :: 0 <= i < |gs| ==> r.value.groups[i].name == gs[i].name)
    ensures r.Some? ==> r.value.groups == SavePayload(gs)
    ensures r.Some? ==> Flatten(r.value.groups) == AssignedTeamNames(gs)
  {
    if !Truthy(tournamentId) then None
    else
      SavePayloadFlattens(gs);
      Some(SaveForm(edit.name, SavePayload(gs), edit.thumbnailFile))
  }

  /** The name sent does not depend on the tournament's stored name, even when the edited name is empty. */
  lemma SaveNameNeverFallsBack(id: string, stored1: string, stored2: string, edit: EditData, gs: seq<Group>)
    requires id != ""
    ensures HandleSave(Some(id), stored1, edit, gs) == HandleSave(Some(id), stored2, edit, gs)
    ensures HandleSave(Some(id), stored1, edit, gs).value.name == edit.name
  {
  }
}
