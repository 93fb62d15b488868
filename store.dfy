/**
 * An in-memory stand-in for the database tables that the tournament, match,
 * player and team routes write. Ids are handed out from one counter, so every
 * new row has an id no existing row has.
 */
module Store {

  import opened Wrappers
  import Eliminations

  datatype TournamentRow = TournamentRow(id: nat, name: string, date: string, time: string, image: string)
  datatype TeamTournamentRow = TeamTournamentRow(teamId: nat, tournamentId: nat)
  datatype TeamRow = TeamRow(id: nat, name: string, image: string)
  datatype PlayerRow = PlayerRow(id: nat, name: string, gameName: string, teamId: Option<nat>, image: string)
  datatype MatchRecord = MatchRecord(id: nat, name: string, status: Eliminations.MatchStatus, tournamentId: nat)
  datatype PerformanceRow = PerformanceRow(playerId: nat, matchId: nat)

  class Db {
    var tournaments: seq<TournamentRow>
    var teamTournaments: seq<TeamTournamentRow>
    var teams: seq<TeamRow>
    var players: seq<PlayerRow>
    var matches: seq<MatchRecord>
    var performances: seq<PerformanceRow>
    var nextId: nat

    /** Every id handed out is below the counter, the ids of each table are distinct, and performance rows point to matches already created. */
    ghost predicate Valid()
      reads this
    {
      && TournamentIdsFresh(tournaments, nextId)
      && TeamIdsFresh(teams, nextId)
      && PlayerIdsFresh(players, nextId)
      && MatchIdsFresh(matches, nextId)
      && PerformanceMatchesBelow(performances, nextId)
    }

    constructor ()
      ensures Valid()
      ensures tournaments == [] && teamTournaments == [] && teams == [] && players == []
      ensures matches == [] && performances == [] && nextId == 0
    {
      tournaments, teamTournaments, teams, players := [], [], [], [];
      matches, performances, nextId := [], [], 0;
    }

    /** `team.create`: appends the row under the next id. */
    method InsertTeam(name: string, image: string) returns (id: nat)
      requires Valid()
      modifies this
      ensures Valid()
      ensures id == old(nextId) && nextId == old(nextId) + 1
      ensures teams == old(teams) + [TeamRow(id, name, image)]
      ensures tournaments == old(tournaments) && teamTournaments == old(teamTournaments)
      ensures players == old(players) && matches == old(matches) && performances == old(performances)
    {
      id := nextId;
      teams := teams + [TeamRow(id, name, image)];
      nextId := nextId + 1;
    }

    /** `tournament.create`: appends the row under the next id. */
    method InsertTournament(name: string, date: string, time: string, image: string) returns (id: nat)
      requires Valid()
      modifies this
      ensures Valid()
      ensures id == old(nextId) && nextId == old(nextId) + 1
      ensures tournaments == old(tournaments) + [TournamentRow(id, name, date, time, image)]
      ensures teamTournaments == old(teamTournaments) && teams == old(teams)
      ensures players == old(players) && matches == old(matches) && performances == old(performances)
    {
      id := nextId;
      tournaments := tournaments + [TournamentRow(id, name, date, time, image)];
      nextId := nextId + 1;
    }

    /** `teamTournament.createMany`: appends the link rows. */
    method InsertLinks(rows: seq<TeamTournamentRow>)
      requires Valid()
      modifies this
      ensures Valid()
      ensures teamTournaments == old(teamTournaments) + rows && nextId == old(nextId)
      ensures tournaments == old(tournaments) && teams == old(teams)
      ensures players == old(players) && matches == old(matches) && performances == old(performances)
    {
      teamTournaments := teamTournaments + rows;
    }

    /** `match.create` with status Live: appends the row under the next id. */
    method InsertMatch(name: string, tournamentId: nat) returns (id: nat)
      requires Valid()
      modifies this
      ensures Valid()
      ensures id == old(nextId) && nextId == old(nextId) + 1
      ensures matches == old(matches) + [MatchRecord(id, name, Eliminations.Live, tournamentId)]
      ensures tournaments == old(tournaments) && teamTournaments == old(teamTournaments)
      ensures teams == old(teams) && players == old(players) && performances == old(performances)
    {
      id := nextId;
      matches := matches + [MatchRecord(id, name, Eliminations.Live, tournamentId)];
      nextId := nextId + 1;
    }

    /** `matchPlayerPerformance.createMany`: appends rows of matches that already exist. */
    method InsertPerformances(rows: seq<PerformanceRow>)
      requires Valid()
      requires forall i :: 0 <= i < |rows| ==> rows[i].matchId < nextId
      modifies this
      ensures Valid()
      ensures performances == old(performances) + rows && nextId == old(nextId)
      ensures tournaments == old(tournaments) && teamTournaments == old(teamTournaments)
      ensures teams == old(teams) && players == old(players) && matches == old(matches)
    {
      performances := performances + rows;
    }

    /** `player.create`: appends the row under the next id. */
    method InsertPlayer(name: string, gameName: string, teamId: Option<nat>, image: string) returns (id: nat)
      requires Valid()
      modifies this
      ensures Valid()
      ensures id == old(nextId) && nextId == old(nextId) + 1
      ensures players == old(players) + [PlayerRow(id, name, gameName, teamId, image)]
      ensures tournaments == old(tournaments) && teamTournaments == old(teamTournaments)
      ensures teams == old(teams) && matches == old(matches) && performances == old(performances)
    {
      id := nextId;
      players := players + [PlayerRow(id, name, gameName, teamId, image)];
      nextId := nextId + 1;
    }

    /** `team.update` of an existing id. */
    method SaveTeam(row: TeamRow)
      requires Valid() && TeamById(teams, row.id).Some?
      modifies this
      ensures Valid()
      ensures teams == UpdateTeam(old(teams), row) && nextId == old(nextId)
      ensures tournaments == old(tournaments) && teamTournaments == old(teamTournaments)
      ensures players == old(players) && matches == old(matches) && performances == old(performances)
    {
      UpdateTeamKeepsIds(teams, row, nextId);
      teams := UpdateTeam(teams, row);
    }

    /** `player.update` of an existing id. */
    method SavePlayer(row: PlayerRow)
      requires Valid() && PlayerById(players, row.id).Some?
      modifies this
      ensures Valid()
      ensures players == UpdatePlayer(old(players), row) && nextId == old(nextId)
      ensures tournaments == old(tournaments) && teamTournaments == old(teamTournaments)
      ensures teams == old(teams) && matches == old(matches) && performances == old(performances)
    {
      UpdatePlayerKeepsIds(players, row, nextId);
      players := UpdatePlayer(players, row);
    }
  }

  /** Tournament ids are below the counter and distinct. */
  ghost predicate TournamentIdsFresh(ts: seq<TournamentRow>, bound: nat)
  {
    && (forall i :: 0 <= i < |ts| ==> ts[i].id < bound)
    && (forall i, j :: 0 <= i < j < |ts| ==> ts[i].id != ts[j].id)
  }

  /** Match ids are below the counter and distinct. */
  ghost predicate MatchIdsFresh(ms: seq<MatchRecord>, bound: nat)
  {
    && (forall i :: 0 <= i < |ms| ==> ms[i].id < bound)
    && (forall i, j :: 0 <= i < j < |ms| ==> ms[i].id != ms[j].id)
  }

  ghost predicate PerformanceMatchesBelow(rows: seq<PerformanceRow>, bound: nat)
  {
    forall i :: 0 <= i < |rows| ==> rows[i].matchId < bound
  }

  /** Team ids are below the counter and distinct. */
  ghost predicate TeamIdsFresh(ts: seq<TeamRow>, bound: nat)
  {
    && (forall i :: 0 <= i < |ts| ==> ts[i].id < bound)
    && (forall i, j :: 0 <= i < j < |ts| ==> ts[i].id != ts[j].id)
  }

  /** Player ids are below the counter and distinct. */
  ghost predicate PlayerIdsFresh(ps: seq<PlayerRow>, bound: nat)
  {
    && (forall i :: 0 <= i < |ps| ==> ps[i].id < bound)
    && (forall i, j :: 0 <= i < j < |ps| ==> ps[i].id != ps[j].id)
  }

  /** The team row with the id, if there is one (the first, should ids repeat). */
  function TeamById(teams: seq<TeamRow>, id: nat): (r: Option<TeamRow>)
    ensures r.Some? ==> r.value in teams && r.value.id == id
    ensures r.None? <==> forall j :: 0 <= j < |teams| ==> teams[j].id != id
  {
    if teams == [] then None
    else if teams[0].id == id then Some(teams[0])
    else TeamById(teams[1..], id)
  }

  /** The player row with the id, if there is one (the first, should ids repeat). */
  function PlayerById(players: seq<PlayerRow>, id: nat): (r: Option<PlayerRow>)
    ensures r.Some? ==> r.value in players && r.value.id == id
    ensures r.None? <==> forall j :: 0 <= j < |players| ==> players[j].id != id
  {
    if players == [] then None
    else if players[0].id == id then Some(players[0])
    else PlayerById(players[1..], id)
  }

  /** `team.update({ where: { id }, data })`: every row with the id becomes `row`. */
  function UpdateTeam(teams: seq<TeamRow>, row: TeamRow): (r: seq<TeamRow>)
    ensures |r| == |teams|
    ensures forall j :: 0 <= j < |r| ==> r[j] == (if teams[j].id == row.id then row else teams[j])
  {
    if teams == [] then []
    else [if teams[0].id == row.id then row else teams[0]] + UpdateTeam(teams[1..], row)
  }

  /** `player.update({ where: { id }, data })`: every row with the id becomes `row`. */
  function UpdatePlayer(players: seq<PlayerRow>, row: PlayerRow): (r: seq<PlayerRow>)
    ensures |r| == |players|
    ensures forall j :: 0 <= j < |r| ==> r[j] == (if players[j].id == row.id then row else players[j])
  {
    if players == [] then []
    else [if players[0].id == row.id then row else players[0]] + UpdatePlayer(players[1..], row)
  }

  /** An update keeps every id in place, so ids stay below the counter and distinct. */
  lemma UpdateTeamKeepsIds(teams: seq<TeamRow>, row: TeamRow, bound: nat)
    requires TeamIdsFresh(teams, bound)
    ensures TeamIdsFresh(UpdateTeam(teams, row), bound)
  {
    var r := UpdateTeam(teams, row);
    assert forall i :: 0 <= i < |r| ==> r[i].id == teams[i].id;
  }

  /** After an update of an existing team, looking it up gives the new row, and every other id gives what it gave before. */
  lemma {:induction false} UpdateTeamThenLookup(teams: seq<TeamRow>, row: TeamRow, id: nat)
    requires TeamById(teams, row.id).Some?
    ensures TeamById(UpdateTeam(teams, row), id) == if id == row.id then Some(row) else TeamById(teams, id)
  {
    var tail := UpdateTeam(teams[1..], row);
    if teams[0].id == row.id {
      assert UpdateTeam(teams, row) == [row] + tail;
      if id != row.id {
        assert ([row] + tail)[1..] == tail;
        UpdateTeamThenLookupOther(teams[1..], row, id);
      }
    } else {
      assert UpdateTeam(teams, row) == [teams[0]] + tail;
      assert ([teams[0]] + tail)[1..] == tail;
      if teams[0].id != id {
        UpdateTeamThenLookup(teams[1..], row, id);
      }
    }
  }

  /** An update leaves the lookup of every other id as it was. */
  lemma {:induction false} UpdateTeamThenLookupOther(teams: seq<TeamRow>, row: TeamRow, id: nat)
    requires id != row.id
    ensures TeamById(UpdateTeam(teams, row), id) == TeamById(teams, id)
  {
    if teams != [] {
      var head := if teams[0].id == row.id then row else teams[0];
      var tail := UpdateTeam(teams[1..], row);
      assert UpdateTeam(teams, row) == [head] + tail;
      assert ([head] + tail)[1..] == tail;
      UpdateTeamThenLookupOther(teams[1..], row, id);
    }
  }


  /** An update keeps every id in place, so ids stay below the counter and distinct. */
  lemma UpdatePlayerKeepsIds(players: seq<PlayerRow>, row: PlayerRow, bound: nat)
    requires PlayerIdsFresh(players, bound)
    ensures PlayerIdsFresh(UpdatePlayer(players, row), bound)
  {
    var r := UpdatePlayer(players, row);
    assert forall i :: 0 <= i < |r| ==> r[i].id == players[i].id;
  }

  /** After an update of an existing player, looking it up gives the new row, and every other id gives what it gave before. */
  lemma {:induction false} UpdatePlayerThenLookup(players: seq<PlayerRow>, row: PlayerRow, id: nat)
    requires PlayerById(players, row.id).Some?
    ensures PlayerById(UpdatePlayer(players, row), id) == if id == row.id then Some(row) else PlayerById(players, id)
  {
    var tail := UpdatePlayer(players[1..], row);
    if players[0].id == row.id {
      assert UpdatePlayer(players, row) == [row] + tail;
      if id != row.id {
        assert ([row] + tail)[1..] == tail;
        UpdatePlayerThenLookupOther(players[1..], row, id);
      }
    } else {
      assert UpdatePlayer(players, row) == [players[0]] + tail;
      assert ([players[0]] + tail)[1..] == tail;
      if players[0].id != id {
        UpdatePlayerThenLookup(players[1..], row, id);
      }
    }
  }

  /** An update leaves the lookup of every other id as it was. */
  lemma {:induction false} UpdatePlayerThenLookupOther(players: seq<PlayerRow>, row: PlayerRow, id: nat)
    requires id != row.id
    ensures PlayerById(UpdatePlayer(players, row), id) == PlayerById(players, id)
  {
    if players != [] {
      var head := if players[0].id == row.id then row else players[0];
      var tail := UpdatePlayer(players[1..], row);
      assert UpdatePlayer(players, row) == [head] + tail;
      assert ([head] + tail)[1..] == tail;
      UpdatePlayerThenLookupOther(players[1..], row, id);
    }
  }

}
