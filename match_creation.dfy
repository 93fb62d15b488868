/**
 * `POST /api/match` (app/api/match/route.ts): creates a Live match and one
 * performance row for every player of every team registered to the tournament.
 */
module MatchCreation {

  import opened Wrappers
  import opened Store
  import Eliminations
  import Seqs

  /** The fields of the request body that the handler reads (the `group` it is sent is ignored). */
  datatype MatchRequest = MatchRequest(title: string, tournamentId: nat)

  /** Where a database call throws, if anywhere. */
  datatype Fault = NoFault | MatchInsertFails | QueryFails | PerformanceInsertFails

  datatype MatchResponse = Success | Failed {
    /** The HTTP status the handler answers with. */
    function Status(): nat
    {
      if Success? then 200 else 500
    }
  }

  /** A team as `include: { team: { include: { players: true } } }` returns it. */
  datatype TeamWithPlayers = TeamWithPlayers(team: TeamRow, players: seq<PlayerRow>)

  /** A `teamTournament` row with its team, which may be missing. */
  datatype Registration = Registration(team: Option<TeamWithPlayers>)

  /** The test of the `players` relation: the player's `teamId` is the team's id. */
  function OnTeam(teamId: nat): PlayerRow -> bool
  {
    (p: PlayerRow) => p.teamId == Some(teamId)
  }

  /**
   * The players whose team is `teamId`: every one of them, in table order and
   * each as often as in the table, and no other player.
   */
  function PlayersOfTeam(players: seq<PlayerRow>, teamId: nat): (r: seq<PlayerRow>)
    ensures forall j :: 0 <= j < |r| ==> r[j] in players && r[j].teamId == Some(teamId)
    ensures forall j :: 0 <= j < |players| && players[j].teamId == Some(teamId) ==> players[j] in r
    ensures Seqs.IsSubsequence(r, players)
    ensures forall p :: multiset(r)[p] == if p.teamId == Some(teamId) then multiset(players)[p] else 0
  {
    Seqs.FilterIsSubsequence(players, OnTeam(teamId));
    Seqs.FilterCounts(players, OnTeam(teamId));
    Seqs.Filter(players, OnTeam(teamId))
  }

  /** The `teamTournament.findMany` of the tournament, with teams and their players joined in. */
  function RegistrationsOf(links: seq<TeamTournamentRow>, teams: seq<TeamRow>, players: seq<PlayerRow>,
                           tournamentId: nat): (r: seq<Registration>)
    ensures |r| <= |links|
    ensures forall j :: 0 <= j < |r| && r[j].team.Some? ==>
              r[j].team.value.team in teams
              && r[j].team.value.players == PlayersOfTeam(players, r[j].team.value.team.id)
  {
    if links == [] then []
    else
      var rest := RegistrationsOf(links[1..], teams, players, tournamentId);
      if links[0].tournamentId != tournamentId then rest
      else
        var team := match TeamById(teams, links[0].teamId)
          case None => None
          case Some(t) => Some(TeamWithPlayers(t, PlayersOfTeam(players, t.id)));
        [Registration(team)] + rest
  }

  /** `teamTournaments.flatMap(tt => tt.team?.players ?? [])`. */
  function CollectPlayers(regs: seq<Registration>): seq<PlayerRow>
  {
    if regs == [] then []
    else (if regs[0].team.Some? then regs[0].team.value.players else []) + CollectPlayers(regs[1..])
  }

  /** Collection distributes over the registration list, so players come out registration by registration. */
  lemma {:induction false} CollectPlayersAppend(a: seq<Registration>, b: seq<Registration>)
    ensures CollectPlayers(a + b) == CollectPlayers(a) + CollectPlayers(b)
  {
    if a != [] {
      assert (a + b)[0] == a[0] && (a + b)[1..] == a[1..] + b;
      CollectPlayersAppend(a[1..], b);
      assert CollectPlayers(a + b) == (if a[0].team.Some? then a[0].team.value.players else []) + CollectPlayers(a[1..] + b);
    } else {
      assert a + b == b;
    }
  }

  /** Link row `l` registers to the tournament an existing team that player `p` belongs to. */
  predicate Registers(l: TeamTournamentRow, teams: seq<TeamRow>, tournamentId: nat, p: PlayerRow)
  {
    l.tournamentId == tournamentId && TeamById(teams, l.teamId).Some? && p.teamId == Some(l.teamId)
  }

  /**
   * The join behind `POST /api/match`: a player gets a performance row exactly
   * when it is in the player table, some link row registers its team to the
   * tournament, and that team exists.
   */
  lemma {:induction false} JoinedPlayers(links: seq<TeamTournamentRow>, teams: seq<TeamRow>, players: seq<PlayerRow>,
                                         tournamentId: nat, p: PlayerRow)
    ensures p in CollectPlayers(RegistrationsOf(links, teams, players, tournamentId))
            <==> p in players && exists i :: 0 <= i < |links| && Registers(links[i], teams, tournamentId, p)
  {
    if links != [] {
      JoinedPlayers(links[1..], teams, players, tournamentId, p);
      JoinedHead(links, teams, players, tournamentId, p);
      if exists i :: 0 <= i < |links| && Registers(links[i], teams, tournamentId, p) {
        var i :| 0 <= i < |links| && Registers(links[i], teams, tournamentId, p);
        if i > 0 {
          assert links[1..][i - 1] == links[i];
        }
      }
    }
  }

  /** The first link row contributes its team's players, if it registers an existing team to the tournament. */
  lemma JoinedHead(links: seq<TeamTournamentRow>, teams: seq<TeamRow>, players: seq<PlayerRow>, tournamentId: nat, p: PlayerRow)
    requires links != []
    ensures p in CollectPlayers(RegistrationsOf(links, teams, players, tournamentId))
            <==> (p in players && Registers(links[0], teams, tournamentId, p))
                 || p in CollectPlayers(RegistrationsOf(links[1..], teams, players, tournamentId))
  {
    var rest := RegistrationsOf(links[1..], teams, players, tournamentId);
    if links[0].tournamentId == tournamentId {
      var reg := RegistrationsOf(links, teams, players, tournamentId);
      assert reg[1..] == rest;
      assert CollectPlayers(reg) == (if reg[0].team.Some? then reg[0].team.value.players else []) + CollectPlayers(rest);
    }
  }

  /** A registration without a team contributes no player; one with a team contributes its players in order. */
  lemma CollectPlayersSingle(r: Registration)
    ensures CollectPlayers([r]) == if r.team.Some? then r.team.value.players else []
  {
    assert [r][1..] == [];
  }

  /** A player is collected exactly when some registration's team lists it. */
  lemma {:induction false} CollectPlayersMembership(regs: seq<Registration>, p: PlayerRow)
    ensures p in CollectPlayers(regs)
            <==> exists i :: 0 <= i < |regs| && regs[i].team.Some? && p in regs[i].team.value.players
  {
    if regs != [] {
      CollectPlayersMembership(regs[1..], p);
      if exists i :: 0 <= i < |regs[1..]| && regs[1..][i].team.Some? && p in regs[1..][i].team.value.players {
        var i :| 0 <= i < |regs[1..]| && regs[1..][i].team.Some? && p in regs[1..][i].team.value.players;
        assert regs[i + 1] == regs[1..][i];
      }
      if exists i :: 0 <= i < |regs| && regs[i].team.Some? && p in regs[i].team.value.players {
        var i :| 0 <= i < |regs| && regs[i].team.Some? && p in regs[i].team.value.players;
        if i > 0 { assert regs[1..][i - 1] == regs[i]; }
      }
    }
  }

  /** The rows `createMany` inserts: one per player, in order, with the player's id and the match's id. */
  function PerformanceRows(players: seq<PlayerRow>, matchId: nat): (r: seq<PerformanceRow>)
    ensures |r| == |players|
    ensures forall j :: 0 <= j < |r| ==> r[j] == PerformanceRow(players[j].id, matchId)
  {
    seq(|players|, j requires 0 <= j < |players| => PerformanceRow(players[j].id, matchId))
  }

  /** The performance rows that belong to a match, in table order. */
  function RowsOfMatch(rows: seq<PerformanceRow>, matchId: nat): (r: seq<PerformanceRow>)
    ensures |r| <= |rows|
  {
    if rows == [] then []
    else (if rows[0].matchId == matchId then [rows[0]] else []) + RowsOfMatch(rows[1..], matchId)
  }

  lemma {:induction false} RowsOfMatchAppend(a: seq<PerformanceRow>, b: seq<PerformanceRow>, matchId: nat)
    ensures RowsOfMatch(a + b, matchId) == RowsOfMatch(a, matchId) + RowsOfMatch(b, matchId)
  {
    if a != [] {
      assert (a + b)[0] == a[0] && (a + b)[1..] == a[1..] + b;
      RowsOfMatchAppend(a[1..], b, matchId);
      assert RowsOfMatch(a + b, matchId) == (if a[0].matchId == matchId then [a[0]] else []) + RowsOfMatch(a[1..] + b, matchId);
    } else {
      assert a + b == b;
    }
  }

  lemma {:induction false} RowsOfMatchNone(rows: seq<PerformanceRow>, matchId: nat)
    requires forall j :: 0 <= j < |rows| ==> rows[j].matchId != matchId
    ensures RowsOfMatch(rows, matchId) == []
  {
    if rows != [] { RowsOfMatchNone(rows[1..], matchId); }
  }

  lemma {:induction false} RowsOfMatchAll(rows: seq<PerformanceRow>, matchId: nat)
    requires forall j :: 0 <= j < |rows| ==> rows[j].matchId == matchId
    ensures RowsOfMatch(rows, matchId) == rows
  {
    if rows != [] { RowsOfMatchAll(rows[1..], matchId); }
  }

  /**
   * The new match's rows in the performance table are exactly the rows the
   * handler inserted, since every older row belongs to an older match.
   */
  lemma NewMatchRows(rows: seq<PerformanceRow>, players: seq<PlayerRow>, matchId: nat)
    requires forall j :: 0 <= j < |rows| ==> rows[j].matchId < matchId
    ensures RowsOfMatch(rows + PerformanceRows(players, matchId), matchId) == PerformanceRows(players, matchId)
  {
    RowsOfMatchAppend(rows, PerformanceRows(players, matchId), matchId);
    RowsOfMatchNone(rows, matchId);
    RowsOfMatchAll(PerformanceRows(players, matchId), matchId);
  }

  /** The handler answers 500 for a fault in a call it actually makes. */
  predicate Fails(fault: Fault, playerCount: nat)
  {
    fault == MatchInsertFails || fault == QueryFails || (fault == PerformanceInsertFails && playerCount > 0)
  }

  /**
   * The handler. The match row is inserted first; if a later call throws, the
   * answer is 500 and the match stays without performance rows (the handler is
   * not atomic). On success one performance row per collected player is
   * appended (see NewMatchRows); with no players nothing is bulk-inserted.
   */
  method PostMatch(db: Db, body: MatchRequest, fault: Fault) returns (resp: MatchResponse)
    requires db.Valid()
    modifies db
    ensures db.Valid()
    ensures db.tournaments == old(db.tournaments) && db.teamTournaments == old(db.teamTournaments)
    ensures db.teams == old(db.teams) && db.players == old(db.players)
    ensures var players := CollectPlayers(RegistrationsOf(old(db.teamTournaments), old(db.teams), old(db.players), body.tournamentId));
            resp == (if Fails(fault, |players|) then Failed else Success)
    ensures fault == MatchInsertFails ==> db.matches == old(db.matches) && db.nextId == old(db.nextId)
    ensures fault != MatchInsertFails ==>
              db.matches == old(db.matches) + [MatchRecord(old(db.nextId), body.title, Eliminations.Live, body.tournamentId)]
    ensures var players := CollectPlayers(RegistrationsOf(old(db.teamTournaments), old(db.teams), old(db.players), body.tournamentId));
            db.performances == old(db.performances) + (if resp.Success? then PerformanceRows(players, old(db.nextId)) else [])
  {
    if fault == MatchInsertFails {
      return Failed;
    }
    var matchId := db.InsertMatch(body.title, body.tournamentId);
    var players := CollectPlayers(RegistrationsOf(db.teamTournaments, db.teams, db.players, body.tournamentId));
    if fault == QueryFails {
      return Failed;
    }
    if |players| > 0 {
      if fault == PerformanceInsertFails {
        return Failed;
      }
      db.InsertPerformances(PerformanceRows(players, matchId));
    }
    return Success;
  }
}
