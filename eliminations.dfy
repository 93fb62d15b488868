/**
 * The elimination sweep of app/api/cron/eliminations/route.ts, over an
 * in-memory copy of the `match` and `matchTeam` tables, and the one-row
 * "display" update that app/api/team/display/route.ts and the queue worker
 * perform.
 */
module Eliminations {

  datatype MatchStatus = Live | Completed

  datatype TeamStatus = TeamLive | Eliminated | Displayed

  /** A `match` row, with its last update time in milliseconds. */
  datatype MatchRow = MatchRow(id: nat, status: MatchStatus, updatedAt: int)

  /** A `matchTeam` row. */
  datatype MatchTeamRow = MatchTeamRow(id: nat, matchId: nat, status: TeamStatus)

  /** The delay after which an elimination is shown: two minutes, in milliseconds. */
  const DisplayDelayMs: int := 2 * 60 * 1000

  /** `twoMinutesAgo`. */
  function Cutoff(now: int): (c: int)
    ensures c == now - 120000
  {
    now - DisplayDelayMs
  }

  /** The `findMany` filter: a Live match last updated strictly before the cutoff. */
  predicate Selected(m: MatchRow, now: int)
  {
    m.status == Live && m.updatedAt < Cutoff(now)
  }

  /** The ids of the selected matches, in table order. */
  function SelectedIds(matches: seq<MatchRow>, now: int): (ids: seq<nat>)
    ensures |ids| <= |matches|
    ensures forall i :: 0 <= i < |matches| && Selected(matches[i], now) ==> matches[i].id in ids
    ensures forall j :: 0 <= j < |ids| ==>
              exists i :: 0 <= i < |matches| && matches[i].id == ids[j] && Selected(matches[i], now)
  {
    if matches == [] then []
    else
      var rest := SelectedIds(matches[1..], now);
      assert forall i :: 1 <= i < |matches| ==> matches[i] == matches[1..][i - 1];
      if Selected(matches[0], now) then [matches[0].id] + rest else rest
  }

  /** A team row after the `updateMany` of the matches in `swept`. */
  function SweepTeam(t: MatchTeamRow, swept: seq<nat>): (r: MatchTeamRow)
    ensures r.id == t.id && r.matchId == t.matchId
    ensures r != t ==> t.status == Eliminated && r.status == Displayed
  {
    if t.matchId in swept && t.status == Eliminated then t.(status := Displayed) else t
  }

  /** Sweeping one more match is the sweep so far followed by that match's `updateMany`. */
  lemma SweepStep(t: MatchTeamRow, swept: seq<nat>, id: nat)
    ensures SweepTeam(t, swept + [id]) == SweepTeam(SweepTeam(t, swept), [id])
  {
    assert t.matchId in swept + [id] <==> t.matchId in swept || t.matchId == id;
  }

  /** The same step for a whole table. */
  lemma SweepAllStep(ts: seq<MatchTeamRow>, swept: seq<nat>, id: nat)
    ensures SweepAll(SweepAll(ts, swept), [id]) == SweepAll(ts, swept + [id])
  {
    forall i | 0 <= i < |ts|
      ensures SweepAll(SweepAll(ts, swept), [id])[i] == SweepAll(ts, swept + [id])[i]
    {
      SweepStep(ts[i], swept, id);
    }
  }

  /** What the sweep processes before a fault stops it. */
  datatype Fault = NoFault | QueryFails | UpdateFails(index: nat)

  /** The selected match ids whose `updateMany` ran before the fault, if any. */
  function Processed(matches: seq<MatchRow>, now: int, fault: Fault): (ids: seq<nat>)
    ensures forall id :: id in ids ==> id in SelectedIds(matches, now)
  {
    var sel := SelectedIds(matches, now);
    match fault
    case NoFault => sel
    case QueryFails => []
    case UpdateFails(k) => if k < |sel| then sel[..k] else sel
  }

  /**
   * `runEliminationCron` at time `now`: for each selected match, in order, the
   * `updateMany` that turns its Eliminated teams into Displayed ones. A fault
   * raised by the query or by one of the updates ends the sweep; the updates
   * made before it stay, and the error is only logged.
   */
  method RunEliminationCron(matches: seq<MatchRow>, teams: array<MatchTeamRow>, now: int, fault: Fault)
    modifies teams
    ensures forall i :: 0 <= i < teams.Length ==> teams[i] == SweepTeam(old(teams[i]), Processed(matches, now, fault))
  {
    if fault == QueryFails {
      return;
    }
    var selected := SelectedIds(matches, now);
    var limit := if fault.UpdateFails? && fault.index < |selected| then fault.index else |selected|;
    assert selected[..limit] == Processed(matches, now, fault);
    SweepMatches(teams, selected[..limit]);
  }

  /** The `for` loop: one `updateMany` per listed match, in order. */
  method SweepMatches(teams: array<MatchTeamRow>, ids: seq<nat>)
    modifies teams
    ensures teams[..] == SweepAll(old(teams[..]), ids)
  {
    ghost var before := teams[..];
    var m := 0;
    while m < |ids|
      invariant 0 <= m <= |ids|
      invariant teams[..] == SweepAll(before, ids[..m])
    {
      UpdateEliminated(teams, ids[m]);
      assert ids[..m + 1] == ids[..m] + [ids[m]];
      SweepAllStep(before, ids[..m], ids[m]);
      m := m + 1;
    }
    assert ids[..m] == ids;
  }

  /** `prisma.matchTeam.updateMany({ where: { matchId, status: "Eliminated" }, data: { status: "Displayed" } })`. */
  method UpdateEliminated(teams: array<MatchTeamRow>, matchId: nat)
    modifies teams
    ensures forall i :: 0 <= i < teams.Length ==> teams[i] == SweepTeam(old(teams[i]), [matchId])
    ensures teams[..] == SweepAll(old(teams[..]), [matchId])
  {
    var j := 0;
    while j < teams.Length
      invariant 0 <= j <= teams.Length
      invariant forall i :: 0 <= i < j ==> teams[i] == SweepTeam(old(teams[i]), [matchId])
      invariant forall i :: j <= i < teams.Length ==> teams[i] == old(teams[i])
    {
      if teams[j].matchId == matchId && teams[j].status == Eliminated {
        teams[j] := teams[j].(status := Displayed);
      }
      j := j + 1;
    }
    assert forall i :: 0 <= i < teams.Length ==> teams[..][i] == SweepAll(old(teams[..]), [matchId])[i];
  }

  /** The cron GET: runs the sweep and answers success whatever happened. */
  method Get(matches: seq<MatchRow>, teams: array<MatchTeamRow>, now: int, fault: Fault) returns (success: bool)
    modifies teams
    ensures success
    ensures forall i :: 0 <= i < teams.Length ==> teams[i] == SweepTeam(old(teams[i]), Processed(matches, now, fault))
  {
    RunEliminationCron(matches, teams, now, fault);
    success := true;
  }

  /** Sweep of a whole table, as a function of its rows. */
  function SweepAll(ts: seq<MatchTeamRow>, swept: seq<nat>): (r: seq<MatchTeamRow>)
    ensures |r| == |ts|
    ensures forall i :: 0 <= i < |ts| ==> r[i] == SweepTeam(ts[i], swept)
  {
    if ts == [] then [] else [SweepTeam(ts[0], swept)] + SweepAll(ts[1..], swept)
  }

  /**
   * A row changes exactly when it is an Eliminated team of a swept match, and
   * then only its status changes, to Displayed: teams with other statuses and
   * teams of matches that are not swept (Completed or recently updated) stay.
   */
  lemma SweepChangesOnlyEliminated(t: MatchTeamRow, matches: seq<MatchRow>, now: int)
    ensures var swept := SelectedIds(matches, now);
            SweepTeam(t, swept) != t
            <==> t.status == Eliminated
                 && exists i :: 0 <= i < |matches| && matches[i].id == t.matchId
                                && matches[i].status == Live && matches[i].updatedAt < now - 120000
    ensures SweepTeam(t, SelectedIds(matches, now)) != t
            ==> SweepTeam(t, SelectedIds(matches, now)) == t.(status := Displayed)
  {
  }

  /** A match whose id never belongs to a selected row keeps all its teams. */
  lemma UnsweptMatchUntouched(ts: seq<MatchTeamRow>, matches: seq<MatchRow>, now: int, matchId: nat)
    requires forall i :: 0 <= i < |matches| && matches[i].id == matchId ==> !Selected(matches[i], now)
    ensures forall i :: 0 <= i < |ts| && ts[i].matchId == matchId ==> SweepAll(ts, SelectedIds(matches, now))[i] == ts[i]
  {
  }

  /** A second sweep at the same instant over the same matches changes nothing. */
  lemma {:induction false} SweepIdempotent(ts: seq<MatchTeamRow>, swept: seq<nat>)
    ensures SweepAll(SweepAll(ts, swept), swept) == SweepAll(ts, swept)
  {
    if ts != [] {
      SweepIdempotent(ts[1..], swept);
      assert SweepAll(ts, swept)[1..] == SweepAll(ts[1..], swept);
    }
  }

  /** Position of a status on the path Live, Eliminated, Displayed. */
  function StatusRank(s: TeamStatus): nat
  {
    match s
    case TeamLive => 0
    case Eliminated => 1
    case Displayed => 2
  }

  /** The sweep only moves a team forward, from Eliminated to Displayed. */
  lemma SweepNeverRegresses(t: MatchTeamRow, swept: seq<nat>)
    ensures StatusRank(SweepTeam(t, swept).status) >= StatusRank(t.status)
    ensures t.status != Eliminated ==> SweepTeam(t, swept) == t
  {
  }

  /**
   * `matchTeam.update({ where: { id }, data: { status: "Displayed" } })`, the
   * display route and the queue worker: the row with the id becomes Displayed
   * whatever its status was (a Live team skips Eliminated); an unknown id is a
   * not-found error and changes nothing.
   */
  method DisplayTeam(teams: array<MatchTeamRow>, id: nat) returns (found: bool)
    requires forall i, j :: 0 <= i < j < teams.Length ==> teams[i].id != teams[j].id
    modifies teams
    ensures found <==> exists i :: 0 <= i < teams.Length && old(teams[i]).id == id
    ensures forall i :: 0 <= i < teams.Length ==>
              teams[i] == if old(teams[i]).id == id then old(teams[i]).(status := Displayed) else old(teams[i])
  {
    var j := 0;
    while j < teams.Length && teams[j].id != id
      invariant 0 <= j <= teams.Length
      invariant forall i :: 0 <= i < j ==> teams[i].id != id
    {
      j := j + 1;
    }
    found := j < teams.Length;
    if found {
      teams[j] := teams[j].(status := Displayed);
    }
  }
}
