/**
 * The live score-entry table of app/components/tournmants/LiveData.tsx: the
 * edits an organiser makes to the selected match's performance rows before
 * submitting them, the per-team grouping the table is drawn from, the title
 * guard for creating a match, and the value shown by the winner selector.
 */
module LiveData {

  import opened Wrappers
  import opened Strings

  datatype TeamRef = TeamRef(name: string)
  datatype PlayerRef = PlayerRef(name: string, team: Option<TeamRef>)

  /** One row of `playerPerformances`; points are the numbers `Number(value)` produced. */
  datatype Performance = Performance(
    id: string,
    player: Option<PlayerRef>,
    status: string,
    placementPoints: int,
    finishesPoints: int,
    totalPoints: int)

  datatype WinTeam = WinTeam(id: string)

  /** The selected match as the page holds it. */
  datatype MatchView = MatchView(
    id: string,
    name: string,
    status: string,
    winTeam: Option<WinTeam>,
    playerPerformances: seq<Performance>)

  /** The two values the status selector offers. */
  datatype LifeStatus = Alive | Dead {
    function Label(): string
    {
      match this
      case Alive => "Alive"
      case Dead => "Dead"
    }
  }

  /** The two point columns an organiser can type into. */
  datatype PointsField = PlacementPoints | FinishesPoints

  /** The stored total agrees with the two point columns. */
  predicate Consistent(p: Performance)
  {
    p.totalPoints == p.placementPoints + p.finishesPoints
  }

  /** The total shown in a table row, computed from the two columns (not the stored total). */
  function RowTotal(p: Performance): int
  {
    p.placementPoints + p.finishesPoints
  }

  /** One performance after the points edit `field := value`, with its total recomputed. */
  function WithPoints(p: Performance, field: PointsField, value: int): (q: Performance)
    ensures Consistent(q)
    ensures q.id == p.id && q.player == p.player && q.status == p.status
    ensures field == PlacementPoints ==> q.placementPoints == value && q.finishesPoints == p.finishesPoints
    ensures field == FinishesPoints ==> q.finishesPoints == value && q.placementPoints == p.placementPoints
  {
    var updated := match field
      case PlacementPoints => p.(placementPoints := value)
      case FinishesPoints => p.(finishesPoints := value);
    updated.(totalPoints := updated.placementPoints + updated.finishesPoints)
  }

  /** The `map` of `handleStatusChange`: every row with the given id gets the new status. */
  function SetStatus(ps: seq<Performance>, id: string, value: LifeStatus): (r: seq<Performance>)
    ensures |r| == |ps|
    ensures forall i :: 0 <= i < |ps| && ps[i].id == id ==> r[i] == ps[i].(status := value.Label())
    ensures forall i :: 0 <= i < |ps| && ps[i].id != id ==> r[i] == ps[i]
  {
    if ps == [] then []
    else
      var head := if ps[0].id == id then ps[0].(status := value.Label()) else ps[0];
      [head] + SetStatus(ps[1..], id, value)
  }

  /** The `map` of `handlePointsChange`: every row with the given id gets the new points and total. */
  function SetPoints(ps: seq<Performance>, id: string, field: PointsField, value: int): (r: seq<Performance>)
    ensures |r| == |ps|
    ensures forall i :: 0 <= i < |ps| && ps[i].id == id ==> r[i] == WithPoints(ps[i], field, value)
    ensures forall i :: 0 <= i < |ps| && ps[i].id != id ==> r[i] == ps[i]
  {
    if ps == [] then []
    else
      var head := if ps[0].id == id then WithPoints(ps[0], field, value) else ps[0];
      [head] + SetPoints(ps[1..], id, field, value)
  }

  /** `handleStatusChange` on the selected match; an absent match stays absent. */
  function StatusChange(prev: Option<MatchView>, id: string, value: LifeStatus): (next: Option<MatchView>)
    ensures next.None? <==> prev.None?
    ensures next.Some? ==> next.value == prev.value.(playerPerformances := next.value.playerPerformances)
  {
    match prev
    case None => None
    case Some(m) => Some(m.(playerPerformances := SetStatus(m.playerPerformances, id, value)))
  }

  /** `handlePointsChange` on the selected match; an absent match stays absent. */
  function PointsChange(prev: Option<MatchView>, id: string, field: PointsField, value: int): (next: Option<MatchView>)
    ensures next.None? <==> prev.None?
    ensures next.Some? ==> next.value == prev.value.(playerPerformances := next.value.playerPerformances)
  {
    match prev
    case None => None
    case Some(m) => Some(m.(playerPerformances := SetPoints(m.playerPerformances, id, field, value)))
  }

  /** An edit an organiser can make in the table. */
  datatype Edit =
    | StatusEdit(id: string, value: LifeStatus)
    | PointsEdit(id: string, field: PointsField, points: int)

  function ApplyEdit(ps: seq<Performance>, e: Edit): (r: seq<Performance>)
    ensures |r| == |ps|
  {
    match e
    case StatusEdit(id, v) => SetStatus(ps, id, v)
    case PointsEdit(id, f, n) => SetPoints(ps, id, f, n)
  }

  /** The edits applied one after another, first edit first. */
  function ApplyEdits(ps: seq<Performance>, edits: seq<Edit>): (r: seq<Performance>)
    ensures |r| == |ps|
    decreases |edits|
  {
    if edits == [] then ps else ApplyEdits(ApplyEdit(ps, edits[0]), edits[1..])
  }

  /** Some points edit in `edits` names `id`. */
  predicate PointsEdited(edits: seq<Edit>, id: string)
  {
    exists j :: 0 <= j < |edits| && edits[j].PointsEdit? && edits[j].id == id
  }

  /** Edits never change a row's id, so the rows stay where they were. */
  lemma {:induction false} ApplyEditsKeepsIds(ps: seq<Performance>, edits: seq<Edit>)
    ensures forall i :: 0 <= i < |ps| ==> ApplyEdits(ps, edits)[i].id == ps[i].id
    decreases |edits|
  {
    if edits != [] {
      var next := ApplyEdit(ps, edits[0]);
      assert forall i :: 0 <= i < |ps| ==> next[i].id == ps[i].id;
      ApplyEditsKeepsIds(next, edits[1..]);
    }
  }

  /** Any edit keeps a consistent row consistent. */
  lemma EditKeepsConsistent(ps: seq<Performance>, e: Edit, i: nat)
    requires i < |ps| && Consistent(ps[i])
    ensures Consistent(ApplyEdit(ps, e)[i])
  {
  }

  /**
   * After any sequence of edits, every row that some points edit touched has
   * `totalPoints == placementPoints + finishesPoints`.
   */
  lemma {:induction false} PointsEditsKeepTotals(ps: seq<Performance>, edits: seq<Edit>, i: nat)
    requires i < |ps| && PointsEdited(edits, ps[i].id)
    ensures Consistent(ApplyEdits(ps, edits)[i])
    decreases |edits|
  {
    var next := ApplyEdit(ps, edits[0]);
    assert next[i].id == ps[i].id;
    if edits[0].PointsEdit? && edits[0].id == ps[i].id {
      assert Consistent(next[i]);
      KeepsConsistent(next, edits[1..], i);
    } else {
      var j :| 0 <= j < |edits| && edits[j].PointsEdit? && edits[j].id == ps[i].id;
      assert j != 0;
      assert edits[1..][j - 1] == edits[j];
      PointsEditsKeepTotals(next, edits[1..], i);
    }
  }

  lemma {:induction false} KeepsConsistent(ps: seq<Performance>, edits: seq<Edit>, i: nat)
    requires i < |ps| && Consistent(ps[i])
    ensures Consistent(ApplyEdits(ps, edits)[i])
    decreases |edits|
  {
    if edits != [] {
      EditKeepsConsistent(ps, edits[0], i);
      KeepsConsistent(ApplyEdit(ps, edits[0]), edits[1..], i);
    }
  }

  /** For a row the table keeps consistent, the total drawn in the row is the stored total. */
  lemma RowTotalOfEditedRow(ps: seq<Performance>, id: string, field: PointsField, value: int, i: nat)
    requires i < |ps| && ps[i].id == id
    ensures RowTotal(SetPoints(ps, id, field, value)[i]) == SetPoints(ps, id, field, value)[i].totalPoints
  {
  }

  /** The bucket a performance is drawn under: its player's team name, or "Unknown Team". */
  function TeamKey(p: Performance): (k: string)
    ensures k != ""
  {
    match p.player
    case Some(PlayerRef(_, Some(TeamRef(name)))) => if name != "" then name else "Unknown Team"
    case _ => "Unknown Team"
  }

  /** The performances of bucket `k`, in table order. */
  function Bucket(ps: seq<Performance>, k: string): (r: seq<Performance>)
    ensures |r| <= |ps|
    ensures forall j :: 0 <= j < |r| ==> TeamKey(r[j]) == k && r[j] in ps
  {
    if ps == [] then []
    else
      var last := ps[|ps| - 1];
      Bucket(ps[..|ps| - 1], k) + (if TeamKey(last) == k then [last] else [])
  }

  /** The bucket names that occur in `ps`. */
  function KeySet(ps: seq<Performance>): (ks: set<string>)
    ensures forall i :: 0 <= i < |ps| ==> TeamKey(ps[i]) in ks
    ensures forall k :: k in ks ==> exists i :: 0 <= i < |ps| && TeamKey(ps[i]) == k
  {
    set i | 0 <= i < |ps| :: TeamKey(ps[i])
  }

  /**
   * `groupedByTeam`: the `reduce` that pushes each performance onto the list of
   * its team's name. Every performance lands in the bucket of its team, and each
   * bucket keeps the table order.
   */
  method GroupByTeam(ps: seq<Performance>) returns (groups: map<string, seq<Performance>>)
    ensures groups.Keys == KeySet(ps)
    ensures forall k :: k in groups ==> groups[k] == Bucket(ps, k)
  {
    groups := map[];
    var i := 0;
    while i < |ps|
      invariant 0 <= i <= |ps|
      invariant GroupedPrefix(groups, ps, i)
    {
      var p := ps[i];
      var teamName := TeamKey(p);
      ghost var before := groups;
      if teamName !in groups {
        groups := groups[teamName := []];
      }
      groups := groups[teamName := groups[teamName] + [p]];
      PushStep(ps, i, before, groups);
      i := i + 1;
    }
    assert ps[..|ps|] == ps;
  }

  /** `groups` is the grouping of the first `i` performances. */
  ghost predicate GroupedPrefix(groups: map<string, seq<Performance>>, ps: seq<Performance>, i: nat)
    requires i <= |ps|
  {
    groups.Keys == KeySet(ps[..i]) && forall k :: k in groups ==> groups[k] == Bucket(ps[..i], k)
  }

  /** Pushing performance `i` onto its team's list extends the grouping by one performance. */
  lemma PushStep(ps: seq<Performance>, i: nat, before: map<string, seq<Performance>>, after: map<string, seq<Performance>>)
    requires i < |ps| && GroupedPrefix(before, ps, i)
    requires after == before[TeamKey(ps[i]) := (if TeamKey(ps[i]) in before then before[TeamKey(ps[i])] else []) + [ps[i]]]
    ensures GroupedPrefix(after, ps, i + 1)
  {
    KeySetStep(ps, i);
    if TeamKey(ps[i]) !in before {
      BucketOfAbsentKey(ps[..i], TeamKey(ps[i]));
    }
    forall k | k in after ensures after[k] == Bucket(ps[..i + 1], k) {
      BucketStep(ps, i, k);
    }
  }

  lemma KeySetStep(ps: seq<Performance>, i: nat)
    requires i < |ps|
    ensures KeySet(ps[..i + 1]) == KeySet(ps[..i]) + {TeamKey(ps[i])}
  {
    var front := ps[..i + 1];
    forall k | k in KeySet(front) ensures k in KeySet(ps[..i]) + {TeamKey(ps[i])} {
      var j :| 0 <= j < i + 1 && TeamKey(front[j]) == k;
      if j < i { assert front[j] == ps[..i][j]; }
    }
    forall k | k in KeySet(ps[..i]) ensures k in KeySet(front) {
      var j :| 0 <= j < i && TeamKey(ps[..i][j]) == k;
      assert front[j] == ps[..i][j];
    }
    assert front[i] == ps[i];
  }

  lemma BucketStep(ps: seq<Performance>, i: nat, k: string)
    requires i < |ps|
    ensures Bucket(ps[..i + 1], k) == Bucket(ps[..i], k) + (if TeamKey(ps[i]) == k then [ps[i]] else [])
  {
    assert ps[..i + 1][..i] == ps[..i];
  }

  lemma {:induction false} BucketOfAbsentKey(ps: seq<Performance>, k: string)
    requires k !in KeySet(ps)
    ensures Bucket(ps, k) == []
  {
    if ps != [] {
      assert KeySet(ps[..|ps| - 1]) <= KeySet(ps) by {
        forall x | x in KeySet(ps[..|ps| - 1]) ensures x in KeySet(ps) {
          var j :| 0 <= j < |ps| - 1 && TeamKey(ps[..|ps| - 1][j]) == x;
          assert ps[..|ps| - 1][j] == ps[j];
        }
      }
      BucketOfAbsentKey(ps[..|ps| - 1], k);
    }
  }

  /** Each performance is in the bucket of its own team. */
  lemma {:induction false} InOwnBucket(ps: seq<Performance>, i: nat)
    requires i < |ps|
    ensures ps[i] in Bucket(ps, TeamKey(ps[i]))
    decreases |ps|
  {
    if i < |ps| - 1 {
      assert ps[..|ps| - 1][i] == ps[i];
      InOwnBucket(ps[..|ps| - 1], i);
    }
  }

  function SumBucketSizes(ps: seq<Performance>, keys: seq<string>): nat
  {
    if keys == [] then 0 else |Bucket(ps, keys[0])| + SumBucketSizes(ps, keys[1..])
  }

  predicate Distinct(keys: seq<string>)
  {
    forall a, b :: 0 <= a < b < |keys| ==> keys[a] != keys[b]
  }

  /**
   * The buckets partition the performances: summed over all bucket names, the
   * bucket sizes add up to the number of performances, so none is lost or doubled.
   */
  lemma {:induction false} BucketsPartition(ps: seq<Performance>, keys: seq<string>)
    requires Distinct(keys)
    requires forall i :: 0 <= i < |ps| ==> TeamKey(ps[i]) in keys
    ensures SumBucketSizes(ps, keys) == |ps|
    decreases |ps|
  {
    if ps == [] {
      SumOfEmpty(keys);
    } else {
      var front := ps[..|ps| - 1];
      forall i | 0 <= i < |front| ensures TeamKey(front[i]) in keys {
        assert front[i] == ps[i];
      }
      BucketsPartition(front, keys);
      SumAfterPush(front, ps[|ps| - 1], keys);
      assert front + [ps[|ps| - 1]] == ps;
    }
  }

  lemma {:induction false} SumOfEmpty(keys: seq<string>)
    ensures SumBucketSizes([], keys) == 0
    decreases |keys|
  {
    if keys != [] { SumOfEmpty(keys[1..]); }
  }

  lemma {:induction false} SumAfterPush(ps: seq<Performance>, p: Performance, keys: seq<string>)
    requires Distinct(keys)
    ensures SumBucketSizes(ps + [p], keys)
         == SumBucketSizes(ps, keys) + (if TeamKey(p) in keys then 1 else 0)
    decreases |keys|
  {
    if keys != [] {
      assert (ps + [p])[..|ps + [p]| - 1] == ps;
      assert Distinct(keys[1..]) by {
        forall a, b | 0 <= a < b < |keys[1..]| ensures keys[1..][a] != keys[1..][b] {
          assert keys[1..][a] == keys[a + 1] && keys[1..][b] == keys[b + 1];
        }
      }
      SumAfterPush(ps, p, keys[1..]);
      assert TeamKey(p) in keys <==> TeamKey(p) == keys[0] || TeamKey(p) in keys[1..];
    }
  }

  /** The body `handleCreateMatch` posts to /api/match. */
  datatype CreateMatchBody = CreateMatchBody(title: string, tournamentId: Option<nat>, group: string)

  /**
   * The request `handleCreateMatch` sends: none when the title is blank after
   * trimming; otherwise the untrimmed title with the tournament id and group.
   */
  function CreateMatchRequest(title: string, tournamentId: Option<nat>, group: string): (r: Option<CreateMatchBody>)
    ensures r.None? <==> IsBlank(title)
    ensures r.Some? ==> r.value == CreateMatchBody(title, tournamentId, group)
  {
    TrimEmptyIffBlank(title);
    if Trim(title) == "" then None else Some(CreateMatchBody(title, tournamentId, group))
  }

  /** `selectedMatch?.winTeam?.id || winningTeamId || ""`. */
  function WinnerSelectValue(selected: Option<MatchView>, winningTeamId: Option<string>): (v: string)
  {
    var stored := if selected.Some? && selected.value.winTeam.Some?
                  then Some(selected.value.winTeam.value.id) else None;
    if Truthy(stored) then stored.value
    else if Truthy(winningTeamId) then winningTeamId.value
    else ""
  }

  /** The selector shows the stored winner if there is one, else the local choice, else nothing. */
  lemma WinnerSelectPriority(selected: Option<MatchView>, winningTeamId: Option<string>)
    ensures selected.Some? && selected.value.winTeam.Some? && selected.value.winTeam.value.id != ""
            ==> WinnerSelectValue(selected, winningTeamId) == selected.value.winTeam.value.id
    ensures (selected.None? || selected.value.winTeam.None? || selected.value.winTeam.value.id == "")
            ==> WinnerSelectValue(selected, winningTeamId)
                == (if Truthy(winningTeamId) then winningTeamId.value else "")
  {
  }

  /**
   * The page state the table edits: the selected match, the locally chosen
   * winner, and the two inputs of the create-match form.
   */
  class LiveDataState {
    var selectedMatch: Option<MatchView>
    var winningTeamId: Option<string>
    var newMatchTitle: string
    var selectedGroup: string

    constructor (initial: Option<MatchView>)
      ensures selectedMatch == initial && winningTeamId == None
      ensures newMatchTitle == "" && selectedGroup == ""
    {
      selectedMatch := initial;
      winningTeamId := None;
      newMatchTitle := "";
      selectedGroup := "";
    }

    /** Choosing a winner in the selector. */
    method ChooseWinner(id: string)
      modifies this
      ensures winningTeamId == Some(id)
      ensures selectedMatch == old(selectedMatch) && newMatchTitle == old(newMatchTitle)
      ensures selectedGroup == old(selectedGroup)
    {
      winningTeamId := Some(id);
    }

    /**
     * `handleStatusChange`. A present match is replaced by a new object, which
     * re-runs the effect on `selectedMatch` and clears the chosen winner.
     */
    method HandleStatusChange(id: string, value: LifeStatus)
      modifies this
      ensures selectedMatch == StatusChange(old(selectedMatch), id, value)
      ensures winningTeamId == if old(selectedMatch).Some? then None else old(winningTeamId)
      ensures newMatchTitle == old(newMatchTitle) && selectedGroup == old(selectedGroup)
    {
      if selectedMatch.Some? {
        selectedMatch := StatusChange(selectedMatch, id, value);
        winningTeamId := None;
      }
    }

    /** `handlePointsChange`, with the same effect on the chosen winner. */
    method HandlePointsChange(id: string, field: PointsField, value: int)
      modifies this
      ensures selectedMatch == PointsChange(old(selectedMatch), id, field, value)
      ensures winningTeamId == if old(selectedMatch).Some? then None else old(winningTeamId)
      ensures newMatchTitle == old(newMatchTitle) && selectedGroup == old(selectedGroup)
    {
      if selectedMatch.Some? {
        selectedMatch := PointsChange(selectedMatch, id, field, value);
        winningTeamId := None;
      }
    }

    /**
     * `handleCreateMatch` for a tournament: returns the request it sends (none
     * for a blank title); the form is cleared only when the server answers ok.
     */
    method HandleCreateMatch(tournamentId: Option<nat>, serverOk: bool) returns (sent: Option<CreateMatchBody>)
      modifies this
      ensures sent == CreateMatchRequest(old(newMatchTitle), tournamentId, old(selectedGroup))
      ensures selectedMatch == old(selectedMatch) && winningTeamId == old(winningTeamId)
      ensures if sent.Some? && serverOk then newMatchTitle == "" && selectedGroup == ""
              else newMatchTitle == old(newMatchTitle) && selectedGroup == old(selectedGroup)
    {
      sent := CreateMatchRequest(newMatchTitle, tournamentId, selectedGroup);
      if sent.Some? && serverOk {
        selectedGroup := "";
        newMatchTitle := "";
      }
    }
  }
}
