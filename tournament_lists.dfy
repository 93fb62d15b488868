/**
 * The live, upcoming and past lists of the tournaments page
 * (app/tournaments/page.tsx), and the live filter the home page shares.
 */
module TournamentLists {

  import opened Wrappers
  import opened Seqs
  import Eliminations

  datatype MatchSummary = MatchSummary(id: string, status: Eliminations.MatchStatus)

  /**
   * A fetched tournament. `day` is its date normalised to local midnight, in
   * milliseconds; `None` when the date does not parse (`getTime()` is NaN).
   */
  datatype TournamentCard = TournamentCard(id: nat, name: string, time: string, day: Option<int>, matches: seq<MatchSummary>)

  /** `t.matches.some(match => match.status === "Live")`. */
  predicate IsLive(t: TournamentCard)
  {
    exists i :: 0 <= i < |t.matches| && t.matches[i].status == Eliminations.Live
  }

  /** Dated strictly after today; an unparsable date compares false. */
  predicate IsUpcoming(t: TournamentCard, today: int)
  {
    t.day.Some? && t.day.value > today
  }

  /** Dated strictly before today; an unparsable date compares false. */
  predicate IsPast(t: TournamentCard, today: int)
  {
    t.day.Some? && t.day.value < today
  }

  function UpcomingOn(today: int): TournamentCard -> bool
  {
    t => IsUpcoming(t, today)
  }

  function PastOn(today: int): TournamentCard -> bool
  {
    t => IsPast(t, today)
  }

  function LiveTournaments(ts: seq<TournamentCard>): seq<TournamentCard>
  {
    Filter(ts, IsLive)
  }

  function UpcomingTournaments(ts: seq<TournamentCard>, today: int): seq<TournamentCard>
  {
    Filter(ts, UpcomingOn(today))
  }

  function PastTournaments(ts: seq<TournamentCard>, today: int): seq<TournamentCard>
  {
    Filter(ts, PastOn(today))
  }

  /** Each list holds exactly the fetched tournaments of its kind. */
  lemma ListsMembership(ts: seq<TournamentCard>, today: int, t: TournamentCard)
    ensures t in LiveTournaments(ts) <==> t in ts && IsLive(t)
    ensures t in UpcomingTournaments(ts, today) <==> t in ts && IsUpcoming(t, today)
    ensures t in PastTournaments(ts, today) <==> t in ts && IsPast(t, today)
  {
    var live, up, past := LiveTournaments(ts), UpcomingTournaments(ts, today), PastTournaments(ts, today);
    if t in live {
      var i :| 0 <= i < |live| && live[i] == t;
    }
    if t in up {
      var i :| 0 <= i < |up| && up[i] == t;
      assert UpcomingOn(today)(up[i]);
    }
    if t in past {
      var i :| 0 <= i < |past| && past[i] == t;
      assert PastOn(today)(past[i]);
    }
    if t in ts {
      var i :| 0 <= i < |ts| && ts[i] == t;
      if IsUpcoming(t, today) { assert UpcomingOn(today)(ts[i]); }
      if IsPast(t, today) { assert PastOn(today)(ts[i]); }
    }
  }

  /** Each list keeps the fetched order: it is a subsequence of the fetched list. */
  lemma ListsAreSubsequences(ts: seq<TournamentCard>, today: int)
    ensures IsSubsequence(LiveTournaments(ts), ts)
    ensures IsSubsequence(UpcomingTournaments(ts, today), ts)
    ensures IsSubsequence(PastTournaments(ts, today), ts)
  {
    FilterIsSubsequence(ts, IsLive);
    FilterIsSubsequence(ts, UpcomingOn(today));
    FilterIsSubsequence(ts, PastOn(today));
  }

  /** A tournament dated today, or with a date that does not parse, is neither upcoming nor past. */
  lemma TodayIsNeither(t: TournamentCard, today: int)
    requires t.day == Some(today) || t.day.None?
    ensures !IsUpcoming(t, today) && !IsPast(t, today)
  {
  }

  /** No tournament is both upcoming and past. */
  lemma UpcomingPastDisjoint(ts: seq<TournamentCard>, today: int)
    ensures forall i :: 0 <= i < |UpcomingTournaments(ts, today)| ==>
              UpcomingTournaments(ts, today)[i] !in PastTournaments(ts, today)
  {
    FilterDisjoint(ts, UpcomingOn(today), PastOn(today));
  }

  /** Whether a tournament is live does not depend on its date. */
  lemma LiveIgnoresDate(t: TournamentCard, day: Option<int>)
    ensures IsLive(t.(day := day)) <==> IsLive(t)
  {
  }

  /** Being live says nothing about the date: a live tournament can be upcoming, past or neither. */
  lemma LiveIndependentOfDate(today: int)
    ensures var live := [MatchSummary("m", Eliminations.Live)];
            && IsLive(TournamentCard(0, "", "", Some(today + 1), live)) && IsUpcoming(TournamentCard(0, "", "", Some(today + 1), live), today)
            && IsLive(TournamentCard(0, "", "", Some(today - 1), live)) && IsPast(TournamentCard(0, "", "", Some(today - 1), live), today)
    ensures !IsLive(TournamentCard(0, "", "", Some(today + 1), []))
  {
    var live := [MatchSummary("m", Eliminations.Live)];
    assert TournamentCard(0, "", "", Some(today + 1), live).matches[0].status == Eliminations.Live;
    assert TournamentCard(0, "", "", Some(today - 1), live).matches[0].status == Eliminations.Live;
  }
}
