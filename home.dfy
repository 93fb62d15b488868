/** The dashboard home page (app/page.tsx): the active-tournament card and the tournament grid. */
module Home {

  import opened Wrappers
  import opened TournamentLists

  /** The `/api/dashboard` answer; `tournaments` is `None` when the answer has no such array. */
  datatype DashboardData = DashboardData(tournaments: Option<seq<TournamentCard>>, teamsCount: int, playersCount: int)

  /** What the card's heading shows. */
  datatype Headline = ShowName(name: string) | ShowNothing | StartNew

  /** The id the "Open Tournament" link ends in; `Undefined` renders as the text "undefined". */
  datatype LinkId = Id(id: nat) | Undefined

  /** `tournamentsData?.tournaments?.filter(...)`: `None` until the data is loaded. */
  function HomeLive(data: Option<DashboardData>): (r: Option<seq<TournamentCard>>)
    ensures r.Some? <==> data.Some? && data.value.tournaments.Some?
  {
    if data.Some? && data.value.tournaments.Some? then Some(LiveTournaments(data.value.tournaments.value)) else None
  }

  /** `liveTournaments ? liveTournaments[0]?.name : "Start new Tournament"`; an empty array is truthy. */
  function HeadlineOf(data: Option<DashboardData>): (r: Headline)
    ensures r == StartNew <==> HomeLive(data).None?
  {
    match HomeLive(data)
    case None => StartNew
    case Some(live) => if live == [] then ShowNothing else ShowName(live[0].name)
  }

  /** `liveTournaments ? liveTournaments[0]?.id : 0`. */
  function OpenLinkId(data: Option<DashboardData>): (r: LinkId)
    ensures r == Undefined <==> HomeLive(data) == Some([])
  {
    match HomeLive(data)
    case None => Id(0)
    case Some(live) => if live == [] then Undefined else Id(live[0].id)
  }

  /** `Array.isArray(tournamentsData?.tournaments) && tournamentsData.tournaments.length > 0`. */
  predicate ShowsGrid(data: Option<DashboardData>)
    ensures ShowsGrid(data) ==> HomeLive(data).Some?
  {
    data.Some? && data.value.tournaments.Some? && |data.value.tournaments.value| > 0
  }

  /** The home page's live list is the tournaments page's: exactly the live tournaments, in order. */
  lemma HomeLiveExact(data: Option<DashboardData>, t: TournamentCard)
    requires data.Some? && data.value.tournaments.Some?
    ensures var ts := data.value.tournaments.value;
            && (t in HomeLive(data).value <==> t in ts && IsLive(t))
            && Seqs.IsSubsequence(HomeLive(data).value, ts)
  {
    ListsMembership(data.value.tournaments.value, 0, t);
    ListsAreSubsequences(data.value.tournaments.value, 0);
  }

  /**
   * "Start new Tournament" shows only before the tournament list is there;
   * once it is, with no live tournament the heading is empty, and otherwise it
   * is the first live tournament's name.
   */
  lemma HeadlineCases(data: Option<DashboardData>)
    ensures HeadlineOf(data) == StartNew <==> HomeLive(data).None?
    ensures HeadlineOf(data) == ShowNothing <==> HomeLive(data) == Some([])
    ensures HeadlineOf(data).ShowName? ==>
              HomeLive(data).Some? && |HomeLive(data).value| > 0
              && HeadlineOf(data).name == HomeLive(data).value[0].name && IsLive(HomeLive(data).value[0])
  {
    if HomeLive(data).Some? && HomeLive(data).value != [] {
      ListsMembership(data.value.tournaments.value, 0, HomeLive(data).value[0]);
    }
  }

  /** The link falls back to 0 only before the list is there; a loaded list with no live tournament gives "undefined". */
  lemma OpenLinkCases(data: Option<DashboardData>)
    ensures HomeLive(data).None? ==> OpenLinkId(data) == Id(0)
    ensures HomeLive(data) == Some([]) <==> OpenLinkId(data) == Undefined
    ensures HomeLive(data).Some? && HomeLive(data).value != [] ==> OpenLinkId(data) == Id(HomeLive(data).value[0].id)
  {
  }

  /** The grid shows exactly when a non-empty list arrived, and then the heading is not "Start new Tournament". */
  lemma GridCases(data: Option<DashboardData>)
    ensures ShowsGrid(data) <==> HomeLive(data).Some? && |data.value.tournaments.value| > 0
    ensures ShowsGrid(data) ==> HeadlineOf(data) != StartNew
  {
  }
}
