/**
 * `POST /api/tournament` (app/api/tournament/route.ts): validates the form,
 * uploads the optional thumbnail, inserts the tournament and then one
 * team-tournament link per listed team.
 */
module TournamentCreate {

  import opened Wrappers
  import opened Strings
  import opened ImageKeys
  import opened Store

  /** The form fields; a field that is not sent is `None`. */
  datatype TournamentForm = TournamentForm(
    name: Option<string>,
    date: Option<string>,
    time: Option<string>,
    participatingTeams: Option<string>,
    thumbnail: Option<UploadFile>)

  datatype TournamentResponse =
    | MissingFields
    | UploadFailed
    | CreateFailed
    | Created(tournament: TournamentRow)
  {
    /** The HTTP status of the answer. */
    function Status(): nat
    {
      match this
      case MissingFields => 400
      case Created(_) => 200
      case _ => 500
    }

    /** The `error` text of a failed answer. */
    function Error(): string
    {
      match this
      case MissingFields => "Missing required fields"
      case UploadFailed => "Failed to upload thumbnail image"
      case CreateFailed => "Failed to create tournament"
      case Created(_) => ""
    }
  }

  /** `name && date && time && participatingTeamsRaw`. */
  predicate HasRequiredFields(form: TournamentForm)
  {
    Truthy(form.name) && Truthy(form.date) && Truthy(form.time) && Truthy(form.participatingTeams)
  }

  /** The storage key of the thumbnail. */
  function ThumbnailKey(name: string, now: nat, thumbnail: UploadFile): StorageKey
  {
    StorageKey(Tournaments, name, now, thumbnail.name)
  }

  /**
   * The URL the tournament is stored with: "" without a thumbnail, else the
   * upload's answer; `None` when the upload throws.
   */
  function ThumbnailUrl(form: TournamentForm, now: nat, upload: StorageKey -> Option<string>): (r: Option<string>)
    requires form.name.Some?
    ensures form.thumbnail.None? ==> r == Some("")
    ensures form.thumbnail.Some? ==> r == upload(ThumbnailKey(form.name.value, now, form.thumbnail.value))
  {
    match form.thumbnail
    case None => Some("")
    case Some(file) => upload(ThumbnailKey(form.name.value, now, file))
  }

  /** One link row per team id, in order, all pointing at the tournament. */
  function LinkRows(teamIds: seq<nat>, tournamentId: nat): (r: seq<TeamTournamentRow>)
    ensures |r| == |teamIds|
    ensures forall j :: 0 <= j < |r| ==> r[j] == TeamTournamentRow(teamIds[j], tournamentId)
  {
    if teamIds == [] then [] else [TeamTournamentRow(teamIds[0], tournamentId)] + LinkRows(teamIds[1..], tournamentId)
  }

  /** The links of a list are the links of its parts: listing a team twice links it twice. */
  lemma {:induction false} LinkRowsAppend(a: seq<nat>, b: seq<nat>, tournamentId: nat)
    ensures LinkRows(a + b, tournamentId) == LinkRows(a, tournamentId) + LinkRows(b, tournamentId)
  {
    if a == [] {
      assert a + b == b;
    } else {
      assert (a + b)[0] == a[0] && (a + b)[1..] == a[1..] + b;
      LinkRowsAppend(a[1..], b, tournamentId);
    }
  }

  /** What one request does: the answer, the tournament rows it inserts and the link rows it inserts. */
  datatype PostResult = PostResult(response: TournamentResponse, inserted: seq<TournamentRow>, links: seq<TeamTournamentRow>)

  /**
   * The handler as a function of its inputs; `nextId` is the id the database
   * gives the new tournament. `now` is `Date.now()`, `upload` is `uploadToS3`
   * (`None` when it throws) and `parse` is `JSON.parse` of the team list
   * (`None` when it throws).
   */
  function Post(form: TournamentForm, now: nat, upload: StorageKey -> Option<string>,
                parse: string -> Option<seq<nat>>, nextId: nat): (r: PostResult)
    ensures |r.inserted| <= 1
    ensures r.response.Created? ==> r.inserted == [r.response.tournament]
  {
    if !HasRequiredFields(form) then PostResult(MissingFields, [], [])
    else
      var url := ThumbnailUrl(form, now, upload);
      if url.None? then PostResult(CreateFailed, [], [])
      else if form.thumbnail.Some? && url.value == "" then PostResult(UploadFailed, [], [])
      else
        var tournament := TournamentRow(nextId, form.name.value, form.date.value, form.time.value, url.value);
        match parse(form.participatingTeams.value)
        case None => PostResult(CreateFailed, [tournament], [])
        case Some(teamIds) => PostResult(Created(tournament), [tournament], LinkRows(teamIds, nextId))
  }

  /** A request missing a required field is answered 400 and writes nothing; every valid request gets past validation. */
  lemma PostValidation(form: TournamentForm, now: nat, upload: StorageKey -> Option<string>,
                       parse: string -> Option<seq<nat>>, nextId: nat)
    ensures Post(form, now, upload, parse, nextId).response.MissingFields? <==> !HasRequiredFields(form)
    ensures !HasRequiredFields(form) ==> Post(form, now, upload, parse, nextId).inserted == []
    ensures Post(form, now, upload, parse, nextId).response.Status() == 400 <==> !HasRequiredFields(form)
  {
  }

  /**
   * A thumbnail whose upload answers "" gives "Failed to upload thumbnail image"
   * and a thrown upload gives "Failed to create tournament"; neither stores a
   * tournament. Without a thumbnail the tournament is stored with image "".
   */
  lemma PostThumbnail(form: TournamentForm, now: nat, upload: StorageKey -> Option<string>,
                      parse: string -> Option<seq<nat>>, nextId: nat)
    requires HasRequiredFields(form)
    ensures var r := Post(form, now, upload, parse, nextId);
            (r.response.UploadFailed? <==> ThumbnailUrl(form, now, upload) == Some("") && form.thumbnail.Some?)
    ensures var r := Post(form, now, upload, parse, nextId);
            ThumbnailUrl(form, now, upload).None? ==> r.response.CreateFailed? && r.inserted == []
    ensures var r := Post(form, now, upload, parse, nextId);
            r.response.UploadFailed? ==> r.inserted == [] && r.response.Status() == 500
    ensures var r := Post(form, now, upload, parse, nextId);
            form.thumbnail.None? ==> r.inserted == [TournamentRow(nextId, form.name.value, form.date.value, form.time.value, "")]
  {
  }

  /**
   * Once the thumbnail is settled the tournament is inserted; it is created
   * with one link per listed team, in order, when the list parses, and left
   * without links behind a 500 when it does not.
   */
  lemma PostLinks(form: TournamentForm, now: nat, upload: StorageKey -> Option<string>,
                  parse: string -> Option<seq<nat>>, nextId: nat)
    requires HasRequiredFields(form)
    requires ThumbnailUrl(form, now, upload).Some?
    requires form.thumbnail.Some? ==> ThumbnailUrl(form, now, upload).value != ""
    ensures var r := Post(form, now, upload, parse, nextId);
            r.inserted == [TournamentRow(nextId, form.name.value, form.date.value, form.time.value,
                                         ThumbnailUrl(form, now, upload).value)]
    ensures var r := Post(form, now, upload, parse, nextId);
            r.response.Created? <==> parse(form.participatingTeams.value).Some?
    ensures var r := Post(form, now, upload, parse, nextId);
            r.response.Created? ==> r.links == LinkRows(parse(form.participatingTeams.value).value, nextId)
    ensures var r := Post(form, now, upload, parse, nextId);
            !r.response.Created? ==> r.links == [] && r.response.Error() == "Failed to create tournament"
  {
  }

  /** The handler applied to the database: it appends what `Post` inserts and hands out one id per tournament. */
  method PostTournament(db: Db, form: TournamentForm, now: nat, upload: StorageKey -> Option<string>,
                        parse: string -> Option<seq<nat>>) returns (resp: TournamentResponse)
    requires db.Valid()
    modifies db
    ensures db.Valid()
    ensures var r := Post(form, now, upload, parse, old(db.nextId));
            && resp == r.response
            && db.tournaments == old(db.tournaments) + r.inserted
            && db.teamTournaments == old(db.teamTournaments) + r.links
            && db.nextId == old(db.nextId) + |r.inserted|
    ensures db.teams == old(db.teams) && db.players == old(db.players)
    ensures db.matches == old(db.matches) && db.performances == old(db.performances)
  {
    if !HasRequiredFields(form) {
      return MissingFields;
    }
    var thumbnailUrl := "";
    if form.thumbnail.Some? {
      var uploaded := upload(ThumbnailKey(form.name.value, now, form.thumbnail.value));
      if uploaded.None? {
        return CreateFailed;
      }
      thumbnailUrl := uploaded.value;
      if thumbnailUrl == "" {
        return UploadFailed;
      }
    }
    var id := db.InsertTournament(form.name.value, form.date.value, form.time.value, thumbnailUrl);
    var tournament := TournamentRow(id, form.name.value, form.date.value, form.time.value, thumbnailUrl);
    var participatingTeams := parse(form.participatingTeams.value);
    if participatingTeams.None? {
      return CreateFailed;
    }
    if |participatingTeams.value| > 0 {
      db.InsertLinks(LinkRows(participatingTeams.value, tournament.id));
    } else {
      assert db.teamTournaments == old(db.teamTournaments) + LinkRows(participatingTeams.value, tournament.id);
    }
    return Created(tournament);
  }
}
