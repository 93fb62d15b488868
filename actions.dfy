/**
 * The server actions of lib/action.ts that save a player or a team from its
 * form: pick the image URL, then create a row when no id is sent or update
 * the row with that id.
 */
module Actions {

  import opened Wrappers
  import opened Strings
  import opened ImageKeys
  import opened Store

  /** The player form; `team` and `player` are `None` when missing or "". */
  datatype PlayerForm = PlayerForm(
    name: string,
    ign: string,
    team: Option<nat>,
    photo: Option<UploadFile>,
    editImage: Option<string>,
    player: Option<nat>)

  /** The team form; `team` is `None` when missing or "". */
  datatype TeamForm = TeamForm(
    name: string,
    image: Option<UploadFile>,
    editImage: Option<string>,
    team: Option<nat>)

  /** How an action ended. `NotFound` is the update of an id with no row, which throws. */
  datatype Outcome = Created(id: nat) | Updated(id: nat) | NotFound(id: nat) | UploadThrew

  /**
   * The image URL an action stores: the upload's answer when a non-empty file
   * is sent, otherwise `editImage || ""`; `None` when the upload throws.
   */
  function ImageUrl(folder: Folder, name: string, file: Option<UploadFile>, editImage: Option<string>,
                    now: nat, upload: StorageKey -> Option<string>): (r: Option<string>)
  {
    if file.Some? && file.value.size > 0 then upload(StorageKey(folder, name, now, file.value.name))
    else Some(if Truthy(editImage) then editImage.value else "")
  }

  /** Without a non-empty file the URL is the old image, or "" when there is none. */
  lemma ImageUrlDefault(folder: Folder, name: string, file: Option<UploadFile>, editImage: Option<string>,
                        now: nat, upload: StorageKey -> Option<string>)
    requires file.None? || file.value.size == 0
    ensures ImageUrl(folder, name, file, editImage, now, upload).Some?
    ensures Truthy(editImage) ==> ImageUrl(folder, name, file, editImage, now, upload) == editImage
    ensures !Truthy(editImage) ==> ImageUrl(folder, name, file, editImage, now, upload) == Some("")
  {
  }

  /** A non-empty file replaces the old image by whatever the upload answers, under a key in the folder. */
  lemma ImageUrlReplaced(folder: Folder, name: string, file: Option<UploadFile>, editImage: Option<string>,
                         now: nat, upload: StorageKey -> Option<string>)
    requires file.Some? && file.value.size > 0
    ensures var key := StorageKey(folder, name, now, file.value.name);
            && ImageUrl(folder, name, file, editImage, now, upload) == upload(key)
            && StartsWith(key.Text(), "dashboard/" + folder.Path() + "/")
            && Extension(key.Text()) == Extension(file.value.name)
  {
    ImageKeyShape(folder, name, now, file.value.name);
  }

  /** The row an action writes for a player: name, `gameName` = ign, team and image. */
  function PlayerRecord(id: nat, form: PlayerForm, image: string): (row: PlayerRow)
    ensures row.id == id && row.name == form.name && row.gameName == form.ign
    ensures row.teamId == form.team && row.image == image
  {
    PlayerRow(id, form.name, form.ign, form.team, image)
  }

  /** `createPlayerAction`. `now` is `Date.now()` and `upload` is `uploadToS3` (`None` when it throws). */
  method CreatePlayerAction(db: Db, form: PlayerForm, now: nat, upload: StorageKey -> Option<string>)
    returns (outcome: Outcome)
    requires db.Valid()
    modifies db
    ensures db.Valid()
    ensures db.tournaments == old(db.tournaments) && db.teamTournaments == old(db.teamTournaments)
    ensures db.teams == old(db.teams) && db.matches == old(db.matches) && db.performances == old(db.performances)
    ensures var url := ImageUrl(Players, form.name, form.photo, form.editImage, now, upload);
            url.None? ==> outcome == UploadThrew && db.players == old(db.players) && db.nextId == old(db.nextId)
    ensures var url := ImageUrl(Players, form.name, form.photo, form.editImage, now, upload);
            url.Some? && form.player.None? ==>
              && outcome == Created(old(db.nextId))
              && db.players == old(db.players) + [PlayerRecord(old(db.nextId), form, url.value)]
              && db.nextId == old(db.nextId) + 1
    ensures var url := ImageUrl(Players, form.name, form.photo, form.editImage, now, upload);
            url.Some? && form.player.Some? ==>
              && db.nextId == old(db.nextId)
              && (if PlayerById(old(db.players), form.player.value).Some?
                  then outcome == Updated(form.player.value)
                       && db.players == UpdatePlayer(old(db.players), PlayerRecord(form.player.value, form, url.value))
                  else outcome == NotFound(form.player.value) && db.players == old(db.players))
  {
    var imageUrl := if Truthy(form.editImage) then form.editImage.value else "";
    if form.photo.Some? && form.photo.value.size > 0 {
      var uploaded := upload(StorageKey(Players, form.name, now, form.photo.value.name));
      if uploaded.None? {
        return UploadThrew;
      }
      imageUrl := uploaded.value;
    }
    if form.player.None? {
      var id := db.InsertPlayer(form.name, form.ign, form.team, imageUrl);
      outcome := Created(id);
    } else if PlayerById(db.players, form.player.value).Some? {
      db.SavePlayer(PlayerRecord(form.player.value, form, imageUrl));
      outcome := Updated(form.player.value);
    } else {
      outcome := NotFound(form.player.value);
    }
  }

  /** `createTeamAction`: a team row holds only its name and image. */
  method CreateTeamAction(db: Db, form: TeamForm, now: nat, upload: StorageKey -> Option<string>)
    returns (outcome: Outcome)
    requires db.Valid()
    modifies db
    ensures db.Valid()
    ensures db.tournaments == old(db.tournaments) && db.teamTournaments == old(db.teamTournaments)
    ensures db.players == old(db.players) && db.matches == old(db.matches) && db.performances == old(db.performances)
    ensures var url := ImageUrl(Teams, form.name, form.image, form.editImage, now, upload);
            url.None? ==> outcome == UploadThrew && db.teams == old(db.teams) && db.nextId == old(db.nextId)
    ensures var url := ImageUrl(Teams, form.name, form.image, form.editImage, now, upload);
            url.Some? && form.team.None? ==>
              && outcome == Created(old(db.nextId))
              && db.teams == old(db.teams) + [TeamRow(old(db.nextId), form.name, url.value)]
              && db.nextId == old(db.nextId) + 1
    ensures var url := ImageUrl(Teams, form.name, form.image, form.editImage, now, upload);
            url.Some? && form.team.Some? ==>
              && db.nextId == old(db.nextId)
              && (if TeamById(old(db.teams), form.team.value).Some?
                  then outcome == Updated(form.team.value)
                       && db.teams == UpdateTeam(old(db.teams), TeamRow(form.team.value, form.name, url.value))
                  else outcome == NotFound(form.team.value) && db.teams == old(db.teams))
  {
    var imageUrl := if Truthy(form.editImage) then form.editImage.value else "";
    if form.image.Some? && form.image.value.size > 0 {
      var uploaded := upload(StorageKey(Teams, form.name, now, form.image.value.name));
      if uploaded.None? {
        return UploadThrew;
      }
      imageUrl := uploaded.value;
    }
    if form.team.None? {
      var id := db.InsertTeam(form.name, imageUrl);
      outcome := Created(id);
    } else if TeamById(db.teams, form.team.value).Some? {
      db.SaveTeam(TeamRow(form.team.value, form.name, imageUrl));
      outcome := Updated(form.team.value);
    } else {
      outcome := NotFound(form.team.value);
    }
  }
}
