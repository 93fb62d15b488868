# BGMI tournament dashboard — a Dafny model of its rules

The dashboard runs esports tournaments: organisers create tournaments, register
teams, group them, create matches, type in the score of each player and let a
timed sweep reveal eliminated teams on the broadcast overlay. This project
models the sequential rules behind those screens and routes and proves what
they guarantee. It covers:

- the live score table (`LiveData`): status and points edits, grouping by
  team, the create-match guard and the winner selector;
- the group editor of a tournament (`Details`);
- the elimination sweep (`Eliminations`);
- match creation with its performance rows (`MatchCreation`);
- the S3 key and URL handling (`FileUpload`) and image-key building (`ImageKeys`);
- the tournament-creation route (`TournamentCreate`);
- the player and team server actions (`Actions`);
- the tournament lists (`TournamentLists`), the home page (`Home`) and the
  side bar's active-link test (`Sidebar`).

The database is an in-memory object (`Store.Db`). Its tables are sequences and
one id counter hands out fresh ids. The sweep works on an `array` of match-team
rows, as the cron route rewrites them in place. `Wrappers`, `Seqs` and
`Strings` hold the JavaScript vocabulary the model needs:

- `Wrappers` has `Option`, for `null`/`undefined`.
- `Seqs` has `filter` and subsequences.
- `Strings` has `trim` with JavaScript's white-space set, `startsWith`,
  `split(c)[0]`, truthiness of strings, and number-to-decimal conversion.

Things the model makes explicit:

- JavaScript truthiness is written out: `""` counts as absent, so `x || d`
  becomes `Truthy(x)`.
- The regular expression in `extractS3Key` is followed exactly. It is
  unanchored, so the leftmost match wins. Its `.` stops at `\n`, `\r`,
  U+2028 and U+2029.
- A points or status edit on a present match replaces the `selectedMatch`
  object. That re-runs the effect at app/components/tournmants/LiveData.tsx:177-180,
  so every edit also clears the locally chosen winner.
- `editData.name ?? tournament.name` (app/components/tournmants/Details.tsx:115)
  never falls back, because `editData.name` is always a string. The model sends
  the edited name, even an empty one (`Details.HandleSave`).
- An uploaded key that contains `?` does not round-trip: the extractor keeps
  only the text before the first `?` (`FileUpload.UploadUrlQuestionMarkKey`).
  Keys embed the tournament, player or team name, and that name is not escaped.
- `POST /api/match` is not atomic: a failure after the match insert answers
  500 and leaves the match without performance rows.
- `POST /api/tournament` inserts the tournament before it parses the team list,
  so a bad list answers 500 and leaves the tournament behind.
- The tournament route uploads any thumbnail that is present, even an empty
  one. The two actions upload only a file whose size is greater than 0.

## Model

| member | source | states |
|---|---|---|
| Strings.TrimEmptyIffBlank | app/components/tournmants/LiveData.tsx:101 | `s.trim()` is empty exactly when every character of `s` is JavaScript white space |
| Strings.BeforeFirst | lib/fileUpload.ts:55 | `split(c)[0]` is the prefix of `s` before the first `c`: the result holds no `c`, and when shorter than `s` the next character is `c` |
| LiveData.WithPoints | app/components/tournmants/LiveData.tsx:74-84 | the chosen points field gets the value, the other field, id, player and status are kept, and `totalPoints == placementPoints + finishesPoints` afterwards |
| LiveData.SetStatus | app/components/tournmants/LiveData.tsx:56-60 | same length and order; rows with the id get the new status and every other row is unchanged |
| LiveData.SetPoints | app/components/tournmants/LiveData.tsx:72-86 | same length and order; rows with the id get the points edit with the total recomputed, every other row is unchanged |
| LiveData.StatusChange | app/components/tournmants/LiveData.tsx:53-62 | an absent match stays absent; a present one changes only its performance list |
| LiveData.PointsChange | app/components/tournmants/LiveData.tsx:69-87 | an absent match stays absent; a present one changes only its performance list |
| LiveData.ApplyEditsKeepsIds | app/components/tournmants/LiveData.tsx:56-60 | no sequence of edits moves or renames a row: row `i` keeps its id |
| LiveData.EditKeepsConsistent | app/components/tournmants/LiveData.tsx:74-84 | any single edit keeps a row whose total agrees with its points in agreement |
| LiveData.PointsEditsKeepTotals | app/components/tournmants/LiveData.tsx:83 | after any sequence of edits, every row that some points edit touched has `totalPoints == placementPoints + finishesPoints` |
| LiveData.KeepsConsistent | app/components/tournmants/LiveData.tsx:74-84 | a row whose total agrees with its points still agrees after any sequence of edits |
| LiveData.RowTotalOfEditedRow | app/components/tournmants/LiveData.tsx:473-475 | for an edited row the total drawn in the table equals the stored total |
| LiveData.TeamKey | app/components/tournmants/LiveData.tsx:92 | the bucket name is never empty: a missing or empty team name gives "Unknown Team" |
| LiveData.Bucket | app/components/tournmants/LiveData.tsx:90-98 | a bucket holds only performances of that team, drawn from the table |
| LiveData.KeySet | app/components/tournmants/LiveData.tsx:90-98 | the bucket names are exactly the team keys that occur |
| LiveData.GroupByTeam | app/components/tournmants/LiveData.tsx:90-98 | the loop that pushes each row into its team's list builds a map whose keys are the team keys that occur and whose lists are the buckets in table order |
| LiveData.InOwnBucket | app/components/tournmants/LiveData.tsx:92-94 | every performance is in the bucket of its own team |
| LiveData.BucketOfAbsentKey | app/components/tournmants/LiveData.tsx:93 | a name that no row has gets an empty bucket |
| LiveData.BucketsPartition | app/components/tournmants/LiveData.tsx:90-98 | over distinct keys covering every row, the bucket sizes add up to the number of rows, so each row is in exactly one bucket |
| LiveData.CreateMatchRequest | app/components/tournmants/LiveData.tsx:100-113 | no request when the title is blank after trimming; otherwise the untrimmed title with the tournament id and group |
| LiveData.WinnerSelectValue | app/components/tournmants/LiveData.tsx:405 | the value of the winner selector, `winTeam?.id || winningTeamId || ""` (its cases: `WinnerSelectPriority`) |
| LiveData.WinnerSelectPriority | app/components/tournmants/LiveData.tsx:405 | the selector shows the stored winner id if non-empty, else the local choice if non-empty, else "" |
| LiveData.LiveDataState.HandleStatusChange | app/components/tournmants/LiveData.tsx:49-63 | the selected match becomes `StatusChange` of the old one; a present match also clears the chosen winner; the form is untouched |
| LiveData.LiveDataState.HandlePointsChange | app/components/tournmants/LiveData.tsx:64-88 | the selected match becomes `PointsChange` of the old one; a present match also clears the chosen winner; the form is untouched |
| LiveData.LiveDataState.HandleCreateMatch | app/components/tournmants/LiveData.tsx:100-127 | sends `CreateMatchRequest` of the form; clears title and group only when a request was sent and the server answered ok |
| LiveData.LiveDataState.ChooseWinner | app/components/tournmants/LiveData.tsx:407 | picking an option stores it as the local winner and changes nothing else |
| Details.AddGroup | app/components/tournmants/Details.tsx:51-62 | a blank or already used name leaves the groups unchanged; otherwise a group with no teams is appended |
| Details.AddGroupKeepsUnique | app/components/tournmants/Details.tsx:54-59 | adding a group keeps group names unique |
| Details.AddTeamToGroup | app/components/tournmants/Details.tsx:71-79 | a team whose name is already in the group is a no-op; otherwise it is appended |
| Details.AddTeam | app/components/tournmants/Details.tsx:64-81 | a null team changes nothing; otherwise only groups with the given name are changed, by `AddTeamToGroup` |
| Details.AddTeamKeepsGroupNames | app/components/tournmants/Details.tsx:67-69 | adding a team keeps group names unique |
| Details.AddTeamToGroupKeepsUnique | app/components/tournmants/Details.tsx:71-79 | adding a team keeps that group's team names unique |
| Details.AddTeamKeepsUnique | app/components/tournmants/Details.tsx:64-81 | adding a team keeps team names unique within every group |
| Details.WithoutTeam | app/components/tournmants/Details.tsx:92 | the filter drops exactly the entries with that name; the others stay in their order, each as often as before |
| Details.RemoveTeam | app/components/tournmants/Details.tsx:86-97 | same groups in the same order; groups with another name are unchanged; the named group loses every entry with that team name |
| Details.RemoveTeamKeepsGroupNames | app/components/tournmants/Details.tsx:86-97 | removing a team keeps group names unique |
| Details.RemoveTeamKeepsUnique | app/components/tournmants/Details.tsx:86-97 | removing a team keeps team names unique, and no entry of that name is left in the named group |
| Details.WithoutTeamKeepsUnique | app/components/tournmants/Details.tsx:92 | filtering a list with distinct names keeps them distinct |
| Details.TeamNames | app/components/tournmants/Details.tsx:144 | the names of a group's teams, one per team, in order |
| Details.AssignedTeamNamesMembership | app/components/tournmants/Details.tsx:143-145 | a name is assigned exactly when some group has a team of that name |
| Details.AssignedTeamNamesAppend | app/components/tournmants/Details.tsx:143-145 | the flattened list is the in-order concatenation of the groups' team names |
| Details.PickerTeams | app/components/tournmants/Details.tsx:308-309 | the picker offers exactly the teams whose name is not assigned, in list order and each as often as in the list |
| Details.AssignedTeamNames | app/components/tournmants/Details.tsx:143-145 | the `flatMap` of every group's team names, group by group (its properties: `AssignedTeamNamesMembership`, `AssignedTeamNamesAppend`) |
| Details.FromLoaded | app/components/tournmants/Details.tsx:154-161 | a loaded group keeps its name; its teams are the names of its assignments, or none when it has no assignment list |
| Details.InitGroups | app/components/tournmants/Details.tsx:147-164 | the groups are taken from the tournament only when the local list is empty and the tournament has groups; otherwise they are unchanged |
| Details.SavePayload | app/components/tournmants/Details.tsx:117-124 | one entry per group, in order, with its name and its team names in order |
| Details.SavePayloadFlattens | app/components/tournmants/Details.tsx:117-124 | the team names of the payload, flattened, are the assigned team names |
| Details.HandleSave | app/components/tournmants/Details.tsx:111-128 | nothing is sent exactly when the tournament id is missing or empty; otherwise the form carries the edited name, the `SavePayload` of the groups (each group with its own team names, in order), which flattens to exactly the assigned team names, and the thumbnail only when one was chosen |
| Details.SaveNameNeverFallsBack | app/components/tournmants/Details.tsx:115 | the name sent is the edited one whatever the stored tournament name is, even when the edited name is empty |
| Eliminations.Cutoff | app/api/cron/eliminations/route.ts:9 | the cutoff is exactly now − 2·60·1000 ms |
| Eliminations.SelectedIds | app/api/cron/eliminations/route.ts:11-17 | the selected ids are exactly those of Live matches updated strictly before the cutoff |
| Eliminations.Processed | app/api/cron/eliminations/route.ts:19-34 | the matches swept before a failure are among the selected ones |
| Eliminations.UpdateEliminated | app/api/cron/eliminations/route.ts:20-28 | the in-place update turns Eliminated teams of that match into Displayed and leaves every other row as it was |
| Eliminations.SweepTeam | app/api/cron/eliminations/route.ts:20-28 | a team row keeps its id and match; it changes only from Eliminated to Displayed |
| Eliminations.SweepMatches | app/api/cron/eliminations/route.ts:19-29 | the loop leaves the team array equal to the sweep of its old rows over the listed matches, in order |
| Eliminations.RunEliminationCron | app/api/cron/eliminations/route.ts:7-35 | every row of the team array becomes its sweep over the matches processed before any failure |
| Eliminations.Get | app/api/cron/eliminations/route.ts:3-6 | the route always answers success, whatever failed inside the sweep |
| Eliminations.SweepAll | app/api/cron/eliminations/route.ts:19-29 | the sweep of a table, row by row |
| Eliminations.SweepChangesOnlyEliminated | app/api/cron/eliminations/route.ts:21-26 | a row changes exactly when it is Eliminated and belongs to a selected match, and it then becomes Displayed |
| Eliminations.UnsweptMatchUntouched | app/api/cron/eliminations/route.ts:13-14 | the teams of a Completed or recently updated match are unchanged |
| Eliminations.SweepIdempotent | app/api/cron/eliminations/route.ts:23-26 | a second sweep at the same instant changes nothing |
| Eliminations.SweepNeverRegresses | app/api/cron/eliminations/route.ts:23-26 | the sweep never moves a status backwards and never touches a row that is not Eliminated |
| Eliminations.DisplayTeam | app/api/team/display/route.ts:4-13 | the row with the id becomes Displayed whatever its status was; every other row is unchanged |
| Store.Db.InsertTournament | app/api/tournament/route.ts:39-47 | `tournament.create` appends the row under the next id, which is fresh, and keeps every table's ids below the counter and distinct |
| Store.Db.InsertLinks | app/api/tournament/route.ts:51-56 | `teamTournament.createMany` appends exactly the given links and changes no other table |
| Store.Db.InsertMatch | app/api/match/route.ts:9-15 | `match.create` appends a Live match under the next id, which is fresh, and keeps every table's ids below the counter and distinct |
| Store.Db.InsertPerformances | app/api/match/route.ts:33-38 | `matchPlayerPerformance.createMany` of rows for existing matches appends exactly those rows and changes no other table |
| Store.Db.InsertTeam | lib/action.ts:63-69 | `team.create` appends the row under the next id, which is fresh, and keeps every table's ids below the counter and distinct |
| Store.Db.InsertPlayer | lib/action.ts:24-32 | `player.create` appends the row under the next id, which is fresh, and keeps every table's ids below the counter and distinct |
| Store.Db.SaveTeam | lib/action.ts:70-78 | `team.update` of an existing id replaces that row and changes no other table |
| Store.Db.SavePlayer | lib/action.ts:33-43 | `player.update` of an existing id replaces that row and changes no other table |
| Store.UpdateTeamKeepsIds | lib/action.ts:71-77 | an update keeps every id in place, so team ids stay below the counter and distinct |
| Store.UpdatePlayerKeepsIds | lib/action.ts:34-42 | an update keeps every id in place, so player ids stay below the counter and distinct |
| Store.TeamById | app/api/match/route.ts:20-26 | the looked-up team has the id; none is found exactly when no row has it |
| Store.PlayerById | lib/action.ts:34-35 | the looked-up player has the id; none is found exactly when no row has it |
| Store.UpdateTeam | lib/action.ts:71-77 | rows with the id become the new row, all others are kept, in order |
| Store.UpdatePlayer | lib/action.ts:34-42 | rows with the id become the new row, all others are kept, in order |
| Store.UpdateTeamThenLookup | lib/action.ts:71-77 | after an update of an existing team its lookup gives the new row and every other id's lookup is unchanged |
| Store.UpdateTeamThenLookupOther | lib/action.ts:71-77 | an update leaves the lookup of other ids as it was |
| Store.UpdatePlayerThenLookup | lib/action.ts:34-42 | after an update of an existing player its lookup gives the new row and every other id's lookup is unchanged |
| Store.UpdatePlayerThenLookupOther | lib/action.ts:34-42 | an update leaves the lookup of other ids as it was |
| MatchCreation.PlayersOfTeam | app/api/match/route.ts:21-24 | the players joined to a team are exactly the rows of that team, in table order and each as often as in the table |
| MatchCreation.CollectPlayersAppend | app/api/match/route.ts:28-30 | collection distributes over concatenation, so players come registration by registration, in order |
| MatchCreation.RegistrationsOf | app/api/match/route.ts:16-28 | at most one registration per link row; a registration's team is a row of the team table, joined with exactly that team's players |
| MatchCreation.CollectPlayers | app/api/match/route.ts:28-30 | the `flatMap` of `tt.team?.players ?? []` (its properties: `CollectPlayersAppend`, `CollectPlayersSingle`, `CollectPlayersMembership`) |
| MatchCreation.CollectPlayersSingle | app/api/match/route.ts:29 | a registration without a team contributes no player; one with a team contributes its players |
| MatchCreation.JoinedPlayers | app/api/match/route.ts:16-30 | a player is collected exactly when it is in the player table and some link row registers its team, which exists, to the tournament |
| MatchCreation.CollectPlayersMembership | app/api/match/route.ts:28-30 | a player is collected exactly when some registration's team lists it |
| MatchCreation.PerformanceRows | app/api/match/route.ts:33-38 | one row per collected player, in order, with that player's id and the match's id |
| MatchCreation.NewMatchRows | app/api/match/route.ts:33-38 | when every older row belongs to an older match, the new match's rows in the table are exactly the rows inserted for it, one per collected player |
| MatchCreation.PostMatch | app/api/match/route.ts:4-50 | a Live match named by the title is inserted first under a fresh id; on success one performance row per collected player is appended; with no players nothing is bulk-inserted; a later failure answers 500 and leaves the match; other tables are unchanged |
| FileUpload.ExtractS3Key | lib/fileUpload.ts:42-59 | null only for an empty url or an `s3://` form; never longer than the url |
| FileUpload.ExtractEmpty | lib/fileUpload.ts:43 | an empty url gives null |
| FileUpload.ExtractS3Location | lib/fileUpload.ts:45-49 | `s3://bucket/rest` gives `rest`, every segment after the bucket |
| FileUpload.ExtractS3BucketOnly | lib/fileUpload.ts:45-51 | `s3://bucket` with no '/' gives null |
| FileUpload.ExtractHttpUrl | lib/fileUpload.ts:53-56 | an http(s) url gives the text after the host's '/' up to the first '?' |
| FileUpload.ExtractOther | lib/fileUpload.ts:58 | any other non-empty string comes back unchanged |
| FileUpload.UploadUrl | lib/fileUpload.ts:26-30 | the public URL of an uploaded key, with the host form chosen by the region (its inverse: `UploadUrlExtract`, `UploadUrlRoundTrip`) |
| FileUpload.UploadUrlExtract | lib/fileUpload.ts:26-30 | extracting from an upload URL, for either region form, gives the key up to its first '?' |
| FileUpload.UploadUrlRoundTrip | lib/fileUpload.ts:26-30 | for a non-empty key with no '?' and no line break, extracting the key from the URL gives the key back |
| FileUpload.UploadUrlQuestionMarkKey | lib/fileUpload.ts:55 | a key containing '?' comes back cut at the first '?' |
| ImageKeys.AfterLast | app/api/tournament/route.ts:26 | `split(c).pop()` is the suffix after the last `c`, or the whole string when there is none |
| ImageKeys.Extension | app/api/tournament/route.ts:26 | the extension is never empty and holds no '.' |
| ImageKeys.ExtensionAfterDot | app/api/tournament/route.ts:26 | the extension of `base.ext` is `ext` |
| ImageKeys.ExtensionWithoutDot | app/api/tournament/route.ts:26 | a name with no '.' is its own extension |
| ImageKeys.ExtensionJpgFallback | app/api/tournament/route.ts:26 | "jpg" is used exactly when nothing follows the last '.': an empty name or one ending in '.' |
| ImageKeys.ImageKey | app/api/tournament/route.ts:26-27 | `dashboard/{folder}/{name}-{timestamp}.{ext}`, shared by the tournament route and both actions (its shape: `ImageKeyShape`) |
| ImageKeys.KeyStem | app/api/tournament/route.ts:27 | the key before its extension lies in `dashboard/{folder}/` |
| ImageKeys.ImageKeyShape | lib/action.ts:18-19 | a key lies in `dashboard/{folder}/` and keeps the file's extension |
| TournamentCreate.ThumbnailUrl | app/api/tournament/route.ts:22-30 | "" without a thumbnail, otherwise whatever the upload answers for the thumbnail's key |
| TournamentCreate.LinkRows | app/api/tournament/route.ts:50-57 | one link per listed team id, in order, all to the tournament |
| TournamentCreate.LinkRowsAppend | app/api/tournament/route.ts:52-55 | the links of a concatenated list are the concatenated links |
| TournamentCreate.Post | app/api/tournament/route.ts:5-68 | at most one tournament is inserted, and a created answer carries the inserted row |
| TournamentCreate.PostValidation | app/api/tournament/route.ts:14-19 | 400 exactly when name, date, time or participatingTeams is missing or empty, and then nothing is written |
| TournamentCreate.PostThumbnail | app/api/tournament/route.ts:22-37 | an empty upload URL answers 500 "Failed to upload thumbnail image" and a throwing upload answers "Failed to create tournament", neither inserting anything; without a thumbnail the image is "" |
| TournamentCreate.PostLinks | app/api/tournament/route.ts:39-66 | once the thumbnail is settled the tournament is inserted; it is created with one link per team when the list parses, and left without links behind a 500 when it does not |
| TournamentCreate.PostTournament | app/api/tournament/route.ts:5-68 | the database gains exactly what `Post` inserts, with one fresh id per tournament, and no other table changes |
| Actions.ImageUrl | lib/action.ts:14-22 | the image URL an action stores: the upload's answer for a non-empty file, else `editImage || ""` (its cases: `ImageUrlDefault`, `ImageUrlReplaced`) |
| Actions.ImageUrlDefault | lib/action.ts:14 | without a non-empty file the image URL is `editImage`, or "" when that is missing or empty |
| Actions.ImageUrlReplaced | lib/action.ts:16-22 | a non-empty file replaces the URL by the upload's answer for a key in the folder with the file's extension |
| Actions.PlayerRecord | lib/action.ts:26-31 | the stored player holds name, gameName = ign, teamId and image |
| Actions.CreatePlayerAction | lib/action.ts:6-44 | with no id a player row is appended under a fresh id; with an id that row is updated with the same fields, and an unknown id changes nothing; a throwing upload stores nothing |
| Actions.CreateTeamAction | lib/action.ts:47-79 | the same for teams, whose row stores only name and image |
| TournamentLists.LiveTournaments | app/tournaments/page.tsx:34-36 | the fetched tournaments with a Live match, in order (see `ListsMembership`, `ListsAreSubsequences`) |
| TournamentLists.UpcomingTournaments | app/tournaments/page.tsx:38-42 | the fetched tournaments dated after today, in order (see `ListsMembership`, `ListsAreSubsequences`) |
| TournamentLists.PastTournaments | app/tournaments/page.tsx:44-48 | the fetched tournaments dated before today, in order (see `ListsMembership`, `ListsAreSubsequences`) |
| TournamentLists.ListsMembership | app/tournaments/page.tsx:34-48 | live holds exactly the tournaments with a Live match; upcoming those dated after today; past those dated before today |
| TournamentLists.ListsAreSubsequences | app/tournaments/page.tsx:34-48 | each list keeps the fetched order |
| TournamentLists.TodayIsNeither | app/tournaments/page.tsx:41-47 | a tournament dated today, or with an unparsable date, is neither upcoming nor past |
| TournamentLists.UpcomingPastDisjoint | app/tournaments/page.tsx:38-48 | no tournament is both upcoming and past |
| TournamentLists.LiveIgnoresDate | app/tournaments/page.tsx:34-36 | changing a tournament's date never changes whether it is live |
| TournamentLists.LiveIndependentOfDate | app/tournaments/page.tsx:34-48 | an illustration (the general fact is `LiveIgnoresDate`): a live tournament can be upcoming or past, and a tournament with no match is not live |
| Home.HomeLive | app/page.tsx:31-33 | a live list exists exactly when the data and its tournament list have arrived |
| Home.HomeLiveExact | app/page.tsx:31-33 | the home page's live list holds exactly the live tournaments, in order |
| Home.HeadlineOf | app/page.tsx:71-73 | the card's heading; "Start new Tournament" exactly when no list has arrived |
| Home.OpenLinkId | app/page.tsx:101 | the id the link ends in; "undefined" exactly when an arrived list has no live tournament |
| Home.ShowsGrid | app/page.tsx:142-143 | the grid shows only once the tournament list has arrived |
| Home.HeadlineCases | app/page.tsx:71-73 | "Start new Tournament" exactly when no list has arrived; an arrived list with no live tournament shows no heading; otherwise the first live tournament's name |
| Home.OpenLinkCases | app/page.tsx:101 | the link id falls back to 0 only before the list arrives; an arrived list with no live tournament gives "undefined" |
| Home.GridCases | app/page.tsx:142-143 | the grid shows exactly when a non-empty tournament array arrived, and the heading is then not "Start new Tournament" |
| Sidebar.IsActive | app/components/Sidebar.tsx:11-14 | an entry is highlighted only when its path is a prefix of the pathname |
| Sidebar.RootOnlyAtRoot | app/components/Sidebar.tsx:11-13 | the root entry is active exactly at "/" |
| Sidebar.ActiveIsPrefix | app/components/Sidebar.tsx:14 | an active path is a prefix of the pathname, and any other entry is active at every extension of its path |
| Sidebar.RawPrefixMatch | app/components/Sidebar.tsx:14 | an illustration (the general fact is the second clause of `ActiveIsPrefix`) that matching is by raw prefix: "/tournaments" is active at "/tournamentsX" |
| Sidebar.RootNotActiveForLonger | app/components/Sidebar.tsx:11-13 | "/" is not active at a longer pathname, although it is a prefix of it |

## Left out

- Rendering, toasts, modals, previews and the pass-through GET routes carry no rule, so they are not modelled. The same holds for the UI-only modal and list components.
- Prisma, `fetch`, S3 and the BullMQ queue are replaced. The database becomes `Store.Db`. A failing database call becomes a `Fault` parameter in the routes where the source catches it. The upload becomes a function parameter that returns the URL, or `None` when it throws.
- Database failures in the tournament route after the upload, and in the two actions, are not modelled beyond the missing-row update.
- Foreign keys and the schema's required fields are not modelled. The match route's request always carries a tournament id (`MatchRequest.tournamentId` is a number): a body without one is not modelled. Unknown team ids given to the tournament route are not rejected.
- Clocks are parameters: `Date.now()` becomes `now` in milliseconds. `new Date(...)` with local-time `setHours` becomes an optional day value, where `None` stands for an invalid date.
- `Number(value)` in the points edit is not modelled: points are integers, and NaN and fractions are left out.
- `JSON.parse` of the team list is a parameter. A list that parses to something other than an array of ids is left out.
- Ids are natural numbers. The source's id strings, and its `""`/`null` for "no id", become `Option<nat>`.
- The tournament date is stored as its raw text rather than as a `Date`.
- `Object.entries` ordering of the team buckets is not modelled: the grouping is a map.
- The order of rows that `findMany` and `include` return without `orderBy` is not promised by the database. The model fixes table order for the registrations of `POST /api/match` and for each team's players, so the order of the performance rows it appends is one possible order, not the only one.
- LiveData.GroupByTeam: the source groups into a plain `{}`. A team named after a property inherited from `Object.prototype` ("constructor", "toString", "valueOf", "hasOwnProperty", "__proto__") finds a truthy value there, skips the `= []` step, and the `push` throws a TypeError during render. The model's map gives that name an ordinary bucket, so this crash is not captured.
- LiveData.LiveDataState.HandleCreateMatch: the parent's `refetchAll()` (app/components/tournmants/LiveData.tsx:44, 122 and 146) is treated as not touching this component's state. In the page, the refetch resets the selected match to the first one fetched (app/tournaments/[id]/page.tsx:307-312), and through the effect at LiveData.tsx:177-180 that also clears the chosen winner. The model keeps both unchanged.
- The queue producer and the elimination worker's handler are not modelled. That handler is the same unconditional update as `Eliminations.DisplayTeam`.
- Races between the sweep, the worker and the score saves are not modelled.
- The scoring engine is not part of this model. That covers the score submission route, contribution percentages, MVP and top-five feeds, winner declaration and the elimination trigger.
- FileUpload.ExtractS3Key: its own contract states only when null can come back and a length bound. The exact result for each form is stated by the `Extract…` and `UploadUrl…` lemmas beside it.
