# Football team management: a verified model of the league logic

This project models, in Dafny, the core of a football-league web application:
teams, players, matches and four event collections (goals, assists, yellow
cards and red cards), stored in a document database and read into a data hook.
It models:

- the league table: points 3/1/0, ordered by points, then goal difference,
  then goals for;
- per-player statistics, the top-scorer list and per-match player records;
- the points rule and match-day rule applied when a match is added or updated;
- the guard that keeps a team with players from being deleted;
- the clear-then-set manager reassignment;
- the round-robin fixture generator: circle method, a `bye` for an odd
  team count, Fisher-Yates shuffled kick-off slots, and the next five Tuesdays;
- the match list's status filter, its grouping by match day, and its 12-hour
  time rendering;
- the add and edit match dialogs: the same-team checks, zero scores for
  upcoming matches, and the per-slot player lists cut and filtered into event
  entries;
- the statistics leaderboard and the dashboard figures;
- the invite and role life cycle over the `user_invites`, `users` and
  `user_roles` collections;
- the sign-up and sign-in forms;
- the avatar initials.

One Dafny module per source file, over shared modules:

- `Common`: Option, distinctness, `Set` deduplication, map and filter.
- `Sorting`: the stable `Array.prototype.sort` that the ECMAScript standard
  requires, given by a comparator.
- `Text`: the JavaScript string operations the pages use.
- `Domain`: the entities and the `find`/`filter` lookups.

Code that changes state becomes imperative Dafny:

- `LeagueStore.Store` holds the stored collections.
- `Accounts.DocStore` holds the account collections as maps.
- Each dialog is a class over its form state, with `MatchForms.PlayerPicks`
  for the per-kind player lists.
- Loops become methods proved equal to a specification function: the
  standings table, the fixture weeks, the shuffle, the rotation, the match-day
  grouping and the Tuesday dates.

Several inputs become parameters:

- The current day, the server time `now` and the id a new document receives.
- The random draws of the shuffle.
- Whether a write went through.
- The order in which a query lists documents.
- What Firebase Auth answered.

Dates are day numbers, with weekday `day % 7` and 0 for Sunday. Timestamps are
whole seconds.

## Model

| member | source | states |
|---|---|---|
| Standings.InitialTable | app/hooks/useAppData.ts:503-511 | one row per team, carrying its id, name, logo and colour, with every counter 0 |
| Standings.Find | app/hooks/useAppData.ts:515-517 | the row found for a team id has that id; when none is found, no row has it |
| Standings.Credit | app/hooks/useAppData.ts:518-528 | crediting a side adds one played game and exactly one of win, draw or loss; it adds 3, 1 or 0 points, the goals scored to gf and the goals conceded to ga |
| Standings.Tally | app/hooks/useAppData.ts:513-530 | the table after the matches stays aligned with the teams, row i for team i |
| Standings.WithGd | app/hooks/useAppData.ts:533 | every row gets gd = gf - ga and nothing else changes |
| Standings.Standings | app/hooks/useAppData.ts:501-535 | `getStandings` returns one row per team, a permutation of the tallied rows with goal differences, sorted by the comparator |
| Standings.GetStandings | app/hooks/useAppData.ts:501-535 | the imperative table build (the counter increments in the `forEach`, then the sort) returns exactly `Standings` |
| Standings.RankLeIsTotalPreorder | app/hooks/useAppData.ts:532-534 | the points / goal difference / goals-for comparator is total and transitive, so the sort is well defined |
| Standings.ApplyMatchUncounted | app/hooks/useAppData.ts:514-517 | an upcoming match, or one naming a missing team, leaves the table unchanged |
| Standings.Counted | app/hooks/useAppData.ts:514-517 | the counted matches are played matches of the list |
| Standings.OnlyCountedMatchesChangeRows | app/hooks/useAppData.ts:503-530 | the table equals the table built from the counted matches alone |
| Standings.TallyConsistent | app/hooks/useAppData.ts:518-528 | every row keeps played = won + drawn + lost and pts = 3·won + drawn |
| Standings.MatchTotals | app/hooks/useAppData.ts:518-528 | one counted match adds 2 to the played column, 3 points when decisive and 2 when drawn, one win when decisive, and its goals to both the gf and the ga columns |
| Standings.TallyTotals | app/hooks/useAppData.ts:513-530 | summed over the table: played is twice the counted matches, points are 3 per decisive match and 2 per draw, and gf and ga each total all goals |
| Standings.GoalDifferencesSumToZero | app/hooks/useAppData.ts:519-520 | Σgf = Σga and Σgd = 0, with gd = gf - ga on every row |
| Standings.StandingsOrder | app/hooks/useAppData.ts:532-534 | the published rows are consistent and ordered by points, then goal difference, then goals for, each descending |
| Standings.OneRowPerTeam | app/hooks/useAppData.ts:503-511 | each team id occurs among the row ids exactly as often as among the teams |
| Standings.TotalPermutation | app/hooks/useAppData.ts:532-534 | column sums do not change when the sort reorders the rows |
| PlayerStats.GetPlayerStats | app/hooks/useAppData.ts:482-492 | `getPlayerStats`: matches ≤ goals + assists + yellow cards + red cards |
| PlayerStats.PlayerStatsCounts | app/hooks/useAppData.ts:482-492 | each count is the number of the player's events of that kind; `matches` is the number of distinct match ids among all four kinds |
| PlayerStats.DistinctMatchIds | app/hooks/useAppData.ts:488-490 | the `Set` of the player's match ids is exactly the set of matches the player has events in |
| PlayerStats.Scorers | app/hooks/useAppData.ts:495-497 | one entry per player, in player order, with that player's statistics |
| PlayerStats.Top10 | app/hooks/useAppData.ts:497-498 | sorted by goals and cut to ten: min(10, n) entries with goals non-increasing, drawn from the input; no entry left out has more goals than one kept |
| PlayerStats.BestByGoals | app/hooks/useAppData.ts:497-498 | any prefix of the goal-sorted entries is ordered, drawn from the entries, and beats every entry left out |
| PlayerStats.TopScorers | app/hooks/useAppData.ts:494-499 | `getTopScorers` returns min(10, players) entries, best first, drawn from the per-player entries; no player left out has more goals than one kept |
| PlayerStats.TopScorersAreEntries | app/hooks/useAppData.ts:494-499 | every top scorer is a league player, with that player's own statistics |
| PlayerStats.TopScorersDistinct | app/hooks/useAppData.ts:494-499 | with distinct players, no player appears twice |
| PlayerStats.OpponentId | app/hooks/useAppData.ts:461-462 | the away team when the player's team is at home, otherwise the home team; this includes a player whose team is on neither side, or who has no player document |
| PlayerStats.OpponentName | app/hooks/useAppData.ts:463 | the team's name, or "Unknown Opponent"; any other name belongs to a team with that id |
| PlayerStats.Count | app/hooks/useAppData.ts:473-476 | the length of the player-and-match filter: the player's occurrences among the match's events; 0 exactly when no event matches both ids |
| PlayerStats.Minutes | app/hooks/useAppData.ts:477 | `minutesPlayed \|\| 90`: never 0; a non-zero stored value is kept; a missing value or a stored 0 gives 90 |
| PlayerStats.RecordFor | app/hooks/useAppData.ts:458-478 | a record exists exactly when the match exists; its id is `playerId_matchId` |
| PlayerStats.KnownMatches | app/hooks/useAppData.ts:458-479 | keeps exactly the ids of existing matches; from distinct ids, without repeats and in their order |
| PlayerStats.RecordMatchIds | app/hooks/useAppData.ts:451-456 | the distinct touched match ids that still exist, each once, in the order of their first occurrence among goals, assists, yellows and reds |
| PlayerStats.GetPlayerRecords | app/hooks/useAppData.ts:450-480 | `getPlayerRecords` gives record i for the i-th id of `RecordMatchIds`, so one record per distinct existing touched match in first-touched order |
| PlayerStats.RecordIdInjective | app/hooks/useAppData.ts:469 | for one player, record ids `playerId_matchId` determine the match |
| PlayerStats.RecordsNameTouchedMatches | app/hooks/useAppData.ts:450-480 | each record is the player's and names a match the player has events in; there are no more records than such matches |
| PlayerStats.RecordsCoverTouchedMatches | app/hooks/useAppData.ts:450-480 | every existing match the player has an event in has a record (missing matches are dropped) |
| PlayerStats.RecordIdsDistinct | app/hooks/useAppData.ts:451-458 | no two records of a player share an id |
| PlayerStats.RecordFields | app/hooks/useAppData.ts:461-477 | each of the record's four counts is the player's occurrences among that collection's events of the match; the opponent is the away team's name when the player's team is the home side, and the home team's name when it is the away side, on neither side or the player is unknown; the minutes are `Minutes`; the date is the creation time when present and non-zero, otherwise `now` |
| LeagueStore.ResultPoints | app/hooks/useAppData.ts:336-338 | 3/0, 0/3 or 1/1: the points total 3 for a decisive result and 2 for a draw |
| LeagueStore.AddedPoints | app/hooks/useAppData.ts:330-339 | `addMatch` gives the result's points only to a played match, 0/0 otherwise |
| LeagueStore.UpdatePoints | app/hooks/useAppData.ts:362-367 | `updateMatch` gives the result's points whatever the status |
| LeagueStore.NextMatchDay | app/hooks/useAppData.ts:323-328 | one more than the highest stored match day, or 1 when there are no matches |
| LeagueStore.Updated | app/hooks/useAppData.ts:358-368 | the patched match keeps its id and creation time; its points are recomputed from the resulting scores whenever the patch names a score |
| LeagueStore.UpcomingGoallessSaveScoresADraw | app/hooks/useAppData.ts:362-367 | saving an upcoming match at 0-0 stores 1/1 points |
| LeagueStore.NewMatch | app/hooks/useAppData.ts:320-347 | the stored document: its id, creation time `now`, a missing match day filled in, and the points of `addMatch` |
| LeagueStore.HasPlayers | app/hooks/useAppData.ts:195 | true exactly when some player has that team id |
| LeagueStore.TeamPlayers | app/hooks/useAppData.ts:447 | exactly the players of the team |
| LeagueStore.TeamManager | app/hooks/useAppData.ts:448 | the first player of the team marked as manager; none exactly when there is no such player |
| LeagueStore.WithoutTeam | app/hooks/useAppData.ts:196-197 | every team except the deleted one |
| LeagueStore.Reassigned | app/hooks/useAppData.ts:265-280 | after the reassignment the chosen player is manager and no other player of the team is; players of other teams do not change |
| LeagueStore.ReassignedHasOneManager | app/hooks/useAppData.ts:265-280 | with unique ids, appointing a team's player makes that player the team's only manager, and `getTeamManager` returns them |
| LeagueStore.Stamped | app/hooks/useAppData.ts:399-429 | one event per entry, carrying the match, the match day and the write time |
| LeagueStore.WithoutMatch | app/hooks/useAppData.ts:431-445 | exactly the events of other matches |
| LeagueStore.RecordedEventsOfMatch | app/hooks/useAppData.ts:399-429 | after recording, a match's events are its old events followed by the batch |
| LeagueStore.ReplaceEvents | app/hooks/useAppData.ts:399-445 | clear-then-record leaves exactly the batch for the match and every other match's events unchanged |
| LeagueStore.Store.DeleteTeam | app/hooks/useAppData.ts:194-199 | refused, with its message and nothing written, exactly when the team has players; otherwise only the team is removed |
| LeagueStore.Store.SetManager | app/hooks/useAppData.ts:265-280 | the two loops leave the players `Reassigned`; the result is false exactly when no player has the id, in which case the clearing has still been written |
| LeagueStore.Store.Manager | app/hooks/useAppData.ts:448 | the manager returned is a stored player of the team with the flag set |
| LeagueStore.Store.AddMatch | app/hooks/useAppData.ts:320-356 | a successful write appends `NewMatch` and returns its id and match day; a failed one changes nothing |
| LeagueStore.Store.UpdateMatch | app/hooks/useAppData.ts:358-377 | succeeds exactly when the match exists; it patches that match only (`Patched`), and only the matches change |
| LeagueStore.Store.RecordMatchStats | app/hooks/useAppData.ts:399-429 | each event collection grows by its stamped batch; nothing else changes |
| LeagueStore.Store.DeleteMatchEvents | app/hooks/useAppData.ts:431-445 | each event collection loses exactly the match's events |
| LeagueStore.Store.DeleteMatch | app/hooks/useAppData.ts:379-397 | the match and all of its events are removed; the teams and players stay |
| LeagueStore.Patched | app/hooks/useAppData.ts:358-368 | the match list keeps its length and is unchanged when no match has the id |
| Domain.Find | app/hooks/useAppData.ts:459-463 | `find`: a result exactly when some element has the key, and it is the first such element |
| Domain.FindPlayer | app/hooks/useAppData.ts:461 | `players.find` by id: none exactly when no player has the id, otherwise a listed player with that id |
| Domain.FindTeam | app/hooks/useAppData.ts:463 | `teams.find` by id: none exactly when no team has the id, otherwise a listed team with that id |
| Domain.FindMatch | app/hooks/useAppData.ts:459 | `matches.find` by id: none exactly when no match has the id, otherwise a listed match with that id |
| Domain.TeamOfPlayer | components/matches/addMatchDialog.tsx:77 | `players.find(...)?.teamId \|\| ""`: "" for an unknown player; a non-empty result is the team id of a player with that id |
| Domain.EventsOf | app/hooks/useAppData.ts:484-487 | only events of the player, every such event kept, never longer than the input |
| Domain.EventsOfCount | app/hooks/useAppData.ts:484-487 | each of the player's events occurs as often as in the input, any other event not at all |
| Domain.EventsOfAppend | app/hooks/useAppData.ts:484-487 | filtering a concatenation filters each part and keeps the parts in order; with EventsOfCount this fixes the filter's result |
| Domain.EventsIn | components/matches/editMatchDialog.tsx:57-60 | only events of the match, every such event kept, never longer than the input |
| Domain.EventsInCount | components/matches/editMatchDialog.tsx:57-60 | each of the match's events occurs as often as in the input, any other event not at all |
| Domain.EventsInAppend | components/matches/editMatchDialog.tsx:57-60 | filtering a concatenation filters each part and keeps the parts in order; with EventsInCount this fixes the filter's result |
| Domain.WithStatus | app/dashboard/page.tsx:65-66 | only matches with the status, every such match kept, never longer than the input |
| Domain.WithStatusCount | app/dashboard/page.tsx:65-66 | each match with the status occurs as often as in the input, any other match not at all |
| Domain.WithStatusAppend | app/dashboard/page.tsx:65-66 | filtering a concatenation filters each part and keeps the parts in order; with WithStatusCount this fixes the filter's result |
| Fixtures.TuesdayOffset | app/matches/page.tsx:43 | the offset is in 1..7, lands on a Tuesday, and skips no Tuesday; today itself is never chosen |
| Fixtures.Tuesdays | app/matches/page.tsx:39-50 | `count` Tuesdays, the first after today with none skipped, each 7 days after the previous |
| Fixtures.NextTuesdays | app/matches/page.tsx:39-50 | the date loop returns exactly `Tuesdays` |
| Fixtures.Swap | app/matches/page.tsx:56 | swaps two positions and keeps the rest |
| Fixtures.ShuffledPermutes | app/matches/page.tsx:52-59 | for every choice of draws j in [0, i], the shuffle is a permutation |
| Fixtures.Shuffle | app/matches/page.tsx:52-59 | a fresh array holding the shuffle of a copy; the argument is not modified |
| Fixtures.SwapDown | app/matches/page.tsx:54-57 | the in-place swap loop leaves the array equal to `Shuffled` of its old contents |
| Fixtures.Padded | app/matches/page.tsx:64 | one `bye` is appended exactly when the team count is odd, so the count becomes even |
| Fixtures.Rotate | app/matches/page.tsx:103 | `splice(1, 0, pop())` keeps the length and the first team |
| Fixtures.RotateNPermutes | app/matches/page.tsx:70-104 | the list of every week is a permutation of the padded list |
| Fixtures.RotateInPlace | app/matches/page.tsx:103 | the in-place rotation leaves the array equal to `Rotate` of its old contents |
| Fixtures.Pairs | app/matches/page.tsx:75-81 | the kept pairings involve no `bye` |
| Fixtures.MakeFixtures | app/matches/page.tsx:82-100 | the k-th kept pairing becomes a fixture at slot `k % 4` |
| Fixtures.GenerateFixtures | app/matches/page.tsx:61-106 | the nested loops of `generateFixtures` return exactly `Generated` for the given day and draws |
| Fixtures.AllWeeks | app/matches/page.tsx:70-104 | the week loop builds the schedule of all weeks |
| Fixtures.AddWeek | app/matches/page.tsx:73-102 | one week's inner loop appends exactly that week's fixtures |
| Fixtures.PairsAreCirclePairs | app/matches/page.tsx:75-81 | every kept pair is the circle pairing of i with n-1-i, swapped in odd weeks, with kept slots increasing |
| Fixtures.CirclePairsKept | app/matches/page.tsx:75-81 | every circle pairing without the `bye` is kept |
| Fixtures.PairsCountAll | app/matches/page.tsx:75-81 | a week keeps n/2 pairings, less one when the list holds the `bye` |
| Fixtures.WeekCount | app/matches/page.tsx:75-102 | a week holds n/2 fixtures, less one with a `bye` |
| Fixtures.ScheduleCount | app/matches/page.tsx:70-104 | w weeks hold w·(n/2 − byes) fixtures |
| Fixtures.GeneratedCount | app/matches/page.tsx:61-106 | with no team called `bye`, there are 5·⌊n/2⌋ fixtures: 5·n/2 for an even n and 5·(n−1)/2 for an odd n |
| Fixtures.WeekTeamsDistinct | app/matches/page.tsx:75-81 | with distinct ids, no fixture pits a team against itself and no team plays twice in a week |
| Fixtures.WeekListDistinct | app/matches/page.tsx:63-103 | distinct ids without a `bye` stay distinct in every week's list |
| Fixtures.ScheduleShape | app/matches/page.tsx:82-99 | every fixture is upcoming, with zero scores, points and cards and 90 minutes; its match day is in 1..w, its date is the Tuesday of its week, its time is one of the slots, and it involves no `bye` |
| Fixtures.WeekSlots | app/matches/page.tsx:96 | with four different slots, two fixtures of a week share a slot exactly when their positions agree mod 4, so the first four get different slots |
| MatchList.JsRem | app/matches/page.tsx:346 | JavaScript's `%`: the remainder takes the sign of the dividend |
| MatchList.Hour12 | app/matches/page.tsx:346 | `h % 12 \|\| 12`: never 0; 12 for NaN; for a non-negative hour, in 1..12 and congruent to it mod 12 |
| MatchList.Render12h | app/matches/page.tsx:345-347 | the text ends in " PM" exactly when the hour is a number ≥ 12, and in " AM" otherwise |
| MatchList.FormatTime12h | app/matches/page.tsx:340-348 | the result is empty exactly for the empty string |
| MatchList.FormatClockTime | app/matches/page.tsx:340-348 | `h:m` becomes `(h mod 12, or 12):m` followed by AM exactly when h < 12; the minute text is kept |
| MatchList.FormatUnreadableHour | app/matches/page.tsx:344-346 | an hour that `parseInt` cannot read shows as 12 AM |
| MatchList.FormatWithoutColon | app/matches/page.tsx:343 | a time without a colon renders with the minute text `undefined` |
| MatchList.FilterMatches | app/matches/page.tsx:187-190 | `all` keeps the list; otherwise exactly the matches with that status |
| MatchList.OnDay | app/matches/page.tsx:194-196 | exactly the matches of a day, in list order |
| MatchList.Pushed | app/matches/page.tsx:195-196 | the match goes to the end of its day's list, which is created when missing; other days do not change |
| MatchList.GroupByDay | app/matches/page.tsx:193-198 | the keys are exactly the days met; each day holds its matches in order; the key list names each day once |
| MatchList.MatchDays | app/matches/page.tsx:200 | the days, each once, strictly descending |
| MatchList.MatchDaysIgnoreKeyOrder | app/matches/page.tsx:200 | the order in which the object lists its keys does not change the result |
| MatchForms.PlayerLists.Put | components/matches/editMatchDialog.tsx:75 | `{ ...prev, [type]: list }` replaces one kind and keeps the others |
| MatchForms.SetSlot | components/matches/editMatchDialog.tsx:73-74 | slot i gets the value; other slots are kept; a write past the end leaves holes |
| MatchForms.PlayerPicks.UpdatePlayerList | components/matches/editMatchDialog.tsx:71-77 | only slot i of the named list changes; the other lists and slots are kept |
| MatchForms.SlotLayout | components/matches/addMatchDialog.tsx:217-326 | home pickers use slots 0..h−1 and away pickers use h..h+a−1, one picker per slot, for all four kinds |
| MatchForms.SliceTo | components/matches/editMatchDialog.tsx:107-110 | `slice(0, end)` is a prefix, counted from the end when `end` is negative |
| MatchForms.Chosen | components/matches/addMatchDialog.tsx:77-80 | `filter(id => !!id)` keeps exactly the set, non-empty slots |
| MatchForms.ChosenOnePerSlot | components/matches/addMatchDialog.tsx:77-80 | each set, non-empty slot gives exactly one id, in slot order |
| MatchForms.EntryOf | components/matches/addMatchDialog.tsx:77 | the entry's team is the player's team, or "" for an unknown player |
| MatchForms.Recorded | components/matches/addMatchDialog.tsx:77-80 | one entry per chosen id, in order |
| MatchForms.AddBatch | components/matches/addMatchDialog.tsx:75-82 | the add dialog's `statsToRecord`: for each kind, one entry per set, non-empty slot, in slot order, with the player's team |
| MatchForms.EditBatchCuts | components/matches/editMatchDialog.tsx:106-111 | the edit dialog's `statsToRecord` (`EditBatch`): for each kind, a prefix of what the add dialog records from the same list, with no more entries than the form's home plus away count of that kind |
| MatchForms.CutIsPrefix | components/matches/editMatchDialog.tsx:107-110 | cutting first gives a prefix of the uncut entries, with no more entries than the count |
| EditMatch.AsSlots | components/matches/editMatchDialog.tsx:57-60 | stored player ids become set slots |
| EditMatch.ChosenAsSlots | components/matches/editMatchDialog.tsx:57-60 | reading back the opened lists gives the stored player ids |
| EditMatch.StoredLists | components/matches/editMatchDialog.tsx:56-61 | the opened lists are the player ids of the match's events, per kind, in stored order |
| EditMatch.FinalPatch | components/matches/editMatchDialog.tsx:94-100 | the sent data: the status, the scores (0-0 when upcoming) and the computed points |
| EditMatch.EditedMatch | components/matches/editMatchDialog.tsx:94-102 | the edited match takes the form's status and normalised scores; its points follow those scores (1/1 for an upcoming save); no other match changes |
| EditMatch.EditedEvents | components/matches/editMatchDialog.tsx:102-113 | after an update the match has exactly its cut, filtered entries when played and none when upcoming; other matches keep their events |
| EditMatch.ResaveKeepsStoredPlayers | components/matches/editMatchDialog.tsx:57-110 | resaving with untouched lists records a prefix of the stored players, bounded by the count |
| EditMatch.EditMatchDialog.constructor | components/matches/editMatchDialog.tsx:26-35 | the dialog starts with the match as its form, empty lists and step 1 |
| EditMatch.EditMatchDialog.Open | components/matches/editMatchDialog.tsx:39-64 | opening loads the match (the date defaults to today), the stored lists and step 1 |
| EditMatch.EditMatchDialog.HandleUpdate | components/matches/editMatchDialog.tsx:79-113 | equal teams are refused before any write; otherwise the points 3/0, 0/3, 1/1 or 0/0 are sent with the form and the store ends as `EditedLeague` |
| AddMatch.BlankForm | components/matches/addMatchDialog.tsx:32-44 | the starting form: no teams, all counts 0, 90 minutes, match day 1, "19:00", played |
| AddMatch.Submission | components/matches/addMatchDialog.tsx:67-71 | the scores are 0 for an upcoming match; the form is otherwise unchanged |
| AddMatch.AddedLeague | components/matches/addMatchDialog.tsx:61-83 | the collections after a submit: nothing changes when the write fails; otherwise the new match is appended, teams and players are kept, and each event list keeps its old events as a prefix. The events added belong to the new match and to chosen players, and there are as many as chosen slots only for a played match that got an id; otherwise none are added |
| AddMatch.AddedMatchPoints | components/matches/addMatchDialog.tsx:67-73 | the added match goes last; an upcoming one is 0-0 with no points and no events, and a played one keeps its scores and gets its result's points |
| AddMatch.AddedEvents | components/matches/addMatchDialog.tsx:75-82 | under an id no stored event has, a played match's goals, assists, yellow cards and red cards are each exactly the chosen players of that list, uncut and in slot order, each with the team from the lookup |
| AddMatch.AddMatchDialog.constructor | components/matches/addMatchDialog.tsx:29-48 | the dialog starts with the blank form, no players and step 1 |
| AddMatch.AddMatchDialog.ResetForm | components/matches/addMatchDialog.tsx:90-106 | the form returns to step 1, the blank form and empty lists |
| AddMatch.AddMatchDialog.HandleNextStep | components/matches/addMatchDialog.tsx:55-59 | step 2 is reached exactly when both teams are chosen and differ; otherwise the first problem is named |
| AddMatch.AddMatchDialog.HandleFinalSubmit | components/matches/addMatchDialog.tsx:61-88 | equal teams are refused before any write; otherwise the match is added, the events are recorded for a played match that got an id, and the form is reset |
| Leaderboard.RowOf | app/stats/page.tsx:24-41 | each count is the number of events of that kind; totalCards = yellow cards + red cards |
| Leaderboard.Board | app/stats/page.tsx:24-41 | one row per player, in order |
| Leaderboard.AheadIsTotalPreorder | app/stats/page.tsx:48-52 | the tab comparator is a total preorder |
| Leaderboard.FilteredStatsRanked | app/stats/page.tsx:44-59 | the shown rows are non-increasing in the tab's figure and drawn from the board |
| Leaderboard.FilteredStatsMembers | app/stats/page.tsx:44-59 | a row is shown exactly when its name contains the query, ignoring case, and, for an empty query, its figure is above 0 |
| Leaderboard.EmptyQueryShowsNonZero | app/stats/page.tsx:54-59 | with no query, exactly the rows with a figure above 0 are shown |
| Leaderboard.FilteredStatsDistinct | app/stats/page.tsx:44-47 | with distinct player ids, each player is shown at most once |
| Dashboard.StatusSplit | app/dashboard/page.tsx:65-66 | the played and upcoming lists together hold each match once |
| Dashboard.DashboardTotals | app/dashboard/page.tsx:65-71 | the played and upcoming counts add up to all matches; the goal and assist totals are the collection sizes |
| Dashboard.Tagged | app/dashboard/page.tsx:74-77 | each event tagged with its kind, in order |
| Dashboard.FeedHoldsAllEvents | app/dashboard/page.tsx:73-78 | the feed holds exactly the events of the four lists, each tagged with its list |
| Dashboard.NewerIsTotalPreorder | app/dashboard/page.tsx:79 | the timestamp comparator is a total preorder |
| Dashboard.LatestFive | app/dashboard/page.tsx:79-80 | min(5, n) activities, newest first, drawn from the feed, and none left out newer than one kept |
| Dashboard.RecentActivityFromLists | app/dashboard/page.tsx:73-80 | every recent activity is an event of the list its tag names |
| Dashboard.TotalMinutes | app/dashboard/page.tsx:222-223 | the playtime card: the minutes of all matches less those of the upcoming ones, and never negative when no match has negative minutes |
| Dashboard.MinutesSplit | app/dashboard/page.tsx:223 | the minutes of all matches are those of the played matches plus those of the upcoming ones |
| Dashboard.MinutesNonNegative | app/dashboard/page.tsx:223 | non-negative minute counts give a non-negative total |
| Accounts.GetInvite | lib/admin.ts:41-52 | a result exactly when the invite exists and is unused |
| Accounts.PendingInvites | lib/admin.ts:73-82 | exactly the unused invites of the listing, each tagged with its code |
| Accounts.PendingInvitesDistinct | lib/admin.ts:73-82 | with each code listed once, each invite appears once |
| Accounts.GetUserRole | lib/firestore.ts:4-15 | the role when the document exists and its role is non-empty, null otherwise |
| Accounts.IsUserAdmin | lib/firestore.ts:17-20 | true exactly when the role is "admin" |
| Accounts.EntryFor | lib/admin.ts:108-116 | the user's email and name, with the role from the role document or "user" when there is none |
| Accounts.UsersWithRoles | lib/admin.ts:102-117 | exactly one entry per listed user document |
| Accounts.OneEntryPerUser | lib/admin.ts:102-117 | when the listing names the user documents, entry i belongs to user i |
| Accounts.DocStore.CreateUserInvite | lib/admin.ts:15-36 | an unused invite is stored under the code, and `getInvite` then returns it |
| Accounts.DocStore.MarkInviteAsUsed | lib/admin.ts:57-68 | fails exactly for a missing invite; otherwise the invite is used, by the user, at `now`; `getInvite` returns null afterwards |
| Accounts.DocStore.SetUserRole | lib/admin.ts:87-97 | the role is merged in, keeping `createdAt`; `isUserAdmin` holds exactly for "admin" |
| Accounts.DocStore.CreateUserDocument | lib/firestore.ts:22-41 | the user document (photo or null) and a fresh "user" role; the new user is not an admin |
| AuthForms.ErrorMessage | components/SignUpForm.tsx:11-22 | the listed message, and the default message exactly for codes not listed |
| AuthForms.CodeOf | components/SignUpForm.tsx:94 | `code \|\| 'unknown'` is never empty |
| AuthForms.MissingCodeGivesDefault | components/SignInForm.tsx:60-61 | an error without a code gets the default message |
| AuthForms.MessagesDistinct | components/SignInForm.tsx:10-21 | the seven codes have seven different messages |
| AuthForms.EmailPatternMeaning | components/SignUpForm.tsx:46 | the pattern accepts exactly the strings with no white space and one `@`, text before it, and after it a `.` with text on both sides |
| AuthForms.FirstFailure | components/SignUpForm.tsx:41-71 | none exactly when every check passes; otherwise the message of the first check that fails |
| AuthForms.ValidateSignUp | components/SignUpForm.tsx:41-71 | passes exactly when all seven checks hold; otherwise it reports the first failure in order |
| AuthForms.PaddedEmailIsInvalid | components/SignUpForm.tsx:42-49 | a non-blank email starting with white space is refused as invalid |
| AuthForms.ShortPassword | components/SignUpForm.tsx:54-61 | a non-blank password of fewer than 6 characters is refused for its length |
| AuthForms.ValidateSignIn | components/SignInForm.tsx:36-46 | a blank email first, then a blank password; anything else passes |
| AuthForms.SubmitSignUp | components/SignUpForm.tsx:73-122 | sign-up is attempted only for a valid form with a usable invite; a refusal shows its code's message and writes nothing; on success the three collections are stated exactly: the new user document, the invite marked used by the user at `now`, and a role document holding the invite's role created and updated at `now`, every other document unchanged |
| AuthForms.SubmitSignIn | components/SignInForm.tsx:48-78 | sign-in is attempted exactly when validation passes; a failure shows its code's message |
| UserProfile.InitialsOf | lib/userProfile.ts:43-46 | at most two characters: the initials of the first two pieces |
| UserProfile.GetInitials | lib/userProfile.ts:40-48 | null, undefined or "" gives "??"; otherwise "??" or one to two characters |
| UserProfile.BlankNameHasNoInitials | lib/userProfile.ts:42-47 | a name of white space only gives "??" |
| UserProfile.InitialsOfWords | lib/userProfile.ts:42-46 | the upper-cased first letters of the first two single-space pieces of the trimmed name |
| UserProfile.DoubleSpaceKeepsOneInitial | lib/userProfile.ts:42-46 | "Ann  Lee" gives "A", because the second piece is empty |
| Text.Trim | lib/userProfile.ts:42 | `trim`: no white space at either end |
| Text.TrimEmpty | components/SignUpForm.tsx:42 | the trimmed string is empty exactly when the string is blank |
| Text.Split | lib/userProfile.ts:42 | the pieces contain no separator and join back to the string |
| Text.SplitJoin | app/matches/page.tsx:343 | splitting the join of separator-free pieces gives the pieces back |
| Text.Lower | app/stats/page.tsx:46 | `toLowerCase` maps every character |
| Text.LowerIgnoresCase | app/stats/page.tsx:46 | lower-casing is idempotent and forgets upper case |
| Text.Includes | app/stats/page.tsx:46 | `includes` is true exactly when the substring occurs at some position |
| Text.ShowInt | app/matches/page.tsx:347 | a rendered integer has at least one character, and a minus sign exactly when negative |
| Text.ParseShowInt | app/matches/page.tsx:344 | `parseInt` reads back a rendered integer |
| Sorting.Sort | app/hooks/useAppData.ts:532 | the sort returns a permutation of its input; `SortSorted` and `SortStable` give the order |
| Sorting.SortSorted | app/hooks/useAppData.ts:532 | under a total preorder the result is sorted |
| Sorting.SortClass | app/hooks/useAppData.ts:532 | for any class of elements that rank equal to each other, the sort keeps them in input order |
| Sorting.SortStable | app/hooks/useAppData.ts:532 | stability: under a total preorder, the elements ranking equal to any `x` are in the same order after the sort as before |
| Sorting.TopK | app/hooks/useAppData.ts:497-498 | the first k of a sorted permutation are the best k |
| Sorting.FilterSorted | app/stats/page.tsx:54-59 | filtering a sorted list keeps it sorted |
| Common.Dedup | app/hooks/useAppData.ts:451-456 | `Array.from(new Set(s))`: each element of `s` exactly once, listed in the order of first occurrence |

## Left out

- Firestore I/O:
  - network failures, batch commits and query execution are not modelled;
  - `getInvite`, `getUserRole`, `getPendingInvites` and `getAllUsersWithRoles` return null or `[]` on a read error, which is not modelled;
  - a write that fails is the parameter `written` of `addMatch`;
  - the order in which a query returns documents is a `listing` parameter.
- The re-fetch after each write is assumed, with two differences from the hook's lists:
  - the hook reads `matches` ordered by `matchDay`, descending, and Firestore's `orderBy` leaves out documents without that field. The model keeps matches in the order they were added (`LeagueStore.Store.AddMatch` appends), so the in-day order of `MatchList.OnDay` and `MatchList.GroupByDay` is insertion order, not the fetched order;
  - `deleteMatchEvents` does not re-fetch. Editing a match to `upcoming` runs `updateMatch` (which re-fetches) and then `deleteMatchEvents`, and records nothing. The hook's goals, assists and card lists therefore keep that match's old events until the next fetch, and so do the leaderboard, `getPlayerStats`, the dashboard feed and a reopened edit dialog. The model's state is the stored documents: `EditMatch.EditedEvents` and `EditMatch.EditMatchDialog.HandleUpdate` state the stored events, not this stale copy;
  - the hook reads the four event collections without `orderBy`, so Firestore returns them in document-id order, and `recordMatchStats` writes each event under a random id. The model keeps each event list in write order, with a batch appended in entry order. So the sequence order stated by `LeagueStore.RecordedEventsOfMatch`, `LeagueStore.Store.RecordMatchStats`, `EditMatch.StoredLists` and `EditMatch.EditedEvents` is the write order, not the fetched order. The fetched order decides which picker slot each stored player fills when the edit dialog opens, and so which players a lowered count cuts off. It also decides the first-touched order of `PlayerStats.GetPlayerRecords` and the tie order of `Dashboard.LatestFive`. The multisets of events are the same either way;
  - the hook keeps each event document's id (`{ id, ...data }`). `PlayerEvent` has no id, so two events of one player, match and kind written in one batch are equal values. Counts and memberships are unaffected; nothing in the model refers to an event by its document id.
- The clearing batch and the appointment in `setManager` are modelled as a sequence; concurrent readers between them are not.
- The Firestore query in `addMatch` is modelled as the highest stored match day. A stored match day that is not a number is not modelled.
- `serverTimestamp()` is the parameter `now`, `new Date()` is the parameter `today`, and `Math.random` in `shuffle` is a sequence of draws in [0, i].
- `generateInviteCode` is the parameter `code`: its float-to-base-36 conversion is not modelled.
- Dates are day numbers:
  - `toISOString` and the time zone are not modelled;
  - in the edit dialog, a stored date that does not parse is not modelled (a missing date gives today);
  - `matchDate` in a player record is the creation time in seconds, not an ISO string.
- Floating point is not modelled: `avgGoals` and its `toFixed`.
- The `Number(m.minutesPlayed) || 0` conversion is modelled only as "a number, or missing/not a number as 0". Strings that hold numbers are not modelled.
- Statuses other than `played` and `upcoming` are not modelled.
- Strings:
  - case mapping covers ASCII letters only;
  - lengths count code points, not UTF-16 units;
  - `parseInt` is exact, without the precision limit of doubles.
- The `errorMessages` lookup is modelled as a finite map: keys inherited from the object prototype are not.
- Firebase Auth is the parameters `auth` and `signIn`; the profile-photo upload of `signUp` is the parameter `photoUrl`; `signUp`'s Auth profile update is not modelled.
- A failed `updateMatch` in the edit dialog only shows a toast, and the dialog carries on clearing and recording events. That is modelled; the toast text is not. Exceptions thrown by other writes are not modelled.
- Toasts other than the form messages, dialog open/close state, loading flags, navigation and rendering are not modelled.
- The `match_records` writes `addRecord` and `updateRecord` are not modelled: they have no logic beyond a write.
- `GenerateFixturesDialog` and the `handleAutoGenerate` loop are not modelled. The generator always builds five weeks.
- The `records` list of the match-records page is not modelled: the hook never returns it.
- `updateUserProfilePicture` and the logo upload are not modelled.
- `setManager` finds the team's players by the stored `team_id` field. A player document that carries only the older `teamId` field keeps its flag in the source, but the model clears it with the rest of the team.
- Text.Trim: its contract states only that no white space remains at either end; that exactly the surrounding white space is removed follows from `TrimStart` and `TrimEnd`.
- Dashboard.FeedHoldsAllEvents: states membership only. That the feed's length is the sum of the four list lengths is not stated.
- LeagueStore.Patched: states only the length and the no-match case. The patched match's contents are stated by `EditMatch.EditedMatch` and `LeagueStore.Updated`.
- Standings.GetStandings: requires distinct team ids. Team documents have unique ids; with repeated ids the source's keyed table would keep one row.
