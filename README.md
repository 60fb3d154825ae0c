# RGAO tournament site: draft, leaderboard and records logic

This project is a Dafny model of the sequential logic behind the RGAO golf tournament site, a Next.js application. The model has four parts.

- **Ryder Cup draft data** (`RyderCup`, from src/data/ryder-cup.ts):
  - the two teams and their captains;
  - the seeded sixteen-player roster and `TOTAL_PICKS`;
  - the starting draft state;
  - the non-snake turn-order rule `getCurrentPickTeam`.
- **Free-assignment draft board** (`DraftBoard`, from src/app/draft/page.tsx).
  - The page's three state cells become a class `Board`: the player list, the selected player and a newest-first log.
  - Its methods are the page's handlers: assign the selection to a team, send a player back to the pool, reset the board and toggle the selection.
  - The available and drafted panels are filters over the player list.
- **Team leaderboard** (`Dashboard`, from src/app/dashboard/page.tsx):
  - syncing teams from a saved draft by player name;
  - the single-field matchup edits;
  - the names offered for a matchup slot (`getAvailable`) and the slot's option list;
  - the 10.5-point win check;
  - the team roster order and the individual table order;
  - the result badge;
  - the saved-state, edit-buffer and edit-mode cells of the page, as a class `LeaderboardPage`.
- **Historic records** (`Records`, from src/app/records/page.tsx):
  - the `champions` filter;
  - the `totalTitles` tally loop;
  - the two halves of the "Roll of Champions" grid.

Three support modules hold shared definitions:
- `Wrappers` defines `Option`.
- `Seqs` defines an order-preserving `Filter`, the model of `Array.prototype.filter`, with its subsequence and partition lemmas.
- `Sorting` defines a stable insertion sort, the model of `Array.prototype.sort`, with the proof that it orders by any total preorder and permutes its input.

Modelling choices:
- Points are Dafny `real`, so half points are exact.
- A JavaScript `null` is `None`.
- An empty matchup slot is the empty string, as in the source.

## Model

| member | source | states |
|---|---|---|
| RyderCup.OtherTeam | src/data/ryder-cup.ts:84 | `secondTeam` is the other team and never equals `firstTeam`. |
| RyderCup.CurrentPickTeam | src/data/ryder-cup.ts:82-86 | The first team picks exactly when `draftedCount` is even (odd pick number), the other team exactly when it is odd. |
| RyderCup.PicksAlternate | src/data/ryder-cup.ts:81-85 | Consecutive picks go to different teams (no snake), and the order repeats with period two. |
| RyderCup.PicksSplitEvenly | src/data/ryder-cup.ts:82-86 | Over any even number `2k` of picks, each team picks exactly `k` times. |
| RyderCup.EachTeamPicksSeven | src/data/ryder-cup.ts:68-69 | Over the `TOTAL_PICKS` picks, each team picks exactly seven times, whichever team goes first. |
| RyderCup.InitialPlayers | src/data/ryder-cup.ts:49-66 | The roster constant. Its properties are stated by `RyderCup.InitialCaptains`, `RyderCup.InitialPool`, `RyderCup.InitialPlayersSeeded`, `RyderCup.InitialPlayersCount`, `RyderCup.InitialIdsDistinct` and `RyderCup.InitialCaptainsMatchTeams`. |
| RyderCup.TotalPicks | src/data/ryder-cup.ts:69 | The pick count constant. `RyderCup.InitialPlayersCount` proves it equals the number of non-captains, and `RyderCup.EachTeamPicksSeven` proves each team gets seven picks. |
| RyderCup.InitialCaptains | src/data/ryder-cup.ts:49-51 | The roster opens with the two captains, each already on the team they lead. |
| RyderCup.InitialPool | src/data/ryder-cup.ts:52-66 | The other fourteen players have ids 3 to 16 and are not captains. Their team, captaincy and pick number are null. |
| RyderCup.InitialPlayersSeeded | src/data/ryder-cup.ts:48-66 | No pick number is set. Each captain's team equals its `captainOf`, each non-captain has neither, and each team has a captain. |
| RyderCup.InitialPlayersCount | src/data/ryder-cup.ts:48-69 | There are exactly two captains, and the non-captain count equals `TOTAL_PICKS`. |
| RyderCup.InitialIdsDistinct | src/data/ryder-cup.ts:49-66 | Ids run from 1 to 16 in roster order, so no two players share one. |
| RyderCup.InitialCaptainsMatchTeams | src/data/ryder-cup.ts:28-51 | Every roster captain is the captain that `TEAMS` names for the team they lead. |
| RyderCup.InitialDraftState | src/data/ryder-cup.ts:72-79 | The initial players equal `INITIAL_PLAYERS`, the log is empty, there is no first team and no coin flip. |
| RyderCup.InitialDraftStateConsistent | src/data/ryder-cup.ts:72-79 | The starting state has coin flip ⇔ first team set, one log entry per numbered pick, and a seeded roster. |
| DraftBoard.AvailablePlayers | src/app/draft/page.tsx:11 | Exactly the listed players with a null team. |
| DraftBoard.DraftedPlayers | src/app/draft/page.tsx:12 | Exactly the listed players with a team. |
| DraftBoard.AvailableDraftedPartition | src/app/draft/page.tsx:11-12 | The two panels are disjoint, their sizes sum to the list length, their multisets sum to the list, and each keeps list order. |
| DraftBoard.WithTeam | src/app/draft/page.tsx:17 | Same length. Each player with the id gets the new team and every other player is unchanged. |
| DraftBoard.FindById | src/app/draft/page.tsx:24 | `None` exactly when no player has the id, otherwise the first player that has it. |
| DraftBoard.AssignLeavesPool | src/app/draft/page.tsx:11-18 | After an assignment, the available panel is the old panel minus the players with that id, in the same order. |
| DraftBoard.UndoLeavesTeams | src/app/draft/page.tsx:12-26 | After an undo, the drafted panel is the old panel minus the players with that id, in the same order. |
| DraftBoard.UndoReversesAssign | src/app/draft/page.tsx:17-26 | Undoing an assignment of players who were in the pool gives back the original list. |
| DraftBoard.ClearTeams | src/app/draft/page.tsx:31 | Every player, captains included, gets a null team. Ids, names, handicaps and captaincy are kept. |
| DraftBoard.ResetUnseatsCaptains | src/app/draft/page.tsx:31 | When the roster seeds anyone onto a team, the reset list differs from the roster, and every reset player is available. |
| DraftBoard.Board.constructor | src/app/draft/page.tsx:7-9 | The board starts with the roster, no selection and an empty log. |
| DraftBoard.Board.AssignToTeam | src/app/draft/page.tsx:14-21 | With nothing selected, nothing changes. Otherwise only the selected id's players get the team, exactly one pick is prepended to the log, and the selection is cleared. |
| DraftBoard.Board.UndoDraft | src/app/draft/page.tsx:23-28 | For an unknown id nothing changes. Otherwise only that id's players go back to the pool, captains included, and one entry is prepended to the log. |
| DraftBoard.Board.ResetDraft | src/app/draft/page.tsx:30-34 | The list becomes the roster with every team null, the log is empty and there is no selection. |
| DraftBoard.Board.ToggleSelection | src/app/draft/page.tsx:81 | Clicking the selected player deselects it; clicking any other player selects it. Nothing else changes. |
| Dashboard.LeaderboardTeam | src/app/dashboard/page.tsx:46 | `'rwb'` maps to `'rp'` and `'gwr'` to `'dom'` (both directions); any other value clears the team. |
| Dashboard.FindByName | src/app/dashboard/page.tsx:44 | The index of the first player with that name, or `None` when nobody has it. |
| Dashboard.LastTeamFor | src/app/dashboard/page.tsx:43-48 | `None` exactly when no entry with the name has a truthy team. Otherwise the result is the team of an entry with that name and a truthy team, and no later entry with that name has a truthy team. |
| Dashboard.SyncOne | src/app/dashboard/page.tsx:44-47 | One pass of the loop keeps the length. An entry with a falsy team, or whose name no player has, changes nothing. Otherwise only the first player with that name changes, and only its team, which becomes the mapped value. |
| Dashboard.SyncTeams | src/app/dashboard/page.tsx:43-48 | The sync over the whole draft keeps every player but their team, and leaves any player that no entry names untouched. The closed form is `Dashboard.SyncTeamsEffect`. |
| Dashboard.SyncTeamsEffect | src/app/dashboard/page.tsx:43-48 | After the sync, only the first player with each name can change, and only its team. It takes the mapped team of the last truthy entry with its name; a falsy or unmatched entry changes nothing. |
| Dashboard.SyncTeamsIdempotent | src/app/dashboard/page.tsx:81-86 | The sync changes only teams, and running it twice equals running it once. |
| Dashboard.ApplyDraftTeams | src/app/dashboard/page.tsx:81-86 | The in-place loop over the draft's players gives the sync's result, player by player. |
| Dashboard.SyncFromDraft | src/app/dashboard/page.tsx:73-90 | Without a saved draft or its players, nothing changes. Otherwise rounds are untouched and players differ only in their teams. |
| Dashboard.SyncFromDraftIdempotent | src/app/dashboard/page.tsx:73-90 | Syncing twice gives the same state as syncing once. |
| Dashboard.WithMatchup | src/app/dashboard/page.tsx:95-101 | Only the one matchup is replaced; every other matchup, every round header and all players are unchanged. |
| Dashboard.SetMatchupPlayer | src/app/dashboard/page.tsx:92-103 | Exactly one slot of one side takes the name. Every other slot, the other side, the result and the winner are unchanged, and so is the rest of the state. |
| Dashboard.SetMatchupWinner | src/app/dashboard/page.tsx:105-113 | Only that matchup's winner changes. |
| Dashboard.SetMatchupResult | src/app/dashboard/page.tsx:115-121 | Only that matchup's result text changes. |
| Dashboard.TeamNames | src/app/dashboard/page.tsx:138 | A name is listed exactly when some player on the side has it. |
| Dashboard.SlotNamesUsedMember | src/app/dashboard/page.tsx:142-144 | One matchup contributes exactly the non-empty names in its slots, except the slot being edited. |
| Dashboard.UsedNamesMember | src/app/dashboard/page.tsx:139-145 | The `used` set holds exactly the non-empty names in the side's other slots of the round. |
| Dashboard.CollectUsedNames | src/app/dashboard/page.tsx:139-145 | The outer loop over the round's matchups fills `used` with exactly `UsedNames`, whose members `Dashboard.UsedNamesMember` describes. |
| Dashboard.CollectSlotNames | src/app/dashboard/page.tsx:142-144 | The inner loop collects the used names of one matchup. |
| Dashboard.Unused | src/app/dashboard/page.tsx:146 | The team names not in `used`, as a subsequence in roster order, each as many times as it occurs in the team's names. |
| Dashboard.UnusedMultiplicity | src/app/dashboard/page.tsx:146 | Filtering out the used names keeps every other name with its full multiplicity and drops every copy of a used one. |
| Dashboard.GetAvailable | src/app/dashboard/page.tsx:136-147 | The result is a subsequence of the side's names, in roster order. A name is offered exactly when it is on the team and no other slot of that side in the round holds it; the slot's own value is never held against it. A name offered appears as many times as the side has players with that name. |
| Dashboard.SlotOptions | src/app/dashboard/page.tsx:432-433 | The slot's current non-empty value is always an option, placed in front of the available names, in their order, when `getAvailable` left it out (`[val, ...avail]`). Otherwise the options are the available names. |
| Dashboard.Winner | src/app/dashboard/page.tsx:149 | `'rp'` exactly when rp ≥ 10.5, `'dom'` exactly when rp < 10.5 ≤ dom, and no winner otherwise. |
| Dashboard.CaptainFirstOrder | src/app/dashboard/page.tsx:131 | A list ordered by the roster comparator has every captain before every non-captain, and non-captains in ascending handicap. |
| Dashboard.SortTeam | src/app/dashboard/page.tsx:128-131 | A permutation of the side's players: exactly the players on the side, captains first, then ascending handicap. |
| Dashboard.WithRecords | src/app/dashboard/page.tsx:554 | Each player is paired with `getPlayerRecord` of their name, in order. |
| Dashboard.IndividualTable | src/app/dashboard/page.tsx:552-555 | A permutation of the assigned players' rows, each player paired with their record. The rows are ordered by points descending, then losses ascending, then handicap ascending. |
| Dashboard.AnyFilled | src/app/dashboard/page.tsx:597 | True exactly when some slot is non-empty. |
| Dashboard.BadgeLabel | src/app/dashboard/page.tsx:595-601 | An undecided matchup shows "Pending" when any slot is filled, else "---". A decided one shows its result text, else "AS", "RP" or "DOM" by winner. |
| Dashboard.Hydrated | src/app/dashboard/page.tsx:28-57 | The saved leaderboard when there is one; otherwise the initial state with teams synced from the saved draft. |
| Dashboard.LeaderboardPage.Current | src/app/dashboard/page.tsx:124 | The page shows the edit buffer in edit mode and the saved state otherwise. When the page invariant holds, the shown data is always the buffer, since outside edit mode the buffer equals the saved state. |
| Dashboard.LeaderboardPage.constructor | src/app/dashboard/page.tsx:28-57 | Both the saved state and the buffer are the hydrated state, and edit mode is off. |
| Dashboard.LeaderboardPage.EnterEdit | src/app/dashboard/page.tsx:60-63 | The buffer becomes a copy of the saved state and edit mode turns on. |
| Dashboard.LeaderboardPage.Save | src/app/dashboard/page.tsx:64-68 | The saved state becomes the buffer and edit mode turns off. |
| Dashboard.LeaderboardPage.Cancel | src/app/dashboard/page.tsx:69-72 | The buffer is reset to the unchanged saved state and edit mode turns off. |
| Dashboard.LeaderboardPage.SyncDraft | src/app/dashboard/page.tsx:73-90 | Only the buffer changes: it is synced from the draft, while the saved state stays. |
| Dashboard.LeaderboardPage.UpdateMatchupPlayer | src/app/dashboard/page.tsx:92-103 | Only the buffer changes, by exactly one slot. |
| Dashboard.LeaderboardPage.UpdateMatchupWinner | src/app/dashboard/page.tsx:105-113 | Only the buffer changes, in exactly one matchup's winner. |
| Dashboard.LeaderboardPage.UpdateMatchupResult | src/app/dashboard/page.tsx:115-121 | Only the buffer changes, in exactly one matchup's result. |
| Records.Champions | src/app/records/page.tsx:4 | Exactly the records with a non-null champion, each as many times as it occurs in the input, in their original order. |
| Records.ChampionsMultiplicity | src/app/records/page.tsx:4 | Filtering by a non-null champion keeps each such record with its full multiplicity and drops every other record. |
| Records.TitlesOf | src/app/records/page.tsx:6-10 | The number of records a name won. It is zero exactly when no record names them. |
| Records.Tally | src/app/records/page.tsx:6-10 | The tally after the loop has visited the records: every key is a non-empty name whose count is between 1 and the number of records. The exact counts are in `Records.TallyCounts`. |
| Records.TallyCounts | src/app/records/page.tsx:5-10 | Every tally equals the holder's number of titles and is at least 1. Names that never won are absent, and so is the empty name. |
| Records.TallySum | src/app/records/page.tsx:5-10 | The tallies add up to the number of records whose champion is truthy. |
| Records.TallySumMatchesChampions | src/app/records/page.tsx:4-10 | When no champion is the empty string, the tallies add up to `champions.length`. |
| Records.EmptyChampionNotTallied | src/app/records/page.tsx:4-8 | A champion named by the empty string passes the `champions` filter but is never tallied. |
| Records.TallyTitles | src/app/records/page.tsx:5-10 | The `forEach` loop builds the tally: each key's count is that name's number of titles, and no other names appear. |
| Records.RollOfChampionsPartition | src/app/records/page.tsx:26-38 | The crowned-year grid and the other grid are disjoint, and together they hold every record exactly once. |

## Left out

- `getRoundPoints`, `getTotalPoints`, `getPlayerRecord`, `formatPoints` and `createInitialState` are imported from a data module that is not part of this model. The model claims nothing about them.
  - `Winner` takes the two team totals as arguments.
  - `IndividualTable` takes the record lookup as a function argument.
  - The page's constructor takes the initial state as an argument.
- The coin flip, pick numbering and last-in-first-out undo implied by the draft-state type are not implemented by any of the modelled files, so they are not modelled. `Consistent` is only checked on the starting state.
- Not modelled: local storage, JSON parsing and serialisation, the file storage module, the HTTP routes and the request authorisation.
  - A missing or unparsable saved value is an `Option` argument.
  - `deepClone` is a plain value copy.
  - `handleSave` does not model the storage write.
- Not modelled: the hydration flag and the "Loading" view, all JSX and CSS, the colour maps, the progress-bar widths and the static content tables.
- The draft board's roster (`players` of src/data/players.ts) is a constructor argument.
  - The optional `captain` flag reads as `false` when absent.
  - The `scores` field is not modelled.
- DraftBoard.Board.AssignToTeam, DraftBoard.Board.UndoDraft: the text of a log line, which mentions a `nickname` field the player type does not have, is modelled as an abstract entry holding the team and the player's name.
- RyderCup.CurrentPickTeam: `draftedCount` is a `nat`. JavaScript's remainder of a negative count is not modelled, because the count is a number of picks made.
- Dashboard.SyncTeamsEffect: a draft entry's team is a string or absent. A truthy non-string JSON value (a number, say) is not modelled; it would clear the team, like any unknown string.
- Dashboard.SortTeam: the source's comparator returns −1 for two captains in either order, so it is not a consistent comparator. The model uses the preorder in which captains tie, so captains keep their list order. The two agree whenever a team has at most one captain, as the rosters in src/data/players.ts and `INITIAL_PLAYERS` have; the leaderboard's own players come from `createInitialState` or saved state, which are not part of this model.
- Dashboard.SetMatchupPlayer, Dashboard.SetMatchupWinner, Dashboard.SetMatchupResult: these require the round, matchup and slot to exist. The page only calls them from controls drawn for existing slots, and an out-of-range index would throw or grow the array in the source.
- Dashboard.LeaderboardPage.SyncDraft, Dashboard.LeaderboardPage.UpdateMatchupPlayer, Dashboard.LeaderboardPage.UpdateMatchupWinner, Dashboard.LeaderboardPage.UpdateMatchupResult: these require edit mode. The handlers themselves do not check it, but the page renders their controls only in edit mode (src/app/dashboard/page.tsx:188-195, 428).
- Records.TallySumMatchesChampions: the sum equals `champions.length` only when no champion is the empty string. The `champions` filter tests `!== null` while the loop tests truthiness, so an empty-string champion is counted by one and not the other (`Records.EmptyChampionNotTallied`). The records data has no such entry, and the general statement is `Records.TallySum`.
- Records.TallyTitles, Records.Tally, Records.TallyCounts: the tally is a map from names to counts. The source tallies into a plain JavaScript object, so a champion named after an inherited `Object.prototype` member behaves differently there. `"constructor"` or `"toString"` would start from the inherited function and produce a string, and `"__proto__"` would never become a key. The model counts such names like any other. The records data names only people.
- Dashboard.Winner: the 10.5 threshold is hard-coded, as in the source. It is not derived from the rounds' `pointsAvailable`.
