# Basketball-Stat live ledger and statistics, in Dafny

This project models the core of Basketball-Stat, a single-page basketball scoring app:

- The live game ledger kept in `src/App.jsx`. It holds one record of eleven counters per home
  player, the two team scores, and the handlers that record and undo events. It also builds the
  rows saved at the end of a game.
- The enabling guards and derived figures of the scoring panels (`ScoreBoard`, `TeamBScorer`).
- The pure statistics views:
  - team totals of a saved game (`GameDetail`);
  - career roll-up and ranking (`PlayerAnalytics`);
  - the live player list (`PlayerStats`);
  - the history grouped by date (`GameHistory`);
  - roster entry and validation (`GameSetup`);
  - the substitution dialog (`SubstitutionModal`).

Layout, one module per source file plus shared helpers:

| file | module | models |
|---|---|---|
| `counters.dfy` | `Counters` | the eleven counters of a player record, points from makes |
| `rounding.dfy`, `decimal.dfy` | `Rounding`, `Decimal` | `Math.round` percentages and `toFixed(1)` texts |
| `sequences.dfy`, `dicts.dfy`, `wrappers.dfy` | `Sequences`, `Dicts`, `Wrappers` | grouping by key, a stable descending sort, insertion-ordered objects, `Option` |
| `records.dfy` | `Records` | stored `player_stats` and `games` rows, with a null column read as 0 |
| `ledger.dfy` | `Ledger` | `App.jsx` |
| one file per component | same name | the component |

The ledger has two layers:

- Each handler is a pure transition function on a ledger value (`AfterScore`, `AfterShot`, …).
  Every such function states the handler's whole effect.
- The class `GameLedger` has the mutable `stats`/`scores` fields. Each of its methods is proved
  to perform exactly that transition.

The invariant `Ledger.Consistent` holds that:

- every record belongs to the home team;
- no record has more makes than attempts;
- the home score equals Σ(2·twoPointMade + 3·threePointMade);
- the away score is not negative.

The UI's enabling guards (`ScoreBoard.jsx`, `TeamBScorer.jsx`) are exactly what keeps this
invariant. Two concrete lemmas show that each of the two shot-undo guards is needed.

Where the code and its written description disagree, the model follows the code:

- The career total of points is recomputed from the makes (`PlayerAnalytics.jsx:53`). The
  stored `total_points` is not used. `PlayerAnalytics.CareerExample` therefore uses rows whose
  makes are worth 10 and 20 points, with stored totals of 10 and 99.
- `handleStartGame` does not reset the scores (`App.jsx:27-52`). The invariant after a start
  (`Ledger.StartConsistent`) assumes a 0 : 0 score. Every way of ending a game produces that
  score (`Ledger.ResetThenStartConsistent`).

## Model

| member | source | states |
|---|---|---|
| Counters.Tally.Set | src/App.jsx:55-61 | the record `{...prev[p], [k]: v}`: counter k becomes v and every other counter is unchanged |
| Counters.ZeroIsZero | src/App.jsx:33-47 | the fresh record has all eleven counters at 0 |
| Counters.Points | src/components/ScoreBoard.jsx:32-34 | a record's points are 2·twoPointMade + 3·threePointMade |
| Counters.PointsIgnoreOtherCounters | src/components/ScoreBoard.jsx:32-34 | changing any counter other than the two make counters leaves the points unchanged |
| Counters.MadeKey | src/App.jsx:93 | shot type 2 selects twoPointMade, every other shot type selects threePointMade |
| Counters.AttemptedKey | src/App.jsx:94 | shot type 2 selects twoPointAttempted, every other shot type selects threePointAttempted |
| Counters.PointsOfMade | src/App.jsx:105-110 | changing the make counter of shot type s by d changes the points by s·d |
| Rounding.RoundHalfUp | src/components/PlayerAnalytics.jsx:72 | the result is the integer nearest n/d, with halves rounded up |
| Rounding.RoundHalfUpBounded | src/components/PlayerAnalytics.jsx:72 | if n ≤ scale·d, the rounded quotient is at most scale |
| Rounding.RoundedPercent | src/components/PlayerAnalytics.jsx:71-73 | 0 with no attempts, else the percentage of made over attempted, rounded half up |
| Rounding.RoundedPercentBounded | src/components/PlayerAnalytics.jsx:72 | with made ≤ attempted the percentage is at most 100 |
| Rounding.TenthsPercent | src/components/GameDetail.jsx:46 | the percentage in tenths, rounded half up |
| Rounding.PercentText | src/components/GameDetail.jsx:44-47 | the text is "0" exactly when there are no attempts, otherwise the percentage to one decimal |
| Rounding.TenthsPercentBounded | src/components/GameDetail.jsx:46 | with made ≤ attempted the percentage is at most 100.0 |
| Rounding.AverageText | src/components/PlayerAnalytics.jsx:132 | "0" exactly when there are no games, otherwise total/count to one decimal |
| Rounding.PercentExamples | src/components/PlayerAnalytics.jsx:71-73 | 0/0 → 0; 3/4 → 75; 1/3 → 33; 1/4 → 25; 1/3 as a text → "33.3" |
| Decimal.NatToString | src/components/GameSetup.jsx:82 | the decimal digits of a number: non-empty, all digits, one digit exactly below 10 |
| Decimal.NatToStringInjective | src/components/GameSetup.jsx:82 | different numbers have different decimal texts |
| Decimal.PrefixedInjective | src/components/GameSetup.jsx:82 | `teamA-${i}` differs for different i |
| Decimal.FixedOne | src/components/GameDetail.jsx:46 | `toFixed(1)` of tenths: the integer part, a point, then the one tenths digit |
| Decimal.NatToStringValue | src/components/GameSetup.jsx:82 | the printed digits, read back as a decimal number, give the number printed |
| Decimal.FixedOneValue | src/components/GameDetail.jsx:46 | the `toFixed(1)` text of tenths reads back as tenths / 10 before the point and tenths % 10 after it |
| Records.Field | src/components/GameDetail.jsx:53-63 | a stored column read with a 0 default: its value, or 0 when null |
| Sequences.FirstKeys | src/components/PlayerAnalytics.jsx:29-45 | the keys of the rows, each once, exactly those some row has |
| Sequences.GroupSizesTotal | src/components/GameHistory.jsx:36-43 | the groups of the distinct keys have sizes that add up to the number of rows |
| Sequences.SortDescCorrect | src/components/PlayerAnalytics.jsx:62 | the sort gives a permutation, sorted by key with the highest first; rows with equal keys keep their order, so the sort is stable |
| Dicts.Dict.Put | src/App.jsx:33 | `obj[k] = v`: k maps to v, a new key goes to the end of the enumeration order, an existing key keeps its place |
| Dicts.Dict.Values | src/App.jsx:175 | `Object.values`: one value per key, in key order |
| GameSetup.RosterForm.constructor | src/components/GameSetup.jsx:7 | the form starts with one empty name |
| GameSetup.RosterForm.AddPlayer | src/components/GameSetup.jsx:55-57 | one empty name is appended |
| GameSetup.RosterForm.UpdatePlayer | src/components/GameSetup.jsx:59-63 | only index i changes, to the new name, and the length is kept |
| GameSetup.RosterForm.RemovePlayer | src/components/GameSetup.jsx:65-67 | exactly index i is removed and the rest keep their order; offered only when length > 1 (line 169), so the list never becomes empty |
| GameSetup.WithoutRemovesIndex | src/components/GameSetup.jsx:66 | the filter `i !== index` removes exactly that index, or nothing when it is out of range |
| GameSetup.TrimStart | src/components/GameSetup.jsx:83 | drops exactly the leading white space |
| GameSetup.TrimEnd | src/components/GameSetup.jsx:83 | drops exactly the trailing white space |
| GameSetup.TrimEmpty | src/components/GameSetup.jsx:70 | a trimmed name is empty exactly when every character is white space |
| GameSetup.TrimTrims | src/components/GameSetup.jsx:83 | a non-empty trimmed name neither starts nor ends with white space |
| GameSetup.NumberedPlayers | src/components/GameSetup.jsx:81-84 | one player per valid name |
| GameSetup.HandleStart | src/components/GameSetup.jsx:69-91 | a started game carries the two typed team names, at least one home player and no away players |
| GameSetup.StartRefusedIffAllBlank | src/components/GameSetup.jsx:70-75 | the start is refused exactly when every name is blank |
| GameSetup.StartRoster | src/components/GameSetup.jsx:77-91 | the players are the non-blank names, trimmed, in order; the i-th has id `teamA-i`, so the ids are pairwise distinct; no player name is empty; the away team has no players |
| Ledger.Scores.With | src/App.jsx:65-68 | `{...prev, [team]: v}`: that side's score becomes v and the other side's is unchanged |
| Ledger.Max0 | src/App.jsx:86 | `Math.max(0, x)` |
| Ledger.ZeroStatsEntries | src/App.jsx:31-48 | one entry per roster id, each on the home team with all counters 0 |
| Ledger.ZeroStatsKeys | src/App.jsx:31-48 | with distinct ids, the entries are enumerated in roster order, one per player |
| Ledger.ZeroStatsName | src/App.jsx:31-48 | with distinct ids, every roster player has an entry, and it carries that player's name |
| Ledger.InitialStats | src/App.jsx:31-48 | the `forEach` loop builds exactly one zero record per roster id, a repeated id overwriting the earlier record |
| Ledger.AfterStart | src/App.jsx:27-52 | the game is started and the teams are the new teams; the stats hold a record exactly for each roster id and for nothing else, each on the home side with every counter at 0, enumerated in roster order when the ids are distinct; the scores are not touched |
| Ledger.AfterScore | src/App.jsx:54-70 | only record p changes, and only its counter k, which rises by 1; the player's team score rises by the points only when points > 0; nothing else changes |
| Ledger.AfterUndo | src/App.jsx:72-90 | nothing changes when the counter is 0; otherwise the counter drops by 1, the team score becomes max(0, score − points) when points > 0, and nothing else changes |
| Ledger.AfterShot | src/App.jsx:92-112 | the attempts of the shot type rise by 1; the makes, and the team score by the shot type, rise exactly on a make; nothing else changes |
| Ledger.AfterUndoShot | src/App.jsx:114-136 | nothing changes when the attempts are 0; otherwise the attempts drop by 1, on a make the makes become max(0, makes − 1) and the team score max(0, score − shot type), and nothing else changes |
| Ledger.AfterTeamBScore | src/App.jsx:138-143 | the away score rises by the points and nothing else changes |
| Ledger.AfterTeamBUndo | src/App.jsx:145-150 | the away score becomes max(0, score − points) and nothing else changes |
| Ledger.AfterReset | src/App.jsx:207-212 | the game is not started, the stats are empty and the score is 0 : 0; the teams are kept |
| Ledger.StartConsistent | src/App.jsx:27-52 | a start from 0 : 0 satisfies the ledger invariant |
| Ledger.ZeroPoints | src/App.jsx:33-47 | records that are all zero add up to 0 points |
| Ledger.ResetThenStartConsistent | src/App.jsx:207-212 | a start after a reset always satisfies the invariant |
| Ledger.ShotThenUndoRestores | src/App.jsx:92-136 | a shot followed by its undo gives back exactly the earlier stats and scores |
| Ledger.ScoreThenUndoRestores | src/App.jsx:54-90 | a counter event followed by its undo gives back exactly the earlier state |
| Ledger.TeamBScoreThenUndoRestores | src/App.jsx:138-150 | from a non-negative away score, a score followed by its undo restores the state |
| Ledger.StatRowOf | src/App.jsx:175-197 | the row has the game id and player name, the home or away team name by the record's side, every column equal to its counter, and `total_points` = 2·twoPointMade + 3·threePointMade |
| Ledger.RowsFor | src/App.jsx:175 | one row per stats entry, in the entries' order |
| Ledger.PlayerStatsPayload | src/App.jsx:175-197 | `playerStatsData`: one row per stats entry in the object's order, each with the game id, the entry's player name, every column equal to its counter and `total_points` equal to the record's points |
| Ledger.RowsForPoints | src/App.jsx:176-188 | the stored points of the rows add up to the points of the entries |
| Ledger.SavedPointsMatchHomeScore | src/App.jsx:162-197 | on a consistent ledger the saved rows' points add up to the saved home score |
| Ledger.GamePayload | src/App.jsx:162-168 | the saved game row carries the date, both team names and both scores |
| Ledger.GameLedger.constructor | src/App.jsx:16-24 | not started; home team "主隊" and away team "客隊" with no players; 0 : 0; no stats |
| Ledger.GameLedger.HandleStartGame | src/App.jsx:27-52 | the fields become exactly `AfterStart` of the old state |
| Ledger.GameLedger.HandleScore | src/App.jsx:54-70 | the fields become exactly `AfterScore` of the old state |
| Ledger.GameLedger.HandleUndo | src/App.jsx:72-90 | the fields become exactly `AfterUndo` of the old state |
| Ledger.GameLedger.HandleShot | src/App.jsx:92-112 | the fields become exactly `AfterShot` of the old state |
| Ledger.GameLedger.HandleUndoShot | src/App.jsx:114-136 | the fields become exactly `AfterUndoShot` of the old state |
| Ledger.GameLedger.HandleTeamBScore | src/App.jsx:138-143 | the fields become exactly `AfterTeamBScore` of the old state |
| Ledger.GameLedger.HandleTeamBUndo | src/App.jsx:145-150 | the fields become exactly `AfterTeamBUndo` of the old state |
| Ledger.GameLedger.ResetAfterSave | src/App.jsx:207-212 | the fields become exactly `AfterReset` of the old state; `handleReset` (lines 220-229) has the same effect on the ledger |
| ScoreBoard.StatButtonsTable | src/components/ScoreBoard.jsx:6-12 | seven buttons, each worth 0 points, on exactly the seven non-shot counters |
| ScoreBoard.StatButtonsNeverScore | src/components/ScoreBoard.jsx:6-12 | a stat button's event or undo never changes a score |
| ScoreBoard.Lookup | src/components/ScoreBoard.jsx:51 | `stats[id]`: the record, or nothing for an unknown id |
| ScoreBoard.TotalPoints | src/components/ScoreBoard.jsx:32-34 | a player button shows the points `Counters.Points` of its record, the same points the ledger adds to the score, and 0 for a missing record |
| ScoreBoard.CurrentValue | src/components/ScoreBoard.jsx:192 | the counter's value, and 0 for a missing record |
| ScoreBoard.ShotPercentLabel | src/components/ScoreBoard.jsx:94-98 | shown exactly when the shot type was attempted, and then the rounded percentage of made over attempted |
| ScoreBoard.ShotPercentBounded | src/components/ScoreBoard.jsx:143-147 | on a consistent ledger a shown percentage is at most 100 |
| ScoreBoard.ThreeMissesThenAMake | src/components/ScoreBoard.jsx:153-164 | three missed threes and then a made one give 4 attempts, 1 make, 25% shown and 3 points for the team |
| ScoreBoard.CounterUndoNeverNoOp | src/components/ScoreBoard.jsx:211 | an enabled counter undo always lowers the counter by one, so the handler's no-op branch is never used |
| ScoreBoard.CounterUndoGuard | src/components/ScoreBoard.jsx:209-211 | a counter's undo button is disabled exactly when pressing it would leave the ledger unchanged |
| ScoreBoard.UndoMakeGuard | src/components/ScoreBoard.jsx:125-127 | on a consistent ledger the undo-make button is enabled exactly when the undo takes one make off the record |
| ScoreBoard.UndoMissGuard | src/components/ScoreBoard.jsx:118-120 | on a consistent ledger the undo-miss button is enabled exactly when the undo changes the ledger and leaves the player no more makes than attempts |
| ScoreBoard.PlayerUpdateConsistent | src/App.jsx:54-136 | a change to one record that keeps makes ≤ attempts and moves the home score by the change in its points keeps the invariant |
| ScoreBoard.ShotPreservesConsistent | src/App.jsx:92-112 | every shot of type 2 or 3 keeps the invariant |
| ScoreBoard.UndoShotPreservesConsistent | src/components/ScoreBoard.jsx:118-131 | a shot undo allowed by the undo-miss or undo-make guard keeps the invariant |
| ScoreBoard.StatButtonPreservesConsistent | src/components/ScoreBoard.jsx:14-18 | a stat-button event keeps the invariant |
| ScoreBoard.StatUndoPreservesConsistent | src/components/ScoreBoard.jsx:20-24 | a stat-button undo keeps the invariant |
| ScoreBoard.UnguardedUndoMissBreaksShots | src/components/ScoreBoard.jsx:120 | if the guard were ignored, an undo-miss on a consistent ledger with attempted == made would leave more makes than attempts |
| ScoreBoard.UnguardedUndoMakeBreaksScore | src/components/ScoreBoard.jsx:127 | if the guard were ignored, an undo-make with no two-point makes would lower the score with no make to match |
| ScoreBoard.SinglePoints | src/components/ScoreBoard.jsx:32-34 | the points of one entry are that record's points |
| ScoreBoard.ScoreBoardView.constructor | src/components/ScoreBoard.jsx:4 | no player is selected at first |
| ScoreBoard.ScoreBoardView.SelectPlayer | src/components/ScoreBoard.jsx:57 | the clicked player becomes the selected player |
| ScoreBoard.ScoreBoardView.HandleStatClick | src/components/ScoreBoard.jsx:14-18 | with a player selected the ledger takes exactly the counter event, otherwise it is unchanged; the invariant is kept |
| ScoreBoard.ScoreBoardView.HandleStatUndo | src/components/ScoreBoard.jsx:20-24 | with a player selected the ledger takes exactly the counter undo, otherwise it is unchanged; the invariant is kept |
| ScoreBoard.ScoreBoardView.HandleShootClick | src/components/ScoreBoard.jsx:26-30 | with a player selected the ledger takes exactly the shot, otherwise it is unchanged; the invariant is kept |
| ScoreBoard.ScoreBoardView.PressUndoShot | src/components/ScoreBoard.jsx:118-131 | with a player selected and the button enabled the ledger takes exactly the shot undo, otherwise it is unchanged; the invariant is kept |
| TeamBScorer.ScoreButtonsOffer | src/components/TeamBScorer.jsx:2-6 | exactly three buttons, worth 1, 2 and 3 points in that order, captioned "+1", "+2" and "+3" |
| TeamBScorer.PressScore | src/components/TeamBScorer.jsx:26 | a button adds its own points to the away score and nothing else |
| TeamBScorer.PressUndo | src/components/TeamBScorer.jsx:39-40 | a disabled undo (score < points) does nothing; an enabled one is the away undo of its points |
| TeamBScorer.EnabledUndoNeverClamps | src/components/TeamBScorer.jsx:40 | an enabled undo subtracts exactly its points, so the 0-clamp never acts |
| TeamBScorer.UndoGuard | src/components/TeamBScorer.jsx:37-40 | an undo button is disabled exactly when subtracting its points would have to stop at 0 |
| TeamBScorer.ScoreThenUndoIdentity | src/components/TeamBScorer.jsx:26 | from a non-negative score, a score button followed by its undo is enabled and restores the state |
| TeamBScorer.UndoThenScoreIdentity | src/components/TeamBScorer.jsx:39-40 | an enabled undo followed by the same score button restores the state |
| TeamBScorer.PressesKeepScoreNonNegative | src/components/TeamBScorer.jsx:40 | from a non-negative score, no press makes the away score negative |
| TeamBScorer.PressesPreserveConsistent | src/components/TeamBScorer.jsx:23-45 | every press keeps the ledger invariant |
| GameDetail.CalculatePercentageBounded | src/components/GameDetail.jsx:44-47 | `calculatePercentage` is `Rounding.PercentText`: with attempts, the percentage in tenths printed with one decimal; with made ≤ attempted it is at most 100.0 |
| GameDetail.AddRow | src/components/GameDetail.jsx:52-63 | each total rises by the row's value, with null counted as 0 |
| GameDetail.Totals | src/components/GameDetail.jsx:52-76 | each of the eleven totals is the sum of that column over the rows |
| GameDetail.CalculateTeamStats | src/components/GameDetail.jsx:49-91 | null exactly for no rows; each total is its column's sum; FG made and attempted are the 2P+3P sums; rebounds are offensive + defensive; the FG, 2P and 3P texts are the percentages of those sums |
| GameDetail.SumFieldLe | src/components/GameDetail.jsx:52-76 | if every row has a ≤ b, the column sums also have a ≤ b |
| GameDetail.TeamPercentagesBounded | src/components/GameDetail.jsx:87-89 | when no row has more makes than attempts, the FG, 2P and 3P percentages are at most 100.0 |
| GameDetail.ReboundsExample | src/components/GameDetail.jsx:80 | offensive rebounds {1,2,0} and defensive {3,1,2} give 9 team rebounds |
| GameDetail.Column | src/components/GameDetail.jsx:235 | a raw column: null exactly when absent, otherwise its value |
| GameDetail.ShotCellAsWritten | src/components/GameDetail.jsx:235 | the 2P/3P cell as written: the raw columns go to `calculatePercentage`: a null attempts column gives "NaN" with no makes and "Infinity" with some |
| GameDetail.ShotCell | src/components/GameDetail.jsx:239 | the cell with nulls read as 0: "0" exactly when there are no attempts, otherwise the percentage |
| GameDetail.ShotCellAgrees | src/components/GameDetail.jsx:235 | when the attempts column is present, the as-written and corrected cells agree |
| GameDetail.ShotCellNullAttempts | src/components/GameDetail.jsx:235 | a row with one make and a null attempts column shows "Infinity" as written, and "0" once corrected |
| GameDetail.RowLineOf | src/components/GameDetail.jsx:220-222 | a row's FG made/attempted and rebounds are the sums of its 2P/3P and offensive/defensive columns, and its FG text is their percentage |
| GameDetail.RowLineIsSingleGameTotal | src/components/GameDetail.jsx:220-231 | a row's FG and rebound figures equal the team figures of a one-row game |
| PlayerAnalytics.AddGame | src/components/PlayerAnalytics.jsx:47-59 | games rise by 1; every counter but fouls rises by the row's value, null as 0; points rise by 2·two_point_made + 3·three_point_made; fouls are untouched |
| PlayerAnalytics.AggregateCareers | src/components/PlayerAnalytics.jsx:26-60 | the loop builds exactly the fold `Aggregated` of the rows |
| PlayerAnalytics.AddGameSums | src/components/PlayerAnalytics.jsx:47-59 | adding a game to a career over some rows gives the career over those rows plus the new one |
| PlayerAnalytics.StepSameName | src/components/PlayerAnalytics.jsx:29-59 | one loop step makes the row's name hold the career over its earlier rows plus this one |
| PlayerAnalytics.UnseenNameHasNoRows | src/components/PlayerAnalytics.jsx:29 | a name without a record has no rows |
| PlayerAnalytics.AggregatedKeys | src/components/PlayerAnalytics.jsx:29-45 | one record per distinct name, in the order the names first appear |
| PlayerAnalytics.AggregatedEntry | src/components/PlayerAnalytics.jsx:47-59 | a name's record counts that name's rows as games, and its counters and points are the sums over those rows; fouls stay 0 |
| PlayerAnalytics.AggregatedCorrect | src/components/PlayerAnalytics.jsx:26-60 | the keys are the distinct names in first-appearance order, and each record is its name's career |
| PlayerAnalytics.GamesAreGroupSizes | src/components/PlayerAnalytics.jsx:48 | the games of the listed records are the sizes of their name groups |
| PlayerAnalytics.GamesAddUp | src/components/PlayerAnalytics.jsx:48 | the games of all records add up to the number of rows |
| PlayerAnalytics.RankingCorrect | src/components/PlayerAnalytics.jsx:62 | a permutation of the records, sorted by points with the highest first, equal points keeping first-appearance order, one record per distinct name |
| PlayerAnalytics.Ranking | src/components/PlayerAnalytics.jsx:62 | the ranking is a permutation of the aggregated records, sorted by points with the highest first |
| PlayerAnalytics.FieldGoalPercentage | src/components/PlayerAnalytics.jsx:125-128 | a card's FG%: 0 with no attempts, else r with 2·a·r ≤ 200·m + a < 2·a·r + 2·a for m all makes and a all attempts, that is, 100·m/a rounded half up; at most 100 when no shot kind has more makes than attempts |
| PlayerAnalytics.AveragePoints | src/components/PlayerAnalytics.jsx:132 | "0" exactly when there are no games, else points per game to one decimal |
| PlayerAnalytics.TurnoverAverage | src/components/PlayerAnalytics.jsx:224 | turnovers per game to one decimal, or "Infinity" with no games |
| PlayerAnalytics.AggregatedHaveGames | src/components/PlayerAnalytics.jsx:132 | every aggregated record has at least one game, so its average is never the "0" fallback |
| PlayerAnalytics.AliceKeys | src/components/PlayerAnalytics.jsx:29-45 | two "Alice" rows give the single name "Alice" |
| PlayerAnalytics.AliceGroup | src/components/PlayerAnalytics.jsx:47 | both rows fall in Alice's group |
| PlayerAnalytics.AlicePoints | src/components/PlayerAnalytics.jsx:53 | the recomputed points of the two rows are 10 + 20 = 30 |
| PlayerAnalytics.AliceAggregate | src/components/PlayerAnalytics.jsx:26-60 | the roll-up of the two rows is one record with 2 games and 30 points |
| PlayerAnalytics.CareerExample | src/components/PlayerAnalytics.jsx:132 | that record shows 2 games, 30 points and an average of "15.0" |
| PlayerAnalytics.AverageExample | src/components/PlayerAnalytics.jsx:132 | 30 points over 2 games show as "15.0" |
| PlayerStats.FieldGoalPercentage | src/components/PlayerStats.jsx:6-10 | 0 with no attempts, else the rounded percentage of all makes over all attempts, missing values as 0 |
| PlayerStats.FieldGoalPercentageBounded | src/components/PlayerStats.jsx:9 | with makes ≤ attempts the percentage is at most 100 |
| PlayerStats.HomeEntries | src/components/PlayerStats.jsx:13-20 | the filtered list is no longer than the entries |
| PlayerStats.HomeEntriesMembers | src/components/PlayerStats.jsx:13-19 | every listed line is a home entry of the ledger with that entry's id, name and record, marked on court exactly when a roster player has its id; every home entry is listed |
| PlayerStats.AllPlayersWithStats | src/components/PlayerStats.jsx:13-21 | the list is sorted by points with the highest first, is a permutation of the filtered home entries, and is no longer than the stats |
| PlayerStats.AllPlayersWithStatsSorted | src/components/PlayerStats.jsx:13-21 | the list is a permutation of the filtered home entries, sorted by points with the highest first, lines with equal points keeping the object's order |
| PlayerStats.AllPlayersWithStatsMembers | src/components/PlayerStats.jsx:13-21 | every listed line is a home entry of the ledger with its own id and record, marked on court exactly when its id is a current roster id; every home entry of the ledger is listed |
| PlayerStats.RosterPlayersListedOnCourt | src/components/PlayerStats.jsx:19 | on a consistent ledger every current roster player is listed and marked on court |
| GameHistory.GamesByDate | src/components/GameHistory.jsx:36-43 | the loop builds exactly the fold `Grouped` of the games |
| GameHistory.GroupedKeys | src/components/GameHistory.jsx:36-43 | one group per distinct date, in the order the dates first appear |
| GameHistory.GroupedEntry | src/components/GameHistory.jsx:36-43 | a date's group holds exactly the games of that date, in loaded order |
| GameHistory.GroupedCorrect | src/components/GameHistory.jsx:36-43 | both of the above together |
| GameHistory.ListedCountIsGroupSizes | src/components/GameHistory.jsx:145 | the shown counts are the sizes of the date groups |
| GameHistory.DateCountsAddUp | src/components/GameHistory.jsx:145 | the per-date counts add up to the number of loaded games |
| GameHistory.Badge | src/components/GameHistory.jsx:180-184 | a home win shows the home name + " 勝", an away win the away name + " 勝", and "平手" exactly on a tie |
| GameHistory.OutcomeSymmetric | src/components/GameHistory.jsx:174-184 | the outcome that picks the badge's colour and text depends only on which side scored more: exchanging the sides swaps a home and an away win, keeps a tie, and leaves the badge text unchanged |
| GameHistory.WinCount | src/components/GameHistory.jsx:150 | the count is at most the number of games |
| GameHistory.WinCountIsHomeWins | src/components/GameHistory.jsx:150 | the win count is the number of games whose outcome is a home win |
| GameHistory.OutcomesAddUp | src/components/GameHistory.jsx:174-184 | every game has exactly one outcome: home wins, away wins and ties add up to the games |
| GameHistory.DateWinCount | src/components/GameHistory.jsx:145-150 | a date's win count, away wins and ties add up to that date's games |
| GameHistory.Toggled | src/components/GameHistory.jsx:72-77 | toggling flips only the date's expanded flag, with a missing flag read as collapsed |
| GameHistory.ToggleTwice | src/components/GameHistory.jsx:72-77 | toggling a date twice leaves every date as it was |
| GameHistory.TogglesCommute | src/components/GameHistory.jsx:72-77 | toggles of two different dates commute |
| GameHistory.HistoryView.constructor | src/components/GameHistory.jsx:7 | every date starts collapsed |
| GameHistory.HistoryView.ToggleDate | src/components/GameHistory.jsx:72-77 | the state map becomes `Toggled` of the old one, and the date's flag flips |
| SubstitutionModal.Names | src/components/SubstitutionModal.jsx:8 | the current players' names, in order |
| SubstitutionModal.Available | src/components/SubstitutionModal.jsx:11 | the bench is no longer than the list of all names |
| SubstitutionModal.AvailableMembers | src/components/SubstitutionModal.jsx:11 | a name is on the bench exactly when it is a known name that no current player has |
| SubstitutionModal.NobodyOnCourtIsAvailable | src/components/SubstitutionModal.jsx:11 | no current player's name is on the bench |
| SubstitutionModal.AvailableAppend | src/components/SubstitutionModal.jsx:11 | the filter distributes over concatenation, so the bench keeps the original order |
| SubstitutionModal.AvailableOfNobody | src/components/SubstitutionModal.jsx:11 | with nobody on court the bench is every known name |
| SubstitutionModal.AvailableExtremes | src/components/SubstitutionModal.jsx:53-73 | the bench is every name when nobody is on court, and empty when every name is on court |
| SubstitutionModal.ConfirmGuard | src/components/SubstitutionModal.jsx:84-86 | choosing a home player (id `teamA-i`, never empty) and a bench name enables confirming; with either choice missing it stays disabled |
| SubstitutionModal.SubstitutionForm.constructor | src/components/SubstitutionModal.jsx:4-5 | both selections start empty, so confirming is disabled |
| SubstitutionModal.SubstitutionForm.SelectOut | src/components/SubstitutionModal.jsx:37 | the clicked player's id becomes the outgoing selection |
| SubstitutionModal.SubstitutionForm.SelectIn | src/components/SubstitutionModal.jsx:58 | the clicked name becomes the incoming selection |
| SubstitutionModal.SubstitutionForm.Confirm | src/components/SubstitutionModal.jsx:13-20 | `onSubstitute(out, in)` is called exactly when both selections are non-empty, which is exactly when the confirm button is enabled, and with those two selections |

## Left out

- Supabase access: every insert and load (`handleSaveGame`'s inserts, `loadGames`, `loadGameDetail`, `loadPlayerStats`, `loadLastGamePlayers`). This is network I/O against a client library that is not part of this model. Only the save-payload mapping and the computations on loaded rows are modelled, and the loaded rows are parameters.
- `alert`, `window.confirm` and `console.error`: UI side effects. A confirmed `handleReset` is modelled as `ResetAfterSave`, and a declined one changes nothing.
- Dates and the clock: `gameDate`'s default, the date reset in `handleReset`, `formatDate` and `formatTime`. These depend on the clock and the locale. Dates are plain strings here.
- Floating point: `Math.round(m/a*100)` is modelled as exact half-up rounding of the rational m/a·100, and `toFixed(1)` as exact half-up rounding to tenths. Binary floating-point effects at exact halves are not modelled.
- JavaScript's ordering of integer-like object keys, which are enumerated before other keys in numeric order. The model uses plain insertion order. The ids `teamA-i`, the player names and the dates of the app are not integer-like in normal use.
- Names that collide with `Object.prototype` properties (such as "constructor") in the `aggregated` and `gamesByDate` objects. The model treats such a name like any other.
- React state mechanics: each handler is modelled as one atomic update of the ledger. The closure-versus-`prev` asynchrony of `setState` is not modelled. Rendering, routing, Tailwind classes and `tailwind.config.js` are not modelled either.
- Ledger.AfterScore, Ledger.AfterUndo, Ledger.AfterShot, Ledger.AfterUndoShot: an unknown player id makes the source throw a TypeError. The model requires the id to be present, because every caller passes a roster id that `handleStartGame` gave a record.
- Ledger.AfterShot: shot types other than 2 are treated as 3, as the source's key choice does. The invariant lemmas require a shot type of 2 or 3, which are the only values the buttons pass.
- `GameDetail.calculateTeamStats` on non-numeric column values (strings) is not modelled. Columns are natural numbers or null.
- PlayerAnalytics.TurnoverAverage: modelled only where the source shows it (turnovers > 0). The "Infinity" case arises only for a record without games, which aggregation never produces.

## Findings

| source | as written | input that shows it | evidently intended | confidence | as-written member | corrected member |
|---|---|---|---|---|---|---|
| src/components/GameDetail.jsx:235 | the per-player 2P% and 3P% cells pass the raw `two_point_*` / `three_point_*` columns to `calculatePercentage`, whose only guard is `attempted === 0`; the same file reads those columns with a 0 default everywhere else (lines 53-56, 220-221) | a saved row with `two_point_made = 1` and `two_point_attempted = null` shows "Infinity%" (and "NaN%" with no makes) | read null as 0 as in the totals, showing "0" | not executed; low that such rows occur, since the app always saves every column | GameDetail.ShotCellAsWritten, GameDetail.ShotCellNullAttempts | GameDetail.ShotCell (used by GameDetail.RowLineOf) |
