# whatif-app core, modelled in Dafny

whatif-app is a football "what if" app. It loads a league's fixtures for a season and shows two screens:

- **Fixtures screen.** The user predicts a 1/X/2 outcome or a scoreline for each match of a chosen round (week).
- **Standings screen.** This shows the actual league table up to that round. It can also show a predicted table, in which every prediction moves points between the two sides of a match; arrows mark the teams a prediction moves up or down.

Both screens share a small store holding:

- the selected league and season;
- the round;
- the interface language (English or Turkish).

This project models that logic and proves what it promises:

- **Standings engine.** The actual table computed from finished fixtures up to a round limit; the prediction deltas; the two stable sorts; the rank maps; the "meaningful predictions" test; the rows as rendered with their arrows.
- **Default-round policy.** The one policy both screens use, and how each screen sets up, keeps or replaces the selected round.
- **Prediction editing.** On the fixtures screen: selecting an outcome, typing a score, clearing, and filtering by round.
- **Round picker.** The previous / next steps and the label.
- **League picker.** Its season choice and its descending season menu.
- **Shared state store.** Its initial state and its setters.
- **Team badge.** The hash, the colour and the initials.
- **Match card.** Its enabling rules.

Modules, one per file:

| file | module | models |
|---|---|---|
| wrappers.dfy | Wrappers | `Option` |
| js_array.dfy | JsArray | `indexOf`, distinctness |
| js_text.dfy | JsText | `String(n)`, `parseInt(s, 10)`, JS white space, ASCII upper-casing |
| domain.dfy | Domain | fixtures, outcomes, prediction records |
| leagues.dfy | Leagues | the league catalog |
| rounds.dfy | Rounds | distinct sorted rounds, highest finished round, the default-round policy |
| stable_sort.dfy | StableSort | the standings comparator and a stable sort |
| standings_table.dfy | StandingsTable | `getOutcomeFromScore`, `computeActualTable` |
| table_laws.dfy | TableLaws | what the actual table satisfies |
| prediction_deltas.dfy | PredictionDeltas | `computePredictionDeltas` |
| standings_ranking.dfy | StandingsRanking | predicted points, sorts, ranks, movement arrows |
| app_state.dfy | AppStateStore | the shared store |
| standings_screen.dfy | StandingsScreenModel | `computeInitialRound` and the standings screen's state |
| match_card.dfy | MatchCardView | the card's enabling rules |
| fixtures_screen.dfy | FixturesScreenModel | `computeTargetRound` and the fixtures screen's state |
| round_picker.dfy | RoundPickerView | the round picker |
| league_picker.dfy | LeaguePickerView | the league / season picker |
| team_logo.dfy | TeamLogoView | the team badge |

How the model takes the program's shape:

- Where the source mutates state, the model is a class. This covers the shared store, the two screens and the two pickers' dialog flags; their handlers are methods with `modifies` clauses.
- Where the source loops, the model is a method with loop invariants, proved equal to a specification function. This covers:
  - `computeActualTable`, which fills a map of rows;
  - `computePredictionDeltas`, which accumulates into an object;
  - the rank maps;
  - `hashString`.
- Everything else is a function, with lemmas stating its properties.

## Model

| member | source | states |
|---|---|---|
| StandingsTable.OutcomeFromScore | src/screens/StandingsScreen.js:26-31 | no outcome exactly when either score is missing; otherwise '1' iff home > away, '2' iff home < away, 'X' iff equal |
| StandingsTable.Tally | src/screens/StandingsScreen.js:59-101 | a team's row after the fixtures always has goalDiff = goalsFor - goalsAgainst, played = won + draw + lost, points = 3·won + draw, and non-negative won/draw/lost |
| StandingsTable.TeamOrderMembers | src/screens/StandingsScreen.js:37-57 | the registered team list has no repeats and holds exactly the non-empty names of the fixtures |
| StandingsTable.CreditWrites | src/screens/StandingsScreen.js:73-100 | writing back the home row and then the away row gives every team exactly its credited row, including a team playing itself |
| StandingsTable.RegisterTeams | src/screens/StandingsScreen.js:35-57 | the first pass creates one zero row per distinct non-empty name, in first-appearance order |
| StandingsTable.CreditFixtures | src/screens/StandingsScreen.js:59-101 | the second pass leaves every team's row equal to its tally over the fixtures inside the round limit, finished and with both scores |
| StandingsTable.RowsInOrder | src/screens/StandingsScreen.js:103 | the rows are read back in registration order |
| StandingsTable.ComputeActualTable | src/screens/StandingsScreen.js:34-104 | the table equals the specification table: one tallied row per registered team, in order |
| TableLaws.TableRows | src/screens/StandingsScreen.js:37-57 | for any round limit, a row exists for a team iff it is a non-empty name of the fixtures; no two rows share a team; rows come in first-appearance order with home before away; each row is that team's tally |
| TableLaws.CreditedTotals | src/screens/StandingsScreen.js:76-100 | summed over the credited matches, goals for equal goals against, wins equal losses, and points are 3 per win plus 1 per draw |
| TableLaws.CreditAddsShare | src/screens/StandingsScreen.js:76-100 | crediting a fixture adds to a team's counters exactly its share as home side, away side, both or neither |
| TableLaws.SumTalliesIsCreditedTotals | src/screens/StandingsScreen.js:59-101 | over distinct teams naming every credited side, the tallies sum to the per-match totals |
| TableLaws.TableTotals | src/screens/StandingsScreen.js:76-103 | the whole table sums to the per-match totals: a decided match adds 3 points, a drawn one 2; goalsFor equals goalsAgainst and wins equal losses |
| TableLaws.CutoffMonotone | src/screens/StandingsScreen.js:60 | raising (or removing) the round limit never lowers any counter of any team |
| TableLaws.PlayedIsAppearances | src/screens/StandingsScreen.js:76-77 | played counts the team's credited appearances; the row stays all zero exactly when there are none |
| PredictionDeltas.PredictedOutcome | src/screens/StandingsScreen.js:125-136 | the stored outcome when set, else the outcome of both score guesses; none exactly when neither is available |
| PredictionDeltas.PointsFor | src/screens/StandingsScreen.js:139-148 | a home win is worth 3-0, a draw 1-1, an away win 0-3 |
| PredictionDeltas.ActualOutcome | src/screens/StandingsScreen.js:154-159 | only a finished fixture has an actual outcome, that of its full-time score |
| PredictionDeltas.ActualPoints | src/screens/StandingsScreen.js:151-170 | an actual outcome earns its points (3-0, 1-1 or 0-3), and without one the actual points are 0-0 |
| PredictionDeltas.FixtureDelta | src/screens/StandingsScreen.js:115-174 | a fixture contributes nothing beyond the round limit, without a record, or without a usable prediction; otherwise it contributes the predicted points minus the actual points, side by side; each component lies in -3..3; an unplayed fixture contributes the predicted points |
| PredictionDeltas.ScoreFixture | src/screens/StandingsScreen.js:115-177 | the per-fixture body computes that fixture's contribution |
| PredictionDeltas.ComputePredictionDeltas | src/screens/StandingsScreen.js:107-180 | the loop computes the specification fold of all contributions |
| PredictionDeltas.AddEntry | src/screens/StandingsScreen.js:110-113 | `add` adds its points to its team's entry, skips the empty name, and creates a key only for non-zero points |
| PredictionDeltas.DeltasMeaning | src/screens/StandingsScreen.js:107-180 | the empty name is never a key; a team is a key iff some fixture hands it a non-zero delta, and its entry is the sum of its contributions |
| PredictionDeltas.DrawOnTwoOne | src/screens/StandingsScreen.js:141-173 | a draw predicted on an actual 2-1 gives home -2 and away +1 |
| PredictionDeltas.CorrectPredictionAddsNothing | src/screens/StandingsScreen.js:110-113 | a correct prediction on a finished match leaves the totals unchanged, adding no key |
| PredictionDeltas.KeyCanHoldZero | src/screens/StandingsScreen.js:110-113 | a team gaining 2 and losing 2 stays in the map with total 0, since only zero steps are skipped |
| StableSort.CompareIsTotalOrder | src/screens/StandingsScreen.js:329-333 | the comparator (points, then goal difference, then goals for, all descending) is zero only on equal keys, antisymmetric, total and transitive |
| StableSort.Sort | src/screens/StandingsScreen.js:327-335 | the sorted copy is a permutation of the rows and ordered by the comparator |
| StableSort.SortIsStable | src/screens/StandingsScreen.js:327-335 | rows with equal keys keep their input order |
| StableSort.SortMap | src/screens/StandingsScreen.js:338-357 | sorting rows mapped with a key-preserving map gives the mapped sorted rows |
| StableSort.MapSeq | src/screens/StandingsScreen.js:338-345 | the mapped list keeps length and maps each element in place |
| StandingsRanking.WithPredictedPoints | src/screens/StandingsScreen.js:338-345 | each row is kept, in order, with predictedPoints = points + delta (0 when the team has none) |
| StandingsRanking.RankByTeam | src/screens/StandingsScreen.js:359-373 | the `forEach` builds the rank map of the sorted team list |
| StandingsRanking.RanksOfDistinct | src/screens/StandingsScreen.js:359-373 | over distinct teams, each team's rank is its 1-based position; the ranks are 1..n, each held by one team |
| StandingsRanking.SortedTeams | src/screens/StandingsScreen.js:327-373 | both sorted lists hold the table's teams, each exactly once |
| StandingsRanking.RanksDifferIffOrdersDiffer | src/screens/StandingsScreen.js:376-383 | two orderings of the same distinct teams give some team different ranks iff the orderings differ |
| StandingsRanking.MeaningfulIff | src/screens/StandingsScreen.js:376-383 | `hasMeaningfulPredictions` holds iff the delta map is non-empty and the predicted order differs from the actual one |
| StandingsRanking.NoDeltasNoMovement | src/screens/StandingsScreen.js:338-383 | without deltas the predicted list is the actual list with predictedPoints = points, and nothing is meaningful |
| StandingsRanking.ActualViewRows | src/screens/StandingsScreen.js:387-410 | actual mode lists the actual order: row i shows that team, rank i+1, its points and no arrow |
| StandingsRanking.PredictedViewRows | src/screens/StandingsScreen.js:387-410 | predicted mode lists the predicted order: row i shows that team, rank i+1 and its predicted points |
| StandingsRanking.PredictedViewArrows | src/screens/StandingsScreen.js:385-423 | in predicted mode ↑ iff the movement column is on and the row stands higher than in the actual order, ↓ iff it stands lower |
| StandingsRanking.NoDeltasView | src/screens/StandingsScreen.js:376-423 | without deltas either mode lists the actual order, ranked 1..n, without arrows |
| StandingsRanking.MovementColumnShowsAnArrow | src/screens/StandingsScreen.js:385-423 | when the movement column is on, some row shows an arrow |
| Rounds.InsertRound | src/screens/StandingsScreen.js:183-185 | adding a round keeps the list ascending without repeats and adds exactly that round |
| Rounds.DistinctSortedRounds | src/screens/StandingsScreen.js:183-185 | the round list is ascending without repeats and holds exactly the fixtures' rounds |
| Rounds.StrictlyIncreasingUnique | src/screens/StandingsScreen.js:183-185 | an ascending list without repeats is determined by its elements |
| Rounds.MaxFinished | src/screens/StandingsScreen.js:188-193 | none iff no fixture is finished, else the round of a finished fixture that no finished fixture exceeds |
| Rounds.MaxFinishedIsListed | src/screens/StandingsScreen.js:183-193 | the highest finished round is in the round list |
| Rounds.ResolvedRoundIsListed | src/screens/StandingsScreen.js:195-217 | the policy always returns a listed round |
| Rounds.ResolveRound | src/screens/StandingsScreen.js:195-217 | the result is a listed round or the highest finished round itself; an older season takes the highest finished round unless it is none or 0, and then the last round |
| Rounds.ResolveRoundCases | src/screens/StandingsScreen.js:195-217 | latest season: the first round when nothing is finished, the least listed round after the highest finished one, or that round when it is the last; older season: the highest finished round, or the last round when none or only round 0 is finished |
| Rounds.ResolveRoundScenarios | src/screens/FixturesScreen.js:39-54 | the five default-round scenarios on small round lists, including round 0 treated as none |
| StandingsScreenModel.ComputeInitialRound | src/screens/StandingsScreen.js:182-218 | no round exactly when there are no fixtures, otherwise a round the fixtures name |
| StandingsScreenModel.InitialRoundCases | src/screens/StandingsScreen.js:182-218 | the five cases of the policy stated over the fixtures themselves |
| StandingsScreenModel.NonEmptyHasRounds | src/screens/StandingsScreen.js:183-186 | a non-empty fixture list names a round |
| StandingsScreenModel.ActualTableDistinct | src/screens/StandingsScreen.js:103 | the table's rows have distinct teams, so the ranking lemmas apply to it |
| StandingsScreenModel.NoPredictionsNoDeltas | src/screens/StandingsScreen.js:118-119 | with no prediction records the delta map is empty |
| StandingsScreenModel.ClearedViewHasNoArrows | src/screens/StandingsScreen.js:389-392 | after clearing, either mode shows the actual order, ranked 1..n, without arrows |
| StandingsScreenModel.StandingsScreen.constructor | src/screens/StandingsScreen.js:230-234 | any shared round is accepted; empty fixtures, predictions and rounds; actual mode |
| StandingsScreenModel.StandingsScreen.SetupRounds | src/screens/StandingsScreen.js:271-288 | the rounds become the distinct sorted rounds; none clears the round; a listed round is kept; a missing or unlisted one becomes the initial round; the round is always listed |
| StandingsScreenModel.StandingsScreen.ReceiveFixtures | src/screens/StandingsScreen.js:247-259 | storing fixtures and setting up their rounds keeps the listed round, or replaces a missing or unlisted one by the initial round; afterwards a selected round is listed |
| StandingsScreenModel.StandingsScreen.ReceivePredictions | src/screens/StandingsScreen.js:262-263 | missing stored predictions read as none |
| StandingsScreenModel.StandingsScreen.FocusRefresh | src/screens/StandingsScreen.js:291-312 | the predictions are reloaded and predicted mode is chosen iff any are stored |
| StandingsScreenModel.StandingsScreen.ClearSelections | src/screens/StandingsScreen.js:389-392 | every prediction is dropped |
| StandingsScreenModel.StandingsScreen.JumpToCurrentRound | src/screens/StandingsScreen.js:394-400 | nothing without fixtures, whatever the shared round is; else the round becomes the initial round, which is listed |
| StandingsScreenModel.StandingsScreen.View | src/screens/StandingsScreen.js:385-423 | the rendered list has one row per team of the actual table, and no arrow while no prediction is stored |
| FixturesScreenModel.ComputeTargetRound | src/screens/FixturesScreen.js:25-55 | no round exactly when the rounds or the fixtures are empty |
| FixturesScreenModel.TargetRoundAgrees | src/screens/FixturesScreen.js:25-55 | over the fixtures' own distinct sorted rounds it returns the same as `computeInitialRound` |
| FixturesScreenModel.Filtered | src/screens/FixturesScreen.js:144-151 | all fixtures when no round is selected; a fixture is shown exactly when it is loaded and of the selected round (order and multiplicity: FilteredAppend) |
| FixturesScreenModel.FilteredSingleton | src/screens/FixturesScreen.js:144-151 | a single fixture is kept exactly when no round is selected or it belongs to the selected round |
| FixturesScreenModel.FilteredAppend | src/screens/FixturesScreen.js:144-151 | filtering a concatenation filters each part and concatenates the results: order and multiplicity are kept |
| FixturesScreenModel.ListedRoundShowsFixtures | src/screens/FixturesScreen.js:144-151 | a listed round shows at least one fixture |
| FixturesScreenModel.OnSelectOutcome | src/screens/FixturesScreen.js:153-174 | the same outcome again clears it, another replaces it, and both guesses become null |
| FixturesScreenModel.SelectTwiceClears | src/screens/FixturesScreen.js:153-174 | pressing an unselected outcome twice leaves an empty record |
| FixturesScreenModel.ParseScoreTextRejects | src/screens/FixturesScreen.js:176-182 | text starting with anything but white space, a sign or a digit gives no guess |
| FixturesScreenModel.GuessTextRoundTrip | src/screens/FixturesScreen.js:176-182 | the text a score field shows parses back to that guess |
| FixturesScreenModel.OnChangeScore | src/screens/FixturesScreen.js:176-201 | the edited side becomes the parsed text, the other side is kept, the outcome becomes null |
| FixturesScreenModel.TypedScoresPredict | src/screens/FixturesScreen.js:176-201 | typing both scores yields exactly those guesses, whose outcome is what the deltas use |
| FixturesScreenModel.FixturesScreen.constructor | src/screens/FixturesScreen.js:61-67 | any shared round is accepted; empty fixtures, rounds and predictions |
| FixturesScreenModel.FixturesScreen.SetupRounds | src/screens/FixturesScreen.js:126-142 | the rounds become the distinct sorted rounds; none clears the round; a listed round is kept; a missing or unlisted one becomes the target round; the round is always listed |
| FixturesScreenModel.FixturesScreen.ReceiveFixtures | src/screens/FixturesScreen.js:104-116 | storing fixtures and setting up their rounds keeps the listed round, or replaces a missing or unlisted one by the round the standings screen would pick; afterwards a selected round is listed |
| FixturesScreenModel.FixturesScreen.ReceivePredictions | src/screens/FixturesScreen.js:101-102 | missing stored predictions read as none |
| FixturesScreenModel.FixturesScreen.SelectOutcome | src/screens/FixturesScreen.js:153-174 | only the fixture's record changes; every record stays exclusive if all were |
| FixturesScreenModel.FixturesScreen.ChangeScore | src/screens/FixturesScreen.js:176-201 | only the fixture's record changes; every record stays exclusive if all were |
| FixturesScreenModel.FixturesScreen.JumpToCurrentRound | src/screens/FixturesScreen.js:203-210 | nothing without fixtures, whatever the shared round is; else the round becomes the target round, which is listed |
| FixturesScreenModel.FixturesScreen.ClearSelections | src/screens/FixturesScreen.js:212-215 | every prediction is dropped |
| FixturesScreenModel.FixturesScreen.Shown | src/screens/FixturesScreen.js:144-151 | the list shows every fixture when no round is selected, and at least one fixture when the selected round is listed |
| MatchCardView.GuessText | src/components/MatchCard.js:70 | a field shows nothing exactly when there is no guess |
| MatchCardView.HasScore | src/components/MatchCard.js:16-22 | the final score is shown exactly for the fixtures that have an actual outcome (finished, with both full-time scores) |
| MatchCardView.OutcomeDisabled | src/components/MatchCard.js:32-35 | the 1/X/2 buttons are locked exactly when a score field shows a guess |
| MatchCardView.ScoreDisabled | src/components/MatchCard.js:36 | the score fields are locked exactly when one of the three buttons is selected |
| MatchCardView.ButtonDisabled | src/components/MatchCard.js:125-127 | the selected button is never disabled; in a record that keeps outcome and guesses apart a button is disabled exactly while the buttons are locked |
| MatchCardView.ExclusiveIffNotBothLocked | src/components/MatchCard.js:32-36 | a record keeps outcome and guesses apart iff the card never locks both the buttons and the score fields |
| MatchCardView.ButtonsPressable | src/components/MatchCard.js:125-127 | the selected button is always pressable; with an outcome chosen every button is, with a guess set none is |
| RoundPickerView.Label | src/components/RoundPicker.js:16 | the word and the round number, only the word for no round or round 0 |
| RoundPickerView.ItemLabel | src/components/RoundPicker.js:185 | an entry reads like the label for its round, except round 0, whose entry names it where the label does not |
| RoundPickerView.CanPrev | src/components/RoundPicker.js:18 | exactly when the selected round is listed and is not the first entry |
| RoundPickerView.CanNext | src/components/RoundPicker.js:19-20 | exactly when the selected round occurs before the last place of the list |
| RoundPickerView.OnPrev | src/components/RoundPicker.js:41-45 | a round is emitted exactly when `canPrev` holds, and it is a listed round |
| RoundPickerView.OnNext | src/components/RoundPicker.js:95-99 | a round is emitted exactly when `canNext` holds, and it is a listed round |
| RoundPickerView.StepsAreNeighbours | src/components/RoundPicker.js:41-99 | over ascending rounds, previous goes to the greatest listed round below, next to the least listed round above |
| RoundPickerView.NextThenPrev | src/components/RoundPicker.js:41-99 | with distinct rounds, next then previous returns the original round, and so does previous then next |
| RoundPickerView.UnlistedRoundIsStuck | src/components/RoundPicker.js:18-20 | an unlisted round can step neither way |
| RoundPickerView.RoundPicker.PressLabel | src/components/RoundPicker.js:64-67 | the list opens unless there are no rounds |
| RoundPickerView.RoundPicker.SelectRound | src/components/RoundPicker.js:22-25 | choosing an entry closes the list and emits exactly that round |
| RoundPickerView.RoundPicker.constructor | src/components/RoundPicker.js:13 | the list starts closed |
| RoundPickerView.RoundPicker.Dismiss | src/components/RoundPicker.js:122-124 | tapping outside the list or the back button closes it |
| LeaguePickerView.FormatSeasonLabel | src/components/LeaguePicker.js:13-19 | "Season" exactly when no season is set |
| LeaguePickerView.SeasonLabelRoundTrip | src/components/LeaguePicker.js:13-19 | a season's label (0 included) is its decimal number |
| LeaguePickerView.CurrentLeague | src/components/LeaguePicker.js:28 | the selected league, else the first catalog entry |
| LeaguePickerView.SeasonMenu | src/components/LeaguePicker.js:269 | the menu is a permutation of the league's seasons in descending order |
| LeaguePickerView.CatalogSeasonMenu | src/components/LeaguePicker.js:269 | every catalog league's menu is 2025, 2024, 2023 |
| LeaguePickerView.SeasonForLeague | src/components/LeaguePicker.js:39-53 | the current season is kept when the new league lists it, else the league's last season; the result is listed, and none only for an empty season list |
| LeaguePickerView.SeasonForLeagueIsKept | src/components/LeaguePicker.js:39-53 | the store keeps the season the picker passes |
| LeaguePickerView.LeaguePicker.SelectLeague | src/components/LeaguePicker.js:39-53 | the league menu closes and the store switches to the league with the chosen season and no round |
| LeaguePickerView.LeaguePicker.SelectSeason | src/components/LeaguePicker.js:55-58 | the season menu closes and the store keeps the current league with the chosen season and no round |
| LeaguePickerView.LeaguePicker.PressLang | src/components/LeaguePicker.js:131 | the language toggles |
| LeaguePickerView.LeaguePicker.constructor | src/components/LeaguePicker.js:22-23 | both menus start closed |
| LeaguePickerView.LeaguePicker.OpenLeagueMenu | src/components/LeaguePicker.js:74 | the league menu opens and the season menu is left as it is |
| LeaguePickerView.LeaguePicker.OpenSeasonMenu | src/components/LeaguePicker.js:103 | the season menu opens and the league menu is left as it is |
| LeaguePickerView.LeaguePicker.CloseLeagueMenu | src/components/LeaguePicker.js:152-155 | the league menu closes and the season menu is left as it is |
| LeaguePickerView.LeaguePicker.CloseSeasonMenu | src/components/LeaguePicker.js:234-237 | the season menu closes and the league menu is left as it is |
| LeaguePickerView.LeagueLabel | src/components/LeaguePicker.js:35-36 | never empty: the league's name, else "Lig Seç" in Turkish and "Select league" otherwise |
| LeaguePickerView.LangLabel | src/components/LeaguePicker.js:142 | "TR" exactly in Turkish |
| Leagues.LastSeason | src/context/AppStateContext.js:9-11 | none exactly for an empty list, else the last element |
| AppStateStore.NextSeason | src/context/AppStateContext.js:17-23 | a given season is kept (0 included), else the league's last season, else none |
| AppStateStore.NextLeague | src/context/AppStateContext.js:15 | a given league replaces the current one, else the current one is kept |
| AppStateStore.NextSeasonListed | src/context/AppStateContext.js:17-23 | without a given season the choice is listed whenever the league has seasons |
| AppStateStore.Toggled | src/context/AppStateContext.js:31-33 | "tr" exactly from "en", otherwise "en" |
| AppStateStore.ToggleTwice | src/context/AppStateContext.js:31-33 | toggling twice is the identity on "en" and "tr" |
| AppStateStore.InitialSeason | src/context/AppStateContext.js:8-11 | the default league is the first catalog entry, and its last season, 2025, is the initial season |
| AppStateStore.AppState.constructor | src/context/AppStateContext.js:8-13 | default league, its last season, no round, English |
| AppStateStore.AppState.SetLeagueSeason | src/context/AppStateContext.js:15-29 | the given league or else the current one, the season as above, the round reset, the language untouched |
| AppStateStore.AppState.SetRound | src/context/AppStateContext.js:12 | the round becomes the given one |
| AppStateStore.AppState.ToggleLang | src/context/AppStateContext.js:31-33 | the language toggles |
| TeamLogoView.ToInt32 | src/components/TeamLogo.js:8-9 | the result is in int32 range, congruent to the input modulo 2^32, and equal to it when already in range |
| TeamLogoView.HashStepIs31 | src/components/TeamLogo.js:8-9 | the loop step (shift left by 5, subtract the hash, add the code, truncate to int32) is `int32(31·h + c)` |
| TeamLogoView.HashOfIsPolyHash | src/components/TeamLogo.js:5-12 | the loop's 32-bit hash is the unbounded polynomial hash reduced to int32 |
| TeamLogoView.HashString | src/components/TeamLogo.js:5-12 | the method returns the absolute 32-bit hash, between 0 and 2^31 |
| TeamLogoView.HashExamples | src/components/TeamLogo.js:5-18 | the empty name hashes to 0 and "A" to 65, with their colours |
| TeamLogoView.ColorOf | src/components/TeamLogo.js:14-18 | the colour is one of the six palette entries |
| TeamLogoView.PickColor | src/components/TeamLogo.js:14-18 | the method returns the name's palette colour |
| TeamLogoView.SafeName | src/components/TeamLogo.js:22-23 | the name when it is a string that is not all white space, else "?" |
| TeamLogoView.Split | src/components/TeamLogo.js:26 | at least one piece, none with a space |
| TeamLogoView.SplitJoin | src/components/TeamLogo.js:26 | joining the pieces with spaces gives the text back |
| TeamLogoView.NonEmpty | src/components/TeamLogo.js:27 | the kept pieces are non-empty pieces of the input, and every non-empty piece of the input is kept |
| TeamLogoView.NonEmptySingleton | src/components/TeamLogo.js:27 | a single piece is kept exactly when it is non-empty |
| TeamLogoView.NonEmptyAppend | src/components/TeamLogo.js:27 | filtering a concatenation filters each part and concatenates the results: order and multiplicity are kept |
| TeamLogoView.Initials | src/components/TeamLogo.js:25-31 | min(2, words) characters, each the upper-cased first character of the corresponding word |
| TeamLogoView.BadgeHasInitials | src/components/TeamLogo.js:22-31 | every badge shows one or two initials |
| JsArray.IndexOf | src/components/RoundPicker.js:18-20 | -1 iff absent, else the first position holding the value |
| JsText.ParseIntOfIntToString | src/screens/FixturesScreen.js:176-182 | `parseInt` reads back any integer's decimal string, whatever non-digit follows |
| JsText.ParseInt | src/screens/FixturesScreen.js:180-182 | a number exactly when, after the leading white space and an optional sign, a digit follows; otherwise NaN, here none |
| JsText.ParseIntSkipsWhiteSpace | src/screens/FixturesScreen.js:176-182 | leading white space does not change what `parseInt` reads |

## Left out

- I/O is out of scope. The stored predictions and the fixture lists are inputs. This covers:
  - storage: src/storage/cache.js reads and writes;
  - network: the fetches in src/api/;
  - the storage write done by the edit and clear handlers.
- The async loading sequence is not modelled. `ReceiveFixtures` and `ReceivePredictions` each stand for one delivery, in any order. Not modelled:
  - effects and focus callbacks;
  - cached-then-fresh fixtures;
  - refresh and loading flags;
  - the `active` cancellation flag;
  - the stale `round` a React closure may capture.
- JSX layout, colours, sizes and the translated captions are not modelled. The TeamLogo `fontSize` is floating point. MatchCard's date is formatted by `toLocaleString`, a locale-library call.
- StandingsTable.ComputeActualTable: it requires every credited fixture to name both teams. In the source, a finished fixture with a missing name throws at `homeRow.played += 1`; the throw is not modelled.
- JS objects and Maps keyed by team name are modelled as maps. Not modelled:
  - names such as `__proto__` that collide with `Object.prototype`;
  - numeric fixture ids becoming string keys.
- StandingsScreenModel.ComputeInitialRound: the unused `currentRound` parameter is dropped.
- TeamLogoView.HashString: characters are Unicode scalar values. `charCodeAt` is modelled as the character's code, which matches UTF-16 only inside the Basic Multilingual Plane.
- TeamLogoView.Initials: upper-casing is ASCII only. Full `toUpperCase`, which can lengthen a string (e.g. "ß"), is not modelled. The first character of a word is one code point rather than one UTF-16 unit.
- TeamLogoView.SafeName: a non-string name is modelled as `None`. The name's type is not otherwise modelled.
- JsText.ParseInt: it yields unbounded integers. The source's loss of precision beyond 2^53 is not modelled, nor is `-0`.
- LeaguePickerView.FormatSeasonLabel: seasons are integers or none. The source's `String(season)` branch for non-number values, and `NaN`, are not modelled.
- LeaguePickerView.LeagueLabel: the catalog has no `shortName`. The label therefore models only `name`, with a translated prompt when the name is empty.
- AppStateStore: `setLang` is exposed by the provider, but no modelled file uses it, so it is not modelled.
