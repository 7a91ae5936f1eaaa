/**
 * The fixtures screen: its default round (`computeTargetRound`), the fixtures of
 * the selected round, and the handlers that record a user's predictions.
 */
module FixturesScreenModel {
  import opened Wrappers
  import opened Domain
  import opened JsText
  import opened Leagues
  import opened Rounds
  import opened PredictionDeltas
  import opened StandingsTable
  import opened MatchCardView
  import opened AppStateStore
  import opened StandingsScreenModel

  /**
   * `computeTargetRound(rounds, matches, league, season)`: no round when either
   * list is empty, else the default-round policy over the given round list.
   */
  function ComputeTargetRound(rounds: seq<int>, matches: seq<Fixture>, league: League, season: Option<int>): (r: Option<int>)
    ensures r.None? <==> |rounds| == 0 || |matches| == 0
  {
    if |rounds| == 0 || |matches| == 0 then None
    else Some(ResolveRound(rounds, MaxFinished(matches), IsLatestSeason(league, season)))
  }

  /**
   * Given the round list `setupRounds` derives from the same fixtures, the
   * fixtures screen and the standings screen pick the same default round.
   */
  lemma TargetRoundAgrees(matches: seq<Fixture>, league: League, season: Option<int>)
    ensures ComputeTargetRound(DistinctSortedRounds(matches), matches, league, season)
         == ComputeInitialRound(matches, league, season)
  {
    NonEmptyHasRounds(matches);
  }

  /** The fixtures shown: all of them when no round is selected, else those of the selected round, in order. */
  function Filtered(fixtures: seq<Fixture>, round: Option<int>): (r: seq<Fixture>)
    ensures |r| <= |fixtures|
    ensures forall fx :: fx in r <==> fx in fixtures && (round.None? || fx.round == round.value)
    ensures round.None? ==> r == fixtures
  {
    if |fixtures| == 0 then []
    else
      var rest := Filtered(fixtures[..|fixtures| - 1], round);
      var last := fixtures[|fixtures| - 1];
      assert fixtures == fixtures[..|fixtures| - 1] + [last];
      if round.None? || last.round == round.value then rest + [last] else rest
  }

  /** Filtering a single fixture keeps it exactly when it belongs to the selected round. */
  lemma FilteredSingleton(fx: Fixture, round: Option<int>)
    ensures Filtered([fx], round) == if round.None? || fx.round == round.value then [fx] else []
  {
    assert [fx][..0] == [];
  }

  /** Filtering distributes over concatenation, so the kept fixtures stay in their order, each as often as it occurs. */
  lemma {:induction false} FilteredAppend(a: seq<Fixture>, b: seq<Fixture>, round: Option<int>)
    ensures Filtered(a + b, round) == Filtered(a, round) + Filtered(b, round)
    decreases |b|
  {
    if |b| == 0 {
      assert a + b == a;
    } else {
      var init, last := b[..|b| - 1], b[|b| - 1];
      var kept := if round.None? || last.round == round.value then [last] else [];
      FilteredAppend(a, init, round);
      FilteredStep(a + b, round);
      FilteredStep(b, round);
      SplitAppendLast(a, b);
      assert Filtered(a + b, round) == Filtered(a, round) + Filtered(init, round) + kept;
    }
  }

  lemma SplitAppendLast(a: seq<Fixture>, b: seq<Fixture>)
    requires |b| > 0
    ensures (a + b)[..|a + b| - 1] == a + b[..|b| - 1] && (a + b)[|a + b| - 1] == b[|b| - 1]
  {
  }

  /** One unfolding of `Filtered` at the last fixture. */
  lemma FilteredStep(s: seq<Fixture>, round: Option<int>)
    requires |s| > 0
    ensures Filtered(s, round)
         == Filtered(s[..|s| - 1], round) + (if round.None? || s[|s| - 1].round == round.value then [s[|s| - 1]] else [])
  {
  }

  /** A listed round always shows at least one fixture. */
  lemma ListedRoundShowsFixtures(fixtures: seq<Fixture>, round: int)
    requires round in DistinctSortedRounds(fixtures)
    ensures |Filtered(fixtures, Some(round))| > 0
  {
    var i :| 0 <= i < |fixtures| && fixtures[i].round == round;
    assert fixtures[i] in Filtered(fixtures, Some(round));
  }

  /** `prev[fixture.id] || {outcome: null, home: null, away: null}`. */
  function Current(states: Predictions, id: int): FixtureState {
    if id in states then states[id] else EmptyState
  }

  /** Pressing an outcome button: the same outcome again clears it, another one replaces it; the guesses are dropped. */
  function OnSelectOutcome(current: FixtureState, o: Outcome): (st: FixtureState)
    ensures Exclusive(st) && st.home.None? && st.away.None?
    ensures st.outcome == Some(o) <==> current.outcome != Some(o)
    ensures st.outcome.None? <==> current.outcome == Some(o)
  {
    FixtureState(if current.outcome == Some(o) then None else Some(o), None, None)
  }

  /** Pressing the same button twice leaves no prediction behind: the record is empty. */
  lemma SelectTwiceClears(current: FixtureState, o: Outcome)
    ensures current.outcome != Some(o) ==> OnSelectOutcome(OnSelectOutcome(current, o), o) == EmptyState
    ensures current.outcome == Some(o) ==> OnSelectOutcome(OnSelectOutcome(current, o), o).outcome == Some(o)
  {
  }

  /** The side a score field edits. */
  datatype Side = HomeSide | AwaySide

  /** The score guess typed into a field: nothing for empty text, else what `parseInt(text, 10)` gives (nothing for NaN). */
  function ParseScoreText(text: string): Option<int> {
    if text == "" then None else ParseInt(text)
  }

  /** Text that starts with anything but white space, a sign or a digit gives no guess. */
  lemma ParseScoreTextRejects(text: string)
    requires |text| > 0 && !IsWhiteSpace(text[0]) && !IsDigit(text[0]) && text[0] != '-' && text[0] != '+'
    ensures ParseScoreText(text).None?
  {
    ParseIntNoDigit(text);
  }

  /** The text a score field shows reads back as the guess it shows. */
  lemma GuessTextRoundTrip(guess: Option<int>)
    ensures ParseScoreText(GuessText(guess)) == guess
  {
    if guess.Some? {
      ParseIntOfIntToString(guess.value, "");
      assert IntToString(guess.value) + "" == IntToString(guess.value);
    }
  }

  /** Typing into a score field: that side's guess becomes the parsed text, the other is kept, the outcome is dropped. */
  function OnChangeScore(current: FixtureState, side: Side, text: string): (st: FixtureState)
    ensures Exclusive(st) && st.outcome.None?
    ensures side == HomeSide ==> st.home == ParseScoreText(text) && st.away == current.away
    ensures side == AwaySide ==> st.away == ParseScoreText(text) && st.home == current.home
  {
    var parsed := ParseScoreText(text);
    match side
    case HomeSide => FixtureState(None, parsed, current.away)
    case AwaySide => FixtureState(None, current.home, parsed)
  }

  /** Typing both scores turns them into the predicted outcome the deltas use. */
  lemma TypedScoresPredict(current: FixtureState, home: int, away: int)
    ensures var st := OnChangeScore(OnChangeScore(current, HomeSide, IntToString(home)), AwaySide, IntToString(away));
      && st == FixtureState(None, Some(home), Some(away))
      && PredictedOutcome(st) == OutcomeFromScore(Some(home), Some(away))
  {
    GuessTextRoundTrip(Some(home));
    GuessTextRoundTrip(Some(away));
  }

  /** Every record in the map keeps outcome and guesses apart. */
  predicate AllExclusive(states: Predictions) {
    forall id | id in states :: Exclusive(states[id])
  }

  class FixturesScreen {
    const app: AppState
    var fixtures: seq<Fixture>
    var rounds: seq<int>
    var fixtureStates: Predictions

    /**
     * The round list is the one the loaded fixtures name. The shared round is not
     * part of it: the other tab may have set it to a round this screen has not loaded.
     */
    predicate Valid()
      reads this
    {
      rounds == DistinctSortedRounds(fixtures)
    }

    constructor (app: AppState)
      ensures this.app == app && Valid()
      ensures fixtures == [] && rounds == [] && fixtureStates == map[]
    {
      this.app := app;
      fixtures := [];
      rounds := [];
      fixtureStates := map[];
    }

    /**
     * `setupRounds(matches)`: the round list becomes the fixtures' distinct sorted
     * rounds; with none the round is cleared, and a missing or no longer listed
     * round is replaced by the target round. A listed round stays as it is.
     */
    method SetupRounds(matches: seq<Fixture>)
      modifies this`rounds, app`round
      ensures rounds == DistinctSortedRounds(matches)
      ensures |rounds| == 0 ==> app.round.None?
      ensures |rounds| > 0 && (old(app.round).None? || old(app.round).value !in rounds) ==>
                app.round == ComputeTargetRound(rounds, matches, app.league, app.season)
      ensures |rounds| > 0 && old(app.round).Some? && old(app.round).value in rounds ==> app.round == old(app.round)
      ensures app.round.Some? ==> app.round.value in rounds
    {
      var rs := DistinctSortedRounds(matches);
      rounds := rs;
      if |rs| == 0 {
        app.SetRound(None);
        return;
      }
      var initialRound := ComputeTargetRound(rs, matches, app.league, app.season);
      TargetRoundAgrees(matches, app.league, app.season);
      if initialRound.Some? && (app.round.None? || app.round.value !in rs) {
        app.SetRound(initialRound);
      }
    }

    /** A fixture list arrives (from the cache or the network): it is stored and the rounds are set up from it. */
    method ReceiveFixtures(matches: seq<Fixture>)
      modifies this`fixtures, this`rounds, app`round
      ensures fixtures == matches && Valid()
      ensures app.round.Some? ==> app.round.value in rounds
      ensures old(app.round).Some? && old(app.round).value in rounds ==> app.round == old(app.round)
      ensures (old(app.round).None? || old(app.round).value !in rounds) ==>
                app.round == ComputeInitialRound(matches, app.league, app.season)
    {
      fixtures := matches;
      SetupRounds(matches);
      TargetRoundAgrees(matches, app.league, app.season);
    }

    /** The stored predictions arrive (on load or on focus): missing ones read as none. */
    method ReceivePredictions(stored: Option<Predictions>)
      modifies this`fixtureStates
      ensures fixtureStates == stored.GetOr(map[])
    {
      fixtureStates := stored.GetOr(map[]);
    }

    /** `handleSelectOutcome(fixture, outcome)`: only that fixture's record changes. */
    method SelectOutcome(fx: Fixture, o: Outcome)
      modifies this`fixtureStates
      ensures fixtureStates == old(fixtureStates)[fx.id := OnSelectOutcome(Current(old(fixtureStates), fx.id), o)]
      ensures AllExclusive(old(fixtureStates)) ==> AllExclusive(fixtureStates)
    {
      var current := Current(fixtureStates, fx.id);
      fixtureStates := fixtureStates[fx.id := OnSelectOutcome(current, o)];
    }

    /** `handleChangeScore(fixture, side, text)`: only that fixture's record changes. */
    method ChangeScore(fx: Fixture, side: Side, text: string)
      modifies this`fixtureStates
      ensures fixtureStates == old(fixtureStates)[fx.id := OnChangeScore(Current(old(fixtureStates), fx.id), side, text)]
      ensures AllExclusive(old(fixtureStates)) ==> AllExclusive(fixtureStates)
    {
      var current := Current(fixtureStates, fx.id);
      fixtureStates := fixtureStates[fx.id := OnChangeScore(current, side, text)];
    }

    /** `handleJumpToCurrentRound`: with fixtures and rounds loaded, the round is forced to the target round. */
    method JumpToCurrentRound()
      requires Valid()
      modifies app`round
      ensures Valid()
      ensures |fixtures| == 0 ==> app.round == old(app.round)
      ensures |fixtures| > 0 ==> app.round == ComputeInitialRound(fixtures, app.league, app.season)
      ensures |fixtures| > 0 ==> app.round.Some? && app.round.value in rounds
    {
      if |fixtures| == 0 || |rounds| == 0 {
        NonEmptyHasRounds(fixtures);
        return;
      }
      var targetRound := ComputeTargetRound(rounds, fixtures, app.league, app.season);
      TargetRoundAgrees(fixtures, app.league, app.season);
      if targetRound.Some? {
        app.SetRound(targetRound);
      }
    }

    /** `handleClearSelections`: every prediction is dropped (the storage write is left out). */
    method ClearSelections()
      modifies this`fixtureStates
      ensures fixtureStates == map[]
    {
      fixtureStates := map[];
    }

    /** The list the screen shows: everything without a round, and never nothing for a listed round. */
    function Shown(): (shown: seq<Fixture>)
      reads this, app
      ensures app.round.None? ==> shown == fixtures
      ensures Valid() && app.round.Some? && app.round.value in rounds ==> |shown| > 0
    {
      if app.round.Some? && app.round.value in DistinctSortedRounds(fixtures) then
        ListedRoundShowsFixtures(fixtures, app.round.value);
        Filtered(fixtures, app.round)
      else
        Filtered(fixtures, app.round)
    }
  }
}
