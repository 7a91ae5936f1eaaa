/**
 * The standings screen: its default round (`computeInitialRound`), the state it
 * keeps (fixtures, fixture predictions, rounds, display mode) and the handlers
 * that change that state.
 */
module StandingsScreenModel {
  import opened Wrappers
  import opened Domain
  import opened JsArray
  import opened Leagues
  import opened Rounds
  import opened StandingsTable
  import opened TableLaws
  import opened PredictionDeltas
  import opened StandingsRanking
  import opened AppStateStore

  /**
   * `computeInitialRound(matches, league, season)`: no round when the fixtures
   * name none, otherwise the round the default-round policy picks.
   */
  function ComputeInitialRound(matches: seq<Fixture>, league: League, season: Option<int>): (r: Option<int>)
    ensures r.None? <==> |matches| == 0
    ensures r.Some? ==> r.value in DistinctSortedRounds(matches) && HasRound(matches, r.value)
  {
    var rs := DistinctSortedRounds(matches);
    if |rs| == 0 then None
    else
      MaxFinishedIsListed(matches);
      ResolvedRoundIsListed(rs, MaxFinished(matches), IsLatestSeason(league, season));
      Some(ResolveRound(rs, MaxFinished(matches), IsLatestSeason(league, season)))
  }

  /** A non-empty fixture list names at least one round. */
  lemma NonEmptyHasRounds(matches: seq<Fixture>)
    ensures |matches| > 0 ==> |DistinctSortedRounds(matches)| > 0
  {
    if |matches| > 0 {
      assert HasRound(matches, matches[0].round);
    }
  }

  /**
   * The default round in terms of the fixtures themselves: in the latest season
   * the first round when nothing is finished, the next round after the highest
   * finished one, or that round when it is the last; in an older season the
   * highest finished round (0 counting as none), else the last round.
   */
  lemma InitialRoundCases(matches: seq<Fixture>, league: League, season: Option<int>)
    requires |matches| > 0
    ensures var rs, mf, latest := DistinctSortedRounds(matches), MaxFinished(matches), IsLatestSeason(league, season);
      var r := ComputeInitialRound(matches, league, season).value;
      && (latest && mf.None? ==> r == rs[0])
      && (latest && mf.Some? && mf.value != rs[|rs| - 1] ==>
            HasRound(matches, r) && r > mf.value &&
            forall x | HasRound(matches, x) && x > mf.value :: r <= x)
      && (latest && mf == Some(rs[|rs| - 1]) ==> r == mf.value)
      && (!latest && mf.Some? && mf.value != 0 ==> r == mf.value)
      && (!latest && (mf.None? || mf == Some(0)) ==> r == rs[|rs| - 1])
  {
    var rs := DistinctSortedRounds(matches);
    NonEmptyHasRounds(matches);
    MaxFinishedIsListed(matches);
    ResolveRoundCases(rs, MaxFinished(matches), IsLatestSeason(league, season));
  }

  /** Rows of the actual table have distinct team names. */
  lemma ActualTableDistinct(fs: seq<Fixture>, roundLimit: Option<int>)
    ensures DistinctTeams(ActualTable(fs, roundLimit))
  {
    TableRows(fs, roundLimit);
  }

  /** With no predictions stored, no fixture contributes a delta. */
  lemma {:induction false} NoPredictionsNoDeltas(fs: seq<Fixture>, roundLimit: Option<int>)
    ensures Deltas(fs, map[], roundLimit) == map[]
  {
    if |fs| > 0 {
      NoPredictionsNoDeltas(fs[..|fs| - 1], roundLimit);
      assert FixtureDelta(fs[|fs| - 1], map[], roundLimit).None?;
    }
  }

  /** The list the screen shows: the current mode's ordering of the table up to the selected round. */
  function ScreenView(mode: Mode, fixtures: seq<Fixture>, states: Predictions, round: Option<int>): seq<RowView> {
    StandingsView(mode, ActualTable(fixtures, round), Deltas(fixtures, states, round))
  }

  /** After the selections are cleared, the screen shows the actual order in either mode, without arrows. */
  lemma ClearedViewHasNoArrows(mode: Mode, fixtures: seq<Fixture>, round: Option<int>)
    ensures var view, a := ScreenView(mode, fixtures, map[], round), ActualSorted(ActualTable(fixtures, round));
      && |view| == |a|
      && forall i | 0 <= i < |view| :: view[i].arrow.None? && view[i].team == a[i].team && view[i].rank == i + 1
  {
    ActualTableDistinct(fixtures, round);
    NoPredictionsNoDeltas(fixtures, round);
    NoDeltasView(mode, ActualTable(fixtures, round));
  }

  class StandingsScreen {
    const app: AppState
    var fixtures: seq<Fixture>
    var fixtureStates: Predictions
    var rounds: seq<int>
    var mode: Mode

    /**
     * The round list is the one the loaded fixtures name. The shared round is not
     * part of it: the other tab may have set it to a round this screen has not loaded.
     */
    predicate Valid()
      reads this
    {
      rounds == DistinctSortedRounds(fixtures)
    }

    constructor (app: AppState)
      ensures this.app == app && Valid()
      ensures fixtures == [] && fixtureStates == map[] && rounds == [] && mode == ActualMode
    {
      this.app := app;
      fixtures := [];
      fixtureStates := map[];
      rounds := [];
      mode := ActualMode;
    }

    /**
     * `setupRounds(matches)`: the round list becomes the fixtures' distinct sorted
     * rounds; with none the round is cleared, and a missing or no longer listed
     * round is replaced by the default one. A listed round stays as it is.
     */
    method SetupRounds(matches: seq<Fixture>)
      modifies this`rounds, app`round
      ensures rounds == DistinctSortedRounds(matches)
      ensures |rounds| == 0 ==> app.round.None?
      ensures |rounds| > 0 && (old(app.round).None? || old(app.round).value !in rounds) ==>
                app.round == ComputeInitialRound(matches, app.league, app.season)
      ensures |rounds| > 0 && old(app.round).Some? && old(app.round).value in rounds ==> app.round == old(app.round)
      ensures app.round.Some? ==> app.round.value in rounds
    {
      var rs := DistinctSortedRounds(matches);
      rounds := rs;
      if |rs| == 0 {
        app.SetRound(None);
        return;
      }
      var initialRound := ComputeInitialRound(matches, app.league, app.season);
      if app.round.None? || app.round.value !in rs {
        app.SetRound(initialRound);
      }
    }

    /** A fixture list arrives (from the cache or the network): it is stored and the rounds are set up from it. */
    method ReceiveFixtures(matches: seq<Fixture>)
      modifies this`fixtures, this`rounds, app`round
      ensures fixtures == matches && Valid()
      ensures app.round.Some? ==> app.round.value in rounds
      ensures rounds == DistinctSortedRounds(matches)
      ensures old(app.round).Some? && old(app.round).value in rounds ==> app.round == old(app.round)
      ensures (old(app.round).None? || old(app.round).value !in rounds) ==>
                app.round == ComputeInitialRound(matches, app.league, app.season)
    {
      fixtures := matches;
      SetupRounds(matches);
    }

    /** The stored predictions arrive after loading: missing ones read as none. */
    method ReceivePredictions(stored: Option<Predictions>)
      modifies this`fixtureStates
      ensures fixtureStates == stored.GetOr(map[])
    {
      fixtureStates := stored.GetOr(map[]);
    }

    /** On focus the predictions are reloaded, and the predicted view is chosen exactly when some are stored. */
    method FocusRefresh(stored: Option<Predictions>)
      modifies this`fixtureStates, this`mode
      ensures fixtureStates == stored.GetOr(map[])
      ensures mode == PredictedMode <==> |fixtureStates| > 0
    {
      var state := stored.GetOr(map[]);
      fixtureStates := state;
      mode := if |state| > 0 then PredictedMode else ActualMode;
    }

    /** `handleClearSelections`: every prediction is dropped (the storage write is left out). */
    method ClearSelections()
      modifies this`fixtureStates
      ensures fixtureStates == map[]
    {
      fixtureStates := map[];
    }

    /** `handleJumpToCurrentRound`: with fixtures loaded, the round is forced to the default one. */
    method JumpToCurrentRound()
      requires Valid()
      modifies app`round
      ensures Valid()
      ensures |fixtures| == 0 ==> app.round == old(app.round)
      ensures |fixtures| > 0 ==> app.round == ComputeInitialRound(fixtures, app.league, app.season)
      ensures |fixtures| > 0 ==> app.round.Some? && app.round.value in rounds
    {
      if |fixtures| == 0 {
        return;
      }
      var initialRound := ComputeInitialRound(fixtures, app.league, app.season);
      if initialRound.Some? {
        app.SetRound(initialRound);
      }
    }

    /** What the screen currently renders: one row per team, and no arrow once the selections are cleared. */
    function View(): (view: seq<RowView>)
      reads this, app
      ensures |view| == |ActualTable(fixtures, app.round)|
      ensures fixtureStates == map[] ==> forall i | 0 <= i < |view| :: view[i].arrow.None?
    {
      var table, deltas := ActualTable(fixtures, app.round), Deltas(fixtures, fixtureStates, app.round);
      ActualTableDistinct(fixtures, app.round);
      ActualViewRows(table, deltas);
      PredictedViewRows(table, deltas);
      if fixtureStates == map[] then
        ClearedViewHasNoArrows(mode, fixtures, app.round);
        ScreenView(mode, fixtures, fixtureStates, app.round)
      else
        ScreenView(mode, fixtures, fixtureStates, app.round)
    }
  }
}
