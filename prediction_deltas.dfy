/**
 * The point swing a user's predictions cause: for every fixture inside the round
 * limit with a usable prediction, the points the predicted outcome would give
 * each side minus the points the actual result gave, accumulated per team.
 */
module PredictionDeltas {
  import opened Wrappers
  import opened Domain
  import opened StandingsTable

  /** The stored outcome if there is one, else the outcome of the two score guesses when both are set. */
  function PredictedOutcome(st: FixtureState): (o: Option<Outcome>)
    ensures st.outcome.Some? ==> o == st.outcome
    ensures st.outcome.None? ==> o == OutcomeFromScore(st.home, st.away)
    ensures o.None? <==> st.outcome.None? && (st.home.None? || st.away.None?)
  {
    if st.outcome.Some? then st.outcome
    else if st.home.Some? && st.away.Some? then OutcomeFromScore(st.home, st.away)
    else None
  }

  /** The (home, away) points an outcome is worth: 3-0, 1-1 or 0-3. */
  function PointsFor(o: Outcome): (p: (int, int))
    ensures p.0 + p.1 == (if o == Draw then 2 else 3)
    ensures p.0 == 3 <==> o == HomeWin
    ensures p.1 == 3 <==> o == AwayWin
  {
    match o
    case HomeWin => (3, 0)
    case Draw => (1, 1)
    case AwayWin => (0, 3)
  }

  /** The actual outcome, which only a finished fixture has. */
  function ActualOutcome(fx: Fixture): (o: Option<Outcome>)
    ensures fx.status != Finished ==> o.None?
    ensures fx.status == Finished ==> o == OutcomeFromScore(fx.fullHome, fx.fullAway)
  {
    if fx.status == Finished then OutcomeFromScore(fx.fullHome, fx.fullAway) else None
  }

  /** The points the actual result gave the two sides: none when there is no result. */
  function ActualPoints(fx: Fixture): (p: (int, int))
    ensures ActualOutcome(fx).None? ==> p == (0, 0)
    ensures ActualOutcome(fx).Some? ==> p == PointsFor(ActualOutcome(fx).value)
  {
    match ActualOutcome(fx)
    case None => (0, 0)
    case Some(o) => PointsFor(o)
  }

  /**
   * What one fixture contributes (home delta, away delta); `None` when it is
   * skipped: beyond the round limit, without a record, or without a usable outcome.
   */
  function FixtureDelta(fx: Fixture, states: Predictions, roundLimit: Option<int>): (d: Option<(int, int)>)
    ensures d.None? <==> !InCutoff(fx, roundLimit) || fx.id !in states || PredictedOutcome(states[fx.id]).None?
    ensures d.Some? ==> -3 <= d.value.0 <= 3 && -3 <= d.value.1 <= 3
    ensures d.Some? && fx.status != Finished ==> d.value == PointsFor(PredictedOutcome(states[fx.id]).value)
    ensures d.Some? ==>
              var predicted, actual := PointsFor(PredictedOutcome(states[fx.id]).value), ActualPoints(fx);
              d.value == (predicted.0 - actual.0, predicted.1 - actual.1)
  {
    if !InCutoff(fx, roundLimit) || fx.id !in states then None
    else
      match PredictedOutcome(states[fx.id])
      case None => None
      case Some(o) =>
        var predicted, actual := PointsFor(o), ActualPoints(fx);
        Some((predicted.0 - actual.0, predicted.1 - actual.1))
  }

  /** `add(team, pts)`: nothing for an empty name or zero points, else the points are added to the team's total. */
  function Add(totals: map<string, int>, team: string, pts: int): map<string, int> {
    if team == "" || pts == 0 then totals
    else totals[team := (if team in totals then totals[team] else 0) + pts]
  }

  /** What `add` makes of the totals after one fixture. */
  function AddFixture(totals: map<string, int>, fx: Fixture, states: Predictions, roundLimit: Option<int>): map<string, int> {
    match FixtureDelta(fx, states, roundLimit)
    case None => totals
    case Some(d) => Add(Add(totals, fx.home, d.0), fx.away, d.1)
  }

  /** The totals after all fixtures, in order. */
  function Deltas(fs: seq<Fixture>, states: Predictions, roundLimit: Option<int>): map<string, int> {
    if |fs| == 0 then map[]
    else AddFixture(Deltas(fs[..|fs| - 1], states, roundLimit), fs[|fs| - 1], states, roundLimit)
  }

  /** The body of the `forEach` callback up to the two `add` calls: `None` where it returns early. */
  method ScoreFixture(fx: Fixture, fixtureStates: Predictions, roundLimit: Option<int>) returns (d: Option<(int, int)>)
    ensures d == FixtureDelta(fx, fixtureStates, roundLimit)
  {
    if roundLimit.Some? && fx.round > roundLimit.value {
      return None;
    }
    if fx.id !in fixtureStates {
      return None;
    }
    var st := fixtureStates[fx.id];
    var predictedOutcome := st.outcome;
    if predictedOutcome.None? && st.home.Some? && st.away.Some? {
      predictedOutcome := OutcomeFromScore(st.home, st.away);
    }
    if predictedOutcome.None? {
      return None;
    }
    var predictedHome, predictedAway := 0, 0;
    match predictedOutcome.value {
      case HomeWin => predictedHome := 3;
      case AwayWin => predictedAway := 3;
      case Draw => predictedHome, predictedAway := 1, 1;
    }
    var actualHome, actualAway := 0, 0;
    var actualOutcome := if fx.status == Finished then OutcomeFromScore(fx.fullHome, fx.fullAway) else None;
    if actualOutcome.Some? {
      match actualOutcome.value {
        case HomeWin => actualHome := 3;
        case AwayWin => actualAway := 3;
        case Draw => actualHome, actualAway := 1, 1;
      }
    }
    return Some((predictedHome - actualHome, predictedAway - actualAway));
  }

  /** `computePredictionDeltas(fixtures, fixtureStates, roundLimit)`: the totals accumulated fixture by fixture. */
  method ComputePredictionDeltas(fixtures: seq<Fixture>, fixtureStates: Predictions, roundLimit: Option<int>)
    returns (totals: map<string, int>)
    ensures totals == Deltas(fixtures, fixtureStates, roundLimit)
  {
    totals := map[];
    for i := 0 to |fixtures|
      invariant totals == Deltas(fixtures[..i], fixtureStates, roundLimit)
    {
      assert fixtures[..i + 1][..i] == fixtures[..i];
      var fx := fixtures[i];
      var d := ScoreFixture(fx, fixtureStates, roundLimit);
      if d.Some? {
        totals := Add(totals, fx.home, d.value.0);
        totals := Add(totals, fx.away, d.value.1);
      }
    }
    assert fixtures[..|fixtures|] == fixtures;
  }

  /** What one fixture adds to the total of `team` (both deltas when it meets itself). */
  function Contribution(team: string, fx: Fixture, states: Predictions, roundLimit: Option<int>): int {
    match FixtureDelta(fx, states, roundLimit)
    case None => 0
    case Some(d) => (if fx.home == team then d.0 else 0) + (if fx.away == team then d.1 else 0)
  }

  /** The sum of a team's contributions over all fixtures. */
  function SumContributions(team: string, fs: seq<Fixture>, states: Predictions, roundLimit: Option<int>): int {
    if |fs| == 0 then 0
    else SumContributions(team, fs[..|fs| - 1], states, roundLimit) + Contribution(team, fs[|fs| - 1], states, roundLimit)
  }

  /** Some fixture hands the team a non-zero delta. */
  predicate Touches(team: string, fs: seq<Fixture>, states: Predictions, roundLimit: Option<int>) {
    exists i | 0 <= i < |fs| :: FixtureDelta(fs[i], states, roundLimit).Some? &&
      ((fs[i].home == team && FixtureDelta(fs[i], states, roundLimit).value.0 != 0) ||
       (fs[i].away == team && FixtureDelta(fs[i], states, roundLimit).value.1 != 0))
  }

  lemma TouchesStep(team: string, fs: seq<Fixture>, states: Predictions, roundLimit: Option<int>)
    requires |fs| > 0
    ensures var fx, d := fs[|fs| - 1], FixtureDelta(fs[|fs| - 1], states, roundLimit);
      Touches(team, fs, states, roundLimit) <==>
        Touches(team, fs[..|fs| - 1], states, roundLimit) ||
        (d.Some? && ((fx.home == team && d.value.0 != 0) || (fx.away == team && d.value.1 != 0)))
  {
    var init := fs[..|fs| - 1];
    if Touches(team, init, states, roundLimit) {
      var i :| 0 <= i < |init| && FixtureDelta(init[i], states, roundLimit).Some? &&
        ((init[i].home == team && FixtureDelta(init[i], states, roundLimit).value.0 != 0) ||
         (init[i].away == team && FixtureDelta(init[i], states, roundLimit).value.1 != 0));
      assert fs[i] == init[i];
    }
    if Touches(team, fs, states, roundLimit) {
      var i :| 0 <= i < |fs| && FixtureDelta(fs[i], states, roundLimit).Some? &&
        ((fs[i].home == team && FixtureDelta(fs[i], states, roundLimit).value.0 != 0) ||
         (fs[i].away == team && FixtureDelta(fs[i], states, roundLimit).value.1 != 0));
      if i < |init| {
        assert fs[i] == init[i];
      }
    }
  }

  /**
   * A team is a key of the delta map exactly when some fixture hands it a
   * non-zero delta, and its entry (0 when absent) is the sum of its
   * contributions. The empty name is never a key.
   */
  lemma {:induction false} DeltasMeaning(team: string, fs: seq<Fixture>, states: Predictions, roundLimit: Option<int>)
    ensures "" !in Deltas(fs, states, roundLimit)
    ensures team != "" ==> (team in Deltas(fs, states, roundLimit) <==> Touches(team, fs, states, roundLimit))
    ensures team != "" ==> Entry(Deltas(fs, states, roundLimit), team) == SumContributions(team, fs, states, roundLimit)
  {
    if |fs| > 0 {
      var init, fx := fs[..|fs| - 1], fs[|fs| - 1];
      DeltasMeaning(team, init, states, roundLimit);
      TouchesStep(team, fs, states, roundLimit);
      var before := Deltas(init, states, roundLimit);
      match FixtureDelta(fx, states, roundLimit)
      case None =>
      case Some(d) =>
        AddEntry(before, fx.home, d.0, team);
        AddEntry(Add(before, fx.home, d.0), fx.away, d.1, team);
    }
  }

  /** The entry (0 when absent) of `team` in a totals map. */
  function Entry(totals: map<string, int>, team: string): int {
    if team in totals then totals[team] else 0
  }

  /** One `add` call adds its points to the entry of its team, and makes it a key when they are non-zero. */
  lemma AddEntry(totals: map<string, int>, name: string, pts: int, team: string)
    ensures "" !in totals ==> "" !in Add(totals, name, pts)
    ensures team != "" ==> Entry(Add(totals, name, pts), team) == Entry(totals, team) + (if name == team then pts else 0)
    ensures team != "" ==> (team in Add(totals, name, pts) <==> team in totals || (name == team && pts != 0))
  {
  }

  /** A draw predicted on an actual 2-1 costs the home side 2 and gives the away side 1. */
  lemma DrawOnTwoOne(fx: Fixture, states: Predictions)
    requires fx.status == Finished && fx.fullHome == Some(2) && fx.fullAway == Some(1)
    requires fx.id in states && states[fx.id].outcome == Some(Draw)
    ensures FixtureDelta(fx, states, None) == Some((-2, 1))
  {
  }

  /** A prediction that matches the result of a finished fixture changes nothing, so it adds no key. */
  lemma CorrectPredictionAddsNothing(totals: map<string, int>, fx: Fixture, states: Predictions, roundLimit: Option<int>)
    requires InCutoff(fx, roundLimit) && fx.id in states && fx.status == Finished
    requires PredictedOutcome(states[fx.id]).Some?
    requires PredictedOutcome(states[fx.id]) == OutcomeFromScore(fx.fullHome, fx.fullAway)
    ensures AddFixture(totals, fx, states, roundLimit) == totals
  {
  }

  /**
   * A key can hold 0: a team gaining 2 in one fixture and losing 2 in another
   * stays in the map, because `add` only skips zero steps, not zero totals.
   */
  lemma KeyCanHoldZero(f1: Fixture, f2: Fixture, states: Predictions)
    requires f1.home == "A" && f2.home == "A" && f1.away == "B" && f2.away == "B" && f1.id != f2.id
    requires f1.status == Finished && f1.fullHome == Some(1) && f1.fullAway == Some(1)
    requires f2.status == Finished && f2.fullHome == Some(1) && f2.fullAway == Some(0)
    requires f1.id in states && states[f1.id].outcome == Some(HomeWin)
    requires f2.id in states && states[f2.id].outcome == Some(Draw)
    ensures "A" in Deltas([f1, f2], states, None) && Deltas([f1, f2], states, None)["A"] == 0
  {
    assert FixtureDelta(f1, states, None) == Some((2, -1));
    assert FixtureDelta(f2, states, None) == Some((-2, 1));
    assert [f1, f2][..1] == [f1];
    assert [f1][..0] == [];
    assert Deltas([f1], states, None) == map["A" := 2, "B" := -1];
  }
}
