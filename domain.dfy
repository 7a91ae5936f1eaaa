/**
 * The value shapes the screens pass around: fixtures as the fixture API returns
 * them, the 1/X/2 outcome, and the per-fixture prediction record kept in the
 * `fixtureStates` map.
 */
module Domain {
  import opened Wrappers

  /** The only fixture status that counts as played. */
  const Finished: string := "FINISHED"

  /** The outcome symbols '1' (home win), 'X' (draw) and '2' (away win). */
  datatype Outcome = HomeWin | Draw | AwayWin

  /**
   * A fixture: its id, round (matchday), team names, status and the full-time
   * score, each side of which may be missing. An empty name stands for a missing one.
   */
  datatype Fixture = Fixture(
    id: int,
    round: int,
    home: string,
    away: string,
    status: string,
    fullHome: Option<int>,
    fullAway: Option<int>)

  /**
   * One user prediction, `{outcome, home, away}`. Exclusivity of the outcome and
   * the score guesses is not part of the type: stored records may break it.
   */
  datatype FixtureState = FixtureState(outcome: Option<Outcome>, home: Option<int>, away: Option<int>)

  /** The record a handler starts from when the fixture has none: `{outcome: null, home: null, away: null}`. */
  const EmptyState: FixtureState := FixtureState(None, None, None)

  /** An outcome and a score guess are never set together. */
  predicate Exclusive(st: FixtureState) {
    st.outcome.None? || (st.home.None? && st.away.None?)
  }

  /** The predictions of one league and season, by fixture id. */
  type Predictions = map<int, FixtureState>
}
