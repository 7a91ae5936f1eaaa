/**
 * The actual league table up to a round: one row per team named in the fixture
 * list, in order of first appearance, crediting every finished fixture with a
 * full-time score whose round is within the limit.
 */
module StandingsTable {
  import opened Wrappers
  import opened Domain
  import opened JsArray

  /** The 1/X/2 outcome of a score; none while either side is missing. */
  function OutcomeFromScore(home: Option<int>, away: Option<int>): (o: Option<Outcome>)
    ensures o.None? <==> home.None? || away.None?
    ensures o == Some(HomeWin) <==> home.Some? && away.Some? && home.value > away.value
    ensures o == Some(AwayWin) <==> home.Some? && away.Some? && home.value < away.value
    ensures o == Some(Draw) <==> home.Some? && away.Some? && home.value == away.value
  {
    if home.None? || away.None? then None
    else if home.value > away.value then Some(HomeWin)
    else if home.value < away.value then Some(AwayWin)
    else Some(Draw)
  }

  /** One row of the table. */
  datatype TeamRow = TeamRow(
    team: string,
    played: int,
    won: int,
    draw: int,
    lost: int,
    goalsFor: int,
    goalsAgainst: int,
    goalDiff: int,
    points: int)

  /** The row `ensureTeam` creates. */
  function ZeroRow(team: string): TeamRow {
    TeamRow(team, 0, 0, 0, 0, 0, 0, 0, 0)
  }

  /** What every row satisfies: the goal difference is kept up to date and points are 3 per win, 1 per draw. */
  predicate Consistent(row: TeamRow) {
    && row.goalDiff == row.goalsFor - row.goalsAgainst
    && row.played == row.won + row.draw + row.lost
    && row.points == 3 * row.won + row.draw
    && 0 <= row.won && 0 <= row.draw && 0 <= row.lost
  }

  /** The fixture is inside the round limit (no limit when it is absent). */
  predicate InCutoff(fx: Fixture, roundLimit: Option<int>) {
    !(roundLimit.Some? && fx.round > roundLimit.value)
  }

  /** The fixture is credited: inside the limit, finished, and with both full-time goals. */
  predicate Counts(fx: Fixture, roundLimit: Option<int>) {
    InCutoff(fx, roundLimit) && fx.status == Finished && fx.fullHome.Some? && fx.fullAway.Some?
  }

  /** The home team's row after a fixture it played at home ended `h`-`a`. */
  function CreditHome(row: TeamRow, h: int, a: int, o: Outcome): TeamRow {
    var gf := row.goalsFor + h;
    var ga := row.goalsAgainst + a;
    row.(played := row.played + 1, goalsFor := gf, goalsAgainst := ga, goalDiff := gf - ga,
         won := row.won + (if o == HomeWin then 1 else 0),
         draw := row.draw + (if o == Draw then 1 else 0),
         lost := row.lost + (if o == AwayWin then 1 else 0),
         points := row.points + (if o == HomeWin then 3 else if o == Draw then 1 else 0))
  }

  /** The away team's row after a fixture it played away ended `h`-`a`. */
  function CreditAway(row: TeamRow, h: int, a: int, o: Outcome): TeamRow {
    var gf := row.goalsFor + a;
    var ga := row.goalsAgainst + h;
    row.(played := row.played + 1, goalsFor := gf, goalsAgainst := ga, goalDiff := gf - ga,
         won := row.won + (if o == AwayWin then 1 else 0),
         draw := row.draw + (if o == Draw then 1 else 0),
         lost := row.lost + (if o == HomeWin then 1 else 0),
         points := row.points + (if o == AwayWin then 3 else if o == Draw then 1 else 0))
  }

  /**
   * One row after one fixture: the home credit when the row's team is at home,
   * then the away credit when it is away (both, in that order, when a team meets itself).
   */
  function Credit(row: TeamRow, fx: Fixture, roundLimit: Option<int>): TeamRow {
    if !Counts(fx, roundLimit) then row
    else
      var o := OutcomeFromScore(fx.fullHome, fx.fullAway).value;
      var r1 := if row.team == fx.home then CreditHome(row, fx.fullHome.value, fx.fullAway.value, o) else row;
      if r1.team == fx.away then CreditAway(r1, fx.fullHome.value, fx.fullAway.value, o) else r1
  }

  /** A team's row after all of `fs`, in order. */
  function Tally(team: string, fs: seq<Fixture>, roundLimit: Option<int>): (row: TeamRow)
    ensures row.team == team
    ensures Consistent(row)
  {
    if |fs| == 0 then ZeroRow(team)
    else Credit(Tally(team, fs[..|fs| - 1], roundLimit), fs[|fs| - 1], roundLimit)
  }

  /** `ensureTeam`: a non-empty name not yet seen is appended. */
  function EnsureTeam(order: seq<string>, name: string): seq<string> {
    if name == "" || name in order then order else order + [name]
  }

  /** The table's team order: home then away name of each fixture, first appearance first. */
  function TeamOrder(fs: seq<Fixture>): seq<string> {
    if |fs| == 0 then []
    else
      var fx := fs[|fs| - 1];
      EnsureTeam(EnsureTeam(TeamOrder(fs[..|fs| - 1]), fx.home), fx.away)
  }

  /** The name appears in some fixture of `fs`. */
  predicate Named(fs: seq<Fixture>, name: string) {
    exists i | 0 <= i < |fs| :: fs[i].home == name || fs[i].away == name
  }

  /**
   * Every credited fixture names both teams. Otherwise `teams.get` finds no row
   * for the empty name and `homeRow.played += 1` throws.
   */
  predicate CreditedNamed(fs: seq<Fixture>, roundLimit: Option<int>) {
    forall i | 0 <= i < |fs| :: Counts(fs[i], roundLimit) ==> fs[i].home != "" && fs[i].away != ""
  }

  /** The rows `computeActualTable` returns, in team order. */
  function ActualTable(fs: seq<Fixture>, roundLimit: Option<int>): seq<TeamRow> {
    var order := TeamOrder(fs);
    seq(|order|, i requires 0 <= i < |order| => Tally(order[i], fs, roundLimit))
  }

  lemma {:induction false} TeamOrderMembers(fs: seq<Fixture>)
    ensures Distinct(TeamOrder(fs))
    ensures forall t :: t in TeamOrder(fs) <==> t != "" && Named(fs, t)
  {
    if |fs| > 0 {
      var init, fx := fs[..|fs| - 1], fs[|fs| - 1];
      TeamOrderMembers(init);
      EnsureTeamMembers(TeamOrder(init), fx.home);
      EnsureTeamMembers(EnsureTeam(TeamOrder(init), fx.home), fx.away);
      forall t ensures Named(fs, t) <==> Named(init, t) || fx.home == t || fx.away == t {
        NamedStep(fs, t);
      }
    }
  }

  /** `ensureTeam` keeps the names distinct and adds exactly the new non-empty name. */
  lemma EnsureTeamMembers(order: seq<string>, name: string)
    requires Distinct(order)
    ensures Distinct(EnsureTeam(order, name))
    ensures forall t :: t in EnsureTeam(order, name) <==> t in order || (t == name && name != "")
  {
  }

  /** A name occurs in a list of fixtures when it occurs before the last one or in the last one. */
  lemma NamedStep(fs: seq<Fixture>, t: string)
    requires |fs| > 0
    ensures Named(fs, t) <==> Named(fs[..|fs| - 1], t) || fs[|fs| - 1].home == t || fs[|fs| - 1].away == t
  {
    var init := fs[..|fs| - 1];
    if Named(init, t) {
      var i :| 0 <= i < |init| && (init[i].home == t || init[i].away == t);
      assert fs[i] == init[i];
    }
    if Named(fs, t) {
      var i :| 0 <= i < |fs| && (fs[i].home == t || fs[i].away == t);
      if i < |init| {
        assert init[i] == fs[i];
      }
    }
  }

  /** The two map writes for one credited fixture give every row its `Credit`. */
  lemma CreditWrites(teams: map<string, TeamRow>, fx: Fixture, roundLimit: Option<int>)
    requires Counts(fx, roundLimit) && fx.home in teams && fx.away in teams
    requires forall t | t in teams :: teams[t].team == t
    ensures var o := OutcomeFromScore(fx.fullHome, fx.fullAway).value;
            var t1 := teams[fx.home := CreditHome(teams[fx.home], fx.fullHome.value, fx.fullAway.value, o)];
            var t2 := t1[fx.away := CreditAway(t1[fx.away], fx.fullHome.value, fx.fullAway.value, o)];
            forall t | t in teams :: t in t2 && t2[t] == Credit(teams[t], fx, roundLimit)
  {
  }

  /** Extending the prefix of the list by one fixture credits that fixture to every row. */
  lemma TallyPrefixStep(fs: seq<Fixture>, i: int, roundLimit: Option<int>)
    requires 0 <= i < |fs|
    ensures forall t :: Tally(t, fs[..i + 1], roundLimit) == Credit(Tally(t, fs[..i], roundLimit), fs[i], roundLimit)
  {
    assert fs[..i + 1][..i] == fs[..i];
  }

  /** The first pass: `ensureTeam` on the home and away name of every fixture. */
  method RegisterTeams(fixtures: seq<Fixture>) returns (teams: map<string, TeamRow>, order: seq<string>)
    ensures order == TeamOrder(fixtures)
    ensures forall t :: t in teams <==> t in order
    ensures forall t | t in teams :: teams[t] == ZeroRow(t)
    ensures forall t :: t in teams <==> t != "" && Named(fixtures, t)
  {
    teams, order := map[], [];
    for i := 0 to |fixtures|
      invariant order == TeamOrder(fixtures[..i])
      invariant forall t :: t in teams <==> t in order
      invariant forall t | t in teams :: teams[t] == ZeroRow(t)
    {
      assert fixtures[..i + 1][..i] == fixtures[..i];
      var fx := fixtures[i];
      if fx.home != "" && fx.home !in teams {
        teams := teams[fx.home := ZeroRow(fx.home)];
        order := order + [fx.home];
      }
      if fx.away != "" && fx.away !in teams {
        teams := teams[fx.away := ZeroRow(fx.away)];
        order := order + [fx.away];
      }
    }
    assert fixtures[..|fixtures|] == fixtures;
    TeamOrderMembers(fixtures);
  }

  /** The second pass: every credited fixture updates its home row, then its away row. */
  method CreditFixtures(fixtures: seq<Fixture>, roundLimit: Option<int>, start: map<string, TeamRow>)
    returns (teams: map<string, TeamRow>)
    requires CreditedNamed(fixtures, roundLimit)
    requires forall t | t in start :: start[t] == ZeroRow(t)
    requires forall t :: t in start <==> t != "" && Named(fixtures, t)
    ensures teams.Keys == start.Keys
    ensures forall t | t in start :: teams[t] == Tally(t, fixtures, roundLimit)
  {
    teams := start;
    for i := 0 to |fixtures|
      invariant teams.Keys == start.Keys
      invariant forall t | t in teams :: teams[t] == Tally(t, fixtures[..i], roundLimit)
    {
      var fx := fixtures[i];
      TallyPrefixStep(fixtures, i, roundLimit);
      if !(roundLimit.Some? && fx.round > roundLimit.value) && fx.status == Finished
         && fx.fullHome.Some? && fx.fullAway.Some?
      {
        assert Counts(fixtures[i], roundLimit);
        assert Named(fixtures, fx.home) && Named(fixtures, fx.away);
        CreditWrites(teams, fx, roundLimit);
        var o := OutcomeFromScore(fx.fullHome, fx.fullAway).value;
        teams := teams[fx.home := CreditHome(teams[fx.home], fx.fullHome.value, fx.fullAway.value, o)];
        teams := teams[fx.away := CreditAway(teams[fx.away], fx.fullHome.value, fx.fullAway.value, o)];
      } else {
        assert !Counts(fx, roundLimit);
      }
    }
    assert fixtures[..|fixtures|] == fixtures;
  }

  /** `Array.from(teams.values())`: the rows in the order their teams were inserted. */
  method RowsInOrder(teams: map<string, TeamRow>, order: seq<string>) returns (rows: seq<TeamRow>)
    requires forall t | t in order :: t in teams
    ensures |rows| == |order|
    ensures forall k | 0 <= k < |order| :: rows[k] == teams[order[k]]
  {
    rows := [];
    for i := 0 to |order|
      invariant |rows| == i
      invariant forall k | 0 <= k < i :: rows[k] == teams[order[k]]
    {
      rows := rows + [teams[order[i]]];
    }
  }

  /**
   * `computeActualTable(fixtures, roundLimit)`: a map of rows filled in by two
   * passes, read back in insertion order.
   */
  method ComputeActualTable(fixtures: seq<Fixture>, roundLimit: Option<int>) returns (rows: seq<TeamRow>)
    requires CreditedNamed(fixtures, roundLimit)
    ensures rows == ActualTable(fixtures, roundLimit)
  {
    var start, order := RegisterTeams(fixtures);
    var teams := CreditFixtures(fixtures, roundLimit, start);
    rows := RowsInOrder(teams, order);
  }
}
