/**
 * What the actual table promises: which rows it has and in what order, the
 * bookkeeping every row keeps, how the whole table adds up, and that a later
 * round limit only adds to it.
 */
module TableLaws {
  import opened Wrappers
  import opened Domain
  import opened JsArray
  import opened StandingsTable

  // ---- rows and their order ----

  /** Every team name as `ensureTeam` meets it: home, then away, fixture by fixture. */
  function Names(fs: seq<Fixture>): (ns: seq<string>)
    ensures |ns| == 2 * |fs|
  {
    if |fs| == 0 then [] else Names(fs[..|fs| - 1]) + [fs[|fs| - 1].home, fs[|fs| - 1].away]
  }

  lemma {:induction false} NamesNamed(fs: seq<Fixture>, t: string)
    ensures t in Names(fs) <==> Named(fs, t)
  {
    if |fs| > 0 {
      var init := fs[..|fs| - 1];
      NamesNamed(init, t);
      if Named(init, t) {
        var i :| 0 <= i < |init| && (init[i].home == t || init[i].away == t);
        assert fs[i] == init[i];
      }
      if Named(fs, t) && !Named(init, t) {
        var i :| 0 <= i < |fs| && (fs[i].home == t || fs[i].away == t);
        assert forall k | 0 <= k < |init| :: init[k] == fs[k];
      }
    }
  }

  lemma IndexOfAppend<T>(xs: seq<T>, ys: seq<T>, x: T)
    ensures x in xs ==> IndexOf(xs + ys, x) == IndexOf(xs, x)
    ensures x !in xs && x in ys ==> IndexOf(xs + ys, x) == |xs| + IndexOf(ys, x)
  {
    var i := IndexOf(xs + ys, x);
    if x in xs {
      var j := IndexOf(xs, x);
      assert (xs + ys)[j] == x;
      assert forall k | 0 <= k < |xs| :: xs[k] == (xs + ys)[k];
    } else if x in ys {
      var j := IndexOf(ys, x);
      assert (xs + ys)[|xs| + j] == x;
      assert forall k | 0 <= k < |xs| :: xs[k] == (xs + ys)[k];
      assert forall k | |xs| <= k < |xs| + |ys| :: ys[k - |xs|] == (xs + ys)[k];
    }
  }

  /** Teams come in order of their first appearance among the fixtures' names. */
  predicate FirstAppearanceOrder(order: seq<string>, names: seq<string>) {
    forall i, j | 0 <= i < j < |order| :: 0 <= IndexOf(names, order[i]) < IndexOf(names, order[j])
  }

  /** Some row of the table belongs to team `t`. */
  predicate HasRow(table: seq<TeamRow>, t: string) {
    exists i | 0 <= i < |table| :: table[i].team == t
  }

  /** The rows come in order of their teams' first appearance among `names`. */
  predicate RowsByFirstAppearance(table: seq<TeamRow>, names: seq<string>) {
    forall i, j | 0 <= i < j < |table| :: IndexOf(names, table[i].team) < IndexOf(names, table[j].team)
  }

  /**
   * The table has exactly one row per distinct non-empty team name of the
   * fixture list, whatever the round limit, in first-appearance order with the
   * home team before the away team; a row holds the tally of its own team.
   */
  lemma TableRows(fs: seq<Fixture>, roundLimit: Option<int>)
    ensures forall t :: HasRow(ActualTable(fs, roundLimit), t) <==> t != "" && t in Names(fs)
    ensures var table := ActualTable(fs, roundLimit);
            forall i, j | 0 <= i < j < |table| :: table[i].team != table[j].team
    ensures var table := ActualTable(fs, roundLimit);
            forall i | 0 <= i < |table| :: table[i] == Tally(table[i].team, fs, roundLimit)
    ensures RowsByFirstAppearance(ActualTable(fs, roundLimit), Names(fs))
  {
    var table, order := ActualTable(fs, roundLimit), TeamOrder(fs);
    TableTeams(fs, roundLimit);
    TeamOrderMembers(fs);
    TeamOrderFirstAppearance(fs);
    forall t ensures HasRow(table, t) <==> t != "" && t in Names(fs) {
      NamesNamed(fs, t);
      if t in order {
        var i := IndexOf(order, t);
        assert table[i].team == t;
      }
    }
    forall i, j | 0 <= i < j < |table|
      ensures IndexOf(Names(fs), table[i].team) < IndexOf(Names(fs), table[j].team)
    {
      assert table[i].team == order[i] && table[j].team == order[j];
    }
  }

  /** Row i of the table is the tally of the i-th registered team. */
  lemma TableTeams(fs: seq<Fixture>, roundLimit: Option<int>)
    ensures |ActualTable(fs, roundLimit)| == |TeamOrder(fs)|
    ensures forall i | 0 <= i < |TeamOrder(fs)| ::
              ActualTable(fs, roundLimit)[i] == Tally(TeamOrder(fs)[i], fs, roundLimit)
              && ActualTable(fs, roundLimit)[i].team == TeamOrder(fs)[i]
  {
  }

  /** One `ensureTeam` call keeps the order the order of first appearance. */
  lemma EnsureTeamStep(order: seq<string>, names: seq<string>, x: string)
    requires FirstAppearanceOrder(order, names)
    requires forall t :: t in order <==> t != "" && t in names
    ensures FirstAppearanceOrder(EnsureTeam(order, x), names + [x])
    ensures forall t :: t in EnsureTeam(order, x) <==> t != "" && t in names + [x]
  {
    var order', names' := EnsureTeam(order, x), names + [x];
    assert forall t :: t in names' <==> t in names || t == x;
    forall t | t in names
      ensures IndexOf(names', t) == IndexOf(names, t)
    {
      IndexOfAppend(names, [x], t);
    }
    if x != "" && x !in order {
      IndexOfAppend(names, [x], x);
      assert IndexOf(names', x) == |names|;
      assert forall i | 0 <= i < |order| :: order'[i] == order[i] && order[i] in names;
    }
  }

  lemma {:induction false} TeamOrderFirstAppearance(fs: seq<Fixture>)
    ensures FirstAppearanceOrder(TeamOrder(fs), Names(fs))
    ensures forall t :: t in TeamOrder(fs) <==> t != "" && t in Names(fs)
  {
    if |fs| > 0 {
      var init := fs[..|fs| - 1];
      var fx := fs[|fs| - 1];
      TeamOrderFirstAppearance(init);
      EnsureTeamStep(TeamOrder(init), Names(init), fx.home);
      EnsureTeamStep(EnsureTeam(TeamOrder(init), fx.home), Names(init) + [fx.home], fx.away);
      assert Names(fs) == Names(init) + [fx.home] + [fx.away];
    }
  }

  // ---- the additive part of a row ----

  /** The counters of a row, which every credit adds to (the goal difference is derived). */
  datatype Totals = Totals(played: int, won: int, draw: int, lost: int, goalsFor: int, goalsAgainst: int, points: int)

  const NoTotals := Totals(0, 0, 0, 0, 0, 0, 0)

  function Plus(a: Totals, b: Totals): Totals {
    Totals(a.played + b.played, a.won + b.won, a.draw + b.draw, a.lost + b.lost,
           a.goalsFor + b.goalsFor, a.goalsAgainst + b.goalsAgainst, a.points + b.points)
  }

  /** Componentwise at most. */
  predicate AtMost(a: Totals, b: Totals) {
    && a.played <= b.played && a.won <= b.won && a.draw <= b.draw && a.lost <= b.lost
    && a.goalsFor <= b.goalsFor && a.goalsAgainst <= b.goalsAgainst && a.points <= b.points
  }

  function RowTotals(row: TeamRow): Totals {
    Totals(row.played, row.won, row.draw, row.lost, row.goalsFor, row.goalsAgainst, row.points)
  }

  /** What a side that scored `gf` and conceded `ga` earns from one match. */
  function SideShare(gf: int, ga: int): Totals {
    Totals(1, if gf > ga then 1 else 0, if gf == ga then 1 else 0, if gf < ga then 1 else 0,
           gf, ga, if gf > ga then 3 else if gf == ga then 1 else 0)
  }

  /** The shares of a fixture ended `h`-`a` that go to a team playing at home, away, both or neither. */
  function Shares(atHome: bool, atAway: bool, h: int, a: int): Totals {
    if atHome && atAway then Plus(SideShare(h, a), SideShare(a, h))
    else if atHome then SideShare(h, a)
    else if atAway then SideShare(a, h)
    else NoTotals
  }

  /** What the fixture adds to the row of `team`. */
  function TeamShare(team: string, fx: Fixture, roundLimit: Option<int>): Totals {
    if !Counts(fx, roundLimit) then NoTotals
    else Shares(team == fx.home, team == fx.away, fx.fullHome.value, fx.fullAway.value)
  }

  lemma CreditHomeAddsShare(row: TeamRow, h: int, a: int)
    ensures RowTotals(CreditHome(row, h, a, OutcomeFromScore(Some(h), Some(a)).value))
         == Plus(RowTotals(row), SideShare(h, a))
  {
  }

  lemma CreditAwayAddsShare(row: TeamRow, h: int, a: int)
    ensures RowTotals(CreditAway(row, h, a, OutcomeFromScore(Some(h), Some(a)).value))
         == Plus(RowTotals(row), SideShare(a, h))
  {
  }

  /** A credit adds the team's share to the row's counters. */
  lemma CreditAddsShare(row: TeamRow, fx: Fixture, roundLimit: Option<int>)
    ensures RowTotals(Credit(row, fx, roundLimit)) == Plus(RowTotals(row), TeamShare(row.team, fx, roundLimit))
    ensures Credit(row, fx, roundLimit).team == row.team
  {
    if Counts(fx, roundLimit) {
      var h, a := fx.fullHome.value, fx.fullAway.value;
      assert fx.fullHome == Some(h) && fx.fullAway == Some(a);
      var o := OutcomeFromScore(Some(h), Some(a)).value;
      var r1 := if row.team == fx.home then CreditHome(row, h, a, o) else row;
      CreditHomeAddsShare(row, h, a);
      CreditAwayAddsShare(r1, h, a);
    }
  }

  // ---- the table as a whole ----

  /**
   * What one credited fixture adds over the whole table, stated independently of
   * the rows: two appearances, every goal once for and once against, and 3 points
   * with a win and a loss when it is decided, 2 points and two draws when it is not.
   */
  function MatchTotals(h: int, a: int): Totals {
    if h != a then Totals(2, 1, 0, 1, h + a, h + a, 3) else Totals(2, 0, 2, 0, h + a, h + a, 2)
  }

  /** The sum of `MatchTotals` over the credited fixtures. */
  function CreditedTotals(fs: seq<Fixture>, roundLimit: Option<int>): (s: Totals)
    ensures s.goalsFor == s.goalsAgainst && s.won == s.lost && s.points == 3 * s.won + s.draw
  {
    if |fs| == 0 then NoTotals
    else
      var fx := fs[|fs| - 1];
      Plus(CreditedTotals(fs[..|fs| - 1], roundLimit),
           if Counts(fx, roundLimit) then MatchTotals(fx.fullHome.value, fx.fullAway.value) else NoTotals)
  }

  function SumRows(rows: seq<TeamRow>): Totals {
    if |rows| == 0 then NoTotals else Plus(RowTotals(rows[0]), SumRows(rows[1..]))
  }

  function SumTallies(teams: seq<string>, fs: seq<Fixture>, roundLimit: Option<int>): Totals {
    if |teams| == 0 then NoTotals
    else Plus(RowTotals(Tally(teams[0], fs, roundLimit)), SumTallies(teams[1..], fs, roundLimit))
  }

  function SumShares(teams: seq<string>, fx: Fixture, roundLimit: Option<int>): Totals {
    if |teams| == 0 then NoTotals
    else Plus(TeamShare(teams[0], fx, roundLimit), SumShares(teams[1..], fx, roundLimit))
  }

  lemma ZeroPlusZero()
    ensures Plus(NoTotals, NoTotals) == NoTotals
  {
  }

  lemma Interchange(a: Totals, b: Totals, c: Totals, d: Totals)
    ensures Plus(Plus(a, b), Plus(c, d)) == Plus(Plus(a, c), Plus(b, d))
  {
  }

  /** Shares for two disjoint sets of sides add up to the shares of their union. */
  lemma SharesUnion(h1: bool, a1: bool, h2: bool, a2: bool, h: int, a: int)
    requires !(h1 && h2) && !(a1 && a2)
    ensures Plus(Shares(h1, a1, h, a), Shares(h2, a2, h, a)) == Shares(h1 || h2, a1 || a2, h, a)
  {
  }

  lemma {:induction false} SumTalliesStep(teams: seq<string>, fs: seq<Fixture>, roundLimit: Option<int>)
    requires |fs| > 0
    ensures SumTallies(teams, fs, roundLimit)
         == Plus(SumTallies(teams, fs[..|fs| - 1], roundLimit), SumShares(teams, fs[|fs| - 1], roundLimit))
  {
    if |teams| > 0 {
      var init, last, rest := fs[..|fs| - 1], fs[|fs| - 1], teams[1..];
      SumTalliesStep(rest, fs, roundLimit);
      CreditAddsShare(Tally(teams[0], init, roundLimit), last, roundLimit);
      var r0, t0 := RowTotals(Tally(teams[0], init, roundLimit)), TeamShare(teams[0], last, roundLimit);
      var b1, c1 := SumTallies(rest, init, roundLimit), SumShares(rest, last, roundLimit);
      assert SumTallies(teams, fs, roundLimit) == Plus(Plus(r0, t0), Plus(b1, c1));
      assert SumTallies(teams, init, roundLimit) == Plus(r0, b1);
      assert SumShares(teams, last, roundLimit) == Plus(t0, c1);
      Interchange(r0, t0, b1, c1);
    } else {
      ZeroPlusZero();
    }
  }

  lemma {:induction false} SumSharesUncounted(teams: seq<string>, fx: Fixture, roundLimit: Option<int>)
    requires !Counts(fx, roundLimit)
    ensures SumShares(teams, fx, roundLimit) == NoTotals
  {
    if |teams| > 0 {
      SumSharesUncounted(teams[1..], fx, roundLimit);
      ZeroPlusZero();
    }
  }

  /** Over distinct teams, the shares of one credited fixture add up to those of its teams present. */
  lemma {:induction false} SumSharesOfDistinct(teams: seq<string>, fx: Fixture, roundLimit: Option<int>)
    requires Distinct(teams)
    requires Counts(fx, roundLimit)
    ensures SumShares(teams, fx, roundLimit)
         == Shares(fx.home in teams, fx.away in teams, fx.fullHome.value, fx.fullAway.value)
  {
    if |teams| > 0 {
      var rest := teams[1..];
      assert Distinct(rest);
      SumSharesOfDistinct(rest, fx, roundLimit);
      assert SumShares(teams, fx, roundLimit) == Plus(TeamShare(teams[0], fx, roundLimit), SumShares(rest, fx, roundLimit));
      assert teams[0] !in rest;
      assert fx.home in teams <==> teams[0] == fx.home || fx.home in rest;
      assert fx.away in teams <==> teams[0] == fx.away || fx.away in rest;
      SharesUnion(teams[0] == fx.home, teams[0] == fx.away, fx.home in rest, fx.away in rest,
                  fx.fullHome.value, fx.fullAway.value);
    }
  }

  lemma {:induction false} SumTalliesIsCreditedTotals(teams: seq<string>, fs: seq<Fixture>, roundLimit: Option<int>)
    requires Distinct(teams)
    requires forall i | 0 <= i < |fs| :: Counts(fs[i], roundLimit) ==> fs[i].home in teams && fs[i].away in teams
    ensures SumTallies(teams, fs, roundLimit) == CreditedTotals(fs, roundLimit)
  {
    if |fs| == 0 {
      SumTalliesOfEmpty(teams, fs, roundLimit);
    } else {
      var init := fs[..|fs| - 1];
      SumTalliesIsCreditedTotals(teams, init, roundLimit);
      SumTalliesStep(teams, fs, roundLimit);
      var fx := fs[|fs| - 1];
      if Counts(fx, roundLimit) {
        assert fx.home in teams && fx.away in teams;
        SumSharesOfDistinct(teams, fx, roundLimit);
        BothSharesAreMatchTotals(fx.fullHome.value, fx.fullAway.value);
      } else {
        SumSharesUncounted(teams, fx, roundLimit);
      }
    }
  }

  /** A fixture between two listed teams adds its `MatchTotals` to the table. */
  lemma BothSharesAreMatchTotals(h: int, a: int)
    ensures Shares(true, true, h, a) == MatchTotals(h, a)
  {
  }

  lemma {:induction false} SumTalliesOfEmpty(teams: seq<string>, fs: seq<Fixture>, roundLimit: Option<int>)
    requires |fs| == 0
    ensures SumTallies(teams, fs, roundLimit) == NoTotals
  {
    if |teams| > 0 {
      SumTalliesOfEmpty(teams[1..], fs, roundLimit);
    }
  }

  lemma {:induction false} SumRowsOfTallies(teams: seq<string>, fs: seq<Fixture>, roundLimit: Option<int>)
    ensures SumRows(seq(|teams|, i requires 0 <= i < |teams| => Tally(teams[i], fs, roundLimit)))
         == SumTallies(teams, fs, roundLimit)
  {
    if |teams| > 0 {
      var rows := seq(|teams|, i requires 0 <= i < |teams| => Tally(teams[i], fs, roundLimit));
      var rest := teams[1..];
      SumRowsOfTallies(rest, fs, roundLimit);
      assert rows[1..] == seq(|rest|, i requires 0 <= i < |rest| => Tally(rest[i], fs, roundLimit));
    }
  }

  /**
   * Summed over the whole table, the counters are exactly what the credited
   * fixtures put in: goals for equal goals against, wins equal losses, and every
   * win brings 3 points into the table and every drawn match 2.
   */
  lemma TableTotals(fs: seq<Fixture>, roundLimit: Option<int>)
    requires CreditedNamed(fs, roundLimit)
    ensures SumRows(ActualTable(fs, roundLimit)) == CreditedTotals(fs, roundLimit)
    ensures var s := SumRows(ActualTable(fs, roundLimit));
            s.goalsFor == s.goalsAgainst && s.won == s.lost
  {
    TeamOrderMembers(fs);
    forall i | 0 <= i < |fs| && Counts(fs[i], roundLimit)
      ensures fs[i].home in TeamOrder(fs) && fs[i].away in TeamOrder(fs)
    {
      assert Named(fs, fs[i].home) && Named(fs, fs[i].away);
    }
    SumTalliesIsCreditedTotals(TeamOrder(fs), fs, roundLimit);
    SumRowsOfTallies(TeamOrder(fs), fs, roundLimit);
  }

  // ---- raising the round limit ----

  /** `lo` lets through no fixture that `hi` stops. */
  predicate NoLaterLimit(lo: Option<int>, hi: Option<int>) {
    hi.None? || (lo.Some? && lo.value <= hi.value)
  }

  /** Goals are never negative. */
  predicate NonNegativeScores(fs: seq<Fixture>) {
    forall i | 0 <= i < |fs| ::
      (fs[i].fullHome.Some? ==> fs[i].fullHome.value >= 0) && (fs[i].fullAway.Some? ==> fs[i].fullAway.value >= 0)
  }

  lemma SharesNonNegative(atHome: bool, atAway: bool, h: int, a: int)
    requires h >= 0 && a >= 0
    ensures AtMost(NoTotals, Shares(atHome, atAway, h, a))
  {
  }

  /** A later round limit never lowers any counter of any team. */
  lemma {:induction false} CutoffMonotone(team: string, fs: seq<Fixture>, lo: Option<int>, hi: Option<int>)
    requires NoLaterLimit(lo, hi)
    requires NonNegativeScores(fs)
    ensures AtMost(RowTotals(Tally(team, fs, lo)), RowTotals(Tally(team, fs, hi)))
  {
    if |fs| > 0 {
      var init, fx := fs[..|fs| - 1], fs[|fs| - 1];
      assert NonNegativeScores(init) by {
        assert forall i | 0 <= i < |init| :: init[i] == fs[i];
      }
      CutoffMonotone(team, init, lo, hi);
      CreditAddsShare(Tally(team, init, lo), fx, lo);
      CreditAddsShare(Tally(team, init, hi), fx, hi);
      var slo, shi := TeamShare(team, fx, lo), TeamShare(team, fx, hi);
      assert AtMost(slo, shi) by {
        if Counts(fx, hi) {
          SharesNonNegative(team == fx.home, team == fx.away, fx.fullHome.value, fx.fullAway.value);
        }
      }
      assert RowTotals(Tally(team, fs, lo)) == Plus(RowTotals(Tally(team, init, lo)), slo);
      assert RowTotals(Tally(team, fs, hi)) == Plus(RowTotals(Tally(team, init, hi)), shi);
    }
  }

  // ---- teams never credited ----

  /** How many sides of credited fixtures the team played (twice for a fixture against itself). */
  function Appearances(team: string, fs: seq<Fixture>, roundLimit: Option<int>): nat {
    if |fs| == 0 then 0
    else
      var fx := fs[|fs| - 1];
      Appearances(team, fs[..|fs| - 1], roundLimit)
        + (if Counts(fx, roundLimit) && fx.home == team then 1 else 0)
        + (if Counts(fx, roundLimit) && fx.away == team then 1 else 0)
  }

  /**
   * `played` counts the team's credited appearances, and the row stays the zero
   * row `ensureTeam` created exactly when there are none.
   */
  lemma {:induction false} PlayedIsAppearances(team: string, fs: seq<Fixture>, roundLimit: Option<int>)
    ensures Tally(team, fs, roundLimit).played == Appearances(team, fs, roundLimit)
    ensures Tally(team, fs, roundLimit) == ZeroRow(team) <==> Appearances(team, fs, roundLimit) == 0
  {
    if |fs| > 0 {
      var init := fs[..|fs| - 1];
      PlayedIsAppearances(team, init, roundLimit);
    }
  }
}
