/**
 * From the actual table to what the standings list shows: predicted points, the
 * two sorted orders, 1-based rank maps, whether the predictions move anyone,
 * and the up/down arrow of each row.
 */
module StandingsRanking {
  import opened Wrappers
  import opened JsArray
  import opened StableSort
  import opened StandingsTable
  import opened PredictionDeltas

  /** `{...row, predictedPoints}`. */
  datatype PredictedRow = PredictedRow(row: TeamRow, predictedPoints: int)

  /** Each row with its points plus its delta (`predDeltas[row.team] ?? 0`), in table order. */
  function WithPredictedPoints(table: seq<TeamRow>, deltas: map<string, int>): (r: seq<PredictedRow>)
    ensures |r| == |table|
    ensures forall i | 0 <= i < |table| ::
      r[i].row == table[i] && r[i].predictedPoints == table[i].points + Entry(deltas, table[i].team)
  {
    MapSeq(table, (row: TeamRow) => PredictedRow(row, row.points + Entry(deltas, row.team)))
  }

  function ActualKey(row: TeamRow): Key {
    Key(row.points, row.goalDiff, row.goalsFor)
  }

  function PredictedKey(p: PredictedRow): Key {
    Key(p.predictedPoints, p.row.goalDiff, p.row.goalsFor)
  }

  /** `actualSorted`. */
  function ActualSorted(table: seq<TeamRow>): seq<TeamRow> {
    Sort(table, ActualKey)
  }

  /** `predictedSorted`. */
  function PredictedSorted(table: seq<TeamRow>, deltas: map<string, int>): seq<PredictedRow> {
    Sort(WithPredictedPoints(table, deltas), PredictedKey)
  }

  function TeamsOf(rows: seq<TeamRow>): seq<string> {
    MapSeq(rows, (row: TeamRow) => row.team)
  }

  function PredictedTeamsOf(rows: seq<PredictedRow>): seq<string> {
    MapSeq(rows, (p: PredictedRow) => p.row.team)
  }

  /** The rank map the `forEach` fills: `m[team] = idx + 1`, a later position overwriting an earlier one. */
  function RanksOf(teams: seq<string>): map<string, int> {
    if |teams| == 0 then map[] else RanksOf(teams[..|teams| - 1])[teams[|teams| - 1] := |teams|]
  }

  /** `actualRankByTeam` / `predictedRankByTeam`. */
  method RankByTeam(teams: seq<string>) returns (m: map<string, int>)
    ensures m == RanksOf(teams)
  {
    m := map[];
    for idx := 0 to |teams|
      invariant m == RanksOf(teams[..idx])
    {
      assert teams[..idx + 1][..idx] == teams[..idx];
      m := m[teams[idx] := idx + 1];
    }
    assert teams[..|teams|] == teams;
  }

  /**
   * Over distinct teams the rank map gives every team its 1-based position, so
   * the ranks are exactly 1..n, each held by one team.
   */
  lemma RanksOfDistinct(teams: seq<string>)
    requires Distinct(teams)
    ensures forall t :: t in RanksOf(teams) <==> t in teams
    ensures forall i | 0 <= i < |teams| :: RanksOf(teams)[teams[i]] == i + 1
    ensures forall t | t in RanksOf(teams) :: 1 <= RanksOf(teams)[t] <= |teams|
    ensures forall t, u | t in RanksOf(teams) && u in RanksOf(teams) && t != u ::
      RanksOf(teams)[t] != RanksOf(teams)[u]
  {
    var m := RanksOf(teams);
    RanksDomain(teams);
    forall i | 0 <= i < |teams| ensures teams[i] in m && m[teams[i]] == i + 1 {
      RankOfPosition(teams, i);
    }
    forall t | t in m ensures 1 <= m[t] <= |teams| && teams[m[t] - 1] == t {
      RankOfPosition(teams, IndexOf(teams, t));
    }
  }

  /** The rank map has a key for every team and no other. */
  lemma {:induction false} RanksDomain(teams: seq<string>)
    ensures forall t :: t in RanksOf(teams) <==> t in teams
  {
    if |teams| > 0 {
      var init := teams[..|teams| - 1];
      RanksDomain(init);
      assert teams == init + [teams[|teams| - 1]];
    }
  }

  lemma {:induction false} RankOfPosition(teams: seq<string>, i: int)
    requires Distinct(teams) && 0 <= i < |teams|
    ensures teams[i] in RanksOf(teams) && RanksOf(teams)[teams[i]] == i + 1
  {
    var n := |teams| - 1;
    if i < n {
      var init := teams[..n];
      assert Distinct(init);
      RankOfPosition(init, i);
      assert init[i] == teams[i] && teams[i] != teams[n];
    }
  }

  /** `hasMeaningfulPredictions`: some delta exists and some team ranked in both maps moved. */
  predicate HasMeaningfulPredictions(deltas: map<string, int>, actualRanks: map<string, int>, predictedRanks: map<string, int>) {
    |deltas| > 0 &&
    exists t | t in predictedRanks ::
      t in actualRanks && actualRanks[t] != 0 && predictedRanks[t] != 0 && actualRanks[t] != predictedRanks[t]
  }

  /**
   * For two orders of the same distinct teams, some team has different ranks in
   * the two rank maps exactly when the orders differ.
   */
  lemma RanksDifferIffOrdersDiffer(a: seq<string>, b: seq<string>)
    requires Distinct(a) && Distinct(b) && |a| == |b|
    requires forall t :: t in a <==> t in b
    ensures (exists t | t in RanksOf(b) :: t in RanksOf(a) && RanksOf(a)[t] != 0 && RanksOf(b)[t] != 0
               && RanksOf(a)[t] != RanksOf(b)[t]) <==> a != b
  {
    if a != b {
      var i :| 0 <= i < |a| && a[i] != b[i];
      var t := a[i];
      var j := IndexOf(b, t);
      RankOfPosition(a, i);
      RankOfPosition(b, j);
      assert i != j;
    }
  }

  /** Reordering rows whose names are distinct keeps the names distinct and the same. */
  lemma PermutationKeepsNames<T>(a: seq<T>, b: seq<T>, name: T -> string)
    requires multiset(a) == multiset(b)
    requires Distinct(MapSeq(a, name))
    ensures |MapSeq(b, name)| == |MapSeq(a, name)|
    ensures Distinct(MapSeq(b, name))
    ensures forall t :: t in MapSeq(a, name) <==> t in MapSeq(b, name)
  {
    assert |a| == |b| by {
      assert |multiset(a)| == |multiset(b)|;
    }
    PermutationKeepsDistinctNames(a, b, name);
    PermutationKeepsNameSet(a, b, name);
  }

  lemma PermutationKeepsDistinctNames<T>(a: seq<T>, b: seq<T>, name: T -> string)
    requires multiset(a) == multiset(b)
    requires Distinct(MapSeq(a, name))
    ensures Distinct(MapSeq(b, name))
  {
    var na, nb := MapSeq(a, name), MapSeq(b, name);
    DistinctNamesDistinctRows(a, name);
    DistinctPermutation(a, b);
    forall i, j | 0 <= i < j < |b| ensures nb[i] != nb[j] {
      PositionInPermutation(a, b, i);
      PositionInPermutation(a, b, j);
    }
  }

  /** Rows with distinct names are distinct. */
  lemma DistinctNamesDistinctRows<T>(a: seq<T>, name: T -> string)
    requires Distinct(MapSeq(a, name))
    ensures Distinct(a)
  {
    var na := MapSeq(a, name);
    forall i, j | 0 <= i < j < |a| ensures a[i] != a[j] {
      assert na[i] != na[j];
    }
  }

  /** Row i of a reordering sits at some position of the original. */
  lemma PositionInPermutation<T>(a: seq<T>, b: seq<T>, i: int)
    requires multiset(a) == multiset(b) && 0 <= i < |b|
    ensures 0 <= IndexOf(a, b[i]) < |a| && a[IndexOf(a, b[i])] == b[i]
  {
    assert b[i] in multiset(b);
  }

  lemma PermutationKeepsNameSet<T>(a: seq<T>, b: seq<T>, name: T -> string)
    requires multiset(a) == multiset(b)
    ensures forall t :: t in MapSeq(a, name) <==> t in MapSeq(b, name)
  {
    var na, nb := MapSeq(a, name), MapSeq(b, name);
    forall t ensures t in na <==> t in nb {
      if t in na {
        var i := IndexOf(na, t);
        assert a[i] in multiset(b);
        assert nb[IndexOf(b, a[i])] == t;
      }
      if t in nb {
        var i := IndexOf(nb, t);
        assert b[i] in multiset(a);
        assert na[IndexOf(a, b[i])] == t;
      }
    }
  }

  /** The table's rows have distinct team names (as `computeActualTable` produces them). */
  predicate DistinctTeams(table: seq<TeamRow>) {
    Distinct(TeamsOf(table))
  }

  /**
   * Both sorted lists hold the table's teams, each once: the two rank maps give
   * the same teams distinct ranks 1..n.
   */
  lemma SortedTeams(table: seq<TeamRow>, deltas: map<string, int>)
    requires DistinctTeams(table)
    ensures var a, p := TeamsOf(ActualSorted(table)), PredictedTeamsOf(PredictedSorted(table, deltas));
      && Distinct(a) && Distinct(p) && |a| == |p| == |table|
      && (forall t :: t in a <==> t in TeamsOf(table)) && (forall t :: t in p <==> t in TeamsOf(table))
  {
    var w := WithPredictedPoints(table, deltas);
    PermutationKeepsNames(table, ActualSorted(table), (row: TeamRow) => row.team);
    assert PredictedTeamsOf(w) == TeamsOf(table);
    PermutationKeepsNames(w, PredictedSorted(table, deltas), (p: PredictedRow) => p.row.team);
  }

  /**
   * `hasMeaningfulPredictions` holds exactly when the delta map has a key and the
   * predicted order of the teams differs from the actual one.
   */
  lemma MeaningfulIff(table: seq<TeamRow>, deltas: map<string, int>)
    requires DistinctTeams(table)
    ensures var a, p := TeamsOf(ActualSorted(table)), PredictedTeamsOf(PredictedSorted(table, deltas));
      HasMeaningfulPredictions(deltas, RanksOf(a), RanksOf(p)) <==> |deltas| > 0 && a != p
  {
    SortedTeams(table, deltas);
    RanksDifferIffOrdersDiffer(TeamsOf(ActualSorted(table)), PredictedTeamsOf(PredictedSorted(table, deltas)));
  }

  /**
   * Without any delta the predicted list is the actual list with
   * `predictedPoints == points`, so no prediction is meaningful.
   */
  lemma NoDeltasNoMovement(table: seq<TeamRow>)
    requires DistinctTeams(table)
    ensures PredictedSorted(table, map[])
         == MapSeq(ActualSorted(table), (row: TeamRow) => PredictedRow(row, row.points))
    ensures !HasMeaningfulPredictions(map[], RanksOf(TeamsOf(ActualSorted(table))),
                                      RanksOf(PredictedTeamsOf(PredictedSorted(table, map[]))))
  {
    var f := (row: TeamRow) => PredictedRow(row, row.points);
    assert WithPredictedPoints(table, map[]) == MapSeq(table, f);
    SortMap(table, f, ActualKey, PredictedKey);
  }

  // ---- the rendered list ----

  datatype Mode = ActualMode | PredictedMode

  datatype Arrow = Up | Down

  /** What a row of the list shows: its team, its rank, its points and its movement arrow. */
  datatype RowView = RowView(team: string, rank: int, points: int, arrow: Option<Arrow>)

  /** `renderItem`: the rank, points and arrow for one item of `data`. */
  function RenderRow(mode: Mode, team: string, points: int, predictedPoints: Option<int>,
                     actualRanks: map<string, int>, predictedRanks: map<string, int>, show: bool): RowView
  {
    var baseRank := Entry(actualRanks, team);
    var predRank := if mode == PredictedMode then (if team in predictedRanks then predictedRanks[team] else baseRank) else baseRank;
    var shown := if mode == PredictedMode then predictedPoints.GetOr(points) else points;
    var currentRank := if mode == ActualMode then baseRank else predRank;
    var arrow :=
      if mode == PredictedMode && show then
        (if predRank < baseRank then Some(Up) else if predRank > baseRank then Some(Down) else None)
      else None;
    RowView(team, currentRank, shown, arrow)
  }

  /** `showMovementColumn`, from the actual and the predicted sorted lists. */
  predicate ShowMovementColumn(mode: Mode, a: seq<TeamRow>, p: seq<PredictedRow>, deltas: map<string, int>) {
    mode == PredictedMode && HasMeaningfulPredictions(deltas, RanksOf(TeamsOf(a)), RanksOf(PredictedTeamsOf(p)))
  }

  /** `renderItem` over `data`: the list of the mode, given both sorted lists. */
  function RenderList(mode: Mode, a: seq<TeamRow>, p: seq<PredictedRow>, deltas: map<string, int>): seq<RowView> {
    var ar, pr := RanksOf(TeamsOf(a)), RanksOf(PredictedTeamsOf(p));
    var show := ShowMovementColumn(mode, a, p, deltas);
    if mode == ActualMode then
      seq(|a|, i requires 0 <= i < |a| => RenderRow(mode, a[i].team, a[i].points, None, ar, pr, show))
    else
      seq(|p|, i requires 0 <= i < |p| =>
        RenderRow(mode, p[i].row.team, p[i].row.points, Some(p[i].predictedPoints), ar, pr, show))
  }

  /** The list the screen renders for a table and its deltas. */
  function StandingsView(mode: Mode, table: seq<TeamRow>, deltas: map<string, int>): seq<RowView> {
    RenderList(mode, ActualSorted(table), PredictedSorted(table, deltas), deltas)
  }

  lemma RenderActualRows(a: seq<TeamRow>, p: seq<PredictedRow>, deltas: map<string, int>)
    requires Distinct(TeamsOf(a))
    ensures var view := RenderList(ActualMode, a, p, deltas);
      |view| == |a| && forall i | 0 <= i < |view| :: view[i] == RowView(a[i].team, i + 1, a[i].points, None)
  {
    var ta := TeamsOf(a);
    forall i | 0 <= i < |a| ensures ta[i] in RanksOf(ta) && RanksOf(ta)[ta[i]] == i + 1 {
      RankOfPosition(ta, i);
    }
  }

  lemma RenderPredictedRows(a: seq<TeamRow>, p: seq<PredictedRow>, deltas: map<string, int>)
    requires Distinct(PredictedTeamsOf(p))
    ensures var view := RenderList(PredictedMode, a, p, deltas);
      && |view| == |p|
      && forall i | 0 <= i < |view| ::
           view[i].team == p[i].row.team && view[i].rank == i + 1 && view[i].points == p[i].predictedPoints
  {
    var tp := PredictedTeamsOf(p);
    forall i | 0 <= i < |p| ensures tp[i] in RanksOf(tp) && RanksOf(tp)[tp[i]] == i + 1 {
      RankOfPosition(tp, i);
    }
  }

  lemma RenderPredictedArrows(a: seq<TeamRow>, p: seq<PredictedRow>, deltas: map<string, int>)
    requires Distinct(TeamsOf(a)) && Distinct(PredictedTeamsOf(p))
    requires forall t :: t in PredictedTeamsOf(p) ==> t in TeamsOf(a)
    ensures var view, show := RenderList(PredictedMode, a, p, deltas), ShowMovementColumn(PredictedMode, a, p, deltas);
      forall i | 0 <= i < |view| ::
        && (view[i].arrow == Some(Up) <==> show && i < IndexOf(TeamsOf(a), p[i].row.team))
        && (view[i].arrow == Some(Down) <==> show && i > IndexOf(TeamsOf(a), p[i].row.team))
  {
    var ta, tp := TeamsOf(a), PredictedTeamsOf(p);
    RanksOfBoth(ta, tp);
    forall i | 0 <= i < |p| ensures tp[i] == p[i].row.team {
    }
  }

  /**
   * For two orders of the same distinct teams, the i-th team of the second has
   * rank i+1 in the second and its position plus one as rank in the first.
   */
  lemma RanksOfBoth(ta: seq<string>, tp: seq<string>)
    requires Distinct(ta) && Distinct(tp)
    requires forall t :: t in tp ==> t in ta
    ensures forall i | 0 <= i < |tp| :: tp[i] in RanksOf(tp) && RanksOf(tp)[tp[i]] == i + 1
    ensures forall i | 0 <= i < |tp| :: tp[i] in RanksOf(ta) && RanksOf(ta)[tp[i]] == IndexOf(ta, tp[i]) + 1
  {
    forall i | 0 <= i < |tp|
      ensures tp[i] in RanksOf(tp) && RanksOf(tp)[tp[i]] == i + 1
      ensures tp[i] in RanksOf(ta) && RanksOf(ta)[tp[i]] == IndexOf(ta, tp[i]) + 1
    {
      RankOfPosition(tp, i);
      assert tp[i] in tp;
      RankOfPosition(ta, IndexOf(ta, tp[i]));
    }
  }

  /** In actual mode row i shows the i-th team of the actual order, rank i+1, its points and no arrow. */
  lemma ActualViewRows(table: seq<TeamRow>, deltas: map<string, int>)
    requires DistinctTeams(table)
    ensures var view, a := StandingsView(ActualMode, table, deltas), ActualSorted(table);
      && |view| == |table|
      && forall i | 0 <= i < |view| :: view[i] == RowView(a[i].team, i + 1, a[i].points, None)
  {
    SortedTeams(table, deltas);
    RenderActualRows(ActualSorted(table), PredictedSorted(table, deltas), deltas);
  }

  /** In predicted mode row i shows the i-th team of the predicted order, rank i+1 and its predicted points. */
  lemma PredictedViewRows(table: seq<TeamRow>, deltas: map<string, int>)
    requires DistinctTeams(table)
    ensures var view, p := StandingsView(PredictedMode, table, deltas), PredictedSorted(table, deltas);
      && |view| == |table|
      && forall i | 0 <= i < |view| ::
           view[i].team == p[i].row.team && view[i].rank == i + 1 && view[i].points == p[i].predictedPoints
  {
    SortedTeams(table, deltas);
    RenderPredictedRows(ActualSorted(table), PredictedSorted(table, deltas), deltas);
  }

  /**
   * In predicted mode, when the movement column is on, a row's arrow points up
   * exactly when the team stands higher than in the actual order and down
   * exactly when it stands lower; with the column off no row has an arrow.
   */
  lemma PredictedViewArrows(table: seq<TeamRow>, deltas: map<string, int>)
    requires DistinctTeams(table)
    ensures var view, a, p := StandingsView(PredictedMode, table, deltas), ActualSorted(table), PredictedSorted(table, deltas);
      var show := ShowMovementColumn(PredictedMode, a, p, deltas);
      forall i | 0 <= i < |view| ::
        && (view[i].arrow == Some(Up) <==> show && i < IndexOf(TeamsOf(a), p[i].row.team))
        && (view[i].arrow == Some(Down) <==> show && i > IndexOf(TeamsOf(a), p[i].row.team))
  {
    SortedTeams(table, deltas);
    RenderPredictedArrows(ActualSorted(table), PredictedSorted(table, deltas), deltas);
  }

  /** Without any delta either mode lists the actual order, ranked 1..n, without arrows. */
  lemma NoDeltasView(mode: Mode, table: seq<TeamRow>)
    requires DistinctTeams(table)
    ensures var view, a := StandingsView(mode, table, map[]), ActualSorted(table);
      && |view| == |a|
      && forall i | 0 <= i < |view| :: view[i].arrow.None? && view[i].team == a[i].team && view[i].rank == i + 1
  {
    var a, p := ActualSorted(table), PredictedSorted(table, map[]);
    NoDeltasNoMovement(table);
    SortedTeams(table, map[]);
    RenderWithoutDeltas(mode, a, p);
  }

  lemma RenderWithoutDeltas(mode: Mode, a: seq<TeamRow>, p: seq<PredictedRow>)
    requires Distinct(TeamsOf(a)) && |p| == |a|
    requires forall i | 0 <= i < |p| :: p[i].row == a[i]
    ensures var view := RenderList(mode, a, p, map[]);
      && |view| == |a|
      && forall i | 0 <= i < |view| :: view[i].arrow.None? && view[i].team == a[i].team && view[i].rank == i + 1
  {
    var ta, tp := TeamsOf(a), PredictedTeamsOf(p);
    assert tp == ta;
    forall i | 0 <= i < |ta| ensures ta[i] in RanksOf(ta) && RanksOf(ta)[ta[i]] == i + 1 {
      RankOfPosition(ta, i);
    }
    assert !ShowMovementColumn(mode, a, p, map[]);
  }

  /** When the movement column is on, at least one row shows an arrow. */
  lemma MovementColumnShowsAnArrow(table: seq<TeamRow>, deltas: map<string, int>)
    requires DistinctTeams(table)
    requires ShowMovementColumn(PredictedMode, ActualSorted(table), PredictedSorted(table, deltas), deltas)
    ensures exists i | 0 <= i < |StandingsView(PredictedMode, table, deltas)| ::
      StandingsView(PredictedMode, table, deltas)[i].arrow.Some?
  {
    var a, p := ActualSorted(table), PredictedSorted(table, deltas);
    SortedTeams(table, deltas);
    var i := RenderShowsAnArrow(a, p, deltas);
    assert StandingsView(PredictedMode, table, deltas)[i] == RenderList(PredictedMode, a, p, deltas)[i];
  }

  /** The row of a team the rank maps disagree on shows an arrow. */
  lemma RenderShowsAnArrow(a: seq<TeamRow>, p: seq<PredictedRow>, deltas: map<string, int>) returns (i: int)
    requires Distinct(TeamsOf(a)) && Distinct(PredictedTeamsOf(p))
    requires forall t :: t in PredictedTeamsOf(p) ==> t in TeamsOf(a)
    requires ShowMovementColumn(PredictedMode, a, p, deltas)
    ensures 0 <= i < |RenderList(PredictedMode, a, p, deltas)|
    ensures RenderList(PredictedMode, a, p, deltas)[i].arrow.Some?
  {
    var ta, tp := TeamsOf(a), PredictedTeamsOf(p);
    var ar, pr := RanksOf(ta), RanksOf(tp);
    var t :| t in pr && t in ar && ar[t] != 0 && pr[t] != 0 && ar[t] != pr[t];
    RanksDomain(tp);
    i := IndexOf(tp, t);
    assert t in ta;
    RankOfPosition(tp, i);
    RankOfPosition(ta, IndexOf(ta, t));
    assert tp[i] == p[i].row.team;
    assert RenderList(PredictedMode, a, p, deltas)[i]
        == RenderRow(PredictedMode, t, p[i].row.points, Some(p[i].predictedPoints), ar, pr, true);
  }
}
