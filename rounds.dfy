/**
 * The default-round policy shared by the standings screen (`computeInitialRound`)
 * and the fixtures screen (`computeTargetRound`): the distinct sorted rounds of a
 * fixture list, the highest finished round, the "latest season" test, and the
 * choice between them.
 */
module Rounds {
  import opened Wrappers
  import opened Domain
  import opened JsArray
  import Leagues

  predicate StrictlyIncreasing(xs: seq<int>) {
    forall i, j | 0 <= i < j < |xs| :: xs[i] < xs[j]
  }

  /** Some fixture is in round `r`. */
  predicate HasRound(matches: seq<Fixture>, r: int) {
    exists i | 0 <= i < |matches| :: matches[i].round == r
  }

  /** Adds `r` to an ascending list without duplicates, keeping it so. */
  function InsertRound(xs: seq<int>, r: int): (ys: seq<int>)
    requires StrictlyIncreasing(xs)
    ensures StrictlyIncreasing(ys)
    ensures forall x :: x in ys <==> x in xs || x == r
  {
    if |xs| == 0 then [r]
    else if r < xs[0] then [r] + xs
    else if r == xs[0] then xs
    else
      var rest := InsertRound(xs[1..], r);
      forall k | 0 <= k < |rest| ensures xs[0] < rest[k] {
        assert rest[k] in rest;
        assert rest[k] in xs[1..] || rest[k] == r;
      }
      [xs[0]] + rest
  }

  /**
   * `Array.from(new Set(matches.map(m => m.round))).sort((a, b) => a - b)`:
   * every round of the list exactly once, ascending.
   */
  function DistinctSortedRounds(matches: seq<Fixture>): (rs: seq<int>)
    ensures StrictlyIncreasing(rs)
    ensures forall x :: x in rs <==> HasRound(matches, x)
  {
    if |matches| == 0 then []
    else
      var prefix := matches[..|matches| - 1];
      var rs := InsertRound(DistinctSortedRounds(prefix), matches[|matches| - 1].round);
      assert forall x :: HasRound(matches, x) <==> HasRound(prefix, x) || x == matches[|matches| - 1].round by {
        forall x | HasRound(matches, x) ensures HasRound(prefix, x) || x == matches[|matches| - 1].round {
          var i :| 0 <= i < |matches| && matches[i].round == x;
          if i < |matches| - 1 { assert prefix[i] == matches[i]; }
        }
        forall x | HasRound(prefix, x) ensures HasRound(matches, x) {
          var i :| 0 <= i < |prefix| && prefix[i].round == x;
          assert matches[i] == prefix[i];
        }
      }
      rs
  }

  /** An ascending list without duplicates is determined by its elements. */
  lemma {:induction false} StrictlyIncreasingUnique(xs: seq<int>, ys: seq<int>)
    requires StrictlyIncreasing(xs) && StrictlyIncreasing(ys)
    requires forall x :: x in xs <==> x in ys
    ensures xs == ys
    decreases |xs|
  {
    if |xs| > 0 && |ys| > 0 {
      SameHead(xs, ys);
      SameTailElements(xs, ys);
      StrictlyIncreasingUnique(xs[1..], ys[1..]);
      assert xs == [xs[0]] + xs[1..] && ys == [ys[0]] + ys[1..];
    } else {
      HeadIsElement(xs);
      HeadIsElement(ys);
    }
  }

  /** Both heads are the least element of the same set. */
  lemma SameHead(xs: seq<int>, ys: seq<int>)
    requires StrictlyIncreasing(xs) && StrictlyIncreasing(ys) && |xs| > 0 && |ys| > 0
    requires forall x :: x in xs <==> x in ys
    ensures xs[0] == ys[0]
  {
    assert xs[0] in xs && ys[0] in ys;
    var k :| 0 <= k < |ys| && ys[k] == xs[0];
    var l :| 0 <= l < |xs| && xs[l] == ys[0];
  }

  /** With the heads equal, the tails hold the same elements. */
  lemma SameTailElements(xs: seq<int>, ys: seq<int>)
    requires StrictlyIncreasing(xs) && StrictlyIncreasing(ys) && |xs| > 0 && |ys| > 0
    requires forall x :: x in xs <==> x in ys
    requires xs[0] == ys[0]
    ensures forall x :: x in xs[1..] <==> x in ys[1..]
  {
    forall x | x in xs[1..] ensures x in ys[1..] {
      var k :| 1 <= k < |xs| && xs[k] == x;
      assert x in xs;
      var l :| 0 <= l < |ys| && ys[l] == x;
      assert ys[1..][l - 1] == x;
    }
    forall x | x in ys[1..] ensures x in xs[1..] {
      var k :| 1 <= k < |ys| && ys[k] == x;
      assert x in ys;
      var l :| 0 <= l < |xs| && xs[l] == x;
      assert xs[1..][l - 1] == x;
    }
  }

  lemma HeadIsElement(xs: seq<int>)
    ensures |xs| > 0 ==> xs[0] in xs
  {
  }

  /**
   * The highest round among the FINISHED fixtures (`Math.max(...finishedRounds)`),
   * or `None` when no fixture is finished.
   */
  function MaxFinished(matches: seq<Fixture>): (m: Option<int>)
    ensures m.None? <==> forall i | 0 <= i < |matches| :: matches[i].status != Finished
    ensures m.Some? ==> exists i | 0 <= i < |matches| :: matches[i].status == Finished && matches[i].round == m.value
    ensures m.Some? ==> forall i | 0 <= i < |matches| && matches[i].status == Finished :: matches[i].round <= m.value
  {
    if |matches| == 0 then None
    else
      var last := matches[|matches| - 1];
      var prefix := matches[..|matches| - 1];
      var before := MaxFinished(prefix);
      assert forall i | 0 <= i < |prefix| :: prefix[i] == matches[i];
      if last.status != Finished then before
      else if before.None? || before.value < last.round then Some(last.round)
      else before
  }

  /**
   * `season === leagueSeasons[leagueSeasons.length - 1]`: the season under view is
   * the league's last configured one. With no seasons configured it never is.
   */
  predicate IsLatestSeason(league: Leagues.League, season: Option<int>) {
    |league.seasons| > 0 && season == Some(league.seasons[|league.seasons| - 1])
  }

  /**
   * The choice both screens make once the round list is known to be non-empty:
   * for the latest season the first round when nothing is finished, the round after
   * the highest finished one when there is one, else that round itself; for an
   * older season the highest finished round, where 0 counts as none (the source's
   * `maxFinished || lastRound`), else the last round.
   */
  function ResolveRound(rounds: seq<int>, maxFinished: Option<int>, latest: bool): (r: int)
    requires |rounds| > 0
    ensures r in rounds || (maxFinished.Some? && r == maxFinished.value)
    ensures !latest && maxFinished.Some? && maxFinished.value != 0 ==> r == maxFinished.value
    ensures !latest && (maxFinished.None? || maxFinished == Some(0)) ==> r == rounds[|rounds| - 1]
  {
    if latest then
      match maxFinished
      case None => rounds[0]
      case Some(m) =>
        var idx := IndexOf(rounds, m);
        if 0 <= idx < |rounds| - 1 then rounds[idx + 1] else m
    else if maxFinished.Some? && maxFinished.value != 0 then maxFinished.value
    else rounds[|rounds| - 1]
  }

  /** The chosen round is one of the listed rounds whenever the highest finished round is. */
  lemma ResolvedRoundIsListed(rounds: seq<int>, maxFinished: Option<int>, latest: bool)
    requires |rounds| > 0
    requires maxFinished.Some? ==> maxFinished.value in rounds
    ensures ResolveRound(rounds, maxFinished, latest) in rounds
  {
  }

  /** The highest finished round is one of the distinct sorted rounds. */
  lemma MaxFinishedIsListed(matches: seq<Fixture>)
    ensures MaxFinished(matches).Some? ==> MaxFinished(matches).value in DistinctSortedRounds(matches)
  {
    if MaxFinished(matches).Some? {
      var i :| 0 <= i < |matches| && matches[i].status == Finished && matches[i].round == MaxFinished(matches).value;
      assert HasRound(matches, matches[i].round);
    }
  }

  /**
   * The policy case by case, for an ascending round list containing the highest
   * finished round: the five rows of the default-round table.
   */
  lemma ResolveRoundCases(rounds: seq<int>, maxFinished: Option<int>, latest: bool)
    requires |rounds| > 0 && StrictlyIncreasing(rounds)
    requires maxFinished.Some? ==> maxFinished.value in rounds
    ensures var r := ResolveRound(rounds, maxFinished, latest);
      && (latest && maxFinished.None? ==> r == rounds[0])
      && (latest && maxFinished.Some? && maxFinished.value != rounds[|rounds| - 1] ==>
            r in rounds && r > maxFinished.value &&
            forall x | x in rounds && x > maxFinished.value :: r <= x)
      && (latest && maxFinished == Some(rounds[|rounds| - 1]) ==> r == rounds[|rounds| - 1])
      && (!latest && maxFinished.Some? && maxFinished.value != 0 ==> r == maxFinished.value)
      && (!latest && (maxFinished.None? || maxFinished == Some(0)) ==> r == rounds[|rounds| - 1])
  {
    if latest && maxFinished.Some? {
      var m := maxFinished.value;
      var idx := IndexOf(rounds, m);
      assert Distinct(rounds);
      if idx < |rounds| - 1 {
        var r := rounds[idx + 1];
        forall x | x in rounds && x > m ensures r <= x {
          var k :| 0 <= k < |rounds| && rounds[k] == x;
          assert idx < k;
          assert idx + 1 == k || rounds[idx + 1] < rounds[k];
        }
      }
    }
  }

  /**
   * The policy on small round lists: nothing finished in the latest season gives
   * round 1; finished up to 2 gives 3; all finished gives 3; an older season
   * finished up to 2 of four rounds gives 2; an older season with nothing (or
   * only round 0) finished gives the last round.
   */
  lemma ResolveRoundScenarios()
    ensures ResolveRound([1, 2, 3], None, true) == 1
    ensures ResolveRound([1, 2, 3], Some(2), true) == 3
    ensures ResolveRound([1, 2, 3], Some(3), true) == 3
    ensures ResolveRound([1, 2, 3, 4], Some(2), false) == 2
    ensures ResolveRound([1, 2, 3], None, false) == 3
    ensures ResolveRound([0, 1, 2, 3], Some(0), false) == 3
  {
    assert IndexOf([1, 2, 3], 2) == 1;
    assert IndexOf([1, 2, 3], 3) == 2;
  }
}
