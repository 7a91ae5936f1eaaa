/**
 * The per-fixture card: whether the actual score is shown, which of the 1/X/2
 * buttons and score fields are usable, and the text shown in the score fields.
 */
module MatchCardView {
  import opened Wrappers
  import opened Domain
  import opened JsText
  import opened PredictionDeltas

  /** The "Final score" line is shown exactly for the fixtures that have an actual outcome. */
  predicate HasScore(fx: Fixture): (shown: bool)
    ensures shown <==> ActualOutcome(fx).Some?
  {
    fx.status == Finished && fx.fullHome.Some? && fx.fullAway.Some?
  }

  /** The 1/X/2 buttons are locked exactly when a score field shows a guess. */
  predicate OutcomeDisabled(st: FixtureState): (locked: bool)
    ensures locked <==> GuessText(st.home) != "" || GuessText(st.away) != ""
  {
    st.home.Some? || st.away.Some?
  }

  /** `isSelected`: the button is the chosen outcome. */
  predicate IsSelected(st: FixtureState, opt: Outcome) {
    st.outcome == Some(opt)
  }

  /** The score fields are locked exactly when one of the three buttons is selected. */
  predicate ScoreDisabled(st: FixtureState): (locked: bool)
    ensures locked <==> IsSelected(st, HomeWin) || IsSelected(st, Draw) || IsSelected(st, AwayWin)
  {
    match st.outcome
    case None => false
    case Some(o) => assert o.HomeWin? || o.Draw? || o.AwayWin?; true
  }

  /**
   * A button is disabled when outcomes are locked, unless it is the selected one.
   * The selected button can always be pressed, and in a record that keeps outcome
   * and guesses apart a button is disabled exactly while the buttons are locked.
   */
  predicate ButtonDisabled(st: FixtureState, opt: Outcome): (disabled: bool)
    ensures IsSelected(st, opt) ==> !disabled
    ensures Exclusive(st) ==> (disabled <==> OutcomeDisabled(st))
  {
    OutcomeDisabled(st) && !IsSelected(st, opt)
  }

  /** A score field shows `String(guess)`, or nothing when there is no guess. */
  function GuessText(guess: Option<int>): (text: string)
    ensures guess.None? <==> text == ""
  {
    match guess
    case None => ""
    case Some(n) => IntToString(n)
  }

  /**
   * A record keeps the outcome and the guesses apart exactly when the card
   * never locks both the buttons and the score fields.
   */
  lemma ExclusiveIffNotBothLocked(st: FixtureState)
    ensures Exclusive(st) <==> !(OutcomeDisabled(st) && ScoreDisabled(st))
  {
  }

  /**
   * The selected button can always be pressed (to deselect it), and in a record
   * that keeps outcome and guesses apart every button can be pressed while an
   * outcome is chosen, and none but the selected one while a guess is set.
   */
  lemma ButtonsPressable(st: FixtureState, opt: Outcome)
    ensures st.outcome == Some(opt) ==> !ButtonDisabled(st, opt)
    ensures Exclusive(st) && st.outcome.Some? ==> !ButtonDisabled(st, opt)
    ensures Exclusive(st) && OutcomeDisabled(st) ==> ButtonDisabled(st, opt)
  {
  }
}
