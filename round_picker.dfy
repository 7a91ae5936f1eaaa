/**
 * The round picker: previous / next buttons over the listed rounds, a label, and
 * a pop-up list of every round. A press "emits" a round when it calls `onChange`.
 */
module RoundPickerView {
  import opened Wrappers
  import opened JsArray
  import opened JsText
  import opened Rounds

  /** The word for "week" in the interface language: Turkish for "tr", English otherwise. */
  function WeekWord(lang: string): string {
    if lang == "tr" then "Hafta" else "Week"
  }

  /** The label: the word followed by the round, or the word alone when no round or round 0 (falsy) is selected. */
  function Label(lang: string, round: Option<int>): (s: string)
    ensures round.Some? && round.value != 0 ==> s == WeekWord(lang) + " " + IntToString(round.value)
    ensures round.None? || round == Some(0) ==> s == WeekWord(lang)
  {
    if round.Some? && round.value != 0 then WeekWord(lang) + " " + IntToString(round.value) else WeekWord(lang)
  }

  /**
   * An entry of the pop-up list always names its round: it reads like the label
   * for that round, except round 0, whose entry names it where the label does not.
   */
  function ItemLabel(lang: string, item: int): (s: string)
    ensures item != 0 ==> s == Label(lang, Some(item))
    ensures s != Label(lang, Some(0))
  {
    WeekWord(lang) + " " + IntToString(item)
  }

  /** `canPrev`: the selected round is listed and is not the first. */
  predicate CanPrev(rounds: seq<int>, round: Option<int>): (can: bool)
    ensures can <==> round.Some? && round.value in rounds && round.value != rounds[0]
  {
    round.Some? && IndexOf(rounds, round.value) > 0
  }

  /** `canNext`: the selected round is listed before the last place. */
  predicate CanNext(rounds: seq<int>, round: Option<int>): (can: bool)
    ensures can <==> round.Some? && |rounds| > 0 && round.value in rounds[..|rounds| - 1]
  {
    round.Some? && 0 <= IndexOf(rounds, round.value) < |rounds| - 1
  }

  /** The previous button: the round listed before the selected one, when it can be pressed. */
  function OnPrev(rounds: seq<int>, round: Option<int>): (emitted: Option<int>)
    ensures emitted.Some? <==> CanPrev(rounds, round)
    ensures emitted.Some? ==> emitted.value in rounds
  {
    if !CanPrev(rounds, round) then None
    else
      var idx := IndexOf(rounds, round.value);
      if idx > 0 then Some(rounds[idx - 1]) else None
  }

  /** The next button: the round listed after the selected one, when it can be pressed. */
  function OnNext(rounds: seq<int>, round: Option<int>): (emitted: Option<int>)
    ensures emitted.Some? <==> CanNext(rounds, round)
    ensures emitted.Some? ==> emitted.value in rounds
  {
    if !CanNext(rounds, round) then None
    else
      var idx := IndexOf(rounds, round.value);
      if idx < |rounds| - 1 then Some(rounds[idx + 1]) else None
  }

  /**
   * Over an ascending round list, the previous button goes to the greatest listed
   * round below the selected one and the next button to the least listed round above it.
   */
  lemma StepsAreNeighbours(rounds: seq<int>, round: int)
    requires StrictlyIncreasing(rounds)
    ensures var p := OnPrev(rounds, Some(round));
      p.Some? ==> p.value < round && forall x | x in rounds && x < round :: x <= p.value
    ensures var n := OnNext(rounds, Some(round));
      n.Some? ==> n.value > round && forall x | x in rounds && x > round :: n.value <= x
  {
    var idx := IndexOf(rounds, round);
    forall x | x in rounds && x < round && OnPrev(rounds, Some(round)).Some? ensures x <= rounds[idx - 1] {
      var k :| 0 <= k < |rounds| && rounds[k] == x;
      assert k < idx;
    }
    forall x | x in rounds && x > round && OnNext(rounds, Some(round)).Some? ensures rounds[idx + 1] <= x {
      var k :| 0 <= k < |rounds| && rounds[k] == x;
      assert k > idx;
    }
  }

  /** On a list without repeats, next then previous comes back, and so does previous then next. */
  lemma NextThenPrev(rounds: seq<int>, round: Option<int>)
    requires Distinct(rounds)
    ensures CanNext(rounds, round) ==> OnPrev(rounds, OnNext(rounds, round)) == round
    ensures CanPrev(rounds, round) ==> OnNext(rounds, OnPrev(rounds, round)) == round
  {
    if CanNext(rounds, round) {
      var idx := IndexOf(rounds, round.value);
      IndexOfDistinct(rounds, idx + 1);
    }
    if CanPrev(rounds, round) {
      var idx := IndexOf(rounds, round.value);
      IndexOfDistinct(rounds, idx - 1);
    }
  }

  /** A selected round that is not listed can be stepped neither way. */
  lemma UnlistedRoundIsStuck(rounds: seq<int>, round: int)
    requires round !in rounds
    ensures !CanPrev(rounds, Some(round)) && !CanNext(rounds, Some(round))
  {
  }

  /** The pop-up list's visibility, the one piece of state the picker keeps itself. */
  class RoundPicker {
    var modalVisible: bool

    constructor ()
      ensures !modalVisible
    {
      modalVisible := false;
    }

    /** Pressing the label opens the list, unless there are no rounds. */
    method PressLabel(rounds: seq<int>)
      modifies this
      ensures modalVisible == (old(modalVisible) || |rounds| > 0)
    {
      if |rounds| == 0 {
        return;
      }
      modalVisible := true;
    }

    /** Choosing an entry closes the list and emits that round. */
    method SelectRound(r: int) returns (emitted: int)
      modifies this
      ensures !modalVisible && emitted == r
    {
      modalVisible := false;
      emitted := r;
    }

    /** Tapping outside the list, or the back button, closes it. */
    method Dismiss()
      modifies this
      ensures !modalVisible
    {
      modalVisible := false;
    }
  }
}
