/**
 * The state both screens share: the selected league and season, the selected
 * round ("week") and the interface language.
 */
module AppStateStore {
  import opened Wrappers
  import opened Leagues

  /** `lg || league`: the given league, else the current one. */
  function NextLeague(current: League, lg: Option<League>): (l: League)
    ensures lg.Some? ==> l == lg.value
    ensures lg.None? ==> l == current
  {
    lg.GetOr(current)
  }

  /** `s != null ? s : last season of the league, or null`. A given season is kept even when it is 0. */
  function NextSeason(league: League, s: Option<int>): (r: Option<int>)
    ensures s.Some? ==> r == s
    ensures s.None? ==> r == LastSeason(league.seasons)
  {
    if s.Some? then s else LastSeason(league.seasons)
  }

  /** `prev === 'en' ? 'tr' : 'en'`. */
  function Toggled(lang: string): (r: string)
    ensures r == "tr" || r == "en"
    ensures r == "tr" <==> lang == "en"
  {
    if lang == "en" then "tr" else "en"
  }

  /** Toggling twice from either supported language gives it back; from anything else it gives "tr". */
  lemma ToggleTwice(lang: string)
    ensures lang == "en" || lang == "tr" ==> Toggled(Toggled(lang)) == lang
    ensures lang != "en" && lang != "tr" ==> Toggled(Toggled(lang)) == "tr"
  {
  }

  /** Without a given season the league's last one is chosen, so the season is listed unless the list is empty. */
  lemma NextSeasonListed(league: League, s: Option<int>)
    ensures s.None? && |league.seasons| > 0 ==> NextSeason(league, s).Some? && NextSeason(league, s).value in league.seasons
    ensures s.None? && |league.seasons| == 0 ==> NextSeason(league, s).None?
  {
  }

  class AppState {
    var league: League
    var season: Option<int>
    var round: Option<int>
    var lang: string

    /** The initial state: the default league, its last season, no round, English. */
    constructor ()
      ensures league == DefaultLeague && season == LastSeason(DefaultLeague.seasons)
      ensures round == None && lang == "en"
    {
      league := DefaultLeague;
      season := LastSeason(DefaultLeague.seasons);
      round := None;
      lang := "en";
    }

    /** `setLeagueSeason({league, season})`: the new league and season, the round cleared, the language untouched. */
    method SetLeagueSeason(lg: Option<League>, s: Option<int>)
      modifies this
      ensures league == NextLeague(old(league), lg)
      ensures season == NextSeason(league, s)
      ensures round == None
      ensures lang == old(lang)
    {
      var nextLeague := NextLeague(league, lg);
      var nextSeason := NextSeason(nextLeague, s);
      league := nextLeague;
      season := nextSeason;
      round := None;
    }

    method SetRound(r: Option<int>)
      modifies this`round
      ensures round == r
    {
      round := r;
    }

    method ToggleLang()
      modifies this`lang
      ensures lang == Toggled(old(lang))
    {
      lang := Toggled(lang);
    }
  }

  /** The default league's last season is 2025. */
  lemma InitialSeason()
    ensures LastSeason(DefaultLeague.seasons) == Some(2025)
    ensures DefaultLeague.id == "PL"
  {
  }
}
