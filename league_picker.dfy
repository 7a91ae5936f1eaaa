/**
 * The league / season picker: its labels, the descending season menu, and the
 * choices it passes on to `setLeagueSeason`.
 */
module LeaguePickerView {
  import opened Wrappers
  import opened JsText
  import opened Leagues
  import opened StableSort
  import opened AppStateStore

  /** `formatSeasonLabel`: "Season" when no season is set, else the season's number (0 included). */
  function FormatSeasonLabel(season: Option<int>): (s: string)
    ensures season.None? <==> s == "Season"
  {
    match season
    case None => "Season"
    case Some(n) => IntToString(n)
  }

  /** A season's label reads back as that season. */
  lemma SeasonLabelRoundTrip(n: int)
    ensures ParseInt(FormatSeasonLabel(Some(n))) == Some(n)
  {
    ParseIntOfIntToString(n, "");
    assert IntToString(n) + "" == IntToString(n);
  }

  /** `selectedLeague || LEAGUES[0]`. */
  function CurrentLeague(selected: Option<League>): (l: League)
    ensures selected.Some? ==> l == selected.value
    ensures selected.None? ==> l == Catalog[0]
  {
    selected.GetOr(Catalog[0])
  }

  /** The league button shows the league's name, or a prompt in the interface language when it has none. */
  function LeagueLabel(league: League, lang: string): (s: string)
    ensures s != ""
    ensures league.name != "" ==> s == league.name
    ensures league.name == "" && lang == "tr" ==> s == "Lig Seç"
    ensures league.name == "" && lang != "tr" ==> s == "Select league"
  {
    if league.name != "" then league.name else if lang == "tr" then "Lig Seç" else "Select league"
  }

  /** The language button shows the current language. */
  function LangLabel(lang: string): (s: string)
    ensures s == "TR" <==> lang == "tr"
  {
    if lang == "tr" then "TR" else "EN"
  }

  /** The key that makes the shared sort put later seasons first (`(a, b) => b - a`). */
  function SeasonKey(s: int): Key {
    Key(s, 0, 0)
  }

  /** The season menu: the league's seasons, latest first. */
  function SeasonMenu(seasons: seq<int>): (menu: seq<int>)
    ensures multiset(menu) == multiset(seasons)
    ensures forall i, j | 0 <= i < j < |menu| :: menu[i] >= menu[j]
  {
    var menu := Sort(seasons, SeasonKey);
    assert forall i, j | 0 <= i < j < |menu| :: NoLater(SeasonKey(menu[i]), SeasonKey(menu[j]));
    menu
  }

  /** A descending rearrangement of three distinct values lists them from the largest down. */
  lemma {:induction false} DescendingOfThree(m: seq<int>, a: int, b: int, c: int)
    requires a < b < c
    requires multiset(m) == multiset{a, b, c}
    requires forall i, j | 0 <= i < j < |m| :: m[i] >= m[j]
    ensures m == [c, b, a]
  {
    assert |m| == |multiset(m)| == 3;
    forall x | x in m ensures x == a || x == b || x == c {
      assert x in multiset(m);
    }
    assert a in multiset(m) && b in multiset(m) && c in multiset(m);
    assert m[0] in m && m[1] in m && m[2] in m;
  }

  /** Every catalog league's menu reads 2025, 2024, 2023. */
  lemma CatalogSeasonMenu(k: int)
    requires 0 <= k < |Catalog|
    ensures SeasonMenu(Catalog[k].seasons) == [2025, 2024, 2023]
  {
    var seasons := Catalog[k].seasons;
    assert seasons == [2023, 2024, 2025];
    var m := SeasonMenu(seasons);
    assert multiset(seasons) == multiset{2023, 2024, 2025};
    DescendingOfThree(m, 2023, 2024, 2025);
  }

  /**
   * `handleSelectLeague`: the current season is kept when the new league lists
   * it, else the league's last season, else none.
   */
  function SeasonForLeague(league: League, season: Option<int>): (s: Option<int>)
    ensures season.Some? && season.value in league.seasons ==> s == season
    ensures !(season.Some? && season.value in league.seasons) ==>
              s == if |league.seasons| == 0 then None else Some(league.seasons[|league.seasons| - 1])
    ensures s.None? <==> |league.seasons| == 0
    ensures s.Some? ==> s.value in league.seasons
  {
    if season.Some? && season.value in league.seasons then season
    else LastSeason(league.seasons)
  }

  /** `setLeagueSeason` leaves the season the picker chose as it is. */
  lemma SeasonForLeagueIsKept(league: League, season: Option<int>)
    ensures NextSeason(league, SeasonForLeague(league, season)) == SeasonForLeague(league, season)
  {
  }

  class LeaguePicker {
    const app: AppState
    var leagueModalVisible: bool
    var seasonModalVisible: bool

    constructor (app: AppState)
      ensures this.app == app && !leagueModalVisible && !seasonModalVisible
    {
      this.app := app;
      leagueModalVisible := false;
      seasonModalVisible := false;
    }

    /** Pressing the league button opens the league menu; the season menu is left as it is. */
    method OpenLeagueMenu()
      modifies this
      ensures leagueModalVisible && seasonModalVisible == old(seasonModalVisible)
    {
      leagueModalVisible := true;
    }

    /** Pressing the season button opens the season menu; the league menu is left as it is. */
    method OpenSeasonMenu()
      modifies this
      ensures seasonModalVisible && leagueModalVisible == old(leagueModalVisible)
    {
      seasonModalVisible := true;
    }

    /** Tapping outside the league menu, or the back button, closes that menu only. */
    method CloseLeagueMenu()
      modifies this
      ensures !leagueModalVisible && seasonModalVisible == old(seasonModalVisible)
    {
      leagueModalVisible := false;
    }

    /** Tapping outside the season menu, or the back button, closes that menu only. */
    method CloseSeasonMenu()
      modifies this
      ensures !seasonModalVisible && leagueModalVisible == old(leagueModalVisible)
    {
      seasonModalVisible := false;
    }

    /** Choosing a league closes its menu and switches to it, keeping or replacing the season, and clears the round. */
    method SelectLeague(league: League)
      modifies this, app
      ensures !leagueModalVisible && seasonModalVisible == old(seasonModalVisible)
      ensures app.league == league && app.season == SeasonForLeague(league, old(app.season))
      ensures app.round.None? && app.lang == old(app.lang)
    {
      leagueModalVisible := false;
      var nextSeason := SeasonForLeague(league, app.season);
      app.SetLeagueSeason(Some(league), nextSeason);
    }

    /** Choosing a season closes its menu and switches to it in the current league, and clears the round. */
    method SelectSeason(s: int)
      modifies this, app
      ensures !seasonModalVisible && leagueModalVisible == old(leagueModalVisible)
      ensures app.league == CurrentLeague(Some(old(app.league))) && app.season == Some(s)
      ensures app.round.None? && app.lang == old(app.lang)
    {
      seasonModalVisible := false;
      app.SetLeagueSeason(Some(CurrentLeague(Some(app.league))), Some(s));
    }

    /** The language button. */
    method PressLang()
      modifies app`lang
      ensures app.lang == Toggled(old(app.lang))
    {
      app.ToggleLang();
    }
  }
}
