/** The static league catalog: every league with its ascending list of seasons. */
module Leagues {
  import opened Wrappers

  datatype League = League(id: string, name: string, seasons: seq<int>)

  const Catalog: seq<League> := [
    League("PL", "Premier League", [2023, 2024, 2025]),
    League("PD", "La Liga", [2023, 2024, 2025]),
    League("SA", "Serie A", [2023, 2024, 2025]),
    League("BL1", "Bundesliga", [2023, 2024, 2025]),
    League("FL1", "Ligue 1", [2023, 2024, 2025]),
    League("DED", "Eredivisie", [2023, 2024, 2025]),
    League("PPL", "Primeira Liga", [2023, 2024, 2025]),
    League("BSA", "Campeonato Brasileiro Série A", [2023, 2024, 2025]),
    League("ELC", "Championship", [2023, 2024, 2025]),
    League("CL", "Champions League", [2023, 2024, 2025]),
    League("WC", "Fifa World Cup", [2023, 2024, 2025])
  ]

  /** `DEFAULT_LEAGUE = LEAGUES[0]`. */
  const DefaultLeague: League := Catalog[0]

  /** `seasons[seasons.length - 1]`, which is `undefined` (here `None`) for an empty list. */
  function LastSeason(seasons: seq<int>): (s: Option<int>)
    ensures s.None? <==> |seasons| == 0
    ensures s.Some? ==> s.value in seasons && s.value == seasons[|seasons| - 1]
  {
    if |seasons| == 0 then None else Some(seasons[|seasons| - 1])
  }
}
