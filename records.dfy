/** The records the Steam Web API delivers and the rows derived from them. */
module Records {

  /** A Steam application id. */
  type AppId = int

  /** One owned game, as listed by the owned-games query. */
  datatype Game = Game(appid: AppId, name: string)

  /** One achievement of a player in one game. Only `achieved` is inspected;
      the remaining metadata is passed through unmodified. */
  datatype Achievement = Achievement(achieved: bool, apiname: string)

  /** The achievement lists that were fetched, by appid. */
  type AchievementsMap = map<AppId, seq<Achievement>>

  /** The four numbers that `calcAchieved` returns for one game. */
  datatype Figures = Figures(count: nat, total: nat, percent: nat, remaining: nat)

  /** One line of the summary before formatting: the game name and its completion. */
  datatype Row = Row(name: string, count: nat, total: nat, percent: nat, remaining: nat)

  /** The exceptions that escape to the caller of the achiever. */
  datatype Error =
    | GamesFetchFailed               // network or decoding failure of the owned-games query
    | UnreadableCache(file: string)  // a cache file that does not unpickle to the expected structure
    | EmptyAchievementList(appid: AppId)  // Decimal 0/0 in calcAchieved
    | UnknownGame(appid: AppId)      // appid missing from gamesdict (KeyError)

  /** The progress row built for one game (line 89). */
  function RowOf(name: string, c: Figures): Row
  {
    Row(name, c.count, c.total, c.percent, c.remaining)
  }
}
