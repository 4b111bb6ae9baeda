/** The achiever: cache-or-fetch loading of the two snapshots and the summary
    built from them (`SteamAchiever` in steam-achiever.py). The Steam Web API
    is abstracted to a fixed reply per query plus a log of the queries
    issued; the cache directory is a map from file name to snapshot. */
module Achiever {
  import opened Wrappers
  import opened Records
  import opened Aggregate

  /** The content of a cache file: what pickle.dump wrote into it, or bytes
      that pickle.load cannot decode. A loader also refuses a snapshot of the
      other kind; the program never writes one under that name
      (CacheNamesDistinct). */
  datatype Snapshot =
    | GamesSnapshot(games: seq<Game>)
    | AchievementsSnapshot(achievements: AchievementsMap)
    | Unreadable

  /** One query to the Steam Web API. */
  datatype Request = OwnedGamesRequest | AchievementsRequest(appid: AppId)

  /** The decoded answer to one query, or a network or decoding failure. */
  datatype Reply<T> = Reply(body: T) | Failed

  /** `j['playerstats']`; its `achievements` entry is absent for games without stats. */
  datatype PlayerStats = PlayerStats(achievements: Option<seq<Achievement>>)

  /** What the API answers to each query. */
  datatype Replies = Replies(ownedGames: Reply<seq<Game>>, playerStats: AppId -> Reply<PlayerStats>)

  /** The per-user cache file names (lines 42-43). */
  function GamesCacheName(id: string): string
  {
    "steam-" + id + "-games-cache"
  }

  function AchievementsCacheName(id: string): string
  {
    "steam-" + id + "-achievements-cache"
  }

  /** The games file of one user is never the achievements file of any user. */
  lemma CacheNamesDistinct(id1: string, id2: string)
    ensures GamesCacheName(id1) != AchievementsCacheName(id2)
  {
    var g, a := GamesCacheName(id1), AchievementsCacheName(id2);
    assert g[|g| - 11] == 'g';
    assert a[|a| - 11] == 'm';
  }

  /** Distinct users never share a cache file. */
  lemma CacheNamesPerUser(id1: string, id2: string)
    ensures GamesCacheName(id1) == GamesCacheName(id2) ==> id1 == id2
    ensures AchievementsCacheName(id1) == AchievementsCacheName(id2) ==> id1 == id2
  {
    var g1, g2 := GamesCacheName(id1), GamesCacheName(id2);
    if g1 == g2 {
      assert id1 == g1[6..|g1| - 12];
      assert id2 == g2[6..|g2| - 12];
    }
    var a1, a2 := AchievementsCacheName(id1), AchievementsCacheName(id2);
    if a1 == a2 {
      assert id1 == a1[6..|a1| - 19];
      assert id2 == a2[6..|a2| - 19];
    }
  }

  /** Everything the two loaders read and write: the two fields, the cache
      files and the log of API queries. */
  datatype State = State(
    games: Option<seq<Game>>,
    achievements: Option<AchievementsMap>,
    files: map<string, Snapshot>,
    requests: seq<Request>)

  /** loadGames (lines 45-52). */
  function LoadGamesSpec(s: State, replies: Replies, name: string, force: bool): (r: (State, Outcome<Error>))
    ensures r.1.Pass? ==> r.0.games.Some?
    ensures r.0.achievements == s.achievements
  {
    if name in s.files && !force then
      match s.files[name]
      case GamesSnapshot(games) => (s.(games := Some(games)), Pass)
      case _ => (s, Fail(UnreadableCache(name)))
    else
      var asked := s.(requests := s.requests + [OwnedGamesRequest]);
      match replies.ownedGames
      case Reply(games) => (asked.(games := Some(games), files := s.files[name := GamesSnapshot(games)]), Pass)
      case Failed => (asked, Fail(GamesFetchFailed))
  }

  /** A reply that carries an achievements list. */
  predicate Delivers(reply: Reply<PlayerStats>)
  {
    reply.Reply? && reply.body.achievements.Some?
  }

  /** The achievements map the loop of lines 61-67 builds from the games list. */
  function Collected(games: seq<Game>, stats: AppId -> Reply<PlayerStats>): AchievementsMap
    decreases |games|
  {
    if games == [] then map[]
    else
      var n := |games| - 1;
      var sofar := Collected(games[..n], stats);
      match stats(games[n].appid)
      case Reply(PlayerStats(Some(list))) => sofar[games[n].appid := list]
      case _ => sofar
  }

  /** The queries of that loop: one per listed game, in list order. */
  function AchievementRequests(games: seq<Game>): (r: seq<Request>)
    ensures |r| == |games|
    ensures forall i :: 0 <= i < |games| ==> r[i] == AchievementsRequest(games[i].appid)
  {
    seq(|games|, i requires 0 <= i < |games| => AchievementsRequest(games[i].appid))
  }

  /** loadAchievements (lines 54-68). */
  function LoadAchievementsSpec(s: State, replies: Replies, gamesName: string, name: string, force: bool): (r: (State, Outcome<Error>))
    ensures r.1.Pass? ==> r.0.achievements.Some?
    ensures r.1.Pass? && s.games.Some? ==> r.0.games.Some?
  {
    if name in s.files && !force then
      match s.files[name]
      case AchievementsSnapshot(achievements) => (s.(achievements := Some(achievements)), Pass)
      case _ => (s, Fail(UnreadableCache(name)))
    else
      var (loaded, outcome) := LoadGamesSpec(s, replies, gamesName, false);
      if outcome.Fail? then (loaded, outcome)
      else
        var games := loaded.games.value;
        var achievements := Collected(games, replies.playerStats);
        (loaded.(achievements := Some(achievements),
                 files := loaded.files[name := AchievementsSnapshot(achievements)],
                 requests := loaded.requests + AchievementRequests(games)),
         Pass)
  }

  /** The keys of the collected map are exactly the listed appids whose reply
      carried an achievements list; each value is that list, unmodified. */
  lemma {:induction false} CollectedSpec(games: seq<Game>, stats: AppId -> Reply<PlayerStats>, appid: AppId)
    ensures appid in Collected(games, stats)
        <==> (exists i :: 0 <= i < |games| && games[i].appid == appid) && Delivers(stats(appid))
    ensures appid in Collected(games, stats) ==>
      Collected(games, stats)[appid] == stats(appid).body.achievements.value
    decreases |games|
  {
    if games != [] {
      var n := |games| - 1;
      CollectedSpec(games[..n], stats, appid);
      assert forall i :: 0 <= i < n ==> games[..n][i] == games[i];
    }
  }

  /** With the games cache present and no force, no query is made and the
      field takes the cached value. */
  lemma LoadGamesFromCache(s: State, replies: Replies, name: string)
    requires name in s.files
    ensures var (t, outcome) := LoadGamesSpec(s, replies, name, false);
      && t.requests == s.requests && t.files == s.files
      && (outcome.Pass? <==> s.files[name].GamesSnapshot?)
      && (outcome.Pass? ==> t.games == Some(s.files[name].games))
      && (outcome.Fail? ==> t == s)
  {
  }

  /** Otherwise one owned-games query is made and its answer is stored in both
      the field and the cache; a failed query leaves both untouched. */
  lemma LoadGamesFromApi(s: State, replies: Replies, name: string, force: bool)
    requires force || name !in s.files
    ensures var (t, outcome) := LoadGamesSpec(s, replies, name, force);
      && t.requests == s.requests + [OwnedGamesRequest]
      && (outcome.Pass? <==> replies.ownedGames.Reply?)
      && (outcome.Pass? ==>
            && t.games == Some(replies.ownedGames.body)
            && t.files == s.files[name := GamesSnapshot(replies.ownedGames.body)])
      && (outcome.Fail? ==> outcome.error == GamesFetchFailed && t.games == s.games && t.files == s.files)
  {
  }

  /** A second unforced loadGames after a successful one changes nothing and queries nothing. */
  lemma LoadGamesIdempotent(s: State, replies: Replies, name: string, force: bool)
    requires LoadGamesSpec(s, replies, name, force).1.Pass?
    ensures var t := LoadGamesSpec(s, replies, name, force).0;
      LoadGamesSpec(t, replies, name, false) == (t, Pass)
  {
  }

  /** With the achievements cache present and no force, the map is loaded from
      it; nothing else changes and no query is made. */
  lemma LoadAchievementsFromCache(s: State, replies: Replies, gamesName: string, name: string)
    requires name in s.files
    ensures var (t, outcome) := LoadAchievementsSpec(s, replies, gamesName, name, false);
      && t.requests == s.requests && t.files == s.files && t.games == s.games
      && (outcome.Pass? <==> s.files[name].AchievementsSnapshot?)
      && (outcome.Pass? ==> t.achievements == Some(s.files[name].achievements))
      && (outcome.Fail? ==> t == s)
  {
  }

  /** Otherwise the games are loaded unforced, whatever `force` is; if that
      raises, so does loadAchievements. If not, every listed game is queried
      once, no per-game failure escapes, and the map of the games that
      delivered a list is stored in both the field and the cache. */
  lemma LoadAchievementsFromApi(s: State, replies: Replies, gamesName: string, name: string, force: bool)
    requires force || name !in s.files
    ensures
      var (loaded, gamesOutcome) := LoadGamesSpec(s, replies, gamesName, false);
      var (t, outcome) := LoadAchievementsSpec(s, replies, gamesName, name, force);
      && (gamesOutcome.Fail? ==> (t, outcome) == (loaded, gamesOutcome))
      && (gamesOutcome.Pass? ==>
            var games := loaded.games.value;
            && outcome == Pass
            && t.games == loaded.games
            && t.requests == loaded.requests + AchievementRequests(games)
            && t.achievements.Some?
            && t.files == loaded.files[name := AchievementsSnapshot(t.achievements.value)]
            && forall appid ::
                 && (appid in t.achievements.value <==>
                       (exists i :: 0 <= i < |games| && games[i].appid == appid)
                       && Delivers(replies.playerStats(appid)))
                 && (appid in t.achievements.value ==>
                       t.achievements.value[appid] == replies.playerStats(appid).body.achievements.value))
  {
    var (loaded, gamesOutcome) := LoadGamesSpec(s, replies, gamesName, false);
    if gamesOutcome.Pass? {
      var games := loaded.games.value;
      forall appid {
        CollectedSpec(games, replies.playerStats, appid);
      }
    }
  }

  /** A second unforced loadAchievements after a successful one changes nothing and queries nothing. */
  lemma LoadAchievementsIdempotent(s: State, replies: Replies, gamesName: string, name: string, force: bool)
    requires LoadAchievementsSpec(s, replies, gamesName, name, force).1.Pass?
    ensures var t := LoadAchievementsSpec(s, replies, gamesName, name, force).0;
      LoadAchievementsSpec(t, replies, gamesName, name, false) == (t, Pass)
  {
  }

  /** summary on an empty cache: the games are queried once (the unforced
      loadGames inside loadAchievements finds the file summary's own call has
      just written), then each listed game once. */
  lemma SummaryOnEmptyCache(s: State, replies: Replies, id: string)
    requires GamesCacheName(id) !in s.files && AchievementsCacheName(id) !in s.files
    requires replies.ownedGames.Reply?
    ensures
      var (loaded, o1) := LoadGamesSpec(s, replies, GamesCacheName(id), false);
      var (t, o2) := LoadAchievementsSpec(loaded, replies, GamesCacheName(id), AchievementsCacheName(id), false);
      var games := replies.ownedGames.body;
      && o1 == Pass && o2 == Pass
      && t.games == Some(games)
      && t.achievements == Some(Collected(games, replies.playerStats))
      && t.requests == s.requests + [OwnedGamesRequest] + AchievementRequests(games)
  {
    CacheNamesDistinct(id, id);
  }

  /** Three games where the query for B fails: the map holds A and C only. */
  lemma ExamplePartialFailure(forA: seq<Achievement>, forC: seq<Achievement>)
    ensures
      var stats := (appid: AppId) =>
        if appid == 1 then Reply(PlayerStats(Some(forA)))
        else if appid == 3 then Reply(PlayerStats(Some(forC)))
        else Failed;
      Collected([Game(1, "A"), Game(2, "B"), Game(3, "C")], stats) == map[1 := forA, 3 := forC]
  {
    var stats := (appid: AppId) =>
      if appid == 1 then Reply(PlayerStats(Some(forA)))
      else if appid == 3 then Reply(PlayerStats(Some(forC)))
      else Failed;
    var games := [Game(1, "A"), Game(2, "B"), Game(3, "C")];
    assert games[..2][..1][..0] == [];
    assert Collected(games[..2][..1], stats) == map[1 := forA];
    assert Collected(games[..2], stats) == map[1 := forA];
  }

  /** The Steam Web API client, reduced to its two queries. */
  class Steam {
    const id: string
    const replies: Replies
    var requests: seq<Request>

    constructor (id: string, replies: Replies)
      ensures this.id == id && this.replies == replies && requests == []
    {
      this.id := id;
      this.replies := replies;
      requests := [];
    }

    /** getOwnedGames (lines 27-29). */
    method GetOwnedGames() returns (reply: Reply<seq<Game>>)
      modifies this`requests
      ensures requests == old(requests) + [OwnedGamesRequest]
      ensures reply == replies.ownedGames
    {
      requests := requests + [OwnedGamesRequest];
      reply := replies.ownedGames;
    }

    /** getPlayerAchievements (lines 31-33). */
    method GetPlayerAchievements(appid: AppId) returns (reply: Reply<PlayerStats>)
      modifies this`requests
      ensures requests == old(requests) + [AchievementsRequest(appid)]
      ensures reply == replies.playerStats(appid)
    {
      requests := requests + [AchievementsRequest(appid)];
      reply := replies.playerStats(appid);
    }
  }

  /** The cache directory: the snapshot stored under each existing file name. */
  class Cache {
    var files: map<string, Snapshot>

    constructor (files: map<string, Snapshot>)
      ensures this.files == files
    {
      this.files := files;
    }
  }

  class SteamAchiever {
    const steam: Steam
    const cache: Cache
    const gamesCache: string
    const achievementsCache: string
    var games: Option<seq<Game>>
    var achievements: Option<AchievementsMap>

    /** __init__ (lines 38-43). */
    constructor (steam: Steam, cache: Cache)
      ensures this.steam == steam && this.cache == cache
      ensures gamesCache == GamesCacheName(steam.id)
      ensures achievementsCache == AchievementsCacheName(steam.id)
      ensures games == None && achievements == None
    {
      this.steam := steam;
      this.cache := cache;
      gamesCache := GamesCacheName(steam.id);
      achievementsCache := AchievementsCacheName(steam.id);
      games := None;
      achievements := None;
    }

    ghost function View(): State
      reads this, steam, cache
    {
      State(games, achievements, cache.files, steam.requests)
    }

    method LoadGames(force: bool) returns (outcome: Outcome<Error>)
      modifies this`games, cache`files, steam`requests
      ensures (View(), outcome) == LoadGamesSpec(old(View()), steam.replies, gamesCache, force)
    {
      if gamesCache in cache.files && !force {
        match cache.files[gamesCache] {
          case GamesSnapshot(list) =>
            games := Some(list);
            outcome := Pass;
          case _ =>
            outcome := Fail(UnreadableCache(gamesCache));
        }
      } else {
        var reply := steam.GetOwnedGames();
        match reply {
          case Reply(list) =>
            games := Some(list);
            cache.files := cache.files[gamesCache := GamesSnapshot(list)];
            outcome := Pass;
          case Failed =>
            outcome := Fail(GamesFetchFailed);
        }
      }
    }

    method LoadAchievements(force: bool) returns (outcome: Outcome<Error>)
      modifies this`games, this`achievements, cache`files, steam`requests
      ensures (View(), outcome)
           == LoadAchievementsSpec(old(View()), steam.replies, gamesCache, achievementsCache, force)
    {
      if achievementsCache in cache.files && !force {
        match cache.files[achievementsCache] {
          case AchievementsSnapshot(cached) =>
            achievements := Some(cached);
            outcome := Pass;
          case _ =>
            outcome := Fail(UnreadableCache(achievementsCache));
        }
        return;
      }
      outcome := LoadGames(false);
      if outcome.Fail? {
        return;
      }
      ghost var loaded := View();
      var list := games.value;
      achievements := Some(map[]);
      for i := 0 to |list|
        invariant games == loaded.games && cache.files == loaded.files
        invariant steam.requests == loaded.requests + AchievementRequests(list[..i])
        invariant achievements == Some(Collected(list[..i], steam.replies.playerStats))
      {
        assert list[..i + 1][..i] == list[..i];
        var appid := list[i].appid;
        var reply := steam.GetPlayerAchievements(appid);
        match reply {
          case Reply(PlayerStats(Some(a))) =>
            achievements := Some(achievements.value[appid := a]);
          case _ =>
        }
      }
      assert list[..|list|] == list;
      cache.files := cache.files[achievementsCache := AchievementsSnapshot(achievements.value)];
    }

    /** summary (lines 78-96): the printed lines, or the exception raised;
        `order` is the order in which `items()` yielded the appids. */
    method Summary(sortBy: string) returns (printed: Result<seq<string>, Error>, ghost order: seq<AppId>)
      modifies this`games, this`achievements, cache`files, steam`requests
      ensures
        var (loaded, o1) := LoadGamesSpec(old(View()), steam.replies, gamesCache, false);
        var (t, o2) := LoadAchievementsSpec(loaded, steam.replies, gamesCache, achievementsCache, false);
        && View() == (if o1.Fail? then loaded else t)
        && (o1.Fail? ==> printed == Failure(o1.error))
        && (o1.Pass? && o2.Fail? ==> printed == Failure(o2.error))
        && (o1.Pass? && o2.Pass? ==>
              && t.games.Some? && t.achievements.Some?
              && IsEnumeration(order, t.achievements.value.Keys)
              && printed == SummaryOutput(t.games.value, t.achievements.value, order, sortBy))
    {
      order := [];
      var outcome := LoadGames(false);
      if outcome.Fail? {
        return Failure(outcome.error), order;
      }
      outcome := LoadAchievements(false);
      if outcome.Fail? {
        return Failure(outcome.error), order;
      }
      var gamesdict := IndexGames(games.value);
      var items := Items(achievements.value);
      order := items;
      var progress := Progress(gamesdict, achievements.value, items);
      match progress {
        case Failure(e) =>
          printed := Failure(e);
        case Success(rows) =>
          printed := Success(PrintedLines(rows, sortBy));
      }
    }
  }
}
