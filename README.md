# steam-achiever, modelled in Dafny

steam-achiever lists a Steam user's achievement progress, one line per game.
The line gives the percentage reached, the counts achieved and total, and how
many are still missing. `SteamAchiever` loads the owned-games list and a map
from appid to achievement records. Each comes either from a per-user cache
file or, when the file is missing or a refresh is forced, from the Steam Web
API, and the fetched value is written back to the cache. `summary` then:

- indexes the games by appid;
- turns each achievements entry into a progress row with `calcAchieved`;
- sorts the rows by percent or by remaining count;
- prints one formatted line per row.

The model has seven modules:

- `Wrappers`: `Option`, `Result` and `Outcome`.
- `Records`: the values the program handles (games, achievement records,
  progress rows) and the exceptions it can raise.
- `Completion`: `calcAchieved`. The percentage is characterised as the
  round-half-even of `100 * count / total`.
- `Report`: the printed line `'%3s%% (%2s of %2s, +%2s) %s'`. A reader for
  the line is its partner: every line reads back to the row that printed it.
- `Ordering`: `sorted(progress, key=...)`. It is modelled as a stable
  insertion sort, proved to be a permutation, sorted and stable.
- `Aggregate`: the body of `summary` after loading (gamesdict, the progress
  loop, the printed lines).
- `Achiever`: the `Steam` client, the cache directory and the `SteamAchiever`
  class. Each loader is a method proved equal to a specification function
  over the whole state: the two fields, the cache files and the log of API
  queries.

Some exceptions end the program. Here each becomes an error value instead:

- Decimal 0/0 on a game with no achievement records;
- `KeyError` for an appid that is missing from gamesdict;
- a failed owned-games query;
- an unreadable cache file.

A failed per-game query is caught by the source, so it is not an error.

## Model

| member | source | states |
|---|---|---|
| Completion.CountAchieved | steam-achiever.py:71-74 | the count is at most the number of records; it is 0 exactly when no record is achieved and equals the length exactly when all are |
| Completion.CountIsAchievedPositions | steam-achiever.py:71-74 | the count equals the number of positions whose record is achieved |
| Completion.RoundHalfEven | steam-achiever.py:76 | `to_integral_value` with the default ROUND_HALF_EVEN: the result is within one half of n/d, and on an exact tie it is even |
| Completion.RoundHalfEvenUnique | steam-achiever.py:76 | any integer that is within one half of n/d, and even on a tie, is the rounded value |
| Completion.Percent | steam-achiever.py:76 | the percentage is the nearest integer to 100·count/total (ties to even), at most 100; it is 0 for no achievements and 100 for all |
| Completion.CompletionOf | steam-achiever.py:70-76 | no result exactly for an empty list (Decimal 0/0 raises); otherwise count, total = len, percent and remaining with count + remaining = total |
| Completion.CompletionFigures | steam-achiever.py:70-76 | the count is the number of achieved records; the percentage is between 0 and 100, 0 when none are achieved and 100 when all are |
| Completion.CalcAchieved | steam-achiever.py:70-76 | the counting loop returns CompletionOf of its input |
| Report.NatToString | steam-achiever.py:93 | `%s` of an integer: a non-empty digit string with no leading zero |
| Report.DigitsValueOfNatToString | steam-achiever.py:93 | the decimal digits denote the number they were printed from |
| Report.PadLeft | steam-achiever.py:93 | `%Ns`: the width is max(N, length); the text sits at the right end, preceded only by spaces, and a longer text is not truncated |
| Report.Line | steam-achiever.py:93 | the line `'%3s%% (%2s of %2s, +%2s) %s'` for a row; no contract of its own, LineRoundTrip is its partner |
| Report.Lines | steam-achiever.py:92-96 | one line per row, in row order, each the formatted line of its row |
| Report.LineRoundTrip | steam-achiever.py:93 | reading a printed line back yields exactly the row printed, so no field is lost or merged with its neighbour |
| Ordering.ParseSortBy | steam-achiever.py:91-96 | "percent" selects the percent key and "total" the remaining-count key, both directions; every other value selects none |
| Ordering.KeyOf | steam-achiever.py:92-95 | the sort key: p[3] (percent) or p[4] (remaining); no contract of its own, used by Insert's comparison, SortedBy and WithKey |
| Ordering.Insert | steam-achiever.py:92 | one insertion step of the sort; no contract of its own, InsertPermutation, InsertSorted and InsertWithKey are its partners |
| Ordering.SortRows | steam-achiever.py:92-95 | `sorted(progress, key=...)`; no contract of its own, SortRowsPermutation, SortRowsSorted and SortRowsStable are its partners |
| Ordering.InsertPermutation | steam-achiever.py:92 | inserting a row adds exactly that row to the multiset |
| Ordering.InsertSorted | steam-achiever.py:92 | inserting into a sorted list keeps it sorted |
| Ordering.SortRowsPermutation | steam-achiever.py:92 | the sorted list is a permutation of the progress rows |
| Ordering.SortRowsSorted | steam-achiever.py:92 | the sorted list is non-decreasing in the chosen key |
| Ordering.InsertWithKey | steam-achiever.py:92 | inserting a row leaves the relative order of the rows that share any key value unchanged |
| Ordering.SortRowsStable | steam-achiever.py:92 | stability, as Python's `sorted`: rows with equal keys keep their original relative order |
| Records.RowOf | steam-achiever.py:89 | the progress row [name, count, total, percent, remaining]; no contract of its own, ProgressRowsContent is its partner |
| Aggregate.IndexOfKeys | steam-achiever.py:82-84 | the keys of gamesdict are exactly the appids in the games list |
| Aggregate.IndexOf | steam-achiever.py:82-84 | gamesdict; no contract of its own, IndexOfKeys and IndexOfLastWins are its partners |
| Aggregate.IndexOfLastWins | steam-achiever.py:82-84 | for duplicate appids, the last game in the list is the one kept |
| Aggregate.IndexGames | steam-achiever.py:82-84 | the loop builds the index IndexOf(games) |
| Aggregate.EnumerationSize | steam-achiever.py:87 | an enumeration of the keys has as many elements as there are keys |
| Aggregate.Items | steam-achiever.py:87 | `items()` lists every key of the achievements map exactly once, in an unspecified order |
| Aggregate.EntryError | steam-achiever.py:88-89 | the exception one entry raises; no contract of its own, used by ProgressRowsSucceeds and ProgressRowsFirstError |
| Aggregate.ProgressRows | steam-achiever.py:86-89 | the progress list or the first exception; no contract of its own, FailurePersists, ProgressRowsSucceeds, ProgressRowsContent, ProgressRowsFirstError and OneRowPerEntry are its partners |
| Aggregate.FailurePersists | steam-achiever.py:86-89 | once an entry raises, visiting further entries raises the same exception |
| Aggregate.ProgressRowsSucceeds | steam-achiever.py:86-89 | the loop completes if and only if no visited entry has an empty list or an appid missing from gamesdict |
| Aggregate.ProgressRowsContent | steam-achiever.py:86-89 | on completion there is one row per visited entry, in visiting order, with the game's name and calcAchieved's four figures |
| Aggregate.ProgressRowsFirstError | steam-achiever.py:86-89 | on an exception it is the one the first failing entry raises, and every entry before it succeeds |
| Aggregate.OneRowPerEntry | steam-achiever.py:86-89 | when the loop completes over all of the map, every achievements entry has exactly one row, its appid is in gamesdict and its list is non-empty; games without an entry get no row |
| Aggregate.Progress | steam-achiever.py:86-89 | the loop returns ProgressRows for the visiting order, stopping at the first exception |
| Aggregate.PrintedLines | steam-achiever.py:91-96 | the printed lines for the progress rows; no contract of its own, PrintedLinesSpec is its partner |
| Aggregate.SummaryOutput | steam-achiever.py:82-96 | summary's output after loading, or the exception; no contract of its own, composed of ProgressRows and PrintedLines; ExampleByPercent shows it on an instance |
| Aggregate.PrintedLinesSpec | steam-achiever.py:91-96 | "percent" or "total" prints the lines of a stable permutation of the rows sorted by that key; any other value prints nothing |
| Aggregate.ExampleByPercent | steam-achiever.py:86-93 | with X at 3 of 5 and Y at 0 of 2, sorting by percent prints Y's line before X's, for either order of `items()` |
| Achiever.CacheNamesDistinct | steam-achiever.py:42-43 | a games cache file name is never an achievements cache file name |
| Achiever.CacheNamesPerUser | steam-achiever.py:42-43 | different Steam ids never share a cache file |
| Achiever.GamesCacheName | steam-achiever.py:42 | `'steam-%s-games-cache' % steam.id`; no contract of its own, CacheNamesDistinct and CacheNamesPerUser are its partners |
| Achiever.AchievementsCacheName | steam-achiever.py:43 | `'steam-%s-achievements-cache' % steam.id`; no contract of its own, CacheNamesDistinct and CacheNamesPerUser are its partners |
| Achiever.LoadGamesSpec | steam-achiever.py:45-52 | on success the games field is set; the achievements field is untouched |
| Achiever.AchievementRequests | steam-achiever.py:61-64 | one achievements query per listed game, in list order |
| Achiever.Delivers | steam-achiever.py:63-66 | a reply whose `a['achievements']` succeeds; no contract of its own, used by CollectedSpec |
| Achiever.Collected | steam-achiever.py:60-67 | the map the loop builds; no contract of its own, CollectedSpec and ExamplePartialFailure are its partners |
| Achiever.LoadAchievementsSpec | steam-achiever.py:54-68 | on success the achievements field is set, and a games field that was set stays set |
| Achiever.CollectedSpec | steam-achiever.py:61-67 | the map's keys are exactly the listed appids whose reply carried an achievements list; each value is that list; failed queries are skipped |
| Achiever.LoadGamesFromCache | steam-achiever.py:46-48 | with the cache file present and no force: no query, no file written, the field takes the cached list, and an unreadable file raises and changes nothing |
| Achiever.LoadGamesFromApi | steam-achiever.py:49-52 | otherwise: one owned-games query; on success its list goes to the field and the cache file; a failure raises and leaves both untouched |
| Achiever.LoadGamesIdempotent | steam-achiever.py:45-52 | an unforced loadGames after a successful one changes nothing and makes no query |
| Achiever.LoadAchievementsFromCache | steam-achiever.py:55-57 | with the cache file present and no force: no query, games and files untouched, the field takes the cached map, and an unreadable file raises |
| Achiever.LoadAchievementsFromApi | steam-achiever.py:58-68 | otherwise: an unforced loadGames whatever `force` is, whose exception propagates; then one query per game, and the collected map goes to the field and the cache file |
| Achiever.LoadAchievementsIdempotent | steam-achiever.py:54-68 | an unforced loadAchievements after a successful one changes nothing and makes no query |
| Achiever.SummaryOnEmptyCache | steam-achiever.py:78-80 | with both cache files missing: one owned-games query (the nested loadGames reads the file just written), then one query per game |
| Achiever.ExamplePartialFailure | steam-achiever.py:61-67 | with three games where the query for B fails, the map holds exactly A and C |
| Achiever.Steam.constructor | steam-achiever.py:17-19 | a client for one Steam id with an empty query log |
| Achiever.Steam.GetOwnedGames | steam-achiever.py:27-29 | logs one owned-games query and returns its reply |
| Achiever.Steam.GetPlayerAchievements | steam-achiever.py:31-33 | logs one achievements query for the appid and returns its reply |
| Achiever.Cache | steam-achiever.py:46-68 | the cache files as a map from file name to snapshot, behind `os.path.exists`, `open` and `pickle`; no contract of its own, the loader lemmas are its partners |
| Achiever.Cache.constructor | steam-achiever.py:46-68 | a cache directory holding the given files |
| Achiever.SteamAchiever.constructor | steam-achiever.py:38-43 | both fields are None; the cache names are derived from the Steam id |
| Achiever.SteamAchiever.LoadGames | steam-achiever.py:45-52 | the new state and the outcome are those of LoadGamesSpec on the old state |
| Achiever.SteamAchiever.LoadAchievements | steam-achiever.py:54-68 | the new state and the outcome are those of LoadAchievementsSpec on the old state |
| Achiever.SteamAchiever.Summary | steam-achiever.py:78-96 | an unforced loadGames, then an unforced loadAchievements, each exception propagating; then the output is SummaryOutput for an enumeration of the loaded map's keys |

## Left out

- The HTTP request, URL building and JSON decoding of `Steam._api` (lines 21-25) are not modelled. Each query's decoded reply is a fixed parameter (`Replies`), and a network or decoding failure is the reply `Failed`. The API key is not modelled.
- pickle and the file system are modelled as a map from file name to the snapshot that was written. A file that does not unpickle is the snapshot `Unreadable`, and loading it raises `UnreadableCache`. A loader also raises on a snapshot of the other kind. Python would accept such a snapshot, but the program never writes one under that name.
- Achiever.LoadGamesSpec, Achiever.LoadAchievementsSpec: writing a cache file always succeeds in the model. In the source, the `open(..., 'w')` at line 52 or line 68 can raise `IOError`, for example in a read-only directory. That happens after the field has been set and the queries made, and the exception then escapes `summary` before anything is printed. The model returns `Pass` there and stores the file.
- A crash part-way through writing a cache file is not modelled.
- Logging, the UTF-8 `encode` of names and the `print` statement are not modelled. The output is the list of lines that would be printed, and names are `seq<char>`.
- Command-line parsing (lines 99-116) is not modelled. It includes the `--refresh` option, which the script parses but never passes on: `summary` always loads unforced.
- Completion.Percent: the result is the exact round-half-even of 100·count/total. The source computes in Decimal's default 28-digit context, and that rounding could only change the result for totals far beyond any real achievement list.
- Achiever.LoadAchievementsSpec: line 64 calls the module-level `steam` rather than `self.steam`. In the script both name the same object (line 114), and the model uses the achiever's own client.
- The `achieved` flag is modelled as a boolean. The API sends 0 or 1, and the comparison at line 73 is true only for 1.
- Records other than `achieved` and `apiname` carry further fields that the program never reads. Those fields are not modelled.
- Replies are modelled as one fixed answer per query, so asking twice gives the same answer.
- The iteration order of a Python 2 dict is not modelled. `Items` returns some enumeration of the keys, and every property is proved for any such order.
