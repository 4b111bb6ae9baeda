/** The join of `summary`: the games index (`gamesdict`), the progress rows
    built from the achievements map, and the printed lines. */
module Aggregate {
  import opened Wrappers
  import opened Records
  import opened Completion
  import opened Report
  import opened Ordering

  /** gamesdict: each game under its appid; a later duplicate overwrites an earlier one. */
  function IndexOf(games: seq<Game>): map<AppId, Game>
    decreases |games|
  {
    if games == [] then map[]
    else
      var n := |games| - 1;
      IndexOf(games[..n])[games[n].appid := games[n]]
  }

  /** Every listed appid, and only those, is a key of the index. */
  lemma {:induction false} IndexOfKeys(games: seq<Game>)
    ensures IndexOf(games).Keys == set i | 0 <= i < |games| :: games[i].appid
    decreases |games|
  {
    if games != [] {
      var n := |games| - 1;
      IndexOfKeys(games[..n]);
      assert (set i | 0 <= i < |games| :: games[i].appid)
          == (set i | 0 <= i < n :: games[..n][i].appid) + {games[n].appid};
    }
  }

  /** The game stored under an appid is the last game in the list with that appid. */
  lemma {:induction false} IndexOfLastWins(games: seq<Game>, i: nat)
    requires i < |games|
    requires forall j :: i < j < |games| ==> games[j].appid != games[i].appid
    ensures games[i].appid in IndexOf(games) && IndexOf(games)[games[i].appid] == games[i]
    decreases |games|
  {
    var n := |games| - 1;
    if i < n {
      IndexOfLastWins(games[..n], i);
    }
  }

  /** The loop that fills gamesdict (lines 82-84). */
  method IndexGames(games: seq<Game>) returns (gamesdict: map<AppId, Game>)
    ensures gamesdict == IndexOf(games)
  {
    gamesdict := map[];
    for i := 0 to |games|
      invariant gamesdict == IndexOf(games[..i])
    {
      assert games[..i + 1][..i] == games[..i];
      gamesdict := gamesdict[games[i].appid := games[i]];
    }
    assert games[..|games|] == games;
  }

  /** `order` lists every key of the set exactly once. */
  ghost predicate IsEnumeration(order: seq<AppId>, keys: set<AppId>)
  {
    && (forall i :: 0 <= i < |order| ==> order[i] in keys)
    && (forall i, j :: 0 <= i < j < |order| ==> order[i] != order[j])
    && (forall k :: k in keys ==> k in order)
  }

  lemma {:induction false} EnumerationSize(order: seq<AppId>, keys: set<AppId>)
    requires IsEnumeration(order, keys)
    ensures |order| == |keys|
    decreases |order|
  {
    if order == [] {
      if keys != {} {
        NonEmptyHasKey(keys);
        assert false;
      }
    } else {
      var n := |order| - 1;
      var prefix := order[..n];
      assert forall k :: k in prefix ==> k in order;
      assert order[n] !in prefix;
      assert order[n] in keys;
      assert IsEnumeration(prefix, keys - {order[n]});
      EnumerationSize(prefix, keys - {order[n]});
      assert |keys - {order[n]}| == |keys| - 1;
    }
  }

  lemma NonEmptyHasKey(keys: set<AppId>)
    requires keys != {}
    ensures exists appid :: appid in keys
  {
    if forall appid :: appid !in keys {
      assert false;
    }
  }

  /** `self.achievements.items()`: a list of the keys in some order that the
      model does not fix. */
  method Items(achievements: AchievementsMap) returns (order: seq<AppId>)
    ensures IsEnumeration(order, achievements.Keys)
  {
    order := [];
    var left := achievements.Keys;
    while left != {}
      invariant forall k :: k in achievements.Keys <==> k in order || k in left
      invariant forall k :: k in order ==> k !in left
      invariant forall i, j :: 0 <= i < j < |order| ==> order[i] != order[j]
      decreases left
    {
      NonEmptyHasKey(left);
      var appid :| appid in left;
      order := order + [appid];
      left := left - {appid};
    }
    forall k | k in achievements.Keys
      ensures k in order
    {
      assert k !in left;
    }
    assert forall i :: 0 <= i < |order| ==> order[i] in order;
  }

  /** The exception the loop body raises for one entry, if any: calcAchieved
      divides 0 by 0 on an empty list (line 88) before gamesdict is consulted
      (line 89). */
  function EntryError(gamesdict: map<AppId, Game>, achievements: AchievementsMap, appid: AppId): Option<Error>
    requires appid in achievements
  {
    if achievements[appid] == [] then Some(EmptyAchievementList(appid))
    else if appid !in gamesdict then Some(UnknownGame(appid))
    else None
  }

  /** The progress list after visiting the entries in `order`, or the first exception. */
  function ProgressRows(gamesdict: map<AppId, Game>, achievements: AchievementsMap, order: seq<AppId>): Result<seq<Row>, Error>
    requires forall i :: 0 <= i < |order| ==> order[i] in achievements
    decreases |order|
  {
    if order == [] then Success([])
    else
      var n := |order| - 1;
      var appid := order[n];
      match ProgressRows(gamesdict, achievements, order[..n])
      case Failure(e) => Failure(e)
      case Success(rows) =>
        match CompletionOf(achievements[appid])
        case None => Failure(EmptyAchievementList(appid))
        case Some(c) =>
          if appid in gamesdict then Success(rows + [RowOf(gamesdict[appid].name, c)])
          else Failure(UnknownGame(appid))
  }

  /** Once an entry has raised, the later entries are not visited. */
  lemma {:induction false} FailurePersists(gamesdict: map<AppId, Game>, achievements: AchievementsMap, order: seq<AppId>, k: nat)
    requires forall i :: 0 <= i < |order| ==> order[i] in achievements
    requires k <= |order| && ProgressRows(gamesdict, achievements, order[..k]).Failure?
    ensures ProgressRows(gamesdict, achievements, order) == ProgressRows(gamesdict, achievements, order[..k])
    decreases |order| - k
  {
    if k < |order| {
      var n := |order| - 1;
      assert order[..n][..k] == order[..k];
      FailurePersists(gamesdict, achievements, order[..n], k);
    } else {
      assert order[..k] == order;
    }
  }

  /** The visit raises exactly when some visited entry raises. */
  lemma {:induction false} ProgressRowsSucceeds(gamesdict: map<AppId, Game>, achievements: AchievementsMap, order: seq<AppId>)
    requires forall i :: 0 <= i < |order| ==> order[i] in achievements
    ensures ProgressRows(gamesdict, achievements, order).Success?
        <==> forall i :: 0 <= i < |order| ==> EntryError(gamesdict, achievements, order[i]).None?
    decreases |order|
  {
    if order != [] {
      var n := |order| - 1;
      ProgressRowsSucceeds(gamesdict, achievements, order[..n]);
      assert forall i :: 0 <= i < n ==> order[..n][i] == order[i];
    }
  }

  /** Without an exception the progress list has one row per visited entry,
      in visiting order, named after the game indexed under its appid. */
  lemma {:induction false} ProgressRowsContent(gamesdict: map<AppId, Game>, achievements: AchievementsMap, order: seq<AppId>)
    requires forall i :: 0 <= i < |order| ==> order[i] in achievements
    requires ProgressRows(gamesdict, achievements, order).Success?
    ensures var rows := ProgressRows(gamesdict, achievements, order).value;
      && |rows| == |order|
      && forall i :: 0 <= i < |order| ==>
           order[i] in gamesdict && achievements[order[i]] != [] &&
           rows[i] == RowOf(gamesdict[order[i]].name, CompletionOf(achievements[order[i]]).value)
    decreases |order|
  {
    if order != [] {
      var n := |order| - 1;
      ProgressRowsContent(gamesdict, achievements, order[..n]);
      assert forall i :: 0 <= i < n ==> order[..n][i] == order[i];
    }
  }

  /** With an exception, it is that of the first visited entry that raises. */
  lemma {:induction false} ProgressRowsFirstError(gamesdict: map<AppId, Game>, achievements: AchievementsMap, order: seq<AppId>)
    requires forall i :: 0 <= i < |order| ==> order[i] in achievements
    requires ProgressRows(gamesdict, achievements, order).Failure?
    ensures exists i :: (0 <= i < |order|
      && EntryError(gamesdict, achievements, order[i]) == Some(ProgressRows(gamesdict, achievements, order).error)
      && forall j :: 0 <= j < i ==> EntryError(gamesdict, achievements, order[j]).None?)
    decreases |order|
  {
    var n := |order| - 1;
    var prefix := order[..n];
    var e := ProgressRows(gamesdict, achievements, order).error;
    assert forall i :: 0 <= i < n ==> prefix[i] == order[i];
    if ProgressRows(gamesdict, achievements, prefix).Failure? {
      ProgressRowsFirstError(gamesdict, achievements, prefix);
      var i :| 0 <= i < n
        && EntryError(gamesdict, achievements, prefix[i]) == Some(e)
        && forall j :: 0 <= j < i ==> EntryError(gamesdict, achievements, prefix[j]).None?;
      assert EntryError(gamesdict, achievements, order[i]) == Some(e);
    } else {
      ProgressRowsSucceeds(gamesdict, achievements, prefix);
      assert EntryError(gamesdict, achievements, order[n]) == Some(e);
    }
  }

  /** Over an enumeration of the whole map: exactly one row per achievements
      entry, named after the game indexed under its appid; games without an
      entry get no row. */
  lemma OneRowPerEntry(gamesdict: map<AppId, Game>, achievements: AchievementsMap, order: seq<AppId>, rows: seq<Row>)
    requires IsEnumeration(order, achievements.Keys)
    requires ProgressRows(gamesdict, achievements, order) == Success(rows)
    ensures |rows| == |order| == |achievements|
    ensures forall appid :: appid in achievements ==>
      && appid in gamesdict
      && achievements[appid] != []
      && exists i :: 0 <= i < |rows| && order[i] == appid
           && rows[i] == RowOf(gamesdict[appid].name, CompletionOf(achievements[appid]).value)
  {
    EnumerationSize(order, achievements.Keys);
    ProgressRowsContent(gamesdict, achievements, order);
    forall appid | appid in achievements
      ensures appid in gamesdict && achievements[appid] != []
      ensures exists i :: 0 <= i < |rows| && order[i] == appid
                && rows[i] == RowOf(gamesdict[appid].name, CompletionOf(achievements[appid]).value)
    {
      var i :| 0 <= i < |order| && order[i] == appid;
      assert rows[i] == RowOf(gamesdict[order[i]].name, CompletionOf(achievements[order[i]]).value);
    }
  }

  /** The loop that fills `progress` (lines 86-89). */
  method Progress(gamesdict: map<AppId, Game>, achievements: AchievementsMap, order: seq<AppId>)
      returns (progress: Result<seq<Row>, Error>)
    requires forall i :: 0 <= i < |order| ==> order[i] in achievements
    ensures progress == ProgressRows(gamesdict, achievements, order)
  {
    var rows := [];
    for i := 0 to |order|
      invariant ProgressRows(gamesdict, achievements, order[..i]) == Success(rows)
    {
      var appid := order[i];
      assert order[..i + 1][..i] == order[..i];
      var s := CalcAchieved(achievements[appid]);
      if s.None? {
        FailurePersists(gamesdict, achievements, order, i + 1);
        return Failure(EmptyAchievementList(appid));
      }
      if appid !in gamesdict {
        FailurePersists(gamesdict, achievements, order, i + 1);
        return Failure(UnknownGame(appid));
      }
      rows := rows + [RowOf(gamesdict[appid].name, s.value)];
    }
    assert order[..|order|] == order;
    return Success(rows);
  }

  /** What summary prints for the progress rows (lines 91-96). */
  function PrintedLines(rows: seq<Row>, sortBy: string): seq<string>
  {
    match ParseSortBy(sortBy)
    case None => []
    case Some(key) => Lines(SortRows(rows, key))
  }

  /** With "percent" or "total" the printed lines are those of a stable
      rearrangement of the rows, non-decreasing in the chosen key; with any
      other value nothing is printed. */
  lemma PrintedLinesSpec(rows: seq<Row>, sortBy: string)
    ensures sortBy != "percent" && sortBy != "total" ==> PrintedLines(rows, sortBy) == []
    ensures sortBy == "percent" || sortBy == "total" ==>
      var key := if sortBy == "percent" then ByPercent else ByRemaining;
      var out := SortRows(rows, key);
      && PrintedLines(rows, sortBy) == Lines(out)
      && multiset(out) == multiset(rows)
      && SortedBy(out, key)
      && forall v :: WithKey(out, key, v) == WithKey(rows, key, v)
  {
    if sortBy == "percent" || sortBy == "total" {
      var key := if sortBy == "percent" then ByPercent else ByRemaining;
      SortRowsPermutation(rows, key);
      SortRowsSorted(rows, key);
      forall v ensures WithKey(SortRows(rows, key), key, v) == WithKey(rows, key, v) {
        SortRowsStable(rows, key, v);
      }
    }
  }

  /** What summary prints for the loaded games and achievements when
      `items()` yields the appids in `order`, or the exception it raises. */
  function SummaryOutput(games: seq<Game>, achievements: AchievementsMap, order: seq<AppId>, sortBy: string): Result<seq<string>, Error>
    requires forall i :: 0 <= i < |order| ==> order[i] in achievements
  {
    match ProgressRows(IndexOf(games), achievements, order)
    case Failure(e) => Failure(e)
    case Success(rows) => Success(PrintedLines(rows, sortBy))
  }

  // A worked example: two games, X with 3 of 5 achievements and Y with 0 of 2.

  const Done := Achievement(true, "done")
  const Open := Achievement(false, "open")
  const ExampleGames := [Game(1, "X"), Game(2, "Y")]
  const ExampleAchievements := map[1 := [Done, Done, Done, Open, Open], 2 := [Open, Open]]
  const RowX := Row("X", 3, 5, 60, 2)
  const RowY := Row("Y", 0, 2, 0, 2)

  lemma ExampleCompletion()
    ensures CompletionOf(ExampleAchievements[1]) == Some(Figures(3, 5, 60, 2))
    ensures CompletionOf(ExampleAchievements[2]) == Some(Figures(0, 2, 0, 2))
  {
    var forX := ExampleAchievements[1];
    assert forX[..4][..3][..2][..1][..0] == [];
    assert CountAchieved(forX) == 3;
    RoundHalfEvenUnique(300, 5, 60);
  }

  lemma ExampleProgress(order: seq<AppId>)
    requires order == [1, 2] || order == [2, 1]
    ensures ProgressRows(IndexOf(ExampleGames), ExampleAchievements, order)
         == Success(if order == [1, 2] then [RowX, RowY] else [RowY, RowX])
  {
    var index := IndexOf(ExampleGames);
    assert ExampleGames[..1] == [Game(1, "X")] && ExampleGames[..1][..0] == [];
    assert IndexOf(ExampleGames[..1]) == map[1 := Game(1, "X")];
    assert index == map[1 := Game(1, "X"), 2 := Game(2, "Y")];
    ExampleCompletion();
    assert RowOf(index[1].name, Figures(3, 5, 60, 2)) == RowX;
    assert RowOf(index[2].name, Figures(0, 2, 0, 2)) == RowY;
    var first, second := if order == [1, 2] then RowX else RowY, if order == [1, 2] then RowY else RowX;
    assert order[..1][..0] == [];
    assert ProgressRows(index, ExampleAchievements, order[..1][..0]) == Success([]);
    assert [] + [first] == [first];
    assert ProgressRows(index, ExampleAchievements, order[..1]) == Success([first]);
    assert [first] + [second] == [first, second];
  }

  lemma ExampleSorted()
    ensures SortRows([RowX, RowY], ByPercent) == [RowY, RowX]
    ensures SortRows([RowY, RowX], ByPercent) == [RowY, RowX]
  {
    assert [RowX, RowY][1..] == [RowY] && [RowY, RowX][1..] == [RowX];
    assert [RowY][1..] == [] && [RowX][1..] == [];
    assert SortRows([RowY], ByPercent) == [RowY];
    assert SortRows([RowX], ByPercent) == [RowX];
    assert KeyOf(RowX, ByPercent) == 60 && KeyOf(RowY, ByPercent) == 0;
    assert Insert(RowX, [RowY], ByPercent) == [RowY] + Insert(RowX, [], ByPercent) == [RowY, RowX];
    assert Insert(RowY, [RowX], ByPercent) == [RowY] + [RowX];
  }

  lemma ExampleFields()
    ensures PadLeft(NatToString(0), 3) == "  0" && PadLeft(NatToString(60), 3) == " 60"
    ensures PadLeft(NatToString(0), 2) == " 0" && PadLeft(NatToString(2), 2) == " 2"
    ensures PadLeft(NatToString(3), 2) == " 3" && PadLeft(NatToString(5), 2) == " 5"
  {
    assert NatToString(60) == NatToString(6) + "0" == "60";
    assert Spaces(0) == "" && Spaces(1) == " " && Spaces(2) == "  ";
  }

  lemma ExampleLines()
    ensures Line(RowY) == "  0% ( 0 of  2, + 2) Y"
    ensures Line(RowX) == " 60% ( 3 of  5, + 2) X"
  {
    ExampleFields();
  }

  /** Sorted by percent, Y is printed before X, whatever order items() yields. */
  lemma ExampleByPercent(order: seq<AppId>)
    requires order == [1, 2] || order == [2, 1]
    ensures SummaryOutput(ExampleGames, ExampleAchievements, order, "percent")
         == Success(["  0% ( 0 of  2, + 2) Y", " 60% ( 3 of  5, + 2) X"])
  {
    ExampleProgress(order);
    ExampleSorted();
    ExampleLines();
    assert Lines([RowY, RowX]) == [Line(RowY), Line(RowX)];
  }
}
