/**
 A crawl of two platforms after which the startup pass sends a player to the
 platform it does not play on.
 */
module ReconcileWitness {
  import opened Results
  import opened Sets
  import opened StoreSpec
  import opened PlayerIds
  import opened ProgressProof
  import opened ProgressLimits
  import opened ProgressWitness
  import opened Reconcile
  import opened StoreAlways

  lemma StartsOf(x: seq<nat>, y: seq<nat>, a: MatchIn, b: MatchIn)
    requires |x| == |y| == TEAM && Distinct(x) && Distinct(y) && x[0] !in y
    ensures var tl := InsertGames(InsertGames(map[], x, a.ts, a.gid, TEAM), y, b.ts, b.gid, TEAM);
            LastGame(tl, x[0]) == Some(a.gid)
  {
    hide InsertGames;
    var t1 := InsertGames(map[], x, a.ts, a.gid, TEAM);
    var tl := InsertGames(t1, y, b.ts, b.gid, TEAM);
    InsertedGames(map[], x, a.ts, a.gid, TEAM);
    InsertedGames(t1, y, b.ts, b.gid, TEAM);
    InsertedKeys(map[], x, a.ts, a.gid, TEAM);
    InsertedKeys(t1, y, b.ts, b.gid, TEAM);
    assert y[..TEAM] == y && x[0] in x[..TEAM];
    assert Starts(tl, x[0]) == {a.ts};
    SortedOne(a.ts);
  }

  /** Two platforms hold a match of the same number. A player whose only match is on the second goes to the first. */
  lemma WrongHome(here: Platform, there: Platform) returns (s1: Stored, s2: Stored, x: seq<nat>, y: seq<nat>)
    requires here != there
    ensures var a, b := Match(there, 7, 10, 0, 100), Match(here, 7, 20, 50, 200);
            && Good(NOTHING) && TenPlayers(a) && TenPlayers(b) && s1 == Take(NOTHING, a) && Good(s1)
               && s2 == Take(s1, b)
            && s2.log == map[a.Key() := Game(10, x), b.Key() := Game(20, y)]
            && x != [] && x[0] !in y && HomeOf(s2.db, [here, there], x[0]) == Some(here)
  {
    hide Good, InsertGames, Take, TablesOk, IdsOk, RetroAll, Distinct, Bound, Extends, Ten, FreshProgress, LastGame;
    var a, b := Match(there, 7, 10, 0, 100), Match(here, 7, 20, 50, 200);
    TenDiffer(there, 7, 10, 0, 100);
    TenDiffer(here, 7, 20, 50, 200);
    s1, s2, x, y := TakeTwo(a, b);
    FirstNotIn(a, b, s1, s2, x, y);
    StartsOf(x, y, a, b);
  }

  lemma FirstNotIn(a: MatchIn, b: MatchIn, s1: Stored, s2: Stored, x: seq<nat>, y: seq<nat>)
    requires Two(a, b, s1, s2, x, y) && a.puuids == Ten(0, 100) && b.puuids == Ten(50, 200)
    ensures x[0] !in y
  {
    hide Good, FreshProgress, InsertGames, TablesOk, IdsOk, RetroAll, Distinct, Bound;
    BoundGrows(s1.db.players, s2.db.players, a.puuids, x);
    Shared(s2.db.players, s2.next, b.puuids, a.puuids, y, x, 0);
    InTen(50, 200, 0);
  }
}
