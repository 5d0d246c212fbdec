/**
 Stores of ten-player matches after which the progress counts are wrong: a player
 in two matches at once, and a player on two platforms.
 */
module ProgressWitness {
  import opened Sets
  import opened StoreSpec
  import opened PlayerIds
  import opened ProgressProof
  import opened ProgressExact
  import opened ProgressLimits
  import opened RetroExact
  import opened StoreRun
  import opened Restore
  import opened StoreAlways

  // ---- matches of ten different players ----

  function Name(i: nat): Puuid { Puuid(seq(i, _ => 'x')) }

  lemma NamesDiffer(i: nat, j: nat)
    requires i != j
    ensures Name(i) != Name(j)
  {
    assert |Name(i).id| == i && |Name(j).id| == j;
  }

  /** One player in the first slot and nine others. */
  function Ten(first: nat, from: nat): (s: seq<Puuid>)
    ensures |s| == TEAM
  {
    seq(TEAM, (i: nat) => if i == 0 then Name(first) else Name(from + i))
  }

  function Match(platform: Platform, gid: nat, ts: nat, first: nat, from: nat): MatchIn {
    MatchIn(platform, gid, ts, false, Ten(first, from))
  }

  lemma TenDiffer(platform: Platform, gid: nat, ts: nat, first: nat, from: nat)
    requires first <= from
    ensures TenPlayers(Match(platform, gid, ts, first, from))
  {
    forall i, j | 0 <= i < j < TEAM ensures Ten(first, from)[i] != Ten(first, from)[j] {
      NamesDiffer(if i == 0 then first else from + i, from + j);
    }
  }

  /** Who plays in such a match. */
  lemma InTen(first: nat, from: nat, n: nat)
    requires first <= from
    ensures Name(n) in Ten(first, from) <==> n == first || from < n < from + TEAM
  {
    if Name(n) in Ten(first, from) {
      var i :| 0 <= i < TEAM && Ten(first, from)[i] == Name(n);
      var a := if i == 0 then first else from + i;
      assert Ten(first, from)[i] == Name(a) && |Name(n).id| == n && |Name(a).id| == a;
    }
    if n == first {
      assert Ten(first, from)[0] == Name(n);
    }
    if from < n < from + TEAM {
      assert Ten(first, from)[n - from] == Name(n);
    }
  }

  // ---- storing one after the other ----

  /** A store that has taken some matches, with the matches it counted. */
  datatype Stored = Stored(db: Db, next: nat, log: Log)

  ghost predicate Good(s: Stored) {
    InRange(s.db) && IdsOk(s.db.players, s.next) && KeysExact(s.db.timeline, s.log)
  }

  lemma NothingGood()
    ensures Good(Stored(EmptyDb(), 1, map[]))
  {
    FreshInRange();
  }

  ghost function Take(s: Stored, m: MatchIn): Stored
    requires Good(s) && TenPlayers(m)
  {
    var r := StoreTxn(s.db, s.next, m, false);
    Stored(r.db, r.next, LogAfter(s.db, s.log, m, r.pids))
  }

  /** Storing match `m` of the players `z` led from `s` to `s'`. */
  ghost predicate Taken(s: Stored, m: MatchIn, s': Stored, z: seq<nat>)
    requires Good(s)
  {
    && Good(s') && |z| == TEAM && Distinct(z) && Bound(s'.db.players, m.puuids, z)
    && Extends(s.db.players, s'.db.players) && IdsOk(s'.db.players, s'.next)
    && s'.log == s.log[m.Key() := Game(m.ts, z)]
    && s'.db.timeline == InsertGames(s.db.timeline, z, m.ts, m.gid, TEAM)
    && var prog := s.db.progress[m.Key() := FreshProgress(s.db.timeline, z, m.ts)];
       TablesOk(s'.db.timeline, prog)
       && s'.db.progress == RetroAll(prog, s'.db.timeline, m.platform, z, m.ts, TEAM).prog
  }

  ghost predicate New(s: Stored, m: MatchIn) {
    TenPlayers(m) && !m.remake && m.Key() !in s.db.progress && m.Key() !in s.log
  }

  lemma TakeTables(s: Stored, m: MatchIn) returns (z: seq<nat>)
    requires Good(s) && New(s, m)
    ensures Taken(s, m, Take(s, m), z)
  {
    hide IdsOk, TotalsExact, AssignIds, SightAll, FreshProgress, InsertGames, RetroAll, TablesOk, KeysExact;
    AssignKeeps(s.db.players, s.next, m.puuids);
    TxnPlayers(s.db, s.next, m, false);
    TxnInRange(s.db, s.next, m, false);
    var ids := AssignIds(s.db.players, s.next, m.puuids, TEAM);
    z := ids.pids;
    BoundDistinct(ids.players, ids.next, m.puuids, z);
    KeysStayExact(s.db.timeline, s.log, m.Key(), Game(m.ts, z));
    Shapes(s.db, m, z);
  }

  /** The pass of players without later matches changes nothing. */
  lemma {:induction false} QuietPlayers(prog: ProgressTable, tl: Timeline, platform: Platform, pids: seq<nat>, ts: nat,
                                        m: nat, n: nat)
    requires m <= n <= |pids| && TablesOk(tl, prog)
    requires forall i | m <= i < n :: Later(tl, pids[i], ts) == {}
    ensures RetroAll(prog, tl, platform, pids, ts, n) == RetroAll(prog, tl, platform, pids, ts, m)
    decreases n
  {
    hide RetroPlayer, TablesOk, Later;
    if m < n {
      QuietPlayers(prog, tl, platform, pids, ts, m, n - 1);
      var a := RetroAll(prog, tl, platform, pids, ts, n - 1);
      assert Sorted({}) == [];
      NoTimes(a.prog, tl, platform, pids[n - 1]);
    }
  }

  lemma NoTimes(prog: ProgressTable, tl: Timeline, platform: Platform, p: nat)
    requires TablesOk(tl, prog)
    ensures RetroPlayer(prog, tl, platform, p, [], 0) == Retro(prog, 0)
  {
  }

  lemma NoPlayers(prog: ProgressTable, tl: Timeline, platform: Platform, pids: seq<nat>, ts: nat)
    requires TablesOk(tl, prog)
    ensures RetroAll(prog, tl, platform, pids, ts, 0) == Retro(prog, 0)
  {
  }

  lemma OnePlayer(prog: ProgressTable, tl: Timeline, platform: Platform, pids: seq<nat>, ts: nat)
    requires TablesOk(tl, prog) && |pids| >= 1
    ensures RetroAll(prog, tl, platform, pids, ts, 1).prog
         == RetroPlayer(prog, tl, platform, pids[0], LaterGames(tl, pids[0], ts), 0).prog
  {
    hide RetroPlayer;
    NoPlayers(prog, tl, platform, pids, ts);
  }

  /** A match no earlier than all stored ones: no record but its own is written. */
  lemma TakeLast(s: Stored, m: MatchIn, s': Stored, z: seq<nat>)
    requires Good(s) && Taken(s, m, s', z)
    requires forall k | k in s.log :: s.log[k].ts <= m.ts
    ensures s'.db.progress == s.db.progress[m.Key() := FreshProgress(s.db.timeline, z, m.ts)]
  {
    hide IdsOk, TotalsExact, FreshProgress, InsertGames, RetroAll, TablesOk, Bound, Extends, Distinct;
    var tl := s'.db.timeline;
    var prog := s.db.progress[m.Key() := FreshProgress(s.db.timeline, z, m.ts)];
    forall i | 0 <= i < |z| ensures Later(tl, z[i], m.ts) == {} {
    }
    QuietPlayers(prog, tl, m.platform, z, m.ts, 0, |z|);
    NoPlayers(prog, tl, m.platform, z, m.ts);
  }

  /** Only the first player of the match has later matches: the pass is that player's. */
  lemma TakeEarlier(s: Stored, m: MatchIn, s': Stored, z: seq<nat>)
    requires Good(s) && Taken(s, m, s', z)
    requires forall k, i | k in s.log && 0 < i < TEAM :: z[i] !in s.log[k].players
    ensures var tl := s'.db.timeline;
            var prog := s.db.progress[m.Key() := FreshProgress(s.db.timeline, z, m.ts)];
            TablesOk(tl, prog)
            && s'.db.progress == RetroPlayer(prog, tl, m.platform, z[0], LaterGames(tl, z[0], m.ts), 0).prog
  {
    hide IdsOk, TotalsExact, FreshProgress, InsertGames, RetroPlayer, RetroAll, TablesOk, Bound, Extends, Distinct;
    var tl := s'.db.timeline;
    var prog := s.db.progress[m.Key() := FreshProgress(s.db.timeline, z, m.ts)];
    forall i | 0 < i < |z| ensures Later(tl, z[i], m.ts) == {} {
    }
    QuietPlayers(prog, tl, m.platform, z, m.ts, 1, |z|);
    OnePlayer(prog, tl, m.platform, z, m.ts);
  }

  // ---- two stored matches, then a third ----

  const NOTHING: Stored := Stored(EmptyDb(), 1, map[])

  /** `s1` stored match `a` of `x` first, `s2` then match `b` of `y`, which starts no earlier. */
  ghost predicate Two(a: MatchIn, b: MatchIn, s1: Stored, s2: Stored, x: seq<nat>, y: seq<nat>) {
    && a.Key() != b.Key() && a.ts <= b.ts && Good(NOTHING)
    && Taken(NOTHING, a, s1, x) && Taken(s1, b, s2, y)
    && s1.db.progress == map[a.Key() := FreshProgress(map[], x, a.ts)]
    && s2.db.progress == s1.db.progress[b.Key() := FreshProgress(s1.db.timeline, y, b.ts)]
  }

  /** From an empty store, three transactions one after the other. */
  ghost predicate Stores(a: MatchIn, b: MatchIn, c: MatchIn, s1: Stored, s2: Stored, s3: Stored) {
    && TenPlayers(a) && TenPlayers(b) && TenPlayers(c) && Good(NOTHING) && Good(s1) && Good(s2)
    && s1 == Take(NOTHING, a) && s2 == Take(s1, b) && s3 == Take(s2, c)
  }

  lemma TakeTwo(a: MatchIn, b: MatchIn) returns (s1: Stored, s2: Stored, x: seq<nat>, y: seq<nat>)
    requires TenPlayers(a) && TenPlayers(b) && !a.remake && !b.remake && a.Key() != b.Key() && a.ts <= b.ts
    ensures Two(a, b, s1, s2, x, y) && s1 == Take(NOTHING, a) && s2 == Take(s1, b)
  {
    hide Good, FreshProgress, InsertGames, Bound, Take, TablesOk, IdsOk, Extends;
    NothingGood();
    s1 := Take(NOTHING, a);
    x := TakeTables(NOTHING, a);
    TakeLast(NOTHING, a, s1, x);
    s2 := Take(s1, b);
    y := TakeTables(s1, b);
    TakeLast(s1, b, s2, y);
  }

  /** A match's player is the same player wherever its name comes, and nobody else is shared. */
  lemma Shared(players: Players, next: nat, a: seq<Puuid>, c: seq<Puuid>, x: seq<nat>, z: seq<nat>, i: nat)
    requires IdsOk(players, next) && Bound(players, a, x) && Bound(players, c, z) && i < |z|
    ensures z[i] in x <==> c[i] in a
    ensures i < |a| && c[i] == a[i] ==> z[i] == x[i]
  {
    if z[i] in x {
      var j :| 0 <= j < |x| && x[j] == z[i];
      assert players[a[j]] == players[c[i]];
    }
    if c[i] in a {
      var j :| 0 <= j < |a| && a[j] == c[i];
      assert x[j] == z[i];
    }
  }

  /** The third match `c` opens with `a`'s first player, who also opens `b` or is not in it; nobody else played
      before. */
  lemma Third(a: MatchIn, b: MatchIn, c: MatchIn, s1: Stored, s2: Stored, s3: Stored, x: seq<nat>, y: seq<nat>,
              z: seq<nat>, other: nat)
    requires Two(a, b, s1, s2, x, y) && Taken(s2, c, s3, z) && other <= 100
    requires a.puuids == Ten(0, 100) && b.puuids == Ten(other, 200) && c.puuids == Ten(0, 300)
    ensures z[0] == x[0] && (other == 0 ==> z[0] == y[0]) && (other > 0 ==> z[0] !in y && y[0] !in x && y[0] !in z)
    ensures forall k, i | k in s2.log && 0 < i < TEAM :: z[i] !in s2.log[k].players
  {
    hide Good, FreshProgress, InsertGames, TablesOk, IdsOk, RetroAll, Distinct, Bound;
    var players := s3.db.players;
    BoundGrows(s1.db.players, players, a.puuids, x);
    BoundGrows(s2.db.players, players, b.puuids, y);
    Shared(players, s3.next, a.puuids, c.puuids, x, z, 0);
    Shared(players, s3.next, b.puuids, c.puuids, y, z, 0);
    Shared(players, s3.next, a.puuids, b.puuids, x, y, 0);
    Shared(players, s3.next, c.puuids, b.puuids, z, y, 0);
    InTen(other, 200, 0);
    InTen(0, 100, other);
    InTen(0, 300, other);
    forall i | 0 < i < TEAM ensures z[i] !in x && z[i] !in y {
      InTen(0, 100, 300 + i);
      InTen(other, 200, 300 + i);
      Shared(players, s3.next, a.puuids, c.puuids, x, z, i);
      Shared(players, s3.next, b.puuids, c.puuids, y, z, i);
    }
  }

  // ---- what a pass over one entry does ----

  lemma OneEntry(prog: ProgressTable, tl: Timeline, platform: Platform, p: nat, ts: nat, t: nat, k: GameKey, s: nat)
    requires TablesOk(tl, prog) && Later(tl, p, ts) == {t} && Counts(prog, k) && s < TEAM
    requires var o := LooksUp(tl, platform, p, t);
             Counts(prog, o) && prog[o].counts[tl[TlKey(p, t)].slot] < HISTORY_REQUIRED
    ensures var after := RetroPlayer(prog, tl, platform, p, LaterGames(tl, p, ts), 0).prog;
            Counts(after, k) && |after[k].counts| == TEAM
            && after[k].counts[s] == prog[k].counts[s] + (if Names(tl, platform, p, t, k, s) then 1 else 0)
  {
    hide RetroPlayer;
    var times := LaterGames(tl, p, ts);
    SortedOne(t);
    PassMovesBy(prog, tl, platform, p, ts, k, s);
  }

  lemma SortedOne(t: nat)
    ensures Sorted({t}) == [t]
  {
    assert Least({t}) == t;
    assert {t} - {t} == {};
    assert Sorted({}) == [];
  }

  // ---- the failures ----

  /** The record of a match holds `has` for a slot whose player has `owed` earlier matches in the log. */
  ghost predicate Holds(s: Stored, k: GameKey, i: nat, has: nat, owed: nat) {
    && k in s.log && Counts(s.db.progress, k) && i < |s.log[k].players| && i < |s.db.progress[k].counts|
    && s.db.progress[k].counts[i] == has && |GamesBefore(s.log, s.log[k].players[i], s.log[k].ts)| == owed
  }

  lemma FreshCount(tl: Timeline, z: seq<nat>, ts: nat, i: nat)
    requires i < |z|
    ensures FreshProgress(tl, z, ts).Slots? && |FreshProgress(tl, z, ts).counts| == |z|
    ensures FreshProgress(tl, z, ts).counts[i] == Cap(|Before(tl, z[i], ts)|)
  {
  }

  lemma OneStart(x: seq<nat>, y: seq<nat>, t: nat, gid: nat, gid': nat, p: nat, ts: nat)
    requires |x| == |y| == TEAM && x[0] == p && t < ts
    ensures Before(InsertGames(InsertGames(map[], x, t, gid, TEAM), y, t, gid', TEAM), p, ts) == {t}
  {
    hide InsertGames;
    InsertedKeys(map[], x, t, gid, TEAM);
    InsertedKeys(InsertGames(map[], x, t, gid, TEAM), y, t, gid', TEAM);
    assert x[0] in x[..TEAM] && TlKey(p, t) in InsertGames(map[], x, t, gid, TEAM);
  }

  lemma TwoBefore(log: Log, a: GameKey, b: GameKey, p: nat, ts: nat)
    requires a != b && a in log && b in log && p in log[a].players && p in log[b].players
    requires log[a].ts < ts && log[b].ts < ts && forall k | k in log && k != a && k != b :: log[k].ts >= ts
    ensures |GamesBefore(log, p, ts)| == 2
  {
    assert GamesBefore(log, p, ts) == {a, b};
  }

  lemma AtOnce(a: MatchIn, b: MatchIn, c: MatchIn, s1: Stored, s2: Stored, s3: Stored, x: seq<nat>, y: seq<nat>,
               z: seq<nat>)
    requires Two(a, b, s1, s2, x, y) && Taken(s2, c, s3, z) && c.Key() != a.Key() && c.Key() != b.Key()
    requires a.ts == b.ts < c.ts && z[0] == x[0] && z[0] == y[0]
    ensures Holds(s3, c.Key(), 0, 1, 2)
  {
    hide Good, InsertGames, TablesOk, IdsOk, RetroAll, Distinct, Bound, Extends, FreshProgress, GamesBefore;
    TakeLast(s2, c, s3, z);
    OneStart(x, y, a.ts, a.gid, b.gid, z[0], c.ts);
    FreshCount(s2.db.timeline, z, c.ts, 0);
    TwoBefore(s3.log, a.Key(), b.Key(), z[0], c.ts);
  }

  /** Two matches start at once: the third counts them as one. */
  lemma TwoAtOnceCountOnce(platform: Platform) returns (s1: Stored, s2: Stored, s3: Stored)
    ensures var a, b, c := Match(platform, 1, 5, 0, 100), Match(platform, 2, 5, 0, 200), Match(platform, 3, 6, 0, 300);
            && Stores(a, b, c, s1, s2, s3)
            && Holds(s3, c.Key(), 0, 1, 2)
  {
    hide Good, InsertGames, Take, TenPlayers, TablesOk, IdsOk, RetroAll, Distinct, Bound, Extends, Ten, FreshProgress,
         Holds;
    var a, b, c := Match(platform, 1, 5, 0, 100), Match(platform, 2, 5, 0, 200), Match(platform, 3, 6, 0, 300);
    TenDiffer(platform, 1, 5, 0, 100);
    TenDiffer(platform, 2, 5, 0, 200);
    TenDiffer(platform, 3, 6, 0, 300);
    var x, y, z;
    s1, s2, x, y := TakeTwo(a, b);
    s3 := Take(s2, c);
    z := TakeTables(s2, c);
    Third(a, b, c, s1, s2, s3, x, y, z, 0);
    AtOnce(a, b, c, s1, s2, s3, x, y, z);
  }

  lemma OneBefore(log: Log, c: GameKey, p: nat, ts: nat)
    requires c in log && p in log[c].players && log[c].ts < ts
    requires forall k | k in log && k != c :: p !in log[k].players || log[k].ts >= ts
    ensures |GamesBefore(log, p, ts)| == 1
  {
    assert GamesBefore(log, p, ts) == {c};
  }

  /** The entries of a player in the first list after three matches, with the last writer of each. */
  lemma ThreeEntries(x: seq<nat>, y: seq<nat>, z: seq<nat>, a: MatchIn, b: MatchIn, c: MatchIn, p: nat)
    requires |x| == |y| == |z| == TEAM && Distinct(x) && Distinct(y) && Distinct(z)
    requires x[0] == p && z[0] == p && c.ts < a.ts <= b.ts && (y[0] == p || p !in y)
    requires p in y ==> a.ts == b.ts
    ensures var t2 := InsertGames(InsertGames(map[], x, a.ts, a.gid, TEAM), y, b.ts, b.gid, TEAM);
            var tl := InsertGames(t2, z, c.ts, c.gid, TEAM);
            Later(tl, p, c.ts) == {a.ts} && TlKey(p, a.ts) in tl
            && tl[TlKey(p, a.ts)] == TlVal(if p in y then b.gid else a.gid, 0)
  {
    hide InsertGames;
    var t1 := InsertGames(map[], x, a.ts, a.gid, TEAM);
    var t2 := InsertGames(t1, y, b.ts, b.gid, TEAM);
    InsertedGames(map[], x, a.ts, a.gid, TEAM);
    InsertedGames(t1, y, b.ts, b.gid, TEAM);
    InsertedGames(t2, z, c.ts, c.gid, TEAM);
    InsertedKeys(map[], x, a.ts, a.gid, TEAM);
    InsertedKeys(t1, y, b.ts, b.gid, TEAM);
    InsertedKeys(t2, z, c.ts, c.gid, TEAM);
    assert x[0] in x[..TEAM];
  }

  /** Storing `c` before both others bumps, in the pass of its first player, the one record the entry names. */
  lemma EarlierThird(a: MatchIn, b: MatchIn, c: MatchIn, s1: Stored, s2: Stored, s3: Stored,
                     x: seq<nat>, y: seq<nat>, z: seq<nat>, k: GameKey)
    requires Two(a, b, s1, s2, x, y) && Taken(s2, c, s3, z) && c.Key() != a.Key() && c.Key() != b.Key()
    requires c.ts < a.ts && z[0] == x[0] && (y[0] == z[0] || z[0] !in y) && (z[0] in y ==> a.ts == b.ts)
    requires forall k, i | k in s2.log && 0 < i < TEAM :: z[i] !in s2.log[k].players
    requires b.platform == c.platform && b.gid == (if z[0] in y then b.gid else a.gid) && k in {a.Key(), b.Key()}
    requires Before(s1.db.timeline, y[0], b.ts) == {}
    ensures Counts(s3.db.progress, k) && |s3.db.progress[k].counts| == TEAM
    ensures s3.db.progress[k].counts[0] == if k == b.Key() then 1 else 0
    ensures s3.log == map[a.Key() := Game(a.ts, x), b.Key() := Game(b.ts, y), c.Key() := Game(c.ts, z)]
  {
    hide InsertGames, IdsOk, RetroAll, RetroPlayer, Bound, Extends, FreshProgress, GamesBefore, KeysExact, Visits,
         Later, TablesOk;
    TakeEarlier(s2, c, s3, z);
    ThreeEntries(x, y, z, a, b, c, z[0]);
    var tl := s3.db.timeline;
    var prog := s2.db.progress[c.Key() := FreshProgress(s2.db.timeline, z, c.ts)];
    FreshCount(map[], x, a.ts, 0);
    FreshCount(s1.db.timeline, y, b.ts, 0);
    OneEntry(prog, tl, c.platform, z[0], c.ts, a.ts, k, 0);
  }

  lemma NoneBefore(x: seq<nat>, t: nat, gid: nat, p: nat, ts: nat)
    requires |x| == TEAM && (p !in x || ts <= t)
    ensures Before(InsertGames(map[], x, t, gid, TEAM), p, ts) == {}
  {
    hide InsertGames;
    InsertedKeys(map[], x, t, gid, TEAM);
    assert x[..TEAM] == x;
  }

  /** Two matches start at once and an earlier one follows: it counts for the second only, whose entry replaced the
      first one's. */
  lemma OverwrittenStaysBehind(platform: Platform)
    returns (s1: Stored, s2: Stored, s3: Stored)
    ensures var a, b := Match(platform, 1, 20, 0, 100), Match(platform, 2, 20, 0, 200);
            var c := Match(platform, 3, 1, 0, 300);
            && Stores(a, b, c, s1, s2, s3)
            && Holds(s3, a.Key(), 0, 0, 1) && Holds(s3, b.Key(), 0, 1, 1)
  {
    hide Good, InsertGames, Take, TenPlayers, TablesOk, IdsOk, RetroAll, RetroPlayer, Distinct, Bound, Extends, Ten,
         FreshProgress, GamesBefore, Before;
    var a, b, c := Match(platform, 1, 20, 0, 100), Match(platform, 2, 20, 0, 200), Match(platform, 3, 1, 0, 300);
    TenDiffer(platform, 1, 20, 0, 100);
    TenDiffer(platform, 2, 20, 0, 200);
    TenDiffer(platform, 3, 1, 0, 300);
    var x, y, z;
    s1, s2, x, y := TakeTwo(a, b);
    s3 := Take(s2, c);
    z := TakeTables(s2, c);
    Third(a, b, c, s1, s2, s3, x, y, z, 0);
    NoneBefore(x, 20, 1, y[0], 20);
    EarlierThird(a, b, c, s1, s2, s3, x, y, z, a.Key());
    EarlierThird(a, b, c, s1, s2, s3, x, y, z, b.Key());
    OneBefore(s3.log, c.Key(), z[0], 20);
  }

  lemma NobodyBefore(log: Log, p: nat, ts: nat)
    requires forall k | k in log :: p !in log[k].players || log[k].ts >= ts
    ensures |GamesBefore(log, p, ts)| == 0
  {
    assert GamesBefore(log, p, ts) == {};
  }

  /** Two platforms hold a match of the same number, of different players. An earlier match of the first one's player on
      the second platform counts for the stranger there and not for the player. */
  lemma StrangerIsBumped(here: Platform, there: Platform)
    returns (s1: Stored, s2: Stored, s3: Stored)
    requires here != there
    ensures var a, b, c := Match(there, 7, 10, 0, 100), Match(here, 7, 20, 50, 200), Match(here, 3, 1, 0, 300);
            && Stores(a, b, c, s1, s2, s3)
            && Holds(s3, a.Key(), 0, 0, 1) && Holds(s3, b.Key(), 0, 1, 0)
  {
    hide Good, InsertGames, Take, TenPlayers, TablesOk, IdsOk, RetroAll, RetroPlayer, Distinct, Bound, Extends, Ten,
         FreshProgress, GamesBefore, Before;
    var a, b, c := Match(there, 7, 10, 0, 100), Match(here, 7, 20, 50, 200), Match(here, 3, 1, 0, 300);
    TenDiffer(there, 7, 10, 0, 100);
    TenDiffer(here, 7, 20, 50, 200);
    TenDiffer(here, 3, 1, 0, 300);
    var x, y, z;
    s1, s2, x, y := TakeTwo(a, b);
    s3 := Take(s2, c);
    z := TakeTables(s2, c);
    Third(a, b, c, s1, s2, s3, x, y, z, 50);
    NoneBefore(x, 10, 7, y[0], 20);
    EarlierThird(a, b, c, s1, s2, s3, x, y, z, a.Key());
    EarlierThird(a, b, c, s1, s2, s3, x, y, z, b.Key());
    OneBefore(s3.log, c.Key(), z[0], 10);
    NobodyBefore(s3.log, y[0], 20);
  }
}
