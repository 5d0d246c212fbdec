/**
 The incremental sample-progress tables agree with a count made from scratch over
 the set of stored matches, whatever the order they were stored in.
 */
module ProgressProof {
  import opened Sets
  import opened StoreSpec

  /** A stored match that is not a remake. */
  datatype Game = Game(ts: nat, players: seq<nat>)
  type Log = map<GameKey, Game>

  predicate Distinct(pids: seq<nat>) {
    forall i, j | 0 <= i < j < |pids| :: pids[i] != pids[j]
  }

  /** Ten distinct players per match. A player stays on one platform and never starts two matches at once. */
  ghost predicate LogOk(log: Log) {
    && (forall k | k in log :: |log[k].players| == TEAM && Distinct(log[k].players))
    && (forall k, k', p | k in log && k' in log && p in log[k].players && p in log[k'].players ::
          k.platform == k'.platform && (log[k].ts == log[k'].ts ==> k == k'))
  }

  // ---- the count from scratch ----

  /** The stored matches of `p` that started strictly before `ts`. */
  function GamesBefore(log: Log, p: nat, ts: nat): set<GameKey> {
    set k | k in log && p in log[k].players && log[k].ts < ts
  }

  /** What the progress record of a stored match must be. */
  function Expected(log: Log, g: Game): Progress {
    var counts := seq(|g.players|, i requires 0 <= i < |g.players| => Cap(|GamesBefore(log, g.players[i], g.ts)|));
    Slots(counts, AllFull(counts))
  }

  /** The matches of a platform with full history on every slot. */
  function FullSamples(prog: ProgressTable, platform: Platform): set<GameKey> {
    set k | k in prog && k.platform == platform && prog[k].Slots? && prog[k].full
  }

  // ---- the tables, exactly ----

  /** Timeline entry `key` belongs to match `k`. */
  predicate Owner(log: Log, tl: Timeline, key: TlKey, k: GameKey) {
    && k in log && key in tl
    && tl[key].gid == k.gid && log[k].ts == key.ts
    && tl[key].slot < |log[k].players| && log[k].players[tl[key].slot] == key.pid && key.pid in log[k].players
  }

  ghost predicate TlExact(tl: Timeline, log: Log) {
    && (forall k, i | k in log && 0 <= i < |log[k].players| ::
          var key := TlKey(log[k].players[i], log[k].ts); key in tl && tl[key] == TlVal(k.gid, i))
    && (forall key | key in tl :: exists k :: Owner(log, tl, key, k))
  }

  /** Progress of `g` counted on the timelines `tl`, plus one for every (player, time) already bumped. */
  function Counted(tl: Timeline, g: Game, bumped: set<TlKey>): Progress {
    var counts := seq(|g.players|, i requires 0 <= i < |g.players| =>
      Cap(|Before(tl, g.players[i], g.ts)| + (if TlKey(g.players[i], g.ts) in bumped then 1 else 0)));
    Slots(counts, AllFull(counts))
  }

  ghost predicate ProgCounted(prog: ProgressTable, tl: Timeline, log: Log, bumped: set<TlKey>) {
    && (forall k | k in log :: k in prog && prog[k] == Counted(tl, log[k], bumped))
    && (forall k | k in prog && prog[k].Slots? :: k in log)
  }

  // ---- timelines count matches ----

  lemma {:induction false} SameSize(games: set<GameKey>, times: set<nat>, log: Log)
    requires forall k | k in games :: k in log
    requires forall k, k' | k in games && k' in games && log[k].ts == log[k'].ts :: k == k'
    requires forall t :: t in times <==> exists k :: k in games && log[k].ts == t
    ensures |games| == |times|
    decreases |games|
  {
    if games == {} {
      assert times == {};
    } else {
      var k :| k in games;
      var t := log[k].ts;
      assert t in times;
      forall u | u in times - {t} ensures exists k' :: k' in games - {k} && log[k'].ts == u {
        var k' :| k' in games && log[k'].ts == u;
        assert k' in games - {k};
      }
      SameSize(games - {k}, times - {t}, log);
    }
  }

  /** Counting timeline entries is counting matches. */
  lemma CountsAgree(tl: Timeline, log: Log, p: nat, ts: nat)
    requires LogOk(log) && TlExact(tl, log)
    ensures |Before(tl, p, ts)| == |GamesBefore(log, p, ts)|
  {
    var games := GamesBefore(log, p, ts);
    var times := Before(tl, p, ts);
    forall t: nat | t in times ensures exists k :: k in games && log[k].ts == t {
      var k :| Owner(log, tl, TlKey(p, t), k);
      assert k in games;
    }
    forall k | k in games ensures log[k].ts in times {
      var i :| 0 <= i < |log[k].players| && log[k].players[i] == p;
      assert TlKey(log[k].players[i], log[k].ts) in tl;
    }
    SameSize(games, times, log);
  }

  // ---- the retroactive pass ----

  /** The (player, time) pairs of the games `times[i..]`. */
  function Pairs(p: nat, times: seq<nat>, i: nat): set<TlKey>
    requires i <= |times|
  {
    set j | i <= j < |times| :: TlKey(p, times[j])
  }

  /** A game's record does not change when the bumped pairs it could see do not matter to its counts. */
  lemma CountedSame(tl: Timeline, g: Game, a: set<TlKey>, b: set<TlKey>)
    requires forall i | 0 <= i < |g.players| ::
               var key := TlKey(g.players[i], g.ts);
               (key in a <==> key in b) || |Before(tl, g.players[i], g.ts)| >= HISTORY_REQUIRED
    ensures Counted(tl, g, a) == Counted(tl, g, b)
  {
    var x, y := Counted(tl, g, a).counts, Counted(tl, g, b).counts;
    assert forall i | 0 <= i < |x| :: x[i] == y[i];
    assert x == y;
  }

  lemma CountedBump(tl: Timeline, g: Game, bumped: set<TlKey>, slot: nat)
    requires slot < |g.players| && Distinct(g.players)
    requires var key := TlKey(g.players[slot], g.ts); key !in bumped
    requires |Before(tl, g.players[slot], g.ts)| < HISTORY_REQUIRED
    ensures Counted(tl, g, bumped).counts[slot] < HISTORY_REQUIRED
    ensures BumpSlot(Counted(tl, g, bumped), slot) == Counted(tl, g, bumped + {TlKey(g.players[slot], g.ts)})
  {
    var key := TlKey(g.players[slot], g.ts);
    var x := Counted(tl, g, bumped).counts;
    var y := Counted(tl, g, bumped + {key}).counts;
    var z := BumpSlot(Counted(tl, g, bumped), slot).counts;
    assert forall i | 0 <= i < |x| && i != slot :: g.players[i] != g.players[slot];
    assert forall i | 0 <= i < |z| :: z[i] == y[i];
    assert z == y;
  }

  /** No other match's record sees this player's entry at this start. */
  lemma OthersUnbumped(tl: Timeline, log: Log, bumped: set<TlKey>, k: GameKey, slot: nat, k': GameKey)
    requires LogOk(log) && k in log && slot < |log[k].players| && k' in log && k' != k
    ensures Counted(tl, log[k'], bumped) == Counted(tl, log[k'], bumped + {TlKey(log[k].players[slot], log[k].ts)})
  {
    hide Counted;
    var key := TlKey(log[k].players[slot], log[k].ts);
    forall i | 0 <= i < |log[k'].players| ensures TlKey(log[k'].players[i], log[k'].ts) != key {
      assert log[k].players[slot] in log[k].players && log[k'].players[i] in log[k'].players;
    }
    CountedSame(tl, log[k'], bumped, bumped + {key});
  }

  /** One step of the pass: the record of the one match that owns the entry moves by one. */
  lemma BumpStep(prog: ProgressTable, tl: Timeline, log: Log, bumped: set<TlKey>, k: GameKey, slot: nat)
    requires LogOk(log) && ProgCounted(prog, tl, log, bumped) && k in log && slot < TEAM && |log[k].players| == TEAM
    requires var key := TlKey(log[k].players[slot], log[k].ts); key !in bumped
    requires |prog[k].counts| == TEAM && prog[k].counts[slot] < HISTORY_REQUIRED
    ensures ProgCounted(prog[k := BumpSlot(prog[k], slot)], tl, log, bumped + {TlKey(log[k].players[slot], log[k].ts)})
  {
    var g := log[k];
    assert Distinct(g.players) && |Before(tl, g.players[slot], g.ts)| < HISTORY_REQUIRED;
    CountedBump(tl, g, bumped, slot);
    hide Counted, BumpSlot, LogOk, Before;
    forall k' | k' in log && k' != k
      ensures Counted(tl, log[k'], bumped) == Counted(tl, log[k'], bumped + {TlKey(g.players[slot], g.ts)})
    {
      OthersUnbumped(tl, log, bumped, k, slot, k');
    }
  }

  lemma PairsSplit(p: nat, times: seq<nat>, i: nat)
    requires i < |times|
    ensures Pairs(p, times, i) == {TlKey(p, times[i])} + Pairs(p, times, i + 1)
  {
    forall key | key in Pairs(p, times, i) ensures key in {TlKey(p, times[i])} + Pairs(p, times, i + 1) {
      var j :| i <= j < |times| && key == TlKey(p, times[j]);
      assert j == i || TlKey(p, times[j]) in Pairs(p, times, i + 1);
    }
  }

  lemma SlotCount(prog: ProgressTable, tl: Timeline, log: Log, bumped: set<TlKey>, k: GameKey, slot: nat)
    requires ProgCounted(prog, tl, log, bumped) && k in log && slot < |log[k].players|
    requires TlKey(log[k].players[slot], log[k].ts) !in bumped
    ensures prog[k].Slots? && slot < |prog[k].counts|
    ensures prog[k].counts[slot] == Cap(|Before(tl, log[k].players[slot], log[k].ts)|)
  {
  }

  /** A timeline entry leads to the one stored match it belongs to. */
  lemma NextGame(tl: Timeline, log: Log, platform: Platform, p: nat, t: nat) returns (k: GameKey)
    requires LogOk(log) && TlExact(tl, log) && TlKey(p, t) in tl
    requires forall k | k in log && p in log[k].players :: k.platform == platform
    ensures var v := tl[TlKey(p, t)];
            k == GameKey(platform, v.gid) && k in log && log[k].ts == t && |log[k].players| == TEAM
            && v.slot < TEAM && log[k].players[v.slot] == p
  {
    k :| Owner(log, tl, TlKey(p, t), k);
  }

  /** The early break loses nothing: once a player's slot is full at one game, it is full at every later one,
      so the pass may as well have visited them all. */
  lemma {:induction false} RetroPlayerCounts(prog: ProgressTable, tl0: Timeline, tl: Timeline, log: Log,
                                             bumped: set<TlKey>, platform: Platform, p: nat, times: seq<nat>, i: nat)
    requires LogOk(log) && TlExact(tl, log) && TablesOk(tl, prog) && ProgCounted(prog, tl0, log, bumped)
    requires i <= |times| && forall a, b | 0 <= a < b < |times| :: times[a] < times[b]
    requires forall j | 0 <= j < |times| :: TlKey(p, times[j]) in tl
    requires forall j | i <= j < |times| :: TlKey(p, times[j]) !in bumped
    requires forall k | k in log && p in log[k].players :: k.platform == platform
    ensures ProgCounted(RetroPlayer(prog, tl, platform, p, times, i).prog, tl0, log, bumped + Pairs(p, times, i))
    decreases |times| - i
  {
    hide Counted, Before, BumpSlot, LogOk, TlExact;
    if i == |times| {
      assert bumped + Pairs(p, times, i) == bumped;
    } else {
      hide Pairs;
      var t := times[i];
      var key := TlKey(p, t);
      var k := NextGame(tl, log, platform, p, t);
      var slot := tl[key].slot;
      SlotCount(prog, tl0, log, bumped, k, slot);
      PairsSplit(p, times, i);
      if prog[k].counts[slot] >= HISTORY_REQUIRED {
        BreakSafe(prog, tl0, log, bumped, p, times, i);
      } else {
        BumpStep(prog, tl0, log, bumped, k, slot);
        var prog' := prog[k := BumpSlot(prog[k], slot)];
        RetroPlayerCounts(prog', tl0, tl, log, bumped + {key}, platform, p, times, i + 1);
        assert RetroPlayer(prog, tl, platform, p, times, i).prog
               == RetroPlayer(prog', tl, platform, p, times, i + 1).prog;
        assert bumped + {key} + Pairs(p, times, i + 1) == bumped + ({key} + Pairs(p, times, i + 1));
      }
    }
  }

  lemma BreakSafe(prog: ProgressTable, tl: Timeline, log: Log, bumped: set<TlKey>, p: nat, times: seq<nat>, i: nat)
    requires ProgCounted(prog, tl, log, bumped)
    requires i < |times| && forall a, b | 0 <= a < b < |times| :: times[a] < times[b]
    requires |Before(tl, p, times[i])| >= HISTORY_REQUIRED
    ensures ProgCounted(prog, tl, log, bumped + Pairs(p, times, i))
  {
    var all := bumped + Pairs(p, times, i);
    forall k | k in log ensures Counted(tl, log[k], bumped) == Counted(tl, log[k], all) {
      var g := log[k];
      forall j | 0 <= j < |g.players| && TlKey(g.players[j], g.ts) in Pairs(p, times, i)
        ensures |Before(tl, g.players[j], g.ts)| >= HISTORY_REQUIRED
      {
        SubsetSize(Before(tl, p, times[i]), Before(tl, p, g.ts));
      }
      CountedSame(tl, g, bumped, all);
    }
  }

  /** Every (player, time) pair the pass visits for the first `n` players of a match that started at `ts`. */
  ghost predicate Visited(bumped: set<TlKey>, tl: Timeline, pids: seq<nat>, ts: nat, n: nat)
    requires n <= |pids|
  {
    forall key :: key in bumped <==> key in tl && ts < key.ts && key.pid in pids[..n]
  }

  lemma {:induction false} RetroAllCounts(prog: ProgressTable, tl0: Timeline, tl: Timeline, log: Log,
                                          platform: Platform,
                                          pids: seq<nat>, ts: nat, n: nat) returns (bumped: set<TlKey>)
    requires LogOk(log) && TlExact(tl, log) && TablesOk(tl, prog) && ProgCounted(prog, tl0, log, {})
    requires n <= |pids| && Distinct(pids)
    requires forall k, p | k in log && p in pids && p in log[k].players :: k.platform == platform
    ensures Visited(bumped, tl, pids, ts, n)
    ensures ProgCounted(RetroAll(prog, tl, platform, pids, ts, n).prog, tl0, log, bumped)
  {
    hide Counted, TlExact, LogOk, RetroPlayer, ProgCounted, TablesOk;
    if n == 0 {
      bumped := {};
    } else {
      var before := RetroAllCounts(prog, tl0, tl, log, platform, pids, ts, n - 1);
      var a := RetroAll(prog, tl, platform, pids, ts, n - 1);
      var p := pids[n - 1];
      assert p in pids;
      var times := Sorted(Later(tl, p, ts));
      forall j | 0 <= j < |times| ensures TlKey(p, times[j]) in tl && ts < times[j] && TlKey(p, times[j]) !in before {
        assert times[j] in times;
      }
      RetroPlayerCounts(a.prog, tl0, tl, log, before, platform, p, times, 0);
      bumped := before + Pairs(p, times, 0);
      VisitedStep(before, bumped, tl, pids, ts, n, times);
    }
  }

  lemma VisitedStep(before: set<TlKey>, bumped: set<TlKey>, tl: Timeline, pids: seq<nat>, ts: nat, n: nat,
                    times: seq<nat>)
    requires 0 < n <= |pids| && Visited(before, tl, pids, ts, n - 1) && Scan(times, Later(tl, pids[n - 1], ts))
    requires bumped == before + Pairs(pids[n - 1], times, 0)
    ensures Visited(bumped, tl, pids, ts, n)
  {
    var p := pids[n - 1];
    assert forall q :: q in pids[..n] <==> q in pids[..n - 1] || q == p;
    forall key | key in tl && ts < key.ts && key.pid == p ensures key in Pairs(p, times, 0) {
      assert key == TlKey(p, key.ts) && key.ts in Later(tl, p, ts);
      var j :| 0 <= j < |times| && times[j] == key.ts;
    }
    forall key | key in Pairs(p, times, 0) ensures key in tl && ts < key.ts && key.pid == p {
      var j :| 0 <= j < |times| && key == TlKey(p, times[j]);
      assert times[j] in Later(tl, p, ts);
    }
  }

  // ---- inserting the match ----

  /** The new match keeps the log's assumptions: its players are distinct, on their platform, and free at `ts`. */
  ghost predicate CanJoin(log: Log, platform: Platform, g: Game) {
    && |g.players| == TEAM && Distinct(g.players)
    && forall k, p | k in log && p in log[k].players && p in g.players :: k.platform == platform && log[k].ts != g.ts
  }

  lemma LogGrows(log: Log, key: GameKey, g: Game)
    requires LogOk(log) && key !in log && CanJoin(log, key.platform, g)
    ensures LogOk(log[key := g])
  {
  }

  lemma {:induction false} InsertedGames(tl: Timeline, pids: seq<nat>, ts: nat, gid: nat, n: nat)
    requires n <= |pids| && Distinct(pids)
    ensures var tl' := InsertGames(tl, pids, ts, gid, n);
            && (forall key | key in tl && (key.ts != ts || key.pid !in pids[..n]) :: key in tl' && tl'[key] == tl[key])
            && (forall i | 0 <= i < n :: TlKey(pids[i], ts) in tl' && tl'[TlKey(pids[i], ts)] == TlVal(gid, i))
            && (forall key | key in tl' :: key in tl || (key.ts == ts && key.pid in pids[..n]))
  {
    if n > 0 {
      InsertedGames(tl, pids, ts, gid, n - 1);
      assert forall q :: q in pids[..n] <==> q in pids[..n - 1] || q == pids[n - 1];
    }
  }

  /** `tl'` is `tl` with the match's ten entries. */
  ghost predicate Inserted(tl: Timeline, tl': Timeline, g: Game, gid: nat) {
    && (forall key :: key in tl' <==> key in tl || (key.ts == g.ts && key.pid in g.players))
    && (forall key | key in tl && !(key.ts == g.ts && key.pid in g.players) :: tl'[key] == tl[key])
    && (forall i | 0 <= i < |g.players| ::
          TlKey(g.players[i], g.ts) in tl' && tl'[TlKey(g.players[i], g.ts)] == TlVal(gid, i))
  }

  lemma InsertedAll(tl: Timeline, g: Game, gid: nat)
    requires Distinct(g.players)
    ensures Inserted(tl, InsertGames(tl, g.players, g.ts, gid, |g.players|), g, gid)
  {
    hide InsertGames;
    InsertedGames(tl, g.players, g.ts, gid, |g.players|);
    assert g.players[..|g.players|] == g.players;
    forall key: TlKey | key.ts == g.ts && key.pid in g.players
      ensures key in InsertGames(tl, g.players, g.ts, gid, |g.players|)
    {
      var i :| 0 <= i < |g.players| && g.players[i] == key.pid;
      assert key == TlKey(g.players[i], g.ts);
    }
  }

  /** A player's timeline has no entry yet at the new match's start. */
  lemma FreeAt(tl: Timeline, log: Log, platform: Platform, g: Game, p: nat)
    requires TlExact(tl, log) && CanJoin(log, platform, g) && p in g.players
    ensures TlKey(p, g.ts) !in tl
  {
  }

  lemma TimelineGrows(tl: Timeline, tl': Timeline, log: Log, key: GameKey, g: Game)
    requires TlExact(tl, log) && key !in log && CanJoin(log, key.platform, g) && Inserted(tl, tl', g, key.gid)
    ensures TlExact(tl', log[key := g])
  {
    hide Distinct;
    var log' := log[key := g];
    forall k, i | k in log && 0 <= i < |log[k].players|
      ensures var e := TlKey(log[k].players[i], log[k].ts); e in tl' && tl'[e] == TlVal(k.gid, i)
    {
      assert log[k].players[i] in log[k].players;
      assert TlKey(log[k].players[i], log[k].ts) in tl;
    }
    forall e | e in tl' ensures exists k :: Owner(log', tl', e, k) {
      if e.ts == g.ts && e.pid in g.players {
        var i :| 0 <= i < |g.players| && g.players[i] == e.pid;
        assert tl'[TlKey(g.players[i], g.ts)] == TlVal(key.gid, i) && e == TlKey(g.players[i], g.ts);
        assert Owner(log', tl', e, key);
      } else {
        var k :| Owner(log, tl, e, k);
        assert Owner(log', tl', e, k);
      }
    }
  }

  /** The entries of `p` before `t` after inserting a match. */
  lemma BeforeGrows(tl: Timeline, tl': Timeline, log: Log, platform: Platform, g: Game, gid: nat, p: nat, t: nat)
    requires TlExact(tl, log) && CanJoin(log, platform, g) && Inserted(tl, tl', g, gid)
    ensures |Before(tl', p, t)| == |Before(tl, p, t)| + (if p in g.players && g.ts < t then 1 else 0)
  {
    hide Distinct;
    var s, s' := Before(tl, p, t), Before(tl', p, t);
    if p in g.players && g.ts < t {
      FreeAt(tl, log, platform, g, p);
      assert TlKey(p, g.ts) in tl';
      assert s' == s + {g.ts};
    } else {
      assert s' == s;
    }
  }

  /** After the pass, a slot's count is the one the grown timelines give. */
  lemma SlotSettles(tl: Timeline, tl': Timeline, log: Log, platform: Platform, g: Game, gid: nat,
                    bumped: set<TlKey>, p: nat, t: nat)
    requires TlExact(tl, log) && CanJoin(log, platform, g) && Inserted(tl, tl', g, gid)
    requires Visited(bumped, tl', g.players, g.ts, |g.players|) && TlKey(p, t) in tl'
    ensures |Before(tl, p, t)| + (if TlKey(p, t) in bumped then 1 else 0) == |Before(tl', p, t)|
  {
    hide CanJoin, Before, Inserted, TlExact;
    assert g.players[..|g.players|] == g.players;
    BeforeGrows(tl, tl', log, platform, g, gid, p, t);
  }

  lemma RecordSettles(tl: Timeline, tl': Timeline, h: Game, bumped: set<TlKey>)
    requires forall i | 0 <= i < |h.players| ::
               var p := h.players[i];
               |Before(tl, p, h.ts)| + (if TlKey(p, h.ts) in bumped then 1 else 0) == |Before(tl', p, h.ts)|
    ensures Counted(tl, h, bumped) == Counted(tl', h, {})
  {
    hide Before;
    var x, y := Counted(tl, h, bumped).counts, Counted(tl', h, {}).counts;
    assert forall i | 0 <= i < |x| :: x[i] == y[i];
    assert x == y;
  }

  /** Once every later game of the new match's players has been visited, the records are exact again. */
  lemma CountsSettle(prog: ProgressTable, tl: Timeline, tl': Timeline, log: Log, key: GameKey, g: Game,
                     bumped: set<TlKey>)
    requires TlExact(tl, log) && CanJoin(log, key.platform, g) && Inserted(tl, tl', g, key.gid)
    requires TlExact(tl', log[key := g]) && Visited(bumped, tl', g.players, g.ts, |g.players|)
    requires ProgCounted(prog, tl, log[key := g], bumped)
    ensures ProgCounted(prog, tl', log[key := g], {})
  {
    hide CanJoin, Before, Inserted, Visited, Counted, Owner;
    var log' := log[key := g];
    forall k | k in log' ensures Counted(tl, log'[k], bumped) == Counted(tl', log'[k], {}) {
      var h := log'[k];
      forall i | 0 <= i < |h.players|
        ensures |Before(tl, h.players[i], h.ts)| + (if TlKey(h.players[i], h.ts) in bumped then 1 else 0)
             == |Before(tl', h.players[i], h.ts)|
      {
        assert TlKey(h.players[i], h.ts) in tl';
        SlotSettles(tl, tl', log, key.platform, g, key.gid, bumped, h.players[i], h.ts);
      }
      RecordSettles(tl, tl', h, bumped);
    }
  }
}
