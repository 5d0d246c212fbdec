/**
 When the count a new match starts with is exact. Timelines are keyed by (player,
 start), so two matches a player starts at the same millisecond leave one entry.
 */
module ProgressLimits {
  import opened StoreSpec
  import opened ProgressProof

  /** The timelines have an entry for exactly the starts of the stored matches. */
  ghost predicate KeysExact(tl: Timeline, log: Log) {
    forall key :: key in tl <==> exists k :: k in log && log[k].ts == key.ts && key.pid in log[k].players
  }

  lemma {:induction false} InsertedKeys(tl: Timeline, pids: seq<nat>, ts: nat, gid: nat, n: nat)
    requires n <= |pids|
    ensures forall key :: key in InsertGames(tl, pids, ts, gid, n) <==>
            key in tl || (key.ts == ts && key.pid in pids[..n])
  {
    if n > 0 {
      InsertedKeys(tl, pids, ts, gid, n - 1);
      assert forall q :: q in pids[..n] <==> q in pids[..n - 1] || q == pids[n - 1];
    }
  }

  /** Whatever matches are stored, with no assumption on them, the starts stay exact. */
  lemma KeysStayExact(tl: Timeline, log: Log, key: GameKey, g: Game)
    requires KeysExact(tl, log) && key !in log
    ensures KeysExact(InsertGames(tl, g.players, g.ts, key.gid, |g.players|), log[key := g])
  {
    hide InsertGames;
    var tl', log' := InsertGames(tl, g.players, g.ts, key.gid, |g.players|), log[key := g];
    InsertedKeys(tl, g.players, g.ts, key.gid, |g.players|);
    assert g.players[..|g.players|] == g.players;
    forall e | e in tl' ensures exists k :: k in log' && log'[k].ts == e.ts && e.pid in log'[k].players {
      if e.ts == g.ts && e.pid in g.players {
        assert key in log' && log'[key] == g;
      } else {
        var k :| k in log && log[k].ts == e.ts && e.pid in log[k].players;
        assert k in log' && log'[k] == log[k];
      }
    }
  }

  /** No two of these matches start at once. */
  ghost predicate StartsDiffer(log: Log, games: set<GameKey>) {
    forall k, k' | k in games && k' in games && k in log && k' in log && log[k].ts == log[k'].ts :: k == k'
  }

  /** There are at most as many starts as matches, and as many only if all differ. */
  lemma {:induction false} FewerStarts(games: set<GameKey>, times: set<nat>, log: Log)
    requires forall k | k in games :: k in log
    requires forall t :: t in times <==> exists k :: k in games && log[k].ts == t
    ensures |times| <= |games|
    ensures |times| == |games| <==> StartsDiffer(log, games)
    decreases |games|
  {
    if games == {} {
      assert times == {};
    } else {
      var k :| k in games;
      var t := log[k].ts;
      var rest := games - {k};
      if exists k' :: k' in rest && log[k'].ts == t {
        var k' :| k' in rest && log[k'].ts == t;
        forall u | u in times ensures exists x :: x in rest && log[x].ts == u {
          var x :| x in games && log[x].ts == u;
          assert x in rest || k' in rest;
        }
        FewerStarts(rest, times, log);
        assert !StartsDiffer(log, games);
      } else {
        forall u | u in times - {t} ensures exists x :: x in rest && log[x].ts == u {
          var x :| x in games && log[x].ts == u;
          assert x in rest;
        }
        FewerStarts(rest, times - {t}, log);
        assert t in times;
        assert |times| == |times - {t}| + 1;
        if StartsDiffer(log, rest) {
          assert StartsDiffer(log, games);
        }
      }
    }
  }

  /** A player has as many earlier matches as earlier starts, or more if some started at once. */
  lemma BeforeSizes(tl: Timeline, log: Log, p: nat, ts: nat)
    requires KeysExact(tl, log)
    ensures |Before(tl, p, ts)| <= |GamesBefore(log, p, ts)|
    ensures |Before(tl, p, ts)| == |GamesBefore(log, p, ts)| <==> StartsDiffer(log, GamesBefore(log, p, ts))
  {
    var games, times := GamesBefore(log, p, ts), Before(tl, p, ts);
    forall t: nat | t in times ensures exists k :: k in games && log[k].ts == t {
      assert TlKey(p, t) in tl;
      var k :| k in log && log[k].ts == t && p in log[k].players;
      assert k in games;
    }
    forall k | k in games ensures log[k].ts in times {
      assert TlKey(p, log[k].ts) in tl;
    }
    FewerStarts(games, times, log);
  }

  /** The count a new match gets is the true one exactly when the player's earlier matches all started at different
      times, or when there are enough different starts to fill the slot anyway. */
  lemma CountExactIff(tl: Timeline, log: Log, p: nat, ts: nat)
    requires KeysExact(tl, log)
    ensures Cap(|Before(tl, p, ts)|) == Cap(|GamesBefore(log, p, ts)|)
       <==> StartsDiffer(log, GamesBefore(log, p, ts)) || |Before(tl, p, ts)| >= HISTORY_REQUIRED
  {
    hide Before, GamesBefore, StartsDiffer;
    BeforeSizes(tl, log, p, ts);
  }
}
