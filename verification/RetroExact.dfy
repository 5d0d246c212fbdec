/**
 Exactly what the retroactive pass does, with no assumption on the matches: which
 entries it reaches, how far each slot moves, and hence when a later match ends
 with its true count and when a stranger's record moves instead.
 */
module RetroExact {
  import opened StoreSpec
  import opened ProgressProof
  import opened ProgressLimits

  // ---- the pass, read off the tables it starts from ----

  /** The record an entry is looked up as: its number, under the platform of the match being stored. */
  function LooksUp(tl: Timeline, platform: Platform, p: nat, t: nat): GameKey
    requires TlKey(p, t) in tl
  {
    GameKey(platform, tl[TlKey(p, t)].gid)
  }

  predicate Names(tl: Timeline, platform: Platform, p: nat, t: nat, k: GameKey, s: nat)
    requires TlKey(p, t) in tl
  {
    LooksUp(tl, platform, p, t) == k && tl[TlKey(p, t)].slot == s
  }

  predicate Entered(tl: Timeline, p: nat, times: seq<nat>) {
    forall j | 0 <= j < |times| :: TlKey(p, times[j]) in tl
  }

  /** How many of the first `n` entries name slot `s` of `k`. */
  function Visits(tl: Timeline, platform: Platform, p: nat, times: seq<nat>, n: nat, k: GameKey, s: nat): nat
    requires n <= |times| && Entered(tl, p, times)
  {
    if n == 0 then 0
    else Visits(tl, platform, p, times, n - 1, k, s) + (if Names(tl, platform, p, times[n - 1], k, s) then 1 else 0)
  }

  predicate Counts(prog: ProgressTable, k: GameKey) { k in prog && prog[k].Slots? }

  /** The pass ends at entry `j`: its slot is full by then. */
  predicate Stops(prog: ProgressTable, tl: Timeline, platform: Platform, p: nat, times: seq<nat>, j: nat)
    requires j < |times| && Entered(tl, p, times) && TablesOk(tl, prog)
  {
    var k, s := LooksUp(tl, platform, p, times[j]), tl[TlKey(p, times[j])].slot;
    Counts(prog, k) && prog[k].counts[s] + Visits(tl, platform, p, times, j, k, s) >= HISTORY_REQUIRED
  }

  /** The first entry from the `j`-th on where the pass ends. */
  function StopAt(prog: ProgressTable, tl: Timeline, platform: Platform, p: nat, times: seq<nat>, j: nat): (r: nat)
    requires j <= |times| && Entered(tl, p, times) && TablesOk(tl, prog)
    ensures j <= r <= |times|
    ensures forall i | j <= i < r :: !Stops(prog, tl, platform, p, times, i)
    ensures r < |times| ==> Stops(prog, tl, platform, p, times, r)
    decreases |times| - j
  {
    if j == |times| || Stops(prog, tl, platform, p, times, j) then j
    else StopAt(prog, tl, platform, p, times, j + 1)
  }

  /** `cur` is `prog` with every slot moved by the first `i` entries. */
  ghost predicate Ahead(prog: ProgressTable, cur: ProgressTable, tl: Timeline, platform: Platform, p: nat,
                        times: seq<nat>, i: nat)
    requires i <= |times| && Entered(tl, p, times)
  {
    && (forall k :: k in cur <==> k in prog)
    && (forall k | k in prog :: cur[k].Slots? == prog[k].Slots?)
    && (forall k | Counts(prog, k) :: |prog[k].counts| == |cur[k].counts| == TEAM)
    && (forall k, s | Counts(prog, k) && 0 <= s < TEAM ::
          cur[k].counts[s] == prog[k].counts[s] + Visits(tl, platform, p, times, i, k, s))
  }

  lemma AheadSkip(prog: ProgressTable, cur: ProgressTable, tl: Timeline, platform: Platform, p: nat, times: seq<nat>,
                  i: nat)
    requires i < |times| && Entered(tl, p, times) && Ahead(prog, cur, tl, platform, p, times, i)
    requires !Counts(prog, LooksUp(tl, platform, p, times[i]))
    ensures Ahead(prog, cur, tl, platform, p, times, i + 1)
  {
  }

  lemma AheadBump(prog: ProgressTable, cur: ProgressTable, tl: Timeline, platform: Platform, p: nat, times: seq<nat>,
                  i: nat)
    requires i < |times| && Entered(tl, p, times) && Ahead(prog, cur, tl, platform, p, times, i) && TablesOk(tl, prog)
    requires Counts(prog, LooksUp(tl, platform, p, times[i]))
    ensures var k, s := LooksUp(tl, platform, p, times[i]), tl[TlKey(p, times[i])].slot;
            s < TEAM && Counts(cur, k) && |cur[k].counts| == TEAM
            && Ahead(prog, cur[k := BumpSlot(cur[k], s)], tl, platform, p, times, i + 1)
  {
    hide AllFull;
  }

  /** Every slot ends where the entries before the stop move it. */
  lemma {:induction false} PassMoves(prog: ProgressTable, cur: ProgressTable, tl: Timeline, platform: Platform, p: nat,
                                     times: seq<nat>, i: nat)
    requires i <= |times| && Entered(tl, p, times) && TablesOk(tl, prog) && TablesOk(tl, cur)
    requires Ahead(prog, cur, tl, platform, p, times, i)
    ensures Ahead(prog, RetroPlayer(cur, tl, platform, p, times, i).prog, tl, platform, p, times,
                  StopAt(prog, tl, platform, p, times, i))
    decreases |times| - i
  {
    hide BumpSlot, Visits;
    if i < |times| {
      var v := tl[TlKey(p, times[i])];
      var k := LooksUp(tl, platform, p, times[i]);
      if !Counts(prog, k) {
        AheadSkip(prog, cur, tl, platform, p, times, i);
        PassMoves(prog, cur, tl, platform, p, times, i + 1);
      } else {
        AheadBump(prog, cur, tl, platform, p, times, i);
        if cur[k].counts[v.slot] < HISTORY_REQUIRED {
          PassMoves(prog, cur[k := BumpSlot(cur[k], v.slot)], tl, platform, p, times, i + 1);
        }
      }
    }
  }

  lemma {:induction false} NoVisits(tl: Timeline, platform: Platform, p: nat, times: seq<nat>, n: nat, k: GameKey,
                                    s: nat)
    requires n <= |times| && Entered(tl, p, times)
    ensures Visits(tl, platform, p, times, n, k, s) > 0 <==>
            exists j :: 0 <= j < n && Names(tl, platform, p, times[j], k, s)
  {
    if n > 0 {
      NoVisits(tl, platform, p, times, n - 1, k, s);
    }
  }

  /** A later match's games of the player, in the order the pass reads them. */
  function LaterGames(tl: Timeline, p: nat, ts: nat): (times: seq<nat>)
    ensures Scan(times, Later(tl, p, ts)) && Entered(tl, p, times)
  {
    var times := Sorted(Later(tl, p, ts));
    assert forall j | 0 <= j < |times| :: times[j] in times;
    times
  }

  /** For any tables whatever: the pass moves each slot of each counted record by the number of entries that name it
      before the first full one. */
  lemma PassMovesBy(prog: ProgressTable, tl: Timeline, platform: Platform, p: nat, ts: nat, k: GameKey, s: nat)
    requires TablesOk(tl, prog) && Counts(prog, k) && s < TEAM
    ensures var times := LaterGames(tl, p, ts);
            var stop := StopAt(prog, tl, platform, p, times, 0);
            var after := RetroPlayer(prog, tl, platform, p, times, 0).prog;
            Counts(after, k) && |after[k].counts| == TEAM
            && after[k].counts[s] == prog[k].counts[s] + Visits(tl, platform, p, times, stop, k, s)
  {
    hide RetroPlayer, StopAt;
    var times := LaterGames(tl, p, ts);
    assert Ahead(prog, prog, tl, platform, p, times, 0);
    PassMoves(prog, prog, tl, platform, p, times, 0);
  }

  /** A full slot is not moved: the pass ends where it would be. */
  lemma FullStays(prog: ProgressTable, tl: Timeline, platform: Platform, p: nat, times: seq<nat>, k: GameKey, s: nat)
    requires TablesOk(tl, prog) && Entered(tl, p, times) && Counts(prog, k) && s < TEAM
    requires prog[k].counts[s] >= HISTORY_REQUIRED
    ensures Visits(tl, platform, p, times, StopAt(prog, tl, platform, p, times, 0), k, s) == 0
  {
    hide Visits;
    var stop := StopAt(prog, tl, platform, p, times, 0);
    NoVisits(tl, platform, p, times, stop, k, s);
    forall j | 0 <= j < stop ensures !Names(tl, platform, p, times[j], k, s) {
      assert !Stops(prog, tl, platform, p, times, j);
    }
  }

  // ---- when a later match ends with its true count ----

  lemma OneMoreGame(log: Log, key: GameKey, g: Game, p: nat, t: nat)
    requires key !in log && p in g.players && g.ts < t
    ensures |GamesBefore(log[key := g], p, t)| == |GamesBefore(log, p, t)| + 1
  {
    assert GamesBefore(log[key := g], p, t) == GamesBefore(log, p, t) + {key};
  }

  /** Whatever the other matches are, a later match of the player that held its true count before the pass holds it
      after the pass if and only if its slot was full already, or exactly one entry the pass reaches names it. */
  lemma LaterCountIff(prog: ProgressTable, tl: Timeline, log: Log, key: GameKey, g: Game, p: nat, h: GameKey, i: nat)
    requires TablesOk(tl, prog) && key !in log && p in g.players
    requires h in log && g.ts < log[h].ts && i < |log[h].players| && i < TEAM && log[h].players[i] == p
             && Counts(prog, h)
    requires prog[h].counts[i] == Cap(|GamesBefore(log, p, log[h].ts)|)
    ensures var times := LaterGames(tl, p, g.ts);
            var stop := StopAt(prog, tl, key.platform, p, times, 0);
            var after := RetroPlayer(prog, tl, key.platform, p, times, 0).prog;
            Counts(after, h) && |after[h].counts| == TEAM
            && (after[h].counts[i] == Cap(|GamesBefore(log[key := g], p, log[h].ts)|) <==>
                prog[h].counts[i] >= HISTORY_REQUIRED || Visits(tl, key.platform, p, times, stop, h, i) == 1)
  {
    hide RetroPlayer, StopAt, Visits, GamesBefore;
    var times := LaterGames(tl, p, g.ts);
    PassMovesBy(prog, tl, key.platform, p, g.ts, h, i);
    OneMoreGame(log, key, g, p, log[h].ts);
    if prog[h].counts[i] >= HISTORY_REQUIRED {
      FullStays(prog, tl, key.platform, p, times, h, i);
    }
  }

  lemma {:induction false} OneVisit(tl: Timeline, platform: Platform, p: nat, times: seq<nat>, n: nat, own: nat,
                                    k: GameKey, s: nat)
    requires own < |times| && n <= |times| && Entered(tl, p, times)
    requires forall j | 0 <= j < |times| && j != own :: !Names(tl, platform, p, times[j], k, s)
    ensures Visits(tl, platform, p, times, n, k, s)
         == if own < n && Names(tl, platform, p, times[own], k, s) then 1 else 0
  {
    if n > 0 {
      OneVisit(tl, platform, p, times, n - 1, own, k, s);
    }
  }

  /** When no other later entry carries the match's number and slot and the pass is not cut short before it, it ends
      with its true count if and only if it was full already, or it is on the platform of the match being stored and
      the player's entry at its start names it. */
  lemma OwnEntryIff(prog: ProgressTable, tl: Timeline, log: Log, key: GameKey, g: Game, p: nat, h: GameKey, i: nat)
    requires TablesOk(tl, prog) && KeysExact(tl, log[key := g]) && key !in log && p in g.players
    requires h in log && g.ts < log[h].ts && i < |log[h].players| && i < TEAM && log[h].players[i] == p
             && Counts(prog, h)
    requires prog[h].counts[i] == Cap(|GamesBefore(log, p, log[h].ts)|)
    requires forall t: nat | TlKey(p, t) in tl && g.ts < t && t != log[h].ts :: tl[TlKey(p, t)] != TlVal(h.gid, i)
    requires var times := LaterGames(tl, p, g.ts);
             forall j | 0 <= j < |times| && times[j] < log[h].ts :: !Stops(prog, tl, key.platform, p, times, j)
    ensures TlKey(p, log[h].ts) in tl
    ensures var after := RetroPlayer(prog, tl, key.platform, p, LaterGames(tl, p, g.ts), 0).prog;
            Counts(after, h) && |after[h].counts| == TEAM
            && (after[h].counts[i] == Cap(|GamesBefore(log[key := g], p, log[h].ts)|) <==>
                prog[h].counts[i] >= HISTORY_REQUIRED
                || (h.platform == key.platform && tl[TlKey(p, log[h].ts)] == TlVal(h.gid, i)))
  {
    hide RetroPlayer, Visits, GamesBefore;
    var times := LaterGames(tl, p, g.ts);
    var log' := log[key := g];
    assert h in log' && log'[h] == log[h] && TlKey(p, log[h].ts) in tl by {
      assert log[h].players[i] in log[h].players;
    }
    assert log[h].ts in Later(tl, p, g.ts);
    var own :| 0 <= own < |times| && times[own] == log[h].ts;
    forall j | 0 <= j < |times| && j != own ensures !Names(tl, key.platform, p, times[j], h, i) {
      assert times[j] != times[own];
      assert times[j] in times && times[j] in Later(tl, p, g.ts);
    }
    var stop := StopAt(prog, tl, key.platform, p, times, 0);
    OneVisit(tl, key.platform, p, times, stop, own, h, i);
    OneVisit(tl, key.platform, p, times, own, own, h, i);
    LaterCountIff(prog, tl, log, key, g, p, h, i);
  }

  // ---- when somebody else's record moves ----

  /** Every entry was written by a stored match of the player. */
  ghost predicate OwnedEntries(tl: Timeline, log: Log) {
    forall e | e in tl :: exists k :: Owner(log, tl, e, k)
  }

  /** They stay so whatever matches are stored. */
  lemma OwnedStay(tl: Timeline, log: Log, key: GameKey, g: Game)
    requires OwnedEntries(tl, log) && key !in log && Distinct(g.players)
    ensures OwnedEntries(InsertGames(tl, g.players, g.ts, key.gid, |g.players|), log[key := g])
  {
    hide InsertGames;
    var tl', log' := InsertGames(tl, g.players, g.ts, key.gid, |g.players|), log[key := g];
    InsertedAll(tl, g, key.gid);
    forall e | e in tl' ensures exists k :: Owner(log', tl', e, k) {
      if e.ts == g.ts && e.pid in g.players {
        var i :| 0 <= i < |g.players| && g.players[i] == e.pid;
        assert e == TlKey(g.players[i], g.ts);
        assert Owner(log', tl', e, key);
      } else {
        var k :| Owner(log, tl, e, k);
        assert Owner(log', tl', e, k);
      }
    }
  }

  /** The entry came from another platform's match of the same number. */
  ghost predicate Foreign(log: Log, tl: Timeline, platform: Platform, p: nat, t: nat)
    requires TlKey(p, t) in tl
  {
    exists k :: Owner(log, tl, TlKey(p, t), k) && k.platform != platform
  }

  /** The slot of a player other than `p` moves in the pass of `p` if and only if an entry of `p` the pass reaches
      carries that match's number and that slot; and such an entry came from a match on another platform. */
  lemma StrangerMovesIff(prog: ProgressTable, tl: Timeline, log: Log, platform: Platform, p: nat, ts: nat, k: GameKey,
                         s: nat)
    requires TablesOk(tl, prog) && OwnedEntries(tl, log) && Counts(prog, k) && s < TEAM
    requires k in log && s < |log[k].players| && log[k].players[s] != p
    ensures var times := LaterGames(tl, p, ts);
            var stop := StopAt(prog, tl, platform, p, times, 0);
            var after := RetroPlayer(prog, tl, platform, p, times, 0).prog;
            Counts(after, k) && |after[k].counts| == TEAM
            && (after[k].counts[s] != prog[k].counts[s] <==>
                exists j :: 0 <= j < stop && Names(tl, platform, p, times[j], k, s))
            && (forall j | 0 <= j < stop && Names(tl, platform, p, times[j], k, s) ::
                  Foreign(log, tl, platform, p, times[j]))
  {
    hide RetroPlayer, StopAt, Visits;
    var times := LaterGames(tl, p, ts);
    var stop := StopAt(prog, tl, platform, p, times, 0);
    PassMovesBy(prog, tl, platform, p, ts, k, s);
    NoVisits(tl, platform, p, times, stop, k, s);
    forall j | 0 <= j < stop && Names(tl, platform, p, times[j], k, s) ensures Foreign(log, tl, platform, p, times[j]) {
      var o :| Owner(log, tl, TlKey(p, times[j]), o);
    }
  }

  /** Nobody else's slot moves in the pass of `p` if and only if no entry it reaches carries the number and a slot that
      in the counted match of that number on this platform is somebody else's. */
  lemma NobodyElseMovesIff(prog: ProgressTable, tl: Timeline, log: Log, platform: Platform, p: nat, ts: nat)
    requires TablesOk(tl, prog) && OwnedEntries(tl, log)
    requires forall k | Counts(prog, k) :: k in log && |log[k].players| == TEAM
    ensures var times := LaterGames(tl, p, ts);
            var stop := StopAt(prog, tl, platform, p, times, 0);
            var after := RetroPlayer(prog, tl, platform, p, times, 0).prog;
            (forall k, s | Counts(prog, k) && 0 <= s < TEAM && log[k].players[s] != p ::
               Counts(after, k) && |after[k].counts| == TEAM && after[k].counts[s] == prog[k].counts[s])
            <==>
            (forall j | 0 <= j < stop ::
               var k := LooksUp(tl, platform, p, times[j]);
               Counts(prog, k) ==> log[k].players[tl[TlKey(p, times[j])].slot] == p)
  {
    hide RetroPlayer, StopAt, Visits;
    var times := LaterGames(tl, p, ts);
    var stop := StopAt(prog, tl, platform, p, times, 0);
    forall k, s | Counts(prog, k) && 0 <= s < TEAM && log[k].players[s] != p
      ensures var after := RetroPlayer(prog, tl, platform, p, times, 0).prog;
              Counts(after, k) && |after[k].counts| == TEAM
              && (after[k].counts[s] != prog[k].counts[s] <==>
                  exists j :: 0 <= j < stop && Names(tl, platform, p, times[j], k, s))
    {
      StrangerMovesIff(prog, tl, log, platform, p, ts, k, s);
    }
    forall j | 0 <= j < stop && Counts(prog, LooksUp(tl, platform, p, times[j]))
      ensures tl[TlKey(p, times[j])].slot < TEAM
      ensures Names(tl, platform, p, times[j], LooksUp(tl, platform, p, times[j]), tl[TlKey(p, times[j])].slot)
    {
    }
  }

  // ---- the whole transaction ----

  /** How far the passes of the first `n` players move slot `s` of `k`, each pass on the records the ones before
      left. */
  function AllVisits(prog: ProgressTable, tl: Timeline, platform: Platform, pids: seq<nat>, ts: nat, n: nat,
                     k: GameKey, s: nat)
    : nat
    requires n <= |pids| && TablesOk(tl, prog)
  {
    if n == 0 then 0
    else
      var cur := RetroAll(prog, tl, platform, pids, ts, n - 1).prog;
      var times := LaterGames(tl, pids[n - 1], ts);
      AllVisits(prog, tl, platform, pids, ts, n - 1, k, s)
      + Visits(tl, platform, pids[n - 1], times, StopAt(cur, tl, platform, pids[n - 1], times, 0), k, s)
  }

  /** The ten passes together, and a slot full before them is left alone. */
  lemma {:induction false} AllMovesBy(prog: ProgressTable, tl: Timeline, platform: Platform, pids: seq<nat>, ts: nat,
                                      n: nat, k: GameKey, s: nat)
    requires n <= |pids| && TablesOk(tl, prog) && Counts(prog, k) && s < TEAM
    ensures var after := RetroAll(prog, tl, platform, pids, ts, n).prog;
            Counts(after, k) && |after[k].counts| == TEAM
            && after[k].counts[s] == prog[k].counts[s] + AllVisits(prog, tl, platform, pids, ts, n, k, s)
    ensures prog[k].counts[s] >= HISTORY_REQUIRED ==> AllVisits(prog, tl, platform, pids, ts, n, k, s) == 0
  {
    hide RetroPlayer, StopAt, Visits;
    if n > 0 {
      AllMovesBy(prog, tl, platform, pids, ts, n - 1, k, s);
      var cur := RetroAll(prog, tl, platform, pids, ts, n - 1).prog;
      PassMovesBy(cur, tl, platform, pids[n - 1], ts, k, s);
      if prog[k].counts[s] >= HISTORY_REQUIRED {
        FullStays(cur, tl, platform, pids[n - 1], LaterGames(tl, pids[n - 1], ts), k, s);
      }
    }
  }

  /** The passes add no record and turn no remake's marker into one. */
  lemma {:induction false} PassKeepsKinds(prog: ProgressTable, tl: Timeline, platform: Platform, pids: seq<nat>,
                                          ts: nat, n: nat)
    requires n <= |pids| && TablesOk(tl, prog)
    ensures forall k :: Counts(RetroAll(prog, tl, platform, pids, ts, n).prog, k) <==> Counts(prog, k)
  {
    hide RetroPlayer, StopAt, Visits;
    if n > 0 {
      PassKeepsKinds(prog, tl, platform, pids, ts, n - 1);
      var cur := RetroAll(prog, tl, platform, pids, ts, n - 1).prog;
      var times := LaterGames(tl, pids[n - 1], ts);
      assert Ahead(cur, cur, tl, platform, pids[n - 1], times, 0) by { NoneVisited(tl, platform, pids[n - 1], times); }
      PassMoves(cur, cur, tl, platform, pids[n - 1], times, 0);
    }
  }

  lemma NoneVisited(tl: Timeline, platform: Platform, p: nat, times: seq<nat>)
    requires Entered(tl, p, times)
    ensures forall k, s :: Visits(tl, platform, p, times, 0, k, s) == 0
  {
  }

  /** What storing `g` adds to the true count of player `p` in a match that started at `ts`. */
  function Owed(g: Game, p: nat, ts: nat): nat {
    if p in g.players && g.ts < ts then 1 else 0
  }

  lemma CountOwed(log: Log, key: GameKey, g: Game, p: nat, ts: nat)
    requires key !in log
    ensures |GamesBefore(log[key := g], p, ts)| == |GamesBefore(log, p, ts)| + Owed(g, p, ts)
  {
    if p in g.players && g.ts < ts {
      OneMoreGame(log, key, g, p, ts);
    } else {
      assert GamesBefore(log[key := g], p, ts) == GamesBefore(log, p, ts);
    }
  }

  /** For any stored matches whatever, and any slot of any counted record of them: a slot right before the transaction
      is right after it if and only if it was full already or the ten passes move it by exactly what the new match
      adds. */
  lemma StoredCountIff(db: Db, log: Log, m: MatchIn, pids: seq<nat>, paused: bool, h: GameKey, i: nat)
    requires TablesOk(db.timeline, db.progress) && |pids| == TEAM && m.Key() !in db.progress && m.Key() !in log
    requires h in log && Counts(db.progress, h) && i < |log[h].players| && i < TEAM
    requires db.progress[h].counts[i] == Cap(|GamesBefore(log, log[h].players[i], log[h].ts)|)
    ensures var g := Game(m.ts, pids);
            var prog := db.progress[m.Key() := FreshProgress(db.timeline, pids, m.ts)];
            var tl := InsertGames(db.timeline, pids, m.ts, m.gid, TEAM);
            var after := CountMatch(db, m, pids, paused).0.progress;
            TablesOk(tl, prog) && Counts(after, h) && |after[h].counts| == TEAM
            && (after[h].counts[i] == Cap(|GamesBefore(log[m.Key() := g], log[h].players[i], log[h].ts)|) <==>
                db.progress[h].counts[i] >= HISTORY_REQUIRED
                || AllVisits(prog, tl, m.platform, pids, m.ts, TEAM, h, i) == Owed(g, log[h].players[i], log[h].ts))
  {
    hide RetroAll, AllVisits, InsertGames, SightAll, GamesBefore;
    var g := Game(m.ts, pids);
    var prog := db.progress[m.Key() := FreshProgress(db.timeline, pids, m.ts)];
    var tl := InsertGames(db.timeline, pids, m.ts, m.gid, TEAM);
    InsertedOk(db.timeline, pids, m.ts, m.gid, TEAM);
    CountOwed(log, m.Key(), g, log[h].players[i], log[h].ts);
    AllMovesBy(prog, tl, m.platform, pids, m.ts, TEAM, h, i);
  }

  // ---- when no number is shared across platforms ----

  /** No two matches carry one number. */
  ghost predicate OneNumber(log: Log) {
    forall o, o' | o in log && o' in log && o.gid == o'.gid :: o == o'
  }

  /** No slot holds more than its player's true count. */
  ghost predicate NeverOver(prog: ProgressTable, log: Log) {
    forall k, s: nat | k in log && Counts(prog, k) && s < |log[k].players| && s < |prog[k].counts| ::
      prog[k].counts[s] <= Cap(|GamesBefore(log, log[k].players[s], log[k].ts)|)
  }

  /** Then an entry names a slot of a stored match only if it is the slot's player's own, at that match's start. */
  lemma OwnName(tl: Timeline, log: Log, platform: Platform, q: nat, t: nat, h: GameKey, i: nat)
    requires OneNumber(log) && OwnedEntries(tl, log) && h in log && TlKey(q, t) in tl
    requires Names(tl, platform, q, t, h, i)
    ensures t == log[h].ts && i < |log[h].players| && log[h].players[i] == q
  {
    var o :| Owner(log, tl, TlKey(q, t), o);
  }

  /** A pass of the slot's player reaches it at most once; a pass of anyone else does not. */
  lemma PassVisits(tl: Timeline, log: Log, platform: Platform, q: nat, ts: nat, n: nat, h: GameKey, i: nat)
    requires OneNumber(log) && OwnedEntries(tl, log) && h in log && i < |log[h].players|
    requires n <= |LaterGames(tl, q, ts)|
    ensures var times := LaterGames(tl, q, ts);
            && Visits(tl, platform, q, times, n, h, i) <= 1
            && (Visits(tl, platform, q, times, n, h, i) == 1 <==>
                  exists j :: 0 <= j < n && times[j] == log[h].ts && Names(tl, platform, q, times[j], h, i))
            && (q != log[h].players[i] ==> Visits(tl, platform, q, times, n, h, i) == 0)
  {
    hide Visits, Names, OneNumber, OwnedEntries;
    var times := LaterGames(tl, q, ts);
    NoVisits(tl, platform, q, times, n, h, i);
    forall j | 0 <= j < |times| && Names(tl, platform, q, times[j], h, i)
      ensures times[j] == log[h].ts && log[h].players[i] == q
    {
      OwnName(tl, log, platform, q, times[j], h, i);
    }
    if own :| 0 <= own < n && Names(tl, platform, q, times[own], h, i) {
      forall j | 0 <= j < |times| && j != own ensures !Names(tl, platform, q, times[j], h, i) {
        assert times[j] != times[own];
      }
      OneVisit(tl, platform, q, times, n, own, h, i);
    }
  }

  /** Passes of other players leave the slot alone. */
  lemma {:induction false} OthersLeave(prog: ProgressTable, tl: Timeline, log: Log, platform: Platform, pids: seq<nat>,
                                       ts: nat, m: nat, n: nat, h: GameKey, i: nat)
    requires m <= n <= |pids| && TablesOk(tl, prog) && OneNumber(log) && OwnedEntries(tl, log)
    requires h in log && i < |log[h].players| && log[h].players[i] !in pids[m..n]
    ensures AllVisits(prog, tl, platform, pids, ts, n, h, i) == AllVisits(prog, tl, platform, pids, ts, m, h, i)
    decreases n
  {
    hide Visits, StopAt, OneNumber, OwnedEntries, RetroAll;
    if m < n {
      assert pids[m..n] == pids[m..n - 1] + [pids[n - 1]];
      OthersLeave(prog, tl, log, platform, pids, ts, m, n - 1, h, i);
      var cur := RetroAll(prog, tl, platform, pids, ts, n - 1).prog;
      var times := LaterGames(tl, pids[n - 1], ts);
      PassVisits(tl, log, platform, pids[n - 1], ts, StopAt(cur, tl, platform, pids[n - 1], times, 0), h, i);
    }
  }

  /** All ten passes move the slot as its player's own pass does. */
  lemma OwnPassOnly(prog: ProgressTable, tl: Timeline, log: Log, platform: Platform, pids: seq<nat>, ts: nat, j: nat,
                    h: GameKey, i: nat)
    requires j < |pids| && Distinct(pids) && TablesOk(tl, prog) && OneNumber(log) && OwnedEntries(tl, log)
    requires h in log && i < |log[h].players| && log[h].players[i] == pids[j]
    ensures var cur := RetroAll(prog, tl, platform, pids, ts, j).prog;
            var times := LaterGames(tl, pids[j], ts);
            AllVisits(prog, tl, platform, pids, ts, |pids|, h, i)
            == Visits(tl, platform, pids[j], times, StopAt(cur, tl, platform, pids[j], times, 0), h, i)
  {
    hide Visits, StopAt, OneNumber, OwnedEntries, RetroAll;
    assert AllVisits(prog, tl, platform, pids, ts, 0, h, i) == 0;
    assert pids[j] !in pids[0..j] && pids[j] !in pids[j + 1..|pids|];
    OthersLeave(prog, tl, log, platform, pids, ts, 0, j, h, i);
    OthersLeave(prog, tl, log, platform, pids, ts, j + 1, |pids|, h, i);
  }

  lemma NobodysPass(prog: ProgressTable, tl: Timeline, log: Log, platform: Platform, pids: seq<nat>, ts: nat,
                    h: GameKey, i: nat)
    requires TablesOk(tl, prog) && OneNumber(log) && OwnedEntries(tl, log)
    requires h in log && i < |log[h].players| && log[h].players[i] !in pids
    ensures AllVisits(prog, tl, platform, pids, ts, |pids|, h, i) == 0
  {
    hide Visits, StopAt, OneNumber, OwnedEntries, RetroAll;
    assert AllVisits(prog, tl, platform, pids, ts, 0, h, i) == 0;
    assert pids[0..|pids|] == pids;
    OthersLeave(prog, tl, log, platform, pids, ts, 0, |pids|, h, i);
  }

  /** The passes never move a slot by more than the new match adds to its true count. */
  lemma VisitsOwed(prog: ProgressTable, tl: Timeline, log: Log, platform: Platform, g: Game, h: GameKey, i: nat)
    requires Distinct(g.players) && TablesOk(tl, prog) && OneNumber(log) && OwnedEntries(tl, log)
    requires h in log && i < |log[h].players|
    ensures AllVisits(prog, tl, platform, g.players, g.ts, |g.players|, h, i)
         <= Owed(g, log[h].players[i], log[h].ts)
  {
    hide Visits, StopAt, OneNumber, OwnedEntries, RetroAll, AllVisits, Names;
    var p := log[h].players[i];
    if p in g.players {
      var j :| 0 <= j < |g.players| && g.players[j] == p;
      OwnPassOnly(prog, tl, log, platform, g.players, g.ts, j, h, i);
      var cur := RetroAll(prog, tl, platform, g.players, g.ts, j).prog;
      var times := LaterGames(tl, p, g.ts);
      PassVisits(tl, log, platform, p, g.ts, StopAt(cur, tl, platform, p, times, 0), h, i);
      assert forall a | 0 <= a < |times| :: times[a] in times && times[a] in Later(tl, p, g.ts);
    } else {
      NobodysPass(prog, tl, log, platform, g.players, g.ts, h, i);
    }
  }

  /** The player's own slots are as they were before anyone's pass. */
  ghost predicate OwnSlotsKept(prog: ProgressTable, cur: ProgressTable, log: Log, p: nat) {
    && (forall k :: Counts(cur, k) <==> Counts(prog, k))
    && (forall k, s: nat | k in log && Counts(prog, k) && s < |log[k].players| && s < TEAM && log[k].players[s] == p ::
          s < |prog[k].counts| && s < |cur[k].counts| && cur[k].counts[s] == prog[k].counts[s])
  }

  /** The pass is not cut short before a match of the player none of whose earlier slots is full. */
  lemma ReachesOwn(prog: ProgressTable, cur: ProgressTable, tl: Timeline, log: Log, platform: Platform, p: nat, ts: nat,
                   own: nat, j: nat)
    requires OneNumber(log) && OwnedEntries(tl, log) && TablesOk(tl, prog) && TablesOk(tl, cur)
    requires OwnSlotsKept(prog, cur, log, p) && forall k | Counts(prog, k) :: k in log
    requires j <= own < |LaterGames(tl, p, ts)|
    requires forall k, s: nat | k in log && Counts(prog, k) && s < |log[k].players| && s < TEAM
                             && log[k].players[s] == p && ts < log[k].ts <= LaterGames(tl, p, ts)[own] ::
               prog[k].counts[s] < HISTORY_REQUIRED
    ensures !Stops(cur, tl, platform, p, LaterGames(tl, p, ts), j)
  {
    hide Visits, OneNumber, OwnedEntries;
    var times := LaterGames(tl, p, ts);
    var k, s := LooksUp(tl, platform, p, times[j]), tl[TlKey(p, times[j])].slot;
    assert times[j] in times && times[j] in Later(tl, p, ts);
    if Counts(cur, k) {
      assert k in log && Names(tl, platform, p, times[j], k, s);
      OwnName(tl, log, platform, p, times[j], k, s);
      PassVisits(tl, log, platform, p, ts, j, k, s);
      assert times[j] <= times[own];
      assert prog[k].counts[s] < HISTORY_REQUIRED;
    }
  }

  /** So it moves the slot if and only if the match is on this platform and the player's entry at its start names it. */
  lemma OwnPass(prog: ProgressTable, cur: ProgressTable, tl: Timeline, log: Log, platform: Platform, p: nat, ts: nat,
                h: GameKey, i: nat)
    requires OneNumber(log) && OwnedEntries(tl, log) && TablesOk(tl, prog) && TablesOk(tl, cur)
    requires OwnSlotsKept(prog, cur, log, p) && forall k | Counts(prog, k) :: k in log
    requires h in log && i < |log[h].players| && log[h].players[i] == p && ts < log[h].ts && TlKey(p, log[h].ts) in tl
    requires forall k, s: nat | k in log && Counts(prog, k) && s < |log[k].players| && s < TEAM
                             && log[k].players[s] == p && ts < log[k].ts <= log[h].ts ::
               prog[k].counts[s] < HISTORY_REQUIRED
    ensures var times := LaterGames(tl, p, ts);
            Visits(tl, platform, p, times, StopAt(cur, tl, platform, p, times, 0), h, i)
            == if h.platform == platform && tl[TlKey(p, log[h].ts)] == TlVal(h.gid, i) then 1 else 0
  {
    hide Visits, OneNumber, OwnedEntries, Stops, OwnSlotsKept;
    var times := LaterGames(tl, p, ts);
    assert log[h].ts in Later(tl, p, ts);
    var own :| 0 <= own < |times| && times[own] == log[h].ts;
    forall j: nat | j <= own ensures !Stops(cur, tl, platform, p, times, j) {
      ReachesOwn(prog, cur, tl, log, platform, p, ts, own, j);
    }
    var stop := StopAt(cur, tl, platform, p, times, 0);
    assert stop > own;
    PassVisits(tl, log, platform, p, ts, stop, h, i);
    assert forall j | 0 <= j < |times| && times[j] == log[h].ts :: j == own;
  }

  /** The passes before a player's own leave that player's slots alone. */
  lemma SlotsKept(prog: ProgressTable, tl: Timeline, log: Log, platform: Platform, pids: seq<nat>, ts: nat, j: nat)
    requires j < |pids| && Distinct(pids) && TablesOk(tl, prog) && OneNumber(log) && OwnedEntries(tl, log)
    ensures OwnSlotsKept(prog, RetroAll(prog, tl, platform, pids, ts, j).prog, log, pids[j])
  {
    hide AllVisits, OneNumber, OwnedEntries, RetroAll;
    PassKeepsKinds(prog, tl, platform, pids, ts, j);
    forall k, s: nat | k in log && Counts(prog, k) && s < |log[k].players| && s < TEAM && log[k].players[s] == pids[j]
      ensures s < |prog[k].counts| && s < |RetroAll(prog, tl, platform, pids, ts, j).prog[k].counts|
      ensures RetroAll(prog, tl, platform, pids, ts, j).prog[k].counts[s] == prog[k].counts[s]
    {
      AllMovesBy(prog, tl, platform, pids, ts, j, k, s);
      assert pids[j] !in pids[0..j];
      OthersLeave(prog, tl, log, platform, pids, ts, 0, j, k, s);
      NoVisitsYet(prog, tl, platform, pids, ts, k, s);
    }
  }

  lemma NoVisitsYet(prog: ProgressTable, tl: Timeline, platform: Platform, pids: seq<nat>, ts: nat, k: GameKey, s: nat)
    requires TablesOk(tl, prog)
    ensures AllVisits(prog, tl, platform, pids, ts, 0, k, s) == 0
  {
  }

  /** Tables whose entries and records belong to stored matches, and none of whose counts is too high. */
  ghost predicate Unshared(db: Db, log: Log) {
    && TablesOk(db.timeline, db.progress) && KeysExact(db.timeline, log) && OwnedEntries(db.timeline, log)
    && NeverOver(db.progress, log)
    && forall k | Counts(db.progress, k) :: k in log && |log[k].players| == TEAM
  }

  /** The tables the passes of a new match start from. */
  lemma PassTables(db: Db, log: Log, m: MatchIn, pids: seq<nat>)
    requires Unshared(db, log) && |pids| == TEAM && Distinct(pids) && m.Key() !in log
    ensures var tl := InsertGames(db.timeline, pids, m.ts, m.gid, TEAM);
            var prog := db.progress[m.Key() := FreshProgress(db.timeline, pids, m.ts)];
            var log' := log[m.Key() := Game(m.ts, pids)];
            && TablesOk(tl, prog) && KeysExact(tl, log') && OwnedEntries(tl, log')
            && (forall k | Counts(prog, k) :: k in log')
            && (forall e | e in db.timeline && e.ts > m.ts :: e in tl && tl[e] == db.timeline[e])
  {
    hide InsertGames, KeysExact, OwnedEntries, NeverOver, FreshProgress;
    InsertedOk(db.timeline, pids, m.ts, m.gid, TEAM);
    KeysStayExact(db.timeline, log, m.Key(), Game(m.ts, pids));
    OwnedStay(db.timeline, log, m.Key(), Game(m.ts, pids));
    InsertedGames(db.timeline, pids, m.ts, m.gid, TEAM);
    FreshCounts(db.timeline, pids, m.ts);
  }

  lemma FreshCounts(tl: Timeline, pids: seq<nat>, ts: nat)
    ensures var r := FreshProgress(tl, pids, ts);
            r.Slots? && |r.counts| == |pids|
            && forall i | 0 <= i < |pids| :: r.counts[i] == Cap(|Before(tl, pids[i], ts)|)
  {
  }

  lemma MoreBefore(log: Log, p: nat, t: nat, u: nat)
    requires t <= u
    ensures |GamesBefore(log, p, t)| <= |GamesBefore(log, p, u)|
  {
    var a, b := GamesBefore(log, p, t), GamesBefore(log, p, u);
    assert a <= b;
    assert b == a + (b - a);
  }

  /** Before a slot that is right and not full, the player has no full one. */
  lemma NoFullBefore(prog: ProgressTable, log: Log, h: GameKey, i: nat, k: GameKey, s: nat)
    requires NeverOver(prog, log) && h in log && i < |log[h].players| && k in log && s < |log[k].players|
    requires Counts(prog, k) && s < |prog[k].counts| && log[k].players[s] == log[h].players[i] && log[k].ts <= log[h].ts
    requires |GamesBefore(log, log[h].players[i], log[h].ts)| < HISTORY_REQUIRED
    ensures prog[k].counts[s] < HISTORY_REQUIRED
  {
    hide GamesBefore;
    MoreBefore(log, log[h].players[i], log[k].ts, log[h].ts);
  }

  /** How far the transaction moves a slot that is not full, when no number is shared. */
  lemma UnsharedVisits(db: Db, log: Log, m: MatchIn, pids: seq<nat>, h: GameKey, i: nat)
    requires Unshared(db, log) && |pids| == TEAM && Distinct(pids) && m.Key() !in log
    requires OneNumber(log[m.Key() := Game(m.ts, pids)])
    requires h in log && Counts(db.progress, h) && i < TEAM && i < |log[h].players|
    requires log[h].players[i] in pids && m.ts < log[h].ts
    requires |GamesBefore(log, log[h].players[i], log[h].ts)| < HISTORY_REQUIRED
    ensures TlKey(log[h].players[i], log[h].ts) in db.timeline
    ensures var tl := InsertGames(db.timeline, pids, m.ts, m.gid, TEAM);
            var prog := db.progress[m.Key() := FreshProgress(db.timeline, pids, m.ts)];
            TablesOk(tl, prog)
            && AllVisits(prog, tl, m.platform, pids, m.ts, TEAM, h, i)
            == if h.platform == m.platform && db.timeline[TlKey(log[h].players[i], log[h].ts)] == TlVal(h.gid, i) then 1
               else 0
  {
    PassTables(db, log, m, pids);
    var p := log[h].players[i];
    assert p in log[h].players;
    assert TlKey(p, log[h].ts) in db.timeline;
    var tl := InsertGames(db.timeline, pids, m.ts, m.gid, TEAM);
    var prog := db.progress[m.Key() := FreshProgress(db.timeline, pids, m.ts)];
    var log' := log[m.Key() := Game(m.ts, pids)];
    hide InsertGames, FreshProgress, AllVisits, Visits, StopAt, OwnSlotsKept, GamesBefore, OwnedEntries, KeysExact,
         NeverOver, OneNumber, RetroAll;
    var j :| 0 <= j < |pids| && pids[j] == p;
    OwnPassOnly(prog, tl, log', m.platform, pids, m.ts, j, h, i);
    SlotsKept(prog, tl, log', m.platform, pids, m.ts, j);
    forall k, s: nat | k in log' && Counts(prog, k) && s < |log'[k].players| && s < TEAM && log'[k].players[s] == p
                    && m.ts < log'[k].ts <= log'[h].ts
      ensures prog[k].counts[s] < HISTORY_REQUIRED
    {
      NoFullBefore(db.progress, log, h, i, k, s);
    }
    OwnPass(prog, RetroAll(prog, tl, m.platform, pids, m.ts, j).prog, tl, log', m.platform, p, m.ts, h, i);
  }

  /** When no number is shared across platforms and no count is too high, a right slot of a stored match stays right
      through the transaction if and only if it was full, or the new match is no earlier one of its player, or its match
      is on the new one's platform and the player's entry at its start, before the transaction, names it. */
  lemma StoredOwnIff(db: Db, log: Log, m: MatchIn, pids: seq<nat>, paused: bool, h: GameKey, i: nat)
    requires Unshared(db, log) && |pids| == TEAM && Distinct(pids) && m.Key() !in log && m.Key() !in db.progress
    requires OneNumber(log[m.Key() := Game(m.ts, pids)])
    requires h in log && Counts(db.progress, h) && i < TEAM && i < |log[h].players|
    requires db.progress[h].counts[i] == Cap(|GamesBefore(log, log[h].players[i], log[h].ts)|)
    ensures var p, t := log[h].players[i], log[h].ts;
            var after := CountMatch(db, m, pids, paused).0.progress;
            TlKey(p, t) in db.timeline && Counts(after, h) && |after[h].counts| == TEAM
            && (after[h].counts[i] == Cap(|GamesBefore(log[m.Key() := Game(m.ts, pids)], p, t)|) <==>
                || db.progress[h].counts[i] >= HISTORY_REQUIRED
                || p !in pids || t <= m.ts
                || (h.platform == m.platform && db.timeline[TlKey(p, t)] == TlVal(h.gid, i)))
  {
    PassTables(db, log, m, pids);
    var p := log[h].players[i];
    assert p in log[h].players;
    assert TlKey(p, log[h].ts) in db.timeline;
    hide InsertGames, FreshProgress, AllVisits, CountMatch, GamesBefore, OwnedEntries, KeysExact, NeverOver, OneNumber;
    var tl := InsertGames(db.timeline, pids, m.ts, m.gid, TEAM);
    var prog := db.progress[m.Key() := FreshProgress(db.timeline, pids, m.ts)];
    var log' := log[m.Key() := Game(m.ts, pids)];
    StoredCountIff(db, log, m, pids, paused, h, i);
    VisitsOwed(prog, tl, log', m.platform, Game(m.ts, pids), h, i);
    if db.progress[h].counts[i] < HISTORY_REQUIRED && p in pids && m.ts < log[h].ts {
      UnsharedVisits(db, log, m, pids, h, i);
    }
  }

  /** And no count becomes too high: with no number shared, every record stays at or below the true counts. */
  lemma NeverOverStays(db: Db, log: Log, m: MatchIn, pids: seq<nat>, paused: bool)
    requires Unshared(db, log) && |pids| == TEAM && Distinct(pids) && m.Key() !in log && m.Key() !in db.progress
    requires OneNumber(log[m.Key() := Game(m.ts, pids)])
    ensures NeverOver(CountMatch(db, m, pids, paused).0.progress, log[m.Key() := Game(m.ts, pids)])
  {
    PassTables(db, log, m, pids);
    var tl := InsertGames(db.timeline, pids, m.ts, m.gid, TEAM);
    var prog := db.progress[m.Key() := FreshProgress(db.timeline, pids, m.ts)];
    var log' := log[m.Key() := Game(m.ts, pids)];
    var after := CountMatch(db, m, pids, paused).0.progress;
    CountedProgress(db, m, pids, paused);
    hide InsertGames, FreshProgress, AllVisits, CountMatch, GamesBefore, OwnedEntries, KeysExact, OneNumber, RetroAll;
    PassKeepsKinds(prog, tl, m.platform, pids, m.ts, TEAM);
    forall k, s: nat | k in log' && Counts(after, k) && s < |log'[k].players| && s < |after[k].counts|
      ensures after[k].counts[s] <= Cap(|GamesBefore(log', log'[k].players[s], log'[k].ts)|)
    {
      NotTooHigh(db, log, m, pids, k, s);
    }
  }

  lemma CountedProgress(db: Db, m: MatchIn, pids: seq<nat>, paused: bool)
    requires TablesOk(db.timeline, db.progress) && |pids| == TEAM
    ensures var tl := InsertGames(db.timeline, pids, m.ts, m.gid, TEAM);
            var prog := db.progress[m.Key() := FreshProgress(db.timeline, pids, m.ts)];
            TablesOk(tl, prog)
            && CountMatch(db, m, pids, paused).0.progress == RetroAll(prog, tl, m.platform, pids, m.ts, TEAM).prog
  {
    hide InsertGames, RetroAll, SightAll;
    InsertedOk(db.timeline, pids, m.ts, m.gid, TEAM);
  }

  /** Before the passes no slot is too high either, the new match's own included. */
  lemma BeforePasses(db: Db, log: Log, m: MatchIn, pids: seq<nat>, k: GameKey, s: nat)
    requires Unshared(db, log) && |pids| == TEAM && m.Key() !in log
    requires var log' := log[m.Key() := Game(m.ts, pids)];
             k in log' && s < |log'[k].players| && s < TEAM
             && Counts(db.progress[m.Key() := FreshProgress(db.timeline, pids, m.ts)], k)
    ensures var prog := db.progress[m.Key() := FreshProgress(db.timeline, pids, m.ts)];
            var log' := log[m.Key() := Game(m.ts, pids)];
            s < |prog[k].counts|
            && prog[k].counts[s] <= Cap(|GamesBefore(log, log'[k].players[s], log'[k].ts)|)
  {
    FreshCounts(db.timeline, pids, m.ts);
    hide FreshProgress, GamesBefore, OwnedEntries, KeysExact, Before;
    if k == m.Key() {
      BeforeSizes(db.timeline, log, pids[s], m.ts);
    }
  }

  lemma NotTooHigh(db: Db, log: Log, m: MatchIn, pids: seq<nat>, k: GameKey, s: nat)
    requires Unshared(db, log) && |pids| == TEAM && Distinct(pids) && m.Key() !in log
    requires OneNumber(log[m.Key() := Game(m.ts, pids)])
    requires var log' := log[m.Key() := Game(m.ts, pids)];
             k in log' && s < |log'[k].players| && s < TEAM
             && Counts(db.progress[m.Key() := FreshProgress(db.timeline, pids, m.ts)], k)
    ensures var tl := InsertGames(db.timeline, pids, m.ts, m.gid, TEAM);
            var prog := db.progress[m.Key() := FreshProgress(db.timeline, pids, m.ts)];
            var log' := log[m.Key() := Game(m.ts, pids)];
            TablesOk(tl, prog)
            && var after := RetroAll(prog, tl, m.platform, pids, m.ts, TEAM).prog;
               Counts(after, k) && |after[k].counts| == TEAM
               && after[k].counts[s] <= Cap(|GamesBefore(log', log'[k].players[s], log'[k].ts)|)
  {
    PassTables(db, log, m, pids);
    BeforePasses(db, log, m, pids, k, s);
    hide InsertGames, FreshProgress, AllVisits, GamesBefore, OwnedEntries, KeysExact, OneNumber, RetroAll, Unshared,
         TablesOk, Owed;
    var tl := InsertGames(db.timeline, pids, m.ts, m.gid, TEAM);
    var prog := db.progress[m.Key() := FreshProgress(db.timeline, pids, m.ts)];
    var g := Game(m.ts, pids);
    var log' := log[m.Key() := g];
    AllMovesBy(prog, tl, m.platform, pids, m.ts, TEAM, k, s);
    VisitsOwed(prog, tl, log', m.platform, g, k, s);
    CountOwed(log, m.Key(), g, log'[k].players[s], log'[k].ts);
  }
}
