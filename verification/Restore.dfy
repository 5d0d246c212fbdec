/**
 Storing a match that is already stored: after any number of fetches, crashes and
 refetches the derived state is counted once.
 */
module Restore {
  import opened StoreSpec
  import opened PlayerIds
  import opened ProgressProof
  import opened ProgressExact
  import opened StoreRun

  /** Storing a match that has a record, and whose players are known, changes no table at all; the record is only
      queued again for the segment. */
  lemma RestoreChangesNothing(s: State, m: MatchIn, paused: bool, pids: seq<nat>)
    requires Enabled(s, Txn(m, paused)) && m.Key() in s.db.progress && Bound(s.db.players, m.puuids, pids)
    ensures Next(s, Txn(m, paused)) == s.(phase := Appending(Rec(m.Key(), m.puuids, pids)))
  {
    hide AssignIds, TablesOk, CountMatch, Bound;
    AssignKnown(s.db.players, s.next, m.puuids, pids, |m.puuids|);
    BoundLength(s.db.players, m.puuids, pids);
    assert pids[..|m.puuids|] == pids;
  }

  /** Storing makes the record: the guard holds from then on. */
  lemma StoredIsGuarded(s: State, m: MatchIn, paused: bool)
    requires Enabled(s, Txn(m, paused)) && IdsOk(s.db.players, s.next)
    ensures var s' := Next(s, Txn(m, paused));
            m.Key() in s'.db.progress && Bound(s'.db.players, m.puuids, s'.phase.rec.pids)
  {
    hide Bound, IdsOk, AssignIds, TablesOk, RetroPlayer, SightAll, FreshProgress, InsertGames, RetroAll;
    AssignKeeps(s.db.players, s.next, m.puuids);
    TxnPlayers(s.db, s.next, m, paused);
    if m.Key() !in s.db.progress && !m.remake {
      var ids := AssignIds(s.db.players, s.next, m.puuids, TEAM);
      CountedHasRecord(s.db.(players := ids.players), m, ids.pids, paused);
    }
  }

  lemma CountedHasRecord(db: Db, m: MatchIn, pids: seq<nat>, paused: bool)
    requires |pids| == TEAM && TablesOk(db.timeline, db.progress)
    ensures m.Key() in CountMatch(db, m, pids, paused).0.progress
  {
    hide TablesOk, RetroAll, FreshProgress, SightAll, InsertGames;
    var tl := InsertGames(db.timeline, pids, m.ts, m.gid, |pids|);
    assert TablesOk(tl, db.progress[m.Key() := FreshProgress(db.timeline, pids, m.ts)]) by { Shapes(db, m, pids); }
    RetroAllKeeps(db.progress[m.Key() := FreshProgress(db.timeline, pids, m.ts)], tl, m.platform, pids, m.ts, |pids|,
                  m.Key());
  }

  lemma Shapes(db: Db, m: MatchIn, pids: seq<nat>)
    requires |pids| == TEAM && TablesOk(db.timeline, db.progress)
    ensures TablesOk(InsertGames(db.timeline, pids, m.ts, m.gid, |pids|),
                     db.progress[m.Key() := FreshProgress(db.timeline, pids, m.ts)])
  {
    hide InsertGames, FreshProgress;
    InsertedOk(db.timeline, pids, m.ts, m.gid, |pids|);
    FreshShape(db.timeline, pids, m.ts);
  }

  lemma {:induction false} RetroPlayerKeeps(prog: ProgressTable, tl: Timeline, platform: Platform, p: nat,
                                            times: seq<nat>, i: nat, key: GameKey)
    requires i <= |times| && TablesOk(tl, prog) && key in prog
    requires forall j | 0 <= j < |times| :: TlKey(p, times[j]) in tl
    ensures key in RetroPlayer(prog, tl, platform, p, times, i).prog
    decreases |times| - i
  {
    hide BumpSlot;
    if i < |times| {
      var v := tl[TlKey(p, times[i])];
      var k := GameKey(platform, v.gid);
      if k !in prog || prog[k].Remake? {
        RetroPlayerKeeps(prog, tl, platform, p, times, i + 1, key);
      } else if prog[k].counts[v.slot] < HISTORY_REQUIRED {
        RetroPlayerKeeps(prog[k := BumpSlot(prog[k], v.slot)], tl, platform, p, times, i + 1, key);
      }
    }
  }

  lemma {:induction false} RetroAllKeeps(prog: ProgressTable, tl: Timeline, platform: Platform, pids: seq<nat>,
                                         ts: nat, n: nat, key: GameKey)
    requires n <= |pids| && TablesOk(tl, prog) && key in prog
    ensures key in RetroAll(prog, tl, platform, pids, ts, n).prog
  {
    hide RetroPlayer, TablesOk;
    if n > 0 {
      RetroAllKeeps(prog, tl, platform, pids, ts, n - 1, key);
      var times := Sorted(Later(tl, pids[n - 1], ts));
      forall j | 0 <= j < |times| ensures TlKey(pids[n - 1], times[j]) in tl {
        assert times[j] in times;
      }
      RetroPlayerKeeps(RetroAll(prog, tl, platform, pids, ts, n - 1).prog, tl, platform, pids[n - 1], times, 0, key);
    }
  }

  /** Whoever its players are, a match with a record changes nothing but the table of player ids. */
  lemma RestoreCountsNothing(s: State, m: MatchIn, paused: bool)
    requires Enabled(s, Txn(m, paused)) && m.Key() in s.db.progress
    ensures Next(s, Txn(m, paused)).db == s.db.(players := Next(s, Txn(m, paused)).db.players)
  {
    hide AssignIds, TablesOk, CountMatch;
  }

  // ---- records stay ----

  ghost predicate RecordsKept(a: ProgressTable, b: ProgressTable) {
    forall k | k in a :: k in b
  }

  lemma TxnKeepsRecords(db: Db, next: nat, m: MatchIn, paused: bool)
    requires TablesOk(db.timeline, db.progress) && |m.puuids| == TEAM
    ensures RecordsKept(db.progress, StoreTxn(db, next, m, paused).db.progress)
  {
    hide TablesOk, AssignIds, CountMatch;
    var ids := AssignIds(db.players, next, m.puuids, |m.puuids|);
    if m.Key() !in db.progress && !m.remake {
      CountKeepsRecords(db.(players := ids.players), m, ids.pids, paused);
    }
  }

  lemma CountKeepsRecords(db: Db, m: MatchIn, pids: seq<nat>, paused: bool)
    requires |pids| == TEAM && TablesOk(db.timeline, db.progress)
    ensures RecordsKept(db.progress, CountMatch(db, m, pids, paused).0.progress)
  {
    hide TablesOk, RetroAll, FreshProgress, SightAll, InsertGames;
    var tl := InsertGames(db.timeline, pids, m.ts, m.gid, |pids|);
    var prog := db.progress[m.Key() := FreshProgress(db.timeline, pids, m.ts)];
    Shapes(db, m, pids);
    forall k | k in db.progress ensures k in CountMatch(db, m, pids, paused).0.progress {
      RetroAllKeeps(prog, tl, m.platform, pids, m.ts, |pids|, k);
    }
  }

  /** What would survive a crash is in the live table too. */
  lemma {:induction false} DurableIsLive(steps: seq<Step>, n: nat)
    requires n <= |steps|
    ensures var s := Run(steps, n).0; RecordsKept(s.durable.progress, s.db.progress)
  {
    hide StoreTxn, AssignIds, TablesOk, LogAfter, NextFree;
    if n > 0 {
      DurableIsLive(steps, n - 1);
      var s := Run(steps, n - 1).0;
      if Enabled(s, steps[n - 1]) && steps[n - 1].Txn? {
        TxnKeepsRecords(s.db, s.next, steps[n - 1].m, steps[n - 1].paused);
      }
    }
  }

  /** Once a match's record is durable it is in the live table at every later point of the run, crashes included: from
      then on storing the match again counts nothing. */
  lemma {:induction false} CountedOnce(steps: seq<Step>, m: nat, n: nat, key: GameKey)
    requires m <= n <= |steps| && key in Run(steps, m).0.durable.progress
    ensures key in Run(steps, n).0.durable.progress && key in Run(steps, n).0.db.progress
    decreases n
  {
    hide StoreTxn, AssignIds, TablesOk, LogAfter, NextFree;
    DurableIsLive(steps, n);
    if m < n {
      CountedOnce(steps, m, n - 1, key);
      DurableIsLive(steps, n - 1);
    }
  }
}
