/**
 The store itself: in-memory caches over the live tables, segment buffers, and
 what a crash leaves behind. Every operation is the corresponding run of steps of
 the state machine.
 */
module Store {
  import opened StoreSpec
  import opened PlayerIds
  import opened StoreRun
  import opened Restore

  // ---- scans ----

  /** A scan yields every element once. */
  lemma {:induction false} ScanSize(times: seq<nat>, s: set<nat>)
    requires Scan(times, s)
    ensures |times| == |s|
    decreases |times|
  {
    if times == [] {
      assert s == {};
    } else {
      var last := times[|times| - 1];
      var rest := times[..|times| - 1];
      forall t ensures t in s - {last} <==> t in rest {
        if t in s - {last} {
          var i :| 0 <= i < |times| && times[i] == t;
          assert rest[i] == t;
        }
        if t in rest {
          var i :| 0 <= i < |rest| && rest[i] == t;
          assert times[i] == t && times[i] < last;
        }
      }
      assert last in times;
      ScanSize(rest, s - {last});
    }
  }

  /** Stored predecessors of `pid`, newest first, no further than the history depth. */
  method CountPredecessors(tl: Timeline, pid: nat, ts: nat) returns (c: nat)
    ensures c == Cap(|Before(tl, pid, ts)|)
  {
    var times := Sorted(Before(tl, pid, ts));
    ScanSize(times, Before(tl, pid, ts));
    c := 0;
    for i := |times| downto 0
      invariant c == |times| - i && c < HISTORY_REQUIRED
    {
      c := c + 1;
      if c >= HISTORY_REQUIRED {
        break;
      }
    }
  }

  /** Counts for all slots of a new match, and whether they are all full. */
  method CountSlots(tl: Timeline, pids: seq<nat>, ts: nat) returns (pr: Progress)
    ensures pr == FreshProgress(tl, pids, ts) && pr.Slots?
  {
    hide Before;
    var counts: seq<nat> := [];
    var full := true;
    for i := 0 to |pids|
      invariant |counts| == i
      invariant forall j | 0 <= j < i :: counts[j] == Cap(|Before(tl, pids[j], ts)|)
      invariant full <==> forall j | 0 <= j < i :: counts[j] >= HISTORY_REQUIRED
    {
      var c := CountPredecessors(tl, pids[i], ts);
      counts := counts + [c];
      full := full && c >= HISTORY_REQUIRED;
    }
    assert counts == FreshProgress(tl, pids, ts).counts;
    pr := Slots(counts, full);
  }

  function InsertPlayers(players: Players, added: seq<(Puuid, nat)>, n: nat): Players
    requires n <= |added|
  {
    if n == 0 then players else InsertPlayers(players, added, n - 1)[added[n - 1].0 := added[n - 1].1]
  }

  lemma {:induction false} InsertMore(players: Players, a: seq<(Puuid, nat)>, x: (Puuid, nat), n: nat)
    requires n <= |a|
    ensures InsertPlayers(players, a + [x], n) == InsertPlayers(players, a, n)
  {
    if n > 0 {
      InsertMore(players, a, x, n - 1);
      assert (a + [x])[n - 1] == a[n - 1];
    }
  }

  // ---- runs of steps ----

  ghost predicate TxnOk(s: State, m: MatchIn) {
    s.phase.Idle? && |m.puuids| == TEAM && TablesOk(s.db.timeline, s.db.progress)
  }

  /** A whole `store_match`: the transaction, a roll of the day's segment if one is open and due, the append. */
  ghost function StoreMatchRun(s: State, m: MatchIn, paused: bool, newDay: bool): State
    requires TxnOk(s, m)
  {
    var s1 := Next(s, Txn(m, paused));
    var s2 := if newDay && m.platform in s1.writers then Next(Next(s1, RollCheckpoint), RollFlush) else s1;
    Next(s2, Append)
  }

  lemma StoreMatchResult(s: State, m: MatchIn, paused: bool, newDay: bool)
    requires TxnOk(s, m)
    ensures var r := StoreTxn(s.db, s.next, m, paused);
            var roll := newDay && m.platform in s.writers;
            StoreMatchRun(s, m, paused, newDay) ==
              State(r.db, r.next, s.seen + {m.Key()}, true,
                    s.writers[m.platform :=
                      (if roll then [] else Pending(s, m.platform)) + [Rec(m.Key(), m.puuids, r.pids)]],
                    Idle,
                    if roll then r.db else s.durable,
                    if roll then s.flushed + s.writers[m.platform] else s.flushed)
  {
    hide StoreTxn, TablesOk;
    var s1 := Next(s, Txn(m, paused));
    if newDay && m.platform in s1.writers {
      var s2 := Next(Next(s1, RollCheckpoint), RollFlush);
      var entry := [] + [s2.phase.rec];
      assert s2.writers == s.writers[m.platform := []];
      assert s.writers[m.platform := []][m.platform := entry] == s.writers[m.platform := entry];
    }
  }

  /** Flushes the first `n` writers of the list. */
  ghost function FlushRun(s: State, order: seq<Platform>, n: nat): State
    requires n <= |order|
  {
    if n == 0 then s
    else
      var r := FlushRun(s, order, n - 1);
      if Enabled(r, FlushWriter(order[n - 1])) then Next(r, FlushWriter(order[n - 1])) else r
  }

  lemma {:induction false} FlushPrefix(s: State, order: seq<Platform>, platform: Platform, n: nat)
    requires n <= |order|
    ensures FlushRun(s, order + [platform], n) == FlushRun(s, order, n)
  {
    hide Next, Enabled;
    if n > 0 {
      FlushPrefix(s, order, platform, n - 1);
      assert (order + [platform])[n - 1] == order[n - 1];
    }
  }

  lemma FlushMore(s: State, order: seq<Platform>, platform: Platform)
    requires var r := FlushRun(s, order, |order|); r.phase.Flushing? && platform in r.phase.todo
    ensures var r := FlushRun(s, order, |order|);
            FlushRun(s, order + [platform], |order| + 1)
              == Flushed(r, platform).(phase := Flushing(r.phase.todo - {platform}))
  {
    FlushPrefix(s, order, platform, |order|);
    assert (order + [platform])[|order|] == platform;
  }

  /** One game of the retroactive pass. */
  lemma RetroStep(prog: ProgressTable, tl: Timeline, platform: Platform, p: nat, times: seq<nat>, i: nat)
    requires i < |times| && TablesOk(tl, prog)
    requires forall j | 0 <= j < |times| :: TlKey(p, times[j]) in tl
    ensures var v := tl[TlKey(p, times[i])];
            var key := GameKey(platform, v.gid);
            var r := RetroPlayer(prog, tl, platform, p, times, i);
            if key !in prog || prog[key].Remake? then r == RetroPlayer(prog, tl, platform, p, times, i + 1)
            else
              && v.slot < |prog[key].counts|
              && (prog[key].counts[v.slot] >= HISTORY_REQUIRED ==> r == Retro(prog, 0))
              && (prog[key].counts[v.slot] < HISTORY_REQUIRED ==>
                    var pr := BumpSlot(prog[key], v.slot);
                    TablesOk(tl, prog[key := pr])
                    && var left := RetroPlayer(prog[key := pr], tl, platform, p, times, i + 1);
                       r == Retro(left.prog, left.newly + (if pr.full && !prog[key].full then 1 else 0)))
  {
    hide BumpSlot;
  }

  lemma RetroEnd(prog: ProgressTable, tl: Timeline, platform: Platform, p: nat, times: seq<nat>)
    requires TablesOk(tl, prog) && forall j | 0 <= j < |times| :: TlKey(p, times[j]) in tl
    ensures RetroPlayer(prog, tl, platform, p, times, |times|) == Retro(prog, 0)
  {
  }

  class Store {
    // caches, lost in a crash
    var players: Players
    var nextPlayerId: nat
    var cohort: set<nat>
    var outsiderSeen: map<nat, nat>
    var validSamples: map<Platform, nat>
    var seen: set<GameKey>
    var dirtyBitmaps: bool
    var writers: map<Platform, seq<Rec>>

    // live tables, what a crash rolls them back to, and the segments on disk
    var tables: Db
    var durable: Db
    var flushed: seq<Rec>

    /** The caches repeat the tables. */
    ghost predicate Valid()
      reads this
    {
      && players == tables.players && cohort == tables.cohort
      && outsiderSeen == tables.outsider && validSamples == tables.valid
    }

    ghost function At(phase: Phase): State
      reads this
    {
      State(tables, nextPlayerId, seen, dirtyBitmaps, writers, phase, durable, flushed)
    }

    /** Opens the store on what the last run left on disk. */
    constructor (durable0: Db, flushed0: seq<Rec>)
      ensures Valid() && NextFree(durable0.players, nextPlayerId)
      ensures forall s: State | s.durable == durable0 && s.flushed == flushed0 ::
                At(Idle) == Next(s, Crash(nextPlayerId))
    {
      var next: nat := 1;
      var rest := durable0.players.Keys;
      while rest != {}
        invariant rest <= durable0.players.Keys && next >= 1
        invariant forall p | p in durable0.players && p !in rest :: durable0.players[p] < next
        invariant next == 1 || exists p :: p in durable0.players && durable0.players[p] + 1 == next
        decreases |rest|
      {
        var p :| p in rest;
        if durable0.players[p] + 1 > next {
          next := durable0.players[p] + 1;
        }
        rest := rest - {p};
      }
      players, nextPlayerId, cohort := durable0.players, next, durable0.cohort;
      outsiderSeen, validSamples, seen := durable0.outsider, durable0.valid, durable0.seen;
      dirtyBitmaps, writers, tables, durable, flushed := false, map[], durable0, durable0, flushed0;
    }

    /** Ids for players met outside a match: caches first, then one transaction for the new ones. */
    method AssignPlayerIds(puuids: seq<Puuid>) returns (out: seq<nat>)
      requires Valid()
      modifies this`players, this`nextPlayerId, this`tables
      ensures Valid() && At(Idle) == Next(old(At(Idle)), Assign(puuids))
      ensures out == AssignIds(old(players), old(nextPlayerId), puuids, |puuids|).pids
    {
      var added: seq<(Puuid, nat)> := [];
      out := [];
      for i := 0 to |puuids|
        invariant Ids(players, nextPlayerId, out) == AssignIds(old(players), old(nextPlayerId), puuids, i)
        invariant InsertPlayers(old(tables).players, added, |added|) == players
        invariant tables == old(tables)
      {
        var p := puuids[i];
        if p in players {
          out := out + [players[p]];
        } else {
          InsertMore(tables.players, added, (p, nextPlayerId), |added|);
          added := added + [(p, nextPlayerId)];
          players := players[p := nextPlayerId];
          out := out + [nextPlayerId];
          nextPlayerId := nextPlayerId + 1;
        }
      }
      for i := 0 to |added|
        invariant tables == old(tables).(players := InsertPlayers(old(tables).players, added, i))
        invariant players == InsertPlayers(old(tables).players, added, |added|)
        invariant nextPlayerId == AssignIds(old(players), old(nextPlayerId), puuids, |puuids|).next
      {
        tables := tables.(players := tables.players[added[i].0 := added[i].1]);
      }
    }

    /** The same inside a match's own transaction. */
    method AssignInTxn(puuids: seq<Puuid>) returns (pids: seq<nat>)
      requires Valid()
      modifies this`players, this`nextPlayerId, this`tables
      ensures Valid()
      ensures Ids(players, nextPlayerId, pids) == AssignIds(old(players), old(nextPlayerId), puuids, |puuids|)
      ensures tables == old(tables).(players := players)
    {
      pids := [];
      for i := 0 to |puuids|
        invariant Ids(players, nextPlayerId, pids) == AssignIds(old(players), old(nextPlayerId), puuids, i)
        invariant tables == old(tables).(players := players)
      {
        var p := puuids[i];
        if p in players {
          pids := pids + [players[p]];
        } else {
          players := players[p := nextPlayerId];
          tables := tables.(players := tables.players[p := nextPlayerId]);
          pids := pids + [nextPlayerId];
          nextPlayerId := nextPlayerId + 1;
        }
      }
    }

    /** Counts a sighting of every player outside the cohort; those seen often enough join it. */
    method Adopt(pids: seq<nat>, paused: bool) returns (adopted: seq<nat>)
      requires Valid()
      modifies this`cohort, this`outsiderSeen, this`tables
      ensures Valid()
      ensures Crowd(cohort, outsiderSeen, adopted) == SightAll(old(cohort), old(outsiderSeen), pids, paused, |pids|)
      ensures tables == old(tables).(cohort := cohort, outsider := outsiderSeen)
    {
      adopted := [];
      for i := 0 to |pids|
        invariant Crowd(cohort, outsiderSeen, adopted) == SightAll(old(cohort), old(outsiderSeen), pids, paused, i)
        invariant tables == old(tables).(cohort := cohort, outsider := outsiderSeen)
      {
        var pid := pids[i];
        if pid in cohort {
          continue;
        }
        var count := Get(outsiderSeen, pid) + 1;
        if !paused && count >= ADOPTION_THRESHOLD {
          outsiderSeen := outsiderSeen - {pid};
          cohort := cohort + {pid};
          tables := tables.(outsider := tables.outsider - {pid}, cohort := tables.cohort + {pid});
          adopted := adopted + [pid];
        } else {
          outsiderSeen := outsiderSeen[pid := count];
          tables := tables.(outsider := tables.outsider[pid := count]);
        }
      }
    }

    method InsertTimelines(pids: seq<nat>, ts: nat, gid: nat)
      modifies this`tables
      ensures tables == old(tables).(timeline := InsertGames(old(tables).timeline, pids, ts, gid, |pids|))
    {
      for i := 0 to |pids|
        invariant tables == old(tables).(timeline := InsertGames(old(tables).timeline, pids, ts, gid, i))
      {
        tables := tables.(timeline := tables.timeline[TlKey(pids[i], ts) := TlVal(gid, i)]);
      }
    }

    /** One more predecessor for the later matches of one player, up to the first that is already full. */
    method BumpLater(platform: Platform, pid: nat, ts: nat) returns (newly: nat)
      requires TablesOk(tables.timeline, tables.progress)
      modifies this`tables
      ensures var r := RetroPlayer(old(tables).progress, old(tables).timeline, platform, pid,
                                   Sorted(Later(old(tables).timeline, pid, ts)), 0);
              tables == old(tables).(progress := r.prog) && newly == r.newly
    {
      hide Later, AllFull, RetroPlayer, TablesOk;
      var tl := tables.timeline;
      var times := Sorted(Later(tl, pid, ts));
      forall j | 0 <= j < |times| ensures TlKey(pid, times[j]) in tl {
        assert times[j] in times;
      }
      newly := 0;
      for i := 0 to |times|
        invariant tables == old(tables).(progress := tables.progress) && TablesOk(tl, tables.progress)
        invariant var r := RetroPlayer(old(tables).progress, tl, platform, pid, times, 0);
                  var left := RetroPlayer(tables.progress, tl, platform, pid, times, i);
                  left.prog == r.prog && newly + left.newly == r.newly
      {
        RetroStep(tables.progress, tl, platform, pid, times, i);
        var v := tl[TlKey(pid, times[i])];
        var key := GameKey(platform, v.gid);
        if key !in tables.progress || tables.progress[key].Remake? {
          continue;
        }
        var pr := tables.progress[key];
        if pr.counts[v.slot] >= HISTORY_REQUIRED {
          return;
        }
        var counts := pr.counts[v.slot := pr.counts[v.slot] + 1];
        var full := pr.full;
        if !full && AllFull(counts) {
          full := true;
          newly := newly + 1;
        }
        tables := tables.(progress := tables.progress[key := Slots(counts, full)]);
      }
      RetroEnd(tables.progress, tl, platform, pid, times);
    }

    method BumpAll(platform: Platform, pids: seq<nat>, ts: nat) returns (newly: nat)
      requires TablesOk(tables.timeline, tables.progress)
      modifies this`tables
      ensures var r := RetroAll(old(tables).progress, old(tables).timeline, platform, pids, ts, |pids|);
              tables == old(tables).(progress := r.prog) && newly == r.newly
    {
      hide RetroPlayer, TablesOk;
      newly := 0;
      for i := 0 to |pids|
        invariant var r := RetroAll(old(tables).progress, old(tables).timeline, platform, pids, ts, i);
                  tables == old(tables).(progress := r.prog) && newly == r.newly
      {
        var n := BumpLater(platform, pids[i], ts);
        newly := newly + n;
      }
    }

    /** Derived state of a match stored for the first time. */
    method Count(m: MatchIn, pids: seq<nat>, paused: bool) returns (adopted: seq<nat>)
      requires Valid() && |pids| == TEAM && TablesOk(tables.timeline, tables.progress)
      modifies this`cohort, this`outsiderSeen, this`validSamples, this`tables
      ensures Valid() && (tables, adopted) == CountMatch(old(tables), m, pids, paused)
    {
      hide RetroAll, SightAll, InsertGames, FreshProgress, TablesOk;
      adopted := Adopt(pids, paused);
      var pr := CountSlots(tables.timeline, pids, m.ts);
      var newly := if pr.full then 1 else 0;
      tables := tables.(progress := tables.progress[m.Key() := pr]);
      InsertTimelines(pids, m.ts, m.gid);
      Shapes(old(tables), m, pids);
      var n := BumpAll(m.platform, pids, m.ts);
      newly := newly + n;
      if newly > 0 {
        validSamples := validSamples[m.platform := Get(validSamples, m.platform) + newly];
        tables := tables.(valid := tables.valid[m.platform := validSamples[m.platform]]);
      }
    }

    /** The transaction of `store_match`: ids always, derived state only for a match without a progress record. */
    method Transact(m: MatchIn, paused: bool) returns (pids: seq<nat>, adopted: seq<nat>)
      requires Valid() && |m.puuids| == TEAM && TablesOk(tables.timeline, tables.progress)
      modifies this`players, this`nextPlayerId, this`cohort, this`outsiderSeen, this`validSamples, this`tables
      ensures Valid()
      ensures TxnOut(tables, nextPlayerId, pids, adopted) == StoreTxn(old(tables), old(nextPlayerId), m, paused)
    {
      hide CountMatch, TablesOk, AssignIds;
      var already := m.Key() in tables.progress;
      pids := AssignInTxn(m.puuids);
      adopted := [];
      if m.remake && !already {
        tables := tables.(progress := tables.progress[m.Key() := Remake]);
      } else if !already {
        adopted := Count(m, pids, paused);
      }
    }

    /** Makes every transaction so far durable: from then on the buffered records may go to disk, since every id they
        hold is bound in the table a crash would leave. */
    method DurableCheckpoint()
      modifies this`durable
      ensures durable == tables
      ensures old(IdsSafe(At(Idle))) ==>
                && (forall platform, r | platform in writers && r in writers[platform] ::
                      Bound(durable.players, r.puuids, r.pids))
                && (forall r | r in flushed :: Bound(durable.players, r.puuids, r.pids))
    {
      hide IdsOk, Bound, Extends;
      if IdsSafe(At(Idle)) {
        CheckpointBinds(At(Idle));
      }
      durable := tables;
    }

    /** Writes a buffer out as one block; nothing to write leaves the segment alone. */
    method FlushWriter(platform: Platform)
      requires platform in writers
      modifies this`writers, this`flushed
      ensures flushed == old(flushed) + old(writers)[platform] && writers == old(writers)[platform := []]
    {
      if writers[platform] == [] {
        return;
      }
      flushed := flushed + writers[platform];
      writers := writers[platform := []];
    }

    method MarkSeen(key: GameKey)
      modifies this`seen, this`dirtyBitmaps
      ensures seen == old(seen) + {key} && dirtyBitmaps
    {
      seen := seen + {key};
      dirtyBitmaps := true;
    }

    /** Stores a match end to end; `newDay` is whether the UTC date has changed since the writer was opened. */
    method StoreMatch(m: MatchIn, paused: bool, newDay: bool) returns (adopted: seq<nat>)
      requires Valid() && TxnOk(At(Idle), m)
      modifies this
      ensures Valid() && At(Idle) == StoreMatchRun(old(At(Idle)), m, paused, newDay)
      ensures adopted == StoreTxn(old(tables), old(nextPlayerId), m, paused).adopted
    {
      hide StoreTxn, TablesOk, StoreMatchRun, IdsSafe, Bound;
      StoreMatchResult(At(Idle), m, paused, newDay);
      var pids;
      pids, adopted := Transact(m, paused);
      if m.platform in writers && newDay {
        DurableCheckpoint();
        FlushWriter(m.platform);
      }
      if m.platform !in writers {
        writers := writers[m.platform := []];
      }
      writers := writers[m.platform := writers[m.platform] + [Rec(m.Key(), m.puuids, pids)]];
      MarkSeen(m.Key());
    }

    /** Flushes every writer, in the order the table of writers happens to yield them. */
    method FlushAll() returns (ghost order: seq<Platform>)
      requires Valid()
      modifies this`writers, this`flushed
      ensures At(Flushing({})) == FlushRun(old(At(Flushing(writers.Keys))), order, |order|)
      ensures writers.Keys == old(writers).Keys && forall platform | platform in writers :: writers[platform] == []
    {
      hide Next, Enabled, FlushRun;
      var todo := writers.Keys;
      ghost var s := At(Flushing(todo));
      order := [];
      assert FlushRun(s, order, 0) == s by { FlushNone(s); }
      while todo != {}
        invariant todo <= writers.Keys == old(writers).Keys
        invariant At(Flushing(todo)) == FlushRun(s, order, |order|)
        invariant forall platform | platform in writers && platform !in todo :: writers[platform] == []
        decreases |todo|
      {
        var platform :| platform in todo;
        FlushMore(s, order, platform);
        FlushWriter(platform);
        order := order + [platform];
        todo := todo - {platform};
      }
    }

    /** The full commit: checkpoint, then every writer, the bitmaps last. */
    method Commit() returns (ghost order: seq<Platform>)
      requires Valid()
      modifies this
      ensures Valid()
      ensures var s := FlushRun(Next(old(At(Idle)), CommitCheckpoint), order, |order|);
              s.phase == Flushing({}) && At(Idle) == Next(s, CommitBitmaps)
      ensures forall platform | platform in writers :: writers[platform] == []
    {
      hide FlushRun, IdsSafe, Bound;
      DurableCheckpoint();
      order := FlushAll();
      if !dirtyBitmaps {
        return;
      }
      tables := tables.(seen := seen);
      durable := tables;
      dirtyBitmaps := false;
    }

    /** Enrols players: tables in one transaction, then the caches. Members already in are skipped. */
    method CohortAddBatch(pids: seq<nat>) returns (added: seq<nat>)
      requires Valid()
      modifies this`cohort, this`outsiderSeen, this`tables
      ensures Valid() && At(Idle) == Next(old(At(Idle)), Enrol(pids))
      ensures forall p :: p in added <==> p in pids && p !in old(cohort)
    {
      added := [];
      for i := 0 to |pids|
        invariant forall p :: p in added <==> p in pids[..i] && p !in cohort
      {
        assert forall p :: p in pids[..i + 1] <==> p in pids[..i] || p == pids[i];
        if pids[i] !in cohort {
          added := added + [pids[i]];
        }
      }
      assert pids[..|pids|] == pids;
      assert added != [] || (set p | p in pids && p !in cohort) == {};
      if added == [] {
        return;
      }
      for i := 0 to |added|
        invariant cohort == old(cohort) && outsiderSeen == old(outsiderSeen)
        invariant tables == old(tables).(cohort := old(cohort) + Firsts(added, i),
                                         outsider := old(outsiderSeen) - Firsts(added, i))
      {
        FirstsMore(added, i);
        tables := tables.(cohort := tables.cohort + {added[i]}, outsider := tables.outsider - {added[i]});
        assert tables.cohort == old(cohort) + Firsts(added, i + 1);
        assert tables.outsider == old(outsiderSeen) - Firsts(added, i + 1);
      }
      for i := 0 to |added|
        invariant tables == old(tables).(cohort := old(cohort) + Firsts(added, |added|),
                                         outsider := old(outsiderSeen) - Firsts(added, |added|))
        invariant cohort == old(cohort) + Firsts(added, i) && outsiderSeen == old(outsiderSeen) - Firsts(added, i)
      {
        FirstsMore(added, i);
        cohort := cohort + {added[i]};
        outsiderSeen := outsiderSeen - {added[i]};
        assert cohort == old(cohort) + Firsts(added, i + 1);
        assert outsiderSeen == old(outsiderSeen) - Firsts(added, i + 1);
      }
      assert Firsts(added, |added|) == set p | p in pids && p !in old(cohort);
    }
  }

  function Firsts(s: seq<nat>, n: nat): set<nat>
    requires n <= |s|
  {
    set p | p in s[..n]
  }

  lemma FirstsMore(s: seq<nat>, n: nat)
    requires n < |s|
    ensures Firsts(s, n + 1) == Firsts(s, n) + {s[n]}
  {
    assert s[..n + 1] == s[..n] + [s[n]];
  }

  lemma FlushNone(s: State)
    ensures FlushRun(s, [], 0) == s
  {
  }
}
