/**
 The startup pass: cohort members a crash left without a frontier entry are queued
 again, on the platform their latest stored match is found under.
 */
module Reconcile {
  import opened Results
  import opened Sets
  import opened StoreSpec
  import opened ProgressProof
  import opened ProgressExact
  import opened ProgressLimits
  import opened RetroExact
  import opened FrontierSpec
  import opened FrontierProof
  import opened FrontierStore

  // ---- where a stranded player belongs ----

  /** Start times of the stored matches of a player. */
  function Starts(tl: Timeline, pid: nat): (s: set<nat>)
    ensures forall t: nat :: t in s <==> TlKey(pid, t) in tl
  {
    var s := set k | k in tl && k.pid == pid :: k.ts;
    assert forall t: nat | TlKey(pid, t) in tl :: TlKey(pid, t).ts in s;
    s
  }

  /** The game of the player's newest timeline entry. */
  function LastGame(tl: Timeline, pid: nat): Option<nat> {
    var times := Sorted(Starts(tl, pid));
    if times == [] then None
    else
      assert times[|times| - 1] in times;
      Some(tl[TlKey(pid, times[|times| - 1])].gid)
  }

  /** The first platform from the `i`-th on with a record of that game id. */
  function Probe(prog: ProgressTable, platforms: seq<Platform>, gid: nat, i: nat): (r: Option<Platform>)
    requires i <= |platforms|
    ensures r.Some? ==> r.value in platforms && GameKey(r.value, gid) in prog
    decreases |platforms| - i
  {
    if i == |platforms| then None
    else if GameKey(platforms[i], gid) in prog then Some(platforms[i])
    else Probe(prog, platforms, gid, i + 1)
  }

  function HomeOf(db: Db, platforms: seq<Platform>, pid: nat): Option<Platform> {
    var gid := LastGame(db.timeline, pid);
    if gid.None? then None else Probe(db.progress, platforms, gid.value, 0)
  }

  lemma {:induction false} ProbeFinds(prog: ProgressTable, platforms: seq<Platform>, gid: nat, i: nat, j: nat)
    requires i <= j < |platforms| && GameKey(platforms[j], gid) in prog
    requires forall a, b | 0 <= a < b < |platforms| :: platforms[a] != platforms[b]
    ensures Probe(prog, platforms, gid, i) == Some(platforms[j]) <==>
            forall k | i <= k < j :: GameKey(platforms[k], gid) !in prog
    decreases j - i
  {
    if i < j && GameKey(platforms[i], gid) !in prog {
      ProbeFinds(prog, platforms, gid, i + 1, j);
    }
  }

  /** It is the entry with the greatest start; there is none only for a player without entries. */
  lemma LastGameIsNewest(tl: Timeline, pid: nat)
    ensures LastGame(tl, pid).None? <==> forall t: nat :: TlKey(pid, t) !in tl
    ensures LastGame(tl, pid).Some? ==>
              exists t: nat :: TlKey(pid, t) in tl && tl[TlKey(pid, t)].gid == LastGame(tl, pid).value
                               && forall u: nat | TlKey(pid, u) in tl :: u <= t
  {
    var times := Sorted(Starts(tl, pid));
    if times == [] {
      forall t: nat ensures TlKey(pid, t) !in tl {
        assert t !in times;
      }
    } else {
      var last := times[|times| - 1];
      assert last in times;
      forall u: nat | TlKey(pid, u) in tl ensures u <= last {
        assert u in times;
      }
    }
  }

  /** The newest entry of a player with a stored match names one of the player's stored matches. */
  lemma LastIsStored(tl: Timeline, log: Log, pid: nat, k: GameKey) returns (o: GameKey)
    requires KeysExact(tl, log) && OwnedEntries(tl, log) && k in log && pid in log[k].players
    ensures LastGame(tl, pid) == Some(o.gid) && o in log && pid in log[o].players
  {
    assert TlKey(pid, log[k].ts) in tl;
    var times := Sorted(Starts(tl, pid));
    assert log[k].ts in times;
    var last := times[|times| - 1];
    assert last in times;
    o :| Owner(log, tl, TlKey(pid, last), o);
  }

  lemma {:induction false} ProbeSome(prog: ProgressTable, platforms: seq<Platform>, gid: nat, i: nat)
    requires i <= |platforms|
    ensures Probe(prog, platforms, gid, i).Some? <==>
            exists j :: i <= j < |platforms| && GameKey(platforms[j], gid) in prog
    decreases |platforms| - i
  {
    if i < |platforms| && GameKey(platforms[i], gid) !in prog {
      ProbeSome(prog, platforms, gid, i + 1);
    }
  }

  /** Whatever is stored, a player with a stored match has a home if all platforms it has matches on are enabled. */
  lemma HomeExists(db: Db, log: Log, platforms: seq<Platform>, pid: nat, k: GameKey)
    requires KeysExact(db.timeline, log) && OwnedEntries(db.timeline, log) && forall o | o in log :: o in db.progress
    requires k in log && pid in log[k].players
    requires forall o | o in log && pid in log[o].players :: o.platform in platforms
    ensures HomeOf(db, platforms, pid).Some?
  {
    hide LastGame, Probe;
    var o := LastIsStored(db.timeline, log, pid, k);
    var j :| 0 <= j < |platforms| && platforms[j] == o.platform;
    assert GameKey(platforms[j], o.gid) == o;
    ProbeSome(db.progress, platforms, o.gid, 0);
  }

  lemma ExactEntries(tl: Timeline, log: Log)
    requires TlExact(tl, log)
    ensures KeysExact(tl, log) && OwnedEntries(tl, log)
  {
    forall key | key in tl ensures exists k :: k in log && log[k].ts == key.ts && key.pid in log[k].players {
      var k :| Owner(log, tl, key, k);
    }
    forall k, p: nat | k in log && p in log[k].players ensures TlKey(p, log[k].ts) in tl {
      var i :| 0 <= i < |log[k].players| && log[k].players[i] == p;
      assert TlKey(log[k].players[i], log[k].ts) in tl;
    }
  }

  /** A member with stored matches goes back to the platform it plays on if and only if no platform probed earlier has a
      record of the same game id: ids are only unique within a platform. */
  lemma HomeIsRightIff(db: Db, log: Log, platforms: seq<Platform>, pid: nat, k: GameKey, j: nat)
    requires Exact(db, log) && k in log && pid in log[k].players
    requires j < |platforms| && platforms[j] == k.platform
    requires forall a, b | 0 <= a < b < |platforms| :: platforms[a] != platforms[b]
    ensures LastGame(db.timeline, pid).Some?
    ensures HomeOf(db, platforms, pid) == Some(k.platform) <==>
            forall i | 0 <= i < j :: GameKey(platforms[i], LastGame(db.timeline, pid).value) !in db.progress
  {
    hide TotalsExact, SightingsExact, Expected, TlExact, KeysExact, OwnedEntries, LastGame, Probe;
    ExactEntries(db.timeline, log);
    var owner := LastIsStored(db.timeline, log, pid, k);
    assert owner.platform == k.platform;
    var gid := owner.gid;
    assert owner == GameKey(platforms[j], gid);
    ProbeFinds(db.progress, platforms, gid, 0, j);
  }

  // ---- the pass ----

  /** A member without an entry whose puuid and home are known. */
  predicate Stranded(f: Frontier, db: Db, names: map<nat, Puuid>, platforms: seq<Platform>, pid: nat) {
    pid in db.cohort && pid !in f.index && pid in names && HomeOf(db, platforms, pid).Some?
  }

  /** Stranded members get an entry on their home platform, due now and never visited; nobody else changes. */
  ghost predicate Reconciled(f: Frontier, f': Frontier, db: Db, names: map<nat, Puuid>, platforms: seq<Platform>,
                             now: nat)
  {
    && Matched(f')
    && forall pid: nat :: View(f', pid) ==
         if Stranded(f, db, names, platforms, pid)
         then Some((Slot(HomeOf(db, platforms, pid).value, BUCKET_PRIORITY, now), Task(names[pid], 0)))
         else View(f, pid)
  }

  /** After the pass no member with a stored match on an enabled platform is stranded, if its puuid is known. */
  lemma NobodyStaysStranded(f: Frontier, f': Frontier, db: Db, log: Log, names: map<nat, Puuid>,
                            platforms: seq<Platform>, now: nat, pid: nat, k: GameKey)
    requires Matched(f) && Reconciled(f, f', db, names, platforms, now) && Exact(db, log)
    requires pid in db.cohort && pid in names && k in log && pid in log[k].players && k.platform in platforms
    ensures pid in f'.index
  {
    hide HomeOf, TotalsExact, SightingsExact, Expected, KeysExact, OwnedEntries;
    ExactEntries(db.timeline, log);
    HomeExists(db, log, platforms, pid, k);
    hide Exact;
    assert pid in f.index ==> View(f, pid).Some?;
  }

  // ---- the pass in place ----

  lemma PushView(f: Frontier, k: Key, task: Task, pid: nat)
    requires Matched(f) && k.pid !in f.index
    ensures View(Push(f, k, task), pid) == if pid == k.pid then Some((SlotOf(k), task)) else View(f, pid)
  {
    InsertMatched(f, k, task);
  }

  lemma NotQueued(f: Frontier, pid: nat)
    requires Matched(f)
    ensures View(f, pid).None? <==> pid !in f.index
  {
  }

  ghost predicate DifferentPids(items: seq<Item>) {
    forall i, j | 0 <= i < j < |items| :: items[i].pid != items[j].pid
  }

  predicate Among(items: seq<Item>, n: nat, pid: nat)
    requires n <= |items|
  {
    exists i :: 0 <= i < n && items[i].pid == pid
  }

  /** The first `n` of the batch have its entries, and nobody else changed. */
  ghost predicate Queued(f: Frontier, f': Frontier, slot: Slot, items: seq<Item>, n: nat)
    requires n <= |items|
  {
    && Matched(f')
    && (forall i | 0 <= i < n :: View(f', items[i].pid) == Some((slot, items[i].task)))
    && (forall pid: nat | !Among(items, n, pid) :: View(f', pid) == View(f, pid))
  }

  lemma AmongStep(items: seq<Item>, n: nat, pid: nat)
    requires 0 < n <= |items|
    ensures Among(items, n, pid) <==> Among(items, n - 1, pid) || items[n - 1].pid == pid
  {
  }

  lemma QueuedStep(f: Frontier, f1: Frontier, slot: Slot, items: seq<Item>, n: nat)
    requires 0 < n <= |items| && DifferentPids(items) && View(f, items[n - 1].pid).None?
    requires Queued(f, f1, slot, items, n - 1)
    ensures Queued(f, Push(f1, KeyOf(slot, items[n - 1].pid), items[n - 1].task), slot, items, n)
  {
    var item := items[n - 1];
    var k := KeyOf(slot, item.pid);
    assert !Among(items, n - 1, item.pid);
    assert SlotOf(k) == slot;
    hide Matched, Push, View, Among, DifferentPids;
    NotQueued(f1, item.pid);
    PushMatched(f1, k, item.task);
    var f2 := Push(f1, k, item.task);
    forall pid: nat ensures View(f2, pid) == if pid == item.pid then Some((slot, item.task)) else View(f1, pid) {
      PushView(f1, k, item.task, pid);
    }
    forall pid: nat ensures Among(items, n, pid) <==> Among(items, n - 1, pid) || item.pid == pid {
      AmongStep(items, n, pid);
    }
  }

  /** A batch of players who are not queued gets exactly its entries. */
  lemma {:induction false} BatchView(f: Frontier, slot: Slot, items: seq<Item>, n: nat)
    requires n <= |items| && Matched(f) && DifferentPids(items)
    requires forall i | 0 <= i < |items| :: View(f, items[i].pid).None?
    ensures Queued(f, PushAll(f, slot, items, n), slot, items, n)
  {
    hide Push, View;
    if n > 0 {
      hide Queued, Matched;
      BatchView(f, slot, items, n - 1);
      QueuedStep(f, PushAll(f, slot, items, n - 1), slot, items, n);
    }
  }

  type Batches = map<Platform, seq<Item>>

  /** The batches hold exactly the stranded members seen so far, each once, under its home. */
  ghost predicate Batched(f: Frontier, db: Db, names: map<nat, Puuid>, platforms: seq<Platform>, batches: Batches,
                          left: set<nat>)
  {
    && (forall home, i | home in batches && 0 <= i < |batches[home]| ::
          var item := batches[home][i];
          item.pid !in left && Stranded(f, db, names, platforms, item.pid)
          && HomeOf(db, platforms, item.pid) == Some(home) && item.task == Task(names[item.pid], 0))
    && (forall home | home in batches :: DifferentPids(batches[home]))
    && (forall pid | Stranded(f, db, names, platforms, pid) && pid !in left ::
          var home := HomeOf(db, platforms, pid).value;
          home in batches && Among(batches[home], |batches[home]|, pid))
  }

  function BatchOf(batches: Batches, home: Platform): seq<Item> {
    if home in batches then batches[home] else []
  }

  lemma AddedToBatch(f: Frontier, db: Db, names: map<nat, Puuid>, platforms: seq<Platform>, batches: Batches,
                     left: set<nat>, pid: nat)
    requires Batched(f, db, names, platforms, batches, left) && pid in left && Stranded(f, db, names, platforms, pid)
    ensures var home := HomeOf(db, platforms, pid).value;
            var items := BatchOf(batches, home) + [Item(pid, Task(names[pid], 0))];
            Batched(f, db, names, platforms, batches[home := items], left - {pid})
  {
    hide HomeOf;
    var home := HomeOf(db, platforms, pid).value;
    var item := Item(pid, Task(names[pid], 0));
    var items := BatchOf(batches, home) + [item];
    var after := batches[home := items];
    assert items[|items| - 1] == item;
    forall p | Stranded(f, db, names, platforms, p) && p !in left - {pid}
      ensures HomeOf(db, platforms, p).value in after
      ensures Among(after[HomeOf(db, platforms, p).value], |after[HomeOf(db, platforms, p).value]|, p)
    {
      if p != pid {
        var h := HomeOf(db, platforms, p).value;
        var i :| 0 <= i < |batches[h]| && batches[h][i].pid == p;
        assert after[h][i].pid == p;
      }
    }
  }

  lemma SkippedByBatch(f: Frontier, db: Db, names: map<nat, Puuid>, platforms: seq<Platform>, batches: Batches,
                       left: set<nat>, pid: nat)
    requires Batched(f, db, names, platforms, batches, left) && !Stranded(f, db, names, platforms, pid)
    ensures Batched(f, db, names, platforms, batches, left - {pid})
  {
    hide HomeOf;
  }

  /** The batches still to push are those of the platforms in `todo`. */
  ghost predicate Pushed(f: Frontier, f': Frontier, db: Db, names: map<nat, Puuid>, platforms: seq<Platform>, now: nat,
                         todo: set<Platform>)
  {
    && Matched(f')
    && forall pid: nat :: View(f', pid) ==
         if Stranded(f, db, names, platforms, pid) && HomeOf(db, platforms, pid).value !in todo
         then Some((Slot(HomeOf(db, platforms, pid).value, BUCKET_PRIORITY, now), Task(names[pid], 0)))
         else View(f, pid)
  }

  lemma BatchPushed(f: Frontier, f1: Frontier, db: Db, names: map<nat, Puuid>, platforms: seq<Platform>, now: nat,
                    batches: Batches, todo: set<Platform>, home: Platform)
    requires Matched(f) && Batched(f, db, names, platforms, batches, {})
    requires Pushed(f, f1, db, names, platforms, now, todo) && home in todo && home in batches
    ensures var f2 := PushAll(f1, Slot(home, BUCKET_PRIORITY, now), batches[home], |batches[home]|);
            Pushed(f, f2, db, names, platforms, now, todo - {home})
  {
    hide HomeOf, PushAll, View, Matched;
    var items, slot := batches[home], Slot(home, BUCKET_PRIORITY, now);
    forall i | 0 <= i < |items| ensures View(f1, items[i].pid).None? {
      NotQueued(f, items[i].pid);
    }
    BatchView(f1, slot, items, |items|);
    var f2 := PushAll(f1, slot, items, |items|);
    forall pid: nat
      ensures View(f2, pid) ==
        if Stranded(f, db, names, platforms, pid) && HomeOf(db, platforms, pid).value !in todo - {home}
        then Some((Slot(HomeOf(db, platforms, pid).value, BUCKET_PRIORITY, now), Task(names[pid], 0)))
        else View(f, pid)
    {
      if Among(items, |items|, pid) {
        var i :| 0 <= i < |items| && items[i].pid == pid;
        assert View(f2, items[i].pid) == Some((slot, items[i].task));
      }
    }
  }

  // ---- the loops ----

  /** The newest entry of a player, by a scan of the timelines. */
  method LastGameOf(tl: Timeline, pid: nat) returns (r: Option<nat>)
    ensures r == LastGame(tl, pid)
  {
    var rest := tl.Keys;
    var last: Option<nat> := None;
    while rest != {}
      invariant rest <= tl.Keys
      invariant last.Some? ==> TlKey(pid, last.value) in tl
      invariant forall k | k in tl && k !in rest && k.pid == pid :: last.Some? && k.ts <= last.value
      decreases |rest|
    {
      var k :| k in rest;
      if k.pid == pid && (last.None? || last.value < k.ts) {
        last := Some(k.ts);
      }
      rest := rest - {k};
    }
    LastIsLatest(tl, pid, last);
    r := if last.None? then None else Some(tl[TlKey(pid, last.value)].gid);
  }

  lemma LastIsLatest(tl: Timeline, pid: nat, last: Option<nat>)
    requires last.Some? ==> TlKey(pid, last.value) in tl
    requires forall k | k in tl && k.pid == pid :: last.Some? && k.ts <= last.value
    ensures LastGame(tl, pid) == if last.None? then None else Some(tl[TlKey(pid, last.value)].gid)
  {
    var times := Sorted(Starts(tl, pid));
    if last.Some? {
      assert last.value in times;
      var i :| 0 <= i < |times| && times[i] == last.value;
      var newest := times[|times| - 1];
      assert newest in times;
      assert TlKey(pid, newest).ts <= last.value;
    } else {
      assert Starts(tl, pid) == {};
      assert Sorted({}) == [];
    }
  }

  /** The first platform with a record of the game. */
  method FindPlatform(prog: ProgressTable, platforms: seq<Platform>, gid: nat) returns (r: Option<Platform>)
    ensures r == Probe(prog, platforms, gid, 0)
  {
    var i := 0;
    while i < |platforms|
      invariant i <= |platforms| && Probe(prog, platforms, gid, 0) == Probe(prog, platforms, gid, i)
    {
      if GameKey(platforms[i], gid) in prog {
        return Some(platforms[i]);
      }
      i := i + 1;
    }
    r := None;
  }

  /** The cohort members without an entry. */
  method StrandedMembers(tables: FrontierTables, cohort: set<nat>) returns (stranded: set<nat>)
    ensures stranded == cohort - tables.index.Keys
  {
    stranded := {};
    var rest := cohort;
    while rest != {}
      invariant rest <= cohort && stranded == (cohort - rest) - tables.index.Keys
      decreases |rest|
    {
      var pid :| pid in rest;
      if pid !in tables.index {
        stranded := stranded + {pid};
      }
      rest := rest - {pid};
    }
  }

  /** One batch of stranded members for each platform. */
  method BatchStranded(tables: FrontierTables, db: Db, names: map<nat, Puuid>, platforms: seq<Platform>)
    returns (batches: Batches)
    ensures Batched(tables.Both(), db, names, platforms, batches, {})
  {
    hide LastGame, Probe;
    ghost var f := tables.Both();
    var stranded := StrandedMembers(tables, db.cohort);
    batches := map[];
    var rest := stranded;
    while rest != {}
      invariant rest <= stranded && Batched(f, db, names, platforms, batches, rest)
      decreases |rest|
    {
      hide Batched;
      var pid :| pid in rest;
      var home: Option<Platform> := None;
      if pid in names {
        var gid := LastGameOf(db.timeline, pid);
        if gid.Some? {
          home := FindPlatform(db.progress, platforms, gid.value);
        }
      }
      if home.Some? {
        AddedToBatch(f, db, names, platforms, batches, rest, pid);
        batches := batches[home.value := BatchOf(batches, home.value) + [Item(pid, Task(names[pid], 0))]];
      } else {
        SkippedByBatch(f, db, names, platforms, batches, rest, pid);
      }
      rest := rest - {pid};
    }
  }

  /** Queues the stranded members again, one batch per platform, in whatever order the platforms come. */
  method FrontierReconcile(tables: FrontierTables, db: Db, names: map<nat, Puuid>, platforms: seq<Platform>, now: nat)
    requires Matched(tables.Both())
    modifies tables
    ensures Reconciled(old(tables.Both()), tables.Both(), db, names, platforms, now)
  {
    hide HomeOf, View, Matched, PushAll, Batched;
    ghost var f := tables.Both();
    var batches := BatchStranded(tables, db, names, platforms);
    var todo := batches.Keys;
    NothingPushed(f, db, names, platforms, now, batches);
    while todo != {}
      invariant todo <= batches.Keys && Matched(tables.Both())
      invariant Pushed(f, tables.Both(), db, names, platforms, now, todo)
      decreases |todo|
    {
      hide Pushed;
      var home :| home in todo;
      BatchPushed(f, tables.Both(), db, names, platforms, now, batches, todo, home);
      tables.FrontierPushBatch(Slot(home, BUCKET_PRIORITY, now), batches[home]);
      todo := todo - {home};
    }
  }

  lemma NothingPushed(f: Frontier, db: Db, names: map<nat, Puuid>, platforms: seq<Platform>, now: nat, batches: Batches)
    requires Matched(f) && Batched(f, db, names, platforms, batches, {})
    ensures Pushed(f, f, db, names, platforms, now, batches.Keys)
  {
    hide HomeOf, View, Matched;
  }
}
