/**
 The store as a state machine with crashes: what is only in memory, what the
 key-value store would roll back, and what is on disk for good. A step is one
 transaction, one checkpoint, one segment flush or one in-memory update, and a
 crash can come between any two of them.
 */
module StoreRun {
  import opened StoreSpec
  import opened PlayerIds
  import opened ProgressProof
  import opened ProgressExact

  /** A match record names its players by id only; the puuids say whom the ids were given to. */
  datatype Rec = Rec(key: GameKey, puuids: seq<Puuid>, pids: seq<nat>)

  /** Where a `store_match` or a `commit` stands. The store is borrowed exclusively, so no other operation runs then. */
  datatype Phase =
    | Idle
    | Appending(rec: Rec)
    | RollReady(rec: Rec)
    | Rolled(rec: Rec)
    | Flushing(todo: set<Platform>)

  datatype State = State(
    db: Db, next: nat, seen: set<GameKey>, dirty: bool, writers: map<Platform, seq<Rec>>,
    phase: Phase, durable: Db, flushed: seq<Rec>)

  datatype Step =
    | Assign(puuids: seq<Puuid>)
    | Enrol(pids: seq<nat>)
    | Skip(key: GameKey)
    | Txn(m: MatchIn, paused: bool)
    | RollCheckpoint
    | RollFlush
    | Append
    | CommitCheckpoint
    | FlushWriter(platform: Platform)
    | CommitBitmaps
    | Crash(next: nat)

  /** What happened so far: the matches counted in the live and in the durable tables, and the games given up on. */
  datatype History = History(log: Log, durableLog: Log, skipped: set<GameKey>)

  function EmptyDb(): Db { Db(map[], {}, map[], map[], map[], map[], {}) }

  function Fresh(): State { State(EmptyDb(), 1, {}, false, map[], Idle, EmptyDb(), []) }

  function NoHistory(): History { History(map[], map[], {}) }

  /** Adds to the cohort in one transaction. */
  function CohortAdd(db: Db, pids: seq<nat>): Db {
    var added := set p | p in pids && p !in db.cohort;
    db.(cohort := db.cohort + added, outsider := db.outsider - added)
  }

  function Pending(s: State, platform: Platform): seq<Rec> {
    if platform in s.writers then s.writers[platform] else []
  }

  function Flushed(s: State, platform: Platform): State {
    s.(flushed := s.flushed + Pending(s, platform), writers := s.writers[platform := []])
  }

  ghost predicate Enabled(s: State, step: Step) {
    match step
    case Assign(_) => s.phase.Idle?
    case Enrol(_) => s.phase.Idle?
    case Skip(_) => s.phase.Idle?
    case Txn(m, _) => s.phase.Idle? && |m.puuids| == TEAM && TablesOk(s.db.timeline, s.db.progress)
    case RollCheckpoint => s.phase.Appending? && s.phase.rec.key.platform in s.writers
    case RollFlush => s.phase.RollReady?
    case Append => s.phase.Appending? || s.phase.Rolled?
    case CommitCheckpoint => s.phase.Idle?
    case FlushWriter(platform) => s.phase.Flushing? && platform in s.phase.todo
    case CommitBitmaps => s.phase == Flushing({})
    case Crash(next) => NextFree(s.durable.players, next)
  }

  ghost function Next(s: State, step: Step): State
    requires Enabled(s, step)
  {
    match step
    case Assign(puuids) =>
      var ids := AssignIds(s.db.players, s.next, puuids, |puuids|);
      s.(db := s.db.(players := ids.players), next := ids.next)
    case Enrol(pids) => s.(db := CohortAdd(s.db, pids))
    case Skip(key) => s.(seen := s.seen + {key}, dirty := true)
    case Txn(m, paused) =>
      var r := StoreTxn(s.db, s.next, m, paused);
      s.(db := r.db, next := r.next, phase := Appending(Rec(m.Key(), m.puuids, r.pids)))
    case RollCheckpoint => s.(durable := s.db, phase := RollReady(s.phase.rec))
    case RollFlush => Flushed(s, s.phase.rec.key.platform).(phase := Rolled(s.phase.rec))
    case Append =>
      var rec := s.phase.rec;
      s.(writers := s.writers[rec.key.platform := Pending(s, rec.key.platform) + [rec]],
         seen := s.seen + {rec.key}, dirty := true, phase := Idle)
    case CommitCheckpoint => s.(durable := s.db, phase := Flushing(s.writers.Keys))
    case FlushWriter(platform) => Flushed(s, platform).(phase := Flushing(s.phase.todo - {platform}))
    case CommitBitmaps =>
      if s.dirty then
        var db := s.db.(seen := s.seen);
        s.(db := db, durable := db, dirty := false, phase := Idle)
      else s.(phase := Idle)
    case Crash(next) => State(s.durable, next, s.durable.seen, false, map[], Idle, s.durable, s.flushed)
  }

  ghost function NextHistory(s: State, h: History, step: Step): History
    requires Enabled(s, step)
  {
    match step
    case Skip(key) => h.(skipped := h.skipped + {key})
    case Txn(m, paused) => h.(log := LogAfter(s.db, h.log, m, StoreTxn(s.db, s.next, m, paused).pids))
    case RollCheckpoint => h.(durableLog := h.log)
    case CommitCheckpoint => h.(durableLog := h.log)
    case Crash(_) => h.(log := h.durableLog)
    case _ => h
  }

  /** The state after the first `n` steps; a step that is not enabled does nothing. */
  ghost function Run(steps: seq<Step>, n: nat): (State, History)
    requires n <= |steps|
  {
    if n == 0 then (Fresh(), NoHistory())
    else
      var (s, h) := Run(steps, n - 1);
      if Enabled(s, steps[n - 1]) then (Next(s, steps[n - 1]), NextHistory(s, h, steps[n - 1])) else (s, h)
  }

  // ---- the assumption on the matches a crawl can meet ----

  /** Ten distinct players each; a player stays on one platform and never starts two matches at once. */
  ghost predicate Compatible(ms: set<MatchIn>) {
    && (forall m | m in ms :: |m.puuids| == TEAM && forall i, j | 0 <= i < j < TEAM :: m.puuids[i] != m.puuids[j])
    && (forall m, m', p | m in ms && m' in ms && p in m.puuids && p in m'.puuids ::
          m.platform == m'.platform && (m.ts == m'.ts ==> m.gid == m'.gid))
  }

  ghost predicate Stores(steps: seq<Step>, ms: set<MatchIn>) {
    forall i | 0 <= i < |steps| && steps[i].Txn? :: steps[i].m in ms
  }

  // ---- invariants ----

  /** Ids a segment may hold are bound in the tables that would survive with it. */
  ghost predicate IdsSafe(s: State) {
    && IdsOk(s.db.players, s.next)
    && Extends(s.durable.players, s.db.players)
    && (forall r | r in s.flushed :: Bound(s.durable.players, r.puuids, r.pids))
    && (forall platform, r | platform in s.writers && r in s.writers[platform] :: Bound(s.db.players, r.puuids, r.pids))
    && (s.phase.Appending? || s.phase.RollReady? || s.phase.Rolled? ==>
          Bound(s.db.players, s.phase.rec.puuids, s.phase.rec.pids))
    && (s.phase.RollReady? || s.phase.Flushing? ==> s.db == s.durable)
  }

  /** The game's record is in a flushed segment, or the game was given up on for good. */
  ghost predicate Settled(s: State, h: History, key: GameKey) {
    key in h.skipped || exists r :: r in s.flushed && r.key == key
  }

  ghost predicate Buffered(s: State, key: GameKey) {
    exists platform, r :: platform in s.writers && r in s.writers[platform] && r.key == key
  }

  ghost predicate SeenSafe(s: State, h: History) {
    && (forall key | key in s.durable.seen :: Settled(s, h, key))
    && (forall key | key in s.seen :: Settled(s, h, key) || Buffered(s, key))
    && s.db.seen == s.durable.seen
    && (!s.dirty ==> s.seen == s.durable.seen)
    && (s.phase.Flushing? ==>
          forall platform | platform in s.writers && platform !in s.phase.todo :: s.writers[platform] == [])
  }

  /** Every counted match is one of the matches met, with the ids the table gives its players. */
  ghost predicate Met(players: Players, log: Log, ms: set<MatchIn>) {
    forall k | k in log :: exists m ::
      m in ms && m.Key() == k && log[k].ts == m.ts && Bound(players, m.puuids, log[k].players)
  }

  ghost predicate CountsExact(s: State, h: History, ms: set<MatchIn>) {
    && Exact(s.db, h.log) && Exact(s.durable, h.durableLog)
    && Met(s.db.players, h.log, ms) && Met(s.durable.players, h.durableLog, ms)
  }

  // ---- ids ----

  lemma TxnPlayers(db: Db, next: nat, m: MatchIn, paused: bool)
    requires TablesOk(db.timeline, db.progress) && |m.puuids| == TEAM
    ensures var r := StoreTxn(db, next, m, paused);
            var ids := AssignIds(db.players, next, m.puuids, TEAM);
            r.db.players == ids.players && r.next == ids.next && r.pids == ids.pids && r.db.seen == db.seen
  {
    hide AssignIds, SightAll, FreshProgress, InsertGames, RetroAll, TablesOk;
  }

  lemma IdsStaySafe(s: State, step: Step)
    requires IdsSafe(s) && Enabled(s, step)
    ensures IdsSafe(Next(s, step))
  {
    hide IdsOk, Bound, Extends, StoreTxn, AssignIds, TablesOk, NextFree;
    match step
    case Assign(puuids) =>
      AssignKeeps(s.db.players, s.next, puuids);
      PlayersGrow(s, Next(s, step));
    case Txn(m, paused) =>
      AssignKeeps(s.db.players, s.next, m.puuids);
      TxnPlayers(s.db, s.next, m, paused);
      PlayersGrow(s, Next(s, step));
    case Crash(next) =>
      SubIds(s.durable.players, s.db.players, s.next, next);
    case RollCheckpoint =>
      CheckpointBinds(s);
    case CommitCheckpoint =>
      CheckpointBinds(s);
    case RollFlush =>
      FlushBinds(s, s.phase.rec.key.platform);
    case FlushWriter(platform) =>
      FlushBinds(s, platform);
    case CommitBitmaps =>
      CheckpointBinds(s);
    case Append =>
      AppendBinds(s);
    case _ =>
  }

  lemma PlayersGrow(s: State, s': State)
    requires IdsSafe(s) && Extends(s.db.players, s'.db.players)
    ensures Extends(s.durable.players, s'.db.players)
    ensures forall platform, r | platform in s.writers && r in s.writers[platform] ::
              Bound(s'.db.players, r.puuids, r.pids)
  {
    hide IdsOk, Bound;
    forall platform, r | platform in s.writers && r in s.writers[platform]
      ensures Bound(s'.db.players, r.puuids, r.pids)
    {
      BoundGrows(s.db.players, s'.db.players, r.puuids, r.pids);
    }
  }

  lemma SubIds(a: Players, b: Players, next: nat, next': nat)
    requires IdsOk(b, next) && Extends(a, b) && NextFree(a, next')
    ensures IdsOk(a, next') && Extends(a, a)
  {
  }

  lemma CheckpointBinds(s: State)
    requires IdsSafe(s)
    ensures forall r | r in s.flushed :: Bound(s.db.players, r.puuids, r.pids)
    ensures Extends(s.db.players, s.db.players)
  {
    hide IdsOk, Bound;
    forall r | r in s.flushed ensures Bound(s.db.players, r.puuids, r.pids) {
      BoundGrows(s.durable.players, s.db.players, r.puuids, r.pids);
    }
  }

  lemma FlushBinds(s: State, platform: Platform)
    requires IdsSafe(s) && s.db == s.durable
    ensures forall r | r in Flushed(s, platform).flushed :: Bound(s.durable.players, r.puuids, r.pids)
  {
    hide IdsOk, Bound, Extends;
  }

  lemma AppendBinds(s: State)
    requires IdsSafe(s) && Enabled(s, Append)
    ensures var s' := Next(s, Append);
            forall platform, r | platform in s'.writers && r in s'.writers[platform] ::
                     Bound(s.db.players, r.puuids, r.pids)
  {
    hide IdsOk, Bound, Extends;
  }

  // ---- seen ----

  lemma SeenStaysSafe(s: State, h: History, step: Step)
    requires SeenSafe(s, h) && Enabled(s, step)
    ensures SeenSafe(Next(s, step), NextHistory(s, h, step))
  {
    hide StoreTxn, AssignIds, TablesOk, NextFree, LogAfter, Settled, Buffered;
    var s', h' := Next(s, step), NextHistory(s, h, step);
    match step
    case Skip(key) =>
      SettledStays(s, h, s', h');
    case Txn(m, paused) =>
      TxnPlayers(s.db, s.next, m, paused);
      SettledStays(s, h, s', h');
    case RollFlush =>
      FlushSettles(s, h, s.phase.rec.key.platform, s', h');
    case FlushWriter(platform) =>
      FlushSettles(s, h, platform, s', h');
    case Append =>
      SettledStays(s, h, s', h');
      AppendBuffers(s);
    case CommitBitmaps =>
      SettledStays(s, h, s', h');
      AllFlushed(s, h);
    case _ =>
      SettledStays(s, h, s', h');
  }

  lemma SettledStays(s: State, h: History, s': State, h': History)
    requires h.skipped <= h'.skipped && (forall r | r in s.flushed :: r in s'.flushed)
    ensures forall key | Settled(s, h, key) :: Settled(s', h', key)
    ensures forall key | key in h'.skipped :: Settled(s', h', key)
    ensures s.writers == s'.writers ==> forall key | Buffered(s, key) :: Buffered(s', key)
  {
  }

  lemma FlushSettles(s: State, h: History, platform: Platform, s': State, h': History)
    requires h' == h && s'.flushed == Flushed(s, platform).flushed && s'.writers == Flushed(s, platform).writers
    ensures forall key | Settled(s, h, key) :: Settled(s', h', key)
    ensures forall key | Buffered(s, key) :: Settled(s', h', key) || Buffered(s', key)
  {
    forall key | Buffered(s, key) ensures Settled(s', h', key) || Buffered(s', key) {
      var other, r :| other in s.writers && r in s.writers[other] && r.key == key;
      if other == platform {
        assert r in s'.flushed;
      } else {
        assert other in s'.writers && r in s'.writers[other];
      }
    }
  }

  lemma AppendBuffers(s: State)
    requires Enabled(s, Append)
    ensures forall key | Buffered(s, key) :: Buffered(Next(s, Append), key)
    ensures Buffered(Next(s, Append), s.phase.rec.key)
  {
    var s' := Next(s, Append);
    var platform := s.phase.rec.key.platform;
    assert s.phase.rec in s'.writers[platform];
    forall key | Buffered(s, key) ensures Buffered(s', key) {
      var other, r :| other in s.writers && r in s.writers[other] && r.key == key;
      assert other in s'.writers && r in s'.writers[other];
    }
  }

  lemma AllFlushed(s: State, h: History)
    requires SeenSafe(s, h) && s.phase == Flushing({})
    ensures forall key | key in s.seen :: Settled(s, h, key)
    ensures forall platform | platform in s.writers :: s.writers[platform] == []
  {
    hide Settled;
  }

  // ---- counts ----

  lemma MetGrows(a: Players, b: Players, log: Log, ms: set<MatchIn>)
    requires Met(a, log, ms) && Extends(a, b)
    ensures Met(b, log, ms)
  {
    hide Bound, Extends;
    forall k | k in log
      ensures exists m :: m in ms && m.Key() == k && log[k].ts == m.ts && Bound(b, m.puuids, log[k].players)
    {
      var m :| m in ms && m.Key() == k && log[k].ts == m.ts && Bound(a, m.puuids, log[k].players);
      BoundGrows(a, b, m.puuids, log[k].players);
    }
  }

  lemma SharedPlayer(players: Players, next: nat, a: seq<Puuid>, b: seq<Puuid>, x: seq<nat>, y: seq<nat>, p: nat)
    returns (puuid: Puuid)
    requires IdsOk(players, next) && Bound(players, a, x) && Bound(players, b, y) && p in x && p in y
    ensures puuid in a && puuid in b
  {
    var i :| 0 <= i < |x| && x[i] == p;
    var j :| 0 <= j < |y| && y[j] == p;
    assert players[a[i]] == p && players[b[j]] == p;
    puuid := a[i];
  }

  /** A new match of a compatible crawl keeps the log's assumptions. */
  lemma MetJoins(players: Players, next: nat, log: Log, ms: set<MatchIn>, m: MatchIn, pids: seq<nat>)
    requires Compatible(ms) && m in ms && IdsOk(players, next) && Met(players, log, ms)
             && Bound(players, m.puuids, pids)
    requires m.Key() !in log
    ensures CanJoin(log, m.platform, Game(m.ts, pids))
    ensures Met(players, log[m.Key() := Game(m.ts, pids)], ms)
  {
    hide IdsOk, Bound;
    assert |pids| == TEAM by { BoundLength(players, m.puuids, pids); }
    BoundDistinct(players, next, m.puuids, pids);
    forall k, p | k in log && p in log[k].players && p in pids ensures k.platform == m.platform && log[k].ts != m.ts {
      var m' :| m' in ms && m'.Key() == k && log[k].ts == m'.ts && Bound(players, m'.puuids, log[k].players);
      var puuid := SharedPlayer(players, next, m'.puuids, m.puuids, log[k].players, pids, p);
    }
    var log' := log[m.Key() := Game(m.ts, pids)];
    forall k | k in log'
      ensures exists m' ::
                m' in ms && m'.Key() == k && log'[k].ts == m'.ts && Bound(players, m'.puuids, log'[k].players)
    {
      if k == m.Key() {
        assert log'[k].ts == m.ts && Bound(players, m.puuids, log'[k].players);
      } else {
        var m' :| m' in ms && m'.Key() == k && log[k].ts == m'.ts && Bound(players, m'.puuids, log[k].players);
      }
    }
  }

  lemma BoundLength(players: Players, puuids: seq<Puuid>, pids: seq<nat>)
    requires Bound(players, puuids, pids)
    ensures |pids| == |puuids|
  {
  }

  lemma TxnCounts(db: Db, next: nat, log: Log, ms: set<MatchIn>, m: MatchIn, paused: bool)
    requires Compatible(ms) && m in ms && IdsOk(db.players, next) && Exact(db, log) && Met(db.players, log, ms)
    requires TablesOk(db.timeline, db.progress) && |m.puuids| == TEAM
    ensures var r := StoreTxn(db, next, m, paused);
            var log' := LogAfter(db, log, m, r.pids);
            Exact(r.db, log') && Met(r.db.players, log', ms)
  {
    hide IdsOk, Bound, Extends, StoreTxn, AssignIds, TablesOk, Exact, Met, Compatible, CanJoin;
    AssignKeeps(db.players, next, m.puuids);
    TxnPlayers(db, next, m, paused);
    var r := StoreTxn(db, next, m, paused);
    MetGrows(db.players, r.db.players, log, ms);
    if m.Key() !in db.progress && !m.remake {
      ExactNotStored(db, log, m.Key());
      MetJoins(r.db.players, r.next, log, ms, m, r.pids);
    }
    StoreStaysExact(db, log, next, m, paused);
  }

  lemma ExactNotStored(db: Db, log: Log, key: GameKey)
    requires Exact(db, log) && key !in db.progress
    ensures key !in log
  {
    NotStored(db.progress, log, key);
  }

  /** Enrolment touches only the cohort and the sighting counts, and forgets a member's sightings. */
  lemma EnrolCounts(db: Db, log: Log, pids: seq<nat>)
    requires Exact(db, log)
    ensures Exact(CohortAdd(db, pids), log)
  {
    hide LogOk, TlExact, ProgExact, TotalsExact, GamesOf;
    var db' := CohortAdd(db, pids);
    forall p: nat | p !in db'.cohort ensures Get(db'.outsider, p) == |GamesOf(log, p)| {
      assert Get(db.outsider, p) == |GamesOf(log, p)|;
    }
  }

  lemma OtherTables(a: Db, b: Db, log: Log)
    requires Exact(a, log) && b == a.(players := b.players, seen := b.seen)
    ensures Exact(b, log)
  {
    hide LogOk, TlExact, ProgExact, TotalsExact, SightingsExact;
  }

  lemma CountsStayExact(s: State, h: History, step: Step, ms: set<MatchIn>)
    requires IdsSafe(s) && CountsExact(s, h, ms) && Enabled(s, step) && Compatible(ms) && (step.Txn? ==> step.m in ms)
    ensures CountsExact(Next(s, step), NextHistory(s, h, step), ms)
  {
    hide IdsOk, Bound, Extends, StoreTxn, AssignIds, TablesOk, NextFree, Exact, Met, Compatible, LogAfter, CohortAdd;
    match step
    case Assign(puuids) =>
      AssignKeeps(s.db.players, s.next, puuids);
      var s' := Next(s, step);
      OtherTables(s.db, s'.db, h.log);
      MetGrows(s.db.players, s'.db.players, h.log, ms);
    case Enrol(pids) =>
      EnrolCounts(s.db, h.log, pids);
      EnrolPlayers(s.db, pids);
    case Txn(m, paused) =>
      TxnCounts(s.db, s.next, h.log, ms, m, paused);
    case CommitBitmaps =>
      OtherTables(s.db, Next(s, step).db, h.log);
      OtherTables(s.durable, Next(s, step).db, h.durableLog);
    case _ =>
  }

  lemma EnrolPlayers(db: Db, pids: seq<nat>)
    ensures CohortAdd(db, pids).players == db.players && CohortAdd(db, pids).seen == db.seen
  {
  }

  // ---- over all runs ----

  lemma FreshOk(ms: set<MatchIn>)
    ensures IdsSafe(Fresh()) && SeenSafe(Fresh(), NoHistory()) && CountsExact(Fresh(), NoHistory(), ms)
  {
    var db := EmptyDb();
    forall platform ensures Get(db.valid, platform) == |FullSamples(db.progress, platform)| {
      assert FullSamples(db.progress, platform) == {};
    }
    forall p: nat ensures Get(db.outsider, p) == |GamesOf(map[], p)| {
      assert GamesOf(map[], p) == {};
    }
  }

  /** In every run, with crashes anywhere: flushed ids stay bound in the durable table, and the durable bitmap names
      only games that are on disk or given up on. */
  lemma {:induction false} RunsAreSafe(steps: seq<Step>, n: nat)
    requires n <= |steps|
    ensures var (s, h) := Run(steps, n); IdsSafe(s) && SeenSafe(s, h)
  {
    hide IdsSafe, SeenSafe, Next, NextHistory, Enabled, Fresh, NoHistory, CountsExact;
    if n == 0 {
      FreshOk({});
    } else {
      RunsAreSafe(steps, n - 1);
      var (s, h) := Run(steps, n - 1);
      if Enabled(s, steps[n - 1]) {
        IdsStaySafe(s, steps[n - 1]);
        SeenStaysSafe(s, h, steps[n - 1]);
      }
    }
  }

  /** In every run of a compatible crawl, live and durable tables are exact for the matches they hold. */
  lemma {:induction false} RunsAreExact(steps: seq<Step>, n: nat, ms: set<MatchIn>)
    requires n <= |steps| && Compatible(ms) && Stores(steps, ms)
    ensures var (s, h) := Run(steps, n); CountsExact(s, h, ms)
  {
    hide IdsSafe, SeenSafe, Next, NextHistory, Enabled, Fresh, NoHistory, CountsExact, Compatible;
    if n == 0 {
      FreshOk(ms);
    } else {
      RunsAreExact(steps, n - 1, ms);
      RunsAreSafe(steps, n - 1);
      var (s, h) := Run(steps, n - 1);
      if Enabled(s, steps[n - 1]) {
        CountsStayExact(s, h, steps[n - 1], ms);
      }
    }
  }

  /** Flushed records are never lost, and the durable table never unbinds their players. */
  lemma {:induction false} FlushedForever(steps: seq<Step>, m: nat, n: nat, r: Rec)
    requires m <= n <= |steps| && r in Run(steps, m).0.flushed
    ensures r in Run(steps, n).0.flushed
    ensures Bound(Run(steps, n).0.durable.players, r.puuids, r.pids)
    decreases n
  {
    hide Bound, AssignIds, StoreTxn, Enabled;
    RunsAreSafe(steps, n);
    if m < n {
      FlushedForever(steps, m, n - 1, r);
    }
  }

  /** No id in the durable table ever names two players. */
  lemma DurableInjective(steps: seq<Step>, n: nat, p: Puuid, q: Puuid)
    requires n <= |steps|
    requires var t := Run(steps, n).0.durable.players; p in t && q in t && t[p] == t[q]
    ensures p == q
  {
    hide Run;
    RunsAreSafe(steps, n);
  }

  /** A finished commit leaves nothing to lose: a crash right after it changes no table and no bitmap. */
  lemma CommitIsDurable(s: State, h: History, next: nat)
    requires IdsSafe(s) && SeenSafe(s, h) && s.phase == Flushing({}) && NextFree(s.db.players, next)
    ensures var done := Next(s, CommitBitmaps);
            && done.durable == done.db && done.durable.seen == done.seen
            && (forall platform | platform in done.writers :: done.writers[platform] == [])
            && Next(done, Crash(next)) == done.(next := next, writers := map[])
  {
    hide IdsOk, Bound, Settled;
    AllFlushed(s, h);
  }
}
