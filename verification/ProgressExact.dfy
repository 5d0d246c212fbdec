/**
 What the tables say about the set of stored matches, and that one `store_match`
 transaction keeps it true: progress records, the valid-sample totals, the
 sighting counts and the cohort.
 */
module ProgressExact {
  import opened StoreSpec
  import opened ProgressProof

  // ---- totals ----

  function One(b: bool): nat { if b then 1 else 0 }

  lemma FullAfterBump(prog: ProgressTable, k: GameKey, slot: nat, platform: Platform)
    requires k in prog && prog[k].Slots? && slot < |prog[k].counts|
    ensures |FullSamples(prog[k := BumpSlot(prog[k], slot)], platform)|
         == |FullSamples(prog, platform)| + One(platform == k.platform && BumpSlot(prog[k], slot).full && !prog[k].full)
  {
    hide AllFull;
    var pr := BumpSlot(prog[k], slot);
    var before, after := FullSamples(prog, platform), FullSamples(prog[k := pr], platform);
    if platform == k.platform && pr.full && !prog[k].full {
      assert after == before + {k};
    } else {
      assert after == before;
    }
  }

  /** The pass reports exactly the matches it completes, all on its platform. */
  lemma {:induction false} RetroPlayerTotal(prog: ProgressTable, tl: Timeline, platform: Platform, p: nat,
                                            times: seq<nat>, i: nat, other: Platform)
    requires i <= |times| && TablesOk(tl, prog)
    requires forall j | 0 <= j < |times| :: TlKey(p, times[j]) in tl
    ensures var r := RetroPlayer(prog, tl, platform, p, times, i);
            |FullSamples(r.prog, other)| == |FullSamples(prog, other)| + (if other == platform then r.newly else 0)
    decreases |times| - i
  {
    hide BumpSlot, FullSamples;
    if i < |times| {
      var v := tl[TlKey(p, times[i])];
      var key := GameKey(platform, v.gid);
      if key !in prog || prog[key].Remake? {
        RetroPlayerTotal(prog, tl, platform, p, times, i + 1, other);
      } else if prog[key].counts[v.slot] < HISTORY_REQUIRED {
        var prog' := prog[key := BumpSlot(prog[key], v.slot)];
        FullAfterBump(prog, key, v.slot, other);
        RetroPlayerTotal(prog', tl, platform, p, times, i + 1, other);
      }
    }
  }

  lemma {:induction false} RetroAllTotal(prog: ProgressTable, tl: Timeline, platform: Platform, pids: seq<nat>,
                                         ts: nat, n: nat, other: Platform)
    requires n <= |pids| && TablesOk(tl, prog)
    ensures var r := RetroAll(prog, tl, platform, pids, ts, n);
            |FullSamples(r.prog, other)| == |FullSamples(prog, other)| + (if other == platform then r.newly else 0)
  {
    hide RetroPlayer, FullSamples, TablesOk;
    if n > 0 {
      RetroAllTotal(prog, tl, platform, pids, ts, n - 1, other);
      var a := RetroAll(prog, tl, platform, pids, ts, n - 1);
      var times := Sorted(Later(tl, pids[n - 1], ts));
      forall j | 0 <= j < |times| ensures TlKey(pids[n - 1], times[j]) in tl {
        assert times[j] in times;
      }
      RetroPlayerTotal(a.prog, tl, platform, pids[n - 1], times, 0, other);
    }
  }

  lemma FullAfterInsert(prog: ProgressTable, k: GameKey, pr: Progress, platform: Platform)
    requires k !in prog && pr.Slots?
    ensures |FullSamples(prog[k := pr], platform)|
            == |FullSamples(prog, platform)| + One(platform == k.platform && pr.full)
  {
    var before, after := FullSamples(prog, platform), FullSamples(prog[k := pr], platform);
    if platform == k.platform && pr.full {
      assert after == before + {k};
    } else {
      assert after == before;
    }
  }

  // ---- sightings ----

  /** The stored matches of `p`. */
  function GamesOf(log: Log, p: nat): set<GameKey> {
    set k | k in log && p in log[k].players
  }

  ghost predicate CrowdOk(cohort: set<nat>, outsider: map<nat, nat>) {
    forall p | p in outsider :: p !in cohort
  }

  /** What sighting distinct players does to every player. */
  lemma {:induction false} Sighted(cohort: set<nat>, outsider: map<nat, nat>, pids: seq<nat>, paused: bool, n: nat)
    requires n <= |pids| && Distinct(pids) && CrowdOk(cohort, outsider)
    ensures var c := SightAll(cohort, outsider, pids, paused, n);
            && CrowdOk(c.cohort, c.outsider)
            && cohort <= c.cohort
            && (forall p :: p in c.adopted <==> p in c.cohort && p !in cohort)
            && (forall p | p in c.cohort && p !in cohort ::
                  p in pids[..n] && !paused && Get(outsider, p) + 1 >= ADOPTION_THRESHOLD)
            && (forall p | p in pids[..n] && p !in cohort && !paused && Get(outsider, p) + 1 >= ADOPTION_THRESHOLD ::
                  p in c.cohort)
            && (forall p | p !in c.cohort :: Get(c.outsider, p) == Get(outsider, p) + One(p in pids[..n]))
  {
    if n > 0 {
      Sighted(cohort, outsider, pids, paused, n - 1);
      var c := SightAll(cohort, outsider, pids, paused, n - 1);
      var q := pids[n - 1];
      assert forall p :: p in pids[..n] <==> p in pids[..n - 1] || p == q;
      assert q !in pids[..n - 1];
    }
  }

  lemma GamesOfGrows(log: Log, key: GameKey, g: Game, p: nat)
    requires key !in log
    ensures |GamesOf(log[key := g], p)| == |GamesOf(log, p)| + One(p in g.players)
  {
    var before, after := GamesOf(log, p), GamesOf(log[key := g], p);
    if p in g.players {
      assert after == before + {key};
    } else {
      assert after == before;
    }
  }

  // ---- exactness ----

  /** Progress records are the from-scratch counts; a record without counts is a remake's marker. */
  ghost predicate ProgExact(prog: ProgressTable, log: Log) {
    && (forall k | k in log :: k in prog && prog[k] == Expected(log, log[k]))
    && (forall k | k in prog && prog[k].Slots? :: k in log)
  }

  ghost predicate TotalsExact(valid: map<Platform, nat>, prog: ProgressTable) {
    forall platform :: Get(valid, platform) == |FullSamples(prog, platform)|
  }

  /** Outside the cohort, the sighting count is the number of stored matches with the player in it. */
  ghost predicate SightingsExact(cohort: set<nat>, outsider: map<nat, nat>, log: Log) {
    && CrowdOk(cohort, outsider)
    && (forall p: nat | p !in cohort :: Get(outsider, p) == |GamesOf(log, p)|)
  }

  ghost predicate Exact(db: Db, log: Log) {
    && LogOk(log) && TlExact(db.timeline, log) && ProgExact(db.progress, log)
    && TotalsExact(db.valid, db.progress)
    && SightingsExact(db.cohort, db.outsider, log)
  }

  lemma ExpectedIsCounted(tl: Timeline, log: Log, g: Game)
    requires LogOk(log) && TlExact(tl, log)
    ensures Expected(log, g) == Counted(tl, g, {})
  {
    hide LogOk, TlExact, Before, GamesBefore;
    var x, y := Expected(log, g).counts, Counted(tl, g, {}).counts;
    forall i | 0 <= i < |g.players| ensures x[i] == y[i] {
      CountsAgree(tl, log, g.players[i], g.ts);
    }
    assert x == y;
  }

  lemma ExactTables(tl: Timeline, prog: ProgressTable, log: Log)
    requires LogOk(log) && TlExact(tl, log) && ProgExact(prog, log)
    ensures TablesOk(tl, prog)
  {
    hide GamesBefore, AllFull;
    forall key | key in tl ensures tl[key].slot < TEAM {
      var k :| Owner(log, tl, key, k);
    }
    assert forall k | k in log :: |Expected(log, log[k]).counts| == TEAM;
  }

  lemma FreshIsCounted(tl: Timeline, g: Game)
    ensures FreshProgress(tl, g.players, g.ts) == Counted(tl, g, {})
  {
    hide Before, AllFull;
    assert FreshProgress(tl, g.players, g.ts).counts == Counted(tl, g, {}).counts;
  }

  /** With the new match's own record in place, every record counts the timelines as they were before it. */
  lemma InitialCounted(db: Db, log: Log, key: GameKey, g: Game)
    requires LogOk(log) && TlExact(db.timeline, log) && ProgExact(db.progress, log) && key !in db.progress
    ensures ProgCounted(db.progress[key := FreshProgress(db.timeline, g.players, g.ts)], db.timeline, log[key := g], {})
  {
    hide LogOk, TlExact, FreshProgress, Counted, Expected;
    var log' := log[key := g];
    FreshIsCounted(db.timeline, g);
    forall k | k in log ensures db.progress[k] == Counted(db.timeline, log[k], {}) {
      ExpectedIsCounted(db.timeline, log, log[k]);
    }
  }

  lemma CountedIsExact(tl: Timeline, prog: ProgressTable, log: Log)
    requires LogOk(log) && TlExact(tl, log) && ProgCounted(prog, tl, log, {})
    ensures ProgExact(prog, log)
  {
    hide LogOk, TlExact, Counted, Expected;
    forall k | k in log ensures prog[k] == Expected(log, log[k]) {
      ExpectedIsCounted(tl, log, log[k]);
    }
  }

  /** Progress and timelines after counting a new match. */
  lemma RecordsStayExact(db: Db, log: Log, m: MatchIn, pids: seq<nat>, paused: bool)
    requires Exact(db, log) && m.Key() !in db.progress && |pids| == TEAM && TablesOk(db.timeline, db.progress)
    requires CanJoin(log, m.platform, Game(m.ts, pids))
    ensures var (db', _) := CountMatch(db, m, pids, paused);
            var log' := log[m.Key() := Game(m.ts, pids)];
            LogOk(log') && TlExact(db'.timeline, log') && ProgExact(db'.progress, log')
  {
    hide Counted, ProgCounted, FreshProgress, RetroAll, InsertGames, SightAll, Inserted, ProgExact, TotalsExact,
         SightingsExact;
    var g := Game(m.ts, pids);
    var key := m.Key();
    assert key !in log by { NotStored(db.progress, log, key); }
    var log' := log[key := g];
    var tl := db.timeline;
    var tl' := InsertGames(tl, pids, m.ts, m.gid, |pids|);
    var prog0 := db.progress[key := FreshProgress(tl, pids, m.ts)];
    InsertedAll(tl, g, m.gid);
    LogGrows(log, key, g);
    TimelineGrows(tl, tl', log, key, g);
    InitialCounted(db, log, key, g);
    CountedTables(tl', prog0, tl, log');
    OnePlatform(log, key, g);
    var bumped := RetroAllCounts(prog0, tl, tl', log', m.platform, pids, m.ts, |pids|);
    CountsSettle(RetroAll(prog0, tl', m.platform, pids, m.ts, |pids|).prog, tl, tl', log, key, g, bumped);
    CountedIsExact(tl', RetroAll(prog0, tl', m.platform, pids, m.ts, |pids|).prog, log');
  }

  lemma NotStored(prog: ProgressTable, log: Log, key: GameKey)
    requires ProgExact(prog, log) && key !in prog
    ensures key !in log
  {
  }

  lemma OnePlatform(log: Log, key: GameKey, g: Game)
    requires CanJoin(log, key.platform, g)
    ensures forall k, p | k in log[key := g] && p in g.players && p in log[key := g][k].players ::
              k.platform == key.platform
  {
  }

  lemma CountedTables(tl: Timeline, prog: ProgressTable, tl0: Timeline, log: Log)
    requires LogOk(log) && TlExact(tl, log) && ProgCounted(prog, tl0, log, {})
    ensures TablesOk(tl, prog)
  {
    forall key | key in tl ensures tl[key].slot < TEAM {
      var k :| Owner(log, tl, key, k);
    }
    assert forall k | k in log :: |Counted(tl0, log[k], {}).counts| == TEAM;
  }

  lemma TotalsStayExact(db: Db, m: MatchIn, pids: seq<nat>, paused: bool)
    requires TotalsExact(db.valid, db.progress) && m.Key() !in db.progress && |pids| == TEAM
    requires TablesOk(db.timeline, db.progress)
    ensures var (db', _) := CountMatch(db, m, pids, paused); TotalsExact(db'.valid, db'.progress)
  {
    hide FreshProgress, RetroAll, InsertGames, SightAll, FullSamples;
    var key := m.Key();
    var initial := FreshProgress(db.timeline, pids, m.ts);
    var prog0 := db.progress[key := initial];
    var tl' := InsertGames(db.timeline, pids, m.ts, m.gid, |pids|);
    assert initial.Slots? && |initial.counts| == TEAM by { FreshShape(db.timeline, pids, m.ts); }
    InsertedOk(db.timeline, pids, m.ts, m.gid, |pids|);
    forall platform ensures Get(CountMatch(db, m, pids, paused).0.valid, platform)
                         == |FullSamples(CountMatch(db, m, pids, paused).0.progress, platform)|
    {
      FullAfterInsert(db.progress, key, initial, platform);
      RetroAllTotal(prog0, tl', m.platform, pids, m.ts, |pids|, platform);
    }
  }

  lemma FreshShape(tl: Timeline, pids: seq<nat>, ts: nat)
    ensures var pr := FreshProgress(tl, pids, ts); pr.Slots? && |pr.counts| == |pids|
  {
  }

  lemma SightingsStayExact(cohort: set<nat>, outsider: map<nat, nat>, log: Log, key: GameKey, g: Game, paused: bool)
    requires SightingsExact(cohort, outsider, log) && key !in log && Distinct(g.players)
    ensures var c := SightAll(cohort, outsider, g.players, paused, |g.players|);
            SightingsExact(c.cohort, c.outsider, log[key := g])
  {
    hide SightAll, GamesOf, Distinct;
    Sighted(cohort, outsider, g.players, paused, |g.players|);
    assert g.players[..|g.players|] == g.players;
    var c := SightAll(cohort, outsider, g.players, paused, |g.players|);
    forall p: nat | p !in c.cohort ensures Get(c.outsider, p) == |GamesOf(log[key := g], p)| {
      GamesOfGrows(log, key, g, p);
    }
  }

  /** The stored matches after the transaction: a match counts once, a remake never. */
  function LogAfter(db: Db, log: Log, m: MatchIn, pids: seq<nat>): Log {
    if m.Key() in db.progress || m.remake then log else log[m.Key() := Game(m.ts, pids)]
  }

  lemma RemakeMarked(db: Db, log: Log, key: GameKey)
    requires Exact(db, log) && key !in db.progress
    ensures Exact(db.(progress := db.progress[key := Remake]), log)
  {
    hide LogOk, TlExact, SightingsExact, Expected;
    forall platform ensures FullSamples(db.progress[key := Remake], platform) == FullSamples(db.progress, platform) {
    }
  }

  /** One transaction keeps every derived table exact. */
  lemma StoreStaysExact(db: Db, log: Log, next: nat, m: MatchIn, paused: bool)
    requires Exact(db, log) && |m.puuids| == TEAM
    requires m.Key() in db.progress || m.remake
          || CanJoin(log, m.platform, Game(m.ts, AssignIds(db.players, next, m.puuids, TEAM).pids))
    ensures TablesOk(db.timeline, db.progress)
    ensures var r := StoreTxn(db, next, m, paused); Exact(r.db, LogAfter(db, log, m, r.pids))
  {
    hide LogOk, TlExact, ProgExact, TotalsExact, SightingsExact, CountMatch, AssignIds, TablesOk;
    ExactTables(db.timeline, db.progress, log);
    var ids := AssignIds(db.players, next, m.puuids, TEAM);
    var named := db.(players := ids.players);
    if m.Key() in db.progress {
    } else if m.remake {
      RemakeMarked(named, log, m.Key());
    } else {
      NotStored(db.progress, log, m.Key());
      RecordsStayExact(named, log, m, ids.pids, paused);
      TotalsStayExact(named, m, ids.pids, paused);
      SightingsStayExact(named.cohort, named.outsider, log, m.Key(), Game(m.ts, ids.pids), paused);
      CrowdCounted(named, m, ids.pids, paused);
    }
  }

  lemma CrowdCounted(db: Db, m: MatchIn, pids: seq<nat>, paused: bool)
    requires |pids| == TEAM && TablesOk(db.timeline, db.progress)
    ensures var (db', adopted) := CountMatch(db, m, pids, paused);
            var c := SightAll(db.cohort, db.outsider, pids, paused, |pids|);
            db'.cohort == c.cohort && db'.outsider == c.outsider && adopted == c.adopted
  {
  }

  // ---- any order ----

  /** The stored matches determine the timelines, the records and the totals: the order they came in does not matter. */
  lemma OrderDoesNotMatter(a: Db, b: Db, log: Log, platform: Platform)
    requires Exact(a, log) && Exact(b, log)
    requires forall k :: k in a.progress <==> k in b.progress
    ensures a.timeline == b.timeline && a.progress == b.progress && Get(a.valid, platform) == Get(b.valid, platform)
  {
    hide LogOk, SightingsExact, Expected, FullSamples;
    forall key | key in a.timeline ensures key in b.timeline && a.timeline[key] == b.timeline[key] {
      SameEntry(a.timeline, b.timeline, log, key);
    }
    forall key | key in b.timeline ensures key in a.timeline {
      SameEntry(b.timeline, a.timeline, log, key);
    }
    forall k | k in a.progress ensures a.progress[k] == b.progress[k] {
    }
  }

  lemma SameEntry(a: Timeline, b: Timeline, log: Log, key: TlKey)
    requires TlExact(a, log) && TlExact(b, log) && key in a
    ensures key in b && a[key] == b[key]
  {
    var k :| Owner(log, a, key, k);
    var i := a[key].slot;
    assert TlKey(log[k].players[i], log[k].ts) == key;
  }
}
