/**
 What the tables keep in every run, whatever the matches and wherever the
 crashes: slot indices stay in range, the totals are the flagged matches, and,
 when the ten players of each match differ, the sightings are exact. None of it
 asks anything of starts or platforms.
 */
module StoreAlways {
  import opened StoreSpec
  import opened PlayerIds
  import opened ProgressProof
  import opened ProgressExact
  import opened ProgressLimits
  import opened RetroExact
  import opened StoreRun
  import opened Restore

  // ---- indices and totals, in all runs ----

  ghost predicate InRange(db: Db) {
    TablesOk(db.timeline, db.progress) && TotalsExact(db.valid, db.progress)
  }

  lemma CountInRange(db: Db, m: MatchIn, pids: seq<nat>, paused: bool)
    requires InRange(db) && |pids| == TEAM && m.Key() !in db.progress
    ensures InRange(CountMatch(db, m, pids, paused).0)
  {
    hide TablesOk, TotalsExact, RetroAll, FreshProgress, InsertGames, SightAll;
    TotalsStayExact(db, m, pids, paused);
    Shapes(db, m, pids);
  }

  lemma RemakeInRange(db: Db, key: GameKey)
    requires InRange(db) && key !in db.progress
    ensures InRange(db.(progress := db.progress[key := Remake]))
  {
    forall platform ensures FullSamples(db.progress[key := Remake], platform) == FullSamples(db.progress, platform) {
    }
  }

  lemma SameTables(a: Db, b: Db)
    requires InRange(a) && b.timeline == a.timeline && b.progress == a.progress && b.valid == a.valid
    ensures InRange(b)
  {
  }

  lemma TxnInRange(db: Db, next: nat, m: MatchIn, paused: bool)
    requires InRange(db) && |m.puuids| == TEAM
    ensures InRange(StoreTxn(db, next, m, paused).db)
  {
    hide TablesOk, TotalsExact, AssignIds, CountMatch;
    var ids := AssignIds(db.players, next, m.puuids, |m.puuids|);
    var named := db.(players := ids.players);
    SameTables(db, named);
    if m.Key() !in db.progress {
      if m.remake {
        RemakeInRange(named, m.Key());
      } else {
        CountInRange(named, m, ids.pids, paused);
      }
    }
  }

  lemma StepInRange(s: State, step: Step)
    requires InRange(s.db) && InRange(s.durable) && Enabled(s, step)
    ensures InRange(Next(s, step).db) && InRange(Next(s, step).durable)
  {
    hide InRange, StoreTxn, AssignIds, CohortAdd, NextFree, TablesOk;
    var s' := Next(s, step);
    match step
    case Assign(puuids) => SameTables(s.db, s'.db);
    case Enrol(pids) =>
      EnrolTables(s.db, pids);
      SameTables(s.db, s'.db);
    case Txn(m, paused) => TxnInRange(s.db, s.next, m, paused);
    case CommitBitmaps => SameTables(s.db, s'.db);
    case _ =>
  }

  lemma EnrolTables(db: Db, pids: seq<nat>)
    ensures var e := CohortAdd(db, pids); e.timeline == db.timeline && e.progress == db.progress && e.valid == db.valid
  {
  }

  lemma FreshInRange()
    ensures InRange(EmptyDb())
  {
    var db := EmptyDb();
    forall platform ensures Get(db.valid, platform) == |FullSamples(db.progress, platform)| {
      assert FullSamples(db.progress, platform) == {};
    }
  }

  /** In every run with crashes anywhere, and for any matches at all, live and durable tables index nothing out of
      range, and the valid-sample total of each platform is the number of its flagged matches. */
  lemma {:induction false} RunsInRange(steps: seq<Step>, n: nat)
    requires n <= |steps|
    ensures InRange(Run(steps, n).0.db) && InRange(Run(steps, n).0.durable)
  {
    hide InRange, Next, NextHistory, Enabled;
    if n == 0 {
      FreshInRange();
    } else {
      RunsInRange(steps, n - 1);
      var s := Run(steps, n - 1).0;
      if Enabled(s, steps[n - 1]) {
        StepInRange(s, steps[n - 1]);
      }
    }
  }

  /** An idle store can take any match of ten players, in any run. */
  lemma TxnEnabled(steps: seq<Step>, n: nat, m: MatchIn, paused: bool)
    requires n <= |steps| && Run(steps, n).0.phase.Idle? && |m.puuids| == TEAM
    ensures Enabled(Run(steps, n).0, Txn(m, paused))
  {
    hide Run, TablesOk, TotalsExact;
    RunsInRange(steps, n);
  }

  // ---- sightings, in all runs of matches with ten different players ----

  ghost predicate TenPlayers(m: MatchIn) {
    |m.puuids| == TEAM && forall i, j | 0 <= i < j < TEAM :: m.puuids[i] != m.puuids[j]
  }

  ghost predicate AllTenPlayers(steps: seq<Step>) {
    forall i | 0 <= i < |steps| && steps[i].Txn? :: TenPlayers(steps[i].m)
  }

  /** Sighting counts are the stored matches of each player outside the cohort, and each of those has a record. */
  ghost predicate Sightings(db: Db, log: Log) {
    SightingsExact(db.cohort, db.outsider, log) && forall k | k in log :: k in db.progress
  }

  lemma TxnSightings(db: Db, next: nat, log: Log, m: MatchIn, paused: bool)
    requires Sightings(db, log) && IdsOk(db.players, next) && TenPlayers(m) && TablesOk(db.timeline, db.progress)
    ensures var r := StoreTxn(db, next, m, paused); Sightings(r.db, LogAfter(db, log, m, r.pids))
  {
    hide SightingsExact, TablesOk, AssignIds, CountMatch, IdsOk;
    AssignKeeps(db.players, next, m.puuids);
    TxnKeepsRecords(db, next, m, paused);
    var ids := AssignIds(db.players, next, m.puuids, TEAM);
    var named := db.(players := ids.players);
    if m.Key() !in db.progress && !m.remake {
      BoundDistinct(ids.players, ids.next, m.puuids, ids.pids);
      SightingsStayExact(named.cohort, named.outsider, log, m.Key(), Game(m.ts, ids.pids), paused);
      CrowdCounted(named, m, ids.pids, paused);
      CountedHasRecord(named, m, ids.pids, paused);
    }
  }

  lemma EnrolSightings(db: Db, log: Log, pids: seq<nat>)
    requires Sightings(db, log)
    ensures Sightings(CohortAdd(db, pids), log)
  {
    hide GamesOf;
    var db' := CohortAdd(db, pids);
    forall p: nat | p !in db'.cohort ensures Get(db'.outsider, p) == |GamesOf(log, p)| {
      assert Get(db.outsider, p) == |GamesOf(log, p)|;
    }
  }

  lemma SameSightings(a: Db, b: Db, log: Log)
    requires Sightings(a, log) && b.cohort == a.cohort && b.outsider == a.outsider && b.progress == a.progress
    ensures Sightings(b, log)
  {
    hide SightingsExact;
  }

  ghost predicate Seen(s: State, h: History) {
    Sightings(s.db, h.log) && Sightings(s.durable, h.durableLog)
  }

  lemma StepSightings(s: State, h: History, step: Step)
    requires Seen(s, h) && IdsSafe(s) && Enabled(s, step) && (step.Txn? ==> TenPlayers(step.m))
    ensures Seen(Next(s, step), NextHistory(s, h, step))
  {
    hide Sightings, IdsOk, Bound, Extends, StoreTxn, AssignIds, CohortAdd, NextFree, TablesOk, LogAfter, TenPlayers;
    var s' := Next(s, step);
    match step
    case Assign(puuids) => SameSightings(s.db, s'.db, h.log);
    case Enrol(pids) => EnrolSightings(s.db, h.log, pids);
    case Txn(m, paused) => TxnSightings(s.db, s.next, h.log, m, paused);
    case CommitBitmaps =>
      SameSightings(s.db, s'.db, h.log);
      SameSightings(s.durable, s'.db, h.durableLog);
    case _ =>
  }

  lemma FreshSightings()
    ensures Seen(Fresh(), NoHistory())
  {
    forall p: nat ensures Get(EmptyDb().outsider, p) == |GamesOf(map[], p)| {
      assert GamesOf(map[], p) == {};
    }
  }

  /** In every run of matches with ten different players, crashes and re-stores included: cohort and sighting counts are
      disjoint, and outside the cohort a player's count is the number of distinct stored matches, no remakes, with the
      player in them. */
  lemma {:induction false} RunsCountSightings(steps: seq<Step>, n: nat)
    requires n <= |steps| && AllTenPlayers(steps)
    ensures var (s, h) := Run(steps, n); Seen(s, h)
  {
    hide Seen, IdsSafe, SeenSafe, Next, NextHistory, Enabled, TenPlayers;
    if n == 0 {
      FreshSightings();
    } else {
      RunsCountSightings(steps, n - 1);
      RunsAreSafe(steps, n - 1);
      var (s, h) := Run(steps, n - 1);
      if Enabled(s, steps[n - 1]) {
        StepSightings(s, h, steps[n - 1]);
      }
    }
  }

  // ---- timeline entries, in the same runs ----

  /** Entries are exactly the starts of the stored matches, each written by one of them, and the records that count
      belong to stored matches. */
  ghost predicate Entries(db: Db, log: Log) {
    && KeysExact(db.timeline, log) && OwnedEntries(db.timeline, log)
    && forall k | Counts(db.progress, k) :: k in log && |log[k].players| == TEAM
  }

  lemma CountedEntries(db: Db, log: Log, m: MatchIn, pids: seq<nat>, paused: bool)
    requires Entries(db, log) && TablesOk(db.timeline, db.progress) && m.Key() !in db.progress && m.Key() !in log
    requires |pids| == TEAM && Distinct(pids)
    ensures Entries(CountMatch(db, m, pids, paused).0, log[m.Key() := Game(m.ts, pids)])
  {
    hide RetroAll, InsertGames, SightAll, KeysExact, OwnedEntries, AllVisits, FreshProgress, TablesOk;
    KeysStayExact(db.timeline, log, m.Key(), Game(m.ts, pids));
    OwnedStay(db.timeline, log, m.Key(), Game(m.ts, pids));
    var prog := db.progress[m.Key() := FreshProgress(db.timeline, pids, m.ts)];
    var tl := InsertGames(db.timeline, pids, m.ts, m.gid, TEAM);
    Shapes(db, m, pids);
    PassKeepsKinds(prog, tl, m.platform, pids, m.ts, TEAM);
  }

  lemma TxnEntries(db: Db, next: nat, log: Log, m: MatchIn, paused: bool)
    requires Entries(db, log) && Sightings(db, log) && IdsOk(db.players, next) && TenPlayers(m)
    requires TablesOk(db.timeline, db.progress)
    ensures var r := StoreTxn(db, next, m, paused); Entries(r.db, LogAfter(db, log, m, r.pids))
  {
    hide KeysExact, OwnedEntries, TablesOk, AssignIds, CountMatch, IdsOk, SightingsExact;
    AssignKeeps(db.players, next, m.puuids);
    var ids := AssignIds(db.players, next, m.puuids, TEAM);
    var named := db.(players := ids.players);
    if m.Key() !in db.progress && !m.remake {
      BoundDistinct(ids.players, ids.next, m.puuids, ids.pids);
      CountedEntries(named, log, m, ids.pids, paused);
    }
  }

  ghost predicate Listed(s: State, h: History) {
    Entries(s.db, h.log) && Entries(s.durable, h.durableLog)
  }

  lemma StepEntries(s: State, h: History, step: Step)
    requires Listed(s, h) && Seen(s, h) && IdsSafe(s) && Enabled(s, step) && (step.Txn? ==> TenPlayers(step.m))
    ensures Listed(Next(s, step), NextHistory(s, h, step))
  {
    hide KeysExact, OwnedEntries, Sightings, IdsOk, Bound, Extends, StoreTxn, AssignIds, NextFree, TablesOk, LogAfter,
         TenPlayers;
    match step
    case Txn(m, paused) => TxnEntries(s.db, s.next, h.log, m, paused);
    case _ =>
  }

  /** In every run of matches with ten different players, however their starts and platforms fall, the entries are
      those of the stored matches. */
  lemma {:induction false} RunsKeepEntries(steps: seq<Step>, n: nat)
    requires n <= |steps| && AllTenPlayers(steps)
    ensures var (s, h) := Run(steps, n); Listed(s, h)
  {
    hide Seen, Listed, IdsSafe, SeenSafe, Next, NextHistory, Enabled, TenPlayers;
    if n == 0 {
      NothingListed();
    } else {
      RunsKeepEntries(steps, n - 1);
      RunsCountSightings(steps, n - 1);
      RunsAreSafe(steps, n - 1);
      var (s, h) := Run(steps, n - 1);
      if Enabled(s, steps[n - 1]) {
        StepEntries(s, h, steps[n - 1]);
      }
    }
  }

  lemma NothingListed()
    ensures Listed(Fresh(), NoHistory())
  {
  }

  // ---- counts, in the same runs, when no two platforms share a number ----

  ghost predicate NumbersDiffer(steps: seq<Step>) {
    forall i, j | 0 <= i < |steps| && 0 <= j < |steps| && steps[i].Txn? && steps[j].Txn?
               && steps[i].m.gid == steps[j].m.gid :: steps[i].m.platform == steps[j].m.platform
  }

  /** Every stored match came in by one of the steps. */
  ghost predicate FromSteps(log: Log, steps: seq<Step>) {
    forall k | k in log :: exists i :: 0 <= i < |steps| && steps[i].Txn? && steps[i].m.Key() == k
  }

  lemma FromStepsDiffer(log: Log, steps: seq<Step>)
    requires FromSteps(log, steps) && NumbersDiffer(steps)
    ensures OneNumber(log)
  {
    forall o, o' | o in log && o' in log && o.gid == o'.gid ensures o == o' {
      var i :| 0 <= i < |steps| && steps[i].Txn? && steps[i].m.Key() == o;
      var j :| 0 <= j < |steps| && steps[j].Txn? && steps[j].m.Key() == o';
    }
  }

  ghost predicate NoneOver(s: State, h: History, steps: seq<Step>) {
    && FromSteps(h.log, steps) && FromSteps(h.durableLog, steps)
    && NeverOver(s.db.progress, h.log) && NeverOver(s.durable.progress, h.durableLog)
  }

  lemma TxnNeverOver(db: Db, next: nat, log: Log, m: MatchIn, paused: bool, steps: seq<Step>, i: nat)
    requires i < |steps| && steps[i].Txn? && steps[i].m == m && FromSteps(log, steps) && NumbersDiffer(steps)
    requires Entries(db, log) && Sightings(db, log) && IdsOk(db.players, next) && TenPlayers(m)
    requires TablesOk(db.timeline, db.progress) && NeverOver(db.progress, log)
    ensures var r := StoreTxn(db, next, m, paused);
            var log' := LogAfter(db, log, m, r.pids);
            FromSteps(log', steps) && NeverOver(r.db.progress, log')
  {
    AssignKeeps(db.players, next, m.puuids);
    hide KeysExact, OwnedEntries, TablesOk, AssignIds, CountMatch, IdsOk, SightingsExact, NumbersDiffer, OneNumber;
    var ids := AssignIds(db.players, next, m.puuids, TEAM);
    var named := db.(players := ids.players);
    if m.Key() !in db.progress && !m.remake {
      BoundDistinct(ids.players, ids.next, m.puuids, ids.pids);
      var log' := log[m.Key() := Game(m.ts, ids.pids)];
      assert FromSteps(log', steps);
      FromStepsDiffer(log', steps);
      hide FromSteps, NeverOver;
      NeverOverStays(named, log, m, ids.pids, paused);
    } else {
      hide FromSteps;
    }
  }

  lemma StepNeverOver(s: State, h: History, steps: seq<Step>, i: nat)
    requires i < |steps| && NoneOver(s, h, steps) && NumbersDiffer(steps) && Listed(s, h) && Seen(s, h) && IdsSafe(s)
    requires Enabled(s, steps[i]) && (steps[i].Txn? ==> TenPlayers(steps[i].m))
    ensures NoneOver(Next(s, steps[i]), NextHistory(s, h, steps[i]), steps)
  {
    hide Entries, Sightings, IdsOk, Bound, Extends, StoreTxn, AssignIds, NextFree, TablesOk, LogAfter, TenPlayers,
         FromSteps, NumbersDiffer, NeverOver;
    match steps[i]
    case Txn(m, paused) => TxnNeverOver(s.db, s.next, h.log, m, paused, steps, i);
    case _ =>
  }

  lemma NothingOver(steps: seq<Step>)
    ensures NoneOver(Fresh(), NoHistory(), steps)
  {
  }

  /** In every run of matches with ten different players in which no two platforms share a number, whatever their
      starts: no slot of any record, live or durable, ever holds more than its player's true count. */
  lemma {:induction false} RunsNeverOver(steps: seq<Step>, n: nat)
    requires n <= |steps| && AllTenPlayers(steps) && NumbersDiffer(steps)
    ensures var (s, h) := Run(steps, n); NoneOver(s, h, steps)
  {
    hide Seen, Listed, NoneOver, IdsSafe, SeenSafe, Next, NextHistory, Enabled, TenPlayers, NumbersDiffer;
    if n == 0 {
      NothingOver(steps);
    } else {
      RunsNeverOver(steps, n - 1);
      RunsKeepEntries(steps, n - 1);
      RunsCountSightings(steps, n - 1);
      RunsAreSafe(steps, n - 1);
      var (s, h) := Run(steps, n - 1);
      if Enabled(s, steps[n - 1]) {
        StepNeverOver(s, h, steps, n - 1);
      }
    }
  }

  // ---- a match fetched again ----

  /** Once a match's record is durable, storing that match again at any later point of the run, after any crashes,
      leaves cohort, sightings, timelines, records, totals and bitmap as they are; only unknown players get ids. */
  lemma RefetchCountsNothing(steps: seq<Step>, m: nat, n: nat, again: MatchIn, paused: bool)
    requires m <= n <= |steps| && again.Key() in Run(steps, m).0.durable.progress
    requires Enabled(Run(steps, n).0, Txn(again, paused))
    ensures var db, db' := Run(steps, n).0.db, Next(Run(steps, n).0, Txn(again, paused)).db;
            && db' == db.(players := db'.players) && Extends(db.players, db'.players)
            && (forall p | p in db'.players :: p in db.players || p in again.puuids)
  {
    hide Run, IdsOk, AssignIds, StoreTxn, TablesOk;
    CountedOnce(steps, m, n, again.Key());
    var s := Run(steps, n).0;
    RestoreCountsNothing(s, again, paused);
    RunsAreSafe(steps, n);
    TxnPlayers(s.db, s.next, again, paused);
    AssignKeeps(s.db.players, s.next, again.puuids);
  }
}
