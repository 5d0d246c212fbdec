/**
 What the store's tables mean, in plain numbers and read off the run: the counts
 and totals of exact tables, which matches have a record, which games the bitmaps
 name, and that no appended record is lost without a crash.
 */
module StoreMeaning {
  import opened StoreSpec
  import opened PlayerIds
  import opened ProgressProof
  import opened ProgressExact
  import opened StoreRun
  import opened Sightings

  // ---- exact tables, in numbers ----

  /** How many stored matches of the `i`-th player of match `k` started before it. */
  function Earlier(log: Log, k: GameKey, i: nat): nat
    requires k in log && i < |log[k].players|
  {
    |set o | o in log && log[k].players[i] in log[o].players && log[o].ts < log[k].ts|
  }

  /** All ten players have twenty earlier matches. */
  predicate Complete(log: Log, k: GameKey)
    requires k in log && |log[k].players| == 10
  {
    forall i | 0 <= i < 10 :: Earlier(log, k, i) >= 20
  }

  /** A record holds each player's number of earlier matches, up to twenty, and says whether all ten have that many. */
  lemma RecordMeans(db: Db, log: Log, k: GameKey, i: nat)
    requires Exact(db, log) && k in log && i < 10
    ensures |log[k].players| == 10 && k in db.progress && db.progress[k].Slots? && |db.progress[k].counts| == 10
    ensures db.progress[k].counts[i] == if Earlier(log, k, i) <= 20 then Earlier(log, k, i) else 20
    ensures db.progress[k].full <==> Complete(log, k)
  {
    hide TlExact, TotalsExact, SightingsExact;
    var players, counts := log[k].players, db.progress[k].counts;
    forall j | 0 <= j < 10 ensures counts[j] == Cap(Earlier(log, k, j)) {
      assert GamesBefore(log, players[j], log[k].ts)
          == set o | o in log && players[j] in log[o].players && log[o].ts < log[k].ts;
    }
    hide Earlier, GamesBefore;
    assert db.progress[k].full <==> forall j | 0 <= j < 10 :: counts[j] >= 20;
    assert forall j | 0 <= j < 10 :: counts[j] >= 20 <==> Earlier(log, k, j) >= 20;
  }

  /** A platform's total is the number of its stored matches all of whose players have twenty earlier ones. */
  lemma TotalMeans(db: Db, log: Log, platform: Platform)
    requires Exact(db, log)
    ensures (forall k | k in log :: |log[k].players| == 10)
    ensures Get(db.valid, platform) == |set k | k in log && k.platform == platform && Complete(log, k)|
  {
    TenEach(db, log);
    var full := set k | k in log && k.platform == platform && Complete(log, k);
    forall k ensures k in FullSamples(db.progress, platform) <==> k in full {
      hide Complete, TlExact, TotalsExact, SightingsExact, LogOk, Expected;
      if k in log {
        RecordMeans(db, log, k, 0);
      }
    }
    hide Complete, ProgExact, TlExact, SightingsExact, LogOk;
    assert FullSamples(db.progress, platform) == full;
    assert Get(db.valid, platform) == |FullSamples(db.progress, platform)|;
  }

  lemma TenEach(db: Db, log: Log)
    requires Exact(db, log)
    ensures forall k | k in log :: |log[k].players| == 10
  {
    hide TlExact, TotalsExact, SightingsExact, ProgExact;
  }

  // ---- which matches have a record ----

  /** For every match with a record, whether it was counted or only marked as a remake: now, and in what a crash
      leaves. */
  datatype Tally = Tally(live: map<GameKey, bool>, durable: map<GameKey, bool>)

  ghost function TallyOf(steps: seq<Step>, n: nat): Tally
    requires n <= |steps|
  {
    if n == 0 then Tally(map[], map[])
    else
      var t := TallyOf(steps, n - 1);
      if !Enabled(Run(steps, n - 1).0, steps[n - 1]) then t
      else match steps[n - 1]
        case Txn(m, _) =>
          var key := GameKey(m.platform, m.gid);
          if key in t.live then t else t.(live := t.live[key := !m.remake])
        case RollCheckpoint => t.(durable := t.live)
        case CommitCheckpoint => t.(durable := t.live)
        case Crash(_) => t.(live := t.durable)
        case _ => t
  }

  /** The records are of the matches tallied, the counted ones of those in the log. */
  ghost predicate Tallied(db: Db, log: Log, tally: map<GameKey, bool>) {
    && (forall k :: k in db.progress <==> k in tally)
    && (forall k | k in tally :: db.progress[k].Slots? <==> tally[k])
    && (forall k :: k in log <==> k in tally && tally[k])
  }

  lemma RetroKeeps(prog: ProgressTable, tl: Timeline, platform: Platform, pids: seq<nat>, ts: nat, n: nat)
    requires n <= |pids| && TablesOk(tl, prog)
    ensures var after := RetroAll(prog, tl, platform, pids, ts, n).prog;
            (forall k :: k in after <==> k in prog) && forall k | k in prog :: after[k].Slots? == prog[k].Slots?
  {
    hide RetroPlayer, TablesOk;
    if n > 0 {
      RetroKeeps(prog, tl, platform, pids, ts, n - 1);
      var a := RetroAll(prog, tl, platform, pids, ts, n - 1);
      var times := Sorted(Later(tl, pids[n - 1], ts));
      forall j | 0 <= j < |times| ensures TlKey(pids[n - 1], times[j]) in tl {
        assert times[j] in times;
      }
      RetroPlayerKeeps(a.prog, tl, platform, pids[n - 1], times, 0);
    }
  }

  lemma {:induction false} RetroPlayerKeeps(
      prog: ProgressTable, tl: Timeline, platform: Platform, p: nat, times: seq<nat>, i: nat)
    requires i <= |times| && TablesOk(tl, prog)
    requires forall j | 0 <= j < |times| :: TlKey(p, times[j]) in tl
    ensures var after := RetroPlayer(prog, tl, platform, p, times, i).prog;
            (forall k :: k in after <==> k in prog) && forall k | k in prog :: after[k].Slots? == prog[k].Slots?
    decreases |times| - i
  {
    hide AllFull;
    if i < |times| {
      var v := tl[TlKey(p, times[i])];
      var key := GameKey(platform, v.gid);
      if key !in prog || prog[key].Remake? {
        RetroPlayerKeeps(prog, tl, platform, p, times, i + 1);
      } else if prog[key].counts[v.slot] < HISTORY_REQUIRED {
        RetroPlayerKeeps(prog[key := BumpSlot(prog[key], v.slot)], tl, platform, p, times, i + 1);
      }
    }
  }

  lemma TxnTallies(s: State, log: Log, tally: map<GameKey, bool>, m: MatchIn, paused: bool)
    requires TablesOk(s.db.timeline, s.db.progress) && |m.puuids| == TEAM && Tallied(s.db, log, tally)
    ensures var r := StoreTxn(s.db, s.next, m, paused);
            var key := GameKey(m.platform, m.gid);
            Tallied(r.db, LogAfter(s.db, log, m, r.pids), if key in tally then tally else tally[key := !m.remake])
  {
    hide AssignIds, TablesOk;
    if m.Key() !in s.db.progress && !m.remake {
      var named := s.db.(players := AssignIds(s.db.players, s.next, m.puuids, |m.puuids|).players);
      var pids := AssignIds(s.db.players, s.next, m.puuids, |m.puuids|).pids;
      CountTallies(named, m, pids, paused);
      hide CountMatch;
    }
  }

  lemma CountTallies(db: Db, m: MatchIn, pids: seq<nat>, paused: bool)
    requires TablesOk(db.timeline, db.progress) && |pids| == TEAM
    ensures var after := CountMatch(db, m, pids, paused).0.progress;
            && (forall k :: k in after <==> k in db.progress || k == m.Key())
            && after[m.Key()].Slots?
            && forall k | k in db.progress && k != m.Key() :: after[k].Slots? == db.progress[k].Slots?
  {
    hide SightAll, RetroAll, InsertGames, AllFull;
    var initial := FreshProgress(db.timeline, pids, m.ts);
    var tl := InsertGames(db.timeline, pids, m.ts, m.gid, |pids|);
    InsertedOk(db.timeline, pids, m.ts, m.gid, |pids|);
    RetroKeeps(db.progress[m.Key() := initial], tl, m.platform, pids, m.ts, |pids|);
  }

  lemma SameProgress(a: Db, b: Db, log: Log, tally: map<GameKey, bool>)
    requires Tallied(a, log, tally) && b.progress == a.progress
    ensures Tallied(b, log, tally)
  {
  }

  /** In every run, crashes included, exactly the matches stored (and not lost in a crash) have a record, a remake only
      its marker, and the log of counted matches is the others. */
  lemma {:induction false} RunsAreTallied(steps: seq<Step>, n: nat)
    requires n <= |steps|
    ensures var (s, h) := Run(steps, n);
            Tallied(s.db, h.log, TallyOf(steps, n).live) && Tallied(s.durable, h.durableLog, TallyOf(steps, n).durable)
  {
    hide AssignIds, StoreTxn, Tallied, TablesOk, NextFree, LogAfter;
    if n == 0 {
      assert Tallied(EmptyDb(), map[], map[]) by { NothingTallied(); }
    } else {
      RunsAreTallied(steps, n - 1);
      var (s, h) := Run(steps, n - 1);
      var t := TallyOf(steps, n - 1);
      if Enabled(s, steps[n - 1]) {
        var db := Next(s, steps[n - 1]).db;
        match steps[n - 1]
        case Txn(m, paused) => TxnTallies(s, h.log, t.live, m, paused);
        case CommitBitmaps =>
          RunsAreSafe(steps, n - 1);
          assert s.db == s.durable;
          SameProgress(s.db, db, h.log, t.live);
          SameProgress(s.durable, db, h.durableLog, t.durable);
        case Enrol(pids) => SameProgress(s.db, db, h.log, t.live);
        case Assign(puuids) => SameProgress(s.db, db, h.log, t.live);
        case _ =>
      }
    }
  }

  lemma NothingTallied()
    ensures Tallied(EmptyDb(), map[], map[])
  {
  }

  // ---- which games the bitmaps name ----

  /** The games marked so far, now and in what a crash leaves. */
  datatype Marks = Marks(live: set<GameKey>, durable: set<GameKey>)

  ghost function MarksOf(steps: seq<Step>, n: nat): Marks
    requires n <= |steps|
  {
    if n == 0 then Marks({}, {})
    else
      var (m, s) := (MarksOf(steps, n - 1), Run(steps, n - 1).0);
      if Enabled(s, steps[n - 1]) then NextMarks(m, s, steps[n - 1]) else m
  }

  ghost function NextMarks(m: Marks, s: State, step: Step): Marks
    requires Enabled(s, step)
  {
    match step
    case Skip(key) => m.(live := m.live + {key})
    case Append => m.(live := m.live + {s.phase.rec.key})
    case CommitBitmaps => m.(durable := m.live)
    case Crash(_) => m.(live := m.durable)
    case _ => m
  }

  lemma StepMarks(m: Marks, s: State, step: Step)
    requires Enabled(s, step) && s.seen == m.live && s.durable.seen == m.durable
    requires s.db.seen == s.durable.seen && (!s.dirty ==> s.seen == s.durable.seen)
    ensures Next(s, step).seen == NextMarks(m, s, step).live
    ensures Next(s, step).durable.seen == NextMarks(m, s, step).durable
  {
    hide AssignIds, StoreTxn, TablesOk, NextFree, CohortAdd;
  }

  /** In every run, crashes included, the bitmap names exactly the games skipped or appended, the durable one those of
      the last finished commit. */
  lemma {:induction false} BitmapsAreExact(steps: seq<Step>, n: nat)
    requires n <= |steps|
    ensures var s := Run(steps, n).0;
            s.seen == MarksOf(steps, n).live && s.durable.seen == MarksOf(steps, n).durable
  {
    hide Next, NextHistory, NextMarks, Enabled, SeenSafe, IdsSafe;
    if n > 0 {
      BitmapsAreExact(steps, n - 1);
      RunsAreSafe(steps, n - 1);
      var (s, h) := Run(steps, n - 1);
      if Enabled(s, steps[n - 1]) {
        SeenKept(s, h);
        StepMarks(MarksOf(steps, n - 1), s, steps[n - 1]);
      }
    }
  }

  lemma SeenKept(s: State, h: History)
    requires SeenSafe(s, h)
    ensures s.db.seen == s.durable.seen && (!s.dirty ==> s.seen == s.durable.seen)
  {
    hide Settled;
  }

  // ---- appended records ----

  /** The record is in its writer's buffer or in a flushed segment. */
  ghost predicate Held(s: State, r: Rec) {
    r in s.flushed || r in Pending(s, r.key.platform)
  }

  lemma StepHolds(s: State, step: Step, r: Rec)
    requires Enabled(s, step) && !step.Crash? && Held(s, r)
    ensures Held(Next(s, step), r)
  {
    hide StoreTxn, AssignIds, TablesOk, NextFree, CohortAdd;
  }

  lemma AppendHolds(s: State)
    requires Enabled(s, Append)
    ensures Held(Next(s, Append), s.phase.rec)
  {
  }

  /** Without a crash no record is lost, from the step that appends it on. */
  lemma {:induction false} AppendedIsHeld(steps: seq<Step>, m: nat, n: nat)
    requires m < n <= |steps| && steps[m].Append? && Enabled(Run(steps, m).0, steps[m])
    requires forall i | m <= i < n :: !steps[i].Crash?
    ensures Held(Run(steps, n).0, Run(steps, m).0.phase.rec)
    decreases n
  {
    var rec := Run(steps, m).0.phase.rec;
    hide Next, NextHistory, Enabled, Held;
    if m < n - 1 {
      AppendedIsHeld(steps, m, n - 1);
      var s := Run(steps, n - 1).0;
      if Enabled(s, steps[n - 1]) {
        StepHolds(s, steps[n - 1], rec);
      }
    } else {
      AppendHolds(Run(steps, m).0);
    }
  }

  /** A flush moves one platform's buffer to the end of what is on disk, in order, and leaves the others. */
  lemma FlushMoves(s: State, platform: Platform, other: Platform)
    requires s.phase.Flushing? && platform in s.phase.todo
    ensures var s' := Next(s, FlushWriter(platform));
            && s'.flushed == s.flushed + Pending(s, platform)
            && Pending(s', other) == if other == platform then [] else Pending(s, other)
  {
  }

  /** The bytes go to disk only under the players bound on disk: a rolled record follows a checkpoint of its own. */
  lemma RollMoves(s: State, other: Platform)
    requires s.phase.RollReady?
    ensures var (s', platform) := (Next(s, RollFlush), s.phase.rec.key.platform);
            && s'.flushed == s.flushed + Pending(s, platform)
            && Pending(s', other) == if other == platform then [] else Pending(s, other)
  {
  }

  // ---- the cohort ----

  /** An enrolment adds exactly the players listed; of the others nobody joins and nobody loses a sighting. */
  lemma CohortAddIs(db: Db, pids: seq<nat>, p: nat)
    requires forall q | q in db.cohort :: q !in db.outsider
    ensures var db' := CohortAdd(db, pids);
            && (p in db'.cohort <==> p in db.cohort || p in pids)
            && (p in db'.outsider <==> p in db.outsider && p !in pids)
            && (p in db'.outsider ==> db'.outsider[p] == db.outsider[p])
            && db' == db.(cohort := db'.cohort, outsider := db'.outsider)
  {
  }

  /** How a player stands, now and in what a crash leaves. */
  datatype Standings = Standings(live: Standing, durable: Standing)

  ghost function StandingsOf(steps: seq<Step>, n: nat, p: nat): Standings
    requires n <= |steps|
  {
    if n == 0 then Standings(Outsider(0), Outsider(0))
    else
      var (t, s) := (StandingsOf(steps, n - 1, p), Run(steps, n - 1).0);
      if !Enabled(s, steps[n - 1]) then t
      else match steps[n - 1]
        case Enrol(pids) => if p in pids then t.(live := Member) else t
        case Txn(m, paused) =>
          if GameKey(m.platform, m.gid) in TallyOf(steps, n - 1).live || m.remake || t.live.Member? then t
          else
            var pids := AssignIds(s.db.players, s.next, m.puuids, 10).pids;
            t.(live := Seen(t.live.seen, Times(pids, 10, p), paused))
        case RollCheckpoint => t.(durable := t.live)
        case CommitCheckpoint => t.(durable := t.live)
        case Crash(_) => t.(live := t.durable)
        case _ => t
  }

  ghost predicate InDb(db: Db, p: nat, standing: Standing) {
    InTables(db.cohort, db.outsider, p, standing)
  }

  lemma TxnStands(s: State, m: MatchIn, paused: bool, p: nat, standing: Standing)
    requires TablesOk(s.db.timeline, s.db.progress) && |m.puuids| == TEAM && InDb(s.db, p, standing)
    ensures var pids := AssignIds(s.db.players, s.next, m.puuids, 10).pids;
            InDb(StoreTxn(s.db, s.next, m, paused).db, p,
                 if m.Key() in s.db.progress || m.remake || standing.Member? then standing
                 else Seen(standing.seen, Times(pids, 10, p), paused))
  {
    hide AssignIds, RetroAll, InsertGames, FreshProgress, SightAll, TablesOk, Times;
    SightedTimes(
      s.db.cohort, s.db.outsider, AssignIds(s.db.players, s.next, m.puuids, 10).pids, paused, 10, p);
  }

  lemma TallyKeys(db: Db, log: Log, tally: map<GameKey, bool>, key: GameKey)
    requires Tallied(db, log, tally)
    ensures key in db.progress <==> key in tally
  {
  }

  /** In every run, crashes included, the cohort is exactly the players enrolled and those adopted with their second
      sighting, and everybody else's sightings are how often the matches counted have named him. */
  lemma {:induction false} CohortIsExact(steps: seq<Step>, n: nat, p: nat)
    requires n <= |steps|
    ensures var (s, t) := (Run(steps, n).0, StandingsOf(steps, n, p));
            InDb(s.db, p, t.live) && InDb(s.durable, p, t.durable)
  {
    hide AssignIds, StoreTxn, TablesOk, NextFree, LogAfter, Tallied, Times;
    if n > 0 {
      CohortIsExact(steps, n - 1, p);
      var (s, h) := Run(steps, n - 1);
      var t := StandingsOf(steps, n - 1, p);
      if Enabled(s, steps[n - 1]) {
        match steps[n - 1]
        case Txn(m, paused) =>
          RunsAreTallied(steps, n - 1);
          TallyKeys(s.db, h.log, TallyOf(steps, n - 1).live, m.Key());
          TxnStands(s, m, paused, p, t.live);
        case CommitBitmaps => RunsAreSafe(steps, n - 1);
        case _ =>
      }
    }
  }
}
