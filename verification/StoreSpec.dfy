/**
 The derived state a stored match updates, as functions over the tables of the
 key-value store: player ids, cohort and sighting counts, player timelines, and
 the sample-progress record of every match.
 */
module StoreSpec {
  import opened Sets

  // ---- keys and values ----

  datatype Platform = Platform(name: string)
  datatype Puuid = Puuid(id: string)
  datatype GameKey = GameKey(platform: Platform, gid: nat)
  datatype TlKey = TlKey(pid: nat, ts: nat)
  datatype TlVal = TlVal(gid: nat, slot: nat)

  /** A remake's empty marker, or per-participant counts of stored earlier games and the all-full flag. */
  datatype Progress = Remake | Slots(counts: seq<nat>, full: bool)

  /** History depth of a full sample, and the sightings that make an outsider join the cohort. */
  const HISTORY_REQUIRED: nat := 20
  const ADOPTION_THRESHOLD: nat := 2
  const TEAM: nat := 10

  type Players = map<Puuid, nat>
  type Timeline = map<TlKey, TlVal>
  type ProgressTable = map<GameKey, Progress>

  datatype Db = Db(
    players: Players, cohort: set<nat>, outsider: map<nat, nat>,
    timeline: Timeline, progress: ProgressTable, valid: map<Platform, nat>,
    seen: set<GameKey>)

  function Get<K>(m: map<K, nat>, k: K): nat {
    if k in m then m[k] else 0
  }

  function Cap(n: nat): nat {
    if n < HISTORY_REQUIRED then n else HISTORY_REQUIRED
  }

  // ---- player ids ----

  datatype Ids = Ids(players: Players, next: nat, pids: seq<nat>)

  /** Ids for the first `n` puuids: known ones are looked up, unknown ones get the next free id. */
  function AssignIds(players: Players, next: nat, puuids: seq<Puuid>, n: nat): (r: Ids)
    requires n <= |puuids|
    ensures |r.pids| == n && r.next >= next
  {
    if n == 0 then Ids(players, next, [])
    else
      var r := AssignIds(players, next, puuids, n - 1);
      var p := puuids[n - 1];
      if p in r.players then Ids(r.players, r.next, r.pids + [r.players[p]])
      else Ids(r.players[p := r.next], r.next + 1, r.pids + [r.next])
  }

  // ---- adoption ----

  datatype Crowd = Crowd(cohort: set<nat>, outsider: map<nat, nat>, adopted: seq<nat>)

  /** One more sighting of `pid`: an outsider seen often enough joins the cohort unless growth is paused. */
  function Sight(c: Crowd, pid: nat, paused: bool): Crowd {
    if pid in c.cohort then c
    else
      var count := Get(c.outsider, pid) + 1;
      if !paused && count >= ADOPTION_THRESHOLD then
        Crowd(c.cohort + {pid}, c.outsider - {pid}, c.adopted + [pid])
      else
        Crowd(c.cohort, c.outsider[pid := count], c.adopted)
  }

  function SightAll(cohort: set<nat>, outsider: map<nat, nat>, pids: seq<nat>, paused: bool, n: nat): Crowd
    requires n <= |pids|
  {
    if n == 0 then Crowd(cohort, outsider, [])
    else Sight(SightAll(cohort, outsider, pids, paused, n - 1), pids[n - 1], paused)
  }

  // ---- timelines ----

  function InsertGames(tl: Timeline, pids: seq<nat>, ts: nat, gid: nat, n: nat): Timeline
    requires n <= |pids|
  {
    if n == 0 then tl
    else InsertGames(tl, pids, ts, gid, n - 1)[TlKey(pids[n - 1], ts) := TlVal(gid, n - 1)]
  }

  /** Start times of the stored games of `p` strictly before `ts`. */
  function Before(tl: Timeline, p: nat, ts: nat): (s: set<nat>)
    ensures forall t: nat :: t in s <==> TlKey(p, t) in tl && t < ts
  {
    var s := set k | k in tl && k.pid == p && k.ts < ts :: k.ts;
    assert forall t: nat | TlKey(p, t) in tl && t < ts :: TlKey(p, t).ts in s;
    s
  }

  /** Start times of the stored games of `p` strictly after `ts`. */
  function Later(tl: Timeline, p: nat, ts: nat): (s: set<nat>)
    ensures forall t: nat :: t in s <==> TlKey(p, t) in tl && ts < t
  {
    var s := set k | k in tl && k.pid == p && ts < k.ts :: k.ts;
    assert forall t: nat | TlKey(p, t) in tl && ts < t :: TlKey(p, t).ts in s;
    s
  }

  /** Ascending times, the order a range scan yields them in. */
  ghost predicate Scan(times: seq<nat>, s: set<nat>) {
    && (forall i, j | 0 <= i < j < |times| :: times[i] < times[j])
    && (forall t :: t in s <==> t in times)
  }

  // ---- progress ----

  predicate AllFull(counts: seq<nat>) {
    forall i | 0 <= i < |counts| :: counts[i] >= HISTORY_REQUIRED
  }

  /** The record of a match stored now: predecessors already stored, capped. */
  function FreshProgress(tl: Timeline, pids: seq<nat>, ts: nat): Progress {
    var counts := seq(|pids|, i requires 0 <= i < |pids| => Cap(|Before(tl, pids[i], ts)|));
    Slots(counts, AllFull(counts))
  }

  /** Indices stored in the tables are in range. */
  ghost predicate TablesOk(tl: Timeline, prog: ProgressTable) {
    && (forall k | k in tl :: tl[k].slot < TEAM)
    && (forall k | k in prog && prog[k].Slots? :: |prog[k].counts| == TEAM)
  }

  datatype Retro = Retro(prog: ProgressTable, newly: nat)

  /** One more stored predecessor for slot `slot`. */
  function BumpSlot(pr: Progress, slot: nat): (r: Progress)
    requires pr.Slots? && slot < |pr.counts|
    ensures r.Slots? && |r.counts| == |pr.counts|
  {
    var counts := pr.counts[slot := pr.counts[slot] + 1];
    Slots(counts, pr.full || AllFull(counts))
  }

  /** Retroactive pass for one player over the later games `times[i..]`: it stops at the first game whose
      slot is already full. */
  function RetroPlayer(prog: ProgressTable, tl: Timeline, platform: Platform, p: nat, times: seq<nat>, i: nat)
    : (r: Retro)
    requires i <= |times| && TablesOk(tl, prog)
    requires forall j | 0 <= j < |times| :: TlKey(p, times[j]) in tl
    ensures TablesOk(tl, r.prog)
    decreases |times| - i
  {
    if i == |times| then Retro(prog, 0)
    else
      var v := tl[TlKey(p, times[i])];
      var key := GameKey(platform, v.gid);
      if key !in prog || prog[key].Remake? then RetroPlayer(prog, tl, platform, p, times, i + 1)
      else if prog[key].counts[v.slot] >= HISTORY_REQUIRED then Retro(prog, 0)
      else
        var pr := BumpSlot(prog[key], v.slot);
        var newly := if pr.full && !prog[key].full then 1 else 0;
        var r := RetroPlayer(prog[key := pr], tl, platform, p, times, i + 1);
        Retro(r.prog, r.newly + newly)
  }

  // ---- range scans ----

  function Sorted(s: set<nat>): (times: seq<nat>)
    ensures Scan(times, s)
    decreases |s|
  {
    if s == {} then []
    else
      var m := Least(s);
      var rest := Sorted(s - {m});
      assert forall t :: t in [m] + rest <==> t == m || t in rest;
      assert forall j | 0 <= j < |rest| :: rest[j] in s - {m};
      [m] + rest
  }

  /** Retroactive pass for the first `n` players of a match that started at `ts`. */
  function RetroAll(prog: ProgressTable, tl: Timeline, platform: Platform, pids: seq<nat>, ts: nat, n: nat): (r: Retro)
    requires n <= |pids| && TablesOk(tl, prog)
    ensures TablesOk(tl, r.prog)
  {
    if n == 0 then Retro(prog, 0)
    else
      var a := RetroAll(prog, tl, platform, pids, ts, n - 1);
      var b := RetroPlayer(a.prog, tl, platform, pids[n - 1], Sorted(Later(tl, pids[n - 1], ts)), 0);
      Retro(b.prog, a.newly + b.newly)
  }

  // ---- the transaction ----

  datatype MatchIn = MatchIn(platform: Platform, gid: nat, ts: nat, remake: bool, puuids: seq<Puuid>) {
    function Key(): GameKey { GameKey(platform, gid) }
  }

  datatype TxnOut = TxnOut(db: Db, next: nat, pids: seq<nat>, adopted: seq<nat>)

  /** Derived state of a match seen for the first time that is not a remake. */
  function CountMatch(db: Db, m: MatchIn, pids: seq<nat>, paused: bool): (r: (Db, seq<nat>))
    requires TablesOk(db.timeline, db.progress) && |pids| == TEAM
  {
    var crowd := SightAll(db.cohort, db.outsider, pids, paused, |pids|);
    var initial := FreshProgress(db.timeline, pids, m.ts);
    var tl := InsertGames(db.timeline, pids, m.ts, m.gid, |pids|);
    InsertedOk(db.timeline, pids, m.ts, m.gid, |pids|);
    var retro := RetroAll(db.progress[m.Key() := initial], tl, m.platform, pids, m.ts, |pids|);
    var newly := retro.newly + (if initial.full then 1 else 0);
    var valid := if newly > 0 then db.valid[m.platform := Get(db.valid, m.platform) + newly] else db.valid;
    (db.(cohort := crowd.cohort, outsider := crowd.outsider, timeline := tl, progress := retro.prog, valid := valid),
     crowd.adopted)
  }

  lemma {:induction false} InsertedOk(tl: Timeline, pids: seq<nat>, ts: nat, gid: nat, n: nat)
    requires n <= |pids| <= TEAM && forall k | k in tl :: tl[k].slot < TEAM
    ensures forall k | k in InsertGames(tl, pids, ts, gid, n) :: InsertGames(tl, pids, ts, gid, n)[k].slot < TEAM
  {
    if n > 0 {
      InsertedOk(tl, pids, ts, gid, n - 1);
    }
  }

  /** One `store_match` transaction. A match with a progress record, even a remake's, only has its player
      ids looked up. */
  function StoreTxn(db: Db, next: nat, m: MatchIn, paused: bool): (r: TxnOut)
    requires TablesOk(db.timeline, db.progress) && |m.puuids| == TEAM
  {
    var ids := AssignIds(db.players, next, m.puuids, |m.puuids|);
    var named := db.(players := ids.players);
    if m.Key() in db.progress then TxnOut(named, ids.next, ids.pids, [])
    else if m.remake then TxnOut(named.(progress := db.progress[m.Key() := Remake]), ids.next, ids.pids, [])
    else
      var (counted, adopted) := CountMatch(named, m, ids.pids, paused);
      TxnOut(counted, ids.next, ids.pids, adopted)
  }
}
