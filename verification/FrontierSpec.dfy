/**
 The crawl frontier: tasks keyed by (platform, bucket, due, player) for in-order
 scans, and an index from player to key.
 */
module FrontierSpec {
  import opened Results
  import opened StoreSpec

  const BUCKET_PRIORITY: nat := 0
  const BUCKET_OTHER: nat := 1
  const DEEP_VISIT_MS: nat := 1

  datatype Key = Key(platform: Platform, bucket: nat, due: nat, pid: nat)
  datatype Slot = Slot(platform: Platform, bucket: nat, due: nat)
  datatype Task = Task(puuid: Puuid, lastVisit: nat)
  datatype Frontier = Frontier(tasks: map<Key, Task>, index: map<nat, Slot>)

  function KeyOf(slot: Slot, pid: nat): Key { Key(slot.platform, slot.bucket, slot.due, pid) }
  function SlotOf(k: Key): Slot { Slot(k.platform, k.bucket, k.due) }

  /** The two tables hold the same entries, at most one per player. */
  ghost predicate Matched(f: Frontier) {
    && (forall k | k in f.tasks :: k.pid in f.index && f.index[k.pid] == SlotOf(k))
    && (forall pid | pid in f.index :: KeyOf(f.index[pid], pid) in f.tasks)
  }

  // ---- pushing ----

  function Insert(f: Frontier, k: Key, task: Task): Frontier {
    Frontier(f.tasks[k := task], f.index[k.pid := SlotOf(k)])
  }

  function Delete(f: Frontier, k: Key): Frontier {
    Frontier(f.tasks - {k}, f.index - {k.pid})
  }

  /** A queued player keeps the entry unless the new bucket is strictly better. */
  function Push(f: Frontier, k: Key, task: Task): Frontier {
    if k.pid !in f.index then Insert(f, k, task)
    else if f.index[k.pid].bucket <= k.bucket then f
    else Insert(f.(tasks := f.tasks - {KeyOf(f.index[k.pid], k.pid)}), k, task)
  }

  datatype Item = Item(pid: nat, task: Task)

  function PushAll(f: Frontier, slot: Slot, items: seq<Item>, n: nat): Frontier
    requires n <= |items|
  {
    if n == 0 then f
    else Push(PushAll(f, slot, items, n - 1), KeyOf(slot, items[n - 1].pid), items[n - 1].task)
  }

  // ---- scanning ----

  /** Scan order within a bucket: due first, then player. */
  predicate Leq(a: Key, b: Key) {
    a.due < b.due || (a.due == b.due && a.pid <= b.pid)
  }

  /** One bucket of a platform. */
  function Lane(f: Frontier, platform: Platform, bucket: nat): set<Key> {
    set k | k in f.tasks && k.platform == platform && k.bucket == bucket
  }

  function DueBy(f: Frontier, platform: Platform, bucket: nat, now: nat): set<Key> {
    set k | k in Lane(f, platform, bucket) && k.due <= now
  }

  predicate IsFirst(k: Key, s: set<Key>) {
    k in s && forall x | x in s :: Leq(k, x)
  }

  lemma {:induction false} FirstExists(s: set<Key>)
    requires s != {}
    ensures exists k :: IsFirst(k, s)
    decreases |s|
  {
    var x :| x in s;
    var rest := s - {x};
    if rest == {} {
      assert s == {x};
      assert IsFirst(x, s);
    } else {
      FirstExists(rest);
      var k :| IsFirst(k, rest);
      assert forall y | y in s :: y == x || y in rest;
      assert IsFirst(if Leq(x, k) then x else k, s);
    }
  }

  /** What a range scan yields first. */
  ghost function First(s: set<Key>): (r: Option<Key>)
    ensures r.None? <==> s == {}
    ensures r.Some? ==> IsFirst(r.value, s)
  {
    if s == {} then None
    else
      FirstExists(s);
      var k :| IsFirst(k, s);
      Some(k)
  }

  /** The entry a pop takes: the first one due, in the priority bucket if it has any. */
  ghost function Next(f: Frontier, platform: Platform, now: nat): Option<Key> {
    var urgent := First(DueBy(f, platform, BUCKET_PRIORITY, now));
    if urgent.Some? then urgent else First(DueBy(f, platform, BUCKET_OTHER, now))
  }

  ghost function Pop(f: Frontier, platform: Platform, now: nat): Frontier {
    var k := Next(f, platform, now);
    if k.Some? then Delete(f, k.value) else f
  }

  function Earlier(a: Option<nat>, b: Option<nat>): Option<nat> {
    if a.None? then b else if b.None? then a else if a.value <= b.value then a else b
  }

  ghost function DueOf(k: Option<Key>): Option<nat> {
    if k.Some? then Some(k.value.due) else None
  }

  ghost function NextDue(f: Frontier, platform: Platform): Option<nat> {
    Earlier(DueOf(First(Lane(f, platform, BUCKET_PRIORITY))), DueOf(First(Lane(f, platform, BUCKET_OTHER))))
  }

  // ---- rescheduling for a backfill ----

  predicate Resets(k: Key, cohort: set<nat>) {
    k.bucket == BUCKET_PRIORITY && k.pid in cohort
  }

  /** One entry moved to now, as a deep visit. */
  function Reset(f: Frontier, k: Key, puuid: Puuid, now: nat): Frontier {
    Insert(f.(tasks := f.tasks - {k}), Key(k.platform, BUCKET_PRIORITY, now, k.pid), Task(puuid, DEEP_VISIT_MS))
  }

  datatype Entry = Entry(key: Key, puuid: Puuid)

  function ResetAll(f: Frontier, entries: seq<Entry>, now: nat, n: nat): Frontier
    requires n <= |entries|
  {
    if n == 0 then f else Reset(ResetAll(f, entries, now, n - 1), entries[n - 1].key, entries[n - 1].puuid, now)
  }
}
