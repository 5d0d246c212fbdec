/** The frontier tables as an object: each method is one transaction. */
module FrontierStore {
  import opened Results
  import opened StoreSpec
  import opened FrontierSpec
  import opened FrontierProof

  /** Keys of one platform and bucket, among which the scan order is total. */
  predicate OneLane(s: set<Key>) {
    forall a, b | a in s && b in s :: a.platform == b.platform && a.bucket == b.bucket
  }

  /** The first key of a range. */
  method FirstKey(s: set<Key>) returns (r: Option<Key>)
    requires OneLane(s)
    ensures r == First(s)
  {
    hide First;
    r := None;
    var rest := s;
    while rest != {}
      invariant rest <= s && (r.None? <==> rest == s)
      invariant r.Some? ==> r.value in s && forall x | x in s && x !in rest :: Leq(r.value, x)
      decreases |rest|
    {
      var k :| k in rest;
      if r.None? || !Leq(r.value, k) {
        r := Some(k);
      }
      rest := rest - {k};
    }
  }

  class FrontierTables {
    var tasks: map<Key, Task>
    var index: map<nat, Slot>

    ghost function Both(): Frontier
      reads this
    {
      Frontier(tasks, index)
    }

    constructor ()
      ensures Both() == Frontier(map[], map[]) && Matched(Both())
    {
      tasks, index := map[], map[];
    }

    method FrontierPush(k: Key, task: Task)
      requires Matched(Both())
      modifies this
      ensures Both() == Push(old(Both()), k, task) && Matched(Both())
    {
      PushMatched(Both(), k, task);
      if k.pid in index {
        if index[k.pid].bucket <= k.bucket {
          return;
        }
        tasks := tasks - {KeyOf(index[k.pid], k.pid)};
      }
      tasks := tasks[k := task];
      index := index[k.pid := SlotOf(k)];
    }

    method FrontierPushBatch(slot: Slot, items: seq<Item>)
      requires Matched(Both())
      modifies this
      ensures Both() == PushAll(old(Both()), slot, items, |items|) && Matched(Both())
      ensures forall i | 0 <= i < |items| :: items[i].pid in index
    {
      hide Matched, Push;
      PushAllMatched(Both(), slot, items, |items|);
      for i := 0 to |items|
        invariant Both() == PushAll(old(Both()), slot, items, i) && Matched(Both())
      {
        FrontierPush(KeyOf(slot, items[i].pid), items[i].task);
      }
    }

    /** Pops the first task due, priority bucket first. */
    method FrontierPopDue(platform: Platform, now: nat) returns (popped: Option<(Key, Task)>)
      requires Matched(Both())
      modifies this
      ensures Both() == Pop(old(Both()), platform, now) && Matched(Both())
      ensures var k := Next(old(Both()), platform, now);
              if k.Some? then k.value in old(tasks) && popped == Some((k.value, old(tasks)[k.value])) else popped.None?
    {
      hide First;
      var f := Frontier(tasks, index);
      var k := FirstKey(DueBy(f, platform, BUCKET_PRIORITY, now));
      if k.None? {
        k := FirstKey(DueBy(f, platform, BUCKET_OTHER, now));
      }
      if k.None? {
        return None;
      }
      PopTakesLeast(f, platform, now);
      popped := Some((k.value, tasks[k.value]));
      tasks := tasks - {k.value};
      index := index - {k.value.pid};
    }

    method FrontierNextDue(platform: Platform) returns (best: Option<nat>)
      ensures best == NextDue(Both(), platform)
    {
      hide First;
      var f := Frontier(tasks, index);
      best := None;
      var k := FirstKey(Lane(f, platform, BUCKET_PRIORITY));
      if k.Some? {
        best := Some(k.value.due);
      }
      k := FirstKey(Lane(f, platform, BUCKET_OTHER));
      if k.Some? {
        best := Some(if best.Some? && best.value <= k.value.due then best.value else k.value.due);
      }
    }

    /** The queued cohort members of the priority bucket. */
    method Collect(cohort: set<nat>) returns (entries: seq<Entry>)
      ensures Snapshot(Both(), cohort, entries)
    {
      entries := [];
      var rest := set k | k in tasks && Resets(k, cohort);
      while rest != {}
        invariant forall k | k in rest :: k in tasks && Resets(k, cohort)
        invariant forall i, j | 0 <= i < j < |entries| :: entries[i].key != entries[j].key
        invariant forall i | 0 <= i < |entries| :: entries[i].key !in rest
        invariant forall i | 0 <= i < |entries| :: var e := entries[i];
                    e.key in tasks && Resets(e.key, cohort) && tasks[e.key].puuid == e.puuid
        invariant forall k | k in tasks && Resets(k, cohort) && k !in rest :: Listed(entries, k)
        decreases |rest|
      {
        var k :| k in rest;
        ghost var before := entries;
        entries := entries + [Entry(k, tasks[k].puuid)];
        forall x | x in tasks && Resets(x, cohort) && x !in rest - {k} ensures Listed(entries, x) {
          ListedMore(before, Entry(k, tasks[k].puuid), x);
        }
        rest := rest - {k};
      }
      forall k | k in tasks && Resets(k, cohort) ensures exists i :: 0 <= i < |entries| && entries[i].key == k {
        assert Listed(entries, k);
      }
    }

    method ResetEntry(e: Entry, now: nat)
      modifies this
      ensures Both() == Reset(old(Both()), e.key, e.puuid, now)
    {
      var k := Key(e.key.platform, BUCKET_PRIORITY, now, e.key.pid);
      tasks := tasks - {e.key};
      tasks := tasks[k := Task(e.puuid, DEEP_VISIT_MS)];
      index := index[k.pid := SlotOf(k)];
    }

    /** Reschedules every queued cohort member to now as a deep visit. */
    method FrontierBackfillReset(cohort: set<nat>, now: nat) returns (n: nat, ghost entries: seq<Entry>)
      requires Matched(Both())
      modifies this
      ensures Snapshot(old(Both()), cohort, entries) && n == |entries|
      ensures Both() == ResetAll(old(Both()), entries, now, |entries|) && Matched(Both())
    {
      hide Matched, Snapshot, Reset, Moved;
      var found := Collect(cohort);
      entries := found;
      n := |found|;
      ResetSome(Both(), cohort, found, now, |found|);
      MovedMatched(Both(), found, now, |found|);
      for i := 0 to |found|
        invariant Both() == ResetAll(old(Both()), found, now, i)
      {
        ResetEntry(found[i], now);
      }
    }
  }

  predicate Listed(entries: seq<Entry>, k: Key) {
    exists i :: 0 <= i < |entries| && entries[i].key == k
  }

  lemma ListedMore(entries: seq<Entry>, e: Entry, k: Key)
    ensures Listed(entries + [e], k) <==> Listed(entries, k) || e.key == k
  {
    assert (entries + [e])[|entries|] == e;
    if Listed(entries, k) {
      var i :| 0 <= i < |entries| && entries[i].key == k;
      assert (entries + [e])[i] == entries[i];
    }
  }

  lemma MovedMatched(f: Frontier, entries: seq<Entry>, now: nat, n: nat)
    requires n <= |entries| && Moved(f, ResetAll(f, entries, now, n), entries, now, n)
    ensures Matched(ResetAll(f, entries, now, n))
  {
  }
}
