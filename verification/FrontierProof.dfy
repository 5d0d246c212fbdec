/** The two frontier tables never disagree, and a pop takes exactly the entry that should come next. */
module FrontierProof {
  import opened Results
  import opened StoreSpec
  import opened FrontierSpec

  lemma InsertMatched(f: Frontier, k: Key, task: Task)
    requires Matched(f) && k.pid !in f.index
    ensures Matched(Insert(f, k, task))
  {
  }

  lemma DeleteMatched(f: Frontier, k: Key)
    requires Matched(f) && k in f.tasks
    ensures Matched(Delete(f, k))
  {
  }

  /** Replacing a player's entry is deleting it and inserting the new one. */
  lemma ReplaceIs(f: Frontier, was: Key, k: Key, task: Task)
    requires was.pid == k.pid
    ensures Insert(f.(tasks := f.tasks - {was}), k, task) == Insert(Delete(f, was), k, task)
  {
    assert (f.index - {k.pid})[k.pid := SlotOf(k)] == f.index[k.pid := SlotOf(k)];
  }

  /** After a push the player is queued, in the better of the two buckets; nobody else is touched. */
  lemma PushMatched(f: Frontier, k: Key, task: Task)
    requires Matched(f)
    ensures var f' := Push(f, k, task);
            && Matched(f')
            && f'.index.Keys == f.index.Keys + {k.pid}
            && (forall p | p in f.index && p != k.pid :: f'.index[p] == f.index[p]
                  && f'.tasks[KeyOf(f.index[p], p)] == f.tasks[KeyOf(f.index[p], p)])
            && (if k.pid in f.index && f.index[k.pid].bucket <= k.bucket
                then f' == f else f'.index[k.pid] == SlotOf(k) && f'.tasks[k] == task)
  {
    if k.pid in f.index {
      var was := KeyOf(f.index[k.pid], k.pid);
      if f.index[k.pid].bucket > k.bucket {
        ReplaceIs(f, was, k, task);
        DeleteMatched(f, was);
        InsertMatched(Delete(f, was), k, task);
      }
    } else {
      InsertMatched(f, k, task);
    }
  }

  lemma {:induction false} PushAllMatched(f: Frontier, slot: Slot, items: seq<Item>, n: nat)
    requires n <= |items| && Matched(f)
    ensures var f' := PushAll(f, slot, items, n);
            && Matched(f') && f.index.Keys <= f'.index.Keys
            && (forall i | 0 <= i < n :: items[i].pid in f'.index && f'.index[items[i].pid].bucket <= slot.bucket)
            && (forall p | p in f'.index :: p in f.index || exists i :: 0 <= i < n && items[i].pid == p)
            && (forall p | p in f.index :: f'.index[p].bucket <= f.index[p].bucket)
  {
    hide Matched, Push;
    if n > 0 {
      PushAllMatched(f, slot, items, n - 1);
      PushMatched(PushAll(f, slot, items, n - 1), KeyOf(slot, items[n - 1].pid), items[n - 1].task);
    }
  }

  // ---- popping ----

  /** Popping order: bucket, then due, then player. */
  predicate Precedes(a: Key, b: Key) {
    a.bucket < b.bucket || (a.bucket == b.bucket && Leq(a, b))
  }

  /** A pop takes the least (bucket, due, player) entry of the platform that is due, and takes just that entry from both
      tables. */
  lemma PopTakesLeast(f: Frontier, platform: Platform, now: nat)
    requires Matched(f) && Next(f, platform, now).Some?
    ensures var k := Next(f, platform, now).value;
            && k in f.tasks && k.platform == platform && k.due <= now
            && (forall x | x in f.tasks && x.platform == platform && x.bucket <= BUCKET_OTHER && x.due <= now ::
                  Precedes(k, x))
            && Matched(Pop(f, platform, now))
            && Pop(f, platform, now).index == f.index - {k.pid} && Pop(f, platform, now).tasks == f.tasks - {k}
  {
    hide First, Matched;
    var k := Next(f, platform, now).value;
    forall x | x in f.tasks && x.platform == platform && x.bucket <= BUCKET_OTHER && x.due <= now
      ensures Precedes(k, x)
    {
      assert x in DueBy(f, platform, x.bucket, now);
    }
    DeleteMatched(f, k);
  }

  /** A pop finds nothing exactly when the next due time is absent or still to come. */
  lemma PopFindsIff(f: Frontier, platform: Platform, now: nat)
    ensures Next(f, platform, now).Some? <==> NextDue(f, platform).Some? && NextDue(f, platform).value <= now
  {
    forall bucket: nat
      ensures First(DueBy(f, platform, bucket, now)).Some? <==>
              First(Lane(f, platform, bucket)).Some? && First(Lane(f, platform, bucket)).value.due <= now
    {
      LaneFirst(f, platform, bucket, now);
    }
    hide First, Lane, DueBy;
  }

  lemma LaneFirst(f: Frontier, platform: Platform, bucket: nat, now: nat)
    ensures First(DueBy(f, platform, bucket, now)).Some? <==>
            First(Lane(f, platform, bucket)).Some? && First(Lane(f, platform, bucket)).value.due <= now
  {
    hide First;
    var lane := Lane(f, platform, bucket);
    if lane != {} {
      var k := First(lane).value;
      assert IsFirst(k, lane);
      if k.due <= now {
        assert k in DueBy(f, platform, bucket, now);
      }
    }
  }

  /** The next due time is the earliest due of the platform's entries in the two buckets. */
  lemma NextDueIsEarliest(f: Frontier, platform: Platform)
    ensures var d := NextDue(f, platform);
            && (forall k | k in f.tasks && k.platform == platform && k.bucket <= BUCKET_OTHER ::
                  d.Some? && d.value <= k.due)
            && (d.Some? ==> exists k :: k in f.tasks && k.platform == platform && k.due == d.value)
  {
    hide First;
    var a, b := First(Lane(f, platform, BUCKET_PRIORITY)), First(Lane(f, platform, BUCKET_OTHER));
    forall k | k in f.tasks && k.platform == platform && k.bucket <= BUCKET_OTHER
      ensures NextDue(f, platform).Some? && NextDue(f, platform).value <= k.due
    {
      assert k in Lane(f, platform, k.bucket);
    }
    if NextDue(f, platform).Some? {
      var k := if a.Some? && NextDue(f, platform).value == a.value.due then a.value else b.value;
      assert k in f.tasks && k.due == NextDue(f, platform).value;
    }
  }

  /** Popping and pushing back what was popped restores both tables. */
  lemma PopThenPush(f: Frontier, platform: Platform, now: nat)
    requires Matched(f) && Next(f, platform, now).Some?
    ensures var k := Next(f, platform, now).value; Push(Pop(f, platform, now), k, f.tasks[k]) == f
  {
    hide First, DueBy;
    PopTakesLeast(f, platform, now);
    var k := Next(f, platform, now).value;
    hide Next;
    assert (f.index - {k.pid})[k.pid := SlotOf(k)] == f.index;
    assert (f.tasks - {k})[k := f.tasks[k]] == f.tasks;
  }

  // ---- backfill reset ----

  /** What the frontier says about each player. */
  function View(f: Frontier, pid: nat): Option<(Slot, Task)>
  {
    if pid in f.index && KeyOf(f.index[pid], pid) in f.tasks
    then Some((f.index[pid], f.tasks[KeyOf(f.index[pid], pid)]))
    else None
  }

  /** The snapshot a reset works from: every priority entry of a cohort member, once. */
  ghost predicate Snapshot(f: Frontier, cohort: set<nat>, entries: seq<Entry>) {
    && (forall i, j | 0 <= i < j < |entries| :: entries[i].key != entries[j].key)
    && (forall i | 0 <= i < |entries| :: var e := entries[i];
          e.key in f.tasks && Resets(e.key, cohort) && f.tasks[e.key].puuid == e.puuid)
    && (forall k | k in f.tasks && Resets(k, cohort) :: exists i :: 0 <= i < |entries| && entries[i].key == k)
  }

  lemma ResetOne(f: Frontier, k: Key, puuid: Puuid, now: nat)
    requires Matched(f) && k in f.tasks && k.bucket == BUCKET_PRIORITY
    ensures var f' := Reset(f, k, puuid, now);
            && Matched(f') && f'.index.Keys == f.index.Keys
            && View(f', k.pid) == Some((Slot(k.platform, BUCKET_PRIORITY, now), Task(puuid, DEEP_VISIT_MS)))
            && (forall p | p != k.pid :: View(f', p) == View(f, p))
  {
    var k' := Key(k.platform, BUCKET_PRIORITY, now, k.pid);
    ReplaceIs(f, k, k', Task(puuid, DEEP_VISIT_MS));
    DeleteMatched(f, k);
    InsertMatched(Delete(f, k), k', Task(puuid, DEEP_VISIT_MS));
  }

  lemma ViewKey(f: Frontier, k: Key)
    requires Matched(f)
    ensures k in f.tasks <==> View(f, k.pid).Some? && View(f, k.pid).value.0 == SlotOf(k)
  {
  }

  /** The first `n` entries have been moved, and nobody else. */
  ghost predicate Moved(f: Frontier, f': Frontier, entries: seq<Entry>, now: nat, n: nat)
    requires n <= |entries|
  {
    && Matched(f') && f'.index.Keys == f.index.Keys
    && (forall i | 0 <= i < n :: var k := entries[i].key;
          View(f', k.pid) == Some((Slot(k.platform, BUCKET_PRIORITY, now), Task(entries[i].puuid, DEEP_VISIT_MS))))
    && (forall p | forall i | 0 <= i < n :: entries[i].key.pid != p :: View(f', p) == View(f, p))
  }

  /** A player has at most one entry. */
  lemma OnePlayerOneEntry(f: Frontier, a: Key, b: Key)
    requires Matched(f) && a in f.tasks && b in f.tasks
    ensures a.pid == b.pid ==> a == b
  {
  }

  lemma SnapshotPlayers(f: Frontier, cohort: set<nat>, entries: seq<Entry>)
    requires Matched(f) && Snapshot(f, cohort, entries)
    ensures forall i, j | 0 <= i < j < |entries| :: entries[i].key.pid != entries[j].key.pid
  {
    forall i, j | 0 <= i < j < |entries| ensures entries[i].key.pid != entries[j].key.pid {
      OnePlayerOneEntry(f, entries[i].key, entries[j].key);
    }
  }

  lemma ResetStep(f: Frontier, f1: Frontier, entries: seq<Entry>, now: nat, n: nat)
    requires n < |entries| && Moved(f, f1, entries, now, n)
    requires forall i, j | 0 <= i < j < |entries| :: entries[i].key.pid != entries[j].key.pid
    requires entries[n].key in f1.tasks && entries[n].key.bucket == BUCKET_PRIORITY
    ensures Moved(f, Reset(f1, entries[n].key, entries[n].puuid, now), entries, now, n + 1)
  {
    hide Reset, View, Matched;
    ResetOne(f1, entries[n].key, entries[n].puuid, now);
  }

  /** An entry not reached yet is still there. */
  lemma StillThere(f: Frontier, f1: Frontier, entries: seq<Entry>, now: nat, n: nat)
    requires n < |entries| && Matched(f) && Moved(f, f1, entries, now, n) && entries[n].key in f.tasks
    requires forall i, j | 0 <= i < j < |entries| :: entries[i].key.pid != entries[j].key.pid
    ensures entries[n].key in f1.tasks
  {
    hide View, Matched;
    var k := entries[n].key;
    assert View(f1, k.pid) == View(f, k.pid);
    ViewKey(f, k);
    ViewKey(f1, k);
  }

  lemma NoneMoved(f: Frontier, entries: seq<Entry>, now: nat)
    requires Matched(f)
    ensures Moved(f, f, entries, now, 0)
  {
    hide View, Matched;
  }

  lemma {:induction false} ResetSome(f: Frontier, cohort: set<nat>, entries: seq<Entry>, now: nat, n: nat)
    requires Matched(f) && Snapshot(f, cohort, entries) && n <= |entries|
    ensures Moved(f, ResetAll(f, entries, now, n), entries, now, n)
  {
    hide Reset, View, Matched, Moved;
    if n == 0 {
      NoneMoved(f, entries, now);
    } else {
      ResetSome(f, cohort, entries, now, n - 1);
      SnapshotPlayers(f, cohort, entries);
      var f1 := ResetAll(f, entries, now, n - 1);
      StillThere(f, f1, entries, now, n - 1);
      ResetStep(f, f1, entries, now, n - 1);
    }
  }

  /** A reset moves every queued cohort member of the priority bucket to now as a deep visit of the same puuid, leaves
      every other entry as it was, queues nobody new and loses nobody; whatever order the snapshot is in. */
  lemma ResetMoves(f: Frontier, cohort: set<nat>, entries: seq<Entry>, now: nat, pid: nat)
    requires Matched(f) && Snapshot(f, cohort, entries)
    ensures var f' := ResetAll(f, entries, now, |entries|);
            && Matched(f') && f'.index.Keys == f.index.Keys
            && View(f', pid) ==
                 if pid in f.index && Resets(KeyOf(f.index[pid], pid), cohort)
                 then Some((Slot(f.index[pid].platform, BUCKET_PRIORITY, now),
                            Task(f.tasks[KeyOf(f.index[pid], pid)].puuid, DEEP_VISIT_MS)))
                 else View(f, pid)
  {
    hide ResetAll, View;
    ResetSome(f, cohort, entries, now, |entries|);
    if pid in f.index && Resets(KeyOf(f.index[pid], pid), cohort) {
      var i :| 0 <= i < |entries| && entries[i].key == KeyOf(f.index[pid], pid);
    } else {
      forall i | 0 <= i < |entries| ensures entries[i].key.pid != pid {
        assert entries[i].key in f.tasks && Resets(entries[i].key, cohort);
      }
    }
  }
}
