/** The crawl loops' locked sections over the frontier tables and the cohort. */
module CrawlLoop {
  import opened Results
  import opened StoreSpec
  import opened FrontierSpec
  import opened FrontierProof
  import opened FrontierStore
  import opened Crawl

  class SharedStore {
    const tables: FrontierTables
    var cohort: set<nat>
    var outsider: map<nat, nat>
    var visits: map<Platform, Visit>

    ghost function S(): State
      reads this, tables
    {
      State(tables.Both(), cohort, outsider, visits)
    }

    constructor ()
      ensures fresh(tables) && Kept(S()) && S() == Run([], 0)
    {
      tables := new FrontierTables();
      cohort, outsider, visits := {}, map[], map[];
    }

    /** A region takes its next player. */
    method PopDue(region: Platform, now: nat)
      requires Kept(S()) && region !in visits
      modifies this, tables
      ensures S() == Step1(old(S()), Step.PopDue(region, now)) && Kept(S())
    {
      hide Next, Matched, Visiting;
      StepKeeps(S(), Step.PopDue(region, now));
      var popped := tables.FrontierPopDue(region, now);
      if popped.Some? {
        visits := visits[region := Visit(popped.value.0.pid, popped.value.1, false)];
      }
    }

    /** Players outside the cohort are dropped without a visit. */
    method CheckMember(region: Platform)
      requires Kept(S()) && region in visits && !visits[region].member
      modifies this`visits
      ensures S() == Step1(old(S()), Step.CheckMember(region)) && Kept(S())
    {
      hide Matched, Visiting;
      StepKeeps(S(), Step.CheckMember(region));
      if visits[region].pid !in cohort {
        visits := visits - {region};
      } else {
        visits := visits[region := visits[region].(member := true)];
      }
    }

    /** The end of a visit, good or bad: the player goes back on the frontier. */
    method Reschedule(region: Platform, due: nat, lastVisit: nat)
      requires Kept(S()) && region in visits && visits[region].member
      modifies this, tables
      ensures S() == Step1(old(S()), Step.Reschedule(region, due, lastVisit)) && Kept(S())
    {
      hide Matched, Visiting, Push;
      StepKeeps(S(), Step.Reschedule(region, due, lastVisit));
      var v := visits[region];
      tables.FrontierPush(Key(region, BUCKET_PRIORITY, due, v.pid), v.task.(lastVisit := lastVisit));
      visits := visits - {region};
    }

    /** Enrols a batch: cohort first, then the frontier, under one lock. */
    method Enroll(region: Platform, now: nat, players: seq<Item>)
      requires Kept(S())
      modifies this, tables
      ensures S() == Step1(old(S()), Step.Enroll(region, now, players)) && Kept(S())
    {
      hide Matched, Visiting, PushAll;
      StepKeeps(S(), Step.Enroll(region, now, players));
      var added := Pids(players) - cohort;
      cohort := cohort + Pids(players);
      outsider := outsider - added;
      tables.FrontierPushBatch(Slot(region, BUCKET_PRIORITY, now), players);
    }

    /** Counts a sighting of every player outside the cohort; those seen often enough join it and are listed. */
    method Sightings(puuids: seq<Puuid>, pids: seq<nat>, paused: bool) returns (adopted: seq<Item>)
      requires |pids| == |puuids|
      modifies this`cohort, this`outsider
      ensures var c := SightAll(old(cohort), old(outsider), pids, paused, |pids|);
              cohort == c.cohort && outsider == c.outsider
      ensures adopted == Adopted(old(cohort), old(outsider), pids, puuids, paused, |pids|)
    {
      adopted := [];
      for i := 0 to |pids|
        invariant var c := SightAll(old(cohort), old(outsider), pids, paused, i);
                  cohort == c.cohort && outsider == c.outsider
        invariant adopted == Adopted(old(cohort), old(outsider), pids, puuids, paused, i)
      {
        var pid := pids[i];
        if pid in cohort {
          continue;
        }
        var count := Get(outsider, pid) + 1;
        if !paused && count >= ADOPTION_THRESHOLD {
          outsider := outsider - {pid};
          cohort := cohort + {pid};
          adopted := adopted + [Item(pid, Task(puuids[i], 0))];
        } else {
          outsider := outsider[pid := count];
        }
      }
    }

    /** A stored match: whoever it adopts is queued under the same lock, one after the other. */
    method StoreMatch(region: Platform, now: nat, puuids: seq<Puuid>, pids: seq<nat>, paused: bool, counted: bool)
      requires Kept(S()) && |pids| == |puuids|
      modifies this, tables
      ensures S() == Step1(old(S()), Step.StoreMatch(region, now, puuids, pids, paused, counted)) && Kept(S())
    {
      hide Matched, Visiting, SightAll, Push, Adopted;
      StepKeeps(S(), Step.StoreMatch(region, now, puuids, pids, paused, counted));
      if !counted {
        return;
      }
      var adopted := Sightings(puuids, pids, paused);
      ghost var f := tables.Both();
      var slot := Slot(region, BUCKET_PRIORITY, now);
      for i := 0 to |adopted|
        modifies tables
        invariant Matched(tables.Both()) && tables.Both() == PushAll(f, slot, adopted, i)
      {
        tables.FrontierPush(KeyOf(slot, adopted[i].pid), adopted[i].task);
      }
    }
  }
}
