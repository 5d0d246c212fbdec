/**
 What each locked section does for one player: who is in the cohort and how often
 everybody else has been seen, over whole runs; where an enrolment, a visit's end
 and an adoption queue a player, and what a pop and a membership check decide.
 */
module CrawlSteps {
  import opened Results
  import opened StoreSpec
  import opened FrontierSpec
  import opened FrontierProof
  import opened Crawl
  import opened Sightings

  // ---- who is in the cohort ----

  ghost predicate Lists(players: seq<Item>, p: nat) {
    exists i :: 0 <= i < |players| && players[i].pid == p
  }

  /** A player joins when enrolled, or with the second sighting in stored matches unless growth is paused; until then
      every sighting counts. Nobody leaves. */
  ghost function StandingOf(steps: seq<Step>, n: nat, p: nat): Standing
    requires n <= |steps|
  {
    if n == 0 then Outsider(0)
    else
      var before := StandingOf(steps, n - 1, p);
      if before.Member? then Member
      else match steps[n - 1]
        case Enroll(_, _, players) => if Lists(players, p) then Member else before
        case StoreMatch(_, _, puuids, pids, paused, counted) =>
          if !counted || |pids| != |puuids| then before
          else
            Seen(before.seen, Times(pids, |pids|, p), paused)
        case _ => before
  }

  ghost predicate Stands(s: State, p: nat, standing: Standing) {
    InTables(s.cohort, s.outsider, p, standing)
  }

  lemma StepStands(s: State, step: Step, p: nat, standing: Standing)
    requires Enabled(s, step) && Stands(s, p, standing) && !step.Enroll? && !step.StoreMatch?
    ensures Stands(Step1(s, step), p, standing)
  {
    hide Next, Pop, Push;
  }

  lemma PidsListed(players: seq<Item>, p: nat)
    ensures p in Pids(players) <==> Lists(players, p)
  {
  }

  /** In every run the cohort is exactly the players enrolled and those adopted with their second sighting, and the
      sighting count of everybody else is how often stored matches have named him. */
  lemma {:induction false} CohortIsExact(steps: seq<Step>, n: nat, p: nat)
    requires n <= |steps|
    ensures Stands(Run(steps, n), p, StandingOf(steps, n, p))
  {
    hide Next, Pop, Push, PushAll, Pids, Lists, Times, SightAll, Adopted;
    if n > 0 {
      CohortIsExact(steps, n - 1, p);
      var s, step := Run(steps, n - 1), steps[n - 1];
      if Enabled(s, step) {
        match step
        case Enroll(_, _, players) => PidsListed(players, p);
        case StoreMatch(_, _, puuids, pids, paused, counted) =>
          SightedTimes(s.cohort, s.outsider, pids, paused, |pids|, p);
        case _ => StepStands(s, step, p, StandingOf(steps, n - 1, p));
      }
    }
  }

  // ---- where a batch queues its players ----

  /** A batch leaves a player alone who is not in it, or is queued in a bucket at least as good already; anybody else
      in it is queued at the batch's slot, with the task given first. */
  lemma {:induction false} PushAllViews(f: Frontier, slot: Slot, items: seq<Item>, n: nat, p: nat)
    requires n <= |items| && Matched(f)
    ensures var f' := PushAll(f, slot, items, n);
            && Matched(f')
            && (forall i | 0 <= i < n && items[i].pid == p && (forall j | 0 <= j < i :: items[j].pid != p) ::
                  View(f', p) == if p in f.index && f.index[p].bucket <= slot.bucket then View(f, p)
                                 else Some((slot, items[i].task)))
            && ((forall i | 0 <= i < n :: items[i].pid != p) ==> View(f', p) == View(f, p))
  {
    hide Matched, Push, View;
    if n > 0 {
      PushAllViews(f, slot, items, n - 1, p);
      var f1 := PushAll(f, slot, items, n - 1);
      PushAllMatched(f, slot, items, n - 1);
      PushViews(f1, slot, items[n - 1], p);
      ViewIndex(f, p);
      ViewIndex(f1, p);
    }
  }

  lemma PushViews(f: Frontier, slot: Slot, item: Item, p: nat)
    requires Matched(f)
    ensures var f' := Push(f, KeyOf(slot, item.pid), item.task);
            && Matched(f')
            && View(f', p) == if p != item.pid || (p in f.index && f.index[p].bucket <= slot.bucket) then View(f, p)
                              else Some((slot, item.task))
  {
    PushMatched(f, KeyOf(slot, item.pid), item.task);
    hide Push;
  }

  lemma ViewIndex(f: Frontier, p: nat)
    requires Matched(f)
    ensures View(f, p).Some? <==> p in f.index
    ensures p in f.index ==> View(f, p).value.0 == f.index[p]
  {
  }

  // ---- enrolment ----

  /** After an enrolment every listed player is in the cohort, is no outsider any more, and is queued: where he was if
      that was in the priority bucket, now and for a first visit if not. */
  lemma EnrollsListed(s: State, region: Platform, now: nat, players: seq<Item>, i: nat)
    requires Matched(s.f) && i < |players| && (forall j | 0 <= j < i :: players[j].pid != players[i].pid)
    requires forall p | p in s.cohort :: p !in s.outsider
    ensures var s' := Step1(s, Enroll(region, now, players));
            var p := players[i].pid;
            && p in s'.cohort && p !in s'.outsider
            && View(s'.f, p) == if p in s.f.index && s.f.index[p].bucket <= 0 then View(s.f, p)
                                else Some((Slot(region, 0, now), players[i].task))
  {
    hide PushAll, View, Pids;
    PushAllViews(s.f, Slot(region, BUCKET_PRIORITY, now), players, |players|, players[i].pid);
    PidsListed(players, players[i].pid);
  }

  /** Nobody else joins, loses a sighting or is moved. */
  lemma EnrollsNobodyElse(s: State, region: Platform, now: nat, players: seq<Item>, p: nat)
    requires Matched(s.f) && !Lists(players, p)
    ensures var s' := Step1(s, Enroll(region, now, players));
            && (p in s'.cohort <==> p in s.cohort)
            && (p in s'.outsider <==> p in s.outsider) && Get(s'.outsider, p) == Get(s.outsider, p)
            && View(s'.f, p) == View(s.f, p) && s'.visits == s.visits
  {
    PidsListed(players, p);
    forall i | 0 <= i < |players| ensures players[i].pid != p {}
    PushAllViews(s.f, Slot(region, BUCKET_PRIORITY, now), players, |players|, p);
    hide PushAll, View, Pids;
  }

  // ---- visits ----

  /** A region's visit starts with the player it pops, who leaves the frontier; nobody else moves, and nothing happens
      when nobody is due. */
  lemma PopStartsVisit(s: State, region: Platform, now: nat)
    requires Matched(s.f) && region !in s.visits
    ensures var (s', k) := (Step1(s, PopDue(region, now)), Next(s.f, region, now));
            && s'.cohort == s.cohort && s'.outsider == s.outsider
            && if k.None? then s' == s
               else
                 && k.value in s.f.tasks
                 && s'.visits == s.visits[region := Visit(k.value.pid, s.f.tasks[k.value], false)]
                 && k.value.pid !in s'.f.index
                 && forall p | p != k.value.pid :: View(s'.f, p) == View(s.f, p)
  {
    hide Next;
    if Next(s.f, region, now).Some? {
      PopTakesLeast(s.f, region, now);
    }
    hide Pop;
  }

  /** A visit goes on if and only if its player is in the cohort. */
  lemma CheckDecides(s: State, region: Platform)
    requires region in s.visits && !s.visits[region].member
    ensures var s' := Step1(s, CheckMember(region));
            && s'.f == s.f && s'.cohort == s.cohort && s'.outsider == s.outsider
            && (region in s'.visits <==> s.visits[region].pid in s.cohort)
            && (region in s'.visits ==> s'.visits[region] == s.visits[region].(member := true))
            && forall other | other != region ::
                 (other in s'.visits <==> other in s.visits)
                 && (other in s.visits ==> s'.visits[other] == s.visits[other])
  {
  }

  /** A visit ends with its player queued in the priority bucket, at the time given and under his puuid, unless he has
      been queued there meanwhile; nobody else moves. */
  lemma RescheduleQueues(s: State, region: Platform, due: nat, lastVisit: nat, p: nat)
    requires Matched(s.f) && region in s.visits && s.visits[region].member
    ensures var (s', v) := (Step1(s, Reschedule(region, due, lastVisit)), s.visits[region]);
            && s'.cohort == s.cohort && s'.outsider == s.outsider && s'.visits == s.visits - {region}
            && View(s'.f, p)
               == if p != v.pid || (p in s.f.index && s.f.index[p].bucket <= 0) then View(s.f, p)
                  else Some((Slot(region, 0, due), Task(v.task.puuid, lastVisit)))
  {
    hide Push, View;
    var v := s.visits[region];
    PushViews(s.f, Slot(region, BUCKET_PRIORITY, due), Item(v.pid, v.task.(lastVisit := lastVisit)), p);
  }

  // ---- adoption ----

  lemma {:induction false} AdoptedUnvisited(
      cohort: set<nat>, outsider: map<nat, nat>, pids: seq<nat>, puuids: seq<Puuid>, paused: bool, n: nat)
    requires n <= |pids| == |puuids|
    ensures forall i | 0 <= i < |Adopted(cohort, outsider, pids, puuids, paused, n)| ::
              Adopted(cohort, outsider, pids, puuids, paused, n)[i].task.lastVisit == 0
  {
    hide SightAll, Sight;
    if n > 0 {
      AdoptedUnvisited(cohort, outsider, pids, puuids, paused, n - 1);
    }
  }

  lemma {:induction false} AdoptedOnce(cohort: set<nat>, outsider: map<nat, nat>, pids: seq<nat>, paused: bool, n: nat)
    requires n <= |pids|
    ensures var c := SightAll(cohort, outsider, pids, paused, n);
            && (forall i, j | 0 <= i < j < |c.adopted| :: c.adopted[i] != c.adopted[j])
            && (forall p | p in c.adopted :: p in c.cohort && p !in cohort)
            && cohort <= c.cohort
  {
    if n > 0 {
      AdoptedOnce(cohort, outsider, pids, paused, n - 1);
      AdoptedAreNew(cohort, outsider, pids, paused, n - 1);
    }
  }

  /** `p` is queued now and for a first visit, under a puuid that stands beside his id in the match. */
  ghost predicate QueuedNow(f: Frontier, region: Platform, now: nat, puuids: seq<Puuid>, pids: seq<nat>, p: nat)
    requires |pids| == |puuids|
  {
    && View(f, p).Some? && View(f, p).value.0 == Slot(region, 0, now) && View(f, p).value.1.lastVisit == 0
    && exists j :: 0 <= j < |pids| && pids[j] == p && puuids[j] == View(f, p).value.1.puuid
  }

  /** A stored match queues whoever it brings into the cohort, unless he is queued in the priority bucket, and moves
      nobody else. */
  lemma StoreQueues(s: State, region: Platform, now: nat, puuids: seq<Puuid>, pids: seq<nat>, paused: bool, p: nat)
    requires Matched(s.f) && |pids| == |puuids|
    ensures var s' := Step1(s, StoreMatch(region, now, puuids, pids, paused, true));
            && s'.visits == s.visits
            && if p in s'.cohort && p !in s.cohort && (p in s.f.index ==> s.f.index[p].bucket > 0)
               then QueuedNow(s'.f, region, now, puuids, pids, p)
               else View(s'.f, p) == View(s.f, p)
  {
    hide PushAll, View, SightAll, Adopted, Matched, QueuedNow;
    AdoptedAreNew(s.cohort, s.outsider, pids, paused, |pids|);
    AdoptedOnce(s.cohort, s.outsider, pids, paused, |pids|);
    AdoptionQueues(s, region, now, puuids, pids, paused, p);
  }

  lemma AdoptionQueues(s: State, region: Platform, now: nat, puuids: seq<Puuid>, pids: seq<nat>, paused: bool, p: nat)
    requires Matched(s.f) && |pids| == |puuids|
    ensures var c := SightAll(s.cohort, s.outsider, pids, paused, |pids|);
            var items := Adopted(s.cohort, s.outsider, pids, puuids, paused, |pids|);
            var f := PushAll(s.f, Slot(region, BUCKET_PRIORITY, now), items, |items|);
            if p in c.adopted && (p in s.f.index ==> s.f.index[p].bucket > 0)
            then QueuedNow(f, region, now, puuids, pids, p) else View(f, p) == View(s.f, p)
  {
    hide PushAll, View, SightAll, Adopted, Matched, QueuedNow;
    var c := SightAll(s.cohort, s.outsider, pids, paused, |pids|);
    var items := Adopted(s.cohort, s.outsider, pids, puuids, paused, |pids|);
    NameBeside(s.cohort, s.outsider, pids, puuids, paused, |pids|);
    AdoptedUnvisited(s.cohort, s.outsider, pids, puuids, paused, |pids|);
    AdoptedOnce(s.cohort, s.outsider, pids, paused, |pids|);
    PushAllViews(s.f, Slot(region, BUCKET_PRIORITY, now), items, |items|, p);
    if p in c.adopted {
      var i :| 0 <= i < |c.adopted| && c.adopted[i] == p;
      AdoptedQueuedNow(s.f, PushAll(s.f, Slot(region, BUCKET_PRIORITY, now), items, |items|), region, now, puuids, pids,
                       c.adopted, items, i);
    } else {
      forall i | 0 <= i < |items| ensures items[i].pid != p {
        assert items[i].pid == c.adopted[i];
      }
    }
  }

  lemma AdoptedQueuedNow(
      f: Frontier, f': Frontier, region: Platform, now: nat, puuids: seq<Puuid>, pids: seq<nat>, adopted: seq<nat>,
      items: seq<Item>, i: nat)
    requires |pids| == |puuids| && i < |items| == |adopted|
    requires forall j, k | 0 <= j < k < |adopted| :: adopted[j] != adopted[k]
    requires forall j | 0 <= j < |items| :: items[j].pid == adopted[j] && items[j].task.lastVisit == 0
    requires exists j :: 0 <= j < |pids| && pids[j] == items[i].pid && puuids[j] == items[i].task.puuid
    requires forall k | 0 <= k < |items| && items[k].pid == adopted[i]
                        && (forall j | 0 <= j < k :: items[j].pid != adopted[i]) ::
               View(f', adopted[i])
               == if adopted[i] in f.index && f.index[adopted[i]].bucket <= 0 then View(f, adopted[i])
                  else Some((Slot(region, 0, now), items[k].task))
    ensures if adopted[i] in f.index && f.index[adopted[i]].bucket <= 0
            then View(f', adopted[i]) == View(f, adopted[i])
            else QueuedNow(f', region, now, puuids, pids, adopted[i])
  {
    hide View;
    forall j | 0 <= j < i ensures items[j].pid != adopted[i] {
      assert items[j].pid == adopted[j];
    }
    assert items[i].pid == adopted[i];
  }

  /** A match already stored, or a remake, changes nothing here. */
  lemma UncountedChangesNothing(s: State, region: Platform, now: nat, puuids: seq<Puuid>, pids: seq<nat>, paused: bool)
    requires |pids| == |puuids|
    ensures Step1(s, StoreMatch(region, now, puuids, pids, paused, false)) == s
  {
  }
}
