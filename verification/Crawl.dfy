/**
 The crawl loops over the shared store, one step per locked section: no cohort
 member is ever lost, whatever regions, enrolments and adoptions interleave.
 */
module Crawl {
  import opened Results
  import opened StoreSpec
  import opened FrontierSpec
  import opened FrontierProof

  /** A player a region has popped; `member` once found to be in the cohort. */
  datatype Visit = Visit(pid: nat, task: Task, member: bool)

  datatype State = State(f: Frontier, cohort: set<nat>, outsider: map<nat, nat>, visits: map<Platform, Visit>)

  datatype Step =
    | PopDue(region: Platform, now: nat)
    | CheckMember(region: Platform)
    | Reschedule(region: Platform, due: nat, lastVisit: nat)
    | Enroll(region: Platform, now: nat, players: seq<Item>)
    | StoreMatch(region: Platform, now: nat, puuids: seq<Puuid>, pids: seq<nat>, paused: bool, counted: bool)

  function Pids(items: seq<Item>): set<nat> {
    set i | 0 <= i < |items| :: items[i].pid
  }

  /** The players among the first `n` whom a match adopts, never visited, each under the puuid beside its id. */
  function Adopted(cohort: set<nat>, outsider: map<nat, nat>, pids: seq<nat>, puuids: seq<Puuid>, paused: bool, n: nat)
    : (items: seq<Item>)
    requires n <= |pids| == |puuids|
  {
    if n == 0 then []
    else
      var items := Adopted(cohort, outsider, pids, puuids, paused, n - 1);
      var c := SightAll(cohort, outsider, pids, paused, n - 1);
      if |Sight(c, pids[n - 1], paused).adopted| > |c.adopted|
      then items + [Item(pids[n - 1], Task(puuids[n - 1], 0))] else items
  }

  /** They are the adopted players of the sighting, in order, and each one's name stands beside its id in the match. */
  lemma {:induction false} NameBeside(cohort: set<nat>, outsider: map<nat, nat>, pids: seq<nat>, puuids: seq<Puuid>,
                                      paused: bool, n: nat)
    requires n <= |pids| == |puuids|
    ensures var items := Adopted(cohort, outsider, pids, puuids, paused, n);
            var c := SightAll(cohort, outsider, pids, paused, n);
            && |items| == |c.adopted|
            && (forall i | 0 <= i < |items| :: items[i].pid == c.adopted[i]
                  && exists j :: 0 <= j < n && pids[j] == items[i].pid && puuids[j] == items[i].task.puuid)
  {
    if n > 0 {
      NameBeside(cohort, outsider, pids, puuids, paused, n - 1);
      var before := Adopted(cohort, outsider, pids, puuids, paused, n - 1);
      var items := Adopted(cohort, outsider, pids, puuids, paused, n);
      forall i | 0 <= i < |items|
        ensures exists j :: 0 <= j < n && pids[j] == items[i].pid && puuids[j] == items[i].task.puuid
      {
        if i < |before| {
          var j :| 0 <= j < n - 1 && pids[j] == before[i].pid && puuids[j] == before[i].task.puuid;
        } else {
          assert pids[n - 1] == items[i].pid && puuids[n - 1] == items[i].task.puuid;
        }
      }
    }
  }

  predicate Enabled(s: State, step: Step) {
    match step
    case PopDue(region, _) => region !in s.visits
    case CheckMember(region) => region in s.visits && !s.visits[region].member
    case Reschedule(region, _, _) => region in s.visits && s.visits[region].member
    case Enroll(_, _, _) => true
    case StoreMatch(_, _, puuids, pids, _, _) => |pids| == |puuids|
  }

  ghost function Step1(s: State, step: Step): State
    requires Enabled(s, step)
  {
    match step
    case PopDue(region, now) =>
      var k := Next(s.f, region, now);
      if k.None? || k.value !in s.f.tasks then s
      else s.(f := Pop(s.f, region, now), visits := s.visits[region := Visit(k.value.pid, s.f.tasks[k.value], false)])
    case CheckMember(region) =>
      // a player outside the cohort is dropped
      if s.visits[region].pid in s.cohort then s.(visits := s.visits[region := s.visits[region].(member := true)])
      else s.(visits := s.visits - {region})
    case Reschedule(region, due, lastVisit) =>
      var v := s.visits[region];
      s.(f := Push(s.f, Key(region, BUCKET_PRIORITY, due, v.pid), v.task.(lastVisit := lastVisit)),
         visits := s.visits - {region})
    case Enroll(region, now, players) =>
      s.(cohort := s.cohort + Pids(players), outsider := s.outsider - (Pids(players) - s.cohort),
         f := PushAll(s.f, Slot(region, BUCKET_PRIORITY, now), players, |players|))
    case StoreMatch(region, now, puuids, pids, paused, counted) =>
      // only a match stored for the first time, and no remake, counts sightings
      if !counted then s
      else
        var c := SightAll(s.cohort, s.outsider, pids, paused, |pids|);
        var items := Adopted(s.cohort, s.outsider, pids, puuids, paused, |pids|);
        s.(cohort := c.cohort, outsider := c.outsider,
           f := PushAll(s.f, Slot(region, BUCKET_PRIORITY, now), items, |items|))
  }

  ghost function Run(steps: seq<Step>, n: nat): State
    requires n <= |steps|
  {
    if n == 0 then State(Frontier(map[], map[]), {}, map[], map[])
    else
      var s := Run(steps, n - 1);
      if Enabled(s, steps[n - 1]) then Step1(s, steps[n - 1]) else s
  }

  // ---- nobody is lost ----

  /** Some region is visiting the player. */
  ghost predicate Visiting(s: State, pid: nat) {
    exists region :: region in s.visits && s.visits[region].pid == pid
  }

  ghost predicate Kept(s: State) {
    Matched(s.f) && forall pid | pid in s.cohort :: pid in s.f.index || Visiting(s, pid)
  }

  /** Everyone a match brings into the cohort is on its list of adopted players. */
  lemma {:induction false} AdoptedAreNew(cohort: set<nat>, outsider: map<nat, nat>, pids: seq<nat>, paused: bool,
                                         n: nat)
    requires n <= |pids|
    ensures var c := SightAll(cohort, outsider, pids, paused, n);
            forall p :: p in c.cohort <==> p in cohort || p in c.adopted
  {
    if n > 0 {
      AdoptedAreNew(cohort, outsider, pids, paused, n - 1);
    }
  }

  lemma PushAllKeeps(s: State, region: Platform, now: nat, items: seq<Item>, cohort: set<nat>, outsider: map<nat, nat>)
    requires Kept(s) && forall p | p in cohort :: p in s.cohort || exists i :: 0 <= i < |items| && items[i].pid == p
    ensures Kept(State(PushAll(s.f, Slot(region, BUCKET_PRIORITY, now), items, |items|), cohort, outsider, s.visits))
  {
    hide Matched, PushAll;
    PushAllMatched(s.f, Slot(region, BUCKET_PRIORITY, now), items, |items|);
    var s' := State(PushAll(s.f, Slot(region, BUCKET_PRIORITY, now), items, |items|), cohort, outsider, s.visits);
    forall pid | pid in cohort ensures pid in s'.f.index || Visiting(s', pid) {
      if exists i :: 0 <= i < |items| && items[i].pid == pid {
      } else if Visiting(s, pid) {
        var region' :| region' in s.visits && s.visits[region'].pid == pid;
        assert region' in s'.visits;
      }
    }
  }

  lemma PopKeeps(s: State, region: Platform, now: nat)
    requires Kept(s) && region !in s.visits
    ensures Kept(Step1(s, PopDue(region, now)))
  {
    hide Next, Pop, Matched;
    var k := Next(s.f, region, now);
    if k.Some? {
      PopTakesLeast(s.f, region, now);
      var s' := Step1(s, PopDue(region, now));
      assert region in s'.visits && s'.visits[region].pid == k.value.pid;
      forall pid | pid in s'.cohort ensures pid in s'.f.index || Visiting(s', pid) {
        if Visiting(s, pid) {
          var region' :| region' in s.visits && s.visits[region'].pid == pid;
          assert region' in s'.visits && s'.visits[region'].pid == pid;
        }
      }
    }
  }

  lemma CheckKeeps(s: State, region: Platform)
    requires Kept(s) && Enabled(s, CheckMember(region))
    ensures Kept(Step1(s, CheckMember(region)))
  {
    hide Matched;
    var s' := Step1(s, CheckMember(region));
    forall pid | pid in s'.cohort && pid !in s.f.index ensures Visiting(s', pid) {
      var region' :| region' in s.visits && s.visits[region'].pid == pid;
      assert region' in s'.visits && s'.visits[region'].pid == pid;
    }
  }

  lemma RescheduleKeeps(s: State, region: Platform, due: nat, lastVisit: nat)
    requires Kept(s) && Enabled(s, Reschedule(region, due, lastVisit))
    ensures Kept(Step1(s, Reschedule(region, due, lastVisit)))
  {
    hide Matched, Push;
    var v := s.visits[region];
    PushMatched(s.f, Key(region, BUCKET_PRIORITY, due, v.pid), v.task.(lastVisit := lastVisit));
    var s' := Step1(s, Reschedule(region, due, lastVisit));
    forall pid | pid in s'.cohort && pid !in s'.f.index ensures Visiting(s', pid) {
      var region' :| region' in s.visits && s.visits[region'].pid == pid;
      assert region' in s'.visits && s'.visits[region'].pid == pid;
    }
  }

  lemma AdoptedQueued(s: State, region: Platform, now: nat, puuids: seq<Puuid>, pids: seq<nat>, paused: bool)
    requires Kept(s) && |pids| == |puuids|
    ensures var c := SightAll(s.cohort, s.outsider, pids, paused, |pids|);
            var items := Adopted(s.cohort, s.outsider, pids, puuids, paused, |pids|);
            var f := PushAll(s.f, Slot(region, BUCKET_PRIORITY, now), items, |items|);
            Kept(State(f, c.cohort, c.outsider, s.visits))
  {
    hide Kept, PushAll, SightAll, Adopted;
    AdoptedAreNew(s.cohort, s.outsider, pids, paused, |pids|);
    NameBeside(s.cohort, s.outsider, pids, puuids, paused, |pids|);
    var c := SightAll(s.cohort, s.outsider, pids, paused, |pids|);
    var items := Adopted(s.cohort, s.outsider, pids, puuids, paused, |pids|);
    forall p | p in c.cohort ensures p in s.cohort || exists i :: 0 <= i < |items| && items[i].pid == p {
      if p !in s.cohort {
        var i :| 0 <= i < |c.adopted| && c.adopted[i] == p;
        assert items[i].pid == p;
      }
    }
    PushAllKeeps(s, region, now, items, c.cohort, c.outsider);
  }

  lemma StepKeeps(s: State, step: Step)
    requires Kept(s) && Enabled(s, step)
    ensures Kept(Step1(s, step))
  {
    hide Kept, PushAll, Next, Pop, Push, SightAll;
    match step
    case PopDue(region, now) => PopKeeps(s, region, now);
    case CheckMember(region) => CheckKeeps(s, region);
    case Reschedule(region, due, lastVisit) => RescheduleKeeps(s, region, due, lastVisit);
    case Enroll(region, now, players) =>
      PushAllKeeps(s, region, now, players, s.cohort + Pids(players), s.outsider - (Pids(players) - s.cohort));
    case StoreMatch(region, now, puuids, pids, paused, counted) =>
      if counted {
        AdoptedQueued(s, region, now, puuids, pids, paused);
      }
  }

  /** At every step of every run each cohort member is queued or being visited. */
  lemma {:induction false} NobodyIsLost(steps: seq<Step>, n: nat)
    requires n <= |steps|
    ensures Kept(Run(steps, n))
  {
    hide Step1, Enabled;
    if n > 0 {
      hide Kept;
      NobodyIsLost(steps, n - 1);
      var s := Run(steps, n - 1);
      if Enabled(s, steps[n - 1]) {
        StepKeeps(s, steps[n - 1]);
      }
    }
  }
}
