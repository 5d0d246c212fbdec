/**
 Who really supplied the two bodies an audit compares. A record beside the run
 notes which node answered each job and which nodes have held its lease; it says
 exactly when the two bodies come from two nodes.
 */
module BrokerAudit {
  import opened Results
  import opened BrokerSpec
  import opened BrokerProof
  import opened BrokerOnce

  /** A job's answer: from whom, what, and whether the job was under lease then. */
  datatype Given = Given(node: nat, body: AuditBody, held: bool)

  datatype Trail = Trail(given: map<nat, Given>, holders: map<nat, set<nat>>)

  function Holders(holders: map<nat, set<nat>>, id: nat): set<nat> {
    if id in holders then holders[id] else {}
  }

  function Holder(s: State, id: nat): set<nat> {
    if id in s.jobs && s.jobs[id].lease.Some? then {s.jobs[id].lease.value.node} else {}
  }

  /** The nodes that have held each job, with those of the leases of `s`. */
  function Noted(holders: map<nat, set<nat>>, s: State): map<nat, set<nat>> {
    map id | id in holders.Keys + s.jobs.Keys :: Holders(holders, id) + Holder(s, id)
  }

  function NextGiven(given: map<nat, Given>, s: State, step: Step): map<nat, Given> {
    if step.DoReport? && step.outcome.Answer? && Accepted(s, step.node, step.id)
    then given[step.id := Given(step.node, step.outcome.body, s.jobs[step.id].lease.Some?)]
    else given
  }

  ghost function RunTrail(steps: seq<Step>, n: nat): Trail
    requires n <= |steps|
  {
    if n == 0 then Trail(map[], map[])
    else
      var r := RunTrail(steps, n - 1);
      var s := Run(steps, n - 1);
      if Enabled(s, steps[n - 1])
      then Trail(NextGiven(r.given, s, steps[n - 1]), Noted(r.holders, Run(steps, n)))
      else r
  }

  // ---- what the record keeps in every run ----

  /** A primary's twin link is recorded as its twin's owner. */
  ghost predicate LinkOwned(s: State) {
    && (forall p | p in s.jobs && !s.jobs[p].isTwin && s.jobs[p].twin.Some? ::
          s.jobs[p].twin.value in s.owner && s.owner[s.jobs[p].twin.value] == p)
    && (forall t | t in s.owner :: t < s.nextId && s.owner[t] < s.nextId)
    && (forall t | t in s.owner && t in s.jobs :: s.jobs[t].isTwin)
    && (forall t | t in s.audits :: t in s.owner)
  }

  /** A body in an audit is the recorded answer of its job, and the twin's node the one recorded. */
  ghost predicate BodiesGiven(s: State, given: map<nat, Given>) {
    && (forall t | t in s.audits && t in s.owner && s.audits[t].primary.Some? ::
          s.owner[t] in given && s.audits[t].primary.value == given[s.owner[t]].body)
    && (forall t | t in s.audits && s.audits[t].twin.Some? ::
          t in given && s.audits[t].twin.value == given[t].body && s.audits[t].twinNode == Some(given[t].node))
    && (forall id | id in given :: id !in s.jobs && id < s.nextId)
  }

  /** Leases are noted, answers under lease came from a holder, and the audited twin was never held by the node the
      audit records for the primary, which did hold that. */
  ghost predicate LeasesNoted(s: State, r: Trail) {
    && (forall id :: Holder(s, id) <= Holders(r.holders, id))
    && (forall id | id in r.holders :: id < s.nextId)
    && (forall id | id in r.given && r.given[id].held :: r.given[id].node in Holders(r.holders, id))
    && (forall t | t in s.audits && t in s.owner ::
          s.audits[t].primaryNode !in Holders(r.holders, t)
          && s.audits[t].primaryNode in Holders(r.holders, s.owner[t]))
  }

  ghost predicate Trailed(s: State, r: Trail) {
    LinkOwned(s) && BodiesGiven(s, r.given) && LeasesNoted(s, r)
  }

  // ---- steps that close or drop, and fetches ----

  /** Audits and jobs of `s'` are those of `s`, but for new primaries. */
  ghost predicate Less(s: State, s': State) {
    && s'.owner == s.owner && s'.nextId >= s.nextId
    && (forall t | t in s'.audits :: t in s.audits && s'.audits[t] == s.audits[t])
    && (forall id | id in s'.jobs ::
          if id in s.jobs then SameJob(s.jobs[id], s'.jobs[id])
          else id >= s.nextId && !s'.jobs[id].isTwin && s'.jobs[id].twin.None?)
  }

  /** No lease of `s'` was not one of `s`. */
  ghost predicate NoLease(s: State, s': State) {
    forall id :: Holder(s', id) <= Holder(s, id)
  }

  lemma LessTwice(a: State, b: State, c: State)
    requires Less(a, b) && Less(b, c) && NoLease(a, b) && NoLease(b, c)
    requires forall id | id in c.jobs && id !in b.jobs :: id !in a.jobs
    ensures Less(a, c) && NoLease(a, c)
  {
    hide Holder;
  }

  lemma NotedHolders(holders: map<nat, set<nat>>, s: State)
    ensures forall id :: Holders(Noted(holders, s), id) == Holders(holders, id) + Holder(s, id)
    ensures forall id :: id in Noted(holders, s) <==> id in holders || id in s.jobs
  {
  }

  /** Noting a state keeps the record, when no audit opens and no lease is granted. */
  lemma NotedLeases(s: State, s': State, given: map<nat, Given>, given': map<nat, Given>, holders: map<nat, set<nat>>)
    requires LeasesNoted(s, Trail(given, holders)) && IdsOk(s') && NoLease(s, s') && s'.nextId >= s.nextId
    requires s'.owner == s.owner
    requires forall t | t in s'.audits :: t in s.audits && s'.audits[t].primaryNode == s.audits[t].primaryNode
    requires forall id | id in given' :: (id in given && given'[id] == given[id])
                                      || (given'[id].held ==> given'[id].node in Holder(s, id))
    ensures LeasesNoted(s', Trail(given', Noted(holders, s')))
  {
    hide Holders, Holder, Noted;
    NotedHolders(holders, s');
  }

  lemma LessTrailed(s: State, s': State, r: Trail)
    requires Trailed(s, r) && Less(s, s') && NoLease(s, s') && IdsOk(s')
    ensures Trailed(s', Trail(r.given, Noted(r.holders, s')))
  {
    assert LinkOwned(s') by { hide BodiesGiven, LeasesNoted, NoLease, IdsOk; }
    assert BodiesGiven(s', r.given) by { hide LinkOwned, LeasesNoted, NoLease, IdsOk; }
    hide LinkOwned, BodiesGiven, IdsOk, NoLease, LeasesNoted, Noted, SameJob;
    NotedLeases(s, s', r.given, r.given, r.holders);
  }

  // ---- each such step ----

  lemma FetchLess(s: State, req: Request, now: nat)
    requires IdsOk(s)
    ensures Less(s, Fetch(s, req, now)) && NoLease(s, Fetch(s, req, now))
  {
  }

  lemma DropLess(s: State, s': State)
    requires s'.owner == s.owner && s'.nextId == s.nextId
    requires forall t | t in s'.audits :: t in s.audits && s'.audits[t] == s.audits[t]
    requires forall id | id in s'.jobs :: id in s.jobs && s'.jobs[id] == s.jobs[id]
    ensures Less(s, s') && NoLease(s, s') && s'.jobs.Keys <= s.jobs.Keys
  {
  }

  lemma AbandonLess(s: State, id: nat)
    ensures Less(s, Abandon(s, id)) && NoLease(s, Abandon(s, id)) && Abandon(s, id).jobs.Keys <= s.jobs.Keys
  {
    hide Remove, Less, NoLease;
    if id in s.jobs {
      RemoveTables(s, id, Abandoned);
    }
    DropLess(s, Abandon(s, id));
  }

  lemma FailureLess(s: State, id: nat)
    requires id in s.jobs
    ensures Less(s, CountFailure(s, id)) && NoLease(s, CountFailure(s, id))
            && CountFailure(s, id).jobs.Keys == s.jobs.Keys
  {
  }

  lemma RequeueLess(s: State, id: nat)
    requires id in s.jobs
    ensures var s' := Requeue(Unlease(s, id), id); Less(s, s') && NoLease(s, s') && s'.jobs.Keys == s.jobs.Keys
    ensures var s' := Unlease(s, id); Less(s, s') && NoLease(s, s') && s'.jobs.Keys == s.jobs.Keys
  {
  }

  lemma ReleaseLess(s: State, id: nat, counted: bool)
    ensures var s' := Release(s, id, counted); Less(s, s') && NoLease(s, s') && s'.jobs.Keys <= s.jobs.Keys
  {
    hide Abandon, Less, NoLease, CountFailure, Unlease;
    if id !in s.jobs {
      SameLess(s);
    } else {
      RequeueLess(s, id);
      if counted {
        var s1 := Unlease(s, id);
        var s2 := CountFailure(s1, id);
        FailureLess(s1, id);
        LessTwice(s, s1, s2);
        AbandonLess(s2, id);
        LessTwice(s, s2, Abandon(s2, id));
        PushLess(s2, s2.jobs[id].req.host, Entry(id, s2.jobs[id].exclude));
        LessTwice(s, s2, Requeue(s2, id));
      }
    }
  }

  lemma SameLess(s: State)
    ensures Less(s, s) && NoLease(s, s)
  {
  }

  lemma PushLess(s: State, host: Host, e: Entry)
    ensures Less(s, Push(s, host, e)) && NoLease(s, Push(s, host, e)) && Push(s, host, e).jobs == s.jobs
  {
  }

  lemma {:induction false} ReleaseAllLess(s: State, ids: seq<nat>, n: nat)
    requires n <= |ids|
    ensures var s' := ReleaseAll(s, ids, n); Less(s, s') && NoLease(s, s') && s'.jobs.Keys <= s.jobs.Keys
  {
    hide Less, NoLease, Release;
    if n == 0 {
      SameLess(s);
    } else {
      ReleaseAllLess(s, ids, n - 1);
      ReleaseLess(ReleaseAll(s, ids, n - 1), ids[n - 1], true);
      LessTwice(s, ReleaseAll(s, ids, n - 1), ReleaseAll(s, ids, n));
    }
  }

  lemma SweepLess(s: State, now: nat, expired: seq<nat>)
    ensures Less(s, Sweep(s, now, expired)) && NoLease(s, Sweep(s, now, expired))
  {
    hide ReleaseAll;
    var s1 := ReleaseAll(s, expired, |expired|);
    ReleaseAllLess(s, expired, |expired|);
    var s2 := DropTwins(s1, StaleTwins(s1, now));
    assert Less(s1, s2) && NoLease(s1, s2);
    LessTwice(s, s1, s2);
  }

  lemma ShutdownLess(s: State)
    ensures Less(s, Shutdown(s)) && NoLease(s, Shutdown(s))
  {
  }

  lemma BadReportLess(s: State, node: nat, id: nat, outcome: Outcome)
    requires outcome.Answer? ==> !Accepted(s, node, id)
    ensures Less(s, Report(s, node, id, outcome)) && NoLease(s, Report(s, node, id, outcome))
  {
    hide Abandon, Less, NoLease, CountFailure, Release;
    if !Accepted(s, node, id) {
      SameLess(s);
    } else if outcome.KeyRejected? {
      ReleaseLess(s, id, false);
    } else {
      var s1 := CountFailure(s, id);
      FailureLess(s, id);
      AbandonLess(s1, id);
      ReleaseLess(s1, id, false);
      LessTwice(s, s1, Report(s, node, id, outcome));
    }
  }

  // ---- an answer ----

  /** `s'` is `s` without job `id`, its body in its half of its audit. */
  ghost predicate Filled(s: State, s': State, node: nat, id: nat, body: AuditBody)
    requires id in s.jobs
  {
    var job := s.jobs[id];
    && s'.jobs == s.jobs - {id} && s'.owner == s.owner && s'.nextId == s.nextId
    && forall t | t in s'.audits :: t in s.audits
         && s'.audits[t] == if job.isTwin && t == id then s.audits[t].(twinNode := Some(node), twin := Some(body))
                            else if !job.isTwin && job.twin == Some(t) then s.audits[t].(primary := Some(body))
                            else s.audits[t]
  }

  lemma CompleteFills(s: State, node: nat, id: nat, body: AuditBody)
    requires id in s.jobs
    ensures Filled(s, Complete(s, node, id, body), node, id, body)
  {
    RemoveTables(s, id, Body(body));
    hide Remove, Told;
    var job := s.jobs[id];
    var s1 := Remove(s, id, Body(body));
    if job.isTwin {
      if id in s1.audits {
        var pair := s1.audits[id].(twinNode := Some(node), twin := Some(body));
        FinishDrops(s1.(audits := s1.audits[id := pair]), id);
      } else {
        FinishDrops(s1, id);
      }
    } else if job.twin.Some? {
      var t := job.twin.value;
      if t in s1.audits {
        FinishDrops(s1.(audits := s1.audits[t := s1.audits[t].(primary := Some(body))]), t);
      } else {
        FinishDrops(s1, t);
      }
    }
  }

  lemma FinishDrops(s: State, t: nat)
    ensures var s' := FinishAudit(s, t);
            s' == s.(audits := s'.audits) && forall u | u in s'.audits :: u in s.audits && s'.audits[u] == s.audits[u]
  {
  }

  lemma FilledBodies(s: State, s': State, given: map<nat, Given>, node: nat, id: nat, body: AuditBody)
    requires LinkOwned(s) && BodiesGiven(s, given) && IdsOk(s) && Accepted(s, node, id) && Filled(s, s', node, id, body)
    ensures LinkOwned(s') && BodiesGiven(s', NextGiven(given, s, DoReport(node, id, Answer(body))))
  {
  }

  lemma AnswerTrailed(s: State, r: Trail, node: nat, id: nat, body: AuditBody)
    requires Trailed(s, r) && Accepted(s, node, id) && IdsOk(s) && IdsOk(Complete(s, node, id, body))
    ensures var s' := Complete(s, node, id, body);
            Trailed(s', Trail(NextGiven(r.given, s, DoReport(node, id, Answer(body))), Noted(r.holders, s')))
  {
    hide Complete, LinkOwned, BodiesGiven, LeasesNoted, IdsOk, Noted;
    CompleteFills(s, node, id, body);
    var s' := Complete(s, node, id, body);
    FilledBodies(s, s', r.given, node, id, body);
    NotedLeases(s, s', r.given, NextGiven(r.given, s, DoReport(node, id, Answer(body))), r.holders);
  }

  // ---- a dispatch ----

  ghost predicate OwnersGrow(s: State, s': State) {
    && s'.nextId >= s.nextId
    && (forall t | t in s.owner :: t in s'.owner && s'.owner[t] == s.owner[t])
    && (forall t | t in s'.owner && t !in s.owner :: s.nextId <= t < s'.nextId && s'.owner[t] < s'.nextId)
  }

  ghost predicate JobsGrow(s: State, s': State) {
    forall id | id in s'.jobs :: if id in s.jobs
      then s'.jobs[id].isTwin == s.jobs[id].isTwin
           && (s'.jobs[id].twin == s.jobs[id].twin
               || (s'.jobs[id].twin.Some? && s'.jobs[id].twin.value in s'.owner
                   && s'.owner[s'.jobs[id].twin.value] == id))
      else id >= s.nextId && s'.jobs[id].isTwin
  }

  ghost predicate AuditsGrow(s: State, s': State, node: nat) {
    && (forall t | t in s'.audits && t in s.audits :: s'.audits[t] == s.audits[t])
    && (forall t | t in s'.audits && t !in s.audits :: s.nextId <= t < s'.nextId && t in s'.owner
          && s'.audits[t].primary.None? && s'.audits[t].twin.None? && s'.audits[t].primaryNode == node
          && Holder(s', s'.owner[t]) == {node} && Holder(s', t) == {})
  }

  /** Jobs and audits of `s` as they were but for leases and twin links; new ones are twins with an open audit of a
      primary that `node` holds. */
  ghost predicate Grows(s: State, s': State, node: nat) {
    OwnersGrow(s, s') && JobsGrow(s, s') && AuditsGrow(s, s', node)
  }

  lemma LivesGrow(s: State, s': State, node: nat)
    requires SameLives(s, s')
    ensures Grows(s, s', node)
  {
    assert forall id :: id in s.jobs <==> id in s'.jobs;
  }

  lemma LivesTwice(a: State, b: State, c: State)
    requires SameLives(a, b) && SameLives(b, c)
    ensures SameLives(a, c)
  {
    assert forall id :: id in a.jobs <==> id in b.jobs;
  }

  lemma {:induction false} LeaseAllLives(a: Take, ids: seq<nat>, n: nat, poll: Poll)
    requires n <= |ids|
    ensures SameLives(a.s, LeaseAll(a, ids, n, poll).s)
  {
    hide LeaseOne;
    if n > 0 {
      hide SameLives;
      LeaseAllLives(a, ids, n - 1, poll);
      LeaseOneLives(LeaseAll(a, ids, n - 1, poll), ids[n - 1], poll);
      LivesTwice(a.s, LeaseAll(a, ids, n - 1, poll).s, LeaseAll(a, ids, n, poll).s);
    }
  }

  /** What is to be audited is held by the node. */
  ghost predicate TwinsHeld(a: Take, node: nat) {
    forall h | h in a.twins :: Holder(a.s, h.id) == {node}
  }

  lemma {:induction false} LeaseAllHeld(a: Take, ids: seq<nat>, n: nat, poll: Poll)
    requires n <= |ids| && TwinsHeld(a, poll.node)
    ensures TwinsHeld(LeaseAll(a, ids, n, poll), poll.node)
  {
    if n > 0 {
      LeaseAllHeld(a, ids, n - 1, poll);
    }
  }

  lemma {:induction false} TakeHostsHeld(s: State, hosts: seq<Host>, n: nat, poll: Poll)
    requires n <= |hosts|
    ensures var a := TakeHosts(s, hosts, n, poll); TwinsHeld(a, poll.node) && SameLives(s, a.s)
  {
    hide LeaseAll, Pick, SameLives;
    if n == 0 {
      SameState(s);
    } else {
      TakeHostsHeld(s, hosts, n - 1, poll);
      var a := TakeHosts(s, hosts, n - 1, poll);
      var q := Queue(a.s.queues, hosts[n - 1]);
      var p := Pick(q, |q|, poll.node, poll.Cap(hosts[n - 1]));
      var s1 := a.s.(queues := a.s.queues[hosts[n - 1] := p.rest]);
      SameButQueues(a.s, s1);
      LivesTwice(s, a.s, s1);
      LeaseAllHeld(a.(s := s1), p.ids, |p.ids|, poll);
      LeaseAllLives(a.(s := s1), p.ids, |p.ids|, poll);
      LivesTwice(s, s1, LeaseAll(a.(s := s1), p.ids, |p.ids|, poll).s);
    }
  }

  lemma SameState(s: State)
    ensures SameLives(s, s)
  {
  }

  lemma SameButQueues(s: State, s': State)
    requires s' == s.(queues := s'.queues)
    ensures SameLives(s, s')
  {
  }

  /** The tables after adding a twin. */
  lemma AddTwinTables(s: State, h: Handout, poll: Poll)
    requires h.id in s.jobs && IdsOk(s)
    ensures var s', t := AddTwin(s, h, poll), s.nextId;
            && s'.nextId == t + 1 && s'.owner == s.owner[t := h.id]
            && s'.audits == s.audits[t := AuditPair(h.req, poll.node, None, None, None)]
            && t !in s.jobs && s'.jobs.Keys == s.jobs.Keys + {t}
            && s'.jobs[t].isTwin && s'.jobs[t].lease.None?
            && s'.jobs[h.id] == s.jobs[h.id].(twin := Some(t))
            && forall id | id in s.jobs && id != h.id :: s'.jobs[id] == s.jobs[id]
  {
  }

  lemma AddTwinHolders(s: State, h: Handout, poll: Poll)
    requires h.id in s.jobs && IdsOk(s)
    ensures forall id :: Holder(AddTwin(s, h, poll), id) == Holder(s, id)
  {
    AddTwinTables(s, h, poll);
    hide AddTwin;
  }

  /** `s'` is `s` with a new twin of `h.id` and its audit. */
  ghost predicate TwinAdded(s: State, s': State, h: Handout, node: nat) {
    var t := s.nextId;
    && s'.nextId == t + 1 && s'.owner == s.owner[t := h.id]
    && s'.audits == s.audits[t := AuditPair(h.req, node, None, None, None)]
    && t !in s.jobs && t !in s.owner && t !in s.audits && h.id in s.jobs && h.id < t
    && (forall id | id in s'.jobs :: id in s.jobs || (id == t && s'.jobs[id].isTwin))
    && (forall id | id in s'.jobs && id in s.jobs :: s'.jobs[id].isTwin == s.jobs[id].isTwin
          && s'.jobs[id].twin == if id == h.id then Some(t) else s.jobs[id].twin)
    && (forall id :: Holder(s', id) == Holder(s, id)) && Holder(s, t) == {}
  }

  lemma AddTwinAdded(s: State, h: Handout, poll: Poll)
    requires h.id in s.jobs && IdsOk(s) && s.nextId !in s.owner
    ensures TwinAdded(s, AddTwin(s, h, poll), h, poll.node)
  {
    AddTwinTables(s, h, poll);
    AddTwinHolders(s, h, poll);
    hide AddTwin;
  }

  lemma TwinAddedJobs(s0: State, s: State, s': State, h: Handout, node: nat)
    requires IdsOk(s0) && OwnersGrow(s0, s) && JobsGrow(s0, s) && TwinAdded(s, s', h, node)
    ensures OwnersGrow(s0, s') && JobsGrow(s0, s')
  {
    hide Holder;
  }

  lemma TwinAddedAudits(s0: State, s: State, s': State, h: Handout, node: nat)
    requires IdsOk(s0) && OwnersGrow(s0, s) && AuditsGrow(s0, s, node) && TwinAdded(s, s', h, node)
             && Holder(s, h.id) == {node}
    ensures AuditsGrow(s0, s', node)
  {
    hide Holder;
  }

  lemma AddTwinGrows(s0: State, s: State, h: Handout, poll: Poll)
    requires IdsOk(s0) && IdsOk(s) && Grows(s0, s, poll.node) && h.id in s.jobs && Holder(s, h.id) == {poll.node}
    requires forall t | t in s0.owner :: t < s0.nextId
    ensures Grows(s0, AddTwin(s, h, poll), poll.node)
  {
    assert s.nextId !in s.owner;
    hide AddTwin, TwinAdded, OwnersGrow, JobsGrow, AuditsGrow, Holder;
    AddTwinAdded(s, h, poll);
    TwinAddedJobs(s0, s, AddTwin(s, h, poll), h, poll.node);
    TwinAddedAudits(s0, s, AddTwin(s, h, poll), h, poll.node);
  }

  lemma {:induction false} AddTwinsGrow(s0: State, a: Take, n: nat, poll: Poll)
    requires n <= |a.twins| && Safe(a.s) && Auditable(a) && Grows(s0, a.s, poll.node) && TwinsHeld(a, poll.node)
             && IdsOk(s0)
    requires forall t | t in s0.owner :: t < s0.nextId
    ensures var s := AddTwins(a.s, a.twins, n, poll); Grows(s0, s, poll.node) && TwinsHeld(a.(s := s), poll.node)
  {
    hide AddTwin, Safe, Grows, Holder, Auditable;
    if n > 0 {
      AddTwinsGrow(s0, a, n - 1, poll);
      AddTwinsSafe(a, n - 1, poll);
      var s := AddTwins(a.s, a.twins, n - 1, poll);
      var h := a.twins[n - 1];
      SafeFacts(s);
      assert h in a.twins;
      HeldIsLive(s, h.id, poll.node);
      AddTwinGrows(s0, s, h, poll);
      AddTwinHolders(s, h, poll);
    }
  }

  lemma HeldIsLive(s: State, id: nat, node: nat)
    requires Holder(s, id) == {node}
    ensures id in s.jobs
  {
  }

  lemma DispatchGrows(s: State, hosts: seq<Host>, poll: Poll)
    requires Safe(s) && LinkOwned(s)
    ensures Grows(s, Dispatch(s, hosts, poll), poll.node)
  {
    SafeFacts(s);
    hide Safe, Auditable, AddTwins, TakeHosts, Grows, IdsOk;
    TakeHostsSafe(s, hosts, |hosts|, poll);
    TakeHostsHeld(s, hosts, |hosts|, poll);
    var a := TakeHosts(s, hosts, |hosts|, poll);
    LivesGrow(s, a.s, poll.node);
    AddTwinsGrow(s, a, |a.twins|, poll);
  }

  lemma GrownLinks(s: State, s': State)
    requires LinkOwned(s) && OwnersGrow(s, s') && JobsGrow(s, s') && IdsOk(s) && IdsOk(s')
    requires forall t | t in s'.audits && t !in s.audits :: t in s'.owner
    ensures LinkOwned(s')
  {
  }

  lemma GrownBodies(s: State, s': State, given: map<nat, Given>, node: nat)
    requires LinkOwned(s) && BodiesGiven(s, given) && OwnersGrow(s, s') && JobsGrow(s, s') && AuditsGrow(s, s', node)
    ensures BodiesGiven(s', given)
  {
    hide Holder;
  }

  lemma GrowsTrailed(s: State, s': State, r: Trail, node: nat)
    requires Trailed(s, r) && Grows(s, s', node) && IdsOk(s) && IdsOk(s') && Apart(s')
    ensures Trailed(s', Trail(r.given, Noted(r.holders, s')))
  {
    assert forall t | t in s'.audits && t !in s.audits :: t in s'.owner;
    hide LinkOwned, BodiesGiven, LeasesNoted, OwnersGrow, JobsGrow, AuditsGrow, IdsOk, Apart, Holder, Noted;
    GrownLinks(s, s');
    GrownBodies(s, s', r.given, node);
    GrownLeases(s, s', r, node);
  }

  lemma AuditApart(s: State, t: nat)
    requires LinkOwned(s) && Apart(s) && t in s.audits
    ensures s.audits[t].primaryNode !in Holder(s, t)
  {
  }

  lemma AuditHeld(s: State, s': State, r: Trail, node: nat, t: nat)
    requires LinkOwned(s) && LeasesNoted(s, r) && OwnersGrow(s, s') && AuditsGrow(s, s', node) && t in s'.audits
    ensures t in s'.owner && s'.audits[t].primaryNode in Holders(r.holders, s'.owner[t]) + Holder(s', s'.owner[t])
    ensures s'.audits[t].primaryNode !in Holders(r.holders, t)
  {
    assert t in s.audits ==> t in s.owner;
    assert t !in s.audits ==> Holders(r.holders, t) == {};
    hide Holders, Holder;
  }

  ghost predicate AuditsNoted(s: State, holders: map<nat, set<nat>>) {
    forall t | t in s.audits && t in s.owner ::
      s.audits[t].primaryNode !in Holders(holders, t) && s.audits[t].primaryNode in Holders(holders, s.owner[t])
  }

  lemma GrownAudits(s: State, s': State, r: Trail, node: nat)
    requires LinkOwned(s) && LinkOwned(s') && LeasesNoted(s, r) && Grows(s, s', node) && Apart(s')
    ensures AuditsNoted(s', Noted(r.holders, s'))
  {
    hide LinkOwned, LeasesNoted, OwnersGrow, JobsGrow, AuditsGrow, Apart, Holder, Holders, Noted;
    NotedHolders(r.holders, s');
    forall t | t in s'.audits && t in s'.owner
      ensures s'.audits[t].primaryNode !in Holders(Noted(r.holders, s'), t)
      ensures s'.audits[t].primaryNode in Holders(Noted(r.holders, s'), s'.owner[t])
    {
      AuditApart(s', t);
      AuditHeld(s, s', r, node, t);
    }
  }

  lemma NotedAudits(s: State, s': State, r: Trail)
    requires LeasesNoted(s, r) && IdsOk(s') && s'.nextId >= s.nextId && AuditsNoted(s', Noted(r.holders, s'))
    ensures LeasesNoted(s', Trail(r.given, Noted(r.holders, s')))
  {
    NotedHolders(r.holders, s');
    hide Holder, Holders, Noted;
  }

  lemma GrownLeases(s: State, s': State, r: Trail, node: nat)
    requires LinkOwned(s) && LinkOwned(s') && LeasesNoted(s, r) && Grows(s, s', node) && IdsOk(s') && Apart(s')
    ensures LeasesNoted(s', Trail(r.given, Noted(r.holders, s')))
  {
    hide LinkOwned, LeasesNoted, JobsGrow, AuditsGrow, IdsOk, Apart, AuditsNoted, Noted;
    GrownAudits(s, s', r, node);
    NotedAudits(s, s', r);
  }

  // ---- in every run ----

  lemma TrailStep(s: State, r: Trail, step: Step)
    requires Safe(s) && Trailed(s, r) && Enabled(s, step)
    ensures Trailed(Next(s, step), Trail(NextGiven(r.given, s, step), Noted(r.holders, Next(s, step))))
  {
    hide SafeBut, Trailed, Fetch, Dispatch, Sweep, Shutdown, Less, NoLease, Grows, Noted, Abandon, Release, Complete;
    SafeStep(s, step);
    SafeApart(s);
    SafeApart(Next(s, step));
    match step
    case DoFetch(req, now) =>
      FetchLess(s, req, now);
      LessTrailed(s, Fetch(s, req, now), r);
    case DoTake(hosts, poll) =>
      TrailLinks(s, r);
      DispatchGrows(s, hosts, poll);
      GrowsTrailed(s, Dispatch(s, hosts, poll), r, poll.node);
    case DoReport(node, id, outcome) =>
      if outcome.Answer? && Accepted(s, node, id) {
        AnswerTrailed(s, r, node, id, outcome.body);
      } else {
        BadReportLess(s, node, id, outcome);
        LessTrailed(s, Report(s, node, id, outcome), r);
      }
    case DoSweep(now, expired) =>
      SweepLess(s, now, expired);
      LessTrailed(s, Sweep(s, now, expired), r);
    case DoShutdown =>
      ShutdownLess(s);
      LessTrailed(s, Shutdown(s), r);
  }

  lemma SafeApart(s: State)
    requires Safe(s)
    ensures IdsOk(s) && Apart(s)
  {
  }

  lemma TrailLinks(s: State, r: Trail)
    requires Trailed(s, r)
    ensures LinkOwned(s)
  {
  }

  lemma FreshTrailed()
    ensures Trailed(Empty(), Trail(map[], map[]))
  {
  }

  /** In every run, whatever is reported and in whatever order: each body in an open audit is the recorded answer of its
      job, and the recorded primary node never held the twin. */
  lemma {:induction false} RunsAreTrailed(steps: seq<Step>, n: nat)
    requires n <= |steps|
    ensures Trailed(Run(steps, n), RunTrail(steps, n))
  {
    hide Trailed, Next, Enabled, Noted, Safe;
    if n == 0 {
      FreshTrailed();
    } else {
      RunsAreTrailed(steps, n - 1);
      RunsAreSafe(steps, n - 1);
      if Enabled(Run(steps, n - 1), steps[n - 1]) {
        TrailStep(Run(steps, n - 1), RunTrail(steps, n - 1), steps[n - 1]);
      }
    }
  }

  // ---- the report that closes an audit ----

  /** The second body of audit `t` comes with this answer. */
  predicate Closes(s: State, node: nat, id: nat, t: nat) {
    && Accepted(s, node, id) && t in s.audits
    && if s.jobs[id].isTwin then t == id && s.audits[t].primary.Some?
       else s.jobs[id].twin == Some(t) && s.audits[t].twin.Some?
  }

  /** An answer takes an audit away exactly when it brings the second body. */
  lemma ClosesIff(s: State, node: nat, id: nat, body: AuditBody, t: nat)
    requires t in s.audits
    ensures t !in Report(s, node, id, Answer(body)).audits <==> Closes(s, node, id, t)
  {
    hide Remove, Told;
    if Accepted(s, node, id) {
      RemoveTables(s, id, Body(body));
    }
  }

  /** The job whose body the audit already has when `id` brings the other. */
  function First(s: State, id: nat, t: nat): nat
    requires t in s.owner
  {
    if id == t then s.owner[t] else t
  }

  /** At the end of an audit its two bodies come from two nodes if and only if the node that reports the second is not
      the one that supplied the first. The node judged as the twin's is the one that supplied its body. */
  lemma TwoNodesIff(steps: seq<Step>, n: nat, node: nat, id: nat, body: AuditBody, t: nat)
    requires n < |steps| && steps[n] == DoReport(node, id, Answer(body)) && Closes(Run(steps, n), node, id, t)
    ensures var s, given, given' := Run(steps, n), RunTrail(steps, n).given, RunTrail(steps, n + 1).given;
            && t in s.owner && s.owner[t] in given' && t in given' && First(s, id, t) in given
            && (given'[s.owner[t]].node != given'[t].node <==> node != given[First(s, id, t)].node)
            && (if id == t then body == given'[t].body && s.audits[t].primary == Some(given'[s.owner[t]].body)
                else body == given'[s.owner[t]].body && s.audits[t].twin == Some(given'[t].body)
                     && s.audits[t].twinNode == Some(given'[t].node))
  {
    hide Next, Noted;
    RunsAreTrailed(steps, n);
    hide Run, LeasesNoted;
  }

  /** A twin answered under its lease, and a primary answered by the node the audit records, are two nodes. */
  lemma LeasedTwinDiffers(steps: seq<Step>, n: nat, node: nat, id: nat, body: AuditBody, t: nat)
    requires n < |steps| && steps[n] == DoReport(node, id, Answer(body)) && Closes(Run(steps, n), node, id, t)
    ensures var s, given' := Run(steps, n), RunTrail(steps, n + 1).given;
            && t in s.owner && s.owner[t] in given' && t in given'
            && (given'[t].held ==> given'[t].node != s.audits[t].primaryNode)
            && (given'[t].held && given'[s.owner[t]].node == s.audits[t].primaryNode ==>
                  given'[s.owner[t]].node != given'[t].node)
  {
    TwoNodesIff(steps, n, node, id, body, t);
    hide Next, Noted;
    RunsAreTrailed(steps, n);
    hide Run;
  }

  /** In particular when both answered under lease and nobody but the recorded node ever held the primary. */
  lemma NeverReleasedDiffers(steps: seq<Step>, n: nat, node: nat, id: nat, body: AuditBody, t: nat)
    requires n < |steps| && steps[n] == DoReport(node, id, Answer(body)) && Closes(Run(steps, n), node, id, t)
    ensures var s, r, given' := Run(steps, n), RunTrail(steps, n), RunTrail(steps, n + 1).given;
            && t in s.owner && s.owner[t] in given' && t in given'
            && s.audits[t].primaryNode in Holders(r.holders, s.owner[t])
            && (Holders(r.holders, s.owner[t]) == {s.audits[t].primaryNode} && given'[t].held && given'[s.owner[t]].held
                ==>
                  given'[s.owner[t]].node == s.audits[t].primaryNode && given'[s.owner[t]].node != given'[t].node)
  {
    LeasedTwinDiffers(steps, n, node, id, body, t);
    hide Next, Noted;
    RunsAreTrailed(steps, n);
    hide Run;
  }
}
