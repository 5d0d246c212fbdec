/**
 Runs of the broker in which the code does less than it is written for: an audit
 of two bodies from one node, and a job queued twice.
 */
module BrokerWitness {
  import opened Results
  import opened BrokerSpec
  import opened BrokerProof
  import opened BrokerAudit

  // ---- a run where both bodies come from one node ----

  /** Node 1 takes a fetch and its lease runs out; node 2 takes it and its twin, and answers both. */
  function Relet(host: Host, req: Request): seq<Step> {
    [DoFetch(req, 0),
     DoTake([host], Poll(1, map[], true, {0}, 0)),
     DoSweep(LEASE_MS, [1]),
     DoTake([host], Poll(2, map[], false, {}, LEASE_MS)),
     DoReport(2, 1, Answer(NotFound)),
     DoReport(2, 2, Answer(NotFound))]
  }

  function Primary(req: Request, lease: Option<Lease>, attempts: nat, twin: Option<nat>): Job {
    Job(req, true, lease, attempts, None, twin, false, 0)
  }

  function Twin(req: Request, lease: Option<Lease>): Job {
    Job(req, false, lease, 0, Some(1), Some(1), true, 0)
  }

  /** A state of the run: its jobs, the one queue, and its audits. */
  ghost predicate At(s: State, next: nat, jobs: map<nat, Job>, host: Host, q: seq<Entry>, audits: map<nat, AuditPair>) {
    && s.nextId == next && s.jobs == jobs && s.queues == map[host := q] && s.audits == audits
    && s.owner == (if next == 2 then map[] else map[2 := 1])
  }

  lemma Fetched(req: Request)
    ensures At(Fetch(Empty(), req, 0), 2, map[1 := Primary(req, None, 0, None)], req.host, [Entry(1, None)], map[])
  {
    assert [] + [Entry(1, None)] == [Entry(1, None)];
  }

  lemma PickOne(q: seq<Entry>, node: nat)
    requires |q| == 1 && q[0].exclude.None?
    ensures Pick(q, 1, node, TARGET_INFLIGHT_PER_HOST) == Picked([q[0].id], [])
  {
    assert Pick(q, 0, node, TARGET_INFLIGHT_PER_HOST) == Picked([], []);
  }

  lemma PickTwo(q: seq<Entry>, node: nat)
    requires |q| == 2 && q[0].exclude != Some(node) && q[1].exclude != Some(node)
    ensures Pick(q, 2, node, TARGET_INFLIGHT_PER_HOST) == Picked([q[0].id, q[1].id], [])
  {
    assert Pick(q, 0, node, TARGET_INFLIGHT_PER_HOST) == Picked([], []);
    assert Pick(q, 1, node, TARGET_INFLIGHT_PER_HOST) == Picked([q[0].id], []);
  }

  lemma OneHost(s: State, host: Host, poll: Poll)
    ensures TakeHosts(s, [host], 1, poll) == TakeHost(Take(s, [], []), host, poll)
  {
    assert TakeHosts(s, [host], 0, poll) == Take(s, [], []);
  }

  function Lease1(): Option<Lease> { Some(Lease(1, LEASE_MS)) }

  function Lease2(): Option<Lease> { Some(Lease(2, LEASE_MS + LEASE_MS)) }

  function Pair(req: Request, primary: Option<AuditBody>): AuditPair {
    AuditPair(req, 1, None, primary, None)
  }

  lemma TakenOnce(s: State, req: Request)
    requires At(s, 2, map[1 := Primary(req, None, 0, None)], req.host, [Entry(1, None)], map[])
    ensures var a := TakeHosts(s, [req.host], 1, Poll(1, map[], true, {0}, 0));
            At(a.s, 2, map[1 := Primary(req, Lease1(), 0, None)], req.host, [], map[]) && a.twins == [Handout(1, req)]
  {
    var poll := Poll(1, map[], true, {0}, 0);
    OneHost(s, req.host, poll);
    PickOne([Entry(1, None)], 1);
    var a := Take(s.(queues := s.queues[req.host := []]), [], []);
    assert LeaseAll(a, [1], 0, poll) == a;
    assert LeaseAll(a, [1], 1, poll) == LeaseOne(a, 1, poll);
  }

  lemma TwinMade(s: State, req: Request)
    requires At(s, 2, map[1 := Primary(req, Lease1(), 0, None)], req.host, [], map[])
    ensures At(AddTwin(s, Handout(1, req), Poll(1, map[], true, {0}, 0)), 3,
               map[1 := Primary(req, Lease1(), 0, Some(2)), 2 := Twin(req, None)], req.host, [Entry(2, Some(1))],
               map[2 := Pair(req, None)])
  {
    assert [] + [Entry(2, Some(1))] == [Entry(2, Some(1))];
  }

  lemma Dispatched(s: State, req: Request)
    requires At(s, 2, map[1 := Primary(req, None, 0, None)], req.host, [Entry(1, None)], map[])
    ensures At(Dispatch(s, [req.host], Poll(1, map[], true, {0}, 0)), 3,
               map[1 := Primary(req, Lease1(), 0, Some(2)), 2 := Twin(req, None)], req.host, [Entry(2, Some(1))],
               map[2 := Pair(req, None)])
  {
    hide TakeHosts, AddTwin, At;
    var poll := Poll(1, map[], true, {0}, 0);
    TakenOnce(s, req);
    var a := TakeHosts(s, [req.host], 1, poll);
    TwinMade(a.s, req);
    assert AddTwins(a.s, a.twins, 0, poll) == a.s;
  }

  lemma Lapsed(s: State, req: Request)
    requires At(s, 3, map[1 := Primary(req, Lease1(), 0, Some(2)), 2 := Twin(req, None)], req.host, [Entry(2, Some(1))],
                map[2 := Pair(req, None)])
    ensures At(Release(s, 1, true), 3, map[1 := Primary(req, None, 1, Some(2)), 2 := Twin(req, None)], req.host,
               [Entry(2, Some(1)), Entry(1, None)], map[2 := Pair(req, None)])
  {
    hide Abandon;
    assert [Entry(2, Some(1))] + [Entry(1, None)] == [Entry(2, Some(1)), Entry(1, None)];
  }

  lemma NothingStale(s: State, req: Request)
    requires At(s, 3, map[1 := Primary(req, None, 1, Some(2)), 2 := Twin(req, None)], req.host,
               [Entry(2, Some(1)), Entry(1, None)], map[2 := Pair(req, None)])
    ensures DropTwins(s, StaleTwins(s, LEASE_MS)) == s
  {
    assert StaleTwins(s, LEASE_MS) == {};
    assert s.jobs - {} == s.jobs && s.audits - {} == s.audits;
  }

  lemma Swept(s: State, req: Request)
    requires At(s, 3, map[1 := Primary(req, Lease1(), 0, Some(2)), 2 := Twin(req, None)], req.host, [Entry(2, Some(1))],
                map[2 := Pair(req, None)])
    ensures Lists([1], Expired(s, LEASE_MS))
    ensures At(Sweep(s, LEASE_MS, [1]), 3, map[1 := Primary(req, None, 1, Some(2)), 2 := Twin(req, None)], req.host,
               [Entry(2, Some(1)), Entry(1, None)], map[2 := Pair(req, None)])
  {
    hide Release, DropTwins, StaleTwins;
    assert ReleaseAll(s, [1], 0) == s;
    assert ReleaseAll(s, [1], 1) == Release(s, 1, true);
    Lapsed(s, req);
    NothingStale(Release(s, 1, true), req);
  }

  lemma Released(s: State, req: Request)
    requires At(s, 3, map[1 := Primary(req, None, 1, Some(2)), 2 := Twin(req, None)], req.host,
                [Entry(2, Some(1)), Entry(1, None)], map[2 := Pair(req, None)])
    ensures At(Dispatch(s, [req.host], Poll(2, map[], false, {}, LEASE_MS)), 3,
               map[1 := Primary(req, Lease2(), 1, Some(2)), 2 := Twin(req, Lease2())], req.host, [],
               map[2 := Pair(req, None)])
  {
    var poll := Poll(2, map[], false, {}, LEASE_MS);
    OneHost(s, req.host, poll);
    PickTwo([Entry(2, Some(1)), Entry(1, None)], 2);
    var a := Take(s.(queues := s.queues[req.host := []]), [], []);
    assert LeaseAll(a, [2, 1], 0, poll) == a;
    assert LeaseAll(a, [2, 1], 1, poll) == LeaseOne(a, 2, poll);
    var b := LeaseAll(a, [2, 1], 2, poll);
    assert b == LeaseOne(LeaseOne(a, 2, poll), 1, poll);
    assert AddTwins(b.s, [], 0, poll) == b.s;
  }

  lemma AnsweredFirst(s: State, req: Request)
    requires At(s, 3, map[1 := Primary(req, Lease2(), 1, Some(2)), 2 := Twin(req, Lease2())], req.host, [],
                map[2 := Pair(req, None)])
    ensures Accepted(s, 2, 1)
    ensures At(Report(s, 2, 1, Answer(NotFound)), 3, map[2 := Twin(req, Lease2())], req.host, [],
               map[2 := Pair(req, Some(NotFound))])
  {
    assert s.jobs - {1} == map[2 := Twin(req, Lease2())];
  }

  lemma ReletStart(host: Host, req: Request)
    requires req.host == host
    ensures var steps := Relet(host, req);
            && (forall i | 0 <= i < 3 :: Enabled(Run(steps, i), steps[i]))
            && At(Run(steps, 3), 3, map[1 := Primary(req, None, 1, Some(2)), 2 := Twin(req, None)], host,
                  [Entry(2, Some(1)), Entry(1, None)], map[2 := Pair(req, None)])
  {
    hide Fetch, Dispatch, Sweep, Report;
    var steps := Relet(host, req);
    Fetched(req);
    assert Run(steps, 0) == Empty();
    assert Run(steps, 1) == Fetch(Empty(), req, 0);
    Dispatched(Run(steps, 1), req);
    assert Run(steps, 2) == Dispatch(Run(steps, 1), [host], Poll(1, map[], true, {0}, 0));
    Swept(Run(steps, 2), req);
    assert Run(steps, 3) == Sweep(Run(steps, 2), LEASE_MS, [1]);
  }

  lemma ReletEnd(host: Host, req: Request)
    requires req.host == host
    ensures var steps := Relet(host, req);
            && (forall i | 3 <= i < 6 :: Enabled(Run(steps, i), steps[i]))
            && Accepted(Run(steps, 4), 2, 1) && 1 in Run(steps, 4).jobs && Run(steps, 4).jobs[1].lease.Some?
            && At(Run(steps, 5), 3, map[2 := Twin(req, Lease2())], host, [], map[2 := Pair(req, Some(NotFound))])
  {
    hide Fetch, Dispatch, Sweep, Report;
    var steps := Relet(host, req);
    ReletStart(host, req);
    Released(Run(steps, 3), req);
    assert Run(steps, 4) == Dispatch(Run(steps, 3), [host], Poll(2, map[], false, {}, LEASE_MS));
    AnsweredFirst(Run(steps, 4), req);
    assert Run(steps, 5) == Report(Run(steps, 4), 2, 1, Answer(NotFound));
  }

  /** The run closes its audit with two bodies from node 2, though the audit records node 1 for the primary. */
  lemma BothFromOneNode(host: Host)
    ensures var req := Request(host, "match", "1");
            var steps := Relet(host, req);
            var s, given := Run(steps, 5), RunTrail(steps, 6).given;
            && (forall i | 0 <= i < 6 :: Enabled(Run(steps, i), steps[i]))
            && Closes(s, 2, 2, 2) && 2 in s.owner && s.owner[2] == 1 && s.audits[2].primaryNode == 1
            && 1 in given && given[1] == Given(2, NotFound, true) && 2 in given && given[2] == Given(2, NotFound, true)
  {
    var req := Request(host, "match", "1");
    var steps := Relet(host, req);
    ReletStart(host, req);
    ReletEnd(host, req);
    hide Run, Enabled, Noted;
    assert steps[4] == DoReport(2, 1, Answer(NotFound)) && steps[5] == DoReport(2, 2, Answer(NotFound));
    assert 1 in RunTrail(steps, 5).given && RunTrail(steps, 5).given[1] == Given(2, NotFound, true);
  }

  // ---- a run that queues a job twice ----

  /** Node 1 takes a fetch and reports its failure twice. */
  function FailedTwice(host: Host, req: Request): seq<Step> {
    [DoFetch(req, 0), DoTake([host], Poll(1, map[], false, {}, 0)), DoReport(1, 1, Failed), DoReport(1, 1, Failed)]
  }

  lemma TakenPlain(s: State, req: Request)
    requires At(s, 2, map[1 := Primary(req, None, 0, None)], req.host, [Entry(1, None)], map[])
    ensures At(Dispatch(s, [req.host], Poll(1, map[], false, {}, 0)), 2, map[1 := Primary(req, Lease1(), 0, None)],
               req.host, [],
               map[])
  {
    var poll := Poll(1, map[], false, {}, 0);
    OneHost(s, req.host, poll);
    PickOne([Entry(1, None)], 1);
    var a := Take(s.(queues := s.queues[req.host := []]), [], []);
    assert LeaseAll(a, [1], 0, poll) == a;
    var b := LeaseAll(a, [1], 1, poll);
    assert b == LeaseOne(a, 1, poll);
    assert AddTwins(b.s, [], 0, poll) == b.s;
  }

  lemma FailedOnce(s: State, req: Request, lease: Option<Lease>, attempts: nat, q: seq<Entry>)
    requires At(s, 2, map[1 := Primary(req, lease, attempts, None)], req.host, q, map[]) && attempts + 1 < MAX_ATTEMPTS
    requires lease.Some? ==> lease.value.node == 1
    ensures At(Report(s, 1, 1, Failed), 2, map[1 := Primary(req, None, attempts + 1, None)], req.host,
               q + [Entry(1, None)], map[])
  {
    hide Abandon;
  }

  lemma TwoEntries(host: Host)
    ensures Entries(map[host := [Entry(1, None), Entry(1, None)]], host, 1) == 2
  {
    var q := [Entry(1, None), Entry(1, None)];
    assert Count(q, 1, 1) == 1;
  }

  /** The second report comes when nobody holds the job: it is queued twice. */
  lemma FailedTwiceQueuesTwice(host: Host)
    ensures var steps := FailedTwice(host, Request(host, "match", "1"));
            var s := Run(steps, 4);
            && (forall i | 0 <= i < 4 :: Enabled(Run(steps, i), steps[i]))
            && 1 in s.jobs && s.jobs[1].lease.None? && Entries(s.queues, host, 1) == 2
  {
    hide Fetch, Dispatch, Report, Entries;
    var req := Request(host, "match", "1");
    var steps := FailedTwice(host, req);
    Fetched(req);
    assert Run(steps, 0) == Empty();
    assert Run(steps, 1) == Fetch(Empty(), req, 0);
    TakenPlain(Run(steps, 1), req);
    assert Run(steps, 2) == Dispatch(Run(steps, 1), [host], Poll(1, map[], false, {}, 0));
    FailedOnce(Run(steps, 2), req, Lease1(), 0, []);
    assert Run(steps, 3) == Report(Run(steps, 2), 1, 1, Failed);
    FailedOnce(Run(steps, 3), req, None, 1, [] + [Entry(1, None)]);
    assert Run(steps, 4) == Report(Run(steps, 3), 1, 1, Failed);
    assert [] + [Entry(1, None)] + [Entry(1, None)] == [Entry(1, None), Entry(1, None)];
    TwoEntries(host);
  }
}
