/**
 The fetch broker as functions over its state: jobs, per-host queues and audit
 pairs, with a trail of what every fetch was told and how often every job failed.
 */
module BrokerSpec {
  import opened Results

  const TARGET_INFLIGHT_PER_HOST: nat := 8
  const MAX_ATTEMPTS: nat := 6
  const TWIN_TTL: nat := 600_000
  const LEASE_MS: nat := 150_000

  datatype Host = Host(name: string)
  datatype Request = Request(host: Host, verb: string, path: string)
  datatype Lease = Lease(node: nat, until: nat)

  /** `responder` is the waiting fetch; audit twins have none. */
  datatype Job = Job(
    req: Request, responder: bool, lease: Option<Lease>, attempts: nat, exclude: Option<nat>,
    twin: Option<nat>, isTwin: bool, created: nat)

  datatype Entry = Entry(id: nat, exclude: Option<nat>)
  datatype AuditBody = Found(text: string) | NotFound
  datatype AuditPair = AuditPair(
    req: Request, primaryNode: nat, twinNode: Option<nat>, primary: Option<AuditBody>, twin: Option<AuditBody>)

  /** What a waiting fetch is told. */
  datatype Reply = Body(body: AuditBody) | Abandoned | ShutDown

  datatype Outcome = Answer(body: AuditBody) | KeyRejected | Failed

  type Queues = map<Host, seq<Entry>>

  /** The broker, and the trail: replies sent to each accepted fetch, failures counted against each job, and the
      primary each twin was made for. */
  datatype State = State(
    nextId: nat, jobs: map<nat, Job>, queues: Queues, audits: map<nat, AuditPair>, down: bool,
    replies: map<nat, seq<Reply>>, failures: map<nat, nat>, owner: map<nat, nat>)

  function Empty(): State { State(1, map[], map[], map[], false, map[], map[], map[]) }

  function Queue(queues: Queues, host: Host): seq<Entry> {
    if host in queues then queues[host] else []
  }

  function Push(s: State, host: Host, e: Entry): State {
    s.(queues := s.queues[host := Queue(s.queues, host) + [e]])
  }

  function Told(replies: map<nat, seq<Reply>>, id: nat, reply: Reply): map<nat, seq<Reply>> {
    replies[id := (if id in replies then replies[id] else []) + [reply]]
  }

  // ---- fetch ----

  function NewJob(s: State, job: Job): State {
    s.(nextId := s.nextId + 1, jobs := s.jobs[s.nextId := job], failures := s.failures[s.nextId := 0],
       replies := if job.responder then s.replies[s.nextId := []] else s.replies)
  }

  function Fetch(s: State, req: Request, now: nat): State {
    Push(NewJob(s, Job(req, true, None, 0, None, None, false, now)), req.host, Entry(s.nextId, None))
  }

  // ---- giving up and putting back ----

  /** Takes a job out, telling its fetch. */
  function Remove(s: State, id: nat, reply: Reply): State
    requires id in s.jobs
  {
    s.(jobs := s.jobs - {id}, replies := if s.jobs[id].responder then Told(s.replies, id, reply) else s.replies)
  }

  /** Removes a job for good, and the audit it was part of. */
  function Abandon(s: State, id: nat): State {
    if id !in s.jobs then s
    else
      var job := s.jobs[id];
      var s1 := Remove(s, id, Abandoned);
      if job.isTwin then s1.(audits := s1.audits - {id})
      else if job.twin.Some? then s1.(audits := s1.audits - {job.twin.value}, jobs := s1.jobs - {job.twin.value})
      else s1
  }

  function Requeue(s: State, id: nat): State
    requires id in s.jobs
  {
    Push(s, s.jobs[id].req.host, Entry(id, s.jobs[id].exclude))
  }

  /** One more failure counted against a job. */
  function CountFailure(s: State, id: nat): State
    requires id in s.jobs
  {
    s.(jobs := s.jobs[id := s.jobs[id].(attempts := s.jobs[id].attempts + 1)],
       failures := s.failures[id := (if id in s.failures then s.failures[id] else 0) + 1])
  }

  function Unlease(s: State, id: nat): State
    requires id in s.jobs
  {
    s.(jobs := s.jobs[id := s.jobs[id].(lease := None)])
  }

  /** Puts a job back on its host's queue; `counted` for an expired lease. */
  function Release(s: State, id: nat, counted: bool): State {
    if id !in s.jobs then s
    else if !counted then Requeue(Unlease(s, id), id)
    else
      var s1 := CountFailure(Unlease(s, id), id);
      if s1.jobs[id].attempts >= MAX_ATTEMPTS then Abandon(s1, id) else Requeue(s1, id)
  }

  // ---- reports ----

  /** An audit with both bodies is judged and closed. */
  function FinishAudit(s: State, twin: nat): State {
    if twin in s.audits && s.audits[twin].primary.Some? && s.audits[twin].twin.Some? then
      s.(audits := s.audits - {twin})
    else s
  }

  function Complete(s: State, node: nat, id: nat, body: AuditBody): State
    requires id in s.jobs
  {
    var job := s.jobs[id];
    var s1 := Remove(s, id, Body(body));
    if job.isTwin then
      FinishAudit(if id !in s1.audits then s1
                  else s1.(audits := s1.audits[id := s1.audits[id].(twinNode := Some(node), twin := Some(body))]), id)
    else if job.twin.Some? then
      var t := job.twin.value;
      FinishAudit(if t !in s1.audits then s1
                  else s1.(audits := s1.audits[t := s1.audits[t].(primary := Some(body))]), t)
    else s1
  }

  /** A report counts from the node that holds the lease, or when nobody does. */
  predicate Accepted(s: State, node: nat, id: nat) {
    id in s.jobs && (s.jobs[id].lease.Some? ==> s.jobs[id].lease.value.node == node)
  }

  function Report(s: State, node: nat, id: nat, outcome: Outcome): State {
    if !Accepted(s, node, id) then s
    else match outcome
      case Answer(body) => Complete(s, node, id, body)
      case KeyRejected => Release(s, id, false)
      case Failed =>
        var s1 := CountFailure(s, id);
        if s1.jobs[id].attempts >= MAX_ATTEMPTS then Abandon(s1, id) else Release(s1, id, false)
  }

  // ---- dispatch ----

  datatype Picked = Picked(ids: seq<nat>, rest: seq<Entry>)

  /** From the first `n` entries of a queue, the first `cap` not excluded from this node; the others stay in order. */
  function Pick(q: seq<Entry>, n: nat, node: nat, cap: nat): (r: Picked)
    requires n <= |q|
    ensures |r.ids| <= cap && |r.ids| + |r.rest| == n
  {
    if n == 0 then Picked([], [])
    else
      var r := Pick(q, n - 1, node, cap);
      if |r.ids| < cap && q[n - 1].exclude != Some(node) then Picked(r.ids + [q[n - 1].id], r.rest)
      else Picked(r.ids, r.rest + [q[n - 1]])
  }

  datatype Handout = Handout(id: nat, req: Request)

  /** A dispatch in progress: what the node is handed, and which of it is to be audited. */
  datatype Take = Take(s: State, out: seq<Handout>, twins: seq<Handout>)

  /** What the dispatch is given: the node, how much it holds, whether another node could audit, the dice, the time. */
  datatype Poll = Poll(node: nat, pending: map<Host, nat>, auditPossible: bool, dice: set<nat>, now: nat) {
    function Cap(host: Host): nat {
      var held := if host in pending then pending[host] else 0;
      if held >= TARGET_INFLIGHT_PER_HOST then 0 else TARGET_INFLIGHT_PER_HOST - held
    }
  }

  /** Leases one picked job; an entry that outlived its job is skipped. */
  function LeaseOne(a: Take, id: nat, poll: Poll): Take {
    if id !in a.s.jobs then a
    else
      var job := a.s.jobs[id];
      var h := Handout(id, job.req);
      var leased := a.s.jobs[id := job.(lease := Some(Lease(poll.node, poll.now + LEASE_MS)))];
      var audit := !job.isTwin && job.twin.None? && poll.auditPossible && |a.out| in poll.dice;
      Take(a.s.(jobs := leased), a.out + [h], if audit then a.twins + [h] else a.twins)
  }

  function LeaseAll(a: Take, ids: seq<nat>, n: nat, poll: Poll): Take
    requires n <= |ids|
  {
    if n == 0 then a else LeaseOne(LeaseAll(a, ids, n - 1, poll), ids[n - 1], poll)
  }

  function TakeHost(a: Take, host: Host, poll: Poll): Take {
    var q := Queue(a.s.queues, host);
    var p := Pick(q, |q|, poll.node, poll.Cap(host));
    LeaseAll(a.(s := a.s.(queues := a.s.queues[host := p.rest])), p.ids, |p.ids|, poll)
  }

  function TakeHosts(s: State, hosts: seq<Host>, n: nat, poll: Poll): Take
    requires n <= |hosts|
  {
    if n == 0 then Take(s, [], []) else TakeHost(TakeHosts(s, hosts, n - 1, poll), hosts[n - 1], poll)
  }

  function Link(s: State, primary: nat, twin: nat): State {
    if primary in s.jobs then s.(jobs := s.jobs[primary := s.jobs[primary].(twin := Some(twin))]) else s
  }

  function OpenAudit(s: State, twin: nat, h: Handout, node: nat): State {
    s.(owner := s.owner[twin := h.id], audits := s.audits[twin := AuditPair(h.req, node, None, None, None)])
  }

  /** Queues a twin for another node and opens the audit. */
  function AddTwin(s: State, h: Handout, poll: Poll): State {
    var twin := Job(h.req, false, None, 0, Some(poll.node), Some(h.id), true, poll.now);
    Push(OpenAudit(Link(NewJob(s, twin), h.id, s.nextId), s.nextId, h, poll.node),
         h.req.host, Entry(s.nextId, Some(poll.node)))
  }

  function AddTwins(s: State, twins: seq<Handout>, n: nat, poll: Poll): State
    requires n <= |twins|
  {
    if n == 0 then s else AddTwin(AddTwins(s, twins, n - 1, poll), twins[n - 1], poll)
  }

  function Dispatch(s: State, hosts: seq<Host>, poll: Poll): State {
    var a := TakeHosts(s, hosts, |hosts|, poll);
    AddTwins(a.s, a.twins, |a.twins|, poll)
  }

  // ---- maintenance ----

  function Expired(s: State, now: nat): set<nat> {
    set id | id in s.jobs && s.jobs[id].lease.Some? && s.jobs[id].lease.value.until <= now
  }

  function StaleTwins(s: State, now: nat): set<nat> {
    set id | id in s.jobs && s.jobs[id].isTwin && s.jobs[id].lease.None? && now > s.jobs[id].created + TWIN_TTL
  }

  function ReleaseAll(s: State, ids: seq<nat>, n: nat): State
    requires n <= |ids|
  {
    if n == 0 then s else Release(ReleaseAll(s, ids, n - 1), ids[n - 1], true)
  }

  function DropTwins(s: State, ids: set<nat>): State {
    s.(jobs := s.jobs - ids, audits := s.audits - ids)
  }

  /** Re-queues expired leases in the order given, then drops twins nobody took. */
  function Sweep(s: State, now: nat, expired: seq<nat>): State {
    var s1 := ReleaseAll(s, expired, |expired|);
    DropTwins(s1, StaleTwins(s1, now))
  }

  /** Tells every waiting fetch and forgets everything. */
  function Shutdown(s: State): State {
    var told := map id | id in s.replies ::
      if id in s.jobs && s.jobs[id].responder then s.replies[id] + [ShutDown] else s.replies[id];
    s.(jobs := map[], queues := map[], audits := map[], replies := told, down := true)
  }

  // ---- runs ----

  datatype Step =
    | DoFetch(req: Request, now: nat)
    | DoTake(hosts: seq<Host>, poll: Poll)
    | DoReport(node: nat, id: nat, outcome: Outcome)
    | DoSweep(now: nat, expired: seq<nat>)
    | DoShutdown

  ghost predicate Lists<T(!new)>(order: seq<T>, all: set<T>) {
    && (forall i, j | 0 <= i < j < |order| :: order[i] != order[j])
    && (forall x :: x in order <==> x in all)
  }

  /** A dispatch visits every queue once and a sweep every expired lease once, in any order. */
  ghost predicate Enabled(s: State, step: Step) {
    match step
    case DoTake(hosts, _) => Lists(hosts, s.queues.Keys)
    case DoSweep(now, expired) => Lists(expired, Expired(s, now))
    case _ => true
  }

  /** One atomic step. A fetch that passed the shutdown test before a shutdown may still be accepted after it. */
  function Next(s: State, step: Step): State {
    match step
    case DoFetch(req, now) => Fetch(s, req, now)
    case DoTake(hosts, poll) => Dispatch(s, hosts, poll)
    case DoReport(node, id, outcome) => Report(s, node, id, outcome)
    case DoSweep(now, expired) => Sweep(s, now, expired)
    case DoShutdown => Shutdown(s)
  }

  ghost function Run(steps: seq<Step>, n: nat): State
    requires n <= |steps|
  {
    if n == 0 then Empty()
    else
      var s := Run(steps, n - 1);
      if Enabled(s, steps[n - 1]) then Next(s, steps[n - 1]) else s
  }
}
