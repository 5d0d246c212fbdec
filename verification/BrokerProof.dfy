/**
 What holds of the broker in every run, whatever the nodes report and however
 the calls interleave.
 */
module BrokerProof {
  import opened Results
  import opened BrokerSpec

  // ---- counting queue entries ----

  /** Entries for `id` among the first `n`. */
  function Count(q: seq<Entry>, n: nat, id: nat): nat
    requires n <= |q|
  {
    if n == 0 then 0 else Count(q, n - 1, id) + (if q[n - 1].id == id then 1 else 0)
  }

  function Times(ids: seq<nat>, n: nat, id: nat): nat
    requires n <= |ids|
  {
    if n == 0 then 0 else Times(ids, n - 1, id) + (if ids[n - 1] == id then 1 else 0)
  }

  function Entries(queues: Queues, host: Host, id: nat): nat {
    var q := Queue(queues, host);
    Count(q, |q|, id)
  }

  lemma {:induction false} CountPrefix(q: seq<Entry>, e: Entry, n: nat, id: nat)
    requires n <= |q|
    ensures Count(q + [e], n, id) == Count(q, n, id)
  {
    if n > 0 {
      CountPrefix(q, e, n - 1, id);
      assert (q + [e])[n - 1] == q[n - 1];
    }
  }

  lemma {:induction false} TimesPrefix(ids: seq<nat>, x: nat, n: nat, id: nat)
    requires n <= |ids|
    ensures Times(ids + [x], n, id) == Times(ids, n, id)
  {
    if n > 0 {
      TimesPrefix(ids, x, n - 1, id);
      assert (ids + [x])[n - 1] == ids[n - 1];
    }
  }

  lemma CountPush(q: seq<Entry>, e: Entry, id: nat)
    ensures Count(q + [e], |q| + 1, id) == Count(q, |q|, id) + (if e.id == id then 1 else 0)
  {
    CountPrefix(q, e, |q|, id);
  }

  lemma TimesPush(ids: seq<nat>, x: nat, id: nat)
    ensures Times(ids + [x], |ids| + 1, id) == Times(ids, |ids|, id) + (if x == id then 1 else 0)
  {
    TimesPrefix(ids, x, |ids|, id);
  }

  lemma {:induction false} CountIn(q: seq<Entry>, n: nat, id: nat)
    requires n <= |q|
    ensures Count(q, n, id) > 0 <==> exists i :: 0 <= i < n && q[i].id == id
  {
    if n > 0 {
      CountIn(q, n - 1, id);
    }
  }

  lemma {:induction false} TimesIn(ids: seq<nat>, n: nat, id: nat)
    requires n <= |ids|
    ensures Times(ids, n, id) > 0 <==> exists i :: 0 <= i < n && ids[i] == id
  {
    if n > 0 {
      TimesIn(ids, n - 1, id);
    }
  }

  /** Picking splits a queue: every entry is either picked or kept. */
  lemma {:induction false} PickSplits(q: seq<Entry>, n: nat, node: nat, cap: nat, id: nat)
    requires n <= |q|
    ensures var r := Pick(q, n, node, cap);
            Times(r.ids, |r.ids|, id) + Count(r.rest, |r.rest|, id) == Count(q, n, id)
  {
    if n > 0 {
      PickSplits(q, n - 1, node, cap, id);
      var r := Pick(q, n - 1, node, cap);
      TimesPush(r.ids, q[n - 1].id, id);
      CountPush(r.rest, q[n - 1], id);
    }
  }

  /** Some entry for `id` is open to this node. */
  ghost predicate Open(q: seq<Entry>, id: nat, node: nat) {
    exists e :: e in q && e.id == id && e.exclude != Some(node)
  }

  /** What is picked was queued and not excluded; what is kept was queued. */
  lemma {:induction false} PickFrom(q: seq<Entry>, n: nat, node: nat, cap: nat)
    requires n <= |q|
    ensures var r := Pick(q, n, node, cap);
            && (forall id | id in r.ids :: Open(q, id, node))
            && (forall e | e in r.rest :: e in q)
  {
    if n > 0 {
      PickFrom(q, n - 1, node, cap);
      var e := q[n - 1];
      assert e in q;
      assert e.exclude != Some(node) ==> Open(q, e.id, node);
      hide Open;
    }
  }

  // ---- invariants ----

  ghost predicate IdsOk(s: State) {
    && (forall id | id in s.jobs :: id < s.nextId)
    && (forall host, e | host in s.queues && e in s.queues[host] :: e.id < s.nextId)
    && (forall id | id in s.audits :: id < s.nextId)
    && (forall id | id in s.replies :: id < s.nextId)
  }

  /** Every accepted fetch is a live primary that was told nothing, or was told exactly one thing. */
  ghost predicate Answered(s: State) {
    && (forall id | id in s.jobs :: s.jobs[id].responder == !s.jobs[id].isTwin)
    && (forall id | id in s.jobs && !s.jobs[id].isTwin :: id in s.replies && s.replies[id] == [])
    && (forall id | id in s.jobs && s.jobs[id].isTwin :: id !in s.replies)
    && (forall id | id in s.replies && id !in s.jobs :: |s.replies[id]| == 1)
  }

  /** A primary's twin link never leads to another primary. */
  ghost predicate Linked(s: State) {
    forall id | id in s.jobs && !s.jobs[id].isTwin && s.jobs[id].twin.Some? ::
      s.jobs[id].twin.value < s.nextId && (s.jobs[id].twin.value in s.jobs ==> s.jobs[s.jobs[id].twin.value].isTwin)
  }

  /** A twin is never leased to the node recorded as having run its primary. */
  ghost predicate Apart(s: State) {
    forall id | id in s.jobs && s.jobs[id].isTwin ::
      && s.jobs[id].exclude.Some?
      && (s.jobs[id].lease.Some? ==> s.jobs[id].lease.value.node != s.jobs[id].exclude.value)
      && (id in s.audits ==> s.audits[id].primaryNode == s.jobs[id].exclude.value)
  }

  /** A queue entry of a live job is on the job's own host and carries its exclusion. */
  ghost predicate Filed(s: State) {
    forall host, e | host in s.queues && e in s.queues[host] && e.id in s.jobs ::
      s.jobs[e.id].req.host == host && e.exclude == s.jobs[e.id].exclude
  }

  ghost predicate Frame(s: State) {
    IdsOk(s) && Answered(s) && Linked(s) && Apart(s) && Filed(s)
  }

  /** Every failure of a live job is counted. */
  ghost predicate Tallied(s: State) {
    forall id | id in s.jobs :: id in s.failures && s.failures[id] == s.jobs[id].attempts
  }

  /** A live job is short of MAX_ATTEMPTS. */
  ghost predicate Short(s: State, but: set<nat>) {
    forall id | id in s.jobs && id !in but :: s.jobs[id].attempts < MAX_ATTEMPTS
  }

  /** Giving up takes MAX_ATTEMPTS counted failures. */
  ghost predicate Earned(s: State) {
    forall id, r | id in s.replies && r in s.replies[id] ::
      (r.Abandoned? ==> id in s.failures && s.failures[id] >= MAX_ATTEMPTS) && (r.ShutDown? ==> s.down)
  }

  /** Every live unleased job waits in its host's queue. */
  ghost predicate Waiting(s: State, but: set<nat>) {
    forall id | id in s.jobs && id !in but && s.jobs[id].lease.None? :: Entries(s.queues, s.jobs[id].req.host, id) >= 1
  }

  /** All of it, with one job or some jobs between two queues. */
  ghost predicate SafeBut(s: State, failing: set<nat>, moving: set<nat>) {
    Frame(s) && Tallied(s) && Short(s, failing) && Earned(s) && Waiting(s, moving)
  }

  ghost predicate Safe(s: State) {
    SafeBut(s, {}, {})
  }

  // ---- operations that only shrink the tables ----

  predicate SameJob(a: Job, b: Job) {
    a.req == b.req && a.responder == b.responder && a.isTwin == b.isTwin && a.exclude == b.exclude && a.twin == b.twin
  }

  /** Jobs keep what they were made with; jobs, audits and entries may go but none is added. */
  ghost predicate Shrinks(s: State, s': State) {
    && s'.nextId == s.nextId && s'.replies.Keys == s.replies.Keys
    && (forall id | id in s'.jobs :: id in s.jobs && SameJob(s.jobs[id], s'.jobs[id]))
    && (forall id | id in s'.audits :: id in s.audits && s'.audits[id].primaryNode == s.audits[id].primaryNode)
    && (forall host, e | host in s'.queues && e in s'.queues[host] :: host in s.queues && e in s.queues[host])
  }

  ghost predicate NoNewLease(s: State, s': State) {
    forall id | id in s'.jobs && id in s.jobs :: s'.jobs[id].lease.None? || s'.jobs[id].lease == s.jobs[id].lease
  }

  /** Live and long-dead fetches were told nothing new; a fetch whose job went was told its one reply. */
  ghost predicate Replies(s: State, s': State) {
    forall id | id in s.replies ::
      && id in s'.replies
      && (id in s'.jobs || id !in s.jobs ==> s'.replies[id] == s.replies[id])
      && (id in s.jobs && id !in s'.jobs ==> |s'.replies[id]| == 1)
  }

  lemma ShrinkKeepsIds(s: State, s': State)
    requires IdsOk(s) && Shrinks(s, s')
    ensures IdsOk(s')
  {
  }

  lemma ShrinkKeepsLinks(s: State, s': State)
    requires Linked(s) && Shrinks(s, s')
    ensures Linked(s')
  {
  }

  lemma ShrinkKeepsFiled(s: State, s': State)
    requires Filed(s) && Shrinks(s, s')
    ensures Filed(s')
  {
  }

  lemma ShrinkKeepsApart(s: State, s': State)
    requires Apart(s) && Shrinks(s, s') && NoNewLease(s, s')
    ensures Apart(s')
  {
  }

  lemma ShrinkKeepsAnswers(s: State, s': State)
    requires Answered(s) && Shrinks(s, s') && Replies(s, s')
    ensures Answered(s')
  {
  }

  lemma ShrinkKeeps(s: State, s': State)
    requires Frame(s) && Shrinks(s, s') && NoNewLease(s, s') && Replies(s, s')
    ensures Frame(s')
  {
    hide IdsOk, Answered, Linked, Apart, Filed, Shrinks, NoNewLease, Replies;
    ShrinkKeepsIds(s, s');
    ShrinkKeepsLinks(s, s');
    ShrinkKeepsFiled(s, s');
    ShrinkKeepsApart(s, s');
    ShrinkKeepsAnswers(s, s');
  }

  lemma RemoveTables(s: State, id: nat, reply: Reply)
    requires id in s.jobs
    ensures var s' := Remove(s, id, reply);
            && s'.audits == s.audits && s'.jobs == s.jobs - {id} && s'.queues == s.queues && s'.nextId == s.nextId
            && s'.owner == s.owner && s'.failures == s.failures && s'.down == s.down
            && s'.replies == if s.jobs[id].responder then Told(s.replies, id, reply) else s.replies
  {
  }

  lemma RemoveReplies(s: State, id: nat, reply: Reply)
    requires Answered(s) && id in s.jobs
    ensures var s' := Remove(s, id, reply); Replies(s, s') && s'.replies.Keys == s.replies.Keys
  {
    RemoveTables(s, id, reply);
    hide Remove;
  }

  lemma RemoveShrinks(s: State, id: nat, reply: Reply)
    requires Answered(s) && id in s.jobs
    ensures var s' := Remove(s, id, reply); Shrinks(s, s') && NoNewLease(s, s') && Replies(s, s')
  {
    RemoveTables(s, id, reply);
    RemoveReplies(s, id, reply);
    hide Remove, Told, Answered, Replies;
  }

  /** Removing a job keeps everything; only giving up needs its failures counted. */
  lemma RemoveSafe(s: State, id: nat, reply: Reply, moving: set<nat>)
    requires SafeBut(s, {id}, moving) && id in s.jobs
    requires reply.Abandoned? ==> s.jobs[id].attempts >= MAX_ATTEMPTS
    requires !reply.ShutDown?
    ensures SafeBut(Remove(s, id, reply), {}, moving - {id})
  {
    hide IdsOk, Linked, Apart, Filed, Shrinks, NoNewLease, Replies, Entries;
    RemoveShrinks(s, id, reply);
    ShrinkKeeps(s, Remove(s, id, reply));
  }

  /** Dropping twins loses no fetch. */
  lemma DropSafe(s: State, ids: set<nat>, moving: set<nat>)
    requires SafeBut(s, {}, moving) && forall id | id in ids && id in s.jobs :: s.jobs[id].isTwin
    ensures SafeBut(DropTwins(s, ids), {}, moving)
  {
    hide IdsOk, Linked, Apart, Filed, Entries;
    var s' := DropTwins(s, ids);
    assert Shrinks(s, s') && NoNewLease(s, s') && Replies(s, s');
    hide Shrinks, NoNewLease, Replies;
    ShrinkKeeps(s, s');
  }

  /** Any change of audit bodies, or closing an audit. */
  lemma AuditsSafe(s: State, audits: map<nat, AuditPair>)
    requires Safe(s)
    requires forall id | id in audits :: id in s.audits && audits[id].primaryNode == s.audits[id].primaryNode
    ensures Safe(s.(audits := audits))
  {
    hide IdsOk, Linked, Apart, Filed, Entries, Answered;
    var s' := s.(audits := audits);
    assert Shrinks(s, s') && NoNewLease(s, s') && Replies(s, s');
    hide Shrinks, NoNewLease, Replies;
    ShrinkKeeps(s, s');
  }

  lemma AbandonSafe(s: State, id: nat)
    requires SafeBut(s, {id}, {id}) && id in s.jobs && s.jobs[id].attempts >= MAX_ATTEMPTS
    ensures Safe(Abandon(s, id))
  {
    hide SafeBut, Remove;
    RemoveSafe(s, id, Abandoned, {id});
    assert {id} - {id} == {};
    var job := s.jobs[id];
    var s1 := Remove(s, id, Abandoned);
    assert s1.audits == s.audits && s1.jobs == s.jobs - {id} by { RemoveTables(s, id, Abandoned); }
    if job.isTwin {
      DropSafe(s1, {id}, {});
      assert s1.jobs - {id} == s1.jobs;
    } else if job.twin.Some? {
      LinkIsTwin(s, id);
      DropSafe(s1, {job.twin.value}, {});
    }
  }

  lemma LinkIsTwin(s: State, id: nat)
    requires SafeBut(s, {id}, {id}) && id in s.jobs && !s.jobs[id].isTwin && s.jobs[id].twin.Some?
    ensures s.jobs[id].twin.value in s.jobs ==> s.jobs[s.jobs[id].twin.value].isTwin
  {
  }

  lemma WidenSafe(s: State, failing: set<nat>, moving: set<nat>)
    requires Safe(s)
    ensures SafeBut(s, failing, moving)
  {
  }

  lemma CompleteSafe(s: State, node: nat, id: nat, body: AuditBody)
    requires Safe(s) && id in s.jobs
    ensures Safe(Complete(s, node, id, body))
  {
    hide SafeBut, Remove;
    WidenSafe(s, {id}, {id});
    RemoveSafe(s, id, Body(body), {id});
    assert {id} - {id} == {};
    var job := s.jobs[id];
    var s1 := Remove(s, id, Body(body));
    if job.isTwin {
      if id in s1.audits {
        var filled := s1.audits[id := s1.audits[id].(twinNode := Some(node), twin := Some(body))];
        AuditsSafe(s1, filled);
        AuditsSafe(s1, filled - {id});
      } else {
        AuditsSafe(s1, s1.audits - {id});
      }
    } else if job.twin.Some? {
      var t := job.twin.value;
      if t in s1.audits {
        var filled := s1.audits[t := s1.audits[t].(primary := Some(body))];
        AuditsSafe(s1, filled);
        AuditsSafe(s1, filled - {t});
      } else {
        AuditsSafe(s1, s1.audits - {t});
      }
    }
  }

  /** Counting a failure or clearing a lease changes one job and nothing else. */
  lemma OneJobShrinks(s: State, s': State, id: nat, job: Job)
    requires Answered(s) && id in s.jobs && SameJob(s.jobs[id], job)
    requires job.lease.None? || job.lease == s.jobs[id].lease
    requires s' == s.(jobs := s.jobs[id := job], failures := s'.failures)
    ensures Shrinks(s, s') && NoNewLease(s, s') && Replies(s, s')
  {
  }

  lemma UnleaseSafe(s: State, id: nat)
    requires Safe(s) && id in s.jobs
    ensures SafeBut(Unlease(s, id), {}, {id})
  {
    hide IdsOk, Linked, Apart, Filed, Entries, Answered, Shrinks, NoNewLease, Replies;
    var s' := Unlease(s, id);
    OneJobShrinks(s, s', id, s'.jobs[id]);
    ShrinkKeeps(s, s');
  }

  lemma CountFailureSafe(s: State, id: nat, moving: set<nat>)
    requires SafeBut(s, {}, moving) && id in s.jobs
    ensures SafeBut(CountFailure(s, id), {id}, moving)
  {
    hide IdsOk, Linked, Apart, Filed, Entries, Answered, Shrinks, NoNewLease, Replies;
    var s' := CountFailure(s, id);
    OneJobShrinks(s, s', id, s'.jobs[id]);
    ShrinkKeeps(s, s');
  }

  lemma NarrowSafe(s: State, id: nat, moving: set<nat>)
    requires SafeBut(s, {id}, moving) && (id in s.jobs ==> s.jobs[id].attempts < MAX_ATTEMPTS)
    ensures SafeBut(s, {}, moving)
  {
    hide Frame, Entries;
  }

  // ---- queues under pushing ----

  lemma PushEntries(queues: Queues, host: Host, e: Entry, other: Host, id: nat)
    ensures Entries(queues[host := Queue(queues, host) + [e]], other, id)
         == Entries(queues, other, id) + (if other == host && e.id == id then 1 else 0)
  {
    CountPush(Queue(queues, host), e, id);
  }

  lemma PushFrame(s: State, host: Host, e: Entry)
    requires Frame(s) && e.id < s.nextId
    requires e.id in s.jobs ==> s.jobs[e.id].req.host == host && e.exclude == s.jobs[e.id].exclude
    ensures Frame(Push(s, host, e))
  {
    hide Answered, Linked, Apart;
    var s' := Push(s, host, e);
    assert Answered(s') && Linked(s') && Apart(s') by { SameTables(s, s'); }
  }

  lemma SameTables(s: State, s': State)
    requires Frame(s) && s' == s.(queues := s'.queues)
    ensures Answered(s') && Linked(s') && Apart(s')
  {
  }

  lemma PushSafe(s: State, host: Host, e: Entry)
    requires SafeBut(s, {}, {e.id}) && e.id in s.jobs
    requires s.jobs[e.id].req.host == host && e.exclude == s.jobs[e.id].exclude
    ensures Safe(Push(s, host, e))
  {
    hide Entries, Frame;
    var s' := Push(s, host, e);
    assert e.id < s.nextId by { LiveId(s, e.id); }
    PushFrame(s, host, e);
    forall id | id in s'.jobs && s'.jobs[id].lease.None? ensures Entries(s'.queues, s'.jobs[id].req.host, id) >= 1 {
      PushEntries(s.queues, host, e, s.jobs[id].req.host, id);
    }
  }

  lemma LiveId(s: State, id: nat)
    requires Frame(s) && id in s.jobs
    ensures id < s.nextId
  {
  }

  lemma ReleaseSafe(s: State, id: nat, counted: bool)
    requires Safe(s)
    ensures Safe(Release(s, id, counted))
  {
    hide SafeBut, Abandon;
    if id in s.jobs {
      var s1 := Unlease(s, id);
      UnleaseSafe(s, id);
      if !counted {
        PushSafe(s1, s1.jobs[id].req.host, Entry(id, s1.jobs[id].exclude));
      } else {
        var s2 := CountFailure(s1, id);
        CountFailureSafe(s1, id, {id});
        if s2.jobs[id].attempts >= MAX_ATTEMPTS {
          AbandonSafe(s2, id);
        } else {
          NarrowSafe(s2, id, {id});
          PushSafe(s2, s2.jobs[id].req.host, Entry(id, s2.jobs[id].exclude));
        }
      }
    }
  }

  lemma ReportSafe(s: State, node: nat, id: nat, outcome: Outcome)
    requires Safe(s)
    ensures Safe(Report(s, node, id, outcome))
  {
    hide SafeBut, Abandon, Complete, Release;
    if Accepted(s, node, id) {
      match outcome
      case Answer(body) => CompleteSafe(s, node, id, body);
      case KeyRejected => ReleaseSafe(s, id, false);
      case Failed =>
        var s1 := CountFailure(s, id);
        CountFailureSafe(s, id, {});
        if s1.jobs[id].attempts >= MAX_ATTEMPTS {
          WidenMoving(s1, id);
          AbandonSafe(s1, id);
        } else {
          NarrowSafe(s1, id, {});
          ReleaseSafe(s1, id, false);
        }
    }
  }

  lemma WidenMoving(s: State, id: nat)
    requires SafeBut(s, {id}, {})
    ensures SafeBut(s, {id}, {id})
  {
    hide Frame, Entries;
  }

  // ---- new jobs ----

  predicate NewlyMade(job: Job) {
    && job.responder == !job.isTwin && job.lease.None?
    && (job.isTwin ==> job.exclude.Some?) && (!job.isTwin ==> job.twin.None?)
  }

  lemma NewJobAnswered(s: State, job: Job)
    requires IdsOk(s) && Answered(s) && NewlyMade(job)
    ensures Answered(NewJob(s, job))
  {
  }

  lemma NewJobLinked(s: State, job: Job)
    requires IdsOk(s) && Linked(s) && NewlyMade(job)
    ensures Linked(NewJob(s, job))
  {
  }

  lemma NewJobApart(s: State, job: Job)
    requires IdsOk(s) && Apart(s) && NewlyMade(job)
    ensures Apart(NewJob(s, job))
  {
  }

  lemma NewJobFrame(s: State, job: Job)
    requires Frame(s) && NewlyMade(job)
    ensures Frame(NewJob(s, job))
  {
    NewJobAnswered(s, job);
    NewJobLinked(s, job);
    NewJobApart(s, job);
    hide Answered, Linked, Apart;
  }

  lemma NewJobSafe(s: State, job: Job)
    requires Safe(s) && NewlyMade(job) && job.attempts == 0
    ensures SafeBut(NewJob(s, job), {}, {s.nextId})
  {
    assert Frame(NewJob(s, job)) by { NewJobFrame(s, job); }
    assert Waiting(NewJob(s, job), {s.nextId}) by { hide Frame, Entries, Earned; }
    assert Earned(NewJob(s, job)) by {
      hide Answered, Linked, Apart, Filed, Entries;
    }
    hide Frame, Entries, Earned, Waiting;
  }

  lemma FetchSafe(s: State, req: Request, now: nat)
    requires Safe(s)
    ensures Safe(Fetch(s, req, now))
  {
    hide SafeBut;
    var job := Job(req, true, None, 0, None, None, false, now);
    NewJobSafe(s, job);
    PushSafe(NewJob(s, job), req.host, Entry(s.nextId, None));
  }

  lemma LinkFrame(s: State, primary: nat, twin: nat)
    requires Frame(s) && primary in s.jobs && !s.jobs[primary].isTwin && twin in s.jobs && s.jobs[twin].isTwin
    ensures Frame(Link(s, primary, twin))
  {
    var s' := Link(s, primary, twin);
    assert IdsOk(s') by { hide Answered, Linked, Apart, Filed; }
    assert Answered(s') by { hide IdsOk, Linked, Apart, Filed; }
    assert Linked(s') by { hide Answered, Apart, Filed; }
    assert Apart(s') by { hide IdsOk, Answered, Linked, Filed; }
    assert Filed(s') by { hide IdsOk, Answered, Linked, Apart; }
  }

  lemma LinkSafe(s: State, primary: nat, twin: nat, moving: set<nat>)
    requires SafeBut(s, {}, moving) && primary in s.jobs && !s.jobs[primary].isTwin
    requires twin in s.jobs && s.jobs[twin].isTwin
    ensures SafeBut(Link(s, primary, twin), {}, moving)
  {
    hide Frame, Entries;
    LinkFrame(s, primary, twin);
  }

  lemma OpenAuditFrame(s: State, twin: nat, h: Handout, node: nat)
    requires Frame(s) && twin in s.jobs && s.jobs[twin].exclude == Some(node)
    ensures Frame(OpenAudit(s, twin, h, node))
  {
  }

  lemma OpenAuditSafe(s: State, twin: nat, h: Handout, node: nat, moving: set<nat>)
    requires SafeBut(s, {}, moving) && twin in s.jobs && s.jobs[twin].exclude == Some(node)
    ensures SafeBut(OpenAudit(s, twin, h, node), {}, moving)
  {
    hide Frame, Entries;
    OpenAuditFrame(s, twin, h, node);
  }

  lemma AddTwinSafe(s: State, h: Handout, poll: Poll)
    requires Safe(s) && h.id in s.jobs && !s.jobs[h.id].isTwin && s.jobs[h.id].req == h.req
    ensures Safe(AddTwin(s, h, poll))
  {
    hide SafeBut, Entries;
    var t := s.nextId;
    var twin := Job(h.req, false, None, 0, Some(poll.node), Some(h.id), true, poll.now);
    assert h.id != t by { FreshId(s); }
    NewJobSafe(s, twin);
    LinkSafe(NewJob(s, twin), h.id, t, {t});
    OpenAuditSafe(Link(NewJob(s, twin), h.id, t), t, h, poll.node, {t});
    PushSafe(OpenAudit(Link(NewJob(s, twin), h.id, t), t, h, poll.node), h.req.host, Entry(t, Some(poll.node)));
  }

  lemma FreshId(s: State)
    requires Safe(s)
    ensures s.nextId !in s.jobs
  {
  }

  // ---- dispatch ----

  /** Jobs to be audited are live primaries. */
  ghost predicate Auditable(a: Take) {
    forall h | h in a.twins :: h.id in a.s.jobs && !a.s.jobs[h.id].isTwin && a.s.jobs[h.id].req == h.req
  }

  /** The picked ids from the `n`-th on. */
  function Left(ids: seq<nat>, n: nat): set<nat>
    requires n <= |ids|
  {
    set i | n <= i < |ids| :: ids[i]
  }

  ghost predicate Leasable(s: State, ids: seq<nat>, node: nat) {
    forall id | id in ids && id in s.jobs :: s.jobs[id].exclude != Some(node)
  }

  ghost predicate Midway(a: Take, ids: seq<nat>, n: nat, node: nat)
    requires n <= |ids|
  {
    SafeBut(a.s, {}, Left(ids, n)) && Auditable(a) && Leasable(a.s, ids, node)
  }

  lemma LeaseFrame(s: State, id: nat, lease: Lease)
    requires Frame(s) && id in s.jobs && s.jobs[id].exclude != Some(lease.node)
    ensures Frame(s.(jobs := s.jobs[id := s.jobs[id].(lease := Some(lease))]))
  {
    var s' := s.(jobs := s.jobs[id := s.jobs[id].(lease := Some(lease))]);
    assert Shrinks(s, s') by { hide Answered, Linked, Apart, Filed; }
    assert Replies(s, s') by { hide Linked, Apart, Filed; }
    ShrinkKeepsApartLeased(s, id, lease);
    hide IdsOk, Answered, Linked, Apart, Filed, Shrinks, Replies;
    ShrinkKeepsIds(s, s');
    ShrinkKeepsLinks(s, s');
    ShrinkKeepsFiled(s, s');
    ShrinkKeepsAnswers(s, s');
  }

  lemma ShrinkKeepsApartLeased(s: State, id: nat, lease: Lease)
    requires Apart(s) && id in s.jobs && s.jobs[id].exclude != Some(lease.node)
    ensures Apart(s.(jobs := s.jobs[id := s.jobs[id].(lease := Some(lease))]))
  {
  }

  lemma LeaseSafe(s: State, id: nat, lease: Lease, ids: seq<nat>, n: nat)
    requires n < |ids| && ids[n] == id && SafeBut(s, {}, Left(ids, n))
    requires id in s.jobs && s.jobs[id].exclude != Some(lease.node)
    ensures SafeBut(s.(jobs := s.jobs[id := s.jobs[id].(lease := Some(lease))]), {}, Left(ids, n + 1))
  {
    hide Frame, Entries;
    LeaseFrame(s, id, lease);
    assert forall x | x in Left(ids, n) :: x == id || x in Left(ids, n + 1);
  }

  lemma LeaseOneMidway(a: Take, ids: seq<nat>, n: nat, poll: Poll)
    requires n < |ids| && Midway(a, ids, n, poll.node)
    ensures Midway(LeaseOne(a, ids[n], poll), ids, n + 1, poll.node)
  {
    hide SafeBut, Left;
    var id := ids[n];
    if id in a.s.jobs {
      LeaseSafe(a.s, id, Lease(poll.node, poll.now + LEASE_MS), ids, n);
    } else {
      SkipSafe(a.s, ids, n);
    }
  }

  lemma SkipSafe(s: State, ids: seq<nat>, n: nat)
    requires n < |ids| && ids[n] !in s.jobs && SafeBut(s, {}, Left(ids, n))
    ensures SafeBut(s, {}, Left(ids, n + 1))
  {
    hide Frame, Entries;
    assert forall x | x in Left(ids, n) :: x == ids[n] || x in Left(ids, n + 1);
  }

  lemma {:induction false} LeaseAllMidway(a: Take, ids: seq<nat>, n: nat, poll: Poll)
    requires n <= |ids| && Midway(a, ids, 0, poll.node)
    ensures Midway(LeaseAll(a, ids, n, poll), ids, n, poll.node)
  {
    hide Midway, LeaseOne;
    if n > 0 {
      LeaseAllMidway(a, ids, n - 1, poll);
      LeaseOneMidway(LeaseAll(a, ids, n - 1, poll), ids, n - 1, poll);
    }
  }

  lemma KeepFrame(s: State, host: Host, rest: seq<Entry>)
    requires Frame(s) && forall e | e in rest :: e in Queue(s.queues, host)
    ensures Frame(s.(queues := s.queues[host := rest]))
  {
    var s' := s.(queues := s.queues[host := rest]);
    assert Shrinks(s, s') && NoNewLease(s, s') && Replies(s, s') by { hide Linked, Apart, Filed; }
    hide IdsOk, Answered, Linked, Apart, Filed, Shrinks, NoNewLease, Replies;
    ShrinkKeeps(s, s');
  }

  lemma PickLeasable(s: State, host: Host, poll: Poll)
    requires Frame(s)
    ensures var q := Queue(s.queues, host); Leasable(s, Pick(q, |q|, poll.node, poll.Cap(host)).ids, poll.node)
  {
    hide IdsOk, Answered, Linked, Apart, Pick;
    var q := Queue(s.queues, host);
    PickFrom(q, |q|, poll.node, poll.Cap(host));
  }

  lemma PickWaiting(s: State, host: Host, poll: Poll)
    requires Waiting(s, {})
    ensures var q := Queue(s.queues, host);
            var p := Pick(q, |q|, poll.node, poll.Cap(host));
            Waiting(s.(queues := s.queues[host := p.rest]), Left(p.ids, 0))
  {
    hide Pick, Count;
    var q := Queue(s.queues, host);
    var p := Pick(q, |q|, poll.node, poll.Cap(host));
    var s' := s.(queues := s.queues[host := p.rest]);
    forall id | id in s.jobs && id !in Left(p.ids, 0) && s.jobs[id].lease.None?
      ensures Entries(s'.queues, s.jobs[id].req.host, id) >= 1
    {
      PickSplits(q, |q|, poll.node, poll.Cap(host), id);
      TimesIn(p.ids, |p.ids|, id);
    }
  }

  lemma PickSafe(s: State, host: Host, poll: Poll)
    requires Safe(s)
    ensures var q := Queue(s.queues, host);
            var p := Pick(q, |q|, poll.node, poll.Cap(host));
            SafeBut(s.(queues := s.queues[host := p.rest]), {}, Left(p.ids, 0))
  {
    hide Frame, Waiting, Pick, Left;
    var q := Queue(s.queues, host);
    var p := Pick(q, |q|, poll.node, poll.Cap(host));
    PickFrom(q, |q|, poll.node, poll.Cap(host));
    KeepFrame(s, host, p.rest);
    PickWaiting(s, host, poll);
  }

  lemma TakeHostSafe(a: Take, host: Host, poll: Poll)
    requires Safe(a.s) && Auditable(a)
    ensures var b := TakeHost(a, host, poll); Safe(b.s) && Auditable(b)
  {
    hide SafeBut, Pick, LeaseAll, Queue, Leasable;
    var q := Queue(a.s.queues, host);
    var p := Pick(q, |q|, poll.node, poll.Cap(host));
    var s1 := a.s.(queues := a.s.queues[host := p.rest]);
    PickSafe(a.s, host, poll);
    assert Leasable(s1, p.ids, poll.node) by {
      SafeFrame(a.s);
      PickLeasable(a.s, host, poll);
      SameLeasable(a.s, s1, p.ids, poll.node);
    }
    LeaseAllMidway(a.(s := s1), p.ids, |p.ids|, poll);
    assert Left(p.ids, |p.ids|) == {};
  }

  lemma SafeFrame(s: State)
    requires Safe(s)
    ensures Frame(s)
  {
  }

  lemma SameLeasable(s: State, s': State, ids: seq<nat>, node: nat)
    requires Leasable(s, ids, node) && s'.jobs == s.jobs
    ensures Leasable(s', ids, node)
  {
  }

  lemma {:induction false} TakeHostsSafe(s: State, hosts: seq<Host>, n: nat, poll: Poll)
    requires n <= |hosts| && Safe(s)
    ensures var a := TakeHosts(s, hosts, n, poll); Safe(a.s) && Auditable(a)
  {
    hide TakeHost, Safe;
    if n > 0 {
      TakeHostsSafe(s, hosts, n - 1, poll);
      TakeHostSafe(TakeHosts(s, hosts, n - 1, poll), hosts[n - 1], poll);
    }
  }

  lemma {:induction false} AddTwinsSafe(a: Take, n: nat, poll: Poll)
    requires n <= |a.twins| && Safe(a.s) && Auditable(a)
    ensures var s := AddTwins(a.s, a.twins, n, poll); Safe(s) && Auditable(a.(s := s))
  {
    hide Safe, AddTwin;
    if n > 0 {
      AddTwinsSafe(a, n - 1, poll);
      var s := AddTwins(a.s, a.twins, n - 1, poll);
      assert a.twins[n - 1] in a.twins;
      AddTwinSafe(s, a.twins[n - 1], poll);
      AddTwinJobs(s, a.twins[n - 1], poll);
    }
  }

  lemma AddTwinJobs(s: State, h: Handout, poll: Poll)
    requires Safe(s)
    ensures forall id | id in s.jobs :: var s' := AddTwin(s, h, poll);
              id in s'.jobs && s'.jobs[id].isTwin == s.jobs[id].isTwin && s'.jobs[id].req == s.jobs[id].req
  {
    FreshId(s);
    hide SafeBut;
  }

  lemma DispatchSafe(s: State, hosts: seq<Host>, poll: Poll)
    requires Safe(s)
    ensures Safe(Dispatch(s, hosts, poll))
  {
    hide Safe;
    TakeHostsSafe(s, hosts, |hosts|, poll);
    var a := TakeHosts(s, hosts, |hosts|, poll);
    AddTwinsSafe(a, |a.twins|, poll);
  }

  // ---- maintenance ----

  lemma {:induction false} ReleaseAllSafe(s: State, ids: seq<nat>, n: nat)
    requires n <= |ids| && Safe(s)
    ensures Safe(ReleaseAll(s, ids, n))
  {
    hide Safe, Release;
    if n > 0 {
      ReleaseAllSafe(s, ids, n - 1);
      ReleaseSafe(ReleaseAll(s, ids, n - 1), ids[n - 1], true);
    }
  }

  lemma ShutdownSafe(s: State)
    requires Safe(s)
    ensures Safe(Shutdown(s))
  {
    hide Linked, Apart, Filed, Entries;
    var s' := Shutdown(s);
    assert Shrinks(s, s') && NoNewLease(s, s') && Replies(s, s');
    hide Shrinks, NoNewLease, Replies;
    ShrinkKeeps(s, s');
  }

  // ---- runs ----

  lemma SafeStep(s: State, step: Step)
    requires Safe(s)
    ensures Safe(Next(s, step))
  {
    hide SafeBut, Fetch, Dispatch, Report, ReleaseAll, DropTwins, Shutdown;
    match step
    case DoFetch(req, now) => FetchSafe(s, req, now);
    case DoTake(hosts, poll) => DispatchSafe(s, hosts, poll);
    case DoReport(node, id, outcome) => ReportSafe(s, node, id, outcome);
    case DoSweep(now, expired) =>
      ReleaseAllSafe(s, expired, |expired|);
      DropSafe(ReleaseAll(s, expired, |expired|), StaleTwins(ReleaseAll(s, expired, |expired|), now), {});
    case DoShutdown => ShutdownSafe(s);
  }

  /** Every state any run reaches is safe. */
  lemma {:induction false} RunsAreSafe(steps: seq<Step>, n: nat)
    requires n <= |steps|
    ensures Safe(Run(steps, n))
  {
    hide Next, Enabled;
    if n > 0 {
      hide Safe;
      RunsAreSafe(steps, n - 1);
      SafeStep(Run(steps, n - 1), steps[n - 1]);
    }
  }

  // ---- replies are never taken back ----

  ghost predicate Kept(a: map<nat, seq<Reply>>, b: map<nat, seq<Reply>>) {
    forall id | id in a :: id in b && a[id] <= b[id]
  }

  lemma KeptTwice(a: map<nat, seq<Reply>>, b: map<nat, seq<Reply>>, c: map<nat, seq<Reply>>)
    requires Kept(a, b) && Kept(b, c)
    ensures Kept(a, c)
  {
  }

  lemma RemoveKept(s: State, id: nat, reply: Reply)
    requires id in s.jobs
    ensures Kept(s.replies, Remove(s, id, reply).replies)
  {
  }

  lemma AbandonKept(s: State, id: nat)
    ensures Kept(s.replies, Abandon(s, id).replies)
  {
    hide Remove;
    if id in s.jobs {
      RemoveKept(s, id, Abandoned);
    }
  }

  lemma ReleaseKept(s: State, id: nat, counted: bool)
    ensures Kept(s.replies, Release(s, id, counted).replies)
  {
    hide Abandon;
    if id in s.jobs && counted {
      AbandonKept(CountFailure(Unlease(s, id), id), id);
    }
  }

  lemma ReportKept(s: State, node: nat, id: nat, outcome: Outcome)
    ensures Kept(s.replies, Report(s, node, id, outcome).replies)
  {
    hide Abandon, Release, Remove;
    if Accepted(s, node, id) {
      match outcome
      case Answer(body) => RemoveKept(s, id, Body(body));
      case KeyRejected => ReleaseKept(s, id, false);
      case Failed =>
        AbandonKept(CountFailure(s, id), id);
        ReleaseKept(CountFailure(s, id), id, false);
    }
  }

  lemma {:induction false} TakeHostsKept(s: State, hosts: seq<Host>, n: nat, poll: Poll)
    requires n <= |hosts|
    ensures TakeHosts(s, hosts, n, poll).s.replies == s.replies
  {
    hide LeaseAll, Pick;
    if n > 0 {
      TakeHostsKept(s, hosts, n - 1, poll);
      var a := TakeHosts(s, hosts, n - 1, poll);
      var q := Queue(a.s.queues, hosts[n - 1]);
      var p := Pick(q, |q|, poll.node, poll.Cap(hosts[n - 1]));
      LeaseAllKept(a.(s := a.s.(queues := a.s.queues[hosts[n - 1] := p.rest])), p.ids, |p.ids|, poll);
    }
  }

  lemma {:induction false} LeaseAllKept(a: Take, ids: seq<nat>, n: nat, poll: Poll)
    requires n <= |ids|
    ensures LeaseAll(a, ids, n, poll).s.replies == a.s.replies
  {
    if n > 0 {
      LeaseAllKept(a, ids, n - 1, poll);
    }
  }

  lemma {:induction false} AddTwinsKept(s: State, twins: seq<Handout>, n: nat, poll: Poll)
    requires n <= |twins|
    ensures AddTwins(s, twins, n, poll).replies == s.replies
  {
    if n > 0 {
      AddTwinsKept(s, twins, n - 1, poll);
    }
  }

  lemma {:induction false} ReleaseAllKept(s: State, ids: seq<nat>, n: nat)
    requires n <= |ids|
    ensures Kept(s.replies, ReleaseAll(s, ids, n).replies)
  {
    hide Release, Kept;
    if n > 0 {
      ReleaseAllKept(s, ids, n - 1);
      ReleaseKept(ReleaseAll(s, ids, n - 1), ids[n - 1], true);
      KeptTwice(s.replies, ReleaseAll(s, ids, n - 1).replies, ReleaseAll(s, ids, n).replies);
    } else {
      KeptSame(s.replies);
    }
  }

  lemma KeptSame(a: map<nat, seq<Reply>>)
    ensures Kept(a, a)
  {
  }

  lemma StepKept(s: State, step: Step)
    requires IdsOk(s)
    ensures Kept(s.replies, Next(s, step).replies)
  {
    hide Report, TakeHosts, AddTwins, ReleaseAll;
    match step
    case DoFetch(req, now) =>
    case DoTake(hosts, poll) =>
      TakeHostsKept(s, hosts, |hosts|, poll);
      var a := TakeHosts(s, hosts, |hosts|, poll);
      AddTwinsKept(a.s, a.twins, |a.twins|, poll);
    case DoReport(node, id, outcome) => ReportKept(s, node, id, outcome);
    case DoSweep(now, expired) => ReleaseAllKept(s, expired, |expired|);
    case DoShutdown =>
  }

  /** An accepted fetch stays accepted, and what it was told stays told. */
  lemma {:induction false} RepliesStay(steps: seq<Step>, m: nat, n: nat, id: nat)
    requires m <= n <= |steps| && id in Run(steps, m).replies
    ensures id in Run(steps, n).replies && Run(steps, m).replies[id] <= Run(steps, n).replies[id]
    decreases n
  {
    hide Next, Enabled, Safe;
    if m < n {
      RepliesStay(steps, m, n - 1, id);
      RunsAreSafe(steps, n - 1);
      var s := Run(steps, n - 1);
      SafeIds(s);
      StepKept(s, steps[n - 1]);
    }
  }

  lemma SafeIds(s: State)
    requires Safe(s)
    ensures IdsOk(s)
  {
  }

  // ---- what a waiting fetch can rely on ----

  /** In every reachable state an accepted fetch is a live primary that has been told nothing, or it is gone and has
      been told exactly one thing; it is told an error only after MAX_ATTEMPTS counted failures or a shutdown. */
  lemma EveryFetchAnsweredOnce(steps: seq<Step>, n: nat, id: nat)
    requires n <= |steps| && id in Run(steps, n).replies
    ensures var s := Run(steps, n);
            if id in s.jobs then !s.jobs[id].isTwin && s.jobs[id].responder && s.replies[id] == []
            else
              && |s.replies[id]| == 1
              && (s.replies[id][0].Abandoned? ==> id in s.failures && s.failures[id] >= MAX_ATTEMPTS)
              && (s.replies[id][0].ShutDown? ==> s.down)
  {
    hide Run, Linked, Apart, Filed, Waiting, IdsOk;
    RunsAreSafe(steps, n);
    var s := Run(steps, n);
    if id !in s.jobs {
      assert s.replies[id][0] in s.replies[id];
    }
  }

  /** Jobs live on short of MAX_ATTEMPTS; an unleased one waits on its own host's queue, with its own exclusion. */
  lemma EveryLiveJobWaits(steps: seq<Step>, n: nat, id: nat) returns (i: nat)
    requires n <= |steps| && id in Run(steps, n).jobs && Run(steps, n).jobs[id].lease.None?
    ensures var s := Run(steps, n);
            var q := Queue(s.queues, s.jobs[id].req.host);
            s.jobs[id].attempts < MAX_ATTEMPTS && i < |q| && q[i] == Entry(id, s.jobs[id].exclude)
  {
    hide Run, Linked, Apart, Answered, Earned, IdsOk, Count;
    RunsAreSafe(steps, n);
    var s := Run(steps, n);
    var host := s.jobs[id].req.host;
    var q := Queue(s.queues, host);
    CountIn(q, |q|, id);
    i :| 0 <= i < |q| && q[i].id == id;
    assert q[i] in s.queues[host];
  }

  /** A leased twin is never with the node its pair names as the primary's. */
  lemma TwinsRunApart(steps: seq<Step>, n: nat, id: nat)
    requires n <= |steps|
    requires var s := Run(steps, n); id in s.jobs && s.jobs[id].isTwin && s.jobs[id].lease.Some? && id in s.audits
    ensures var s := Run(steps, n); s.jobs[id].lease.value.node != s.audits[id].primaryNode
  {
    hide Run, Linked, Answered, Earned, IdsOk, Filed, Waiting;
    RunsAreSafe(steps, n);
  }
}
