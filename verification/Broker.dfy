/** The fetch broker as an object: every method moves the state as its specification says. */
module Broker {
  import opened Results
  import opened BrokerSpec

  /** The elements of a set, in some order. */
  method ListOf<T(==, !new)>(all: set<T>) returns (order: seq<T>)
    ensures Lists(order, all)
  {
    order := [];
    var rest := all;
    while rest != {}
      invariant rest <= all && (forall x :: x in order <==> x in all && x !in rest)
      invariant forall i, j | 0 <= i < j < |order| :: order[i] != order[j]
      decreases |rest|
    {
      var x :| x in rest;
      order := order + [x];
      rest := rest - {x};
    }
  }

  /** Once enough is picked, the rest of the queue is left as it is. */
  lemma {:induction false} PickFull(q: seq<Entry>, m: nat, n: nat, node: nat, cap: nat)
    requires m <= n <= |q| && |Pick(q, m, node, cap).ids| == cap
    ensures Pick(q, n, node, cap) == Picked(Pick(q, m, node, cap).ids, Pick(q, m, node, cap).rest + q[m..n])
    decreases n
  {
    if m == n {
      assert q[m..n] == [];
    } else {
      PickFull(q, m, n - 1, node, cap);
      assert q[m..n] == q[m..n - 1] + [q[n - 1]];
    }
  }

  /** Index-and-remove over one queue. */
  method PickJobs(queue: seq<Entry>, node: nat, cap: nat) returns (ids: seq<nat>, rest: seq<Entry>)
    ensures Picked(ids, rest) == Pick(queue, |queue|, node, cap)
  {
    ids, rest := [], queue;
    var left, i := cap, 0;
    ghost var n: nat := 0;
    while left > 0 && i < |rest|
      invariant n <= |queue| && |ids| + left == cap && i <= |rest|
      invariant Picked(ids, rest[..i]) == Pick(queue, n, node, cap)
      invariant rest[i..] == queue[n..]
      decreases |rest| - i
    {
      assert rest[i] == rest[i..][0] == queue[n];
      n := n + 1;
      if rest[i].exclude == Some(node) {
        assert rest[..i + 1] == rest[..i] + [rest[i]];
        assert rest[i + 1..] == rest[i..][1..];
        i := i + 1;
        continue;
      }
      assert rest[i + 1..] == rest[i..][1..];
      var id := rest[i].id;
      var without := rest[..i] + rest[i + 1..];
      assert without[..i] == rest[..i] && without[i..] == rest[i + 1..];
      rest := without;
      ids := ids + [id];
      left := left - 1;
    }
    assert rest == rest[..i] + rest[i..];
    if left == 0 {
      PickFull(queue, n, |queue|, node, cap);
      assert queue[n..|queue|] == queue[n..];
    } else {
      assert rest[i..] == [];
    }
  }

  class Broker {
    var nextId: nat
    var jobs: map<nat, Job>
    var queues: Queues
    var audits: map<nat, AuditPair>
    var isShutdown: bool

    // the trail
    ghost var replies: map<nat, seq<Reply>>
    ghost var failures: map<nat, nat>
    ghost var owner: map<nat, nat>

    ghost function S(): State
      reads this
    {
      State(nextId, jobs, queues, audits, isShutdown, replies, failures, owner)
    }

    constructor ()
      ensures S() == Empty()
    {
      nextId, jobs, queues, audits, isShutdown := 1, map[], map[], map[], false;
      replies, failures, owner := map[], map[], map[];
    }

    method PushBack(host: Host, e: Entry)
      modifies this`queues
      ensures queues == old(queues)[host := Queue(old(queues), host) + [e]]
    {
      var q := if host in queues then queues[host] else [];
      queues := queues[host := q + [e]];
    }

    /** Enqueues one GET; None when the broker is shut down. */
    method Fetch(req: Request, now: nat) returns (accepted: Option<nat>)
      modifies this
      ensures if old(isShutdown) then accepted.None? && S() == old(S())
              else accepted == Some(old(nextId)) && S() == BrokerSpec.Fetch(old(S()), req, now)
    {
      if isShutdown {
        return None;
      }
      var id := nextId;
      nextId := nextId + 1;
      jobs := jobs[id := Job(req, true, None, 0, None, None, false, now)];
      replies := replies[id := []];
      failures := failures[id := 0];
      PushBack(req.host, Entry(id, None));
      return Some(id);
    }

    ghost method Send(id: nat, reply: Reply)
      modifies this`replies
      ensures replies == Told(old(replies), id, reply)
    {
      replies := Told(replies, id, reply);
    }

    method Abandon(id: nat)
      modifies this`jobs, this`audits, this`replies
      ensures S() == BrokerSpec.Abandon(old(S()), id)
    {
      if id !in jobs {
        return;
      }
      var job := jobs[id];
      jobs := jobs - {id};
      if job.responder {
        Send(id, Abandoned);
      }
      if job.isTwin {
        audits := audits - {id};
      } else if job.twin.Some? {
        audits := audits - {job.twin.value};
        jobs := jobs - {job.twin.value};
      }
    }

    method Release(id: nat, counted: bool)
      modifies this`jobs, this`queues, this`audits, this`replies, this`failures
      ensures S() == BrokerSpec.Release(old(S()), id, counted)
    {
      hide BrokerSpec.Abandon;
      if id !in jobs {
        return;
      }
      jobs := jobs[id := jobs[id].(lease := None)];
      if counted {
        jobs := jobs[id := jobs[id].(attempts := jobs[id].attempts + 1)];
        failures := failures[id := (if id in failures then failures[id] else 0) + 1];
        if jobs[id].attempts >= MAX_ATTEMPTS {
          assert S() == CountFailure(Unlease(old(S()), id), id);
          Abandon(id);
          return;
        }
      }
      PushBack(jobs[id].req.host, Entry(id, jobs[id].exclude));
    }

    method FinishAuditIfReady(twin: nat)
      modifies this`audits
      ensures S() == FinishAudit(old(S()), twin)
    {
      if twin in audits && audits[twin].primary.Some? && audits[twin].twin.Some? {
        audits := audits - {twin};
      }
    }

    /** A body came back: the fetch is told, and the job's audit gets its half. */
    method Finish(node: nat, id: nat, body: AuditBody)
      requires id in jobs
      modifies this`jobs, this`audits, this`replies
      ensures S() == Complete(old(S()), node, id, body)
    {
      var job := jobs[id];
      jobs := jobs - {id};
      if job.responder {
        Send(id, Body(body));
      }
      if job.isTwin {
        if id in audits {
          audits := audits[id := audits[id].(twinNode := Some(node), twin := Some(body))];
        }
        FinishAuditIfReady(id);
      } else if job.twin.Some? {
        var t := job.twin.value;
        if t in audits {
          audits := audits[t := audits[t].(primary := Some(body))];
        }
        FinishAuditIfReady(t);
      }
    }

    /** A node reports; stale reports are ignored. */
    method Report(node: nat, id: nat, outcome: Outcome)
      modifies this`jobs, this`queues, this`audits, this`replies, this`failures
      ensures S() == BrokerSpec.Report(old(S()), node, id, outcome)
    {
      hide BrokerSpec.Abandon, BrokerSpec.Release, Complete;
      if id !in jobs {
        return;
      }
      if jobs[id].lease.Some? && jobs[id].lease.value.node != node {
        return;
      }
      match outcome
      case Answer(body) => Finish(node, id, body);
      case KeyRejected => Release(id, false);
      case Failed =>
        jobs := jobs[id := jobs[id].(attempts := jobs[id].attempts + 1)];
        failures := failures[id := (if id in failures then failures[id] else 0) + 1];
        assert S() == CountFailure(old(S()), id);
        if jobs[id].attempts >= MAX_ATTEMPTS {
          Abandon(id);
        } else {
          Release(id, false);
        }
    }

    /** Leases the jobs picked from one queue. */
    method LeasePicked(ids: seq<nat>, poll: Poll, out0: seq<Handout>, twins0: seq<Handout>)
      returns (out: seq<Handout>, twins: seq<Handout>)
      modifies this`jobs
      ensures Take(S(), out, twins) == LeaseAll(Take(old(S()), out0, twins0), ids, |ids|, poll)
    {
      out, twins := out0, twins0;
      for i := 0 to |ids|
        invariant Take(S(), out, twins) == LeaseAll(Take(old(S()), out0, twins0), ids, i, poll)
      {
        var id := ids[i];
        if id !in jobs {
          continue;
        }
        var job := jobs[id];
        jobs := jobs[id := job.(lease := Some(Lease(poll.node, poll.now + LEASE_MS)))];
        if !job.isTwin && job.twin.None? && poll.auditPossible && |out| in poll.dice {
          twins := twins + [Handout(id, job.req)];
        }
        out := out + [Handout(id, job.req)];
      }
    }

    method MakeTwin(h: Handout, poll: Poll)
      modifies this
      ensures S() == AddTwin(old(S()), h, poll)
    {
      var t := nextId;
      nextId := nextId + 1;
      jobs := jobs[t := Job(h.req, false, None, 0, Some(poll.node), Some(h.id), true, poll.now)];
      failures := failures[t := 0];
      if h.id in jobs {
        jobs := jobs[h.id := jobs[h.id].(twin := Some(t))];
      }
      PushBack(h.req.host, Entry(t, Some(poll.node)));
      audits := audits[t := AuditPair(h.req, poll.node, None, None, None)];
      owner := owner[t := h.id];
    }

    /** Tops a node up with jobs from every queue, then makes the audit twins. */
    method TakeJobs(poll: Poll) returns (out: seq<Handout>, hosts: seq<Host>)
      modifies this
      ensures Lists(hosts, old(queues).Keys)
      ensures S() == Dispatch(old(S()), hosts, poll) && out == TakeHosts(old(S()), hosts, |hosts|, poll).out
    {
      hide Pick, LeaseAll, AddTwin, Lists;
      hosts := ListOf(queues.Keys);
      out := [];
      var twins: seq<Handout> := [];
      for i := 0 to |hosts|
        invariant Take(S(), out, twins) == TakeHosts(old(S()), hosts, i, poll)
      {
        var host := hosts[i];
        var q := if host in queues then queues[host] else [];
        var ids, rest := PickJobs(q, poll.node, poll.Cap(host));
        queues := queues[host := rest];
        out, twins := LeasePicked(ids, poll, out, twins);
      }
      ghost var a := Take(S(), out, twins);
      for i := 0 to |twins|
        invariant S() == AddTwins(a.s, twins, i, poll)
      {
        MakeTwin(twins[i], poll);
      }
    }

    /** Drops the twins nobody took, one by one. */
    method DropStale(stale: set<nat>)
      modifies this`jobs, this`audits
      ensures S() == DropTwins(old(S()), stale)
    {
      var todo := stale;
      assert stale - todo == {};
      while todo != {}
        invariant todo <= stale
        invariant jobs == old(jobs) - (stale - todo) && audits == old(audits) - (stale - todo)
        decreases |todo|
      {
        var id :| id in todo;
        jobs := jobs - {id};
        audits := audits - {id};
        assert stale - (todo - {id}) == (stale - todo) + {id};
        todo := todo - {id};
      }
      assert stale - {} == stale;
    }

    /** Re-queues expired leases, then drops unserved twins past their time. */
    method Sweep(now: nat) returns (expired: seq<nat>)
      modifies this`jobs, this`queues, this`audits, this`replies, this`failures
      ensures Lists(expired, Expired(old(S()), now)) && S() == BrokerSpec.Sweep(old(S()), now, expired)
    {
      hide BrokerSpec.Release, Lists, DropTwins;
      var due := set id | id in jobs && jobs[id].lease.Some? && jobs[id].lease.value.until <= now;
      expired := ListOf(due);
      assert due == Expired(old(S()), now);
      for i := 0 to |expired|
        invariant S() == ReleaseAll(old(S()), expired, i)
      {
        Release(expired[i], true);
      }
      var stale := set id | id in jobs && jobs[id].isTwin && jobs[id].lease.None? && now > jobs[id].created + TWIN_TTL;
      assert stale == StaleTwins(S(), now);
      DropStale(stale);
    }

    /** Tells every waiting fetch and drops everything. */
    method Shutdown()
      requires forall id | id in jobs && jobs[id].responder :: id in replies
      modifies this`jobs, this`queues, this`audits, this`replies, this`isShutdown
      ensures S() == BrokerSpec.Shutdown(old(S()))
    {
      isShutdown := true;
      var todo := jobs.Keys;
      while todo != {}
        invariant todo <= old(jobs).Keys && replies.Keys == old(replies).Keys
        invariant jobs == old(jobs) && isShutdown
        invariant forall id | id in replies ::
                    replies[id] == if id in old(jobs) && id !in todo && old(jobs)[id].responder
                                   then old(replies)[id] + [ShutDown] else old(replies)[id]
        decreases |todo|
      {
        var id :| id in todo;
        if jobs[id].responder {
          Send(id, ShutDown);
        }
        todo := todo - {id};
      }
      jobs, queues, audits := map[], map[], map[];
    }
  }
}
