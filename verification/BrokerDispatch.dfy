/**
 What one dispatch and one sweep achieve: a node is handed exactly jobs leased to
 it, never more of a host than its room, and a sweep leaves nothing expired.
 */
module BrokerDispatch {
  import opened Results
  import opened BrokerSpec
  import opened BrokerProof

  // ---- handed out is leased ----

  /** Everything handed out is a live job leased to the node, with the request it was made for. */
  ghost predicate Handed(s: State, out: seq<Handout>, poll: Poll) {
    forall h | h in out :: h.id in s.jobs && s.jobs[h.id].req == h.req
                        && s.jobs[h.id].lease == Some(Lease(poll.node, poll.now + LEASE_MS))
  }

  /** A job that is not handed out keeps the lease it had. */
  ghost predicate OthersKeep(s: State, s': State, out: seq<Handout>) {
    forall id | id in s.jobs && (forall h | h in out :: h.id != id) ::
             id in s'.jobs && s'.jobs[id].lease == s.jobs[id].lease
  }

  lemma LeaseOneHanded(s: State, a: Take, id: nat, poll: Poll)
    requires Handed(a.s, a.out, poll) && OthersKeep(s, a.s, a.out)
    ensures var b := LeaseOne(a, id, poll); Handed(b.s, b.out, poll) && OthersKeep(s, b.s, b.out)
  {
    if id in a.s.jobs {
      var h := Handout(id, a.s.jobs[id].req);
      assert h in a.out + [h];
      assert forall x | x in a.out :: x in a.out + [h];
    }
  }

  lemma {:induction false} LeaseAllHanded(s: State, a: Take, ids: seq<nat>, n: nat, poll: Poll)
    requires n <= |ids| && Handed(a.s, a.out, poll) && OthersKeep(s, a.s, a.out)
    ensures var b := LeaseAll(a, ids, n, poll); Handed(b.s, b.out, poll) && OthersKeep(s, b.s, b.out)
  {
    hide Handed, OthersKeep, LeaseOne;
    if n > 0 {
      LeaseAllHanded(s, a, ids, n - 1, poll);
      LeaseOneHanded(s, LeaseAll(a, ids, n - 1, poll), ids[n - 1], poll);
    }
  }

  lemma SameJobsHanded(s: State, a: State, b: State, out: seq<Handout>, poll: Poll)
    requires Handed(a, out, poll) && OthersKeep(s, a, out) && b.jobs == a.jobs
    ensures Handed(b, out, poll) && OthersKeep(s, b, out)
  {
  }

  lemma {:induction false} TakeHostsHanded(s: State, hosts: seq<Host>, n: nat, poll: Poll)
    requires n <= |hosts|
    ensures var a := TakeHosts(s, hosts, n, poll); Handed(a.s, a.out, poll) && OthersKeep(s, a.s, a.out)
  {
    hide LeaseAll, Pick;
    if n > 0 {
      hide Handed, OthersKeep;
      TakeHostsHanded(s, hosts, n - 1, poll);
      var a := TakeHosts(s, hosts, n - 1, poll);
      var q := Queue(a.s.queues, hosts[n - 1]);
      var p := Pick(q, |q|, poll.node, poll.Cap(hosts[n - 1]));
      var s1 := a.s.(queues := a.s.queues[hosts[n - 1] := p.rest]);
      SameJobsHanded(s, a.s, s1, a.out, poll);
      LeaseAllHanded(s, a.(s := s1), p.ids, |p.ids|, poll);
    }
  }

  lemma AddTwinLease(a: State, h: Handout, poll: Poll, id: nat)
    requires id in a.jobs && id != a.nextId
    ensures var b := AddTwin(a, h, poll);
            id in b.jobs && b.jobs[id].req == a.jobs[id].req && b.jobs[id].lease == a.jobs[id].lease
  {
  }

  lemma AddTwinHanded(s: State, a: State, out: seq<Handout>, h: Handout, poll: Poll)
    requires Safe(a) && Handed(a, out, poll) && OthersKeep(s, a, out)
    ensures Handed(AddTwin(a, h, poll), out, poll) && OthersKeep(s, AddTwin(a, h, poll), out)
  {
    FreshId(a);
    hide SafeBut, AddTwin;
    forall id | id in a.jobs
      ensures var b := AddTwin(a, h, poll);
              id in b.jobs && b.jobs[id].req == a.jobs[id].req && b.jobs[id].lease == a.jobs[id].lease
    {
      AddTwinLease(a, h, poll, id);
    }
  }

  lemma {:induction false} AddTwinsHanded(s: State, a: Take, n: nat, poll: Poll)
    requires n <= |a.twins| && Safe(a.s) && Auditable(a) && Handed(a.s, a.out, poll) && OthersKeep(s, a.s, a.out)
    ensures var s' := AddTwins(a.s, a.twins, n, poll); Handed(s', a.out, poll) && OthersKeep(s, s', a.out)
  {
    hide Handed, OthersKeep, Safe, Auditable, AddTwin;
    if n > 0 {
      AddTwinsHanded(s, a, n - 1, poll);
      AddTwinsSafe(a, n - 1, poll);
      AddTwinHanded(s, AddTwins(a.s, a.twins, n - 1, poll), a.out, a.twins[n - 1], poll);
    }
  }

  /** After a dispatch the node holds the lease of everything it was handed, and no other lease has changed. */
  lemma DispatchLeases(s: State, hosts: seq<Host>, poll: Poll)
    requires Safe(s)
    ensures var out := TakeHosts(s, hosts, |hosts|, poll).out;
            Handed(Dispatch(s, hosts, poll), out, poll) && OthersKeep(s, Dispatch(s, hosts, poll), out)
  {
    hide Safe, Handed, OthersKeep, Auditable, AddTwins, TakeHosts;
    TakeHostsSafe(s, hosts, |hosts|, poll);
    TakeHostsHanded(s, hosts, |hosts|, poll);
    AddTwinsHanded(s, TakeHosts(s, hosts, |hosts|, poll), |TakeHosts(s, hosts, |hosts|, poll).twins|, poll);
  }

  // ---- no more than the node has room for ----

  /** Jobs of one host among the first `n` handed out. */
  function OfHost(out: seq<Handout>, n: nat, host: Host): nat
    requires n <= |out|
  {
    if n == 0 then 0 else OfHost(out, n - 1, host) + (if out[n - 1].req.host == host then 1 else 0)
  }

  lemma {:induction false} OfHostPrefix(out: seq<Handout>, h: Handout, n: nat, host: Host)
    requires n <= |out|
    ensures OfHost(out + [h], n, host) == OfHost(out, n, host)
  {
    if n > 0 {
      OfHostPrefix(out, h, n - 1, host);
      assert (out + [h])[n - 1] == out[n - 1];
    }
  }

  ghost predicate AllOn(s: State, ids: seq<nat>, host: Host) {
    forall id | id in ids && id in s.jobs :: s.jobs[id].req.host == host
  }

  lemma LeaseOneShare(a: Take, id: nat, poll: Poll, host: Host, other: Host)
    requires id in a.s.jobs ==> a.s.jobs[id].req.host == host
    ensures var b := LeaseOne(a, id, poll);
            OfHost(b.out, |b.out|, other) <= OfHost(a.out, |a.out|, other) + (if other == host then 1 else 0)
    ensures forall x | x in LeaseOne(a, id, poll).s.jobs ::
              x in a.s.jobs && LeaseOne(a, id, poll).s.jobs[x].req == a.s.jobs[x].req
  {
    if id in a.s.jobs {
      OfHostPrefix(a.out, Handout(id, a.s.jobs[id].req), |a.out|, other);
    }
  }

  lemma {:induction false} LeaseAllShare(a: Take, ids: seq<nat>, n: nat, poll: Poll, host: Host, other: Host)
    requires n <= |ids| && AllOn(a.s, ids, host)
    ensures var b := LeaseAll(a, ids, n, poll);
            OfHost(b.out, |b.out|, other) <= OfHost(a.out, |a.out|, other) + (if other == host then n else 0)
            && AllOn(b.s, ids, host)
  {
    hide LeaseOne;
    if n > 0 {
      LeaseAllShare(a, ids, n - 1, poll, host, other);
      LeaseOneShare(LeaseAll(a, ids, n - 1, poll), ids[n - 1], poll, host, other);
    }
  }

  lemma PickedOn(s: State, host: Host, poll: Poll)
    requires Filed(s)
    ensures var q := Queue(s.queues, host); AllOn(s, Pick(q, |q|, poll.node, poll.Cap(host)).ids, host)
  {
    hide Pick;
    var q := Queue(s.queues, host);
    PickFrom(q, |q|, poll.node, poll.Cap(host));
  }

  lemma {:induction false} TakeHostsShare(s: State, hosts: seq<Host>, n: nat, poll: Poll, host: Host)
    requires n <= |hosts| && Safe(s) && forall i, j | 0 <= i < j < |hosts| :: hosts[i] != hosts[j]
    ensures var out := TakeHosts(s, hosts, n, poll).out;
            OfHost(out, |out|, host) <= if host in hosts[..n] then poll.Cap(host) else 0
  {
    hide LeaseAll, Pick, Safe, OfHost;
    if n == 0 {
      assert OfHost([], 0, host) == 0 by { NoneOfHost(host); }
    } else {
      TakeHostsShare(s, hosts, n - 1, poll, host);
      TakeHostsSafe(s, hosts, n - 1, poll);
      var a := TakeHosts(s, hosts, n - 1, poll);
      var q := Queue(a.s.queues, hosts[n - 1]);
      var p := Pick(q, |q|, poll.node, poll.Cap(hosts[n - 1]));
      var s1 := a.s.(queues := a.s.queues[hosts[n - 1] := p.rest]);
      SafeFiled(a.s);
      PickedOn(a.s, hosts[n - 1], poll);
      assert AllOn(s1, p.ids, hosts[n - 1]);
      LeaseAllShare(a.(s := s1), p.ids, |p.ids|, poll, hosts[n - 1], host);
      assert forall x :: x in hosts[..n] <==> x in hosts[..n - 1] || x == hosts[n - 1];
    }
  }

  lemma NoneOfHost(host: Host)
    ensures OfHost([], 0, host) == 0
  {
  }

  lemma SafeFiled(s: State)
    requires Safe(s)
    ensures Filed(s)
  {
  }

  /** A dispatch never hands a node more jobs of a host than the in-flight target leaves room for. */
  lemma DispatchWithinTarget(s: State, hosts: seq<Host>, poll: Poll, host: Host)
    requires Safe(s) && Lists(hosts, s.queues.Keys)
    ensures var out := TakeHosts(s, hosts, |hosts|, poll).out;
            var held := if host in poll.pending then poll.pending[host] else 0;
            OfHost(out, |out|, host) > 0 ==> held + OfHost(out, |out|, host) <= TARGET_INFLIGHT_PER_HOST
  {
    hide Safe, TakeHosts, OfHost;
    TakeHostsShare(s, hosts, |hosts|, poll, host);
  }

  // ---- a sweep leaves nothing expired ----

  lemma AbandonSubset(s: State, id: nat, x: nat)
    ensures x in Abandon(s, id).jobs ==> x in s.jobs && Abandon(s, id).jobs[x] == s.jobs[x] && x != id
  {
    if id in s.jobs {
      RemoveTables(s, id, Abandoned);
    }
    hide Remove;
  }

  lemma ReleaseLeases(s: State, id: nat, x: nat)
    requires x in Release(s, id, true).jobs
    ensures x in s.jobs
    ensures if x == id then Release(s, id, true).jobs[x].lease.None?
            else Release(s, id, true).jobs[x].lease == s.jobs[x].lease
  {
    if id in s.jobs {
      var s1 := CountFailure(Unlease(s, id), id);
      AbandonSubset(s1, id, x);
      hide Abandon;
    }
  }

  lemma {:induction false} ReleaseAllLeases(s: State, ids: seq<nat>, n: nat, x: nat)
    requires n <= |ids| && x in ReleaseAll(s, ids, n).jobs
    ensures x in s.jobs
    ensures var job := ReleaseAll(s, ids, n).jobs[x];
            if x in ids[..n] then job.lease.None? else job.lease == s.jobs[x].lease
  {
    hide Release;
    if n > 0 {
      var s1 := ReleaseAll(s, ids, n - 1);
      ReleaseLeases(s1, ids[n - 1], x);
      ReleaseAllLeases(s, ids, n - 1, x);
      assert x in ids[..n] <==> x in ids[..n - 1] || x == ids[n - 1];
    }
  }

  /** After a sweep no lease is past its time, every other lease is as it was, and no twin nobody took is past its
      own. */
  lemma SweepClears(s: State, now: nat, expired: seq<nat>, x: nat)
    requires Lists(expired, Expired(s, now)) && x in Sweep(s, now, expired).jobs
    ensures var job := Sweep(s, now, expired).jobs[x];
            && x in s.jobs
            && (job.lease.Some? ==> job.lease == s.jobs[x].lease && job.lease.value.until > now)
            && (job.isTwin && job.lease.None? ==> now <= job.created + TWIN_TTL)
  {
    hide ReleaseAll;
    ReleaseAllLeases(s, expired, |expired|, x);
    assert expired[..|expired|] == expired;
  }
}
