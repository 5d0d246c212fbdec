/**
 Whose turn it is: a dispatch hands a node exactly the first entries of each queue
 that are open to it, as many as it has room for, audits exactly the handouts the
 dice name, and a sweep takes away nothing it need not.
 */
module BrokerTurns {
  import opened Results
  import opened BrokerSpec
  import opened BrokerProof
  import opened BrokerDispatch
  import opened BrokerReplies

  // ---- places in a queue ----

  /** Places among the first `n` whose entry this node may take. */
  function OpenTo(q: seq<Entry>, n: nat, node: nat): set<nat>
    requires n <= |q|
  {
    set k: nat | 0 <= k < n && q[k].exclude != Some(node)
  }

  function Least(a: nat, b: nat): nat {
    if a <= b then a else b
  }

  /** An entry is picked if and only if it is open and fewer than `cap` open ones are before it; the picked and the
      others keep their order. */
  ghost predicate InPlace(q: seq<Entry>, n: nat, node: nat, cap: nat, r: Picked)
    requires n <= |q|
  {
    && |r.ids| == Least(cap, |OpenTo(q, n, node)|) && |r.rest| == n - |r.ids|
    && forall i: nat | i < n ::
         var before := |OpenTo(q, i, node)|;
         if q[i].exclude != Some(node) && before < cap then before < |r.ids| && r.ids[before] == q[i].id
         else 0 <= i - Least(cap, before) < |r.rest| && r.rest[i - Least(cap, before)] == q[i]
  }

  lemma OpenGrows(q: seq<Entry>, n: nat, node: nat)
    requires 0 < n <= |q|
    ensures |OpenTo(q, n, node)| == |OpenTo(q, n - 1, node)| + (if q[n - 1].exclude != Some(node) then 1 else 0)
  {
    var last: set<nat> := if q[n - 1].exclude != Some(node) then {n - 1} else {};
    assert OpenTo(q, n, node) == OpenTo(q, n - 1, node) + last;
  }

  lemma {:induction false} PickPlaces(q: seq<Entry>, n: nat, node: nat, cap: nat)
    requires n <= |q|
    ensures InPlace(q, n, node, cap, Pick(q, n, node, cap))
  {
    hide OpenTo;
    if n == 0 {
      NoneOpen(q, node);
    } else {
      PickPlaces(q, n - 1, node, cap);
      OpenGrows(q, n, node);
    }
  }

  lemma NoneOpen(q: seq<Entry>, node: nat)
    ensures |OpenTo(q, 0, node)| == 0
  {
    assert OpenTo(q, 0, node) == {};
  }

  /** With room to spare every entry left is closed to the node. */
  lemma {:induction false} SpareRoom(q: seq<Entry>, n: nat, node: nat, cap: nat)
    requires n <= |q|
    ensures var r := Pick(q, n, node, cap);
            |r.ids| < cap ==> forall e | e in r.rest :: e.exclude == Some(node)
  {
    if n > 0 {
      SpareRoom(q, n - 1, node, cap);
    }
  }

  // ---- what a dispatch takes ----

  /** How many more jobs of a host the node may hold: eight at once. */
  function Room(poll: Poll, host: Host): nat {
    var held := if host in poll.pending then poll.pending[host] else 0;
    if held < 8 then 8 - held else 0
  }

  function Turn(s: State, host: Host, poll: Poll): Picked {
    var q := Queue(s.queues, host);
    Pick(q, |q|, poll.node, Room(poll, host))
  }

  predicate Handed(out: seq<Handout>, id: nat) {
    exists h :: h in out && h.id == id
  }

  lemma LeaseOneTakes(a: Take, id: nat, poll: Poll)
    ensures var b := LeaseOne(a, id, poll);
            && b.s.queues == a.s.queues
            && (forall x :: x in b.s.jobs <==> x in a.s.jobs)
            && (forall x :: Handed(b.out, x) <==> Handed(a.out, x) || (x == id && id in a.s.jobs))
  {
    if id in a.s.jobs {
      var h := Handout(id, a.s.jobs[id].req);
      forall x ensures Handed(a.out + [h], x) <==> Handed(a.out, x) || x == id {
        assert h in a.out + [h];
        assert forall y :: y in a.out + [h] <==> y in a.out || y == h;
      }
    }
  }

  lemma {:induction false} LeaseAllTakes(a: Take, ids: seq<nat>, n: nat, poll: Poll)
    requires n <= |ids|
    ensures var b := LeaseAll(a, ids, n, poll);
            && b.s.queues == a.s.queues
            && (forall x :: x in b.s.jobs <==> x in a.s.jobs)
            && (forall x :: Handed(b.out, x) <==> Handed(a.out, x) || (x in ids[..n] && x in a.s.jobs))
  {
    hide LeaseOne, Handed;
    if n > 0 {
      LeaseAllTakes(a, ids, n - 1, poll);
      LeaseOneTakes(LeaseAll(a, ids, n - 1, poll), ids[n - 1], poll);
      assert forall x :: x in ids[..n] <==> x in ids[..n - 1] || x == ids[n - 1];
    }
  }

  ghost predicate Taken(s: State, a: Take, hosts: seq<Host>, n: nat, poll: Poll)
    requires n <= |hosts|
  {
    && (forall host :: Queue(a.s.queues, host)
                       == if host in hosts[..n] then Turn(s, host, poll).rest else Queue(s.queues, host))
    && (forall x :: x in a.s.jobs <==> x in s.jobs)
    && (forall x :: Handed(a.out, x) <==>
          x in s.jobs && exists host :: host in hosts[..n] && x in Turn(s, host, poll).ids)
  }

  lemma RoomIsCap(poll: Poll, host: Host)
    ensures poll.Cap(host) == Room(poll, host)
  {
  }

  /** One host's turn on top of the turns before it. */
  lemma TakenMore(s: State, a: Take, b: Take, hosts: seq<Host>, n: nat, poll: Poll)
    requires 0 < n <= |hosts| && hosts[n - 1] !in hosts[..n - 1] && Taken(s, a, hosts, n - 1, poll)
    requires b.s.queues == a.s.queues[hosts[n - 1] := Turn(s, hosts[n - 1], poll).rest]
    requires forall x :: x in b.s.jobs <==> x in a.s.jobs
    requires forall x :: Handed(b.out, x) <==>
               Handed(a.out, x) || (x in Turn(s, hosts[n - 1], poll).ids && x in a.s.jobs)
    ensures Taken(s, b, hosts, n, poll)
  {
    hide Turn, Handed;
    assert forall h :: h in hosts[..n] <==> h in hosts[..n - 1] || h == hosts[n - 1];
  }

  lemma TakeHostIs(s: State, a: Take, host: Host, poll: Poll)
    requires Queue(a.s.queues, host) == Queue(s.queues, host)
    ensures var p := Turn(s, host, poll);
            TakeHost(a, host, poll)
            == LeaseAll(a.(s := a.s.(queues := a.s.queues[host := p.rest])), p.ids, |p.ids|, poll)
  {
    hide LeaseAll, Pick, Room;
    RoomIsCap(poll, host);
  }

  lemma {:induction false} TakeHostsTakes(s: State, hosts: seq<Host>, n: nat, poll: Poll)
    requires n <= |hosts| && forall i, j | 0 <= i < j < |hosts| :: hosts[i] != hosts[j]
    ensures Taken(s, TakeHosts(s, hosts, n, poll), hosts, n, poll)
  {
    hide TakeHost, LeaseAll, Pick, Handed, Turn;
    if n == 0 {
      forall x ensures !Handed([], x) { NoneHanded(x); }
    } else {
      var host := hosts[n - 1];
      var a := TakeHosts(s, hosts, n - 1, poll);
      TakeHostsTakes(s, hosts, n - 1, poll);
      assert host !in hosts[..n - 1];
      var p := Turn(s, host, poll);
      var a1 := a.(s := a.s.(queues := a.s.queues[host := p.rest]));
      TakeHostIs(s, a, host, poll);
      LeaseAllTakes(a1, p.ids, |p.ids|, poll);
      assert p.ids[..|p.ids|] == p.ids;
      hide Taken;
      TakenMore(s, a, TakeHost(a, host, poll), hosts, n, poll);
    }
  }

  lemma NoneHanded(x: nat)
    ensures !Handed([], x)
  {
  }

  /** What is handed out is the node's for two and a half minutes; nobody else's lease changes. */
  lemma DispatchLeasesFor(s: State, hosts: seq<Host>, poll: Poll, id: nat)
    requires Safe(s) && id in s.jobs
    ensures var s' := Dispatch(s, hosts, poll);
            && id in s'.jobs && s'.jobs[id].req == s.jobs[id].req
            && s'.jobs[id].lease == if Handed(TakeHosts(s, hosts, |hosts|, poll).out, id)
                                    then Some(Lease(poll.node, poll.now + 150_000)) else s.jobs[id].lease
  {
    LiveBelow(s, id);
    DispatchLeases(s, hosts, poll);
    hide Dispatch, TakeHosts, Safe, Linked, IdsOk;
    var out := TakeHosts(s, hosts, |hosts|, poll).out;
    DispatchSame(s, hosts, poll, id);
    hide OthersKeep, BrokerDispatch.Handed;
    LeaseAfter(s, Dispatch(s, hosts, poll), out, poll, id);
  }

  lemma LeaseAfter(s: State, s': State, out: seq<Handout>, poll: Poll, id: nat)
    requires BrokerDispatch.Handed(s', out, poll) && OthersKeep(s, s', out) && id in s.jobs && id in s'.jobs
    ensures s'.jobs[id].lease
         == if Handed(out, id) then Some(Lease(poll.node, poll.now + 150_000)) else s.jobs[id].lease
  {
    if Handed(out, id) {
      var h :| h in out && h.id == id;
    }
  }

  lemma LiveBelow(s: State, id: nat)
    requires Safe(s) && id in s.jobs
    ensures id < s.nextId
  {
    SafeLinked(s);
    hide SafeBut, Linked;
  }

  lemma DispatchSame(s: State, hosts: seq<Host>, poll: Poll, id: nat)
    requires id in s.jobs && id < s.nextId
    ensures id in Dispatch(s, hosts, poll).jobs && SameLife(s.jobs[id], Dispatch(s, hosts, poll).jobs[id])
  {
    hide TakeHosts, AddTwins;
    var a := TakeHosts(s, hosts, |hosts|, poll);
    TakeHostsSame(s, hosts, |hosts|, poll, id);
    AddTwinsSame(a.s, a.twins, |a.twins|, poll, id);
  }

  // ---- the twins of a dispatch ----

  lemma AddTwinQueue(s: State, h: Handout, poll: Poll, host: Host)
    ensures Queue(AddTwin(s, h, poll).queues, host)
         == Queue(s.queues, host) + (if host == h.req.host then [Entry(s.nextId, Some(poll.node))] else [])
  {
    hide Link;
    var twin := Job(h.req, false, None, 0, Some(poll.node), Some(h.id), true, poll.now);
    LinkQueues(NewJob(s, twin), h.id, s.nextId);
  }

  lemma LinkQueues(s: State, primary: nat, twin: nat)
    ensures Link(s, primary, twin).queues == s.queues && Link(s, primary, twin).nextId == s.nextId
  {
  }

  /** Twins queue up behind everything else, closed to the node being served. */
  lemma {:induction false} AddTwinsQueue(s: State, twins: seq<Handout>, n: nat, poll: Poll, host: Host)
    requires n <= |twins|
    ensures var q, q' := Queue(s.queues, host), Queue(AddTwins(s, twins, n, poll).queues, host);
            q <= q' && forall i | |q| <= i < |q'| :: q'[i].exclude == Some(poll.node)
  {
    hide AddTwin, Queue;
    if n > 0 {
      AddTwinsQueue(s, twins, n - 1, poll, host);
      AddTwinQueue(AddTwins(s, twins, n - 1, poll), twins[n - 1], poll, host);
    }
  }

  /** A dispatch serves every queue in turn: the node is handed exactly the live jobs of the first entries open to it,
      up to its room; all other entries keep their order, and if room is left every entry left is closed to it. */
  lemma DispatchIsGreedy(s: State, hosts: seq<Host>, poll: Poll, host: Host)
    requires Lists(hosts, s.queues.Keys)
    ensures var q, q' := Queue(s.queues, host), Queue(Dispatch(s, hosts, poll).queues, host);
            var p := Turn(s, host, poll);
            && InPlace(q, |q|, poll.node, Room(poll, host), p)
            && p.rest <= q'
            && (|p.ids| < Room(poll, host) ==> forall e | e in q' :: e.exclude == Some(poll.node))
            && forall id | id in p.ids && id in s.jobs :: Handed(TakeHosts(s, hosts, |hosts|, poll).out, id)
    ensures forall id | Handed(TakeHosts(s, hosts, |hosts|, poll).out, id) ::
              id in s.jobs && exists other :: other in s.queues && id in Turn(s, other, poll).ids
  {
    hide TakeHosts, AddTwins, Pick, Handed, Room, InPlace;
    var a := TakeHosts(s, hosts, |hosts|, poll);
    var q := Queue(s.queues, host);
    TakeHostsTakes(s, hosts, |hosts|, poll);
    assert hosts[..|hosts|] == hosts;
    assert host !in hosts ==> q == [];
    PickPlaces(q, |q|, poll.node, Room(poll, host));
    SpareRoom(q, |q|, poll.node, Room(poll, host));
    AddTwinsQueue(a.s, a.twins, |a.twins|, poll, host);
    assert host !in hosts ==> Turn(s, host, poll).ids == [] && Turn(s, host, poll).rest == [];
  }

  // ---- which handouts are audited ----

  /** The `i`-th handout is audited: another node could, the dice say so, and its job is a fetch's with no twin yet. */
  predicate Due(s: State, out: seq<Handout>, i: nat, poll: Poll)
    requires i < |out|
  {
    poll.auditPossible && i in poll.dice
    && out[i].id in s.jobs && !s.jobs[out[i].id].isTwin && s.jobs[out[i].id].twin.None?
  }

  ghost predicate ChosenByDice(s: State, a: Take, poll: Poll) {
    && (forall x :: x in a.s.jobs <==> x in s.jobs)
    && (forall x | x in s.jobs :: a.s.jobs[x].isTwin == s.jobs[x].isTwin && a.s.jobs[x].twin == s.jobs[x].twin)
    && (forall h | h in a.twins :: exists i: nat :: i < |a.out| && a.out[i] == h && Due(s, a.out, i, poll))
    && (forall i: nat | i < |a.out| && Due(s, a.out, i, poll) :: a.out[i] in a.twins)
  }

  lemma LeaseOneChooses(s: State, a: Take, id: nat, poll: Poll)
    requires ChosenByDice(s, a, poll)
    ensures ChosenByDice(s, LeaseOne(a, id, poll), poll)
  {
    if id in a.s.jobs {
      var b := LeaseOne(a, id, poll);
      var n := |a.out|;
      assert b.out == a.out + [b.out[n]];
      assert Due(s, b.out, n, poll) <==> b.twins == a.twins + [b.out[n]];
      assert forall i: nat | i < n :: Due(s, b.out, i, poll) <==> Due(s, a.out, i, poll);
      forall h | h in b.twins
        ensures exists i: nat :: i < |b.out| && b.out[i] == h && Due(s, b.out, i, poll)
      {
        if h in a.twins {
          var i: nat :| i < |a.out| && a.out[i] == h && Due(s, a.out, i, poll);
          assert b.out[i] == h && Due(s, b.out, i, poll);
        } else {
          assert b.out[n] == h && Due(s, b.out, n, poll);
        }
      }
    }
  }

  lemma {:induction false} LeaseAllChooses(s: State, a: Take, ids: seq<nat>, n: nat, poll: Poll)
    requires n <= |ids| && ChosenByDice(s, a, poll)
    ensures ChosenByDice(s, LeaseAll(a, ids, n, poll), poll)
  {
    hide ChosenByDice, LeaseOne;
    if n > 0 {
      LeaseAllChooses(s, a, ids, n - 1, poll);
      LeaseOneChooses(s, LeaseAll(a, ids, n - 1, poll), ids[n - 1], poll);
    }
  }

  lemma QueuesChoose(s: State, a: Take, queues: Queues, poll: Poll)
    requires ChosenByDice(s, a, poll)
    ensures ChosenByDice(s, a.(s := a.s.(queues := queues)), poll)
  {
  }

  lemma {:induction false} TakeHostsChooses(s: State, hosts: seq<Host>, n: nat, poll: Poll)
    requires n <= |hosts|
    ensures ChosenByDice(s, TakeHosts(s, hosts, n, poll), poll)
  {
    hide LeaseAll, Pick;
    if n > 0 {
      TakeHostsChooses(s, hosts, n - 1, poll);
      hide ChosenByDice;
      var a := TakeHosts(s, hosts, n - 1, poll);
      var q := Queue(a.s.queues, hosts[n - 1]);
      var p := Pick(q, |q|, poll.node, poll.Cap(hosts[n - 1]));
      var queues := a.s.queues[hosts[n - 1] := p.rest];
      QueuesChoose(s, a, queues, poll);
      LeaseAllChooses(s, a.(s := a.s.(queues := queues)), p.ids, |p.ids|, poll);
    }
  }

  /** `t` is the twin made for handout `h`: queued for any other node, its audit open, and no body in it yet. */
  ghost predicate TwinMade(s: State, t: nat, h: Handout, poll: Poll) {
    && t in s.jobs && s.jobs[t] == Job(h.req, false, None, 0, Some(poll.node), Some(h.id), true, poll.now)
    && t in s.audits && s.audits[t] == AuditPair(h.req, poll.node, None, None, None)
    && t in s.owner && s.owner[t] == h.id
    && Entry(t, Some(poll.node)) in Queue(s.queues, h.req.host)
  }

  lemma AddTwinMakes(s: State, h: Handout, poll: Poll, x: nat)
    requires h.id in s.jobs && h.id < s.nextId
    ensures var s' := AddTwin(s, h, poll);
            && TwinMade(s', s.nextId, h, poll) && s'.nextId == s.nextId + 1
            && (x in s.jobs && x != s.nextId ==>
                  x in s'.jobs && s'.jobs[x] == if x == h.id then s.jobs[x].(twin := Some(s.nextId)) else s.jobs[x])
  {
    AddTwinQueue(s, h, poll, h.req.host);
    hide Queue, Push;
    AddTwinIs(s, h, poll);
  }

  lemma AddTwinIs(s: State, h: Handout, poll: Poll)
    requires h.id in s.jobs && h.id < s.nextId
    ensures var s' := AddTwin(s, h, poll);
            var twin := Job(h.req, false, None, 0, Some(poll.node), Some(h.id), true, poll.now);
            && s'.jobs == s.jobs[s.nextId := twin][h.id := s.jobs[h.id].(twin := Some(s.nextId))]
            && s'.audits == s.audits[s.nextId := AuditPair(h.req, poll.node, None, None, None)]
            && s'.owner == s.owner[s.nextId := h.id] && s'.nextId == s.nextId + 1
  {
    hide Queue;
  }

  /** A twin made stays as made while others are. */
  lemma TwinStays(s: State, h: Handout, poll: Poll, t: nat, g: Handout)
    requires h.id in s.jobs && h.id < t < s.nextId && TwinMade(s, t, g, poll)
    ensures TwinMade(AddTwin(s, h, poll), t, g, poll)
  {
    AddTwinQueue(s, h, poll, g.req.host);
    AddTwinIs(s, h, poll);
    hide Queue, AddTwin;
  }

  /** One of the first `n` handouts chosen is of job `x`. */
  ghost predicate Chosen(twins: seq<Handout>, n: nat, x: nat)
    requires n <= |twins|
  {
    exists i :: 0 <= i < n && twins[i].id == x
  }

  /** `t` is a twin made for one of the first `n` handouts chosen, which is of job `x`. */
  ghost predicate TwinOf(s: State, t: nat, twins: seq<Handout>, n: nat, poll: Poll, x: nat)
    requires n <= |twins|
  {
    exists i :: 0 <= i < n && twins[i].id == x && TwinMade(s, t, twins[i], poll)
  }

  /** Each chosen job has a new twin of its own; the twin link of every other job is as it was. */
  ghost predicate Audited(s: State, s': State, twins: seq<Handout>, n: nat, poll: Poll, x: nat)
    requires n <= |twins| && x in s.jobs
  {
    && x in s'.jobs && s'.nextId == s.nextId + n
    && if Chosen(twins, n, x) then
         var link := s'.jobs[x].twin;
         link.Some? && s.nextId <= link.value < s'.nextId && TwinOf(s', link.value, twins, n, poll, x)
       else s'.jobs[x].twin == s.jobs[x].twin
  }

  lemma {:induction false} AddTwinsAudit(s: State, twins: seq<Handout>, n: nat, poll: Poll, x: nat)
    requires n <= |twins| && forall h | h in twins :: h.id in s.jobs && h.id < s.nextId
    requires x in s.jobs && x < s.nextId
    ensures Audited(s, AddTwins(s, twins, n, poll), twins, n, poll, x)
  {
    hide AddTwin, TwinMade;
    if n > 0 {
      var h, s1 := twins[n - 1], AddTwins(s, twins, n - 1, poll);
      AddTwinsAudit(s, twins, n - 1, poll, x);
      assert h in twins;
      AddTwinsSame(s, twins, n - 1, poll, h.id);
      AddTwinMakes(s1, h, poll, x);
      if x != h.id && Chosen(twins, n - 1, x) {
        var t := s1.jobs[x].twin.value;
        var i :| 0 <= i < n - 1 && twins[i].id == x && TwinMade(s1, t, twins[i], poll);
        TwinStays(s1, h, poll, t, twins[i]);
      }
    }
  }

  /** After a dispatch a job has a new twin, made for one of its handouts, if and only if the dice named one of them
      and it could be audited; every other job keeps its link. */
  lemma DispatchAudits(s: State, hosts: seq<Host>, poll: Poll, x: nat)
    requires Safe(s) && x in s.jobs
    ensures var a := TakeHosts(s, hosts, |hosts|, poll);
            && ChosenByDice(s, a, poll)
            && Audited(a.s, Dispatch(s, hosts, poll), a.twins, |a.twins|, poll, x) && a.s.nextId == s.nextId
  {
    SafeLinked(s);
    hide Safe, TakeHosts, AddTwins, Audited, SameLife;
    var a := TakeHosts(s, hosts, |hosts|, poll);
    TakeHostsChooses(s, hosts, |hosts|, poll);
    TakeHostsSame(s, hosts, |hosts|, poll, x);
    AddTwinsAudit(a.s, a.twins, |a.twins|, poll, x);
  }

  // ---- the back of the queue ----

  /** A fetch queues its job last on its own host, and nowhere else. */
  lemma FetchGoesLast(s: State, req: Request, now: nat, host: Host)
    ensures var s' := Fetch(s, req, now);
            && Queue(s'.queues, host)
               == Queue(s.queues, host) + (if host == req.host then [Entry(s.nextId, None)] else [])
            && s'.nextId == s.nextId + 1
            && s'.jobs == s.jobs[s.nextId := Job(req, true, None, 0, None, None, false, now)]
  {
  }

  /** A job put back without a failure is free, otherwise as it was, and last on its own host. */
  lemma PutBackGoesLast(s: State, node: nat, id: nat, host: Host)
    requires id in s.jobs && (s.jobs[id].lease.None? || s.jobs[id].lease.value.node == node)
    ensures var s' := Report(s, node, id, KeyRejected);
            && s'.jobs == s.jobs[id := s.jobs[id].(lease := None)]
            && Queue(s'.queues, host)
               == Queue(s.queues, host)
                  + (if host == s.jobs[id].req.host then [Entry(id, s.jobs[id].exclude)] else [])
  {
  }

  /** So is a job whose report of failure is not its sixth. */
  lemma FailedGoesLast(s: State, node: nat, id: nat, host: Host)
    requires id in s.jobs && (s.jobs[id].lease.None? || s.jobs[id].lease.value.node == node)
    requires s.jobs[id].attempts + 1 < 6
    ensures var s' := Report(s, node, id, Failed);
            && s'.jobs == s.jobs[id := s.jobs[id].(lease := None, attempts := s.jobs[id].attempts + 1)]
            && Queue(s'.queues, host)
               == Queue(s.queues, host)
                  + (if host == s.jobs[id].req.host then [Entry(id, s.jobs[id].exclude)] else [])
  {
  }

  // ---- what a sweep leaves alone ----

  /** A waiting fetch whose lease is not past its time is untouched by a sweep. */
  lemma SweepKeeps(s: State, now: nat, expired: seq<nat>, x: nat)
    requires Safe(s) && Waits(s, x) && Lists(expired, Expired(s, now))
    requires s.jobs[x].lease.None? || s.jobs[x].lease.value.until > now
    ensures x in Sweep(s, now, expired).jobs && Sweep(s, now, expired).jobs[x] == s.jobs[x]
  {
    hide Safe, ReleaseAll;
    ReleaseAllTells(s, expired, |expired|, x);
    assert expired[..|expired|] == expired;
  }

  /** Twin `x` goes with its primary, given up for good among the first `n`. */
  ghost predicate PrimaryGone(s: State, ids: seq<nat>, n: nat, x: nat)
    requires n <= |ids|
  {
    exists p :: p in ids[..n] && p in s.jobs && !s.jobs[p].isTwin && s.jobs[p].twin == Some(x)
                && s.jobs[p].attempts + 1 >= 6
  }

  lemma AbandonKeepsTwin(s: State, id: nat, x: nat)
    requires x in s.jobs && x != id
    requires id in s.jobs ==> s.jobs[id].isTwin || s.jobs[id].twin != Some(x)
    ensures x in Abandon(s, id).jobs && Abandon(s, id).jobs[x] == s.jobs[x]
  {
    if id in s.jobs {
      RemoveTables(s, id, Abandoned);
    }
    hide Remove;
  }

  lemma ReleaseKeepsOthers(s: State, id: nat, x: nat)
    requires x in s.jobs && x != id
    requires id in s.jobs && s.jobs[id].attempts + 1 >= 6 ==> s.jobs[id].isTwin || s.jobs[id].twin != Some(x)
    ensures x in Release(s, id, true).jobs && Release(s, id, true).jobs[x] == s.jobs[x]
  {
    hide Abandon;
    if id in s.jobs {
      var s1 := CountFailure(Unlease(s, id), id);
      FailureSame(s, id);
      if s.jobs[id].attempts + 1 >= 6 {
        AbandonKeepsTwin(s1, id, x);
      }
    }
  }

  lemma ReleaseKeepsOwn(s: State, id: nat)
    requires id in s.jobs && s.jobs[id].attempts + 1 < 6
    ensures id in Release(s, id, true).jobs
    ensures Release(s, id, true).jobs[id] == s.jobs[id].(lease := None, attempts := s.jobs[id].attempts + 1)
  {
    FailureSame(s, id);
  }

  /** What is left of a job was there, with the same link and at least as many failures as counted. */
  lemma {:induction false} ReleaseAllFrom(s: State, ids: seq<nat>, n: nat, x: nat)
    requires n <= |ids| && x in ReleaseAll(s, ids, n).jobs && x !in ids[..n]
    ensures x in s.jobs && ReleaseAll(s, ids, n).jobs[x].isTwin == s.jobs[x].isTwin
            && ReleaseAll(s, ids, n).jobs[x].twin == s.jobs[x].twin
            && ReleaseAll(s, ids, n).jobs[x].attempts == s.jobs[x].attempts
  {
    hide Release;
    if n > 0 {
      ReleaseFrom(ReleaseAll(s, ids, n - 1), ids[n - 1], x);
      assert x !in ids[..n - 1] && x != ids[n - 1] by { assert ids[..n] == ids[..n - 1] + [ids[n - 1]]; }
      ReleaseAllFrom(s, ids, n - 1, x);
    }
  }

  lemma ReleaseFrom(s: State, id: nat, x: nat)
    requires x in Release(s, id, true).jobs && x != id
    ensures x in s.jobs && Release(s, id, true).jobs[x] == s.jobs[x]
  {
    if id in s.jobs {
      var s1 := CountFailure(Unlease(s, id), id);
      FailureSame(s, id);
      AbandonSubset(s1, id, x);
      hide Abandon;
    }
  }

  /** A twin survives the releases unless it is given up itself or goes with its primary. */
  lemma {:induction false} ReleaseAllKeepsTwin(s: State, ids: seq<nat>, n: nat, x: nat)
    requires n <= |ids| && forall i, j | 0 <= i < j < |ids| :: ids[i] != ids[j]
    requires x in s.jobs && s.jobs[x].isTwin && !PrimaryGone(s, ids, n, x)
    requires x in ids[..n] ==> s.jobs[x].attempts + 1 < 6
    ensures x in ReleaseAll(s, ids, n).jobs
    ensures ReleaseAll(s, ids, n).jobs[x]
         == if x in ids[..n] then s.jobs[x].(lease := None, attempts := s.jobs[x].attempts + 1) else s.jobs[x]
  {
    hide Release;
    if n > 0 {
      var id, s1 := ids[n - 1], ReleaseAll(s, ids, n - 1);
      assert ids[..n] == ids[..n - 1] + [id];
      assert id !in ids[..n - 1];
      ReleaseAllKeepsTwin(s, ids, n - 1, x);
      if id == x {
        ReleaseKeepsOwn(s1, x);
      } else {
        if id in s1.jobs {
          ReleaseAllFrom(s, ids, n - 1, id);
          assert id in ids[..n];
        }
        ReleaseKeepsOthers(s1, id, x);
      }
    }
  }

  /** A sweep drops a twin only when nobody took it in time, its own failures are used up, or its primary is given
      up; any other twin stays, as it was unless its lease had run out. */
  lemma SweepKeepsTwin(s: State, now: nat, expired: seq<nat>, x: nat)
    requires Lists(expired, Expired(s, now)) && x in s.jobs && s.jobs[x].isTwin
    requires !PrimaryGone(s, expired, |expired|, x)
    requires var late := s.jobs[x].lease.Some? && s.jobs[x].lease.value.until <= now;
             && (late ==> s.jobs[x].attempts + 1 < 6)
             && (late || s.jobs[x].lease.None? ==> now <= s.jobs[x].created + 600_000)
    ensures x in Sweep(s, now, expired).jobs
    ensures s.jobs[x].lease.Some? && s.jobs[x].lease.value.until > now ==>
              Sweep(s, now, expired).jobs[x] == s.jobs[x]
  {
    hide ReleaseAll;
    assert expired[..|expired|] == expired;
    ReleaseAllKeepsTwin(s, expired, |expired|, x);
  }
}
