/**
 What holds besides when failure and key-rejected reports only come from the node
 that still holds the lease: no job is queued twice, no leased job is queued, and
 every open audit has the jobs that will close it.
 */
module BrokerOnce {
  import opened Results
  import opened BrokerSpec
  import opened BrokerProof

  /** A bad report counts only from the current lease holder. */
  predicate Disciplined(s: State, step: Step) {
    step.DoReport? && !step.outcome.Answer? && step.id in s.jobs ==>
      s.jobs[step.id].lease.Some? && s.jobs[step.id].lease.value.node == step.node
  }

  ghost predicate AllDisciplined(steps: seq<Step>) {
    forall i | 0 <= i < |steps| :: Disciplined(Run(steps, i), steps[i])
  }

  function Due(job: Job): nat { if job.lease.None? then 1 else 0 }

  /** A live job is queued exactly once when unleased and not at all when leased. */
  ghost predicate Once(s: State, but: set<nat>) {
    forall id | id in s.jobs && id !in but :: Entries(s.queues, s.jobs[id].req.host, id) == Due(s.jobs[id])
  }

  /** Each twin has one owner and each owner one twin; no owner is a twin itself. */
  ghost predicate Owners(s: State) {
    && (forall t | t in s.owner :: t < s.nextId && s.owner[t] < s.nextId && s.owner[t] !in s.owner)
    && (forall t, u | t in s.owner && u in s.owner && s.owner[t] == s.owner[u] :: t == u)
  }

  /** Twins and the primaries that own them point at each other. */
  ghost predicate Crosslinked(s: State) {
    && (forall t | t in s.owner && s.owner[t] in s.jobs ::
          !s.jobs[s.owner[t]].isTwin && s.jobs[s.owner[t]].twin == Some(t))
    && (forall t | t in s.jobs && s.jobs[t].isTwin :: t in s.owner && s.jobs[t].twin == Some(s.owner[t]))
    && (forall t | t in s.owner && t in s.jobs :: s.jobs[t].isTwin)
    && (forall p | p in s.jobs && !s.jobs[p].isTwin && s.jobs[p].twin.Some? :: s.jobs[p].twin.value in s.owner)
  }

  ghost predicate Owned(s: State) {
    Owners(s) && Crosslinked(s)
  }

  /** An audit still missing a body has the job that will bring it. */
  ghost predicate Paired(s: State) {
    forall t | t in s.audits :: PairOk(s, t)
  }

  ghost predicate PairOk(s: State, t: nat)
    requires t in s.audits
  {
    && (s.audits[t].primary.None? || s.audits[t].twin.None?)
    && (s.audits[t].twin.None? ==> t in s.jobs && s.jobs[t].isTwin)
    && (s.audits[t].primary.None? ==> t in s.owner && s.owner[t] in s.jobs)
  }

  ghost predicate Tidy(s: State, but: set<nat>) {
    Once(s, but) && Owned(s) && Paired(s)
  }

  // ---- jobs that keep what they were made with ----

  /** Only leases, failure counts and queues differ. */
  ghost predicate SameLives(s: State, s': State) {
    && s'.jobs.Keys == s.jobs.Keys && s'.audits == s.audits && s'.owner == s.owner && s'.nextId == s.nextId
    && (forall id | id in s.jobs :: SameJob(s.jobs[id], s'.jobs[id]))
  }

  lemma SameLivesOwned(s: State, s': State)
    requires Owned(s) && Paired(s) && SameLives(s, s')
    ensures Owned(s') && Paired(s')
  {
    assert forall id :: id in s.jobs <==> id in s'.jobs;
  }

  lemma FailureTidy(s: State, id: nat, but: set<nat>)
    requires Tidy(s, but) && id in s.jobs
    ensures Tidy(CountFailure(s, id), but)
  {
    hide Owned, Paired, Entries;
    SameLivesOwned(s, CountFailure(s, id));
  }

  lemma UnleaseTidy(s: State, id: nat)
    requires Tidy(s, {}) && id in s.jobs
    ensures Tidy(Unlease(s, id), {id})
  {
    hide Owned, Paired, Entries;
    SameLivesOwned(s, Unlease(s, id));
  }

  lemma PushTidy(s: State, host: Host, e: Entry)
    requires Tidy(s, {e.id}) && e.id in s.jobs && s.jobs[e.id].req.host == host && s.jobs[e.id].lease.None?
    requires Entries(s.queues, host, e.id) == 0
    ensures Tidy(Push(s, host, e), {})
  {
    hide Owned, Paired, Entries;
    var s' := Push(s, host, e);
    SameLivesOwned(s, s');
    forall id | id in s'.jobs ensures Entries(s'.queues, s'.jobs[id].req.host, id) == Due(s'.jobs[id]) {
      PushEntries(s.queues, host, e, s.jobs[id].req.host, id);
    }
  }

  // ---- removing jobs ----

  lemma RemoveOwned(s: State, ids: set<nat>)
    requires Owned(s)
    ensures Owned(s.(jobs := s.jobs - ids))
  {
  }

  lemma RemoveOnce(s: State, ids: set<nat>, but: set<nat>, less: set<nat>)
    requires Once(s, but) && but <= less + ids
    ensures Once(s.(jobs := s.jobs - ids), less)
  {
    hide Entries;
  }

  function Gone(s: State, id: nat): set<nat>
    requires id in s.jobs
  {
    if !s.jobs[id].isTwin && s.jobs[id].twin.Some? then {id, s.jobs[id].twin.value} else {id}
  }

  lemma GoneOwners(s: State, id: nat, t: nat)
    requires Owned(s) && id in s.jobs && t in s.owner && s.owner[t] in Gone(s, id)
    ensures t in Gone(s, id) && !s.jobs[id].isTwin && s.jobs[id].twin == Some(t)
  {
  }

  /** A job goes for good, and its audit with it; a primary's twin goes too. */
  lemma AbandonPaired(s: State, id: nat)
    requires Owned(s) && Paired(s) && id in s.jobs
    ensures Paired(Abandon(s, id))
  {
    AbandonJobs(s, id);
    hide Remove, Owned, Paired;
    var s' := Abandon(s, id);
    forall t | t in s'.audits
      ensures t in s.audits && s'.audits[t] == s.audits[t] && t !in Gone(s, id)
              && (t in s.owner ==> s.owner[t] !in Gone(s, id))
    {
      if t in s.owner && s.owner[t] in Gone(s, id) {
        GoneOwners(s, id, t);
      }
    }
    hide Abandon, Gone;
    PairedRest(s, s', Gone(s, id));
  }

  lemma PairedRest(s: State, s': State, gone: set<nat>)
    requires Paired(s) && s'.jobs == s.jobs - gone && s'.owner == s.owner
    requires forall t | t in s'.audits ::
               t in s.audits && s'.audits[t] == s.audits[t] && t !in gone && (t in s.owner ==> s.owner[t] !in gone)
    ensures Paired(s')
  {
  }

  lemma AbandonJobs(s: State, id: nat)
    requires id in s.jobs
    ensures var s' := Abandon(s, id);
            s'.jobs == s.jobs - Gone(s, id) && s'.queues == s.queues && s'.owner == s.owner && s'.nextId == s.nextId
  {
    RemoveTables(s, id, Abandoned);
    hide Remove;
    if !s.jobs[id].isTwin && s.jobs[id].twin.Some? {
      assert s.jobs - {id} - {s.jobs[id].twin.value} == s.jobs - {id, s.jobs[id].twin.value};
    }
  }

  lemma AbandonTidy(s: State, id: nat)
    requires Tidy(s, {id}) && id in s.jobs
    ensures Tidy(Abandon(s, id), {})
  {
    hide Owned, Paired, Once, Abandon;
    AbandonPaired(s, id);
    AbandonJobs(s, id);
    var gone := Gone(s, id);
    RemoveOwned(s, gone);
    RemoveOnce(s, gone, {id}, {});
    OtherFields(s.(jobs := s.jobs - gone), Abandon(s, id));
  }

  lemma OtherFields(s: State, s': State)
    requires s'.jobs == s.jobs && s'.queues == s.queues && s'.owner == s.owner && s'.nextId == s.nextId
    ensures Once(s, {}) ==> Once(s', {})
    ensures Owned(s) ==> Owned(s')
  {
  }

  lemma WidenTidy(s: State, but: set<nat>)
    requires Tidy(s, {})
    ensures Tidy(s, but)
  {
  }

  /** The audit a job belongs to. */
  function Mine(s: State, id: nat): Option<nat>
    requires id in s.jobs
  {
    if s.jobs[id].isTwin then Some(id) else s.jobs[id].twin
  }

  function Filled(pair: AuditPair, isTwin: bool, node: nat, body: AuditBody): AuditPair {
    if isTwin then pair.(twinNode := Some(node), twin := Some(body)) else pair.(primary := Some(body))
  }

  /** A body closes its audit when the other one is there, and is kept in it otherwise. */
  lemma CompleteAudits(s: State, node: nat, id: nat, body: AuditBody)
    requires id in s.jobs
    ensures var audits := Complete(s, node, id, body).audits;
            match Mine(s, id)
            case None => audits == s.audits
            case Some(t) =>
              if t !in s.audits then audits == s.audits
              else
                var pair := Filled(s.audits[t], s.jobs[id].isTwin, node, body);
                audits == if pair.primary.Some? && pair.twin.Some? then s.audits - {t} else s.audits[t := pair]
  {
    RemoveTables(s, id, Body(body));
    hide Remove;
    match Mine(s, id)
    case None =>
    case Some(t) =>
      if t in s.audits {
        var pair := Filled(s.audits[t], s.jobs[id].isTwin, node, body);
        assert s.audits[t := pair] - {t} == s.audits - {t};
      }
  }

  lemma MineOwners(s: State, id: nat, t: nat)
    requires Owned(s) && id in s.jobs && t in s.owner && s.owner[t] == id
    ensures Mine(s, id) == Some(t) && !s.jobs[id].isTwin
  {
  }

  /** Another job's audit is not touched. */
  lemma OtherPair(s: State, node: nat, id: nat, body: AuditBody, t: nat)
    requires Owned(s) && id in s.jobs && t in s.audits && PairOk(s, t) && Mine(s, id) != Some(t)
    ensures t in Complete(s, node, id, body).audits && PairOk(Complete(s, node, id, body), t)
  {
    CompleteJobs(s, node, id, body);
    CompleteAudits(s, node, id, body);
    if t in s.owner && s.owner[t] == id {
      MineOwners(s, id, t);
    }
    hide Complete, Owned;
  }

  lemma OwnPair(s: State, node: nat, id: nat, body: AuditBody, t: nat)
    requires Owned(s) && id in s.jobs && t in s.audits && PairOk(s, t) && Mine(s, id) == Some(t)
    requires t in Complete(s, node, id, body).audits
    ensures PairOk(Complete(s, node, id, body), t)
  {
    CompleteJobs(s, node, id, body);
    CompleteAudits(s, node, id, body);
    OwnersDiffer(s);
    if !s.jobs[id].isTwin {
      NotOwnTwin(s, id);
    }
    hide Complete, Owned;
  }

  lemma NotOwnTwin(s: State, id: nat)
    requires Owned(s) && id in s.jobs && !s.jobs[id].isTwin
    ensures s.jobs[id].twin != Some(id)
  {
  }

  lemma CompletePaired(s: State, node: nat, id: nat, body: AuditBody)
    requires Owned(s) && Paired(s) && id in s.jobs
    ensures Paired(Complete(s, node, id, body))
  {
    CompleteAudits(s, node, id, body);
    hide Complete, Owned;
    var s' := Complete(s, node, id, body);
    forall t | t in s'.audits ensures PairOk(s', t) {
      assert t in s.audits && PairOk(s, t);
      if Mine(s, id) == Some(t) {
        OwnPair(s, node, id, body, t);
      } else {
        OtherPair(s, node, id, body, t);
      }
    }
  }

  /** No twin owns itself. */
  lemma OwnersDiffer(s: State)
    requires Owned(s)
    ensures forall t | t in s.owner :: s.owner[t] != t
  {
  }

  lemma CompleteJobs(s: State, node: nat, id: nat, body: AuditBody)
    requires id in s.jobs
    ensures var s' := Complete(s, node, id, body);
            s'.jobs == s.jobs - {id} && s'.queues == s.queues && s'.owner == s.owner && s'.nextId == s.nextId
  {
    RemoveTables(s, id, Body(body));
    hide Remove;
  }

  lemma CompleteTidy(s: State, node: nat, id: nat, body: AuditBody)
    requires Tidy(s, {}) && id in s.jobs
    ensures Tidy(Complete(s, node, id, body), {})
  {
    hide Owned, Paired, Once, Complete;
    CompletePaired(s, node, id, body);
    CompleteJobs(s, node, id, body);
    RemoveOwned(s, {id});
    RemoveOnce(s, {id}, {}, {});
    OtherFields(s.(jobs := s.jobs - {id}), Complete(s, node, id, body));
  }

  /** Stale twins take their audits with them; no primary goes. */
  lemma DropTidy(s: State, ids: set<nat>)
    requires Tidy(s, {}) && forall id | id in ids :: id in s.jobs && s.jobs[id].isTwin
    ensures Tidy(DropTwins(s, ids), {})
  {
    hide Once;
    RemoveOnce(s, ids, {}, {});
    RemoveOwned(s, ids);
    OtherFields(s.(jobs := s.jobs - ids), DropTwins(s, ids));
    assert Paired(DropTwins(s, ids));
    hide Owned, Paired;
  }

  // ---- reports and expired leases ----

  /** Putting back a leased job queues it once. */
  lemma ReleaseTidy(s: State, id: nat, counted: bool)
    requires Tidy(s, {}) && (id in s.jobs ==> s.jobs[id].lease.Some?)
    ensures Tidy(Release(s, id, counted), {})
  {
    if id in s.jobs {
      var s1 := Unlease(s, id);
      assert Entries(s.queues, s.jobs[id].req.host, id) == 0;
      hide Once, Owned, Paired, Abandon, Entries;
      UnleaseTidy(s, id);
      if !counted {
        PushTidy(s1, s1.jobs[id].req.host, Entry(id, s1.jobs[id].exclude));
      } else {
        var s2 := CountFailure(s1, id);
        FailureTidy(s1, id, {id});
        if s2.jobs[id].attempts >= MAX_ATTEMPTS {
          AbandonTidy(s2, id);
        } else {
          PushTidy(s2, s2.jobs[id].req.host, Entry(id, s2.jobs[id].exclude));
        }
      }
    }
  }

  lemma ReportTidy(s: State, node: nat, id: nat, outcome: Outcome)
    requires Tidy(s, {}) && Disciplined(s, DoReport(node, id, outcome))
    ensures Tidy(Report(s, node, id, outcome), {})
  {
    hide Once, Owned, Paired, Abandon, Complete, Release;
    if Accepted(s, node, id) {
      match outcome
      case Answer(body) => CompleteTidy(s, node, id, body);
      case KeyRejected => ReleaseTidy(s, id, false);
      case Failed =>
        var s1 := CountFailure(s, id);
        FailureTidy(s, id, {});
        if s1.jobs[id].attempts >= MAX_ATTEMPTS {
          WidenTidy(s1, {id});
          AbandonTidy(s1, id);
        } else {
          ReleaseTidy(s1, id, false);
        }
    }
  }

  /** Releasing one job leaves every other lease as it was. */
  lemma ReleaseOthers(s: State, id: nat, other: nat)
    requires other != id && other in Release(s, id, true).jobs
    ensures other in s.jobs && s.jobs[other].lease == Release(s, id, true).jobs[other].lease
  {
    if id in s.jobs {
      AbandonJobs(CountFailure(Unlease(s, id), id), id);
      hide Abandon;
    }
  }

  lemma {:induction false} ReleaseAllTidy(s: State, ids: seq<nat>, n: nat)
    requires n <= |ids| && Tidy(s, {}) && (forall i, j | 0 <= i < j < |ids| :: ids[i] != ids[j])
    requires forall i | 0 <= i < |ids| && ids[i] in s.jobs :: s.jobs[ids[i]].lease.Some?
    ensures var s' := ReleaseAll(s, ids, n);
            && Tidy(s', {})
            && (forall i | n <= i < |ids| && ids[i] in s'.jobs :: s'.jobs[ids[i]].lease.Some?)
  {
    hide Tidy, Release;
    if n > 0 {
      ReleaseAllTidy(s, ids, n - 1);
      var s1 := ReleaseAll(s, ids, n - 1);
      ReleaseTidy(s1, ids[n - 1], true);
      var s2 := Release(s1, ids[n - 1], true);
      forall i | n <= i < |ids| && ids[i] in s2.jobs ensures s2.jobs[ids[i]].lease.Some? {
        ReleaseOthers(s1, ids[n - 1], ids[i]);
      }
    }
  }

  // ---- new jobs ----

  lemma NewIdNotQueued(s: State, host: Host)
    requires IdsOk(s)
    ensures Entries(s.queues, host, s.nextId) == 0
  {
    var q := Queue(s.queues, host);
    CountIn(q, |q|, s.nextId);
    forall i | 0 <= i < |q| ensures q[i].id != s.nextId {
      assert q[i] in s.queues[host];
    }
  }

  lemma FetchOwned(s: State, job: Job)
    requires Owned(s) && Paired(s) && IdsOk(s) && !job.isTwin && job.twin.None?
    ensures Owned(NewJob(s, job)) && Paired(NewJob(s, job))
  {
    var s1 := NewJob(s, job);
    assert Owners(s1) by { hide Crosslinked, Paired, IdsOk; }
    assert Crosslinked(s1) by { hide Paired; }
    assert Paired(s1) by { hide Owners, Crosslinked; }
    hide Owners, Crosslinked, Paired;
  }

  lemma FetchTidy(s: State, req: Request, now: nat)
    requires Tidy(s, {}) && IdsOk(s)
    ensures Tidy(Fetch(s, req, now), {})
  {
    hide Owned, Paired, Entries;
    var job := Job(req, true, None, 0, None, None, false, now);
    var s1 := NewJob(s, job);
    NewIdNotQueued(s, req.host);
    FetchOwned(s, job);
    assert Once(s1, {s.nextId});
    hide Once, IdsOk;
    PushTidy(s1, req.host, Entry(s.nextId, None));
  }

  /** The state with a new twin made, linked and its audit opened, but not queued yet. */
  function Twinned(s: State, h: Handout, poll: Poll): State {
    var twin := Job(h.req, false, None, 0, Some(poll.node), Some(h.id), true, poll.now);
    OpenAudit(Link(NewJob(s, twin), h.id, s.nextId), s.nextId, h, poll.node)
  }

  lemma TwinOwners(s: State, h: Handout, poll: Poll)
    requires Owned(s) && IdsOk(s) && h.id in s.jobs && !s.jobs[h.id].isTwin && s.jobs[h.id].twin.None?
    ensures Owners(Twinned(s, h, poll))
  {
    assert h.id !in s.owner;
    forall t | t in s.owner ensures s.owner[t] != h.id {
    }
    hide Crosslinked;
  }

  lemma TwinCrosslinked(s: State, h: Handout, poll: Poll)
    requires Owned(s) && IdsOk(s) && h.id in s.jobs && !s.jobs[h.id].isTwin && s.jobs[h.id].twin.None?
    ensures Crosslinked(Twinned(s, h, poll))
  {
  }

  lemma TwinPaired(s: State, h: Handout, poll: Poll)
    requires Paired(s) && IdsOk(s) && h.id in s.jobs && !s.jobs[h.id].isTwin && s.jobs[h.id].twin.None?
    ensures Paired(Twinned(s, h, poll))
  {
  }

  lemma AddTwinTidy(s: State, h: Handout, poll: Poll)
    requires Tidy(s, {}) && IdsOk(s)
    requires h.id in s.jobs && !s.jobs[h.id].isTwin && s.jobs[h.id].twin.None? && s.jobs[h.id].req == h.req
    ensures Tidy(AddTwin(s, h, poll), {})
  {
    var t := s.nextId;
    var twin := Job(h.req, false, None, 0, Some(poll.node), Some(h.id), true, poll.now);
    var s1 := Twinned(s, h, poll);
    TwinOwners(s, h, poll);
    TwinCrosslinked(s, h, poll);
    TwinPaired(s, h, poll);
    NewIdNotQueued(s, h.req.host);
    assert h.id != t;
    assert Once(s1, {t}) by { hide Entries, Owned, Paired; }
    hide Once, Owned, Paired, Entries;
    PushTidy(s1, h.req.host, Entry(t, Some(poll.node)));
  }

  // ---- dispatch ----

  /** The picked ids from the `n`-th on still count as queued. */
  ghost predicate OnceMoving(s: State, ids: seq<nat>, n: nat)
    requires n <= |ids|
  {
    forall id | id in s.jobs ::
      Entries(s.queues, s.jobs[id].req.host, id) + Times(ids, |ids|, id) == Times(ids, n, id) + Due(s.jobs[id])
  }

  /** Each job to be audited is a leased primary without a twin, listed once. */
  ghost predicate Chosen(a: Take) {
    && (forall i, j | 0 <= i < j < |a.twins| :: a.twins[i].id != a.twins[j].id)
    && (forall h | h in a.twins ::
          && h.id in a.s.jobs && a.s.jobs[h.id].lease.Some? && a.s.jobs[h.id].req == h.req
          && !a.s.jobs[h.id].isTwin && a.s.jobs[h.id].twin.None?)
  }

  lemma {:induction false} TimesGrows(ids: seq<nat>, n: nat, m: nat, id: nat)
    requires n <= m <= |ids|
    ensures Times(ids, n, id) <= Times(ids, m, id)
    ensures n < m && ids[n] == id ==> Times(ids, n, id) < Times(ids, m, id)
  {
    if n < m {
      TimesGrows(ids, n, m - 1, id);
    }
  }

  lemma LeaseOneOnce(a: Take, ids: seq<nat>, n: nat, poll: Poll)
    requires n < |ids| && OnceMoving(a.s, ids, n)
    ensures OnceMoving(LeaseOne(a, ids[n], poll).s, ids, n + 1)
    ensures ids[n] in a.s.jobs ==> a.s.jobs[ids[n]].lease.None?
  {
    hide Entries;
    TimesGrows(ids, n, |ids|, ids[n]);
    forall id ensures Times(ids, n + 1, id) == Times(ids, n, id) + (if ids[n] == id then 1 else 0) {
    }
    TimesGrows(ids, n + 1, |ids|, ids[n]);
  }

  lemma LeaseOneChosen(a: Take, id: nat, poll: Poll)
    requires Chosen(a) && (id in a.s.jobs ==> a.s.jobs[id].lease.None?)
    ensures Chosen(LeaseOne(a, id, poll))
  {
  }

  lemma LeaseOneLives(a: Take, id: nat, poll: Poll)
    ensures SameLives(a.s, LeaseOne(a, id, poll).s)
  {
  }

  lemma {:induction false} LeaseAllTidy(a: Take, ids: seq<nat>, n: nat, poll: Poll)
    requires n <= |ids| && OnceMoving(a.s, ids, 0) && Owned(a.s) && Paired(a.s) && Chosen(a)
    ensures var b := LeaseAll(a, ids, n, poll);
            OnceMoving(b.s, ids, n) && Owned(b.s) && Paired(b.s) && Chosen(b)
  {
    hide OnceMoving, Owned, Paired, Chosen, LeaseOne;
    if n > 0 {
      LeaseAllTidy(a, ids, n - 1, poll);
      var b := LeaseAll(a, ids, n - 1, poll);
      LeaseOneOnce(b, ids, n - 1, poll);
      LeaseOneChosen(b, ids[n - 1], poll);
      LeaseOneLives(b, ids[n - 1], poll);
      SameLivesOwned(b.s, LeaseOne(b, ids[n - 1], poll).s);
    }
  }

  lemma PickOnce(s: State, host: Host, poll: Poll)
    requires Once(s, {}) && Filed(s)
    ensures var q := Queue(s.queues, host);
            var p := Pick(q, |q|, poll.node, poll.Cap(host));
            OnceMoving(s.(queues := s.queues[host := p.rest]), p.ids, 0)
  {
    hide Pick, Count;
    var q := Queue(s.queues, host);
    var p := Pick(q, |q|, poll.node, poll.Cap(host));
    var s' := s.(queues := s.queues[host := p.rest]);
    PickFrom(q, |q|, poll.node, poll.Cap(host));
    forall id | id in s.jobs
      ensures Entries(s'.queues, s.jobs[id].req.host, id) + Times(p.ids, |p.ids|, id) == Due(s.jobs[id])
    {
      PickSplits(q, |q|, poll.node, poll.Cap(host), id);
      if s.jobs[id].req.host != host {
        OtherHost(s, host, id);
        hide Times;
      }
    }
  }

  /** A queue holds no entry of a live job of another host. */
  lemma OtherHost(s: State, host: Host, id: nat)
    requires Filed(s) && id in s.jobs && s.jobs[id].req.host != host
    ensures var q := Queue(s.queues, host); Count(q, |q|, id) == 0
  {
    var q := Queue(s.queues, host);
    CountIn(q, |q|, id);
    forall i | 0 <= i < |q| ensures q[i].id != id {
      assert q[i] in s.queues[host];
    }
  }

  lemma TakeHostTidy(a: Take, host: Host, poll: Poll)
    requires Tidy(a.s, {}) && Chosen(a) && Filed(a.s)
    ensures var b := TakeHost(a, host, poll); Tidy(b.s, {}) && Chosen(b)
  {
    hide Once, OnceMoving, Owned, Paired, Chosen, LeaseAll, Pick, Queue, Filed;
    var q := Queue(a.s.queues, host);
    var p := Pick(q, |q|, poll.node, poll.Cap(host));
    var s1 := a.s.(queues := a.s.queues[host := p.rest]);
    PickOnce(a.s, host, poll);
    SameLivesOwned(a.s, s1);
    SameChosen(a, s1);
    LeaseAllTidy(a.(s := s1), p.ids, |p.ids|, poll);
    MovedAll(LeaseAll(a.(s := s1), p.ids, |p.ids|, poll).s, p.ids);
  }

  lemma SameChosen(a: Take, s: State)
    requires Chosen(a) && s.jobs == a.s.jobs
    ensures Chosen(a.(s := s))
  {
  }

  lemma MovedAll(s: State, ids: seq<nat>)
    requires OnceMoving(s, ids, |ids|)
    ensures Once(s, {})
  {
    hide Entries;
  }

  lemma {:induction false} TakeHostsTidy(s: State, hosts: seq<Host>, n: nat, poll: Poll)
    requires n <= |hosts| && Safe(s) && Tidy(s, {})
    ensures var a := TakeHosts(s, hosts, n, poll); Tidy(a.s, {}) && Chosen(a)
  {
    hide Tidy, TakeHost, Safe;
    if n > 0 {
      TakeHostsTidy(s, hosts, n - 1, poll);
      TakeHostsSafe(s, hosts, n - 1, poll);
      var a := TakeHosts(s, hosts, n - 1, poll);
      SafeFacts(a.s);
      TakeHostTidy(a, hosts[n - 1], poll);
    }
  }

  lemma SafeFacts(s: State)
    requires Safe(s)
    ensures IdsOk(s) && Filed(s)
  {
  }

  lemma AddTwinJob(s: State, h: Handout, poll: Poll, id: nat)
    requires IdsOk(s) && id in s.jobs && id != h.id
    ensures id in AddTwin(s, h, poll).jobs && AddTwin(s, h, poll).jobs[id] == s.jobs[id]
  {
  }

  lemma {:induction false} AddTwinsTidy(a: Take, n: nat, poll: Poll)
    requires n <= |a.twins| && Safe(a.s) && Auditable(a) && Tidy(a.s, {}) && Chosen(a)
    ensures var s := AddTwins(a.s, a.twins, n, poll);
            && Tidy(s, {})
            && (forall i | n <= i < |a.twins| :: var h := a.twins[i];
                  h.id in s.jobs && !s.jobs[h.id].isTwin && s.jobs[h.id].twin.None? && s.jobs[h.id].req == h.req)
  {
    hide Tidy, AddTwin, Safe, Auditable;
    if n > 0 {
      AddTwinsTidy(a, n - 1, poll);
      AddTwinsSafe(a, n - 1, poll);
      var s := AddTwins(a.s, a.twins, n - 1, poll);
      SafeFacts(s);
      AddTwinTidy(s, a.twins[n - 1], poll);
      forall i | n <= i < |a.twins|
        ensures var s' := AddTwins(a.s, a.twins, n, poll); var h := a.twins[i];
                h.id in s'.jobs && !s'.jobs[h.id].isTwin && s'.jobs[h.id].twin.None? && s'.jobs[h.id].req == h.req
      {
        AddTwinJob(s, a.twins[n - 1], poll, a.twins[i].id);
      }
    }
  }

  lemma DispatchTidy(s: State, hosts: seq<Host>, poll: Poll)
    requires Safe(s) && Tidy(s, {})
    ensures Tidy(Dispatch(s, hosts, poll), {})
  {
    hide Safe, Tidy, Auditable, Chosen;
    TakeHostsTidy(s, hosts, |hosts|, poll);
    TakeHostsSafe(s, hosts, |hosts|, poll);
    var a := TakeHosts(s, hosts, |hosts|, poll);
    AddTwinsTidy(a, |a.twins|, poll);
  }

  // ---- runs ----

  lemma SweepTidy(s: State, now: nat, expired: seq<nat>)
    requires Tidy(s, {}) && Lists(expired, Expired(s, now))
    ensures Tidy(Sweep(s, now, expired), {})
  {
    hide Tidy, ReleaseAll, DropTwins;
    forall i | 0 <= i < |expired| ensures expired[i] in s.jobs && s.jobs[expired[i]].lease.Some? {
      assert expired[i] in expired;
    }
    ReleaseAllTidy(s, expired, |expired|);
    var s1 := ReleaseAll(s, expired, |expired|);
    DropTidy(s1, StaleTwins(s1, now));
  }

  lemma ShutdownTidy(s: State)
    requires Tidy(s, {})
    ensures Tidy(Shutdown(s), {})
  {
  }

  lemma TidyStep(s: State, step: Step)
    requires Safe(s) && Tidy(s, {}) && Enabled(s, step) && Disciplined(s, step)
    ensures Tidy(Next(s, step), {})
  {
    hide Tidy, SafeBut, Fetch, Dispatch, Report, Sweep, Shutdown, Lists, Disciplined;
    match step
    case DoFetch(req, now) =>
      SafeFacts(s);
      FetchTidy(s, req, now);
    case DoTake(hosts, poll) => DispatchTidy(s, hosts, poll);
    case DoReport(node, id, outcome) => ReportTidy(s, node, id, outcome);
    case DoSweep(now, expired) => SweepTidy(s, now, expired);
    case DoShutdown => ShutdownTidy(s);
  }

  lemma {:induction false} DisciplinedRunsAreTidy(steps: seq<Step>, n: nat)
    requires n <= |steps| && AllDisciplined(steps)
    ensures Tidy(Run(steps, n), {})
  {
    hide Next, Enabled, Disciplined, Safe;
    if n > 0 {
      hide Tidy;
      DisciplinedRunsAreTidy(steps, n - 1);
      RunsAreSafe(steps, n - 1);
      var s := Run(steps, n - 1);
      if Enabled(s, steps[n - 1]) {
        TidyStep(s, steps[n - 1]);
      }
    }
  }

  /** Exactly one queue entry for an unleased job, none for a leased one. */
  lemma QueuedExactly(steps: seq<Step>, n: nat, id: nat)
    requires n <= |steps| && AllDisciplined(steps) && id in Run(steps, n).jobs
    ensures var s := Run(steps, n);
            Entries(s.queues, s.jobs[id].req.host, id) == if s.jobs[id].lease.None? then 1 else 0
  {
    hide Run, Owned, Paired, Entries;
    DisciplinedRunsAreTidy(steps, n);
  }

  /** Two live twins never share a primary. */
  lemma OneTwinEach(steps: seq<Step>, n: nat, t: nat, u: nat)
    requires n <= |steps| && AllDisciplined(steps)
    requires var jobs := Run(steps, n).jobs;
             t in jobs && u in jobs && jobs[t].isTwin && jobs[u].isTwin && jobs[t].twin == jobs[u].twin
    ensures t == u
  {
    hide Run, Once, Paired;
    DisciplinedRunsAreTidy(steps, n);
  }

  /** No audit is left waiting for a body nobody will bring; with no live jobs, no audit is open. */
  lemma NoAuditStrands(steps: seq<Step>, n: nat)
    requires n <= |steps| && AllDisciplined(steps)
    ensures var s := Run(steps, n);
            && Paired(s)
            && (s.jobs == map[] ==> s.audits == map[])
  {
    hide Run, Once, Owned;
    DisciplinedRunsAreTidy(steps, n);
    var s := Run(steps, n);
    if s.jobs == map[] {
      assert forall t :: t !in s.audits;
    }
  }

  // ---- where discipline is needed ----

  /** A failure or key rejection that does not end the job leaves it queued once exactly when it was leased: one that
      comes in late, or twice, queues the job again. */
  lemma BadReportQueuesOnceIff(s: State, node: nat, id: nat, outcome: Outcome)
    requires Tidy(s, {}) && Accepted(s, node, id) && !outcome.Answer?
    requires outcome.Failed? ==> s.jobs[id].attempts + 1 < MAX_ATTEMPTS
    ensures var s' := Report(s, node, id, outcome);
            id in s'.jobs && s'.jobs[id].lease.None?
            && (Entries(s'.queues, s'.jobs[id].req.host, id) == 1 <==> s.jobs[id].lease.Some?)
  {
    hide Entries, Owned, Paired;
    var host := s.jobs[id].req.host;
    PushEntries(s.queues, host, Entry(id, s.jobs[id].exclude), host, id);
  }
}
