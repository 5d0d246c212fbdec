/**
 What each fetch is told, read off the run: an answer if and only if an accepted
 report brought that answer, a refusal if and only if six failures were counted,
 a shutdown if and only if it was waiting at one. And whose request each job asks.
 */
module BrokerReplies {
  import opened Results
  import opened BrokerSpec
  import opened BrokerProof
  import opened BrokerAudit
  import opened BrokerShutdown

  // ---- what a step means for one job ----

  /** The report comes from the node holding the lease, or nobody holds one. */
  predicate Heard(s: State, step: Step, id: nat) {
    step.DoReport? && step.id == id && id in s.jobs
    && (s.jobs[id].lease.None? || s.jobs[id].lease.value.node == step.node)
  }

  predicate Answers(s: State, step: Step, id: nat, body: AuditBody) {
    Heard(s, step, id) && step.outcome == Answer(body)
  }

  /** A failure counted against the job: a failed report, or a lease found past its time. */
  predicate Fails(s: State, step: Step, id: nat) {
    || (Heard(s, step, id) && step.outcome == Failed)
    || (step.DoSweep? && id in s.jobs && s.jobs[id].lease.Some? && s.jobs[id].lease.value.until <= step.now)
  }

  predicate SameLife(a: Job, b: Job) {
    a.req == b.req && a.attempts == b.attempts && a.isTwin == b.isTwin && a.responder == b.responder
  }

  /** A live fetch that has been told nothing. */
  ghost predicate Waits(s: State, id: nat) {
    id in s.jobs && !s.jobs[id].isTwin && s.jobs[id].responder && id in s.replies && s.replies[id] == []
  }

  /** Fetch `id` goes on waiting, with `more` failures counted. */
  ghost predicate GoesOn(s: State, s': State, id: nat, more: nat)
    requires id in s.jobs
  {
    Waits(s', id) && s'.jobs[id].req == s.jobs[id].req && s'.jobs[id].attempts == s.jobs[id].attempts + more
  }

  ghost predicate ToldLast(s: State, id: nat, reply: Reply) {
    id !in s.jobs && id in s.replies && s.replies[id] == [reply]
  }

  // ---- operations on one job and on the others ----

  lemma RemoveTells(s: State, id: nat, reply: Reply)
    requires Waits(s, id)
    ensures ToldLast(Remove(s, id, reply), id, reply)
  {
  }

  lemma RemoveOther(s: State, id: nat, reply: Reply, x: nat)
    requires id in s.jobs && x != id && Waits(s, x)
    ensures Waits(Remove(s, id, reply), x) && Remove(s, id, reply).jobs[x] == s.jobs[x]
  {
  }

  lemma AbandonTells(s: State, id: nat)
    requires Waits(s, id)
    ensures ToldLast(Abandon(s, id), id, Abandoned)
  {
    hide Remove;
    RemoveTells(s, id, Abandoned);
  }

  lemma AbandonOther(s: State, id: nat, x: nat)
    requires Linked(s) && x != id && Waits(s, x)
    ensures Waits(Abandon(s, id), x) && Abandon(s, id).jobs[x] == s.jobs[x]
  {
    hide Remove;
    if id in s.jobs {
      RemoveTables(s, id, Abandoned);
      RemoveOther(s, id, Abandoned, x);
    }
  }

  lemma FailureSame(s: State, id: nat)
    requires id in s.jobs
    ensures var s' := CountFailure(Unlease(s, id), id);
            && s'.jobs == s.jobs[id := s.jobs[id].(lease := None, attempts := s.jobs[id].attempts + 1)]
            && s'.replies == s.replies && s'.nextId == s.nextId
  {
  }

  lemma FailureLinked(s: State, s': State, id: nat)
    requires Linked(s) && id in s.jobs && s'.nextId == s.nextId && s'.jobs.Keys == s.jobs.Keys
    requires forall x | x in s.jobs :: SameJob(s.jobs[x], s'.jobs[x])
    ensures Linked(s')
  {
  }

  lemma ReleaseTells(s: State, id: nat)
    requires Waits(s, id)
    ensures if s.jobs[id].attempts + 1 >= 6 then ToldLast(Release(s, id, true), id, Abandoned)
            else GoesOn(s, Release(s, id, true), id, 1)
  {
    hide Abandon;
    var s1 := CountFailure(Unlease(s, id), id);
    FailureSame(s, id);
    AbandonTells(s1, id);
  }

  lemma PutBackGoesOn(s: State, id: nat)
    requires Waits(s, id)
    ensures GoesOn(s, Release(s, id, false), id, 0)
  {
  }

  lemma ReleaseOther(s: State, id: nat, counted: bool, x: nat)
    requires Linked(s) && x != id && Waits(s, x)
    ensures Waits(Release(s, id, counted), x) && Release(s, id, counted).jobs[x] == s.jobs[x]
  {
    hide Abandon, Linked;
    if id in s.jobs && counted {
      var s1 := CountFailure(Unlease(s, id), id);
      FailureSame(s, id);
      FailureLinked(s, s1, id);
      AbandonOther(s1, id, x);
    }
  }

  lemma CompleteTells(s: State, node: nat, id: nat, body: AuditBody)
    requires Waits(s, id)
    ensures ToldLast(Complete(s, node, id, body), id, Body(body))
  {
    hide Remove, Told;
    RemoveTells(s, id, Body(body));
    CompleteKeeps(s, node, id, body);
  }

  /** Beyond telling its fetch an answer only fills in an audit. */
  lemma CompleteKeeps(s: State, node: nat, id: nat, body: AuditBody)
    requires id in s.jobs
    ensures var s1 := Remove(s, id, Body(body));
            var s' := Complete(s, node, id, body);
            s'.jobs == s1.jobs && s'.replies == s1.replies
  {
    hide Remove, FinishAudit;
    var s1 := Remove(s, id, Body(body));
    var job := s.jobs[id];
    if job.isTwin {
      if id in s1.audits {
        FinishDrops(s1.(audits := s1.audits[id := s1.audits[id].(twinNode := Some(node), twin := Some(body))]), id);
      }
      FinishDrops(s1, id);
    } else if job.twin.Some? {
      var t := job.twin.value;
      if t in s1.audits {
        FinishDrops(s1.(audits := s1.audits[t := s1.audits[t].(primary := Some(body))]), t);
      }
      FinishDrops(s1, t);
    }
  }

  lemma CompleteOther(s: State, node: nat, id: nat, body: AuditBody, x: nat)
    requires id in s.jobs && x != id && Waits(s, x)
    ensures Waits(Complete(s, node, id, body), x) && Complete(s, node, id, body).jobs[x] == s.jobs[x]
  {
    hide Complete, Remove;
    CompleteKeeps(s, node, id, body);
    RemoveOther(s, id, Body(body), x);
  }

  lemma FailedReport(s: State, node: nat, id: nat)
    requires Waits(s, id) && Accepted(s, node, id)
    ensures var s' := Report(s, node, id, Failed);
            if s.jobs[id].attempts + 1 >= 6 then ToldLast(s', id, Abandoned) else GoesOn(s, s', id, 1)
  {
    hide Abandon, Release;
    var s1 := CountFailure(s, id);
    AbandonTells(s1, id);
    PutBackGoesOn(s1, id);
  }

  lemma FailedReportOther(s: State, node: nat, id: nat, x: nat)
    requires Linked(s) && id in s.jobs && x != id && Waits(s, x)
    ensures var s' := Report(s, node, id, Failed); Waits(s', x) && s'.jobs[x] == s.jobs[x]
  {
    hide Abandon, Release, Linked;
    var s1 := CountFailure(s, id);
    FailureLinked(s, s1, id);
    AbandonOther(s1, id, x);
    ReleaseOther(s1, id, false, x);
  }

  lemma SafeLinked(s: State)
    requires Safe(s)
    ensures Linked(s) && IdsOk(s)
  {
  }

  // ---- each step, for one waiting fetch ----

  /** What the step tells fetch `id`, if anything. */
  ghost predicate Tells(s: State, s': State, step: Step, id: nat)
    requires id in s.jobs
  {
    if step.DoShutdown? then ToldLast(s', id, ShutDown)
    else if Heard(s, step, id) && step.outcome.Answer? then ToldLast(s', id, Body(step.outcome.body))
    else if Fails(s, step, id) then
      if s.jobs[id].attempts + 1 >= 6 then ToldLast(s', id, Abandoned) else GoesOn(s, s', id, 1)
    else GoesOn(s, s', id, 0)
  }

  lemma ReportTells(s: State, node: nat, id: nat, outcome: Outcome, x: nat)
    requires Safe(s) && Waits(s, x)
    ensures Tells(s, Report(s, node, id, outcome), DoReport(node, id, outcome), x)
  {
    SafeLinked(s);
    hide Safe, Linked, IdsOk, Complete, Release, CountFailure, Abandon, Fails;
    var step := DoReport(node, id, outcome);
    assert Heard(s, step, x) <==> x == id && Accepted(s, node, id);
    FailsReport(s, step, x);
    if Accepted(s, node, id) {
      match outcome
      case Answer(body) =>
        if x == id { CompleteTells(s, node, id, body); } else { CompleteOther(s, node, id, body, x); }
      case KeyRejected =>
        if x == id { PutBackGoesOn(s, id); } else { ReleaseOther(s, id, false, x); }
      case Failed =>
        hide Report;
        if x == id { FailedReport(s, node, id); } else { FailedReportOther(s, node, id, x); }
    }
  }

  lemma FailsReport(s: State, step: Step, id: nat)
    requires step.DoReport?
    ensures Fails(s, step, id) <==> Heard(s, step, id) && step.outcome == Failed
  {
  }

  lemma {:induction false} ReleaseAllTells(s: State, ids: seq<nat>, n: nat, x: nat)
    requires n <= |ids| && Safe(s) && Waits(s, x) && forall i, j | 0 <= i < j < |ids| :: ids[i] != ids[j]
    ensures var s' := ReleaseAll(s, ids, n);
            if x !in ids[..n] then Waits(s', x) && s'.jobs[x] == s.jobs[x]
            else if s.jobs[x].attempts + 1 >= 6 then ToldLast(s', x, Abandoned) else GoesOn(s, s', x, 1)
  {
    hide Safe, Release, Linked, IdsOk;
    if n > 0 {
      var s1 := ReleaseAll(s, ids, n - 1);
      ReleaseAllTells(s, ids, n - 1, x);
      ReleaseAllSafe(s, ids, n - 1);
      SafeLinked(s1);
      assert x in ids[..n] <==> x in ids[..n - 1] || x == ids[n - 1];
      if x == ids[n - 1] {
        ReleaseTells(s1, x);
      } else if Waits(s1, x) {
        ReleaseOther(s1, ids[n - 1], true, x);
      } else {
        GoneStays(s1, ids[n - 1], x);
      }
    }
  }

  /** What is no job is left alone. */
  lemma GoneStays(s: State, id: nat, x: nat)
    requires x != id && x !in s.jobs && x in s.replies
    ensures var s' := Release(s, id, true); x !in s'.jobs && x in s'.replies && s'.replies[x] == s.replies[x]
  {
    if id in s.jobs {
      var s1 := CountFailure(Unlease(s, id), id);
      FailureSame(s, id);
      hide CountFailure, Unlease;
      RemoveTables(s1, id, Abandoned);
      hide Remove;
    }
  }

  lemma SweepTells(s: State, now: nat, expired: seq<nat>, x: nat)
    requires Safe(s) && Waits(s, x) && Lists(expired, Expired(s, now))
    ensures Tells(s, Sweep(s, now, expired), DoSweep(now, expired), x)
  {
    hide Safe, ReleaseAll;
    ReleaseAllTells(s, expired, |expired|, x);
    assert expired[..|expired|] == expired;
    assert x in expired <==> Fails(s, DoSweep(now, expired), x);
  }

  lemma {:induction false} LeaseAllSame(a: Take, ids: seq<nat>, n: nat, poll: Poll, x: nat)
    requires n <= |ids| && x in a.s.jobs
    ensures var b := LeaseAll(a, ids, n, poll);
            x in b.s.jobs && SameLife(a.s.jobs[x], b.s.jobs[x]) && b.s.nextId == a.s.nextId
  {
    if n > 0 {
      LeaseAllSame(a, ids, n - 1, poll, x);
    }
  }

  lemma {:induction false} TakeHostsSame(s: State, hosts: seq<Host>, n: nat, poll: Poll, x: nat)
    requires n <= |hosts| && x in s.jobs
    ensures var a := TakeHosts(s, hosts, n, poll);
            x in a.s.jobs && SameLife(s.jobs[x], a.s.jobs[x]) && a.s.nextId == s.nextId
  {
    hide LeaseAll, Pick;
    if n > 0 {
      TakeHostsSame(s, hosts, n - 1, poll, x);
      var a := TakeHosts(s, hosts, n - 1, poll);
      var q := Queue(a.s.queues, hosts[n - 1]);
      var p := Pick(q, |q|, poll.node, poll.Cap(hosts[n - 1]));
      LeaseAllSame(a.(s := a.s.(queues := a.s.queues[hosts[n - 1] := p.rest])), p.ids, |p.ids|, poll, x);
    }
  }

  lemma {:induction false} AddTwinsSame(s: State, twins: seq<Handout>, n: nat, poll: Poll, x: nat)
    requires n <= |twins| && x in s.jobs && x < s.nextId
    ensures var s' := AddTwins(s, twins, n, poll);
            x in s'.jobs && SameLife(s.jobs[x], s'.jobs[x]) && s'.nextId == s.nextId + n
  {
    if n > 0 {
      AddTwinsSame(s, twins, n - 1, poll, x);
    }
  }

  lemma TakeTells(s: State, hosts: seq<Host>, poll: Poll, x: nat)
    requires Safe(s) && Waits(s, x)
    ensures Tells(s, Dispatch(s, hosts, poll), DoTake(hosts, poll), x)
  {
    SafeLinked(s);
    hide Safe, TakeHosts, AddTwins;
    var a := TakeHosts(s, hosts, |hosts|, poll);
    TakeHostsSame(s, hosts, |hosts|, poll, x);
    TakeHostsKept(s, hosts, |hosts|, poll);
    AddTwinsSame(a.s, a.twins, |a.twins|, poll, x);
    AddTwinsKept(a.s, a.twins, |a.twins|, poll);
  }

  lemma StepTells(s: State, step: Step, x: nat)
    requires Safe(s) && Enabled(s, step) && Waits(s, x)
    ensures Tells(s, Next(s, step), step, x)
  {
    hide Report, Sweep, Dispatch;
    match step
    case DoFetch(req, now) => SafeLinked(s);
    case DoTake(hosts, poll) => TakeTells(s, hosts, poll, x);
    case DoReport(node, id, outcome) => ReportTells(s, node, id, outcome, x);
    case DoSweep(now, expired) => SweepTells(s, now, expired, x);
    case DoShutdown =>
  }

  // ---- over runs ----

  /** Step `k` is taken, from the state the run has reached. */
  ghost predicate Happens(steps: seq<Step>, k: nat)
    requires k < |steps|
  {
    Enabled(Run(steps, k), steps[k])
  }

  ghost predicate AnswersAt(steps: seq<Step>, k: nat, id: nat, body: AuditBody)
    requires k < |steps|
  {
    Happens(steps, k) && Answers(Run(steps, k), steps[k], id, body)
  }

  ghost predicate FailsAt(steps: seq<Step>, k: nat, id: nat)
    requires k < |steps|
  {
    Happens(steps, k) && Fails(Run(steps, k), steps[k], id)
  }

  ghost predicate ShutsAt(steps: seq<Step>, k: nat, id: nat)
    requires k < |steps|
  {
    Happens(steps, k) && steps[k].DoShutdown? && id in Run(steps, k).jobs
  }

  /** The steps among the first `n` at which a failure was counted against `id`. */
  ghost function FailureSteps(steps: seq<Step>, n: nat, id: nat): set<nat>
    requires n <= |steps|
  {
    set k: nat | 0 <= k < n && FailsAt(steps, k, id)
  }

  ghost predicate AnswerCame(steps: seq<Step>, n: nat, id: nat, body: AuditBody)
    requires n <= |steps|
  {
    exists k: nat :: k < n && AnswersAt(steps, k, id, body)
  }

  ghost predicate Shut(steps: seq<Step>, n: nat, id: nat)
    requires n <= |steps|
  {
    exists k: nat :: k < n && ShutsAt(steps, k, id)
  }

  ghost predicate BodiesTold(steps: seq<Step>, n: nat, id: nat)
    requires n <= |steps| && id in Run(steps, n).replies
  {
    forall body :: Run(steps, n).replies[id] == [Body(body)] <==> AnswerCame(steps, n, id, body)
  }

  /** The story of fetch `id` over the first `n` steps agrees with what it has been told. */
  ghost predicate Accounted(steps: seq<Step>, n: nat, id: nat)
    requires n <= |steps|
  {
    var s := Run(steps, n);
    id in s.replies ==>
      && (s.replies[id] == [] ==> Waits(s, id) && s.jobs[id].attempts == |FailureSteps(steps, n, id)| < 6)
      && BodiesTold(steps, n, id)
      && (s.replies[id] == [Abandoned] <==> |FailureSteps(steps, n, id)| >= 6)
      && (s.replies[id] == [ShutDown] <==> Shut(steps, n, id))
      && (s.replies[id] != [] ==> id !in s.jobs)
  }

  lemma FailuresGrow(steps: seq<Step>, n: nat, id: nat)
    requires 0 < n <= |steps|
    ensures FailureSteps(steps, n, id)
         == FailureSteps(steps, n - 1, id) + (if FailsAt(steps, n - 1, id) then {n - 1} else {})
    ensures |FailureSteps(steps, n, id)|
         == |FailureSteps(steps, n - 1, id)| + (if FailsAt(steps, n - 1, id) then 1 else 0)
  {
    hide FailsAt;
  }

  lemma AnswersGrow(steps: seq<Step>, n: nat, id: nat, body: AuditBody)
    requires 0 < n <= |steps|
    ensures AnswerCame(steps, n, id, body) <==> AnswerCame(steps, n - 1, id, body) || AnswersAt(steps, n - 1, id, body)
  {
    hide AnswersAt;
  }

  lemma ShutsGrow(steps: seq<Step>, n: nat, id: nat)
    requires 0 < n <= |steps|
    ensures Shut(steps, n, id) <==> Shut(steps, n - 1, id) || ShutsAt(steps, n - 1, id)
  {
    hide ShutsAt;
  }

  /** Nothing has happened to an id not given out yet. */
  lemma {:induction false} NothingBefore(steps: seq<Step>, n: nat, id: nat)
    requires n <= |steps| && id >= Run(steps, n).nextId
    ensures FailureSteps(steps, n, id) == {} && !Shut(steps, n, id) && forall body :: !AnswerCame(steps, n, id, body)
    decreases n
  {
    hide Next, Safe, Enabled, Fails, Heard;
    if n > 0 {
      RunsAreSafe(steps, n - 1);
      SafeLinked(Run(steps, n - 1));
      StepIds(Run(steps, n - 1), steps[n - 1]);
      assert id >= Run(steps, n - 1).nextId;
      NothingBefore(steps, n - 1, id);
      NotYet(Run(steps, n - 1), steps[n - 1], id);
      FailuresGrow(steps, n, id);
      ShutsGrow(steps, n, id);
      forall body ensures !AnswerCame(steps, n, id, body) {
        AnswersGrow(steps, n, id, body);
      }
    }
  }

  lemma NotYet(s: State, step: Step, id: nat)
    requires id !in s.jobs
    ensures !Fails(s, step, id) && !Heard(s, step, id)
  {
  }

  lemma StepIds(s: State, step: Step)
    requires Safe(s)
    ensures Next(s, step).nextId >= s.nextId
  {
    hide Safe, Report, ReleaseAll, TakeHosts, AddTwins;
    match step
    case DoFetch(req, now) =>
    case DoTake(hosts, poll) => TakeIds(s, hosts, poll);
    case DoReport(node, id, outcome) => ReportIds(s, node, id, outcome);
    case DoSweep(now, expired) => SweepLess(s, now, expired);
    case DoShutdown =>
  }

  lemma TakeIds(s: State, hosts: seq<Host>, poll: Poll)
    ensures Dispatch(s, hosts, poll).nextId >= s.nextId
  {
    hide TakeHosts, AddTwins;
    TakeHostsIds(s, hosts, |hosts|, poll);
    var a := TakeHosts(s, hosts, |hosts|, poll);
    AddTwinsIds(a.s, a.twins, |a.twins|, poll);
  }

  lemma {:induction false} LeaseAllIds(a: Take, ids: seq<nat>, n: nat, poll: Poll)
    requires n <= |ids|
    ensures LeaseAll(a, ids, n, poll).s.nextId == a.s.nextId
  {
    if n > 0 {
      LeaseAllIds(a, ids, n - 1, poll);
    }
  }

  lemma {:induction false} TakeHostsIds(s: State, hosts: seq<Host>, n: nat, poll: Poll)
    requires n <= |hosts|
    ensures TakeHosts(s, hosts, n, poll).s.nextId == s.nextId
  {
    hide LeaseAll, Pick;
    if n > 0 {
      TakeHostsIds(s, hosts, n - 1, poll);
      var a := TakeHosts(s, hosts, n - 1, poll);
      var q := Queue(a.s.queues, hosts[n - 1]);
      var p := Pick(q, |q|, poll.node, poll.Cap(hosts[n - 1]));
      LeaseAllIds(a.(s := a.s.(queues := a.s.queues[hosts[n - 1] := p.rest])), p.ids, |p.ids|, poll);
    }
  }

  lemma {:induction false} AddTwinsIds(s: State, twins: seq<Handout>, n: nat, poll: Poll)
    requires n <= |twins|
    ensures AddTwins(s, twins, n, poll).nextId == s.nextId + n
  {
    if n > 0 {
      AddTwinsIds(s, twins, n - 1, poll);
    }
  }

  lemma ReportIds(s: State, node: nat, id: nat, outcome: Outcome)
    ensures Report(s, node, id, outcome).nextId >= s.nextId
  {
    hide Complete, Release, Abandon, CountFailure, Less, NoLease;
    if outcome.Answer? && Accepted(s, node, id) {
      CompleteFills(s, node, id, outcome.body);
    } else {
      hide Report;
      BadReportLess(s, node, id, outcome);
      assert Less(s, Report(s, node, id, outcome));
      LessIds(s, Report(s, node, id, outcome));
    }
  }

  lemma LessIds(s: State, s': State)
    requires Less(s, s')
    ensures s'.nextId >= s.nextId
  {
  }

  lemma WaitingStep(steps: seq<Step>, n: nat, id: nat)
    requires 0 < n <= |steps| && Happens(steps, n - 1) && Waits(Run(steps, n - 1), id)
    ensures Tells(Run(steps, n - 1), Run(steps, n), steps[n - 1], id)
  {
    hide Next, Safe, Tells, Waits;
    RunsAreSafe(steps, n - 1);
    StepTells(Run(steps, n - 1), steps[n - 1], id);
  }

  lemma WaitingBodies(steps: seq<Step>, n: nat, id: nat)
    requires 0 < n <= |steps| && Happens(steps, n - 1) && Waits(Run(steps, n - 1), id)
    requires BodiesTold(steps, n - 1, id)
    ensures id in Run(steps, n).replies && BodiesTold(steps, n, id)
  {
    var s, step := Run(steps, n - 1), steps[n - 1];
    WaitingStep(steps, n, id);
    hide Run, Enabled, Fails, Heard, AnswerCame;
    OneEvent(s, step, id);
    forall body ensures Run(steps, n).replies[id] == [Body(body)] <==> AnswerCame(steps, n, id, body) {
      AnswersGrow(steps, n, id, body);
    }
  }

  /** A fetch that waits at a step: what happened to it so far, and whether the step tells it. */
  lemma WaitingAccounted(steps: seq<Step>, n: nat, id: nat)
    requires 0 < n <= |steps| && Happens(steps, n - 1) && Waits(Run(steps, n - 1), id)
    requires Accounted(steps, n - 1, id)
    ensures Accounted(steps, n, id)
  {
    WaitingBodies(steps, n, id);
    WaitingStep(steps, n, id);
    hide Run, Enabled, Fails, Heard, FailureSteps, AnswerCame, Shut, BodiesTold;
    FailuresGrow(steps, n, id);
    ShutsGrow(steps, n, id);
    OneEvent(Run(steps, n - 1), steps[n - 1], id);
  }

  lemma OneEvent(s: State, step: Step, id: nat)
    ensures step.DoShutdown? ==> !Fails(s, step, id) && !Heard(s, step, id)
    ensures Heard(s, step, id) && step.outcome.Answer? ==> !Fails(s, step, id)
    ensures Heard(s, step, id) ==> step.DoReport?
  {
  }

  lemma ToldAccounted(steps: seq<Step>, n: nat, id: nat)
    requires 0 < n <= |steps| && id in Run(steps, n - 1).replies && id !in Run(steps, n - 1).jobs
    requires Accounted(steps, n - 1, id)
    ensures Accounted(steps, n, id)
  {
    RepliesStay(steps, n - 1, n, id);
    EveryFetchAnsweredOnce(steps, n - 1, id);
    EveryFetchAnsweredOnce(steps, n, id);
    hide Run, Safe, Enabled, Fails, Heard, FailureSteps, AnswerCame, Shut;
    NotYet(Run(steps, n - 1), steps[n - 1], id);
    FailuresGrow(steps, n, id);
    ShutsGrow(steps, n, id);
    forall body ensures AnswerCame(steps, n, id, body) <==> AnswerCame(steps, n - 1, id, body) {
      AnswersGrow(steps, n, id, body);
    }
  }

  lemma FetchWaits(s: State, req: Request, now: nat)
    requires IdsOk(s)
    ensures var s' := Fetch(s, req, now); Waits(s', s.nextId) && s'.jobs[s.nextId].attempts == 0
  {
  }

  lemma NewWaits(steps: seq<Step>, n: nat, id: nat)
    requires 0 < n <= |steps| && Happens(steps, n - 1)
    requires id !in Run(steps, n - 1).replies && id in Run(steps, n).replies
    ensures steps[n - 1].DoFetch? && id == Run(steps, n - 1).nextId && id !in Run(steps, n - 1).jobs
    ensures Waits(Run(steps, n), id) && Run(steps, n).jobs[id].attempts == 0
  {
    hide Safe, Waits, Fetch;
    var s, step := Run(steps, n - 1), steps[n - 1];
    RunsAreSafe(steps, n - 1);
    SafeLinked(s);
    StepKeys(s, step);
    if step.DoFetch? {
      FetchWaits(s, step.req, step.now);
    }
  }

  lemma NewAccounted(steps: seq<Step>, n: nat, id: nat)
    requires 0 < n <= |steps| && Happens(steps, n - 1)
    requires id !in Run(steps, n - 1).replies && id in Run(steps, n).replies
    ensures Accounted(steps, n, id)
  {
    hide Run, Safe, Enabled, Fails, Heard;
    NewWaits(steps, n, id);
    NothingBefore(steps, n - 1, id);
    NotYet(Run(steps, n - 1), steps[n - 1], id);
    FailuresGrow(steps, n, id);
    ShutsGrow(steps, n, id);
    forall body ensures !AnswerCame(steps, n, id, body) {
      AnswersGrow(steps, n, id, body);
    }
  }

  /** A step not taken changes nothing and counts for nothing. */
  lemma IdleAccounted(steps: seq<Step>, n: nat, id: nat)
    requires 0 < n <= |steps| && !Happens(steps, n - 1) && Accounted(steps, n - 1, id)
    ensures Accounted(steps, n, id)
  {
    assert Run(steps, n) == Run(steps, n - 1);
    hide Run, Enabled, Fails, Heard, FailureSteps, AnswerCame, Shut;
    FailuresGrow(steps, n, id);
    ShutsGrow(steps, n, id);
    forall body ensures AnswerCame(steps, n, id, body) <==> AnswerCame(steps, n - 1, id, body) {
      AnswersGrow(steps, n, id, body);
    }
  }

  /** In every run, a fetch is told a body if and only if an accepted report answered its job with that body, that it
      was given up if and only if six failures were counted against it, and that the broker shut down if and only if
      it was waiting at a shutdown; it waits while there was none of these. */
  lemma {:induction false} RunsAccount(steps: seq<Step>, n: nat, id: nat)
    requires n <= |steps|
    ensures Accounted(steps, n, id)
    decreases n
  {
    if n > 0 {
      RunsAccount(steps, n - 1, id);
      hide Accounted, Enabled, Next, Safe;
      var s := Run(steps, n - 1);
      if !Happens(steps, n - 1) {
        IdleAccounted(steps, n, id);
      } else if id in s.replies {
        EveryFetchAnsweredOnce(steps, n - 1, id);
        if id in s.jobs { WaitingAccounted(steps, n, id); } else { ToldAccounted(steps, n, id); }
      } else if id in Run(steps, n).replies {
        NewAccounted(steps, n, id);
      } else {
        assert Accounted(steps, n, id) by { hide Run; NotAccepted(steps, n, id); }
      }
    }
  }

  lemma NotAccepted(steps: seq<Step>, n: nat, id: nat)
    requires n <= |steps| && id !in Run(steps, n).replies
    ensures Accounted(steps, n, id)
  {
    hide Run, FailureSteps, AnswerCame, Shut;
  }

  // ---- whose request a job asks ----

  /** The request of each accepted fetch, under its id. */
  ghost function Asked(steps: seq<Step>, n: nat): map<nat, Request>
    requires n <= |steps|
  {
    if n == 0 then map[]
    else if steps[n - 1].DoFetch? then Asked(steps, n - 1)[Run(steps, n - 1).nextId := steps[n - 1].req]
    else Asked(steps, n - 1)
  }

  /** Primaries ask what their fetch asked; twins and audits what their primary's fetch asked. */
  ghost predicate AsksFor(s: State, asked: map<nat, Request>) {
    && (forall id | id in asked :: id < s.nextId)
    && (forall id | id in s.jobs && !s.jobs[id].isTwin :: id in asked && s.jobs[id].req == asked[id])
    && (forall id | id in s.jobs && s.jobs[id].isTwin ::
          id in s.owner && s.owner[id] in asked && s.jobs[id].req == asked[s.owner[id]])
    && (forall t | t in s.audits :: t in s.owner && s.owner[t] in asked && s.audits[t].req == asked[s.owner[t]])
    && (forall t | t in s.owner :: t < s.nextId)
  }

  /** Jobs and audits may go, and keep what they were made for. */
  ghost predicate OnlyGoes(s: State, s': State) {
    && s'.owner == s.owner && s'.nextId == s.nextId
    && (forall id | id in s'.jobs :: id in s.jobs && s'.jobs[id].req == s.jobs[id].req
                                  && s'.jobs[id].isTwin == s.jobs[id].isTwin)
    && (forall t | t in s'.audits :: t in s.audits && s'.audits[t].req == s.audits[t].req)
  }

  lemma GoesAsks(s: State, s': State, asked: map<nat, Request>)
    requires AsksFor(s, asked) && OnlyGoes(s, s')
    ensures AsksFor(s', asked)
  {
  }

  lemma LessGoes(s: State, s': State)
    requires Less(s, s') && s'.jobs.Keys <= s.jobs.Keys && s'.nextId == s.nextId
    ensures OnlyGoes(s, s')
  {
    assert forall id | id in s'.jobs :: id in s'.jobs.Keys;
  }

  lemma AbandonIds(s: State, id: nat)
    ensures Abandon(s, id).nextId == s.nextId
  {
  }

  lemma ReleaseIds(s: State, id: nat, counted: bool)
    ensures Release(s, id, counted).nextId == s.nextId
  {
    hide Abandon;
    if id in s.jobs && counted {
      AbandonIds(CountFailure(Unlease(s, id), id), id);
    }
  }

  lemma {:induction false} ReleaseAllIds(s: State, ids: seq<nat>, n: nat)
    requires n <= |ids|
    ensures ReleaseAll(s, ids, n).nextId == s.nextId
  {
    hide Release;
    if n > 0 {
      ReleaseAllIds(s, ids, n - 1);
      ReleaseIds(ReleaseAll(s, ids, n - 1), ids[n - 1], true);
    }
  }

  lemma ReportGoes(s: State, node: nat, id: nat, outcome: Outcome)
    ensures OnlyGoes(s, Report(s, node, id, outcome))
  {
    hide Complete, Release, Abandon, Less, NoLease, OnlyGoes;
    if Accepted(s, node, id) {
      match outcome
      case Answer(body) => CompleteGoes(s, node, id, body);
      case KeyRejected =>
        ReleaseLess(s, id, false);
        ReleaseIds(s, id, false);
        LessGoes(s, Release(s, id, false));
      case Failed =>
        var s1 := CountFailure(s, id);
        FailureLess(s, id);
        AbandonLess(s1, id);
        AbandonIds(s1, id);
        ReleaseLess(s1, id, false);
        ReleaseIds(s1, id, false);
        LessGoes(s, s1);
        LessGoes(s1, Abandon(s1, id));
        LessGoes(s1, Release(s1, id, false));
        GoesTwice(s, s1, Report(s, node, id, outcome));
    } else {
      assert OnlyGoes(s, s) by { GoesNowhere(s); }
    }
  }

  lemma GoesNowhere(s: State)
    ensures OnlyGoes(s, s)
  {
  }

  lemma GoesTwice(a: State, b: State, c: State)
    requires OnlyGoes(a, b) && OnlyGoes(b, c)
    ensures OnlyGoes(a, c)
  {
  }

  lemma CompleteGoes(s: State, node: nat, id: nat, body: AuditBody)
    requires id in s.jobs
    ensures OnlyGoes(s, Complete(s, node, id, body))
  {
    hide Complete;
    CompleteFills(s, node, id, body);
  }

  lemma SweepGoes(s: State, now: nat, expired: seq<nat>)
    ensures OnlyGoes(s, Sweep(s, now, expired))
  {
    hide ReleaseAll, Less, NoLease;
    var s1 := ReleaseAll(s, expired, |expired|);
    ReleaseAllLess(s, expired, |expired|);
    ReleaseAllIds(s, expired, |expired|);
    LessGoes(s, s1);
    assert OnlyGoes(s1, Sweep(s, now, expired));
    GoesTwice(s, s1, Sweep(s, now, expired));
  }

  /** What is handed out asks what its job asks. */
  ghost predicate HandsAsked(out: seq<Handout>, asked: map<nat, Request>) {
    forall h | h in out :: h.id in asked && asked[h.id] == h.req
  }

  lemma LeaseOneAsks(a: Take, id: nat, poll: Poll, asked: map<nat, Request>)
    requires AsksFor(a.s, asked) && HandsAsked(a.twins, asked)
    ensures var b := LeaseOne(a, id, poll); AsksFor(b.s, asked) && HandsAsked(b.twins, asked)
  {
  }

  lemma {:induction false} LeaseAllAsks(a: Take, ids: seq<nat>, n: nat, poll: Poll, asked: map<nat, Request>)
    requires n <= |ids| && AsksFor(a.s, asked) && HandsAsked(a.twins, asked)
    ensures var b := LeaseAll(a, ids, n, poll); AsksFor(b.s, asked) && HandsAsked(b.twins, asked)
  {
    hide AsksFor, HandsAsked, LeaseOne;
    if n > 0 {
      LeaseAllAsks(a, ids, n - 1, poll, asked);
      LeaseOneAsks(LeaseAll(a, ids, n - 1, poll), ids[n - 1], poll, asked);
    }
  }

  lemma QueuesAsk(s: State, queues: Queues, asked: map<nat, Request>)
    requires AsksFor(s, asked)
    ensures AsksFor(s.(queues := queues), asked)
  {
  }

  lemma {:induction false} TakeHostsAsks(s: State, hosts: seq<Host>, n: nat, poll: Poll, asked: map<nat, Request>)
    requires n <= |hosts| && AsksFor(s, asked)
    ensures var a := TakeHosts(s, hosts, n, poll); AsksFor(a.s, asked) && HandsAsked(a.twins, asked)
  {
    hide AsksFor, LeaseAll, Pick;
    if n > 0 {
      TakeHostsAsks(s, hosts, n - 1, poll, asked);
      var a := TakeHosts(s, hosts, n - 1, poll);
      var q := Queue(a.s.queues, hosts[n - 1]);
      var p := Pick(q, |q|, poll.node, poll.Cap(hosts[n - 1]));
      var queues := a.s.queues[hosts[n - 1] := p.rest];
      QueuesAsk(a.s, queues, asked);
      LeaseAllAsks(a.(s := a.s.(queues := queues)), p.ids, |p.ids|, poll, asked);
    }
  }

  lemma LinkTables(s: State, primary: nat, twin: nat)
    ensures var s' := Link(s, primary, twin);
            && s'.nextId == s.nextId && s'.owner == s.owner && s'.audits == s.audits
            && s'.jobs == if primary in s.jobs then s.jobs[primary := s.jobs[primary].(twin := Some(twin))] else s.jobs
  {
  }

  lemma AddTwinTables(s: State, h: Handout, poll: Poll)
    requires h.id < s.nextId
    ensures var s' := AddTwin(s, h, poll);
            && s'.nextId == s.nextId + 1
            && s'.owner == s.owner[s.nextId := h.id]
            && s'.audits == s.audits[s.nextId := AuditPair(h.req, poll.node, None, None, None)]
            && s.nextId in s'.jobs && s'.jobs[s.nextId].req == h.req && s'.jobs[s.nextId].isTwin
            && (forall id | id in s'.jobs :: id in s.jobs || id == s.nextId)
            && forall id | id in s.jobs && id != s.nextId ::
                 id in s'.jobs && s'.jobs[id].req == s.jobs[id].req && s'.jobs[id].isTwin == s.jobs[id].isTwin
  {
    var twin := Job(h.req, false, None, 0, Some(poll.node), Some(h.id), true, poll.now);
    LinkTables(NewJob(s, twin), h.id, s.nextId);
    hide Link, Queue;
  }

  lemma AddTwinAsks(s: State, h: Handout, poll: Poll, asked: map<nat, Request>)
    requires AsksFor(s, asked) && h.id in asked && asked[h.id] == h.req
    ensures AsksFor(AddTwin(s, h, poll), asked)
  {
    AddTwinTables(s, h, poll);
    hide AddTwin;
  }

  lemma {:induction false} AddTwinsAsk(s: State, twins: seq<Handout>, n: nat, poll: Poll, asked: map<nat, Request>)
    requires n <= |twins| && AsksFor(s, asked) && HandsAsked(twins, asked)
    ensures AsksFor(AddTwins(s, twins, n, poll), asked)
  {
    hide AsksFor, AddTwin;
    if n > 0 {
      AddTwinsAsk(s, twins, n - 1, poll, asked);
      assert twins[n - 1] in twins;
      AddTwinAsks(AddTwins(s, twins, n - 1, poll), twins[n - 1], poll, asked);
    }
  }

  lemma StepAsks(s: State, step: Step, asked: map<nat, Request>)
    requires AsksFor(s, asked)
    ensures AsksFor(Next(s, step), if step.DoFetch? then asked[s.nextId := step.req] else asked)
  {
    hide Report, Sweep, TakeHosts, AddTwins, OnlyGoes;
    match step
    case DoFetch(req, now) =>
    case DoTake(hosts, poll) =>
      hide AsksFor;
      var a := TakeHosts(s, hosts, |hosts|, poll);
      TakeHostsAsks(s, hosts, |hosts|, poll, asked);
      AddTwinsAsk(a.s, a.twins, |a.twins|, poll, asked);
    case DoReport(node, id, outcome) =>
      ReportGoes(s, node, id, outcome);
      GoesAsks(s, Report(s, node, id, outcome), asked);
    case DoSweep(now, expired) =>
      SweepGoes(s, now, expired);
      GoesAsks(s, Sweep(s, now, expired), asked);
    case DoShutdown =>
  }

  /** In every run a live fetch asks what it was accepted for, and a twin what its primary's fetch was. */
  lemma {:induction false} RunsAskTheirOwn(steps: seq<Step>, n: nat)
    requires n <= |steps|
    ensures AsksFor(Run(steps, n), Asked(steps, n))
  {
    hide AsksFor, Next;
    if n == 0 {
      assert AsksFor(Empty(), map[]) by { EmptyAsks(); }
    } else {
      RunsAskTheirOwn(steps, n - 1);
      StepAsks(Run(steps, n - 1), steps[n - 1], Asked(steps, n - 1));
      FetchEnabled(Run(steps, n - 1), steps[n - 1]);
    }
  }

  lemma EmptyAsks()
    ensures AsksFor(Empty(), map[])
  {
  }
}
