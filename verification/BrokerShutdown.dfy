/**
 What a shutdown means for the waiting fetches, over whole runs: everyone waiting
 is told, and afterwards only a fetch accepted later can be waiting.
 */
module BrokerShutdown {
  import opened Results
  import opened BrokerSpec
  import opened BrokerProof

  // ---- only a fetch is accepted ----

  lemma AbandonKeys(s: State, id: nat)
    requires Answered(s)
    ensures Abandon(s, id).replies.Keys == s.replies.Keys
  {
    if id in s.jobs {
      RemoveReplies(s, id, Abandoned);
    }
    hide Remove, Answered;
  }

  lemma ReleaseKeys(s: State, id: nat, counted: bool)
    requires Answered(s)
    ensures Release(s, id, counted).replies.Keys == s.replies.Keys
  {
    hide Abandon;
    if id in s.jobs && counted {
      var s1 := CountFailure(Unlease(s, id), id);
      assert Answered(s1);
      AbandonKeys(s1, id);
    }
  }

  lemma {:induction false} ReleaseAllKeys(s: State, ids: seq<nat>, n: nat)
    requires n <= |ids| && Safe(s)
    ensures ReleaseAll(s, ids, n).replies.Keys == s.replies.Keys
  {
    hide Release, SafeBut;
    if n > 0 {
      ReleaseAllKeys(s, ids, n - 1);
      ReleaseAllSafe(s, ids, n - 1);
      SafeAnswers(ReleaseAll(s, ids, n - 1));
      ReleaseKeys(ReleaseAll(s, ids, n - 1), ids[n - 1], true);
    }
  }

  lemma SafeAnswers(s: State)
    requires Safe(s)
    ensures Answered(s)
  {
  }

  lemma ReportKeys(s: State, node: nat, id: nat, outcome: Outcome)
    requires Answered(s)
    ensures Report(s, node, id, outcome).replies.Keys == s.replies.Keys
  {
    hide Abandon, Release, Remove;
    if Accepted(s, node, id) {
      match outcome
      case Answer(body) => RemoveReplies(s, id, Body(body));
      case KeyRejected => ReleaseKeys(s, id, false);
      case Failed =>
        var s1 := CountFailure(s, id);
        assert Answered(s1);
        AbandonKeys(s1, id);
        ReleaseKeys(s1, id, false);
    }
  }

  /** The id a step accepts a fetch under. */
  function AcceptedBy(s: State, step: Step): set<nat> {
    if step.DoFetch? then {s.nextId} else {}
  }

  lemma StepKeys(s: State, step: Step)
    requires Safe(s)
    ensures Next(s, step).replies.Keys == s.replies.Keys + AcceptedBy(s, step)
  {
    SafeAnswers(s);
    hide SafeBut, Answered, Report, TakeHosts, AddTwins, ReleaseAll;
    match step
    case DoFetch(req, now) =>
    case DoTake(hosts, poll) =>
      TakeHostsKept(s, hosts, |hosts|, poll);
      var a := TakeHosts(s, hosts, |hosts|, poll);
      AddTwinsKept(a.s, a.twins, |a.twins|, poll);
    case DoReport(node, id, outcome) => ReportKeys(s, node, id, outcome);
    case DoSweep(now, expired) => ReleaseAllKeys(s, expired, |expired|);
    case DoShutdown =>
  }

  /** `id` was accepted by a fetch among the steps from `m` up to `n`. */
  ghost predicate FetchedSince(steps: seq<Step>, m: nat, n: nat, id: nat)
    requires n <= |steps|
  {
    exists k: nat :: FetchedAt(steps, m, n, id, k)
  }

  ghost predicate FetchedAt(steps: seq<Step>, m: nat, n: nat, id: nat, k: nat)
    requires n <= |steps|
  {
    m <= k < n && steps[k].DoFetch? && Run(steps, k).nextId == id
  }

  /** Every accepted fetch was accepted before `m` or by a fetch since. */
  lemma {:induction false} AcceptedSince(steps: seq<Step>, m: nat, n: nat, id: nat)
    requires m <= n <= |steps|
    ensures id in Run(steps, n).replies <==> id in Run(steps, m).replies || FetchedSince(steps, m, n, id)
    decreases n
  {
    hide Next, Safe, Enabled;
    if m < n {
      AcceptedSince(steps, m, n - 1, id);
      RunsAreSafe(steps, n - 1);
      var s := Run(steps, n - 1);
      StepKeys(s, steps[n - 1]);
      FetchEnabled(s, steps[n - 1]);
      hide Run;
      SinceGrows(steps, m, n, id);
    }
  }

  lemma FetchEnabled(s: State, step: Step)
    ensures step.DoFetch? ==> Enabled(s, step)
  {
  }

  lemma SinceGrows(steps: seq<Step>, m: nat, n: nat, id: nat)
    requires m < n <= |steps|
    ensures FetchedSince(steps, m, n, id) <==> FetchedSince(steps, m, n - 1, id) || FetchedAt(steps, m, n, id, n - 1)
  {
    hide Run;
    if FetchedSince(steps, m, n - 1, id) {
      var k: nat :| FetchedAt(steps, m, n - 1, id, k);
      assert FetchedAt(steps, m, n, id, k);
    }
    if FetchedSince(steps, m, n, id) {
      var k: nat :| FetchedAt(steps, m, n, id, k);
      if k < n - 1 {
        assert FetchedAt(steps, m, n - 1, id, k);
      }
    }
  }

  // ---- after a shutdown ----

  ghost predicate WaitsAt(steps: seq<Step>, n: nat, id: nat)
    requires n <= |steps|
  {
    id in Run(steps, n).replies && Run(steps, n).replies[id] == []
  }

  lemma WaitsIsLive(steps: seq<Step>, n: nat, id: nat)
    requires n <= |steps|
    ensures WaitsAt(steps, n, id) <==> id in Run(steps, n).replies && id in Run(steps, n).jobs
  {
    hide Run;
    if id in Run(steps, n).replies {
      EveryFetchAnsweredOnce(steps, n, id);
    }
  }

  lemma TellsEveryone(s: State)
    requires Answered(s)
    ensures forall id | id in Shutdown(s).replies ::
              id in s.replies && |Shutdown(s).replies[id]| == 1
              && Shutdown(s).replies[id] == if s.replies[id] == [] then [ShutDown] else s.replies[id]
  {
  }

  /** Everyone waiting when the broker shuts down is told so, and is told nothing else ever after. */
  lemma ShutdownTellsForever(steps: seq<Step>, m: nat, n: nat, id: nat)
    requires m < n <= |steps| && steps[m].DoShutdown? && WaitsAt(steps, m, id)
    ensures id in Run(steps, n).replies && Run(steps, n).replies[id] == [ShutDown]
  {
    hide Next, Safe, Shutdown, Answered;
    RunsAreSafe(steps, m);
    SafeAnswers(Run(steps, m));
    TellsEveryone(Run(steps, m));
    StepKeys(Run(steps, m), steps[m]);
    assert Run(steps, m + 1) == Shutdown(Run(steps, m)) by { ShutdownRuns(steps, m); }
    RepliesStay(steps, m + 1, n, id);
    EveryFetchAnsweredOnce(steps, n, id);
  }

  lemma ShutdownRuns(steps: seq<Step>, m: nat)
    requires m < |steps| && steps[m].DoShutdown?
    ensures Run(steps, m + 1) == Shutdown(Run(steps, m))
  {
    hide Shutdown;
  }

  /** After a shutdown a fetch waits if and only if it was accepted after it and its job is still live: in particular,
      it is not stuck for good. */
  lemma WaitsAfterShutdownIff(steps: seq<Step>, m: nat, n: nat, id: nat)
    requires m < n <= |steps| && steps[m].DoShutdown?
    ensures WaitsAt(steps, n, id) <==> FetchedSince(steps, m + 1, n, id) && id in Run(steps, n).jobs
  {
    hide Next, Safe, Shutdown, Answered, FetchedSince;
    WaitsIsLive(steps, n, id);
    AcceptedSince(steps, m + 1, n, id);
    ShutdownRuns(steps, m);
    RunsAreSafe(steps, m);
    SafeAnswers(Run(steps, m));
    TellsEveryone(Run(steps, m));
    hide Run, WaitsAt;
    if id in Run(steps, m + 1).replies {
      RepliesStay(steps, m + 1, n, id);
      EveryFetchAnsweredOnce(steps, n, id);
    }
  }

  /** After a shutdown every accepted fetch has been answered if and only if each one accepted after it has; so a
      shutdown no fetch follows leaves nobody waiting. */
  lemma AllAnsweredIff(steps: seq<Step>, m: nat, n: nat)
    requires m < n <= |steps| && steps[m].DoShutdown?
    ensures (forall id | id in Run(steps, n).replies :: |Run(steps, n).replies[id]| == 1)
       <==> (forall k | m < k < n && steps[k].DoFetch? :: Run(steps, k).nextId !in Run(steps, n).jobs)
    ensures (forall k | m < k < n :: !steps[k].DoFetch?) ==> forall id :: !WaitsAt(steps, n, id)
  {
    hide Run;
    forall id ensures WaitsAt(steps, n, id) <==> FetchedSince(steps, m + 1, n, id) && id in Run(steps, n).jobs {
      WaitsAfterShutdownIff(steps, m, n, id);
    }
    forall id | id in Run(steps, n).replies ensures !WaitsAt(steps, n, id) <==> |Run(steps, n).replies[id]| == 1 {
      EveryFetchAnsweredOnce(steps, n, id);
    }
    forall k | m < k < n && steps[k].DoFetch? ensures FetchedSince(steps, m + 1, n, Run(steps, k).nextId) {
      assert FetchedAt(steps, m + 1, n, Run(steps, k).nextId, k);
    }
  }

  /** A fetch accepted after the shutdown waits, until a node reports on it. */
  lemma LateFetchAnswered(req: Request, node: nat)
    ensures var steps := [DoShutdown, DoFetch(req, 0), DoReport(node, 1, Answer(NotFound))];
            WaitsAt(steps, 2, 1) && 1 in Run(steps, 3).replies && Run(steps, 3).replies[1] == [Body(NotFound)]
  {
    var steps := [DoShutdown, DoFetch(req, 0), DoReport(node, 1, Answer(NotFound))];
    assert Run(steps, 0) == Empty();
    assert Run(steps, 1) == Shutdown(Empty());
    assert Run(steps, 2) == Fetch(Run(steps, 1), req, 0);
    assert Run(steps, 3) == Report(Run(steps, 2), node, 1, Answer(NotFound));
  }
}
