/**
 Exactly when the limiter grants and how long a refusal waits, told from what the
 run has seen: the deadlines set, the last paced grant and its own gap, and the
 grants still inside each window.
 */
module LimiterGrants {
  import opened Results
  import opened LimiterSpec
  import opened LimiterProof

  // ---- what a run has seen ----

  /** The n-th step is granted. */
  ghost predicate Granted(specs: seq<Window>, steps: seq<(Step, nat)>, n: nat)
    requires n < |steps| && GoodSpecs(specs) && Schedule(steps)
  {
    var (step, now) := steps[n];
    step.Acquire? && Attempt(Run(specs, steps, n).l, now, step.gap).wait.None?
  }

  /** The grants among the first `n` steps that are less than `ms` old at `now`. */
  ghost function Recent(specs: seq<Window>, steps: seq<(Step, nat)>, n: nat, now: nat, ms: nat): set<nat>
    requires n <= |steps| && GoodSpecs(specs) && Schedule(steps)
  {
    set k: nat | 0 <= k < n && Granted(specs, steps, k) && now < steps[k].1 + ms
  }

  /** Step `k` set the deadline `d`. */
  ghost predicate Sets(steps: seq<(Step, nat)>, k: nat, d: nat) {
    k < |steps| && steps[k].0.Cooldown? && d == steps[k].1 + 1000 * steps[k].0.secs
  }

  ghost predicate SetBy(steps: seq<(Step, nat)>, n: nat, d: nat) {
    exists k: nat :: k < n && Sets(steps, k, d)
  }

  /** `d` is the latest deadline the first `n` steps set. */
  ghost predicate Latest(steps: seq<(Step, nat)>, n: nat, d: nat) {
    SetBy(steps, n, d) && forall e: nat | SetBy(steps, n, e) :: e <= d
  }

  ghost predicate DeadlineAhead(steps: seq<(Step, nat)>, n: nat, now: nat) {
    exists d: nat :: SetBy(steps, n, d) && d > now
  }

  /** Step `m` is the last paced grant among the first `n`. */
  ghost predicate LastPaced(specs: seq<Window>, steps: seq<(Step, nat)>, n: nat, m: nat)
    requires n <= |steps| && GoodSpecs(specs) && Schedule(steps)
  {
    && m < n && steps[m].0.Acquire? && steps[m].0.gap.Some? && PacedGrant(specs, steps, m)
    && forall i | m < i < n :: !PacedGrant(specs, steps, i)
  }

  /** The last paced grant, if any, is at least its own gap old. */
  ghost predicate GapOver(specs: seq<Window>, steps: seq<(Step, nat)>, n: nat, now: nat)
    requires n <= |steps| && GoodSpecs(specs) && Schedule(steps)
  {
    forall m: nat | LastPaced(specs, steps, n, m) :: steps[m].1 + steps[m].0.gap.value <= now
  }

  /** The windows in force: the last ones adopted, an empty list being ignored. */
  ghost function InForce(specs: seq<Window>, steps: seq<(Step, nat)>, n: nat): seq<Window>
    requires n <= |steps|
  {
    if n == 0 then specs
    else if steps[n - 1].0.Adopt? && |steps[n - 1].0.specs| > 0 then steps[n - 1].0.specs
    else InForce(specs, steps, n - 1)
  }

  /** Every window in force has fewer recent grants than its limit. */
  ghost predicate AllAdmit(specs: seq<Window>, steps: seq<(Step, nat)>, n: nat, now: nat)
    requires n <= |steps| && GoodSpecs(specs) && Schedule(steps)
  {
    var windows := InForce(specs, steps, n);
    forall i | 0 <= i < |windows| :: |Recent(specs, steps, n, now, windows[i].ms)| < windows[i].limit
  }

  // ---- the windows in force ----

  lemma {:induction false} RunInForce(specs: seq<Window>, steps: seq<(Step, nat)>, n: nat)
    requires n <= |steps| && GoodSpecs(specs) && Schedule(steps)
    ensures Run(specs, steps, n).l.specs == InForce(specs, steps, n)
  {
    hide Remembers, Timely, Held, Attempt, Widest;
    if n > 0 {
      RunInForce(specs, steps, n - 1);
      AttemptSpecs(Run(specs, steps, n - 1).l, steps[n - 1].1, steps[n - 1].0);
    }
  }

  // ---- deadlines ----

  /** The deadlines noted are those set, and the one in force is one of them. */
  ghost predicate Noted(steps: seq<(Step, nat)>, n: nat, w: World) {
    && (forall d: nat :: d in w.deadlines <==> SetBy(steps, n, d))
    && (w.l.cooldown.Some? ==> w.l.cooldown.value in w.deadlines)
  }

  lemma AttemptCooldown(l: Limiter, now: nat, gap: Option<nat>)
    requires GoodSpecs(l.specs)
    ensures var l' := Attempt(l, now, gap).l; l'.cooldown == l.cooldown || l'.cooldown.None?
  {
    hide Prune, WindowWait;
  }

  lemma SetsMore(steps: seq<(Step, nat)>, n: nat, d: nat)
    requires 0 < n <= |steps|
    ensures SetBy(steps, n, d) <==> SetBy(steps, n - 1, d) || Sets(steps, n - 1, d)
  {
    hide Sets;
  }

  lemma {:induction false} RunNotes(specs: seq<Window>, steps: seq<(Step, nat)>, n: nat)
    requires n <= |steps| && GoodSpecs(specs) && Schedule(steps)
    ensures Noted(steps, n, Run(specs, steps, n))
  {
    hide Remembers, Timely, Held, Attempt, Widest, SetBy;
    if n == 0 {
      forall d: nat ensures !SetBy(steps, 0, d) { NoneSet(steps, d); }
    } else {
      RunNotes(specs, steps, n - 1);
      var w := Run(specs, steps, n - 1);
      var (step, now) := steps[n - 1];
      if step.Acquire? {
        AttemptCooldown(w.l, now, step.gap);
      }
      forall d: nat ensures SetBy(steps, n, d) <==> SetBy(steps, n - 1, d) || Sets(steps, n - 1, d) {
        SetsMore(steps, n, d);
      }
    }
  }

  lemma NoneSet(steps: seq<(Step, nat)>, d: nat)
    ensures !SetBy(steps, 0, d)
  {
  }

  /** The limiter's deadline is ahead if and only if one that was set is, and then it is the latest. */
  lemma CooldownIs(specs: seq<Window>, steps: seq<(Step, nat)>, n: nat)
    requires n < |steps| && GoodSpecs(specs) && Schedule(steps)
    ensures var (l, now) := (Run(specs, steps, n).l, steps[n].1);
            && (DeadlineAhead(steps, n, now) <==> l.cooldown.Some? && l.cooldown.value > now)
            && (DeadlineAhead(steps, n, now) ==> Latest(steps, n, l.cooldown.value))
  {
    var w, now := Run(specs, steps, n), steps[n].1;
    RunNotes(specs, steps, n);
    assert w.clock <= now by { if n > 0 { assert steps[n - 1].1 <= steps[n].1; } }
    assert Held(w);
    hide Run, Good, SetBy, Schedule;
  }

  // ---- pacing ----

  lemma PacedSlot(specs: seq<Window>, steps: seq<(Step, nat)>, m: nat)
    requires m < |steps| && GoodSpecs(specs) && Schedule(steps) && PacedGrant(specs, steps, m)
    ensures Run(specs, steps, m + 1).l.nextSlot == Some(steps[m].1 + steps[m].0.gap.value)
  {
    hide Good, Prune, WindowWait, Widest;
  }

  lemma PacedIs(specs: seq<Window>, steps: seq<(Step, nat)>, m: nat)
    requires m < |steps| && GoodSpecs(specs) && Schedule(steps) && PacedGrant(specs, steps, m)
    ensures steps[m].0.Acquire? && steps[m].0.gap.Some?
  {
  }

  /** The next slot is the last paced grant and its gap; there is none before the first one. */
  lemma SlotIs(specs: seq<Window>, steps: seq<(Step, nat)>, n: nat)
    requires n <= |steps| && GoodSpecs(specs) && Schedule(steps)
    ensures var slot := Run(specs, steps, n).l.nextSlot;
            && (forall m: nat | LastPaced(specs, steps, n, m) :: slot == Some(steps[m].1 + steps[m].0.gap.value))
            && (slot.Some? ==> exists m: nat :: LastPaced(specs, steps, n, m))
  {
    hide Run, PacedGrant;
    forall m: nat | LastPaced(specs, steps, n, m)
      ensures steps[m].0.Acquire? && steps[m].0.gap.Some?
              && Run(specs, steps, n).l.nextSlot == Some(steps[m].1 + steps[m].0.gap.value)
    {
      PacedIs(specs, steps, m);
      PacedSlot(specs, steps, m);
      SlotStays(specs, steps, m + 1, n);
    }
    if Run(specs, steps, n).l.nextSlot.Some? {
      if forall i | 0 <= i < n :: !PacedGrant(specs, steps, i) {
        SlotStays(specs, steps, 0, n);
      } else {
        var m := LastOf(specs, steps, n);
        assert LastPaced(specs, steps, n, m);
      }
    }
  }

  lemma {:induction false} LastOf(specs: seq<Window>, steps: seq<(Step, nat)>, n: nat) returns (m: nat)
    requires n <= |steps| && GoodSpecs(specs) && Schedule(steps)
    requires exists i :: 0 <= i < n && PacedGrant(specs, steps, i)
    ensures LastPaced(specs, steps, n, m)
  {
    hide PacedGrant;
    if PacedGrant(specs, steps, n - 1) {
      m := n - 1;
      PacedIs(specs, steps, m);
    } else {
      m := LastOf(specs, steps, n - 1);
    }
  }

  // ---- windows ----

  /** How many of the times in `all` are less than `ms` old. */
  function Young(all: seq<nat>, now: nat, ms: nat): nat {
    if |all| == 0 then 0
    else Young(all[..|all| - 1], now, ms) + (if now < all[|all| - 1] + ms then 1 else 0)
  }

  lemma {:induction false} YoungIff(all: seq<nat>, now: nat, ms: nat, k: nat)
    requires Ascending(all) && k >= 1
    ensures Young(all, now, ms) >= k <==> |all| >= k && now < all[|all| - k] + ms
    decreases |all|
  {
    if |all| > 0 {
      var before := all[..|all| - 1];
      YoungIff(before, now, ms, 1);
      if k > 1 {
        YoungIff(before, now, ms, k - 1);
      }
    }
  }

  lemma YoungMore(all: seq<nat>, t: nat, now: nat, ms: nat)
    ensures Young(all + [t], now, ms) == Young(all, now, ms) + (if now < t + ms then 1 else 0)
  {
    assert (all + [t])[..|all|] == all;
  }

  lemma RecentMore(specs: seq<Window>, steps: seq<(Step, nat)>, n: nat, now: nat, ms: nat)
    requires 0 < n <= |steps| && GoodSpecs(specs) && Schedule(steps)
    ensures |Recent(specs, steps, n, now, ms)|
         == |Recent(specs, steps, n - 1, now, ms)|
            + (if Granted(specs, steps, n - 1) && now < steps[n - 1].1 + ms then 1 else 0)
  {
    hide Granted;
    var last: set<nat> := if Granted(specs, steps, n - 1) && now < steps[n - 1].1 + ms then {n - 1} else {};
    assert Recent(specs, steps, n, now, ms) == Recent(specs, steps, n - 1, now, ms) + last;
  }

  /** The record of sends is the record of grants. */
  lemma {:induction false} RecentIsYoung(specs: seq<Window>, steps: seq<(Step, nat)>, n: nat, now: nat, ms: nat)
    requires n <= |steps| && GoodSpecs(specs) && Schedule(steps)
    ensures |Recent(specs, steps, n, now, ms)| == Young(Run(specs, steps, n).all, now, ms)
  {
    hide Good, Attempt, Young, Recent, Widest;
    if n == 0 {
      NoneRecent(specs, steps, now, ms);
    } else {
      RecentIsYoung(specs, steps, n - 1, now, ms);
      RecentMore(specs, steps, n, now, ms);
      YoungMore(Run(specs, steps, n - 1).all, steps[n - 1].1, now, ms);
    }
  }

  lemma NoneRecent(specs: seq<Window>, steps: seq<(Step, nat)>, now: nat, ms: nat)
    requires GoodSpecs(specs) && Schedule(steps)
    ensures Recent(specs, steps, 0, now, ms) == {} && Young([], now, ms) == 0
  {
  }

  /** What is left after pruning blocks a window if and only if all sends ever granted fill it. */
  lemma BlocksAll(w: World, later: nat, spec: Window)
    requires Remembers(w) && Timely(w) && later >= w.clock && spec.limit >= 1 && spec.ms <= w.kept
    ensures !Blocks(w.l.sent, later, spec) <==> Young(w.all, later, spec.ms) < spec.limit
  {
    SentAscending(w, later);
    BlocksIff(w.l.sent, later, spec);
    YoungIff(w.all, later, spec.ms, spec.limit);
    hide Young, Blocks, Timely, Ascending;
    if |w.l.sent| >= spec.limit {
      assert w.l.sent[|w.l.sent| - spec.limit] == w.all[|w.all| - spec.limit];
    } else if |w.all| >= spec.limit {
      assert w.all[|w.all| - spec.limit] + w.kept <= w.clock;
    }
  }

  lemma SentAscending(w: World, later: nat)
    requires Remembers(w) && Timely(w) && later >= w.clock
    ensures Ascending(w.l.sent) && Ascending(w.all) && forall i | 0 <= i < |w.l.sent| :: w.l.sent[i] <= later
  {
    var gone := |w.all| - |w.l.sent|;
    assert forall i | 0 <= i < |w.l.sent| :: w.l.sent[i] == w.all[gone + i];
  }

  /** The sends pruned to, as a world of its own. */
  ghost function Pruned(w: World, now: nat): World {
    w.(l := w.l.(sent := Prune(w.l.sent, now, w.l.specs)), clock := now)
  }

  lemma PrunedAdmits(specs: seq<Window>, steps: seq<(Step, nat)>, n: nat, later: nat)
    requires n < |steps| && GoodSpecs(specs) && Schedule(steps) && later >= steps[n].1
    requires forall i | 0 <= i < |InForce(specs, steps, n)| ::
               InForce(specs, steps, n)[i].ms <= Run(specs, steps, n).kept
    ensures Admits(Pruned(Run(specs, steps, n), steps[n].1).l.sent, later, Run(specs, steps, n).l.specs)
       <==> AllAdmit(specs, steps, n, later)
  {
    var w, now := Run(specs, steps, n), steps[n].1;
    assert w.clock <= now by { if n > 0 { assert steps[n - 1].1 <= steps[n].1; } }
    PruneRemembers(w, now);
    PruneTimely(w, now);
    RunInForce(specs, steps, n);
    hide Run, Remembers, Timely, Blocks, Young, Recent, Prune, InForce, Schedule;
    forall i | 0 <= i < |w.l.specs|
      ensures Blocks(Pruned(w, now).l.sent, later, w.l.specs[i])
         <==> |Recent(specs, steps, n, later, w.l.specs[i].ms)| >= w.l.specs[i].limit
    {
      BlocksAll(Pruned(w, now), later, w.l.specs[i]);
      RecentIsYoung(specs, steps, n, later, w.l.specs[i].ms);
    }
  }

  /** Pruning keeps no send that is past every window, and no window needs one that is gone. */
  lemma PruneForgets(sent: seq<nat>, now: nat, specs: seq<Window>)
    requires Ascending(sent) && (forall i | 0 <= i < |sent| :: sent[i] <= now)
    ensures var kept := Prune(sent, now, specs);
            && |kept| <= |sent| && kept == sent[|sent| - |kept|..]
            && (forall i | 0 <= i < |kept| :: exists k :: 0 <= k < |specs| && now < kept[i] + specs[k].ms)
            && (forall i, k | 0 <= i < |sent| - |kept| && 0 <= k < |specs| :: sent[i] + specs[k].ms <= now)
  {
    var widest := Widest(specs, |specs|);
    StaleAre(sent, now, widest, 0);
    StaleStops(sent, now, widest, 0);
    var kept := Prune(sent, now, specs);
    if |kept| > 0 {
      var k := WidestIs(specs, |specs|, now - kept[0]);
      assert forall i | 0 <= i < |kept| :: kept[0] <= kept[i];
    }
  }

  lemma {:induction false} StaleStops(sent: seq<nat>, now: nat, widest: nat, i: nat)
    requires i <= |sent|
    ensures var r := Stale(sent, now, widest, i); r < |sent| ==> Since(now, sent[r]) < widest
    decreases |sent| - i
  {
    if i < |sent| && Since(now, sent[i]) >= widest {
      StaleStops(sent, now, widest, i + 1);
    }
  }

  lemma {:induction false} WidestIs(specs: seq<Window>, n: nat, age: nat) returns (k: nat)
    requires n <= |specs| && age < Widest(specs, n)
    ensures k < n && age < specs[k].ms
  {
    if age < specs[n - 1].ms {
      k := n - 1;
    } else {
      k := WidestIs(specs, n - 1, age);
    }
  }

  // ---- the decision ----

  /** In any run, a request is granted if and only if no deadline that was set is ahead, the last paced grant is at
      least its own gap old (when the limiter paces), and every window in force has fewer recent grants than its limit,
      as long as no window is wider than what pruning has kept. */
  lemma GrantedIff(specs: seq<Window>, steps: seq<(Step, nat)>, n: nat)
    requires n < |steps| && GoodSpecs(specs) && Schedule(steps) && steps[n].0.Acquire?
    requires forall i | 0 <= i < |InForce(specs, steps, n)| ::
               InForce(specs, steps, n)[i].ms <= Run(specs, steps, n).kept
    ensures var (step, now) := steps[n];
            Granted(specs, steps, n) <==>
            && !DeadlineAhead(steps, n, now)
            && (step.gap.Some? ==> GapOver(specs, steps, n, now))
            && AllAdmit(specs, steps, n, now)
  {
    var w := Run(specs, steps, n);
    var (step, now) := steps[n];
    CooldownIs(specs, steps, n);
    SlotIs(specs, steps, n);
    PrunedAdmits(specs, steps, n, now);
    NoWaitNoBlock(Prune(w.l.sent, now, w.l.specs), now, w.l.specs, |w.l.specs|);
    hide Run, DeadlineAhead, AllAdmit, LastPaced, Prune, WindowWait, Blocks, InForce, Schedule;
  }

  /** With windows that never change nothing needs to be kept back. */
  lemma FixedGrantedIff(specs: seq<Window>, steps: seq<(Step, nat)>, n: nat)
    requires n < |steps| && GoodSpecs(specs) && Schedule(steps) && Fixed(steps) && steps[n].0.Acquire?
    ensures var (step, now) := steps[n];
            Granted(specs, steps, n) <==>
            && !DeadlineAhead(steps, n, now)
            && (step.gap.Some? ==> GapOver(specs, steps, n, now))
            && forall i | 0 <= i < |specs| :: |Recent(specs, steps, n, now, specs[i].ms)| < specs[i].limit
  {
    hide Run, DeadlineAhead, GapOver, Granted, Recent;
    FixedWindows(specs, steps, n);
    RunInForce(specs, steps, n);
    GrantedIff(specs, steps, n);
  }

  lemma AttemptWaits(l: Limiter, now: nat, gap: Option<nat>)
    requires GoodSpecs(l.specs)
    ensures Attempt(l, now, gap).wait
         == if l.cooldown.Some? && l.cooldown.value > now then Some(l.cooldown.value - now)
            else if gap.Some? && l.nextSlot.Some? && l.nextSlot.value > now then Some(l.nextSlot.value - now)
            else WindowWait(Prune(l.sent, now, l.specs), now, l.specs, |l.specs|)
  {
    hide Prune, WindowWait;
  }

  lemma WindowsWait(specs: seq<Window>, steps: seq<(Step, nat)>, n: nat)
    requires n < |steps| && GoodSpecs(specs) && Schedule(steps)
    requires forall i | 0 <= i < |InForce(specs, steps, n)| ::
               InForce(specs, steps, n)[i].ms <= Run(specs, steps, n).kept
    ensures var (l, now) := (Run(specs, steps, n).l, steps[n].1);
            var wait := WindowWait(Prune(l.sent, now, l.specs), now, l.specs, |l.specs|);
            wait.Some? ==>
              forall later: nat | later >= now :: AllAdmit(specs, steps, n, later) <==> later >= now + wait.value
  {
    var w, now := Run(specs, steps, n), steps[n].1;
    assert w.clock <= now by { if n > 0 { assert steps[n - 1].1 <= steps[n].1; } }
    assert Good(w);
    var kept := Prune(w.l.sent, now, w.l.specs);
    PrunedAscending(w, now);
    assert GoodSpecs(w.l.specs);
    assert kept == Pruned(w, now).l.sent;
    hide Run, AllAdmit, Prune, WindowWait, Admits, InForce, Schedule, Good, Ascending;
    if WindowWait(kept, now, w.l.specs, |w.l.specs|).Some? {
      forall later: nat | later >= now
        ensures AllAdmit(specs, steps, n, later)
           <==> later >= now + WindowWait(kept, now, w.l.specs, |w.l.specs|).value
      {
        PrunedAdmits(specs, steps, n, later);
        WaitIsLeast(kept, now, w.l.specs, later);
      }
    }
  }

  /** Where a refusal's wait ends: at the latest deadline set; else at the last paced grant and its gap; else at the
      least time from which every window has room. */
  ghost predicate WaitsUntil(specs: seq<Window>, steps: seq<(Step, nat)>, n: nat, ends: nat)
    requires n < |steps| && GoodSpecs(specs) && Schedule(steps) && steps[n].0.Acquire?
  {
    var (step, now) := steps[n];
    if DeadlineAhead(steps, n, now) then Latest(steps, n, ends)
    else if step.gap.Some? && !GapOver(specs, steps, n, now) then
      exists m: nat :: LastPaced(specs, steps, n, m) && ends == steps[m].1 + steps[m].0.gap.value
    else forall later: nat | later >= now :: AllAdmit(specs, steps, n, later) <==> later >= ends
  }

  lemma PacingWaits(specs: seq<Window>, steps: seq<(Step, nat)>, n: nat)
    requires n < |steps| && GoodSpecs(specs) && Schedule(steps) && steps[n].0.Acquire? && steps[n].0.gap.Some?
    requires !DeadlineAhead(steps, n, steps[n].1) && !GapOver(specs, steps, n, steps[n].1)
    ensures Attempt(Run(specs, steps, n).l, steps[n].1, steps[n].0.gap).wait.Some?
    ensures WaitsUntil(specs, steps, n,
              steps[n].1 + Attempt(Run(specs, steps, n).l, steps[n].1, steps[n].0.gap).wait.value)
  {
    hide Attempt, Run, DeadlineAhead, Latest, Schedule, PacedGrant, WindowWait, Prune, Remembers, Timely, Held;
    hide AllAdmit;
    CooldownIs(specs, steps, n);
    SlotIs(specs, steps, n);
    AttemptWaits(Run(specs, steps, n).l, steps[n].1, steps[n].0.gap);
    var m: nat :| LastPaced(specs, steps, n, m) && steps[m].1 + steps[m].0.gap.value > steps[n].1;
  }

  lemma DeadlineWaits(specs: seq<Window>, steps: seq<(Step, nat)>, n: nat)
    requires n < |steps| && GoodSpecs(specs) && Schedule(steps) && steps[n].0.Acquire?
    requires DeadlineAhead(steps, n, steps[n].1)
    ensures Attempt(Run(specs, steps, n).l, steps[n].1, steps[n].0.gap).wait.Some?
    ensures WaitsUntil(specs, steps, n,
              steps[n].1 + Attempt(Run(specs, steps, n).l, steps[n].1, steps[n].0.gap).wait.value)
  {
    hide Attempt, Run, DeadlineAhead, Latest, Schedule, GapOver, WindowWait, Prune, Remembers, Timely, Held;
    hide AllAdmit;
    CooldownIs(specs, steps, n);
    AttemptWaits(Run(specs, steps, n).l, steps[n].1, steps[n].0.gap);
  }

  lemma RoomWaits(specs: seq<Window>, steps: seq<(Step, nat)>, n: nat)
    requires n < |steps| && GoodSpecs(specs) && Schedule(steps) && steps[n].0.Acquire? && !Granted(specs, steps, n)
    requires forall i | 0 <= i < |InForce(specs, steps, n)| ::
               InForce(specs, steps, n)[i].ms <= Run(specs, steps, n).kept
    requires !DeadlineAhead(steps, n, steps[n].1)
    requires steps[n].0.gap.Some? ==> GapOver(specs, steps, n, steps[n].1)
    ensures WaitsUntil(specs, steps, n,
              steps[n].1 + Attempt(Run(specs, steps, n).l, steps[n].1, steps[n].0.gap).wait.value)
  {
    hide Attempt, Run, DeadlineAhead, Latest, Schedule, PacedGrant, WindowWait, Prune, Remembers, Timely, Held;
    hide AllAdmit;
    hide InForce;
    CooldownIs(specs, steps, n);
    SlotIs(specs, steps, n);
    WindowsWait(specs, steps, n);
    AttemptWaits(Run(specs, steps, n).l, steps[n].1, steps[n].0.gap);
  }

  /** Every refusal, in any run, waits exactly that long. */
  lemma RefusalWaits(specs: seq<Window>, steps: seq<(Step, nat)>, n: nat)
    requires n < |steps| && GoodSpecs(specs) && Schedule(steps) && steps[n].0.Acquire? && !Granted(specs, steps, n)
    requires forall i | 0 <= i < |InForce(specs, steps, n)| ::
               InForce(specs, steps, n)[i].ms <= Run(specs, steps, n).kept
    ensures WaitsUntil(specs, steps, n,
              steps[n].1 + Attempt(Run(specs, steps, n).l, steps[n].1, steps[n].0.gap).wait.value)
  {
    hide Attempt, Run, DeadlineAhead, GapOver, Schedule, Good, InForce, WaitsUntil;
    if DeadlineAhead(steps, n, steps[n].1) {
      DeadlineWaits(specs, steps, n);
    } else if steps[n].0.gap.Some? && !GapOver(specs, steps, n, steps[n].1) {
      PacingWaits(specs, steps, n);
    } else {
      RoomWaits(specs, steps, n);
    }
  }

  lemma PrunedAscending(w: World, now: nat)
    requires Good(w) && now >= w.clock
    ensures var kept := Prune(w.l.sent, now, w.l.specs);
            Ascending(kept) && forall i | 0 <= i < |kept| :: kept[i] <= now
  {
    PruneRemembers(w, now);
    PruneTimely(w, now);
    SentAscending(Pruned(w, now), now);
  }
}
