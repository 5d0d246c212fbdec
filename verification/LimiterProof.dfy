/**
 The limiter never grants more than any window allows, counted over every send it
 ever granted although it forgets old ones; it never grants before a deadline; and
 the wait it computes is the least one.
 */
module LimiterProof {
  import opened Sets
  import opened Results
  import opened LimiterSpec

  ghost predicate Ascending(s: seq<nat>) {
    forall i, j | 0 <= i < j < |s| :: s[i] <= s[j]
  }

  // ---- windows ----

  lemma {:induction false} InWindowIff(sent: seq<nat>, now: nat, ms: nat, n: nat, k: nat)
    requires Ascending(sent) && 1 <= k <= n <= |sent| && forall i | 0 <= i < |sent| :: sent[i] <= now
    ensures InWindow(sent, now, ms, n) >= k <==> now - sent[n - k] < ms
  {
    if k > 1 {
      if Since(now, sent[n - 1]) < ms {
        InWindowIff(sent, now, ms, n - 1, k - 1);
      }
    }
  }

  /** A window is full exactly when its limit-th newest send is still inside. */
  lemma BlocksIff(sent: seq<nat>, now: nat, w: Window)
    requires Ascending(sent) && w.limit >= 1 && forall i | 0 <= i < |sent| :: sent[i] <= now
    ensures Blocks(sent, now, w) <==> |sent| >= w.limit && now < sent[|sent| - w.limit] + w.ms
  {
    if |sent| >= w.limit {
      InWindowIff(sent, now, w.ms, |sent|, w.limit);
    }
  }

  lemma {:induction false} StaleAre(sent: seq<nat>, now: nat, widest: nat, i: nat)
    requires i <= |sent|
    ensures forall j | i <= j < Stale(sent, now, widest, i) :: Since(now, sent[j]) >= widest
    decreases |sent| - i
  {
    if i < |sent| && Since(now, sent[i]) >= widest {
      StaleAre(sent, now, widest, i + 1);
    }
  }

  // ---- what holds in every run ----

  /** The sends still remembered are the newest ones, and a forgotten one is at least `kept` old. */
  ghost predicate Remembers(w: World) {
    && |w.l.sent| <= |w.all| && w.l.sent == w.all[|w.all| - |w.l.sent|..]
    && forall i | 0 <= i < |w.all| - |w.l.sent| :: w.all[i] + w.kept <= w.clock
  }

  ghost predicate Timely(w: World) {
    Ascending(w.all) && forall i | 0 <= i < |w.all| :: w.all[i] <= w.clock
  }

  /** A deadline that has not passed is still in force. */
  ghost predicate Held(w: World) {
    forall d | d in w.deadlines :: d <= w.clock || (w.l.cooldown.Some? && w.l.cooldown.value >= d)
  }

  ghost predicate Good(w: World) {
    && GoodSpecs(w.l.specs) && Remembers(w) && Timely(w) && Held(w)
    && w.kept <= Widest(w.l.specs, |w.l.specs|)
  }

  /** One more send fits: the limit-th newest of all sends ever granted is at least a window old. */
  ghost predicate Room(all: seq<nat>, now: nat, w: Window) {
    |all| >= w.limit && w.limit >= 1 ==> all[|all| - w.limit] + w.ms <= now
  }

  lemma PruneRemembers(w: World, now: nat)
    requires Good(w) && now >= w.clock
    ensures Remembers(w.(l := w.l.(sent := Prune(w.l.sent, now, w.l.specs)), clock := now))
  {
    var widest := Widest(w.l.specs, |w.l.specs|);
    var cut := Stale(w.l.sent, now, widest, 0);
    StaleAre(w.l.sent, now, widest, 0);
    var gone := |w.all| - |w.l.sent|;
    assert w.l.sent[cut..] == w.all[gone + cut..];
    forall i | 0 <= i < gone + cut ensures w.all[i] + w.kept <= now {
      if i >= gone {
        assert w.l.sent[i - gone] == w.all[i];
        assert Since(now, w.l.sent[i - gone]) >= widest;
      }
    }
  }

  /** If the remembered sends leave room in a window, all sends ever granted do. */
  lemma RoomInAll(w: World, now: nat, spec: Window)
    requires Remembers(w) && Timely(w) && now >= w.clock && spec.limit >= 1 && spec.ms <= w.kept
    requires !Blocks(w.l.sent, now, spec)
    ensures Room(w.all, now, spec)
  {
    var gone := |w.all| - |w.l.sent|;
    assert Ascending(w.l.sent) by {
      assert forall i | 0 <= i < |w.l.sent| :: w.l.sent[i] == w.all[gone + i];
    }
    forall i | 0 <= i < |w.l.sent| ensures w.l.sent[i] <= now {
      assert w.l.sent[i] == w.all[gone + i];
    }
    BlocksIff(w.l.sent, now, spec);
    if |w.all| >= spec.limit && |w.l.sent| >= spec.limit {
      assert w.l.sent[|w.l.sent| - spec.limit] == w.all[|w.all| - spec.limit];
    }
  }

  lemma {:induction false} NoWaitNoBlock(sent: seq<nat>, now: nat, specs: seq<Window>, n: nat)
    requires n <= |specs| && GoodSpecs(specs)
    ensures WindowWait(sent, now, specs, n).None? <==> forall i | 0 <= i < n :: !Blocks(sent, now, specs[i])
  {
    hide Blocks;
    if n > 0 {
      NoWaitNoBlock(sent, now, specs, n - 1);
    }
  }

  /** One more send at the end of both records. */
  lemma SendRemembers(w: World, now: nat)
    requires Remembers(w) && Timely(w) && w.clock == now
    ensures var w' := w.(l := w.l.(sent := w.l.sent + [now]), all := w.all + [now]); Remembers(w') && Timely(w')
  {
    assert (w.all + [now])[|w.all| - |w.l.sent|..] == w.all[|w.all| - |w.l.sent|..] + [now];
  }

  lemma LaterRemembers(w: World, now: nat)
    requires Remembers(w) && Timely(w) && now >= w.clock
    ensures Remembers(w.(clock := now)) && Timely(w.(clock := now))
  {
  }

  lemma OtherFields(w: World, w': World)
    requires Remembers(w) && Timely(w) && w'.all == w.all && w'.clock == w.clock && w'.l.sent == w.l.sent
             && w'.kept <= w.kept
    ensures Remembers(w') && Timely(w')
  {
  }

  lemma AcquireRemembers(w: World, gap: Option<nat>, now: nat)
    requires Good(w) && now >= w.clock
    ensures var w' := Step1(w, Acquire(gap), now); Remembers(w') && Timely(w')
  {
    hide Prune, WindowWait, Remembers, Timely;
    var w' := Step1(w, Acquire(gap), now);
    LaterRemembers(w, now);
    PruneRemembers(w, now);
    PruneTimely(w, now);
    var pruned := w.(l := w.l.(sent := Prune(w.l.sent, now, w.l.specs)), clock := now);
    SendRemembers(pruned, now);
    var sent := pruned.(l := pruned.l.(sent := pruned.l.sent + [now]), all := pruned.all + [now]);
    if Attempt(w.l, now, gap).wait.None? {
      OtherFields(sent, w');
    } else if w'.l.sent == w.l.sent {
      OtherFields(w.(clock := now), w');
    } else {
      OtherFields(pruned, w');
    }
  }

  lemma PruneTimely(w: World, now: nat)
    requires Timely(w) && now >= w.clock
    ensures Timely(w.(l := w.l.(sent := Prune(w.l.sent, now, w.l.specs)), clock := now))
  {
  }

  lemma StepHolds(w: World, step: Step, now: nat)
    requires GoodSpecs(w.l.specs) && Held(w) && StepOk(step) && now >= w.clock
    ensures Held(Step1(w, step, now))
  {
    hide Prune, WindowWait, GoodSpecs;
  }

  lemma GoodStep(w: World, step: Step, now: nat)
    requires Good(w) && StepOk(step) && now >= w.clock
    ensures Good(Step1(w, step, now))
  {
    hide Prune, WindowWait, Remembers, Timely, Held;
    StepHolds(w, step, now);
    var w' := Step1(w, step, now);
    LaterRemembers(w, now);
    match step
    case Acquire(gap) => AcquireRemembers(w, gap, now);
    case Adopt(specs) => OtherFields(w.(clock := now), w');
    case Cooldown(secs) => OtherFields(w.(clock := now), w');
  }

  /** Every grant leaves every window in force with room, over all sends ever granted, if its window is no larger than
      what pruning has kept; and no deadline ever set is still ahead. */
  lemma GrantIsAllowed(w: World, now: nat, gap: Option<nat>, i: nat)
    requires Good(w) && now >= w.clock && i < |w.l.specs| && w.l.specs[i].ms <= w.kept
    requires Attempt(w.l, now, gap).wait.None?
    ensures Room(w.all, now, w.l.specs[i])
    ensures forall d | d in w.deadlines :: d <= now
  {
    hide Prune, WindowWait, Blocks;
    var sent := Prune(w.l.sent, now, w.l.specs);
    PruneRemembers(w, now);
    NoWaitNoBlock(sent, now, w.l.specs, |w.l.specs|);
    RoomInAll(w.(l := w.l.(sent := sent), clock := now), now, w.l.specs[i]);
  }

  // ---- runs with fixed windows ----

  function Start(specs: seq<Window>): World {
    World(Limiter(specs, [], None, None), [], {}, 0, Widest(specs, |specs|))
  }

  /** Steps by any number of senders, in the order the lock lets them in, at nondecreasing times. */
  ghost predicate Schedule(steps: seq<(Step, nat)>) {
    && (forall i, j | 0 <= i < j < |steps| :: steps[i].1 <= steps[j].1)
    && (forall i | 0 <= i < |steps| :: StepOk(steps[i].0))
  }

  ghost predicate Fixed(steps: seq<(Step, nat)>) {
    forall i | 0 <= i < |steps| :: !steps[i].0.Adopt?
  }

  ghost function Run(specs: seq<Window>, steps: seq<(Step, nat)>, n: nat): (w: World)
    requires n <= |steps| && GoodSpecs(specs) && Schedule(steps)
    ensures Good(w) && (n > 0 ==> w.clock == steps[n - 1].1) && (n == 0 ==> w == Start(specs))
  {
    if n == 0 then Start(specs)
    else
      var w := Run(specs, steps, n - 1);
      GoodStep(w, steps[n - 1].0, steps[n - 1].1);
      Step1(w, steps[n - 1].0, steps[n - 1].1)
  }

  /** Any limit + 1 sends in a row span at least the window. */
  ghost predicate Spaced(all: seq<nat>, w: Window) {
    forall i | 0 <= i && i + w.limit < |all| :: all[i] + w.ms <= all[i + w.limit]
  }

  lemma {:induction false} FixedWindows(specs: seq<Window>, steps: seq<(Step, nat)>, n: nat)
    requires n <= |steps| && GoodSpecs(specs) && Schedule(steps) && Fixed(steps)
    ensures var w := Run(specs, steps, n); w.l.specs == specs && w.kept == Widest(specs, |specs|)
  {
    hide Good, Attempt;
    if n > 0 {
      FixedWindows(specs, steps, n - 1);
      AttemptSpecs(Run(specs, steps, n - 1).l, steps[n - 1].1, steps[n - 1].0);
    }
  }

  lemma AttemptSpecs(l: Limiter, now: nat, step: Step)
    requires GoodSpecs(l.specs)
    ensures step.Acquire? ==> Attempt(l, now, step.gap).l.specs == l.specs
  {
  }

  lemma {:induction false} SendsAreSpaced(specs: seq<Window>, steps: seq<(Step, nat)>, n: nat, k: nat)
    requires n <= |steps| && GoodSpecs(specs) && Schedule(steps) && Fixed(steps) && k < |specs|
    ensures Spaced(Run(specs, steps, n).all, specs[k])
  {
    hide Good, Attempt;
    if n > 0 {
      SendsAreSpaced(specs, steps, n - 1, k);
      FixedWindows(specs, steps, n - 1);
      var w := Run(specs, steps, n - 1);
      var (step, now) := steps[n - 1];
      if step.Acquire? && Attempt(w.l, now, step.gap).wait.None? {
        assert now >= w.clock by { if n > 1 { assert steps[n - 2].1 <= steps[n - 1].1; } }
        GrantIsAllowed(w, now, step.gap, k);
      }
    }
  }

  function Inside(all: seq<nat>, t: nat, ms: nat): set<nat> {
    set i | 0 <= i < |all| && t <= all[i] < t + ms
  }

  /** However senders interleave, no window of any spec, wherever it starts, ever contains more than its limit of all
      the sends ever granted. */
  lemma NeverOverLimit(specs: seq<Window>, steps: seq<(Step, nat)>, n: nat, k: nat, t: nat)
    requires n <= |steps| && GoodSpecs(specs) && Schedule(steps) && Fixed(steps) && k < |specs|
    ensures |Inside(Run(specs, steps, n).all, t, specs[k].ms)| <= specs[k].limit
  {
    hide Run, Good;
    var all := Run(specs, steps, n).all;
    SendsAreSpaced(specs, steps, n, k);
    AllAscending(specs, steps, n);
    var inside := Inside(all, t, specs[k].ms);
    if inside != {} {
      var first := Least(inside);
      forall i | i in inside ensures first <= i < first + specs[k].limit {
        SpanBound(all, specs[k], first, i);
      }
      SubsetSize(inside, Span(first, specs[k].limit));
    }
  }

  lemma SpanBound(all: seq<nat>, w: Window, first: nat, i: nat)
    requires Spaced(all, w) && Ascending(all) && first < |all| && i < |all|
    ensures i >= first + w.limit ==> all[i] >= all[first] + w.ms
  {
    if i > first + w.limit {
      assert all[first + w.limit] <= all[i];
    }
  }

  lemma AllAscending(specs: seq<Window>, steps: seq<(Step, nat)>, n: nat)
    requires n <= |steps| && GoodSpecs(specs) && Schedule(steps)
    ensures Ascending(Run(specs, steps, n).all)
  {
    hide Run;
  }

  /** A grant, in any run, comes no earlier than every deadline set before it. */
  lemma NeverBeforeDeadline(specs: seq<Window>, steps: seq<(Step, nat)>, n: nat, d: nat)
    requires n < |steps| && GoodSpecs(specs) && Schedule(steps) && d in Run(specs, steps, n).deadlines
    requires steps[n].0.Acquire? && Attempt(Run(specs, steps, n).l, steps[n].1, steps[n].0.gap).wait.None?
    ensures d <= steps[n].1
  {
    hide Prune, WindowWait, Widest, Run;
    var w := Run(specs, steps, n);
    if n > 0 {
      assert steps[n - 1].1 <= steps[n].1;
    }
  }

  // ---- pacing ----

  /** The n-th step is a grant of a pacing limiter. */
  ghost predicate PacedGrant(specs: seq<Window>, steps: seq<(Step, nat)>, n: nat)
    requires n < |steps| && GoodSpecs(specs) && Schedule(steps)
  {
    var (step, now) := steps[n];
    step.Acquire? && step.gap.Some? && Attempt(Run(specs, steps, n).l, now, step.gap).wait.None?
  }

  lemma {:induction false} SlotStays(specs: seq<Window>, steps: seq<(Step, nat)>, m: nat, n: nat)
    requires m <= n <= |steps| && GoodSpecs(specs) && Schedule(steps)
    requires forall i | m <= i < n :: !PacedGrant(specs, steps, i)
    ensures Run(specs, steps, n).l.nextSlot == Run(specs, steps, m).l.nextSlot
    decreases n
  {
    hide Good, Prune, WindowWait, Widest;
    if m < n {
      SlotStays(specs, steps, m, n - 1);
      assert !PacedGrant(specs, steps, n - 1);
    }
  }

  /** Two paced grants, whatever comes between them, are at least the first one's gap apart. */
  lemma {:induction false} PacedApart(specs: seq<Window>, steps: seq<(Step, nat)>, m: nat, n: nat)
    requires m < n < |steps| && GoodSpecs(specs) && Schedule(steps)
    requires PacedGrant(specs, steps, m) && PacedGrant(specs, steps, n)
    ensures steps[n].1 >= steps[m].1 + steps[m].0.gap.value
    decreases n
  {
    hide Good, Prune, WindowWait, Widest;
    if exists i :: m < i < n && PacedGrant(specs, steps, i) {
      var i :| m < i < n && PacedGrant(specs, steps, i);
      PacedApart(specs, steps, m, i);
    } else {
      SlotStays(specs, steps, m + 1, n);
      assert Run(specs, steps, m + 1).l.nextSlot == Some(steps[m].1 + steps[m].0.gap.value);
      hide Run;
    }
  }

  // ---- the wait ----

  lemma {:induction false} WaitIsLongest(sent: seq<nat>, now: nat, specs: seq<Window>, n: nat)
    requires n <= |specs| && GoodSpecs(specs) && WindowWait(sent, now, specs, n).Some?
    ensures var d := WindowWait(sent, now, specs, n).value;
            && (forall i | 0 <= i < n && Blocks(sent, now, specs[i]) :: FreesIn(sent, now, specs[i]) <= d)
            && (exists i :: 0 <= i < n && Blocks(sent, now, specs[i]) && FreesIn(sent, now, specs[i]) == d)
  {
    hide Blocks, FreesIn;
    if n > 0 {
      var rest := WindowWait(sent, now, specs, n - 1);
      if rest.Some? {
        WaitIsLongest(sent, now, specs, n - 1);
        var i :| 0 <= i < n - 1 && Blocks(sent, now, specs[i]) && FreesIn(sent, now, specs[i]) == rest.value;
        assert Blocks(sent, now, specs[i]);
      } else {
        NoWaitNoBlock(sent, now, specs, n - 1);
      }
      if Blocks(sent, now, specs[n - 1]) {
        assert 0 <= n - 1 < n;
      }
    }
  }

  /** A full window has room again after its wait and not before; one with room keeps it. */
  lemma RoomAfter(sent: seq<nat>, now: nat, later: nat, w: Window)
    requires Ascending(sent) && w.limit >= 1 && (forall i | 0 <= i < |sent| :: sent[i] <= now) && later >= now
    ensures !Blocks(sent, later, w) <==> !Blocks(sent, now, w) || later >= now + FreesIn(sent, now, w)
  {
    BlocksIff(sent, now, w);
    BlocksIff(sent, later, w);
    hide Blocks;
  }

  /** The wait a refusal for full windows computes is the least delay after which every window admits a send, were no
      other send granted meanwhile, also when the windows have just been tightened and some are overfull. */
  lemma WaitIsLeast(sent: seq<nat>, now: nat, specs: seq<Window>, later: nat)
    requires Ascending(sent) && (forall i | 0 <= i < |sent| :: sent[i] <= now) && GoodSpecs(specs) && later >= now
    requires WindowWait(sent, now, specs, |specs|).Some?
    ensures Admits(sent, later, specs) <==> later >= now + WindowWait(sent, now, specs, |specs|).value
  {
    hide Blocks, FreesIn, WindowWait;
    WaitIsLongest(sent, now, specs, |specs|);
    var d := WindowWait(sent, now, specs, |specs|).value;
    var longest :| 0 <= longest < |specs| && Blocks(sent, now, specs[longest])
      && FreesIn(sent, now, specs[longest]) == d;
    RoomAfter(sent, now, later, specs[longest]);
    forall i | 0 <= i < |specs|
      ensures !Blocks(sent, later, specs[i]) <==>
              !Blocks(sent, now, specs[i]) || later >= now + FreesIn(sent, now, specs[i])
    {
      RoomAfter(sent, now, later, specs[i]);
    }
  }

  // ---- where the windows may change ----

  /** Some stretch of the window's length around `now` holds more than its limit of the sends. */
  ghost predicate Crowded(all: seq<nat>, now: nat, w: Window) {
    exists t: nat :: t <= now < t + w.ms && |Inside(all, t, w.ms)| > w.limit
  }

  /** A grant without room is one that crowds a window. */
  lemma RoomIff(all: seq<nat>, now: nat, w: Window)
    requires Ascending(all) && w.limit >= 1 && forall i | 0 <= i < |all| :: all[i] <= now
    ensures Crowded(all + [now], now, w) <==> !Room(all, now, w)
  {
    var more := all + [now];
    if !Room(all, now, w) {
      var t := all[|all| - w.limit];
      assert forall i: nat | |all| - w.limit <= i <= |all| :: t <= more[i];
      SubsetSize(Span(|all| - w.limit, w.limit + 1), Inside(more, t, w.ms));
    }
    if Crowded(more, now, w) && Room(all, now, w) {
      var t: nat :| t <= now < t + w.ms && |Inside(more, t, w.ms)| > w.limit;
      var lo: nat := if |all| < w.limit then 0 else |all| - w.limit + 1;
      forall i | i in Inside(more, t, w.ms) ensures lo <= i < lo + w.limit {
        assert |all| >= w.limit && i < |all| ==> more[i] >= t && all[|all| - w.limit] < t;
      }
      SubsetSize(Inside(more, t, w.ms), Span(lo, w.limit));
    }
  }

  /** From windows `w` to `w'` at step `at`, and a grant at step `n` after it that crowds `w'`. */
  ghost predicate Overshoots(w: Window, w': Window, steps: seq<(Step, nat)>, at: nat, n: nat)
    requires w.limit >= 1 && w'.limit >= 1
  {
    && at < n < |steps| && Schedule(steps) && steps[at].0 == Adopt([w'])
    && (forall i | 0 <= i < |steps| && i != at :: !steps[i].0.Adopt?)
    && steps[n].0.Acquire?
    && var s := Run([w], steps, n);
       Attempt(s.l, steps[n].1, steps[n].0.gap).wait.None? && Crowded(s.all + [steps[n].1], steps[n].1, w')
  }

  // The newest send is never forgotten.

  ghost predicate NewestKept(w: World) {
    w.all != [] ==> w.l.sent != []
  }

  lemma EmptyAdmits(now: nat, specs: seq<Window>)
    requires GoodSpecs(specs)
    ensures WindowWait([], now, specs, |specs|).None?
  {
    hide WindowWait;
    NoWaitNoBlock([], now, specs, |specs|);
  }

  lemma StepKeepsNewest(w: World, step: Step, now: nat)
    requires GoodSpecs(w.l.specs) && StepOk(step) && now >= w.clock && NewestKept(w)
    ensures NewestKept(Step1(w, step, now))
  {
    hide Prune, WindowWait, Widest;
    EmptyAdmits(now, w.l.specs);
  }

  lemma {:induction false} SwitchedWorld(w: Window, w': Window, steps: seq<(Step, nat)>, at: nat, n: nat)
    requires w.limit >= 1 && w'.limit >= 1 && n <= |steps| && at < |steps| && Schedule(steps)
             && steps[at].0 == Adopt([w'])
    requires forall i | 0 <= i < |steps| && i != at :: !steps[i].0.Adopt?
    ensures var s := Run([w], steps, n);
            && NewestKept(s) && s.l.specs == (if n <= at then [w] else [w'])
            && s.kept == (if n <= at || w.ms < w'.ms then w.ms else w'.ms)
  {
    OneWidest(w);
    OneWidest(w');
    hide Good, Attempt, NewestKept, Widest;
    if n == 0 {
      NothingForgotten([w]);
    } else {
      SwitchedWorld(w, w', steps, at, n - 1);
      var s := Run([w], steps, n - 1);
      var (step, now) := steps[n - 1];
      assert now >= s.clock by { if n > 1 { assert steps[n - 2].1 <= steps[n - 1].1; } }
      AttemptSpecs(s.l, now, step);
      StepKeepsNewest(s, step, now);
    }
  }

  lemma NothingForgotten(specs: seq<Window>)
    ensures NewestKept(Start(specs))
  {
  }

  /** A window of one send needs only the newest send. */
  lemma OneSendRoom(s: World, now: nat, gap: Option<nat>, w': Window)
    requires Good(s) && now >= s.clock && NewestKept(s) && s.l.specs == [w'] && w'.limit == 1
    requires Attempt(s.l, now, gap).wait.None?
    ensures Room(s.all, now, w')
  {
    OneWidest(w');
    if s.all != [] {
      var cut := Stale(s.l.sent, now, w'.ms, 0);
      StaleAre(s.l.sent, now, w'.ms, 0);
      var newest := s.l.sent[|s.l.sent| - 1];
      assert newest == s.all[|s.all| - 1];
      var kept := Prune(s.l.sent, now, [w']);
      NoWaitNoBlock(kept, now, [w'], 1);
      assert !Blocks(kept, now, [w'][0]);
      if cut < |s.l.sent| {
        assert kept[|kept| - 1] == newest;
      }
    }
  }

  lemma NoOvershoot(w: Window, w': Window, steps: seq<(Step, nat)>, at: nat, n: nat)
    requires w.limit >= 1 && w'.limit >= 1 && Overshoots(w, w', steps, at, n)
    ensures w'.ms > w.ms && w'.limit >= 2
  {
    SwitchedWorld(w, w', steps, at, n);
    var s := Run([w], steps, n);
    var (step, now) := steps[n];
    assert now >= s.clock by { assert steps[n - 1].1 <= steps[n].1; }
    RoomIff(s.all, now, w');
    hide Run, Room, Crowded, Attempt;
    if w'.limit == 1 {
      OneSendRoom(s, now, step.gap, w');
    } else if w'.ms <= w.ms {
      GrantIsAllowed(s, now, step.gap, 0);
    }
  }

  // A schedule that overshoots: two sends a narrow window apart, the switch, and as many as it lets through at once.

  function Repeat(t: nat, n: nat): (r: seq<nat>)
    ensures |r| == n && forall i | 0 <= i < n :: r[i] == t
  {
    seq(n, _ => t)
  }

  function Burst(w: Window, w': Window): seq<(Step, nat)>
    requires w'.limit >= 2
  {
    [(Acquire(None), 0), (Acquire(None), w.ms), (Adopt([w']), w.ms)] + seq(w'.limit - 1, _ => (Acquire(None), w.ms))
  }

  /** An attempt of an unpaced limiter with no deadline and one window. */
  lemma OneWindow(w: Window, sent: seq<nat>, kept: seq<nat>, now: nat)
    requires w.limit >= 1 && kept == Prune(sent, now, [w]) && !Blocks(kept, now, w)
    ensures Attempt(Limiter([w], sent, None, None), now, None) == Try(Limiter([w], kept + [now], None, None), None)
  {
    hide Blocks, Prune;
    assert WindowWait(kept, now, [w], 0).None?;
    assert WindowWait(kept, now, [w], 1).None?;
  }

  lemma OneWidest(w: Window)
    ensures Widest([w], 1) == w.ms
  {
    assert Widest([w], 0) == 0;
  }

  /** The two sends before the switch: the second forgets the first. */
  lemma TwoSends(w: Window)
    requires w.limit >= 1
    ensures var l := Attempt(Limiter([w], [], None, None), 0, None);
            && l == Try(Limiter([w], [0], None, None), None)
            && Attempt(l.l, w.ms, None) == Try(Limiter([w], [w.ms], None, None), None)
  {
    hide Attempt, Prune, Blocks;
    PrunesAll(w);
    assert [] + [0] == [0] && [] + [w.ms] == [w.ms];
    EmptyHasRoom(w, 0);
    EmptyHasRoom(w, w.ms);
    OneWindow(w, [], [], 0);
    OneWindow(w, [0], [], w.ms);
  }

  lemma PrunesAll(w: Window)
    ensures Prune([], 0, [w]) == [] && Prune([0], w.ms, [w]) == []
  {
    OneWidest(w);
    assert Stale([0], w.ms, w.ms, 1) == 1;
  }

  lemma EmptyHasRoom(w: Window, now: nat)
    requires w.limit >= 1
    ensures !Blocks([], now, w)
  {
  }

  /** One more at the same time: nothing is forgotten and the window is not full. */
  lemma OneMore(w: Window, t: nat, k: nat)
    requires w.ms > 0 && 0 < k < w.limit
    ensures Attempt(Limiter([w], Repeat(t, k), None, None), t, None)
            == Try(Limiter([w], Repeat(t, k + 1), None, None), None)
  {
    hide Attempt;
    OneWidest(w);
    var sent := Repeat(t, k);
    assert Stale(sent, t, w.ms, 0) == 0;
    assert Prune(sent, t, [w]) == sent;
    OneWindow(w, sent, sent, t);
    assert sent + [t] == Repeat(t, k + 1);
  }

  lemma BurstSteps(w: Window, w': Window)
    requires w.limit >= 1 && w'.limit >= 2
    ensures var steps := Burst(w, w');
            && Schedule(steps) && |steps| == w'.limit + 2
            && steps[0] == (Acquire(None), 0) && steps[1] == (Acquire(None), w.ms) && steps[2] == (Adopt([w']), w.ms)
            && forall i | 3 <= i < |steps| :: steps[i] == (Acquire(None), w.ms)
  {
  }

  lemma BurstStart(w: Window, w': Window, steps: seq<(Step, nat)>)
    requires w.limit >= 1 && Schedule(steps) && |steps| >= 3
    requires steps[0] == (Acquire(None), 0) && steps[1] == (Acquire(None), w.ms) && steps[2] == (Adopt([w']), w.ms)
    ensures var s := Run([w], steps, 3); s.l == Limiter([w'], [w.ms], None, None) && s.all == [0, w.ms]
  {
    hide Attempt, Good, Widest, Schedule;
    TwoSends(w);
    assert Run([w], steps, 0) == Start([w]);
    var s1 := Run([w], steps, 1);
    assert s1.l == Limiter([w], [0], None, None) && s1.all == [0];
    var s2 := Run([w], steps, 2);
    assert s2.l == Limiter([w], [w.ms], None, None) && s2.all == [0, w.ms];
  }

  lemma {:induction false} BurstRun(w: Window, w': Window, steps: seq<(Step, nat)>, k: nat)
    requires w.limit >= 1 && w'.limit >= 2 && w'.ms > w.ms && 3 <= k <= w'.limit + 2 == |steps| && Schedule(steps)
    requires steps[0] == (Acquire(None), 0) && steps[1] == (Acquire(None), w.ms) && steps[2] == (Adopt([w']), w.ms)
    requires forall i | 3 <= i < |steps| :: steps[i] == (Acquire(None), w.ms)
    ensures var s := Run([w], steps, k);
            s.l == Limiter([w'], Repeat(w.ms, k - 2), None, None) && s.all == [0] + Repeat(w.ms, k - 2)
  {
    hide Attempt, Good, Widest, Schedule;
    if k == 3 {
      BurstStart(w, w', steps);
      assert Repeat(w.ms, 1) == [w.ms];
    } else {
      BurstRun(w, w', steps, k - 1);
      OneMore(w', w.ms, k - 3);
      assert [0] + Repeat(w.ms, k - 3) + [w.ms] == [0] + Repeat(w.ms, k - 2);
    }
  }

  lemma BurstCrowds(w: Window, w': Window)
    requires w'.limit >= 2 && w'.ms > w.ms
    ensures Crowded([0] + Repeat(w.ms, w'.limit - 1) + [w.ms], w.ms, w')
  {
    var all := [0] + Repeat(w.ms, w'.limit - 1);
    assert all[|all| - w'.limit] == 0;
    assert !Room(all, w.ms, w');
    hide Crowded, Room;
    RoomIff(all, w.ms, w');
  }

  lemma BurstOvershoots(w: Window, w': Window)
    requires w.limit >= 1 && w'.limit >= 2 && w'.ms > w.ms
    ensures Overshoots(w, w', Burst(w, w'), 2, w'.limit + 1)
  {
    hide Run, Attempt, Crowded, Burst, Schedule, Repeat, Good;
    var steps := Burst(w, w');
    BurstSteps(w, w');
    BurstRun(w, w', steps, w'.limit + 1);
    OneMore(w', w.ms, w'.limit - 1);
    BurstCrowds(w, w');
    assert forall i | 0 <= i < |steps| && i != 2 :: !steps[i].0.Adopt?;
  }

  /** From one window to another, some schedule crowds the new one if and only if the new one is longer, so that sends
      it should count were forgotten, and counts more than the newest send, which is never forgotten. */
  lemma SwitchOvershootsIff(w: Window, w': Window)
    requires w.limit >= 1 && w'.limit >= 1
    ensures (exists steps: seq<(Step, nat)>, at: nat, n: nat :: Overshoots(w, w', steps, at, n))
       <==> w'.ms > w.ms && w'.limit >= 2
  {
    hide Overshoots;
    forall steps: seq<(Step, nat)>, at: nat, n: nat | Overshoots(w, w', steps, at, n)
      ensures w'.ms > w.ms && w'.limit >= 2
    {
      NoOvershoot(w, w', steps, at, n);
    }
    if w'.ms > w.ms && w'.limit >= 2 {
      BurstOvershoots(w, w');
    }
  }
}
