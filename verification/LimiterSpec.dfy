/**
 The sliding-window limiter: one attempt to send is one step under the lock, at a
 time read under the lock. Times are milliseconds.
 */
module LimiterSpec {
  import opened Results

  datatype Window = Window(limit: nat, ms: nat)

  datatype Limiter = Limiter(specs: seq<Window>, sent: seq<nat>, cooldown: Option<nat>, nextSlot: Option<nat>)

  function Since(now: nat, t: nat): nat { if now >= t then now - t else 0 }

  function Max(a: nat, b: nat): nat { if a > b then a else b }

  /** The largest of the first `n` windows. */
  function Widest(specs: seq<Window>, n: nat): (w: nat)
    requires n <= |specs|
    ensures forall i | 0 <= i < n :: specs[i].ms <= w
  {
    if n == 0 then 0 else Max(Widest(specs, n - 1), specs[n - 1].ms)
  }

  /** How many of the oldest sends, from the `i`-th on, are past every window. */
  function Stale(sent: seq<nat>, now: nat, widest: nat, i: nat): (r: nat)
    requires i <= |sent|
    ensures i <= r <= |sent|
    decreases |sent| - i
  {
    if i < |sent| && Since(now, sent[i]) >= widest then Stale(sent, now, widest, i + 1) else i
  }

  function Prune(sent: seq<nat>, now: nat, specs: seq<Window>): seq<nat> {
    sent[Stale(sent, now, Widest(specs, |specs|), 0)..]
  }

  /** Newest sends, among the first `n`, still inside a window. */
  function InWindow(sent: seq<nat>, now: nat, ms: nat, n: nat): (c: nat)
    requires n <= |sent|
    ensures c <= n
  {
    if n > 0 && Since(now, sent[n - 1]) < ms then 1 + InWindow(sent, now, ms, n - 1) else 0
  }

  predicate Blocks(sent: seq<nat>, now: nat, w: Window) {
    InWindow(sent, now, w.ms, |sent|) >= w.limit
  }

  /** Every window has room for one more send. */
  predicate Admits(sent: seq<nat>, now: nat, specs: seq<Window>) {
    forall i | 0 <= i < |specs| :: !Blocks(sent, now, specs[i])
  }

  /** Until the limit-th newest send leaves a full window. */
  function FreesIn(sent: seq<nat>, now: nat, w: Window): nat
    requires w.limit >= 1 && Blocks(sent, now, w)
  {
    var age := Since(now, sent[|sent| - w.limit]);
    if age >= w.ms then 0 else w.ms - age
  }

  /** The longest of the waits of the first `n` windows that are full. */
  function WindowWait(sent: seq<nat>, now: nat, specs: seq<Window>, n: nat): Option<nat>
    requires n <= |specs| && forall i | 0 <= i < |specs| :: specs[i].limit >= 1
  {
    if n == 0 then None
    else
      var rest := WindowWait(sent, now, specs, n - 1);
      if !Blocks(sent, now, specs[n - 1]) then rest
      else
        var d := FreesIn(sent, now, specs[n - 1]);
        Some(if rest.Some? then Max(rest.value, d) else d)
  }

  predicate GoodSpecs(specs: seq<Window>) {
    forall i | 0 <= i < |specs| :: specs[i].limit >= 1
  }

  datatype Try = Try(l: Limiter, wait: Option<nat>)

  /** One attempt: a wait, or the send is on record. `gap` is the pacing gap drawn, none when the limiter does not
      pace. */
  function Attempt(l: Limiter, now: nat, gap: Option<nat>): Try
    requires GoodSpecs(l.specs)
  {
    if l.cooldown.Some? && l.cooldown.value > now then Try(l, Some(l.cooldown.value - now))
    else
      var l1 := l.(cooldown := None);
      if gap.Some? && l.nextSlot.Some? && l.nextSlot.value > now then Try(l1, Some(l.nextSlot.value - now))
      else
        var sent := Prune(l.sent, now, l.specs);
        var wait := WindowWait(sent, now, l.specs, |l.specs|);
        if wait.Some? then Try(l1.(sent := sent), wait)
        else
          Try(l1.(sent := sent + [now], nextSlot := if gap.Some? then Some(now + gap.value) else l.nextSlot), None)
  }

  function Update(l: Limiter, specs: seq<Window>): Limiter {
    if specs == [] then l else l.(specs := specs)
  }

  function Cool(l: Limiter, until: nat): Limiter {
    if l.cooldown.None? || l.cooldown.value < until then l.(cooldown := Some(until)) else l
  }

  // ---- runs ----

  datatype Step = Acquire(gap: Option<nat>) | Adopt(specs: seq<Window>) | Cooldown(secs: nat)

  /** Everything that happened: all sends ever granted, all deadlines ever set, the last time seen, and the smallest of
      the largest windows that have been pruned by. */
  datatype World = World(l: Limiter, all: seq<nat>, deadlines: set<nat>, clock: nat, kept: nat)

  predicate StepOk(step: Step) {
    step.Adopt? ==> GoodSpecs(step.specs)
  }

  function Step1(w: World, step: Step, now: nat): World
    requires GoodSpecs(w.l.specs) && StepOk(step) && now >= w.clock
  {
    match step
    case Acquire(gap) =>
      var t := Attempt(w.l, now, gap);
      w.(l := t.l, all := if t.wait.None? then w.all + [now] else w.all, clock := now)
    case Adopt(specs) =>
      var l := Update(w.l, specs);
      var widest := Widest(l.specs, |l.specs|);
      w.(l := l, clock := now, kept := if widest < w.kept then widest else w.kept)
    case Cooldown(secs) =>
      w.(l := Cool(w.l, now + 1000 * secs), deadlines := w.deadlines + {now + 1000 * secs}, clock := now)
  }
}
