/** The limiter object: attempts under its lock, header updates and cooldowns. */
module RateLimiter {
  import opened Results
  import opened LimiterSpec

  class RateLimiter {
    var specs: seq<Window>
    var sent: seq<nat>
    var cooldownUntil: Option<nat>
    var nextSlot: Option<nat>

    ghost function L(): Limiter
      reads this
    {
      Limiter(specs, sent, cooldownUntil, nextSlot)
    }

    constructor (specs0: seq<Window>)
      ensures L() == Limiter(specs0, [], None, None)
    {
      specs, sent, cooldownUntil, nextSlot := specs0, [], None, None;
    }

    method WidestWindow() returns (w: nat)
      ensures w == Widest(specs, |specs|)
    {
      w := 0;
      for i := 0 to |specs|
        invariant w == Widest(specs, i)
      {
        if specs[i].ms > w {
          w := specs[i].ms;
        }
      }
    }

    /** Forgets sends past every window, oldest first. */
    method PruneSent(now: nat)
      modifies this`sent
      ensures sent == Prune(old(sent), now, specs)
    {
      var widest := WidestWindow();
      ghost var cut: nat := 0;
      while |sent| > 0 && Since(now, sent[0]) >= widest
        invariant cut <= |old(sent)| && sent == old(sent)[cut..]
        invariant Stale(old(sent), now, widest, 0) == Stale(old(sent), now, widest, cut)
        decreases |sent|
      {
        sent := sent[1..];
        cut := cut + 1;
      }
    }

    /** Newest sends inside a window. */
    method CountInWindow(now: nat, ms: nat) returns (c: nat)
      ensures c == InWindow(sent, now, ms, |sent|)
    {
      c := 0;
      while c < |sent| && Since(now, sent[|sent| - 1 - c]) < ms
        invariant c <= |sent|
        invariant InWindow(sent, now, ms, |sent|) == c + InWindow(sent, now, ms, |sent| - c)
      {
        c := c + 1;
      }
    }

    method LongestWait(now: nat) returns (wait: Option<nat>)
      requires GoodSpecs(specs)
      ensures wait == WindowWait(sent, now, specs, |specs|)
    {
      hide InWindow;
      wait := None;
      for i := 0 to |specs|
        invariant wait == WindowWait(sent, now, specs, i)
      {
        var spec := specs[i];
        var inWindow := CountInWindow(now, spec.ms);
        if inWindow >= spec.limit {
          assert Blocks(sent, now, spec);
          var age := Since(now, sent[|sent| - spec.limit]);
          var d := if age >= spec.ms then 0 else spec.ms - age;
          wait := Some(if wait.Some? then Max(wait.value, d) else d);
        }
      }
    }

    /** One attempt to send: None when the send is on record, otherwise how long to sleep before trying again. */
    method TryAcquire(now: nat, gap: Option<nat>) returns (wait: Option<nat>)
      requires GoodSpecs(specs)
      modifies this`sent, this`cooldownUntil, this`nextSlot
      ensures Try(L(), wait) == Attempt(old(L()), now, gap)
    {
      hide Prune, WindowWait;
      if cooldownUntil.Some? {
        if cooldownUntil.value > now {
          return Some(cooldownUntil.value - now);
        }
        cooldownUntil := None;
      }
      if gap.Some? && nextSlot.Some? && nextSlot.value > now {
        return Some(nextSlot.value - now);
      }
      PruneSent(now);
      wait := LongestWait(now);
      if wait.None? {
        sent := sent + [now];
        if gap.Some? {
          nextSlot := Some(now + gap.value);
        }
      }
    }

    /** Adopts windows from a response header; an empty list changes nothing. */
    method UpdateSpecs(specs0: seq<Window>)
      modifies this`specs
      ensures L() == Update(old(L()), specs0)
    {
      if specs0 == [] {
        return;
      }
      if specs != specs0 {
        specs := specs0;
      }
    }

    method SetCooldown(now: nat, secs: nat)
      modifies this`cooldownUntil
      ensures L() == Cool(old(L()), now + 1000 * secs)
    {
      var until := now + 1000 * secs;
      if cooldownUntil.None? || cooldownUntil.value < until {
        cooldownUntil := Some(until);
      }
    }
  }
}
