/**
 What the four windows mean: their requests are as many as the logged requests of
 the window and their matches as many as those of them that brought a match.
 */
module StatsWindows {
  import opened Sets
  import opened StatsSpec
  import opened StatsProof

  // ---- sets of logged requests ----

  /** Whole minutes, and whole hours, up to a time in milliseconds. */
  function MinuteAt(t: nat): nat { t / 60_000 }
  function HourAt(t: nat): nat { t / 3_600_000 }

  /** Those among the first `n` in the sixty minutes that end with the minute of `now`. */
  function InSixtyMinutes(events: seq<Event>, n: nat, now: nat): set<nat>
    requires n <= |events|
  {
    set i: nat | 0 <= i < n && MinuteAt(now) < MinuteAt(events[i].t) + 60 && MinuteAt(events[i].t) <= MinuteAt(now)
  }

  /** Those among the first `n` in the hour of `now`, the `hours - 1` before it, or later. */
  function InLastHours(events: seq<Event>, n: nat, now: nat, hours: nat): set<nat>
    requires n <= |events|
  {
    set i: nat | 0 <= i < n && HourAt(now) < HourAt(events[i].t) + hours
  }

  /** Those of them that brought a match. */
  function Matching(events: seq<Event>, among: set<nat>): set<nat> {
    set i | i in among && i < |events| && events[i].isMatch
  }

  /** The bucket counts these requests: all of them, and those that brought a match. */
  ghost predicate Counts(b: Bucket, events: seq<Event>, among: set<nat>) {
    b.requests == |among| && b.matches == |Matching(events, among)|
  }

  lemma OneMore(b: Bucket, events: seq<Event>, among: set<nat>, i: nat, inside: bool)
    requires Counts(b, events, among) && i < |events| && i !in among
    ensures Counts(
              if inside then Bucket(b.requests + 1, b.matches + (if events[i].isMatch then 1 else 0)) else b,
              events, if inside then among + {i} else among)
  {
    if inside {
      assert Matching(events, among + {i})
          == Matching(events, among) + (if events[i].isMatch then {i} else {});
    }
  }

  lemma SameMinute(t: nat)
    ensures Minute(t) == MinuteAt(t) && Hour(t) == HourAt(t)
  {
  }

  predicate Sixty(t: nat, now: nat) {
    MinuteAt(now) < MinuteAt(t) + 60 && MinuteAt(t) <= MinuteAt(now)
  }

  lemma SixtyMore(events: seq<Event>, n: nat, now: nat)
    requires 0 < n <= |events|
    ensures var before := InSixtyMinutes(events, n - 1, now);
            && n - 1 !in before
            && InSixtyMinutes(events, n, now) == if Sixty(events[n - 1].t, now) then before + {n - 1} else before
  {
    hide MinuteAt;
  }

  lemma LastHourMore(log: Log, n: nat, now: nat)
    requires 0 < n <= |log.events|
    ensures var b, e := LastHour(log, n - 1, MinuteAt(now)), log.events[n - 1];
            LastHour(log, n, MinuteAt(now))
            == if Sixty(e.t, now) then Bucket(b.requests + 1, b.matches + (if e.isMatch then 1 else 0)) else b
  {
    hide Minute, MinuteAt;
    SameMinute(log.events[n - 1].t);
  }

  lemma {:induction false} SixtyMinutesCounted(log: Log, n: nat, now: nat)
    requires n <= |log.events|
    ensures Counts(LastHour(log, n, MinuteAt(now)), log.events, InSixtyMinutes(log.events, n, now))
  {
    hide Counts, MinuteAt, Sixty;
    if n == 0 {
      NothingCounts(log.events);
      assert InSixtyMinutes(log.events, 0, now) == {};
    } else {
      hide LastHour, InSixtyMinutes;
      SixtyMinutesCounted(log, n - 1, now);
      SixtyMore(log.events, n, now);
      LastHourMore(log, n, now);
      OneMore(
        LastHour(log, n - 1, MinuteAt(now)), log.events, InSixtyMinutes(log.events, n - 1, now), n - 1,
        Sixty(log.events[n - 1].t, now));
    }
  }

  lemma CutoffIff(t: nat, now: nat, hours: nat)
    requires hours >= 1
    ensures Hour(t) >= Cutoff(now, hours) <==> HourAt(now) < HourAt(t) + hours
  {
    hide Hour, HourAt;
    SameMinute(now);
    SameMinute(t);
  }

  lemma HoursMore(events: seq<Event>, n: nat, now: nat, hours: nat)
    requires 0 < n <= |events|
    ensures var before := InLastHours(events, n - 1, now, hours);
            && n - 1 !in before
            && InLastHours(events, n, now, hours)
               == if HourAt(now) < HourAt(events[n - 1].t) + hours then before + {n - 1} else before
  {
    hide HourAt;
  }

  lemma SinceMore(log: Log, n: nat, now: nat, hours: nat)
    requires 0 < n <= |log.events| && hours >= 1
    ensures var b, e := SinceHour(log, n - 1, Cutoff(now, hours)), log.events[n - 1];
            SinceHour(log, n, Cutoff(now, hours))
            == if HourAt(now) < HourAt(e.t) + hours
               then Bucket(b.requests + 1, b.matches + (if e.isMatch then 1 else 0)) else b
  {
    hide Hour, HourAt, Cutoff;
    CutoffIff(log.events[n - 1].t, now, hours);
  }

  lemma {:induction false} LastHoursCounted(log: Log, n: nat, now: nat, hours: nat)
    requires n <= |log.events| && hours >= 1
    ensures Counts(SinceHour(log, n, Cutoff(now, hours)), log.events, InLastHours(log.events, n, now, hours))
  {
    hide Counts, Hour, HourAt, Cutoff;
    if n == 0 {
      NothingCounts(log.events);
      assert InLastHours(log.events, 0, now, hours) == {};
    } else {
      hide SinceHour, InLastHours;
      LastHoursCounted(log, n - 1, now, hours);
      HoursMore(log.events, n, now, hours);
      SinceMore(log, n, now, hours);
      OneMore(
        SinceHour(log, n - 1, Cutoff(now, hours)), log.events, InLastHours(log.events, n - 1, now, hours), n - 1,
        HourAt(now) < HourAt(log.events[n - 1].t) + hours);
    }
  }

  /** Those among the first `n` that brought a match. */
  function Matches(events: seq<Event>, n: nat): set<nat>
    requires n <= |events|
  {
    set i: nat | 0 <= i < n && events[i].isMatch
  }

  lemma MatchesMore(events: seq<Event>, n: nat)
    requires 0 < n <= |events|
    ensures |Matches(events, n)| == |Matches(events, n - 1)| + (if events[n - 1].isMatch then 1 else 0)
  {
    var last: set<nat> := if events[n - 1].isMatch then {n - 1} else {};
    assert Matches(events, n) == Matches(events, n - 1) + last;
  }

  lemma {:induction false} AllCounted(log: Log, n: nat)
    requires n <= |log.events|
    ensures SinceHour(log, n, 0).requests == n && SinceHour(log, n, 0).matches == |Matches(log.events, n)|
  {
    if n == 0 {
      assert Matches(log.events, 0) == {};
    } else {
      hide Hour, Matches;
      AllCounted(log, n - 1);
      MatchesMore(log.events, n);
    }
  }

  lemma NothingCounts(events: seq<Event>)
    ensures Counts(ZERO, events, {})
  {
    assert Matching(events, {}) == {};
  }

  /** A snapshot counts the log: the last sixty minutes since the counters were loaded, the last 24 and 168 hours and
      everything, each with its matches. */
  lemma SnapshotCounts(n: Node, log: Log, since: Log, clock: nat, now: nat)
    requires Exact(n, log, since, clock) && now >= clock
    ensures Counts(M60(n, now), since.events, InSixtyMinutes(since.events, |since.events|, now))
    ensures Counts(WindowHours(n, now, 24), log.events, InLastHours(log.events, |log.events|, now, 24))
    ensures Counts(WindowHours(n, now, 168), log.events, InLastHours(log.events, |log.events|, now, 168))
    ensures n.total == Bucket(|log.events|, |Matches(log.events, |log.events|)|)
  {
    hide Counts, Exact, LastHour, SinceHour, M60, WindowHours, Cutoff, Matches, Minute, MinuteAt;
    SnapshotExact(n, log, since, clock, now);
    SameMinute(now);
    SixtyMinutesCounted(since, |since.events|, now);
    LastHoursCounted(log, |log.events|, now, 24);
    LastHoursCounted(log, |log.events|, now, 168);
    ExactTotal(n, log, since, clock);
    AllCounted(log, |log.events|);
  }

  lemma ExactTotal(n: Node, log: Log, since: Log, clock: nat)
    requires Exact(n, log, since, clock)
    ensures n.total == SinceHour(log, |log.events|, 0)
  {
  }

  // ---- memory ----

  /** At most 170 hours stay in memory, and none is dropped that is less than 170 hours old. */
  lemma MemoryIsBounded(n: Node, e: Event)
    requires |n.ring| == RING && |n.hours| <= 170 && forall h | h in n.hours :: h <= HourAt(e.t)
    ensures var kept := Record(n, e).hours;
            && |kept| <= 170
            && (forall h | h in kept :: h in n.hours || h == HourAt(e.t))
            && forall h | h in n.hours && h + 170 > HourAt(e.t) :: h in kept
  {
    SameMinute(e.t);
    var last := HourAt(e.t);
    hide Zeroed, Minute, Hour, HourAt, Add, One;
    var kept := Record(n, e).hours;
    var lo: nat := if last >= 169 then last - 169 else 0;
    var more := n.hours[last := Add(At(n.hours, last), One(e))];
    assert kept == if |more| > 169 then From(more, lo) else more;
    FromBounded(more, lo, last);
    hide Record, From;
  }

  lemma FromBounded(hours: Hours, lo: nat, last: nat)
    requires last < lo + 170 && forall h | h in hours :: h <= last
    ensures |From(hours, lo)| <= 170
    ensures forall h :: h in From(hours, lo) <==> h in hours && h >= lo
  {
    var kept := From(hours, lo);
    assert forall h | h in kept.Keys :: h in Span(lo, 170);
    SubsetSize(kept.Keys, Span(lo, 170));
  }

  // ---- over whole histories ----

  /** The requests counted by the first `k` acts. */
  ghost function Counted(acts: seq<Act>, k: nat): seq<Event>
    requires k <= |acts|
  {
    if k == 0 then []
    else if acts[k - 1].Count? && Allowed(Story(acts, k - 1), acts[k - 1]) then Counted(acts, k - 1) + [acts[k - 1].e]
    else Counted(acts, k - 1)
  }

  /** Those counted since the last restart. */
  ghost function CountedSince(acts: seq<Act>, k: nat): seq<Event>
    requires k <= |acts|
  {
    if k == 0 || !Allowed(Story(acts, k - 1), acts[k - 1]) then if k == 0 then [] else CountedSince(acts, k - 1)
    else match acts[k - 1]
      case Count(e) => CountedSince(acts, k - 1) + [e]
      case Flush => CountedSince(acts, k - 1)
      case Restart(_) => []
  }

  lemma {:induction false} LogIsCounted(acts: seq<Act>, k: nat)
    requires k <= |acts|
    ensures Story(acts, k).log.events == Counted(acts, k) && Story(acts, k).since.events == CountedSince(acts, k)
  {
    hide Allowed, Record, Flushed, Load;
    if k > 0 {
      LogIsCounted(acts, k - 1);
    }
  }

  /** In every history, restarts included, a snapshot's windows count the requests that were counted: each window's
      requests, and those of them that brought a match. */
  lemma StoriesCount(acts: seq<Act>, k: nat, now: nat)
    requires k <= |acts| && now >= Story(acts, k).clock
    ensures var (n, log, since) := (Story(acts, k).n, Counted(acts, k), CountedSince(acts, k));
            && Counts(M60(n, now), since, InSixtyMinutes(since, |since|, now))
            && Counts(WindowHours(n, now, 24), log, InLastHours(log, |log|, now, 24))
            && Counts(WindowHours(n, now, 168), log, InLastHours(log, |log|, now, 168))
            && n.total == Bucket(|log|, |Matches(log, |log|)|)
  {
    var w := Story(acts, k);
    StoriesAreExact(acts, k);
    LogIsCounted(acts, k);
    hide Story, Counts, Exact, Tracked, InSixtyMinutes, InLastHours, M60, WindowHours, Matches;
    assert Exact(w.n, w.log, w.since, w.clock);
    SnapshotCounts(w.n, w.log, w.since, w.clock, now);
  }
}
