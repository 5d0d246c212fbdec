/** Ring reuse and pruning lose nothing a window still counts, and a flushed history loads back. */
module StatsProof {
  import opened StatsSpec

  function Len(log: Log): nat { |log.events| }

  /** The newest minute not after `head` that uses a slot. */
  function MinuteOf(head: nat, slot: nat): (m: int)
    requires slot < RING
    ensures head - RING < m <= head
    ensures m % RING == slot
  {
    var back := (head % RING + RING - slot) % RING;
    SlotArith(head, slot);
    head - back
  }

  lemma SlotArith(head: nat, slot: nat)
    requires slot < RING
    ensures var back := (head % RING + RING - slot) % RING; (head - back) % RING == slot
  {
    var q, r := head / RING, head % RING;
    assert head == RING * q + r;
    var back := (r + RING - slot) % RING;
    if r >= slot {
      assert back == r - slot;
      assert head - back == RING * q + slot;
    } else {
      assert back == r + RING - slot;
      assert head - back == RING * (q - 1) + slot;
    }
  }

  lemma SameSlot(a: int, b: int)
    requires a % RING == b % RING && a < b + RING && b < a + RING
    ensures a == b
  {
  }

  // ---- sums ----

  lemma AddSwap(a: Bucket, b: Bucket, c: Bucket)
    ensures Add(Add(a, b), c) == Add(Add(a, c), b) == Add(a, Add(b, c))
    ensures Add(a, ZERO) == a
  {
  }

  // ---- the ring ----

  /** Each slot counts its newest minute. */
  ghost predicate RingExact(ring: seq<Bucket>, head: nat, log: Log) {
    && |ring| == RING
    && (forall s | 0 <= s < RING :: ring[s] == InMinute(log, Len(log), MinuteOf(head, s)))
    && (forall i | 0 <= i < Len(log) :: Minute(log.events[i].t) <= head)
  }

  lemma {:induction false} NoneInMinute(log: Log, n: nat, m: int)
    requires n <= Len(log) && forall i | 0 <= i < n :: Minute(log.events[i].t) != m
    ensures InMinute(log, n, m) == ZERO
  {
    if n > 0 {
      NoneInMinute(log, n - 1, m);
    }
  }

  function SlotAfter(head: nat, i: nat): nat { (head + i) % RING }

  /** The slot of one of the `n` minutes after the head. */
  ghost predicate Passed(head: nat, n: nat, s: nat) {
    exists i :: 1 <= i <= n && SlotAfter(head, i) == s
  }

  lemma PassedNext(head: nat, n: nat, s: nat)
    requires n > 0
    ensures Passed(head, n, s) <==> Passed(head, n - 1, s) || SlotAfter(head, n) == s
  {
    hide SlotAfter;
  }

  lemma {:induction false} ZeroedSlots(ring: seq<Bucket>, head: nat, n: nat, s: nat)
    requires |ring| == RING && s < RING
    ensures Zeroed(ring, head, n)[s] == if Passed(head, n, s) then ZERO else ring[s]
  {
    if n > 0 {
      ZeroedSlots(ring, head, n - 1, s);
      PassedNext(head, n, s);
      hide Passed;
    }
  }

  /** A slot is zeroed exactly when its minute has moved on. */
  lemma SlotMoves(head: nat, minute: nat, s: nat)
    requires minute > head && s < RING
    ensures var steps := if minute - head < RING then minute - head else RING;
            if Passed(head, steps, s) then MinuteOf(minute, s) > head else MinuteOf(minute, s) == MinuteOf(head, s)
  {
    var steps := if minute - head < RING then minute - head else RING;
    if MinuteOf(minute, s) > head {
      SteppedOver(head, minute, steps, s);
    } else {
      NotSteppedOver(head, minute, steps, s);
    }
  }

  lemma SteppedOver(head: nat, minute: nat, steps: nat, s: nat)
    requires minute > head && s < RING && MinuteOf(minute, s) > head
    requires steps == if minute - head < RING then minute - head else RING
    ensures Passed(head, steps, s)
  {
    var m := MinuteOf(minute, s);
    if m - head <= steps {
      assert SlotAfter(head, m - head) == s;
    } else {
      NextSlot(head, s);
    }
  }

  /** Some minute within a ring's length after the head uses the slot. */
  lemma NextSlot(head: nat, s: nat)
    requires s < RING
    ensures Passed(head, RING, s)
  {
    var q, r := head / RING, head % RING;
    var j := if s > r then s - r else s + RING - r;
    assert head == RING * q + r;
    if s > r {
      assert head + j == RING * q + s;
    } else {
      assert head + j == RING * (q + 1) + s;
    }
    assert SlotAfter(head, j) == s;
  }

  lemma NotSteppedOver(head: nat, minute: nat, steps: nat, s: nat)
    requires minute > head && s < RING && MinuteOf(minute, s) <= head
    requires steps == if minute - head < RING then minute - head else RING
    ensures MinuteOf(minute, s) == MinuteOf(head, s) && !Passed(head, steps, s)
  {
    var m := MinuteOf(minute, s);
    SameSlot(m, MinuteOf(head, s));
    forall i | 1 <= i <= steps ensures SlotAfter(head, i) != s {
      StillAhead(head, i, m);
    }
  }

  lemma StillAhead(head: nat, i: nat, m: int)
    requires m <= head < head + i < m + RING
    ensures SlotAfter(head, i) != m % RING
  {
  }

  lemma AdvanceSlot(n: Node, minute: nat, log: Log, s: nat)
    requires |n.ring| == RING && minute > n.head && s < RING
    requires n.ring[s] == InMinute(log, Len(log), MinuteOf(n.head, s))
    requires forall i | 0 <= i < Len(log) :: Minute(log.events[i].t) <= n.head
    ensures Advance(n, minute).ring[s] == InMinute(log, Len(log), MinuteOf(minute, s))
  {
    hide InMinute, MinuteOf, Passed, Minute, Zeroed;
    var steps := if minute - n.head < RING then minute - n.head else RING;
    ZeroedSlots(n.ring, n.head, steps, s);
    SlotMoves(n.head, minute, s);
    if Passed(n.head, steps, s) {
      NoneInMinute(log, Len(log), MinuteOf(minute, s));
    }
  }

  /** Moving the head keeps every slot exact. */
  lemma AdvanceExact(n: Node, minute: nat, log: Log)
    requires RingExact(n.ring, n.head, log)
    ensures var a := Advance(n, minute); RingExact(a.ring, a.head, log)
  {
    hide InMinute, MinuteOf, Minute, Zeroed;
    if minute > n.head {
      forall s | 0 <= s < RING ensures Advance(n, minute).ring[s] == InMinute(log, Len(log), MinuteOf(minute, s)) {
        AdvanceSlot(n, minute, log, s);
      }
    }
  }

  /** The slots up to the `k`-th, counted from the log. */
  function SlotSum(log: Log, n: nat, head: nat, k: nat): Bucket
    requires n <= |log.events| && k <= RING
  {
    if k == 0 then ZERO else Add(SlotSum(log, n, head, k - 1), InMinute(log, n, MinuteOf(head, k - 1)))
  }

  lemma {:induction false} NoSlots(log: Log, head: nat, k: nat)
    requires k <= RING
    ensures SlotSum(log, 0, head, k) == ZERO
  {
    if k > 0 {
      NoSlots(log, head, k - 1);
    }
  }

  /** One event's share of a slot. */
  lemma SlotShare(head: nat, m: nat, s: nat)
    requires s < RING
    ensures m == MinuteOf(head, s) <==> head < m + RING && m <= head && m % RING == s
  {
    if head < m + RING && m <= head && m % RING == s {
      SameSlot(m, MinuteOf(head, s));
    }
  }

  /** One more event goes to the one slot of its minute, if that is still in the ring. */
  lemma {:induction false} SlotStep(log: Log, n: nat, head: nat, k: nat)
    requires n < |log.events| && k <= RING
    ensures var m := Minute(log.events[n].t);
            SlotSum(log, n + 1, head, k) ==
              Add(SlotSum(log, n, head, k),
                  if head < m + RING && m <= head && m % RING < k then One(log.events[n]) else ZERO)
  {
    hide Minute, One, Add, MinuteOf;
    var m := Minute(log.events[n].t);
    if k == 0 {
      AddSwap(ZERO, ZERO, ZERO);
    } else {
      SlotStep(log, n, head, k - 1);
      SlotShare(head, m, k - 1);
      var before, slot := SlotSum(log, n, head, k - 1), InMinute(log, n, MinuteOf(head, k - 1));
      AddSwap(before, One(log.events[n]), slot);
      AddSwap(before, slot, One(log.events[n]));
      AddSwap(before, ZERO, slot);
      AddSwap(slot, ZERO, ZERO);
      AddSwap(Add(before, slot), ZERO, ZERO);
    }
  }

  lemma {:induction false} SlotsAreLastHour(log: Log, n: nat, head: nat)
    requires n <= |log.events|
    ensures SlotSum(log, n, head, RING) == LastHour(log, n, head)
  {
    hide SlotSum, Minute;
    if n == 0 {
      NoSlots(log, head, RING);
    } else {
      SlotStep(log, n - 1, head, RING);
      SlotsAreLastHour(log, n - 1, head);
    }
  }

  lemma {:induction false} RingIsSlots(ring: seq<Bucket>, head: nat, log: Log, k: nat)
    requires RingExact(ring, head, log) && k <= RING
    ensures RingSum(ring, k) == SlotSum(log, Len(log), head, k)
  {
    hide InMinute, MinuteOf;
    if k > 0 {
      RingIsSlots(ring, head, log, k - 1);
    }
  }

  // ---- the hours ----

  /** Hours in memory are exact, and every hour with events that is recent enough is in memory. */
  ghost predicate HoursExact(hours: Hours, log: Log, last: nat) {
    && (forall h | h in hours :: hours[h] == InHour(log, Len(log), h))
    && (forall i | 0 <= i < Len(log) :: Hour(log.events[i].t) <= last)
    && (forall i | 0 <= i < Len(log) && Hour(log.events[i].t) + RETAIN_HOURS >= last :: Hour(log.events[i].t) in hours)
  }

  /** Events in the hours of a set. */
  function InKeys(log: Log, n: nat, keys: set<nat>): Bucket
    requires n <= |log.events|
  {
    if n == 0 then ZERO
    else Add(InKeys(log, n - 1, keys), if Hour(log.events[n - 1].t) in keys then One(log.events[n - 1]) else ZERO)
  }

  lemma {:induction false} NoKeys(log: Log, n: nat)
    requires n <= |log.events|
    ensures InKeys(log, n, {}) == ZERO
  {
    if n > 0 {
      NoKeys(log, n - 1);
    }
  }

  lemma {:induction false} KeysSplit(log: Log, n: nat, keys: set<nat>, h: nat)
    requires n <= |log.events| && h in keys
    ensures InKeys(log, n, keys) == Add(InKeys(log, n, keys - {h}), InHour(log, n, h))
  {
    hide Hour, One, Add;
    if n == 0 {
      AddSwap(ZERO, ZERO, ZERO);
    } else {
      KeysSplit(log, n - 1, keys, h);
      var rest, hour := InKeys(log, n - 1, keys - {h}), InHour(log, n - 1, h);
      AddSwap(rest, hour, One(log.events[n - 1]));
      AddSwap(rest, hour, ZERO);
      AddSwap(rest, ZERO, hour);
      AddSwap(hour, ZERO, ZERO);
    }
  }

  lemma {:induction false} KeySumExact(hours: Hours, keys: set<nat>, log: Log)
    requires keys <= hours.Keys && forall h | h in keys :: hours[h] == InHour(log, Len(log), h)
    ensures KeySum(hours, keys) == InKeys(log, Len(log), keys)
    decreases |keys|
  {
    hide InHour, InKeys;
    if keys == {} {
      NoKeys(log, Len(log));
    } else {
      var h :| h in keys && KeySum(hours, keys) == Add(KeySum(hours, keys - {h}), hours[h]);
      KeySumExact(hours, keys - {h}, log);
      KeysSplit(log, Len(log), keys, h);
    }
  }

  lemma {:induction false} KeysSince(log: Log, n: nat, keys: set<nat>, h: nat)
    requires n <= |log.events|
    requires forall i | 0 <= i < n :: Hour(log.events[i].t) in keys <==> Hour(log.events[i].t) >= h
    ensures InKeys(log, n, keys) == SinceHour(log, n, h)
  {
    hide Hour;
    if n > 0 {
      KeysSince(log, n - 1, keys, h);
    }
  }

  /** Any window no longer than what pruning retains counts exactly the log's events. */
  lemma WindowExact(n: Node, log: Log, last: nat, now: nat, hours: nat)
    requires HoursExact(n.hours, log, last) && 1 <= hours <= RETAIN_HOURS && last <= Hour(now)
    ensures WindowHours(n, now, hours) == SinceHour(log, Len(log), Cutoff(now, hours))
  {
    hide InHour, InKeys, SinceHour, Hour, KeySum;
    var cutoff := Cutoff(now, hours);
    var keys := Recent(n, now, hours);
    KeySumExact(n.hours, keys, log);
    forall i | 0 <= i < Len(log) ensures Hour(log.events[i].t) in keys <==> Hour(log.events[i].t) >= cutoff {
      if Hour(log.events[i].t) >= cutoff {
        assert Hour(log.events[i].t) + RETAIN_HOURS >= last;
        assert Hour(log.events[i].t) in n.hours;
      }
    }
    KeysSince(log, Len(log), keys, cutoff);
  }

  // ---- recording ----

  function Append(log: Log, e: Event): Log { Log(log.events + [e]) }

  lemma {:induction false} InHourAppend(log: Log, e: Event, n: nat, h: nat)
    requires n <= Len(log)
    ensures InHour(Append(log, e), n, h) == InHour(log, n, h)
  {
    hide Hour;
    if n > 0 {
      InHourAppend(log, e, n - 1, h);
    }
  }

  lemma {:induction false} InMinuteAppend(log: Log, e: Event, n: nat, m: int)
    requires n <= Len(log)
    ensures InMinute(Append(log, e), n, m) == InMinute(log, n, m)
  {
    hide Minute;
    if n > 0 {
      InMinuteAppend(log, e, n - 1, m);
    }
  }

  lemma HourAfter(log: Log, e: Event, x: nat)
    ensures InHour(Append(log, e), Len(log) + 1, x)
         == if Hour(e.t) == x then Add(InHour(log, Len(log), x), One(e)) else InHour(log, Len(log), x)
  {
    hide Hour, One;
    InHourAppend(log, e, Len(log), x);
    AddSwap(InHour(log, Len(log), x), ZERO, ZERO);
  }

  /** The bucket of an hour after one more event, whether or not the hour was in memory. */
  lemma BumpedHours(hours: Hours, log: Log, last: nat, e: Event)
    requires HoursExact(hours, log, last) && Hour(e.t) >= last
    requires Hour(e.t) !in hours ==> InHour(log, Len(log), Hour(e.t)) == ZERO
    ensures HoursExact(hours[Hour(e.t) := Add(At(hours, Hour(e.t)), One(e))], Append(log, e), Hour(e.t))
  {
    var h := Hour(e.t);
    var more, log' := hours[h := Add(At(hours, h), One(e))], Append(log, e);
    hide Hour, One, Add;
    forall x | x in more ensures more[x] == InHour(log', Len(log'), x) {
      HourAfter(log, e, x);
    }
    hide InHour;
    assert forall i | 0 <= i < Len(log) :: log'.events[i] == log.events[i];
  }

  lemma PrunedHours(hours: Hours, log: Log, last: nat)
    requires HoursExact(hours, log, last)
    ensures HoursExact(From(hours, BackBy(last, RETAIN_HOURS)), log, last)
  {
    hide InHour, Hour;
  }

  lemma {:induction false} NoneInHour(log: Log, n: nat, h: nat)
    requires n <= Len(log) && forall i | 0 <= i < n :: Hour(log.events[i].t) != h
    ensures InHour(log, n, h) == ZERO
  {
    hide Hour;
    if n > 0 {
      NoneInHour(log, n - 1, h);
    }
  }

  lemma AbsentHour(hours: Hours, log: Log, last: nat, h: nat)
    requires HoursExact(hours, log, last) && h !in hours && h >= last
    ensures InHour(log, Len(log), h) == ZERO
  {
    hide Hour, InHour;
    forall i | 0 <= i < Len(log) ensures Hour(log.events[i].t) != h {
    }
    NoneInHour(log, Len(log), h);
  }

  /** One more event in the slot of the head. */
  lemma BumpedRing(ring: seq<Bucket>, head: nat, log: Log, e: Event)
    requires RingExact(ring, head, log) && Minute(e.t) == head
    ensures RingExact(ring[head % RING := Add(ring[head % RING], One(e))], head, Append(log, e))
  {
    var log' := Append(log, e);
    var slot := head % RING;
    hide Minute, One;
    SameSlot(head, MinuteOf(head, slot));
    hide MinuteOf;
    forall s | 0 <= s < RING
      ensures ring[slot := Add(ring[slot], One(e))][s] == InMinute(log', Len(log'), MinuteOf(head, s))
    {
      InMinuteAppend(log, e, Len(log), MinuteOf(head, s));
      SlotShare(head, head, s);
      AddSwap(ring[s], ZERO, ZERO);
    }
    hide InMinute;
    assert forall i | 0 <= i < Len(log) :: log'.events[i] == log.events[i];
  }

  lemma RecordRing(n: Node, log: Log, e: Event)
    requires RingExact(n.ring, n.head, log) && n.head <= Minute(e.t)
    ensures var r := Record(n, e); RingExact(r.ring, r.head, Append(log, e)) && r.head == Minute(e.t)
  {
    hide Minute, From, RingExact, Zeroed, One, Add, At;
    RingSize(n.ring, n.head, log);
    AdvanceExact(n, Minute(e.t), log);
    var a := Advance(n, Minute(e.t));
    BumpedRing(a.ring, a.head, log, e);
  }

  lemma RingSize(ring: seq<Bucket>, head: nat, log: Log)
    requires RingExact(ring, head, log)
    ensures |ring| == RING
  {
  }

  lemma RecordHours(n: Node, log: Log, last: nat, e: Event)
    requires |n.ring| == RING && HoursExact(n.hours, log, last) && Hour(e.t) >= last
    ensures HoursExact(Record(n, e).hours, Append(log, e), Hour(e.t))
    ensures Record(n, e).total == Add(n.total, One(e))
  {
    hide Minute, Hour, From, HoursExact, Zeroed, One, Add, At;
    var h := Hour(e.t);
    if h !in n.hours {
      AbsentHour(n.hours, log, last, h);
    }
    BumpedHours(n.hours, log, last, e);
    PrunedHours(n.hours[h := Add(At(n.hours, h), One(e))], Append(log, e), h);
  }

  /** Totals and hours count the whole history, the ring what happened since the counters were loaded. */
  ghost predicate Exact(n: Node, log: Log, since: Log, clock: nat) {
    && n.total == SinceHour(log, Len(log), 0)
    && HoursExact(n.hours, log, Hour(clock))
    && RingExact(n.ring, n.head, since) && n.head <= Minute(clock)
  }

  lemma {:induction false} SinceAppend(log: Log, e: Event, n: nat, h: nat)
    requires n <= Len(log)
    ensures SinceHour(Append(log, e), n, h) == SinceHour(log, n, h)
  {
    hide Hour;
    if n > 0 {
      SinceAppend(log, e, n - 1, h);
    }
  }

  lemma LaterHours(a: nat, b: nat)
    requires a <= b
    ensures Hour(a) <= Hour(b) && Minute(a) <= Minute(b)
  {
  }

  lemma AgedHours(hours: Hours, log: Log, last: nat, later: nat)
    requires HoursExact(hours, log, last) && last <= later
    ensures HoursExact(hours, log, later)
  {
  }

  /** Recording a request at a clock that has not gone back keeps every count exact. */
  lemma RecordExact(n: Node, log: Log, since: Log, clock: nat, e: Event)
    requires Exact(n, log, since, clock) && e.t >= clock
    ensures Exact(Record(n, e), Append(log, e), Append(since, e), e.t)
  {
    hide RingExact, HoursExact, From, Minute, Hour, SinceHour, Record;
    LaterHours(clock, e.t);
    RingSize(n.ring, n.head, since);
    RecordRing(n, since, e);
    RecordHours(n, log, Hour(clock), e);
    TotalAppend(log, e);
  }

  lemma TotalAppend(log: Log, e: Event)
    ensures SinceHour(Append(log, e), Len(log) + 1, 0) == Add(SinceHour(log, Len(log), 0), One(e))
  {
    SinceAppend(log, e, Len(log), 0);
  }

  /** A snapshot at a clock that has not gone back: the four windows are the counts of the log itself. */
  lemma SnapshotExact(n: Node, log: Log, since: Log, clock: nat, now: nat)
    requires Exact(n, log, since, clock) && now >= clock
    ensures M60(n, now) == LastHour(since, Len(since), Minute(now))
    ensures WindowHours(n, now, 24) == SinceHour(log, Len(log), Cutoff(now, 24))
    ensures WindowHours(n, now, 168) == SinceHour(log, Len(log), Cutoff(now, 168))
    ensures n.total == SinceHour(log, Len(log), 0)
    ensures Exact(Advance(n, Minute(now)), log, since, now)
  {
    hide RingExact, HoursExact, Minute, Hour, SinceHour, LastHour, KeySum;
    LaterHours(clock, now);
    RingSize(n.ring, n.head, since);
    AdvanceExact(n, Minute(now), since);
    AgedHours(n.hours, log, Hour(clock), Hour(now));
    WindowExact(n, log, Hour(now), now, 24);
    WindowExact(n, log, Hour(now), now, 168);
    var a := Advance(n, Minute(now));
    RingIsSlots(a.ring, a.head, since, RING);
    SlotsAreLastHour(since, Len(since), a.head);
    assert a.head == Minute(now);
  }

  // ---- flush and load ----

  /** Rows are the log's counts, except for dirty hours, whose rows are behind. */
  ghost predicate Tracked(disk: Hours, n: Node, log: Log) {
    && (forall h | h !in n.dirty :: At(disk, h) == InHour(log, Len(log), h))
    && (forall h | h in n.dirty :: At(disk, h).requests < InHour(log, Len(log), h).requests)
    && (forall h | h in disk :: disk[h].requests > 0)
  }

  lemma RecordTracked(disk: Hours, n: Node, log: Log, e: Event)
    requires Tracked(disk, n, log) && |n.ring| == RING
    ensures Tracked(disk, Record(n, e), Append(log, e))
  {
    hide Minute, Hour, InHour;
    RecordDirty(n, e);
    var n' := Record(n, e);
    hide Record;
    forall x: nat ensures InHour(Append(log, e), Len(log) + 1, x)
                       == if Hour(e.t) == x then Add(InHour(log, Len(log), x), One(e)) else InHour(log, Len(log), x) {
      HourAfter(log, e, x);
    }
    assert n'.dirty == n.dirty + {Hour(e.t)};
  }

  lemma RecordDirty(n: Node, e: Event)
    requires |n.ring| == RING
    ensures Record(n, e).dirty == n.dirty + {Hour(e.t)}
  {
  }

  ghost predicate OnDisk(disk: Hours, log: Log) {
    forall h :: At(disk, h) == InHour(log, Len(log), h)
  }

  /** A flush puts the whole history on disk exactly when no dirty hour has been pruned from memory yet. */
  lemma FlushCompleteIff(disk: Hours, n: Node, log: Log, last: nat)
    requires Tracked(disk, n, log) && HoursExact(n.hours, log, last)
    ensures OnDisk(Flushed(disk, n), log) <==> n.dirty <= n.hours.Keys
    ensures n.dirty <= n.hours.Keys ==> Tracked(Flushed(disk, n), n.(dirty := {}), log)
  {
    hide InHour, Hour;
    var disk' := Flushed(disk, n);
    forall h ensures At(disk', h) == if h in n.dirty && h in n.hours then n.hours[h] else At(disk, h) {
    }
    if h :| h in n.dirty && h !in n.hours {
      assert At(disk', h) != InHour(log, Len(log), h);
    }
  }

  /** Loading what is on disk restores the totals and every hour window; the minute ring starts over. */
  lemma LoadExact(disk: Hours, log: Log, now: nat)
    requires OnDisk(disk, log) && forall i | 0 <= i < Len(log) :: log.events[i].t <= now
    ensures Exact(Load(disk, now), log, Log([]), now)
  {
    hide InHour, KeySum, InMinute, SinceHour, InKeys;
    var n := Load(disk, now);
    forall i | 0 <= i < Len(log) ensures Hour(log.events[i].t) in disk && Hour(log.events[i].t) <= Hour(now) {
      HasEvents(log, Len(log), i);
      LaterHours(log.events[i].t, now);
    }
    hide Hour;
    KeySumExact(disk, disk.Keys, log);
    KeysSince(log, Len(log), disk.Keys, 0);
    forall s | 0 <= s < RING ensures n.ring[s] == InMinute(Log([]), 0, MinuteOf(n.head, s)) {
      NoneInMinute(Log([]), 0, MinuteOf(n.head, s));
    }
  }

  /** An hour with an event counts at least one request. */
  lemma {:induction false} HasEvents(log: Log, n: nat, i: nat)
    requires i < n <= Len(log)
    ensures InHour(log, n, Hour(log.events[i].t)).requests > 0
  {
    hide Hour;
    if i < n - 1 {
      HasEvents(log, n - 1, i);
    }
  }

  /** A fresh node is exact for no events. */
  lemma FreshExact()
    ensures Exact(Fresh(), Log([]), Log([]), 0) && Tracked(map[], Fresh(), Log([]))
  {
  }

  // ---- whole histories ----

  datatype Act = Count(e: Event) | Flush | Restart(now: nat)

  /** A node with its rows on disk, all it ever counted, and what it counted since the last restart. */
  datatype World = World(n: Node, disk: Hours, log: Log, since: Log, clock: nat)

  ghost function Act1(w: World, a: Act): World
    requires |w.n.ring| == RING
  {
    match a
    case Count(e) => World(Record(w.n, e), w.disk, Append(w.log, e), Append(w.since, e), e.t)
    case Flush => w.(disk := Flushed(w.disk, w.n), n := w.n.(dirty := {}))
    case Restart(now) => w.(n := Load(w.disk, now), since := Log([]), clock := now)
  }

  /** The clock does not go back; dirty hours are flushed before they are pruned; a restart follows a flush. */
  ghost predicate Allowed(w: World, a: Act) {
    match a
    case Count(e) => e.t >= w.clock
    case Flush => w.n.dirty <= w.n.hours.Keys
    case Restart(now) => now >= w.clock && w.n.dirty == {}
  }

  ghost predicate Sound(w: World) {
    && Exact(w.n, w.log, w.since, w.clock) && Tracked(w.disk, w.n, w.log)
    && forall i | 0 <= i < Len(w.log) :: w.log.events[i].t <= w.clock
  }

  lemma SoundStep(w: World, a: Act)
    requires Sound(w) && |w.n.ring| == RING && Allowed(w, a)
    ensures Sound(Act1(w, a)) && |Act1(w, a).n.ring| == RING
  {
    hide RingExact, HoursExact, Tracked, Record, Minute, Hour, SinceHour, KeySum, InHour;
    match a
    case Count(e) =>
      RecordExact(w.n, w.log, w.since, w.clock, e);
      RecordTracked(w.disk, w.n, w.log, e);
    case Flush =>
      FlushCompleteIff(w.disk, w.n, w.log, Hour(w.clock));
    case Restart(now) =>
      CleanOnDisk(w.disk, w.n, w.log);
      LoadExact(w.disk, w.log, now);
      LoadTracked(w.disk, w.log, now, w.n);
  }

  lemma CleanOnDisk(disk: Hours, n: Node, log: Log)
    requires Tracked(disk, n, log) && n.dirty == {}
    ensures OnDisk(disk, log)
  {
  }

  lemma LoadTracked(disk: Hours, log: Log, now: nat, n: Node)
    requires Tracked(disk, n, log) && n.dirty == {}
    ensures Tracked(disk, Load(disk, now), log)
  {
    hide InHour, KeySum;
  }

  ghost function Story(acts: seq<Act>, k: nat): (w: World)
    requires k <= |acts|
    ensures |w.n.ring| == RING
  {
    if k == 0 then World(Fresh(), map[], Log([]), Log([]), 0)
    else
      var w := Story(acts, k - 1);
      if Allowed(w, acts[k - 1]) then Act1(w, acts[k - 1]) else w
  }

  /** Through any such history, restarts included, every window and total is the count of the log. */
  lemma {:induction false} StoriesAreExact(acts: seq<Act>, k: nat)
    requires k <= |acts|
    ensures Sound(Story(acts, k))
  {
    if k == 0 {
      FreshExact();
    } else {
      hide Sound, Act1, Allowed;
      StoriesAreExact(acts, k - 1);
      var w := Story(acts, k - 1);
      if Allowed(w, acts[k - 1]) {
        SoundStep(w, acts[k - 1]);
      }
    }
  }
}
