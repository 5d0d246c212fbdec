/**
 A node's contribution counters: a ring of sixty minutes, hour buckets that are
 pruned, and a total. Hours and minutes are absolute indices.
 */
module StatsSpec {

  const MINUTE_MS: nat := 60_000
  const HOUR_MS: nat := 3_600_000
  const RETAIN_HOURS: nat := 169
  const RING: nat := 60

  datatype Bucket = Bucket(requests: nat, matches: nat)

  const ZERO := Bucket(0, 0)

  function Add(a: Bucket, b: Bucket): Bucket { Bucket(a.requests + b.requests, a.matches + b.matches) }

  datatype Event = Event(t: nat, isMatch: bool)

  function One(e: Event): Bucket { Bucket(1, if e.isMatch then 1 else 0) }
  function Minute(t: nat): nat { t / MINUTE_MS }
  function Hour(t: nat): nat { t / HOUR_MS }

  type Hours = map<nat, Bucket>

  datatype Node = Node(total: Bucket, ring: seq<Bucket>, head: nat, hours: Hours, dirty: set<nat>)

  function Fresh(): Node { Node(ZERO, seq(RING, i => ZERO), 0, map[], {}) }

  /** Zeroes the `n` slots after the head. */
  function Zeroed(ring: seq<Bucket>, head: nat, n: nat): (r: seq<Bucket>)
    requires |ring| == RING
    ensures |r| == RING
  {
    if n == 0 then ring else Zeroed(ring, head, n - 1)[(head + n) % RING := ZERO]
  }

  function Advance(n: Node, minute: nat): (r: Node)
    requires |n.ring| == RING
    ensures |r.ring| == RING
  {
    if minute <= n.head then n
    else
      var steps := if minute - n.head < RING then minute - n.head else RING;
      n.(ring := Zeroed(n.ring, n.head, steps), head := minute)
  }

  function BackBy(h: nat, n: nat): nat { if h >= n then h - n else 0 }

  /** Drops the hours before `cutoff`. */
  function From(hours: Hours, cutoff: nat): Hours {
    map h | h in hours && h >= cutoff :: hours[h]
  }

  function At(hours: Hours, h: nat): Bucket {
    if h in hours then hours[h] else ZERO
  }

  /** Counts one request. */
  function Record(n: Node, e: Event): (r: Node)
    requires |n.ring| == RING
    ensures |r.ring| == RING
  {
    var a := Advance(n, Minute(e.t));
    var slot := a.head % RING;
    var h := Hour(e.t);
    var hours := a.hours[h := Add(At(a.hours, h), One(e))];
    Node(Add(a.total, One(e)), a.ring[slot := Add(a.ring[slot], One(e))], a.head,
         if |hours| > RETAIN_HOURS then From(hours, BackBy(h, RETAIN_HOURS)) else hours, a.dirty + {h})
  }

  function RingSum(ring: seq<Bucket>, n: nat): Bucket
    requires n <= |ring|
  {
    if n == 0 then ZERO else Add(RingSum(ring, n - 1), ring[n - 1])
  }

  /** What the minute ring counts, after moving its head to now. */
  function M60(n: Node, now: nat): Bucket
    requires |n.ring| == RING
  {
    RingSum(Advance(n, Minute(now)).ring, RING)
  }

  ghost function KeySum(hours: Hours, keys: set<nat>): Bucket
    requires keys <= hours.Keys
    decreases |keys|
  {
    if keys == {} then ZERO
    else
      var h :| h in keys;
      Add(KeySum(hours, keys - {h}), hours[h])
  }

  function Cutoff(now: nat, n: nat): nat
    requires n >= 1
  {
    BackBy(Hour(now), n - 1)
  }

  /** The hours in memory from the cutoff on. */
  function Recent(n: Node, now: nat, hours: nat): set<nat>
    requires hours >= 1
  {
    set h | h in n.hours && h >= Cutoff(now, hours)
  }

  /** The current partial hour and the `hours - 1` before it. */
  ghost function WindowHours(n: Node, now: nat, hours: nat): Bucket
    requires hours >= 1
  {
    KeySum(n.hours, Recent(n, now, hours))
  }

  // ---- flushing and loading ----

  /** Writes every dirty hour still in memory over its row, and forgets which were dirty. */
  function Flushed(disk: Hours, n: Node): Hours {
    disk + map h | h in n.dirty && h in n.hours :: n.hours[h]
  }

  ghost function Load(disk: Hours, now: nat): Node {
    Node(KeySum(disk, disk.Keys), seq(RING, i => ZERO), if disk == map[] then 0 else Minute(now),
         From(disk, BackBy(Hour(now), RETAIN_HOURS)), {})
  }

  // ---- counting the log itself ----

  datatype Log = Log(events: seq<Event>)

  /** Events of one hour among the first `n`. */
  function InHour(log: Log, n: nat, h: nat): Bucket
    requires n <= |log.events|
  {
    if n == 0 then ZERO
    else Add(InHour(log, n - 1, h), if Hour(log.events[n - 1].t) == h then One(log.events[n - 1]) else ZERO)
  }

  function InMinute(log: Log, n: nat, m: int): Bucket
    requires n <= |log.events|
  {
    if n == 0 then ZERO
    else Add(InMinute(log, n - 1, m), if Minute(log.events[n - 1].t) == m then One(log.events[n - 1]) else ZERO)
  }

  /** Events whose hour is `h` or later. */
  function SinceHour(log: Log, n: nat, h: nat): Bucket
    requires n <= |log.events|
  {
    if n == 0 then ZERO
    else Add(SinceHour(log, n - 1, h), if Hour(log.events[n - 1].t) >= h then One(log.events[n - 1]) else ZERO)
  }

  /** Events of the sixty minutes up to `m`. */
  function LastHour(log: Log, n: nat, m: nat): Bucket
    requires n <= |log.events|
  {
    if n == 0 then ZERO
    else
      var at := Minute(log.events[n - 1].t);
      Add(LastHour(log, n - 1, m), if m < at + RING && at <= m then One(log.events[n - 1]) else ZERO)
  }
}
