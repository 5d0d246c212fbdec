/** One node's counters in place: a fixed ring of minutes and the hour buckets. */
module NodeStats {
  import opened StatsSpec

  class NodeStats {
    var total: Bucket
    const minutes: array<Bucket>
    var headMinute: nat
    var hours: Hours
    var dirty: set<nat>

    ghost predicate Valid()
      reads this
    {
      minutes.Length == RING
    }

    ghost function N(): Node
      reads this, minutes
    {
      Node(total, minutes[..], headMinute, hours, dirty)
    }

    constructor ()
      ensures Valid() && fresh(minutes) && N() == Fresh()
    {
      total, headMinute, hours, dirty := ZERO, 0, map[], {};
      minutes := new Bucket[RING](_ => ZERO);
      new;
      assert minutes[..] == Fresh().ring;
    }

    /** Rebuilds the counters from the rows on disk: totals from all of them, hours from the recent ones. */
    constructor Load(disk: Hours, now: nat)
      ensures Valid() && fresh(minutes) && N() == StatsSpec.Load(disk, now)
    {
      minutes := new Bucket[RING](_ => ZERO);
      headMinute := if disk == map[] then 0 else Minute(now);
      hours := From(disk, BackBy(Hour(now), RETAIN_HOURS));
      dirty := {};
      total := ZERO;
      new;
      hide KeySum, From, Minute, Hour;
      var rest := disk.Keys;
      assert KeySum(disk, {}) == ZERO by { NoHours(disk); }
      assert disk.Keys - rest == {};
      while rest != {}
        invariant rest <= disk.Keys && total == KeySum(disk, disk.Keys - rest)
        invariant minutes[..] == seq(RING, i => ZERO) && dirty == {}
        invariant headMinute == (if disk == map[] then 0 else Minute(now))
        invariant hours == From(disk, BackBy(Hour(now), RETAIN_HOURS))
        decreases |rest|
      {
        var h :| h in rest;
        OneMoreHour(disk, disk.Keys - rest, h);
        assert disk.Keys - (rest - {h}) == (disk.Keys - rest) + {h};
        total := Add(total, disk[h]);
        rest := rest - {h};
      }
      assert disk.Keys - {} == disk.Keys;
    }

    /** Moves the ring head, zeroing every slot skipped over. */
    method MoveHead(minute: nat)
      requires Valid()
      modifies this`headMinute, minutes
      ensures N() == Advance(old(N()), minute)
    {
      if minute <= headMinute {
        return;
      }
      var steps := if minute - headMinute < RING then minute - headMinute else RING;
      for i := 1 to steps + 1
        invariant minutes[..] == Zeroed(old(minutes[..]), old(headMinute), i - 1)
        invariant headMinute == old(headMinute)
      {
        minutes[(headMinute + i) % RING] := ZERO;
      }
      headMinute := minute;
    }

    method BumpSlot(b: Bucket)
      requires Valid()
      modifies minutes
      ensures minutes[..] == old(minutes[..])[headMinute % RING := Add(old(minutes[..])[headMinute % RING], b)]
    {
      var slot := headMinute % RING;
      minutes[slot] := Add(minutes[slot], b);
    }

    method BumpHour(hour: nat, b: Bucket)
      modifies this`hours, this`dirty
      ensures var more := old(hours)[hour := Add(At(old(hours), hour), b)];
              hours == if |more| > RETAIN_HOURS then From(more, BackBy(hour, RETAIN_HOURS)) else more
      ensures dirty == old(dirty) + {hour}
    {
      hours := hours[hour := Add(if hour in hours then hours[hour] else ZERO, b)];
      dirty := dirty + {hour};
      if |hours| > RETAIN_HOURS {
        hours := From(hours, BackBy(hour, RETAIN_HOURS));
      }
    }

    /** Counts one request at the clock given. */
    method Count(e: Event)
      requires Valid()
      modifies this, minutes
      ensures N() == Record(old(N()), e)
    {
      hide Advance, Zeroed, From, Add, One, Minute, Hour, At;
      MoveHead(Minute(e.t));
      BumpSlot(One(e));
      BumpHour(Hour(e.t), One(e));
      total := Add(total, One(e));
    }

    /** The sum of the ring. */
    method WindowM60() returns (b: Bucket)
      requires Valid()
      ensures b == RingSum(minutes[..], RING)
    {
      b := ZERO;
      for i := 0 to RING
        invariant b == RingSum(minutes[..], i)
      {
        b := Add(b, minutes[i]);
      }
    }

    /** The sum of the hours from the cutoff on. */
    method HoursSince(now: nat, n: nat) returns (b: Bucket)
      requires n >= 1
      ensures b == WindowHours(N(), now, n)
    {
      hide KeySum;
      var recent := set h | h in hours && h >= Cutoff(now, n);
      assert recent == Recent(N(), now, n);
      b := ZERO;
      var rest := recent;
      assert recent - rest == {};
      assert KeySum(hours, {}) == ZERO by { NoHours(hours); }
      while rest != {}
        invariant rest <= recent && b == KeySum(hours, recent - rest)
        decreases |rest|
      {
        var h :| h in rest;
        OneMoreHour(hours, recent - rest, h);
        assert recent - (rest - {h}) == (recent - rest) + {h};
        b := Add(b, hours[h]);
        rest := rest - {h};
      }
      assert recent - {} == recent;
    }

    /** The four windows of a snapshot. */
    method Snapshot(now: nat) returns (m60: Bucket, h24: Bucket, d7: Bucket, all: Bucket)
      requires Valid()
      modifies this`headMinute, minutes
      ensures N() == Advance(old(N()), Minute(now)) && m60 == M60(old(N()), now)
      ensures h24 == WindowHours(old(N()), now, 24) && d7 == WindowHours(old(N()), now, 168) && all == old(total)
    {
      hide Zeroed, RingSum, KeySum;
      MoveHead(Minute(now));
      m60 := WindowM60();
      h24 := HoursSince(now, 24);
      d7 := HoursSince(now, 168);
      all := total;
    }

    /** Drains the dirty hours still in memory, as rows to write over. */
    method TakeDirty() returns (rows: Hours)
      modifies this`dirty
      ensures N() == old(N()).(dirty := {})
      ensures forall disk: Hours :: disk + rows == Flushed(disk, old(N()))
    {
      rows := map[];
      var todo := dirty;
      while todo != {}
        invariant todo <= dirty && dirty == old(dirty)
        invariant rows == map h | h in dirty && h !in todo && h in hours :: hours[h]
        decreases |todo|
      {
        var h :| h in todo;
        if h in hours {
          rows := rows[h := hours[h]];
        }
        todo := todo - {h};
      }
      dirty := {};
    }
  }

  lemma NoHours(hours: Hours)
    ensures KeySum(hours, {}) == ZERO
  {
  }

  /** The order the hours are summed in does not matter. */
  lemma {:induction false} OneMoreHour(hours: Hours, keys: set<nat>, h: nat)
    requires keys + {h} <= hours.Keys && h !in keys
    ensures KeySum(hours, keys + {h}) == Add(KeySum(hours, keys), hours[h])
    decreases |keys|
  {
    var all := keys + {h};
    var x :| x in all && KeySum(hours, all) == Add(KeySum(hours, all - {x}), hours[x]);
    if x == h {
      assert all - {h} == keys;
    } else {
      var rest := keys - {x};
      calc {
        KeySum(hours, all);
      == { assert all - {x} == rest + {h}; }
        Add(KeySum(hours, rest + {h}), hours[x]);
      == { OneMoreHour(hours, rest, h); }
        Add(Add(KeySum(hours, rest), hours[h]), hours[x]);
      ==
        Add(Add(KeySum(hours, rest), hours[x]), hours[h]);
      == { OneMoreHour(hours, rest, x); assert rest + {x} == keys; }
        Add(KeySum(hours, keys), hours[h]);
      }
    }
  }
}
