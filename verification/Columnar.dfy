/**
 The stateful codec: an encoder appending to column buffers, a decoder moving one
 cursor per stream, and `encode_block` with its self-check. Every method is proved
 against the functions of `ColumnarSpec` and `ColumnarBlock`.
 */
module Columnar {
  import opened Results
  import opened Wire
  import opened Schema
  import opened Columns
  import opened ColumnarSpec
  import opened ColumnarProof
  import opened ColumnarBlock

  // ---- varints ----

  method WriteVarint(out: Bytes, v: u64) returns (out': Bytes)
    ensures out' == out + Varint(v)
  {
    out' := out;
    var value: nat := v;
    while value >= TWO_7
      invariant out' + Varint(value) == out + Varint(v)
    {
      assert out' + Varint(value) == (out' + [value % TWO_7 + TWO_7]) + Varint(value / TWO_7);
      out' := out' + [value % TWO_7 + TWO_7];
      value := value / TWO_7;
    }
    out' := out' + [value];
  }

  /** The value with a 7-bit group placed at `scale`. */
  function Place(value: nat, scale: nat, group: nat): nat {
    value + scale * group
  }

  /** What the varint read so far becomes once the groups in `s` are read. */
  function Resume(value: nat, scale: nat, s: Bytes, idx: nat): Result<(nat, Bytes)>
    requires idx <= 9
  {
    match ReadGroups(s, idx)
    case Err => Err
    case Ok((v, rest)) => Ok((Place(value, scale, v), rest))
  }

  lemma ResumeStep(value: nat, scale: nat, s: Bytes, idx: nat)
    requires idx <= 9
    ensures |s| == 0 || (idx == 9 && s[0] >= 2) ==> Resume(value, scale, s, idx).Err?
    ensures |s| > 0 && s[0] < TWO_7 && (idx < 9 || s[0] < 2) ==>
              Resume(value, scale, s, idx) == Ok((Place(value, scale, s[0]), s[1..]))
    ensures |s| > 0 && s[0] >= TWO_7 && idx < 9 ==>
              (Resume(value, scale, s, idx)
               == Resume(Place(value, scale, s[0] - TWO_7), TWO_7 * scale, s[1..], idx + 1))
  {
    hide Place;
    if |s| > 0 && s[0] >= TWO_7 && idx < 9 {
      var tail := ReadGroups(s[1..], idx + 1);
      if tail.Ok? {
        PlaceTwo(value, scale, s[0] - TWO_7, tail.value.0);
      }
    }
  }

  lemma PlaceTwo(value: nat, scale: nat, group: nat, v: nat)
    ensures Place(value, scale, group + TWO_7 * v) == Place(Place(value, scale, group), TWO_7 * scale, v)
  {
    assert scale * (group + TWO_7 * v) == scale * group + scale * (TWO_7 * v);
    assert scale * (TWO_7 * v) == (TWO_7 * scale) * v;
  }

  method ReadVarintAt(bytes: Bytes, pos: nat) returns (r: Result<nat>, pos': nat)
    requires pos <= |bytes|
    ensures pos <= pos' <= |bytes|
    ensures match ReadVarint(bytes[pos..])
            case Err => r.Err?
            case Ok((v, rest)) => r == Ok(v) && rest == bytes[pos'..]
  {
    hide Resume, Place, ReadGroups;
    var value: nat, scale: nat, idx: nat := 0, 1, 0;
    pos' := pos;
    ResumeStart(bytes[pos..]);
    ghost var goal := ReadVarint(bytes[pos..]);
    while true
      invariant idx <= 9 && pos <= pos' <= |bytes|
      invariant Resume(value, scale, bytes[pos'..], idx) == goal
      decreases 10 - idx
    {
      ghost var s := bytes[pos'..];
      ResumeStep(value, scale, s, idx);
      if pos' >= |bytes| { return Err, pos'; }
      var b := bytes[pos'];
      assert s[0] == b && s[1..] == bytes[pos' + 1..];
      if idx == 9 && b >= 2 { return Err, pos'; }
      pos' := pos' + 1;
      if b < TWO_7 {
        return Ok(Place(value, scale, b)), pos';
      }
      value := Place(value, scale, b - TWO_7);
      scale := TWO_7 * scale;
      idx := idx + 1;
    }
  }

  lemma ResumeStart(s: Bytes)
    ensures Resume(0, 1, s, 0) == ReadVarint(s)
  {
  }

  // ---- encoder ----

  /** Column buffers. `todo` lists the writes still to come, `goal` what each stream must finally hold. */
  class Cols {
    var fixed: seq<Bytes>
    var stat: seq<Bytes>
    var rune: seq<Bytes>
    ghost var todo: Ops
    ghost const goal: Ops

    /** The bytes of a stream; a dynamic stream not created yet is empty. */
    function At(c: ColId): Bytes
      reads this
    {
      match c
      case Fixed(i) => if i < |fixed| then fixed[i] else []
      case Stat(i) => if i < |stat| then stat[i] else []
      case Rune(i) => if i < |rune| then rune[i] else []
    }

    /** Written bytes plus bytes still to come make up the goal, in every stream. */
    ghost predicate Valid()
      reads this
    {
      |fixed| == NMISC && forall c :: At(c) + ColOf(todo, c) == ColOf(goal, c)
    }

    constructor (ghost ops: Ops)
      ensures Valid() && todo == goal == ops && |stat| == |rune| == 0
    {
      fixed := seq(NMISC, i => []);
      stat := [];
      rune := [];
      todo := ops;
      goal := ops;
    }

    /** Appends a varint to a fixed stream. */
    method Wv(col: ColId, v: u64)
      requires Valid() && col.Fixed? && col.i < NMISC && todo.Val? && todo.col == col && todo.v == v
      modifies this
      ensures Valid() && todo == old(todo).rest && stat == old(stat) && rune == old(rune)
    {
      var buf := WriteVarint(fixed[col.i], v);
      fixed := fixed[col.i := buf];
      todo := todo.rest;
      forall c ensures At(c) + ColOf(todo, c) == ColOf(goal, c) {
        assert old(At(c)) + old(ColOf(todo, c)) == ColOf(goal, c);
        assert c == col ==> At(c) == old(At(c)) + Varint(v);
      }
    }

    /** Appends raw bytes to a fixed stream. */
    method Wbytes(col: ColId, bytes: Bytes)
      requires Valid() && col.Fixed? && col.i < NMISC && todo.Raw? && todo.col == col && todo.bytes == bytes
      modifies this
      ensures Valid() && todo == old(todo).rest && stat == old(stat) && rune == old(rune)
    {
      fixed := fixed[col.i := fixed[col.i] + bytes];
      todo := todo.rest;
      forall c ensures At(c) + ColOf(todo, c) == ColOf(goal, c) {
        assert old(At(c)) + old(ColOf(todo, c)) == ColOf(goal, c);
      }
    }

    /** Appends to a rune stream, creating the streams up to it as needed. */
    method WRune(idx: nat, v: u64)
      requires Valid() && todo.Val? && todo.col == Rune(idx) && todo.v == v
      modifies this
      ensures Valid() && todo == old(todo).rest && stat == old(stat) && |rune| == Max(|old(rune)|, idx + 1)
    {
      while |rune| <= idx
        invariant Valid() && todo == old(todo) && stat == old(stat)
        invariant |old(rune)| <= |rune| <= Max(|old(rune)|, idx + 1)
        decreases idx - |rune|
      {
        label before:
        rune := rune + [[]];
        assert forall c :: At(c) == old@before(At(c));
      }
      label grown:
      var buf := WriteVarint(rune[idx], v);
      rune := rune[idx := buf];
      todo := todo.rest;
      forall c ensures At(c) + ColOf(todo, c) == ColOf(goal, c) {
        assert old@grown(At(c)) + old@grown(ColOf(todo, c)) == ColOf(goal, c);
        assert c == Rune(idx) ==> At(c) == old@grown(At(c)) + Varint(v);
      }
    }

    method WStat(idx: nat, v: u64)
      requires Valid() && todo.Val? && todo.col == Stat(idx) && todo.v == v
      modifies this
      ensures Valid() && todo == old(todo).rest && rune == old(rune) && |stat| == Max(|old(stat)|, idx + 1)
    {
      while |stat| <= idx
        invariant Valid() && todo == old(todo) && rune == old(rune)
        invariant |old(stat)| <= |stat| <= Max(|old(stat)|, idx + 1)
        decreases idx - |stat|
      {
        label before:
        stat := stat + [[]];
        assert forall c :: At(c) == old@before(At(c));
      }
      label grown:
      var buf := WriteVarint(stat[idx], v);
      stat := stat[idx := buf];
      todo := todo.rest;
      forall c ensures At(c) + ColOf(todo, c) == ColOf(goal, c) {
        assert old@grown(At(c)) + old@grown(ColOf(todo, c)) == ColOf(goal, c);
        assert c == Stat(idx) ==> At(c) == old@grown(At(c)) + Varint(v);
      }
    }
  }

  method EncodeBans(bans: Vec<u32>, cols: Cols, ghost k: Ops)
    requires cols.Valid() && cols.todo == BansOps(bans, k)
    modifies cols
    ensures cols.Valid() && cols.todo == k && cols.stat == old(cols.stat) && cols.rune == old(cols.rune)
  {
    cols.Wv(BANS_N, |bans|);
    for i := 0 to |bans|
      invariant cols.Valid() && cols.todo == ListOps(Same(BANS), bans, i, k)
      invariant cols.stat == old(cols.stat) && cols.rune == old(cols.rune)
    {
      cols.Wv(BANS, bans[i]);
    }
  }

  method EncodeParticipant(p: Participant, cols: Cols, ghost k: Ops)
    requires cols.Valid() && cols.todo == PartOps(p, k)
    modifies cols
    ensures cols.Valid() && cols.todo == k
    ensures |cols.stat| == Max(|old(cols.stat)|, |p.stats|) && |cols.rune| == Max(|old(cols.rune)|, |p.runes|)
  {
    hide Cols.Valid, ColOf;
    ghost var stats := StatsOps(p.stats, k);
    ghost var runes := RunesOps(p.runes, stats);
    var scalars := ParticipantScalars(p);
    for i := 0 to 5
      invariant cols.Valid() && cols.todo == ListOps(PART_PLAN, scalars, i, runes)
      invariant cols.stat == old(cols.stat) && cols.rune == old(cols.rune)
    {
      cols.Wv(PART_PLAN.At(i), scalars[i]);
    }
    cols.Wv(P_RUNES_N, |p.runes|);
    for i := 0 to |p.runes|
      invariant cols.Valid() && cols.todo == ListOps(RuneSlots, p.runes, i, stats)
      invariant cols.stat == old(cols.stat) && |cols.rune| == Max(|old(cols.rune)|, i)
    {
      cols.WRune(i, p.runes[i]);
    }
    cols.Wv(P_STATS_N, |p.stats|);
    for i := 0 to |p.stats|
      invariant cols.Valid() && cols.todo == ListOps(StatSlots, Zigzags(p.stats), i, k)
      invariant |cols.stat| == Max(|old(cols.stat)|, i) && |cols.rune| == Max(|old(cols.rune)|, |p.runes|)
    {
      cols.WStat(i, Zigzag(p.stats[i]));
    }
  }

  method EncodeParticipants(ps: Vec<Participant>, cols: Cols, ghost k: Ops)
    requires cols.Valid() && cols.todo == AllPartsOps(ps, k)
    modifies cols
    ensures cols.Valid() && cols.todo == k
    ensures |cols.stat| == Max(|old(cols.stat)|, Widest(ps, |ps|, true))
    ensures |cols.rune| == Max(|old(cols.rune)|, Widest(ps, |ps|, false))
  {
    hide Cols.Valid, ColOf, PartOps;
    cols.Wv(NPARTS, |ps|);
    for i := 0 to |ps|
      invariant cols.Valid() && cols.todo == PartsOps(ps, i, k)
      invariant |cols.stat| == Max(|old(cols.stat)|, Widest(ps, i, true))
      invariant |cols.rune| == Max(|old(cols.rune)|, Widest(ps, i, false))
    {
      EncodeParticipant(ps[i], cols, PartsOps(ps, i + 1, k));
    }
  }

  method EncodeSeries(vs: Vec<u32>, prev: seq<u32>, n: ColId, v: ColId, cols: Cols, ghost k: Ops)
    requires n.Fixed? && n.i < NMISC && v.Fixed? && v.i < NMISC
    requires cols.Valid() && cols.todo == Val(n, |vs|, SeriesValueOps(v, vs, prev, 0, k))
    modifies cols
    ensures cols.Valid() && cols.todo == k && cols.stat == old(cols.stat) && cols.rune == old(cols.rune)
  {
    hide Cols.Valid, ColOf;
    cols.Wv(n, |vs|);
    for i := 0 to |vs|
      invariant cols.Valid() && cols.todo == SeriesValueOps(v, vs, prev, i, k)
      invariant cols.stat == old(cols.stat) && cols.rune == old(cols.rune)
    {
      cols.Wv(v, Zigzag(vs[i] - PrevAt(prev, i)));
    }
  }

  method EncodeFrames(frames: Vec<MinuteFrame>, cols: Cols, ghost k: Ops)
    requires cols.Valid() && cols.todo == Val(NFRAMES, |frames|, FramesOps(frames, 0, k))
    modifies cols
    ensures cols.Valid() && cols.todo == k && cols.stat == old(cols.stat) && cols.rune == old(cols.rune)
  {
    hide Cols.Valid, ColOf, SeriesValueOps;
    cols.Wv(NFRAMES, |frames|);
    var prev := NO_SERIES;
    for i := 0 to |frames|
      invariant cols.Valid() && cols.todo == FramesOps(frames, i, k) && prev == PrevSeries(frames, i)
      invariant cols.stat == old(cols.stat) && cols.rune == old(cols.rune)
    {
      cols.Wv(F_MINUTE, frames[i].minute);
      var ss := Series(frames[i]);
      for j := 0 to 4
        invariant cols.Valid() && cols.todo == SeriesListOps(ss, prev, j, FramesOps(frames, i + 1, k))
        invariant cols.stat == old(cols.stat) && cols.rune == old(cols.rune)
      {
        EncodeSeries(ss[j], prev[j], SeriesN(j), SeriesV(j), cols,
                     SeriesListOps(ss, prev, j + 1, FramesOps(frames, i + 1, k)));
      }
      prev := ss;
    }
  }

  /** The loop kills, objectives and wards share; `lo..lo + m` are the streams of their `u32` fields. */
  method EncodeEvents(es: Vec<Event>, n: ColId, t: ColId, lo: nat, m: nat, cols: Cols, ghost k: Ops)
    requires n.Fixed? && n.i < NMISC && t.Fixed? && t.i < NMISC && lo + m <= NMISC && FieldsFit(es, m)
    requires cols.Valid() && cols.todo == EventListOps(es, n, t, FixedFrom(lo), k)
    modifies cols
    ensures cols.Valid() && cols.todo == k && cols.stat == old(cols.stat) && cols.rune == old(cols.rune)
  {
    hide Cols.Valid, ColOf;
    cols.Wv(n, |es|);
    var prevT: u32 := 0;
    for i := 0 to |es|
      invariant cols.Valid() && cols.todo == EventsOps(es, i, t, FixedFrom(lo), k) && prevT == PrevT(es, i)
      invariant cols.stat == old(cols.stat) && cols.rune == old(cols.rune)
    {
      cols.Wv(t, Zigzag(es[i].t - prevT));
      prevT := es[i].t;
      for j := 0 to m
        invariant cols.Valid()
        invariant cols.todo == ListOps(FixedFrom(lo), es[i].fields, j, EventsOps(es, i + 1, t, FixedFrom(lo), k))
        invariant cols.stat == old(cols.stat) && cols.rune == old(cols.rune)
      {
        cols.Wv(Fixed(lo + j), es[i].fields[j]);
      }
    }
  }

  method EncodeTimeline(t: TimelineLite, cols: Cols, ghost k: Ops)
    requires cols.Valid() && cols.todo == TimelineOps(t, k)
    modifies cols
    ensures cols.Valid() && cols.todo == k && cols.stat == old(cols.stat) && cols.rune == old(cols.rune)
  {
    hide Cols.Valid, ColOf, EventsOps, FramesOps;
    ghost var wards := WardListOps(t, k);
    ghost var objs := ObjListOps(t, wards);
    EncodeFrames(t.frames, cols, KillListOps(t, objs));
    EncodeEvents(KillEvents(t.kills), NKILLS, K_T, 35, 5, cols, objs);
    EncodeEvents(ObjectiveEvents(t.objectives), NOBJS, O_T, 42, 4, cols, wards);
    EncodeEvents(WardEvents(t.wards), NWARDS, W_T, 48, 2, cols, k);
  }

  /** The scalar fields, up to the bans. Both deltas are known to fit. */
  method EncodeScalars(r: MatchRecord, st: BlockState, cols: Cols, ghost k: Ops)
    requires DeltasFit(r, st)
    requires cols.Valid() && cols.todo == IdsOps(r, st, MetaOps(r, k))
    modifies cols
    ensures cols.Valid() && cols.todo == k && cols.stat == old(cols.stat) && cols.rune == old(cols.rune)
  {
    hide Cols.Valid, ColOf, Zigzag;
    cols.Wv(SCHEMA, r.schemaVersion);
    cols.Wv(GID_D, Zigzag(r.gameId - st.gameId));
    cols.Wv(PLAT_LEN, |r.platform|);
    cols.Wbytes(PLAT, r.platform);
    cols.Wv(QUEUE, r.queueId);
    cols.Wv(START_D, Zigzag(r.gameStartMs - st.gameStartMs));
    cols.Wv(DUR, r.durationS);
    cols.Wv(BLUE, if r.blueWon then 1 else 0);
    cols.Wv(GV_LEN, |r.gameVersion|);
    cols.Wbytes(GV, r.gameVersion);
    cols.Wv(PMAJ, r.patchMajor);
    cols.Wv(PMIN, r.patchMinor);
  }

  /** Fails exactly when a delta does not fit; the buffers of a failed block are thrown away, so the
      two delta checks are made before the first write. */
  method EncodeRecord(r: MatchRecord, st: BlockState, cols: Cols, ghost k: Ops) returns (ok: bool)
    requires cols.Valid() && (DeltasFit(r, st) ==> cols.todo == RecordOps(r, st, k))
    modifies cols
    ensures ok == DeltasFit(r, st)
    ensures ok ==>
              && cols.Valid() && cols.todo == k
              && |cols.stat| == Max(|old(cols.stat)|, Widest(r.participants, |r.participants|, true))
              && |cols.rune| == Max(|old(cols.rune)|, Widest(r.participants, |r.participants|, false))
  {
    hide Cols.Valid, ColOf, IdsOps, MetaOps, PartsOps, TimelineOps, ListOps, Widest;
    ok := DeltasFit(r, st);
    if ok {
      ghost var tl := MaybeTimelineOps(r.timeline, k);
      ghost var parts := AllPartsOps(r.participants, tl);
      EncodeScalars(r, st, cols, BansOps(r.bans, parts));
      EncodeBans(r.bans, cols, parts);
      EncodeParticipants(r.participants, cols, tl);
      cols.Wv(TL_PRESENT, if r.timeline.Some? then 1 else 0);
      if r.timeline.Some? {
        EncodeTimeline(r.timeline.value, cols, k);
      }
    }
  }

  // ---- decoder ----

  datatype ColReader = ColReader(bytes: Bytes, pos: nat) {
    predicate InRange() { pos <= |bytes| }

    function Rest(): Bytes
      requires InRange()
    {
      bytes[pos..]
    }
  }

  lemma TakeDrop(reader: ColReader, len: nat)
    requires reader.pos + len <= |reader.bytes|
    ensures reader.Rest()[..len] == reader.bytes[reader.pos..reader.pos + len]
    ensures reader.Rest()[len..] == reader.bytes[reader.pos + len..]
  {
  }

  method AllAtEnd(readers: seq<ColReader>) returns (ok: bool)
    ensures ok <==> forall j | 0 <= j < |readers| :: readers[j].pos == |readers[j].bytes|
  {
    ok := true;
    for i := 0 to |readers|
      invariant ok <==> forall j | 0 <= j < i :: readers[j].pos == |readers[j].bytes|
    {
      ok := ok && readers[i].pos == |readers[i].bytes|;
    }
  }

  /** A method's outcome against its functional specification: the same failure, or the same value with the
      same bytes left unread. */
  ghost predicate Follows<T(!new)>(spec: Step<T>, r: Result<T>, left: Fam) {
    match spec
    case Fail => r.Err?
    case Got(v, rest) => r == Ok(v) && left == rest
  }

  /** A raw read from a cursor's stream. */
  lemma RawFrom(f: Fam, c: ColId, len: nat, reader: ColReader)
    requires c in f.cols && reader.InRange() && f.cols[c] == reader.Rest()
    ensures ReadRaw(f, c, len) ==
              if reader.pos + len > |reader.bytes| then Fail
              else Got(reader.bytes[reader.pos..reader.pos + len], Fam(f.cols[c := reader.bytes[reader.pos + len..]]))
  {
    hide Size;
    if reader.pos + len <= |reader.bytes| {
      TakeDrop(reader, len);
    }
  }

  /** One cursor per stream. */
  class ColReaders {
    var fixed: seq<ColReader>
    var stat: seq<ColReader>
    var rune: seq<ColReader>

    predicate Has(c: ColId)
      reads this
    {
      match c
      case Fixed(i) => i < |fixed|
      case Stat(i) => i < |stat|
      case Rune(i) => i < |rune|
    }

    function ReaderAt(c: ColId): ColReader
      requires Has(c)
      reads this
    {
      match c
      case Fixed(i) => fixed[i]
      case Stat(i) => stat[i]
      case Rune(i) => rune[i]
    }

    ghost predicate Valid()
      reads this
    {
      |fixed| == NMISC && forall c | Has(c) :: ReaderAt(c).InRange()
    }

    ghost function Unread(): (f: Fam)
      requires Valid()
      reads this
      ensures forall c :: c in f.cols <==> Has(c)
    {
      Fam(map c | c in Keys(|stat|, |rune|) :: ReaderAt(c).Rest())
    }

    constructor (streams: seq<Bytes>, s: nat, r: nat)
      requires |streams| == NMISC + s + r
      ensures Valid() && Unread() == FamFrom(streams, s, r)
    {
      fixed := seq(NMISC, i requires 0 <= i < NMISC => ColReader(streams[i], 0));
      stat := seq(s, i requires 0 <= i < s => ColReader(streams[NMISC + i], 0));
      rune := seq(r, i requires 0 <= i < r => ColReader(streams[NMISC + s + i], 0));
      new;
      forall c | c in Keys(s, r) ensures ReaderAt(c).Rest() == streams[IndexOf(c, s)] {
      }
    }

    /** Moves one cursor forward. */
    method Seek(c: ColId, pos: nat)
      requires Valid() && Has(c) && ReaderAt(c).pos <= pos <= |ReaderAt(c).bytes|
      modifies this
      ensures Valid() && Unread() == Fam(old(Unread()).cols[c := old(ReaderAt(c)).bytes[pos..]])
    {
      var moved := ReaderAt(c).(pos := pos);
      match c {
        case Fixed(i) => fixed := fixed[i := moved];
        case Stat(i) => stat := stat[i := moved];
        case Rune(i) => rune := rune[i := moved];
      }
      assert forall d :: Has(d) == old(Has(d));
      assert forall d | Has(d) :: ReaderAt(d) == if d == c then moved else old(ReaderAt(d));
      hide Has, ReaderAt, Keys;
    }

    /** A varint below `max`; a stream that does not exist fails. */
    method Rv(c: ColId, max: nat) returns (r: Result<nat>)
      requires Valid()
      modifies this
      ensures Valid() && Follows(ReadVal(old(Unread()), c, max), r, Unread())
    {
      if !Has(c) { return Err; }
      var reader := ReaderAt(c);
      assert reader.InRange() && Unread().cols[c] == reader.Rest();
      hide Valid, Unread, ReaderAt, Has, ReadVarint;
      var v, pos := ReadVarintAt(reader.bytes, reader.pos);
      if v.Err? || v.value >= max { return Err; }
      Seek(c, pos);
      r := v;
    }

    method Rbytes(c: ColId, len: nat) returns (r: Result<Bytes>)
      requires Valid()
      modifies this
      ensures Valid() && Follows(ReadRaw(old(Unread()), c, len), r, Unread())
    {
      if !Has(c) { return Err; }
      var reader := ReaderAt(c);
      assert reader.InRange() && Unread().cols[c] == reader.Rest();
      RawFrom(Unread(), c, len, reader);
      hide Valid, Unread, ReaderAt, Has, ReadRaw;
      if reader.pos + len > |reader.bytes| { return Err; }
      r := Ok(reader.bytes[reader.pos..reader.pos + len]);
      Seek(c, reader.pos + len);
    }

    method Rz(c: ColId) returns (r: Result<i64>)
      requires Valid()
      modifies this
      ensures Valid() && Follows(ReadZ(old(Unread()), c), r, Unread())
    {
      var u := Rv(c, TWO_64);
      r := if u.Ok? then Ok(Unzigzag(u.value)) else Err;
    }

    method RDelta(c: ColId, prev: int, lo: int, hi: int) returns (r: Result<int>)
      requires Valid()
      modifies this
      ensures Valid() && Follows(ReadDelta(old(Unread()), c, prev, lo, hi), r, Unread())
    {
      var d := Rz(c);
      r := if d.Ok? && lo <= prev + d.value < hi then Ok(prev + d.value) else Err;
    }

    /** Every cursor is at the end of its stream. */
    method Done() returns (done: bool)
      requires Valid()
      ensures done == AllRead(Unread())
    {
      var a := AllAtEnd(fixed);
      var b := AllAtEnd(stat);
      var c := AllAtEnd(rune);
      done := a && b && c;
      ghost var f := Unread();
      assert forall id | Has(id) :: f.cols[id] == [] <==> ReaderAt(id).pos == |ReaderAt(id).bytes|;
      assert forall j | 0 <= j < |fixed| :: Has(Fixed(j)) && ReaderAt(Fixed(j)) == fixed[j];
      assert forall j | 0 <= j < |stat| :: Has(Stat(j)) && ReaderAt(Stat(j)) == stat[j];
      assert forall j | 0 <= j < |rune| :: Has(Rune(j)) && ReaderAt(Rune(j)) == rune[j];
    }

    method RList(plan: Plan, n: nat, max: nat) returns (r: Result<seq<nat>>)
      requires Valid()
      modifies this
      ensures Valid() && Follows(ReadAll(old(Unread()), plan, n, max, []), r, Unread())
    {
      hide ReadVal, Valid, Unread;
      var vs: seq<nat> := [];
      for i := 0 to n
        invariant Valid() && |vs| == i
        invariant ReadAll(Unread(), plan, n - i, max, vs) == ReadAll(old(Unread()), plan, n, max, [])
      {
        var v := Rv(plan.At(i), max);
        if v.Err? { return Err; }
        vs := vs + [v.value];
      }
      r := Ok(vs);
    }

    method RCounted(nCol: ColId, plan: Plan, max: nat) returns (r: Result<seq<nat>>)
      requires Valid()
      modifies this
      ensures Valid() && Follows(DecList(old(Unread()), nCol, plan, max), r, Unread())
    {
      hide ReadVal, ReadAll, Valid, Unread;
      var n := Rv(nCol, TWO_64);
      if n.Err? { return Err; }
      r := RList(plan, n.value, max);
    }

    method RText(lenCol: ColId, col: ColId) returns (r: Result<Bytes>)
      requires Valid()
      modifies this
      ensures Valid() && Follows(DecText(old(Unread()), lenCol, col), r, Unread())
    {
      hide ReadVal, ReadRaw, Valid, Unread;
      var n := Rv(lenCol, TWO_64);
      if n.Err? { return Err; }
      r := Rbytes(col, n.value);
    }
  }

  // `cols.Valid()` and the streams' contents are only ever used through the readers' contracts.

  method DecodeSeries(cols: ColReaders, c: ColId, prev: seq<u32>, n: nat) returns (r: Result<seq<u32>>)
    requires cols.Valid()
    modifies cols
    ensures cols.Valid() && Follows(DecSeries(old(cols.Unread()), c, prev, n, []), r, cols.Unread())
  {
    hide ReadDelta, ColReaders.Valid, ColReaders.Unread;
    var vs: seq<u32> := [];
    for i := 0 to n
      invariant cols.Valid() && |vs| == i
      invariant DecSeries(cols.Unread(), c, prev, n - i, vs) == DecSeries(old(cols.Unread()), c, prev, n, [])
    {
      var v := cols.RDelta(c, PrevAt(prev, i), 0, TWO_32);
      if v.Err? { return Err; }
      vs := vs + [v.value];
    }
    r := Ok(vs);
  }

  method DecodeSeriesList(cols: ColReaders, prev: seq<seq<u32>>) returns (r: Result<seq<seq<u32>>>)
    requires cols.Valid() && |prev| == 4
    modifies cols
    ensures cols.Valid() && Follows(DecSeriesList(old(cols.Unread()), prev, []), r, cols.Unread())
  {
    hide ReadVal, DecSeries, ColReaders.Valid, ColReaders.Unread;
    var ss: seq<seq<u32>> := [];
    for i := 0 to 4
      invariant cols.Valid() && |ss| == i
      invariant DecSeriesList(cols.Unread(), prev, ss) == DecSeriesList(old(cols.Unread()), prev, [])
    {
      var n := cols.Rv(SeriesN(i), TWO_64);
      if n.Err? { return Err; }
      var vs := DecodeSeries(cols, SeriesV(i), prev[i], n.value);
      if vs.Err? { return Err; }
      ss := ss + [vs.value];
    }
    r := Ok(ss);
  }

  method DecodeFrames(cols: ColReaders, n: nat) returns (r: Result<Bytes>)
    requires cols.Valid()
    modifies cols
    ensures cols.Valid() && Follows(DecFrames(old(cols.Unread()), n, NO_SERIES, []), r, cols.Unread())
  {
    hide ReadVal, DecSeriesList, FrameBytes, PutMessage, ColReaders.Valid, ColReaders.Unread;
    var out: Bytes := [];
    var prev: seq<seq<u32>> := NO_SERIES;
    for i := 0 to n
      invariant cols.Valid() && |prev| == 4
      invariant DecFrames(cols.Unread(), n - i, prev, out) == DecFrames(old(cols.Unread()), n, NO_SERIES, [])
    {
      var minute := cols.Rv(F_MINUTE, TWO_32);
      if minute.Err? { return Err; }
      var ss := DecodeSeriesList(cols, prev);
      if ss.Err? { return Err; }
      out := out + PutMessage(1, FrameBytes(minute.value, ss.value));
      prev := ss.value;
    }
    r := Ok(out);
  }

  method DecodeEvent(cols: ColReaders, tCol: ColId, plan: Plan, m: nat, prevT: u32) returns (r: Result<(u32, Bytes)>)
    requires cols.Valid()
    modifies cols
    ensures cols.Valid() && Follows(DecEvent(old(cols.Unread()), tCol, plan, m, prevT), r, cols.Unread())
  {
    hide ReadDelta, ReadAll, EventBytes, ColReaders.Valid, ColReaders.Unread;
    var t := cols.RDelta(tCol, prevT, 0, TWO_32);
    if t.Err? { return Err; }
    var vs := cols.RList(plan, m, TWO_32);
    if vs.Err? { return Err; }
    r := Ok((t.value, EventBytes(t.value, vs.value)));
  }

  method DecodeEventRun(cols: ColReaders, tCol: ColId, plan: Plan, m: nat, field: nat, n: nat)
    returns (r: Result<Bytes>)
    requires cols.Valid()
    modifies cols
    ensures cols.Valid() && Follows(DecEvents(old(cols.Unread()), tCol, plan, m, field, n, 0, []), r, cols.Unread())
  {
    hide ReadVal, DecEvent, PutMessage, ColReaders.Valid, ColReaders.Unread;
    var out: Bytes := [];
    var prevT: u32 := 0;
    for i := 0 to n
      invariant cols.Valid()
      invariant DecEvents(cols.Unread(), tCol, plan, m, field, n - i, prevT, out)
             == DecEvents(old(cols.Unread()), tCol, plan, m, field, n, 0, [])
    {
      var e := DecodeEvent(cols, tCol, plan, m, prevT);
      if e.Err? { return Err; }
      prevT := e.value.0;
      out := out + PutMessage(field, e.value.1);
    }
    r := Ok(out);
  }

  method DecodeEvents(cols: ColReaders, nCol: ColId, tCol: ColId, plan: Plan, m: nat, field: nat)
    returns (r: Result<Bytes>)
    requires cols.Valid()
    modifies cols
    ensures cols.Valid() && Follows(DecEventList(old(cols.Unread()), nCol, tCol, plan, m, field, []), r, cols.Unread())
  {
    hide ReadVal, DecEvents, ColReaders.Valid, ColReaders.Unread;
    var n := cols.Rv(nCol, TWO_64);
    if n.Err? { return Err; }
    r := DecodeEventRun(cols, tCol, plan, m, field, n.value);
  }

  method DecodeTimeline(cols: ColReaders) returns (r: Result<Bytes>)
    requires cols.Valid()
    modifies cols
    ensures cols.Valid() && Follows(DecTimeline(old(cols.Unread())), r, cols.Unread())
  {
    hide ReadVal, DecFrames, DecEventList, ColReaders.Valid, ColReaders.Unread;
    var n := cols.Rv(NFRAMES, TWO_64);
    if n.Err? { return Err; }
    var frames := DecodeFrames(cols, n.value);
    if frames.Err? { return Err; }
    var kills := DecodeEvents(cols, NKILLS, K_T, KILL_PLAN, 5, 2);
    if kills.Err? { return Err; }
    var objs := DecodeEvents(cols, NOBJS, O_T, OBJ_PLAN, 4, 3);
    if objs.Err? { return Err; }
    var wards := DecodeEvents(cols, NWARDS, W_T, WARD_PLAN, 2, 4);
    if wards.Err? { return Err; }
    r := Ok(frames.value + kills.value + objs.value + wards.value);
  }

  method DecodeMaybeTimeline(cols: ColReaders) returns (r: Result<Bytes>)
    requires cols.Valid()
    modifies cols
    ensures cols.Valid() && Follows(DecMaybeTimeline(old(cols.Unread())), r, cols.Unread())
  {
    hide ReadVal, DecTimeline, PutMessage, ColReaders.Valid, ColReaders.Unread;
    var present := cols.Rv(TL_PRESENT, 2);
    if present.Err? { return Err; }
    if present.value == 0 { return Ok([]); }
    var t := DecodeTimeline(cols);
    if t.Err? { return Err; }
    r := Ok(PutMessage(12, t.value));
  }

  method DecodeParticipant(cols: ColReaders) returns (r: Result<Bytes>)
    requires cols.Valid()
    modifies cols
    ensures cols.Valid() && Follows(DecPart(old(cols.Unread())), r, cols.Unread())
  {
    hide ReadAll, DecList, ParticipantBytes, ColReaders.Valid, ColReaders.Unread;
    var vs := cols.RList(PART_PLAN, 5, TWO_32);
    if vs.Err? { return Err; }
    var runes := cols.RCounted(P_RUNES_N, RuneSlots, TWO_32);
    if runes.Err? { return Err; }
    var stats := cols.RCounted(P_STATS_N, StatSlots, TWO_64);
    if stats.Err? { return Err; }
    r := Ok(ParticipantBytes(vs.value, runes.value, stats.value));
  }

  method DecodeParticipants(cols: ColReaders) returns (r: Result<Bytes>)
    requires cols.Valid()
    modifies cols
    ensures cols.Valid() && Follows(DecAllParts(old(cols.Unread())), r, cols.Unread())
  {
    hide ReadVal, DecPart, PutMessage, ColReaders.Valid, ColReaders.Unread;
    var n := cols.Rv(NPARTS, TWO_64);
    if n.Err? { return Err; }
    var out: Bytes := [];
    for i := 0 to n.value
      invariant cols.Valid()
      invariant DecParts(cols.Unread(), n.value - i, out) == DecAllParts(old(cols.Unread()))
    {
      var p := DecodeParticipant(cols);
      if p.Err? { return Err; }
      out := out + PutMessage(11, p.value);
    }
    r := Ok(out);
  }

  /** Fields 1..5, with the two record-to-record deltas. */
  method DecodeIds(cols: ColReaders, st: BlockState) returns (r: Result<(Bytes, BlockState)>)
    requires cols.Valid()
    modifies cols
    ensures cols.Valid() && Follows(DecIds(old(cols.Unread()), st), r, cols.Unread())
  {
    hide ReadVal, ReadDelta, DecText, PutVarint, PutBytes, ColReaders.Valid, ColReaders.Unread;
    var schema := cols.Rv(SCHEMA, TWO_32);
    if schema.Err? { return Err; }
    var gameId := cols.RDelta(GID_D, st.gameId, 0, TWO_64);
    if gameId.Err? { return Err; }
    var platform := cols.RText(PLAT_LEN, PLAT);
    if platform.Err? { return Err; }
    var queue := cols.Rv(QUEUE, TWO_32);
    if queue.Err? { return Err; }
    var start := cols.RDelta(START_D, st.gameStartMs, -TWO_63, TWO_63);
    if start.Err? { return Err; }
    r := Ok((PutVarint(1, schema.value) + PutVarint(2, gameId.value) + PutBytes(3, platform.value)
             + PutVarint(4, queue.value) + PutVarint(5, AsU64(start.value)), BlockState(gameId.value, start.value)));
  }

  /** Fields 6..10. */
  method DecodeMeta(cols: ColReaders) returns (r: Result<Bytes>)
    requires cols.Valid()
    modifies cols
    ensures cols.Valid() && Follows(DecMeta(old(cols.Unread())), r, cols.Unread())
  {
    hide ReadVal, DecText, PutVarint, PutBytes, ColReaders.Valid, ColReaders.Unread;
    var dur := cols.Rv(DUR, TWO_32);
    if dur.Err? { return Err; }
    var blue := cols.Rv(BLUE, 2);
    if blue.Err? { return Err; }
    var version := cols.RText(GV_LEN, GV);
    if version.Err? { return Err; }
    var pmaj := cols.Rv(PMAJ, TWO_32);
    if pmaj.Err? { return Err; }
    var pmin := cols.Rv(PMIN, TWO_32);
    if pmin.Err? { return Err; }
    r := Ok(PutVarint(6, dur.value) + PutVarint(7, blue.value) + PutBytes(8, version.value)
            + PutVarint(9, pmaj.value) + PutVarint(10, pmin.value));
  }

  method DecodeRecord(cols: ColReaders, st: BlockState) returns (r: Result<(Bytes, BlockState)>)
    requires cols.Valid()
    modifies cols
    ensures cols.Valid() && Follows(DecRecord(old(cols.Unread()), st), r, cols.Unread())
  {
    hide DecIds, DecMeta, DecAllParts, DecMaybeTimeline, DecList, PutBytes, Packed,
         ColReaders.Valid, ColReaders.Unread;
    var ids := DecodeIds(cols, st);
    if ids.Err? { return Err; }
    var meta := DecodeMeta(cols);
    if meta.Err? { return Err; }
    var parts := DecodeParticipants(cols);
    if parts.Err? { return Err; }
    var tl := DecodeMaybeTimeline(cols);
    if tl.Err? { return Err; }
    var bans := cols.RCounted(BANS_N, Same(BANS), TWO_32);
    if bans.Err? { return Err; }
    r := Ok((ids.value.0 + meta.value + parts.value + tl.value
             + PutBytes(13, Packed(bans.value, |bans.value|)), ids.value.1));
  }

  /** `Manifest::parse`. */
  method ParseManifest(p: Bytes) returns (m: Result<Manifest>)
    ensures m == ParsePayload(p)
  {
    hide ReadVarint, Sum;
    if |p| < |MAGIC| || p[..|MAGIC|] != MAGIC { return Err; }
    var records, p0 := ReadVarintAt(p, |MAGIC|);
    if records.Err? { return Err; }
    var stats, p1 := ReadVarintAt(p, p0);
    if stats.Err? { return Err; }
    var runes, pos := ReadVarintAt(p, p1);
    if runes.Err? { return Err; }
    var total := NMISC + stats.value + runes.value;
    if total >= TWO_64 || total > |p| - pos { return Err; }
    ghost var b2 := p[pos..];
    var lens: seq<nat> := [];
    for i := 0 to total
      invariant pos <= |p|
      invariant ReadLengths(p[pos..], total - i, lens) == ReadLengths(b2, total, [])
    {
      var len, next := ReadVarintAt(p, pos);
      if len.Err? { return Err; }
      lens := lens + [len.value];
      pos := next;
    }
    if |p| >= TWO_64 || Sum(lens, 0) != |p| - pos { return Err; }
    var streams := CutStreams(p, pos, lens);
    m := Ok(Manifest(records.value, stats.value, runes.value, streams));
  }

  method CutStreams(p: Bytes, start: nat, lens: seq<nat>) returns (streams: seq<Bytes>)
    requires start <= |p| && Sum(lens, 0) == |p| - start
    ensures streams == Cut(p[start..], lens, [])
  {
    streams := [];
    var off: nat := start;
    for i := 0 to |lens|
      invariant |streams| == i && off <= |p|
      invariant Sum(lens, i) == |p| - off
      invariant Cut(p[off..], lens, streams) == Cut(p[start..], lens, [])
    {
      assert p[off..][..lens[i]] == p[off..off + lens[i]] && p[off..][lens[i]..] == p[off + lens[i]..];
      streams := streams + [p[off..off + lens[i]]];
      off := off + lens[i];
    }
  }

  /** `decode_block`. */
  method DecodePayload(p: Bytes) returns (r: Result<seq<Bytes>>)
    ensures r == DecodeBlock(p)
  {
    hide ParsePayload, DecRecord, AllRead, ColReaders.Valid, ColReaders.Unread;
    var manifest := ParseManifest(p);
    if manifest.Err? { return Err; }
    var m := manifest.value;
    var cols := new ColReaders(m.streams, m.stats, m.runes);
    ghost var start := cols.Unread();
    var st := START;
    var rs: seq<Bytes> := [];
    for i := 0 to m.records
      invariant cols.Valid()
      invariant DecRecords(cols.Unread(), st, m.records - i, rs) == DecRecords(start, START, m.records, [])
    {
      var rec := DecodeRecord(cols, st);
      if rec.Err? { return Err; }
      rs := rs + [rec.value.0];
      st := rec.value.1;
    }
    var done := cols.Done();
    r := if done then Ok(rs) else Err;
  }

  // ---- blocks ----

  method AppendLengths(out: Bytes, streams: seq<Bytes>) returns (out': Bytes)
    requires forall i | 0 <= i < |streams| :: |streams[i]| < TWO_64
    ensures out' == out + LengthsFrom(streams, 0)
  {
    hide Varint;
    out' := out;
    for i := 0 to |streams|
      invariant out' + LengthsFrom(streams, i) == out + LengthsFrom(streams, 0)
    {
      assert out' + LengthsFrom(streams, i) == (out' + Varint(|streams[i]|)) + LengthsFrom(streams, i + 1);
      out' := WriteVarint(out', |streams[i]|);
    }
    assert out' + LengthsFrom(streams, |streams|) == out';
  }

  method AppendData(out: Bytes, streams: seq<Bytes>) returns (out': Bytes)
    ensures out' == out + DataFrom(streams, 0)
  {
    out' := out;
    for i := 0 to |streams|
      invariant out' + DataFrom(streams, i) == out + DataFrom(streams, 0)
    {
      assert out' + DataFrom(streams, i) == (out' + streams[i]) + DataFrom(streams, i + 1);
      out' := out' + streams[i];
    }
    assert out' + DataFrom(streams, |streams|) == out';
  }

  method TotalLength(streams: seq<Bytes>) returns (n: nat)
    ensures n == |DataFrom(streams, 0)|
  {
    n := 0;
    for i := 0 to |streams|
      invariant n + |DataFrom(streams, i)| == |DataFrom(streams, 0)|
    {
      n := n + |streams[i]|;
    }
  }

  /** `encode_payload`: fails only when a count or the total does not fit in a `usize`. */
  method EncodePayload(records: u64, s: nat, r: nat, streams: seq<Bytes>) returns (p: Result<Bytes>)
    requires |streams| == NMISC + s + r
    ensures p.Ok? ==> p.value == Payload(records, s, r, streams)
    ensures p.Err? ==> |Payload(records, s, r, streams)| >= TWO_64
  {
    hide Varint, LengthsFrom, DataFrom;
    StreamsFit(streams, 0);
    var total := TotalLength(streams);
    if NMISC + s + r >= TWO_64 || total >= TWO_64 { return Err; }
    var out := WriteVarint(MAGIC, records);
    out := WriteVarint(out, s);
    out := WriteVarint(out, r);
    out := AppendLengths(out, streams);
    out := AppendData(out, streams);
    PayloadAssoc(records, s, r, streams);
    p := Ok(out);
  }

  lemma PayloadAssoc(records: nat, s: nat, r: nat, streams: seq<Bytes>)
    ensures Payload(records, s, r, streams)
         == MAGIC + Varint(records) + Varint(s) + Varint(r) + LengthsFrom(streams, 0) + DataFrom(streams, 0)
  {
    hide Varint, LengthsFrom, DataFrom;
  }

  /** The longest run of records, from the first one, that decode and whose deltas fit. */
  ghost function GoodRun(raws: seq<Bytes>, prost: Bytes -> Result<MatchRecord>, n: nat): (rs: seq<MatchRecord>)
    requires n <= |raws|
    ensures |rs| <= n && AllDeltasFit(rs)
    ensures forall i | 0 <= i < |rs| :: prost(raws[i]) == Ok(rs[i])
    ensures |rs| == n || prost(raws[|rs|]).Err? || !DeltasFit(prost(raws[|rs|]).value, StateAt(rs, |rs|))
  {
    if n == 0 then []
    else
      var rs := GoodRun(raws, prost, n - 1);
      if |rs| == n - 1 && prost(raws[n - 1]).Ok? && DeltasFit(prost(raws[n - 1]).value, StateAt(rs, n - 1)) then
        rs + [prost(raws[n - 1]).value]
      else rs
  }

  /** The records the protobuf decoder `prost` reads from `raws`. */
  function Decoded(raws: seq<Bytes>, prost: Bytes -> Result<MatchRecord>): (rs: seq<MatchRecord>)
    requires forall i | 0 <= i < |raws| :: prost(raws[i]).Ok?
    ensures |rs| == |raws|
  {
    seq(|raws|, i requires 0 <= i < |raws| => prost(raws[i]).value)
  }

  /** Every input decodes, and the record-to-record deltas fit. */
  predicate Encodes(raws: Vec<Bytes>, prost: Bytes -> Result<MatchRecord>) {
    && (forall i | 0 <= i < |raws| :: prost(raws[i]).Ok?)
    && AllDeltasFit(Decoded(raws, prost))
  }

  lemma RunIsAll(raws: Vec<Bytes>, prost: Bytes -> Result<MatchRecord>)
    requires |GoodRun(raws, prost, |raws|)| == |raws|
    ensures Encodes(raws, prost) && GoodRun(raws, prost, |raws|) == Decoded(raws, prost)
  {
    hide AllDeltasFit, GoodRun;
    var run := GoodRun(raws, prost, |raws|);
    assert forall i | 0 <= i < |raws| :: prost(raws[i]) == Ok(run[i]);
    assert run == Decoded(raws, prost);
  }

  lemma SameState(rs: seq<MatchRecord>, run: seq<MatchRecord>)
    requires |run| <= |rs| && forall i | 0 <= i < |run| :: rs[i] == run[i]
    ensures StateAt(rs, |run|) == StateAt(run, |run|)
  {
  }

  lemma RunTooShort(raws: Vec<Bytes>, prost: Bytes -> Result<MatchRecord>)
    requires Encodes(raws, prost)
    ensures |GoodRun(raws, prost, |raws|)| == |raws|
  {
    hide GoodRun, DeltasFit, StateAt;
    SameState(Decoded(raws, prost), GoodRun(raws, prost, |raws|));
  }

  lemma RunComplete(raws: Vec<Bytes>, prost: Bytes -> Result<MatchRecord>)
    ensures Encodes(raws, prost) <==> |GoodRun(raws, prost, |raws|)| == |raws|
    ensures Encodes(raws, prost) ==> GoodRun(raws, prost, |raws|) == Decoded(raws, prost)
  {
    hide GoodRun, Encodes;
    if |GoodRun(raws, prost, |raws|)| == |raws| {
      RunIsAll(raws, prost);
    } else if Encodes(raws, prost) {
      RunTooShort(raws, prost);
    }
  }

  /** The first pass: decodes every record and appends its columns. */
  method EncodeRecords(raws: Vec<Bytes>, prost: Bytes -> Result<MatchRecord>) returns (ok: bool, cols: Cols)
    ensures ok == Encodes(raws, prost)
    ensures ok ==>
              var rs := Decoded(raws, prost);
              && cols.Valid() && cols.todo == Nil && cols.goal == BlockOps(rs, 0)
              && |cols.stat| == Width(rs, |rs|, true) && |cols.rune| == Width(rs, |rs|, false)
  {
    hide RecordOps, ColOf, Cols.Valid, Widest, DeltasFit, Encodes, GoodRun;
    ghost var run := GoodRun(raws, prost, |raws|);
    RunComplete(raws, prost);
    cols := new Cols(BlockOps(run, 0));
    var st := START;
    for i := 0 to |raws|
      invariant cols.Valid() && cols.goal == BlockOps(run, 0)
      invariant i <= |run| && cols.todo == BlockOps(run, i) && st == StateAt(run, i)
      invariant |cols.stat| == Width(run, i, true) && |cols.rune| == Width(run, i, false)
    {
      var record := prost(raws[i]);
      if record.Err? { return false, cols; }
      ok := EncodeRecord(record.value, st, cols, if i < |run| then BlockOps(run, i + 1) else Nil);
      if !ok { return false, cols; }
      st := After(record.value);
    }
    ok := true;
  }

  /** Every input is the canonical encoding of what it decodes to, the deltas fit, and so does the payload. */
  predicate Encodable(raws: Vec<Bytes>, prost: Bytes -> Result<MatchRecord>) {
    && Encodes(raws, prost)
    && var rs := Decoded(raws, prost);
       && (forall i | 0 <= i < |raws| :: raws[i] == RecordBytes(rs[i]))
       && |BlockPayload(rs)| < TWO_64
  }

  /** With nothing left to write, the buffers are the streams of the plan. */
  lemma FinalStreams(cols: Cols)
    requires cols.Valid() && cols.todo == Nil
    ensures cols.fixed + cols.stat + cols.rune == StreamsOf(cols.goal, |cols.stat|, |cols.rune|)
  {
    var s := |cols.stat|;
    var all := cols.fixed + cols.stat + cols.rune;
    forall i | 0 <= i < |all| ensures all[i] == ColOf(cols.goal, IdAt(i, s)) {
      assert cols.At(IdAt(i, s)) + ColOf(Nil, IdAt(i, s)) == ColOf(cols.goal, IdAt(i, s));
      assert cols.At(IdAt(i, s)) + [] == cols.At(IdAt(i, s));
    }
  }

  lemma TooLong(p: Bytes)
    requires |p| >= TWO_64
    ensures DecodeBlock(p).Err?
  {
    hide ReadVarint, ReadLengths, Sum;
  }

  /** Encodable records come back byte for byte. */
  lemma EncodableRoundTrip(raws: Vec<Bytes>, prost: Bytes -> Result<MatchRecord>)
    requires Encodable(raws, prost)
    ensures DecodeBlock(BlockPayload(Decoded(raws, prost))) == Ok(raws)
  {
    hide RecordBytes, DecodeBlock, BlockPayload, RecordOps, AllDeltasFit;
    var rs := Decoded(raws, prost);
    BlockRoundTrip(rs);
    assert BlockBytes(rs, |rs|) == raws;
  }

  /** `encode_block`. The self-check at its end never rejects canonical input: for any protobuf decoder, the
      block encodes exactly when its records are canonical and the deltas and the payload fit. */
  method EncodeBlock(raws: Vec<Bytes>, prost: Bytes -> Result<MatchRecord>) returns (r: Result<Bytes>)
    ensures r.Ok? <==> Encodable(raws, prost)
    ensures r.Ok? ==> r.value == BlockPayload(Decoded(raws, prost)) && DecodeBlock(r.value) == Ok(raws)
  {
    hide RecordBytes, DecodeBlock, Payload, ColOf, Cols.Valid, Width, BlockOps, StreamsOf;
    var ok, cols := EncodeRecords(raws, prost);
    if !ok { return Err; }
    ghost var rs := Decoded(raws, prost);
    FinalStreams(cols);
    var payload := EncodePayload(|raws|, |cols.stat|, |cols.rune|, cols.fixed + cols.stat + cols.rune);
    if payload.Err? { return Err; }
    var rebuilt := DecodePayload(payload.value);
    if |payload.value| < TWO_64 {
      BlockRoundTrip(rs);
      assert BlockBytes(rs, |rs|) == raws <==> forall i | 0 <= i < |raws| :: raws[i] == RecordBytes(rs[i]);
    } else {
      TooLong(payload.value);
    }
    r := if rebuilt == Ok(raws) then payload else Err;
  }
}
