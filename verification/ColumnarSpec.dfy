/**
 The columnar block transform as functions: the list of writes the encoder makes
 for each record, and the decoder as a parser over the unread bytes of every
 stream. The stateful encoder and decoder in `Columnar` are proved equal to these.
 */
module ColumnarSpec {
  import opened Results
  import opened Wire
  import opened Schema
  import opened Columns

  const SCHEMA := Fixed(0)
  const GID_D := Fixed(1)
  const PLAT_LEN := Fixed(2)
  const PLAT := Fixed(3)
  const QUEUE := Fixed(4)
  const START_D := Fixed(5)
  const DUR := Fixed(6)
  const BLUE := Fixed(7)
  const GV_LEN := Fixed(8)
  const GV := Fixed(9)
  const PMAJ := Fixed(10)
  const PMIN := Fixed(11)
  const BANS_N := Fixed(12)
  const BANS := Fixed(13)
  const NPARTS := Fixed(14)
  const P_RUNES_N := Fixed(20)
  const P_STATS_N := Fixed(21)
  const TL_PRESENT := Fixed(22)
  const NFRAMES := Fixed(23)
  const F_MINUTE := Fixed(24)
  const NKILLS := Fixed(33)
  const K_T := Fixed(34)
  const NOBJS := Fixed(40)
  const O_T := Fixed(41)
  const NWARDS := Fixed(46)
  const W_T := Fixed(47)
  const NMISC: nat := 50

  /** Player, champion, position and the two spells: streams 15..19. */
  const PART_PLAN := FixedFrom(15)
  /** Killer, victim, assist mask, x, y: streams 35..39. */
  const KILL_PLAN := FixedFrom(35)
  /** Kind, killer, losing team, lane: streams 42..45. */
  const OBJ_PLAN := FixedFrom(42)
  /** Kind, participant: streams 48..49. */
  const WARD_PLAN := FixedFrom(48)

  /** Count and value stream of the k-th minute series (gold, xp, cs, damage). */
  function SeriesN(k: nat): ColId
    requires k < 4
  {
    Fixed(25 + 2 * k)
  }

  function SeriesV(k: nat): ColId
    requires k < 4
  {
    Fixed(26 + 2 * k)
  }

  /** Previous record's ids, the base of the record-to-record deltas. */
  datatype BlockState = BlockState(gameId: u64, gameStartMs: i64)

  function After(r: MatchRecord): BlockState {
    BlockState(r.gameId, r.gameStartMs)
  }

  predicate DeltasFit(r: MatchRecord, st: BlockState) {
    FitsI64(r.gameId - st.gameId) && FitsI64(r.gameStartMs - st.gameStartMs)
  }

  // ---- encoder writes ----

  // Each function takes the writes `k` that follow its own.

  function IdsOps(r: MatchRecord, st: BlockState, k: Ops): Ops
    requires DeltasFit(r, st)
  {
    Val(SCHEMA, r.schemaVersion,
    Val(GID_D, Zigzag(r.gameId - st.gameId),
    Val(PLAT_LEN, |r.platform|, Raw(PLAT, r.platform,
    Val(QUEUE, r.queueId,
    Val(START_D, Zigzag(r.gameStartMs - st.gameStartMs), k))))))
  }

  function MetaOps(r: MatchRecord, k: Ops): Ops {
    Val(DUR, r.durationS,
    Val(BLUE, if r.blueWon then 1 else 0,
    Val(GV_LEN, |r.gameVersion|, Raw(GV, r.gameVersion,
    Val(PMAJ, r.patchMajor,
    Val(PMIN, r.patchMinor, k))))))
  }

  function BansOps(bans: Vec<u32>, k: Ops): Ops {
    Val(BANS_N, |bans|, ListOps(Same(BANS), bans, 0, k))
  }

  function RunesOps(runes: Vec<u32>, k: Ops): Ops {
    Val(P_RUNES_N, |runes|, ListOps(RuneSlots, runes, 0, k))
  }

  function StatsOps(stats: Vec<i64>, k: Ops): Ops {
    Val(P_STATS_N, |stats|, ListOps(StatSlots, Zigzags(stats), 0, k))
  }

  function PartOps(p: Participant, k: Ops): Ops {
    ListOps(PART_PLAN, ParticipantScalars(p), 0, RunesOps(p.runes, StatsOps(p.stats, k)))
  }

  function PartsOps(ps: seq<Participant>, i: nat, k: Ops): Ops
    requires i <= |ps|
    decreases |ps| - i
  {
    if i == |ps| then k else PartOps(ps[i], PartsOps(ps, i + 1, k))
  }

  function AllPartsOps(ps: Vec<Participant>, k: Ops): Ops {
    Val(NPARTS, |ps|, PartsOps(ps, 0, k))
  }

  function PrevAt(prev: seq<u32>, slot: nat): u32 {
    if slot < |prev| then prev[slot] else 0
  }

  /** The values of a series from slot `i` on, each against the same slot of the previous minute. */
  function SeriesValueOps(c: ColId, vs: seq<u32>, prev: seq<u32>, i: nat, k: Ops): Ops
    requires i <= |vs|
    decreases |vs| - i
  {
    if i == |vs| then k else Val(c, Zigzag(vs[i] - PrevAt(prev, i)), SeriesValueOps(c, vs, prev, i + 1, k))
  }

  /** Series `i..3` of a frame. */
  function SeriesListOps(ss: seq<Vec<u32>>, prev: seq<seq<u32>>, i: nat, k: Ops): Ops
    requires |ss| == |prev| == 4 && i <= 4
    decreases 4 - i
  {
    if i == 4 then k
    else Val(SeriesN(i), |ss[i]|, SeriesValueOps(SeriesV(i), ss[i], prev[i], 0, SeriesListOps(ss, prev, i + 1, k)))
  }

  const NO_SERIES: seq<Vec<u32>> := [[], [], [], []]

  /** The series of the frame before frame `i`. */
  function PrevSeries(frames: seq<MinuteFrame>, i: nat): (ss: seq<Vec<u32>>)
    requires i <= |frames|
    ensures |ss| == 4
  {
    if i == 0 then NO_SERIES else Series(frames[i - 1])
  }

  function FramesOps(frames: seq<MinuteFrame>, i: nat, k: Ops): Ops
    requires i <= |frames|
    decreases |frames| - i
  {
    if i == |frames| then k
    else Val(F_MINUTE, frames[i].minute,
             SeriesListOps(Series(frames[i]), PrevSeries(frames, i), 0, FramesOps(frames, i + 1, k)))
  }

  /** Every event carries `n` fields besides its timestamp. */
  predicate FieldsFit(es: seq<Event>, n: nat) {
    forall i | 0 <= i < |es| :: |es[i].fields| == n
  }

  function PrevT(es: seq<Event>, i: nat): u32
    requires i <= |es|
  {
    if i == 0 then 0 else es[i - 1].t
  }

  function EventOps(e: Event, prevT: u32, tCol: ColId, plan: Plan, k: Ops): Ops {
    Val(tCol, Zigzag(e.t - prevT), ListOps(plan, e.fields, 0, k))
  }

  function EventsOps(es: seq<Event>, i: nat, tCol: ColId, plan: Plan, k: Ops): Ops
    requires i <= |es|
    decreases |es| - i
  {
    if i == |es| then k else EventOps(es[i], PrevT(es, i), tCol, plan, EventsOps(es, i + 1, tCol, plan, k))
  }

  /** A counted event list: the count stream, then the events. */
  function EventListOps(es: Vec<Event>, nCol: ColId, tCol: ColId, plan: Plan, k: Ops): Ops {
    Val(nCol, |es|, EventsOps(es, 0, tCol, plan, k))
  }

  function WardListOps(t: TimelineLite, k: Ops): Ops {
    EventListOps(WardEvents(t.wards), NWARDS, W_T, WARD_PLAN, k)
  }

  function ObjListOps(t: TimelineLite, k: Ops): Ops {
    EventListOps(ObjectiveEvents(t.objectives), NOBJS, O_T, OBJ_PLAN, k)
  }

  function KillListOps(t: TimelineLite, k: Ops): Ops {
    EventListOps(KillEvents(t.kills), NKILLS, K_T, KILL_PLAN, k)
  }

  function TimelineOps(t: TimelineLite, k: Ops): Ops {
    Val(NFRAMES, |t.frames|, FramesOps(t.frames, 0, KillListOps(t, ObjListOps(t, WardListOps(t, k)))))
  }

  function MaybeTimelineOps(t: Option<TimelineLite>, k: Ops): Ops {
    if t.None? then Val(TL_PRESENT, 0, k) else Val(TL_PRESENT, 1, TimelineOps(t.value, k))
  }

  /** The writes for one record, in the encoder's order: bans come before the participants. */
  function RecordOps(r: MatchRecord, st: BlockState, k: Ops): Ops
    requires DeltasFit(r, st)
  {
    IdsOps(r, st, MetaOps(r,
      BansOps(r.bans, AllPartsOps(r.participants, MaybeTimelineOps(r.timeline, k)))))
  }

  /** The delta base of record `i`: block-local, starting from zero. */
  function StateAt(rs: seq<MatchRecord>, i: nat): BlockState
    requires i <= |rs|
  {
    if i == 0 then START else After(rs[i - 1])
  }

  predicate AllDeltasFit(rs: seq<MatchRecord>) {
    forall i | 0 <= i < |rs| :: DeltasFit(rs[i], StateAt(rs, i))
  }

  /** The writes for records `i..`. */
  function BlockOps(rs: seq<MatchRecord>, i: nat): Ops
    requires AllDeltasFit(rs) && i <= |rs|
    decreases |rs| - i
  {
    if i == |rs| then Nil else RecordOps(rs[i], StateAt(rs, i), BlockOps(rs, i + 1))
  }

  const START := BlockState(0, 0)

  // ---- decoder ----

  function ReadZ(f: Fam, c: ColId): (r: Step<i64>)
    ensures r.Got? ==> Consumed(f, r.rest)
  {
    match ReadVal(f, c, TWO_64)
    case Fail => Fail
    case Got(u, g) => Got(Unzigzag(u), g)
  }

  /** A zigzag delta from stream `c` added to `prev`; the sum must lie in `[lo, hi)`. */
  function ReadDelta(f: Fam, c: ColId, prev: int, lo: int, hi: int): (r: Step<int>)
    ensures r.Got? ==> lo <= r.value < hi && Consumed(f, r.rest)
  {
    match ReadZ(f, c)
    case Fail => Fail
    case Got(d, g) => if lo <= prev + d < hi then Got(prev + d, g) else Fail
  }

  function DecSeries(f: Fam, c: ColId, prev: seq<u32>, n: nat, acc: seq<u32>): (r: Step<seq<u32>>)
    ensures r.Got? ==> |r.value| == |acc| + n && ConsumedOrSame(f, r.rest) && Size(r.rest) + n <= Size(f)
    decreases n
  {
    if n == 0 then Got(acc, f)
    else
      match ReadDelta(f, c, PrevAt(prev, |acc|), 0, TWO_32) case Fail => Fail case Got(v, g) =>
      DecSeries(g, c, prev, n - 1, acc + [v])
  }

  function DecSeriesList(f: Fam, prev: seq<seq<u32>>, acc: seq<seq<u32>>): (r: Step<seq<seq<u32>>>)
    requires |prev| == 4 && |acc| <= 4
    ensures r.Got? ==> |r.value| == 4 && ConsumedOrSame(f, r.rest)
    decreases 4 - |acc|
  {
    var i := |acc|;
    if i == 4 then Got(acc, f)
    else
      match ReadVal(f, SeriesN(i), TWO_64) case Fail => Fail case Got(n, g) =>
      match DecSeries(g, SeriesV(i), prev[i], n, []) case Fail => Fail case Got(vs, h) =>
      DecSeriesList(h, prev, acc + [vs])
  }

  function DecFrames(f: Fam, n: nat, prev: seq<seq<u32>>, out: Bytes): (r: Step<Bytes>)
    requires |prev| == 4
    ensures r.Got? ==> ConsumedOrSame(f, r.rest) && Size(r.rest) + n <= Size(f)
    decreases n
  {
    if n == 0 then Got(out, f)
    else
      match ReadVal(f, F_MINUTE, TWO_32) case Fail => Fail case Got(minute, g) =>
      match DecSeriesList(g, prev, []) case Fail => Fail case Got(ss, h) =>
      DecFrames(h, n - 1, ss, out + PutMessage(1, FrameBytes(minute, ss)))
  }

  /** One event of `m` fields, timed against `prevT`: its timestamp and its bytes. */
  function DecEvent(f: Fam, tCol: ColId, plan: Plan, m: nat, prevT: u32): (r: Step<(u32, Bytes)>)
    ensures r.Got? ==> Consumed(f, r.rest)
  {
    match ReadDelta(f, tCol, prevT, 0, TWO_32) case Fail => Fail case Got(t, g) =>
    match ReadAll(g, plan, m, TWO_32, []) case Fail => Fail case Got(vs, h) =>
    Got((t, EventBytes(t, vs)), h)
  }

  function DecEvents(f: Fam, tCol: ColId, plan: Plan, m: nat, field: nat, n: nat, prevT: u32, out: Bytes)
    : (r: Step<Bytes>)
    ensures r.Got? ==> ConsumedOrSame(f, r.rest) && Size(r.rest) + n <= Size(f)
    decreases n
  {
    if n == 0 then Got(out, f)
    else
      match DecEvent(f, tCol, plan, m, prevT) case Fail => Fail case Got(e, g) =>
      DecEvents(g, tCol, plan, m, field, n - 1, e.0, out + PutMessage(field, e.1))
  }

  function DecEventList(f: Fam, nCol: ColId, tCol: ColId, plan: Plan, m: nat, field: nat, out: Bytes)
    : (r: Step<Bytes>)
    ensures r.Got? ==> Consumed(f, r.rest)
  {
    match ReadVal(f, nCol, TWO_64) case Fail => Fail case Got(n, g) =>
    DecEvents(g, tCol, plan, m, field, n, 0, out)
  }

  function DecTimeline(f: Fam): (r: Step<Bytes>)
    ensures r.Got? ==> Consumed(f, r.rest)
  {
    match ReadVal(f, NFRAMES, TWO_64) case Fail => Fail case Got(n, f0) =>
    match DecFrames(f0, n, NO_SERIES, []) case Fail => Fail case Got(frames, f1) =>
    match DecEventList(f1, NKILLS, K_T, KILL_PLAN, 5, 2, []) case Fail => Fail case Got(kills, f2) =>
    match DecEventList(f2, NOBJS, O_T, OBJ_PLAN, 4, 3, []) case Fail => Fail case Got(objs, f3) =>
    match DecEventList(f3, NWARDS, W_T, WARD_PLAN, 2, 4, []) case Fail => Fail case Got(wards, f4) =>
    Got(frames + kills + objs + wards, f4)
  }

  /** A counted value list: the count stream, then the values along `plan`. */
  function DecList(f: Fam, nCol: ColId, plan: Plan, max: nat): (r: Step<seq<nat>>)
    ensures r.Got? ==> Consumed(f, r.rest)
  {
    match ReadVal(f, nCol, TWO_64) case Fail => Fail case Got(n, g) =>
    ReadAll(g, plan, n, max, [])
  }

  function DecPart(f: Fam): (r: Step<Bytes>)
    ensures r.Got? ==> Consumed(f, r.rest)
  {
    match ReadAll(f, PART_PLAN, 5, TWO_32, []) case Fail => Fail case Got(vs, f0) =>
    match DecList(f0, P_RUNES_N, RuneSlots, TWO_32) case Fail => Fail case Got(runes, f1) =>
    match DecList(f1, P_STATS_N, StatSlots, TWO_64) case Fail => Fail case Got(stats, f2) =>
    Got(ParticipantBytes(vs, runes, stats), f2)
  }

  function DecParts(f: Fam, n: nat, out: Bytes): (r: Step<Bytes>)
    ensures r.Got? ==> ConsumedOrSame(f, r.rest) && Size(r.rest) + n <= Size(f)
    decreases n
  {
    if n == 0 then Got(out, f)
    else
      match DecPart(f) case Fail => Fail case Got(p, g) =>
      DecParts(g, n - 1, out + PutMessage(11, p))
  }

  function DecAllParts(f: Fam): (r: Step<Bytes>)
    ensures r.Got? ==> Consumed(f, r.rest)
  {
    match ReadVal(f, NPARTS, TWO_64) case Fail => Fail case Got(n, g) =>
    DecParts(g, n, [])
  }

  /** A length stream, then that many bytes of a text stream. */
  function DecText(f: Fam, lenCol: ColId, col: ColId): (r: Step<Bytes>)
    ensures r.Got? ==> Consumed(f, r.rest)
  {
    match ReadVal(f, lenCol, TWO_64) case Fail => Fail case Got(n, g) =>
    ReadRaw(g, col, n)
  }

  function DecIds(f: Fam, st: BlockState): (r: Step<(Bytes, BlockState)>)
    ensures r.Got? ==> Consumed(f, r.rest)
  {
    match ReadVal(f, SCHEMA, TWO_32) case Fail => Fail case Got(schema, f0) =>
    match ReadDelta(f0, GID_D, st.gameId, 0, TWO_64) case Fail => Fail case Got(gameId, f1) =>
    match DecText(f1, PLAT_LEN, PLAT) case Fail => Fail case Got(platform, f2) =>
    match ReadVal(f2, QUEUE, TWO_32) case Fail => Fail case Got(queue, f3) =>
    match ReadDelta(f3, START_D, st.gameStartMs, -TWO_63, TWO_63) case Fail => Fail case Got(start, f4) =>
    Got((PutVarint(1, schema) + PutVarint(2, gameId) + PutBytes(3, platform) + PutVarint(4, queue)
         + PutVarint(5, AsU64(start)), BlockState(gameId, start)), f4)
  }

  function DecMeta(f: Fam): (r: Step<Bytes>)
    ensures r.Got? ==> Consumed(f, r.rest)
  {
    match ReadVal(f, DUR, TWO_32) case Fail => Fail case Got(dur, f0) =>
    match ReadVal(f0, BLUE, 2) case Fail => Fail case Got(blue, f1) =>
    match DecText(f1, GV_LEN, GV) case Fail => Fail case Got(version, f2) =>
    match ReadVal(f2, PMAJ, TWO_32) case Fail => Fail case Got(pmaj, f3) =>
    match ReadVal(f3, PMIN, TWO_32) case Fail => Fail case Got(pmin, f4) =>
    Got(PutVarint(6, dur) + PutVarint(7, blue) + PutBytes(8, version) + PutVarint(9, pmaj) + PutVarint(10, pmin), f4)
  }

  function DecMaybeTimeline(f: Fam): (r: Step<Bytes>)
    ensures r.Got? ==> Consumed(f, r.rest)
  {
    match ReadVal(f, TL_PRESENT, 2) case Fail => Fail case Got(present, g) =>
    if present == 0 then Got([], g)
    else
      match DecTimeline(g) case Fail => Fail case Got(t, h) =>
      Got(PutMessage(12, t), h)
  }

  function DecRecord(f: Fam, st: BlockState): (r: Step<(Bytes, BlockState)>)
    ensures r.Got? ==> Consumed(f, r.rest)
  {
    match DecIds(f, st) case Fail => Fail case Got(ids, f0) =>
    match DecMeta(f0) case Fail => Fail case Got(meta, f1) =>
    match DecAllParts(f1) case Fail => Fail case Got(parts, f2) =>
    match DecMaybeTimeline(f2) case Fail => Fail case Got(tl, f3) =>
    match DecList(f3, BANS_N, Same(BANS), TWO_32) case Fail => Fail case Got(bans, f4) =>
    Got((ids.0 + meta + parts + tl + PutBytes(13, Packed(bans, |bans|)), ids.1), f4)
  }

  function DecRecords(f: Fam, st: BlockState, n: nat, acc: seq<Bytes>): (r: Step<seq<Bytes>>)
    ensures r.Got? ==> |r.value| == |acc| + n && ConsumedOrSame(f, r.rest) && Size(r.rest) + n <= Size(f)
    decreases n
  {
    if n == 0 then Got(acc, f)
    else
      match DecRecord(f, st) case Fail => Fail case Got(r, g) =>
      DecRecords(g, r.1, n - 1, acc + [r.0])
  }
}
