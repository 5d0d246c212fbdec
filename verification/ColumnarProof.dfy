/**
 Decoding the streams the encoder fills yields the canonical bytes of every record
 and leaves the streams exactly where the next record starts.
 */
module ColumnarProof {
  import opened Results
  import opened Wire
  import opened Schema
  import opened Columns
  import opened ColumnarSpec

  /** The streams every block carries are present. */
  predicate HasFixed(keys: set<ColId>) {
    forall i | 0 <= i < NMISC :: Fixed(i) in keys
  }

  lemma ReadDeltaOf(keys: set<ColId>, c: ColId, prev: int, v: int, k: Ops, lo: int, hi: int)
    requires c in keys && FitsI64(v - prev) && lo <= v < hi
    ensures ReadDelta(FamOf(keys, Val(c, Zigzag(v - prev), k)), c, prev, lo, hi) == Got(v, FamOf(keys, k))
  {
    hide ReadVal, FamOf, ColOf;
    ReadValOf(keys, c, Zigzag(v - prev), k, TWO_64);
    ZigzagInverse(v - prev, 0);
  }

  lemma TextOf(keys: set<ColId>, lenCol: ColId, col: ColId, text: Vec<byte>, k: Ops)
    requires lenCol in keys && col in keys
    ensures DecText(FamOf(keys, Val(lenCol, |text|, Raw(col, text, k))), lenCol, col) == Got(text, FamOf(keys, k))
  {
    hide ReadVal, ReadRaw, FamOf, ColOf;
    ReadValOf(keys, lenCol, |text|, Raw(col, text, k), TWO_64);
    ReadRawOf(keys, col, text, k);
  }

  lemma ListOf(keys: set<ColId>, nCol: ColId, plan: Plan, vs: Vec<u64>, max: nat, k: Ops)
    requires nCol in keys && forall j | 0 <= j < |vs| :: plan.At(j) in keys && vs[j] < max
    ensures DecList(FamOf(keys, Val(nCol, |vs|, ListOps(plan, vs, 0, k))), nCol, plan, max) == Got(vs, FamOf(keys, k))
  {
    hide ReadVal, FamOf, ColOf;
    ReadValOf(keys, nCol, |vs|, ListOps(plan, vs, 0, k), TWO_64);
    ReadAllOf(keys, plan, vs, 0, max, k);
    assert vs[..0] == [];
  }

  lemma IdsRoundTrip(keys: set<ColId>, r: MatchRecord, st: BlockState, k: Ops)
    requires HasFixed(keys) && DeltasFit(r, st)
    ensures DecIds(FamOf(keys, IdsOps(r, st, k)), st) == Got((IdsBytes(r), After(r)), FamOf(keys, k))
  {
    hide ReadVal, ReadDelta, DecText, FamOf, ColOf, PutVarint, PutBytes;
    var k5 := Val(START_D, Zigzag(r.gameStartMs - st.gameStartMs), k);
    var k4 := Val(QUEUE, r.queueId, k5);
    var k3 := Val(PLAT_LEN, |r.platform|, Raw(PLAT, r.platform, k4));
    ReadValOf(keys, SCHEMA, r.schemaVersion, Val(GID_D, Zigzag(r.gameId - st.gameId), k3), TWO_32);
    ReadDeltaOf(keys, GID_D, st.gameId, r.gameId, k3, 0, TWO_64);
    TextOf(keys, PLAT_LEN, PLAT, r.platform, k4);
    ReadValOf(keys, QUEUE, r.queueId, k5, TWO_32);
    ReadDeltaOf(keys, START_D, st.gameStartMs, r.gameStartMs, k, -TWO_63, TWO_63);
  }

  lemma MetaRoundTrip(keys: set<ColId>, r: MatchRecord, k: Ops)
    requires HasFixed(keys)
    ensures DecMeta(FamOf(keys, MetaOps(r, k))) == Got(MetaBytes(r), FamOf(keys, k))
  {
    hide ReadVal, DecText, FamOf, ColOf, PutVarint, PutBytes;
    var k5 := Val(PMIN, r.patchMinor, k);
    var k4 := Val(PMAJ, r.patchMajor, k5);
    var k3 := Val(GV_LEN, |r.gameVersion|, Raw(GV, r.gameVersion, k4));
    var blue := if r.blueWon then 1 else 0;
    ReadValOf(keys, DUR, r.durationS, Val(BLUE, blue, k3), TWO_32);
    ReadValOf(keys, BLUE, blue, k3, 2);
    TextOf(keys, GV_LEN, GV, r.gameVersion, k4);
    ReadValOf(keys, PMAJ, r.patchMajor, k5, TWO_32);
    ReadValOf(keys, PMIN, r.patchMinor, k, TWO_32);
  }

  // ---- participants ----

  /** Every dynamic stream the participant needs is present. */
  predicate DynamicIn(p: Participant, keys: set<ColId>) {
    && (forall j | 0 <= j < |p.runes| :: Rune(j) in keys)
    && (forall j | 0 <= j < |p.stats| :: Stat(j) in keys)
  }

  lemma PartRoundTrip(keys: set<ColId>, p: Participant, k: Ops)
    requires HasFixed(keys) && DynamicIn(p, keys)
    ensures DecPart(FamOf(keys, PartOps(p, k)))
         == Got(ParticipantBytes(ParticipantScalars(p), p.runes, Zigzags(p.stats)), FamOf(keys, k))
  {
    hide ReadVal, ReadAll, DecList, FamOf, ColOf, ListOps, ParticipantBytes;
    ReadAllOf(keys, PART_PLAN, ParticipantScalars(p), 0, TWO_32, RunesOps(p.runes, StatsOps(p.stats, k)));
    assert ParticipantScalars(p)[..0] == [];
    ListOf(keys, P_RUNES_N, RuneSlots, p.runes, TWO_32, StatsOps(p.stats, k));
    ListOf(keys, P_STATS_N, StatSlots, Zigzags(p.stats), TWO_64, k);
  }

  lemma {:induction false} PartsRoundTrip(keys: set<ColId>, ps: seq<Participant>, i: nat, k: Ops)
    requires HasFixed(keys) && i <= |ps| && forall j | 0 <= j < |ps| :: DynamicIn(ps[j], keys)
    ensures DecParts(FamOf(keys, PartsOps(ps, i, k)), |ps| - i, ParticipantsBytes(ps, i))
         == Got(ParticipantsBytes(ps, |ps|), FamOf(keys, k))
    decreases |ps| - i
  {
    hide DecPart, PartOps, FamOf, ColOf, ParticipantBytes, PutMessage;
    if i < |ps| {
      PartRoundTrip(keys, ps[i], PartsOps(ps, i + 1, k));
      PartsRoundTrip(keys, ps, i + 1, k);
    }
  }

  // ---- timeline ----

  lemma {:induction false} SeriesValuesRoundTrip(keys: set<ColId>, c: ColId, vs: seq<u32>, prev: seq<u32>,
                                                 i: nat, k: Ops)
    requires c in keys && i <= |vs|
    ensures DecSeries(FamOf(keys, SeriesValueOps(c, vs, prev, i, k)), c, prev, |vs| - i, vs[..i])
         == Got(vs, FamOf(keys, k))
    decreases |vs| - i
  {
    hide ReadDelta, FamOf, ColOf;
    if i == |vs| {
      assert vs[..i] == vs;
    } else {
      ReadDeltaOf(keys, c, PrevAt(prev, i), vs[i], SeriesValueOps(c, vs, prev, i + 1, k), 0, TWO_32);
      assert vs[..i] + [vs[i]] == vs[..i + 1];
      SeriesValuesRoundTrip(keys, c, vs, prev, i + 1, k);
    }
  }

  lemma {:induction false} SeriesListRoundTrip(keys: set<ColId>, ss: seq<Vec<u32>>, prev: seq<seq<u32>>,
                                               i: nat, k: Ops)
    requires HasFixed(keys) && |ss| == |prev| == 4 && i <= 4
    ensures DecSeriesList(FamOf(keys, SeriesListOps(ss, prev, i, k)), prev, ss[..i]) == Got(ss, FamOf(keys, k))
    decreases 4 - i
  {
    hide ReadVal, DecSeries, SeriesValueOps, FamOf, ColOf;
    if i == 4 {
      assert ss[..i] == ss;
    } else {
      var tail := SeriesListOps(ss, prev, i + 1, k);
      ReadValOf(keys, SeriesN(i), |ss[i]|, SeriesValueOps(SeriesV(i), ss[i], prev[i], 0, tail), TWO_64);
      SeriesValuesRoundTrip(keys, SeriesV(i), ss[i], prev[i], 0, tail);
      assert ss[i][..0] == [];
      assert ss[..i] + [ss[i]] == ss[..i + 1];
      SeriesListRoundTrip(keys, ss, prev, i + 1, k);
    }
  }

  lemma {:induction false} FramesRoundTrip(keys: set<ColId>, frames: seq<MinuteFrame>, i: nat, k: Ops)
    requires HasFixed(keys) && i <= |frames|
    ensures DecFrames(FamOf(keys, FramesOps(frames, i, k)), |frames| - i, PrevSeries(frames, i), FramesBytes(frames, i))
         == Got(FramesBytes(frames, |frames|), FamOf(keys, k))
    decreases |frames| - i
  {
    hide ReadVal, DecSeriesList, SeriesListOps, FamOf, ColOf, FrameBytes, PutMessage;
    if i < |frames| {
      var tail := FramesOps(frames, i + 1, k);
      var prev := PrevSeries(frames, i);
      var ss := Series(frames[i]);
      ReadValOf(keys, F_MINUTE, frames[i].minute, SeriesListOps(ss, prev, 0, tail), TWO_32);
      SeriesListRoundTrip(keys, ss, prev, 0, tail);
      assert ss[..0] == [];
      FramesRoundTrip(keys, frames, i + 1, k);
    }
  }

  lemma EventRoundTrip(keys: set<ColId>, e: Event, prevT: u32, tCol: ColId, plan: Plan, k: Ops)
    requires tCol in keys && forall j | 0 <= j < |e.fields| :: plan.At(j) in keys
    ensures DecEvent(FamOf(keys, EventOps(e, prevT, tCol, plan, k)), tCol, plan, |e.fields|, prevT)
         == Got((e.t, EventBytes(e.t, e.fields)), FamOf(keys, k))
  {
    hide ReadDelta, ReadAll, ListOps, FamOf, ColOf, EventBytes;
    ReadDeltaOf(keys, tCol, prevT, e.t, ListOps(plan, e.fields, 0, k), 0, TWO_32);
    ReadAllOf(keys, plan, e.fields, 0, TWO_32, k);
    assert e.fields[..0] == [];
  }

  lemma {:induction false} EventsRoundTrip(keys: set<ColId>, es: seq<Event>, i: nat, tCol: ColId,
                                           plan: Plan, m: nat, field: nat, k: Ops)
    requires tCol in keys && i <= |es| && FieldsFit(es, m) && forall j | 0 <= j < m :: plan.At(j) in keys
    ensures DecEvents(FamOf(keys, EventsOps(es, i, tCol, plan, k)), tCol, plan, m, field, |es| - i, PrevT(es, i),
                      EventsBytes(field, es, i))
         == Got(EventsBytes(field, es, |es|), FamOf(keys, k))
    decreases |es| - i
  {
    hide DecEvent, EventOps, FamOf, ColOf, EventBytes, PutMessage;
    if i < |es| {
      EventRoundTrip(keys, es[i], PrevT(es, i), tCol, plan, EventsOps(es, i + 1, tCol, plan, k));
      EventsRoundTrip(keys, es, i + 1, tCol, plan, m, field, k);
    }
  }

  lemma EventListRoundTrip(keys: set<ColId>, es: Vec<Event>, nCol: ColId, tCol: ColId, plan: Plan,
                           m: nat, field: nat, k: Ops)
    requires nCol in keys && tCol in keys && FieldsFit(es, m) && forall j | 0 <= j < m :: plan.At(j) in keys
    ensures DecEventList(FamOf(keys, EventListOps(es, nCol, tCol, plan, k)), nCol, tCol, plan, m, field, [])
         == Got(EventsBytes(field, es, |es|), FamOf(keys, k))
  {
    hide ReadVal, DecEvents, FamOf, ColOf;
    ReadValOf(keys, nCol, |es|, EventsOps(es, 0, tCol, plan, k), TWO_64);
    EventsRoundTrip(keys, es, 0, tCol, plan, m, field, k);
  }

  lemma TimelineRoundTrip(keys: set<ColId>, t: TimelineLite, k: Ops)
    requires HasFixed(keys)
    ensures DecTimeline(FamOf(keys, TimelineOps(t, k))) == Got(TimelineBytes(t), FamOf(keys, k))
  {
    hide ReadVal, DecFrames, FramesOps, DecEventList, EventListOps, EventsBytes, FamOf, ColOf;
    var wards := WardListOps(t, k);
    var objs := ObjListOps(t, wards);
    var kills := KillListOps(t, objs);
    ReadValOf(keys, NFRAMES, |t.frames|, FramesOps(t.frames, 0, kills), TWO_64);
    FramesRoundTrip(keys, t.frames, 0, kills);
    EventListRoundTrip(keys, KillEvents(t.kills), NKILLS, K_T, KILL_PLAN, 5, 2, objs);
    EventListRoundTrip(keys, ObjectiveEvents(t.objectives), NOBJS, O_T, OBJ_PLAN, 4, 3, wards);
    EventListRoundTrip(keys, WardEvents(t.wards), NWARDS, W_T, WARD_PLAN, 2, 4, k);
  }

  lemma MaybeTimelineRoundTrip(keys: set<ColId>, t: Option<TimelineLite>, k: Ops)
    requires HasFixed(keys)
    ensures DecMaybeTimeline(FamOf(keys, MaybeTimelineOps(t, k)))
         == Got(if t.Some? then PutMessage(12, TimelineBytes(t.value)) else [], FamOf(keys, k))
  {
    hide ReadVal, DecTimeline, TimelineOps, TimelineBytes, PutMessage, FamOf, ColOf;
    if t.None? {
      ReadValOf(keys, TL_PRESENT, 0, k, 2);
    } else {
      ReadValOf(keys, TL_PRESENT, 1, TimelineOps(t.value, k), 2);
      TimelineRoundTrip(keys, t.value, k);
    }
  }

  // ---- writes to different streams commute ----

  predicate IsBan(c: ColId) {
    c == BANS_N || c == BANS
  }

  /** What stream `c` holds after a list of writes depends on the later writes only through stream `c`. */
  lemma {:induction false} ListFrame(plan: Plan, vs: seq<u64>, i: nat, k: Ops, k': Ops, c: ColId)
    requires i <= |vs| && ColOf(k, c) == ColOf(k', c)
    ensures ColOf(ListOps(plan, vs, i, k), c) == ColOf(ListOps(plan, vs, i, k'), c)
    ensures (forall j | i <= j < |vs| :: plan.At(j) != c) ==> ColOf(ListOps(plan, vs, i, k), c) == ColOf(k, c)
    decreases |vs| - i
  {
    hide Varint;
    if i < |vs| {
      ListFrame(plan, vs, i + 1, k, k', c);
    }
  }

  lemma PartFrame(p: Participant, k: Ops, k': Ops, c: ColId)
    requires ColOf(k, c) == ColOf(k', c)
    ensures ColOf(PartOps(p, k), c) == ColOf(PartOps(p, k'), c)
    ensures IsBan(c) ==> ColOf(PartOps(p, k), c) == ColOf(k, c)
  {
    hide Varint, ListOps;
    ListFrame(StatSlots, Zigzags(p.stats), 0, k, k', c);
    ListFrame(RuneSlots, p.runes, 0, StatsOps(p.stats, k), StatsOps(p.stats, k'), c);
    ListFrame(PART_PLAN, ParticipantScalars(p), 0,
              RunesOps(p.runes, StatsOps(p.stats, k)), RunesOps(p.runes, StatsOps(p.stats, k')), c);
  }

  lemma {:induction false} PartsFrame(ps: seq<Participant>, i: nat, k: Ops, k': Ops, c: ColId)
    requires i <= |ps| && ColOf(k, c) == ColOf(k', c)
    ensures ColOf(PartsOps(ps, i, k), c) == ColOf(PartsOps(ps, i, k'), c)
    ensures IsBan(c) ==> ColOf(PartsOps(ps, i, k), c) == ColOf(k, c)
    decreases |ps| - i
  {
    hide PartOps, ColOf;
    if i < |ps| {
      PartsFrame(ps, i + 1, k, k', c);
      PartFrame(ps[i], PartsOps(ps, i + 1, k), PartsOps(ps, i + 1, k'), c);
    }
  }

  lemma {:induction false} SeriesValuesFrame(d: ColId, vs: seq<u32>, prev: seq<u32>, i: nat, k: Ops, k': Ops, c: ColId)
    requires i <= |vs| && ColOf(k, c) == ColOf(k', c)
    ensures ColOf(SeriesValueOps(d, vs, prev, i, k), c) == ColOf(SeriesValueOps(d, vs, prev, i, k'), c)
    ensures c != d ==> ColOf(SeriesValueOps(d, vs, prev, i, k), c) == ColOf(k, c)
    decreases |vs| - i
  {
    hide Varint;
    if i < |vs| {
      SeriesValuesFrame(d, vs, prev, i + 1, k, k', c);
    }
  }

  lemma {:induction false} SeriesListFrame(ss: seq<Vec<u32>>, prev: seq<seq<u32>>, i: nat, k: Ops, k': Ops, c: ColId)
    requires |ss| == |prev| == 4 && i <= 4 && ColOf(k, c) == ColOf(k', c)
    ensures ColOf(SeriesListOps(ss, prev, i, k), c) == ColOf(SeriesListOps(ss, prev, i, k'), c)
    ensures IsBan(c) ==> ColOf(SeriesListOps(ss, prev, i, k), c) == ColOf(k, c)
    decreases 4 - i
  {
    hide Varint, SeriesValueOps;
    if i < 4 {
      SeriesListFrame(ss, prev, i + 1, k, k', c);
      SeriesValuesFrame(SeriesV(i), ss[i], prev[i], 0,
                        SeriesListOps(ss, prev, i + 1, k), SeriesListOps(ss, prev, i + 1, k'), c);
    }
  }

  lemma {:induction false} FramesFrame(frames: seq<MinuteFrame>, i: nat, k: Ops, k': Ops, c: ColId)
    requires i <= |frames| && ColOf(k, c) == ColOf(k', c)
    ensures ColOf(FramesOps(frames, i, k), c) == ColOf(FramesOps(frames, i, k'), c)
    ensures IsBan(c) ==> ColOf(FramesOps(frames, i, k), c) == ColOf(k, c)
    decreases |frames| - i
  {
    hide Varint, SeriesListOps;
    if i < |frames| {
      FramesFrame(frames, i + 1, k, k', c);
      SeriesListFrame(Series(frames[i]), PrevSeries(frames, i), 0,
                      FramesOps(frames, i + 1, k), FramesOps(frames, i + 1, k'), c);
    }
  }

  lemma {:induction false} EventsFrame(es: seq<Event>, i: nat, tCol: ColId, lo: nat, k: Ops, k': Ops, c: ColId)
    requires i <= |es| && ColOf(k, c) == ColOf(k', c)
    ensures ColOf(EventsOps(es, i, tCol, FixedFrom(lo), k), c) == ColOf(EventsOps(es, i, tCol, FixedFrom(lo), k'), c)
    ensures IsBan(c) && !IsBan(tCol) && lo > 13 ==> ColOf(EventsOps(es, i, tCol, FixedFrom(lo), k), c) == ColOf(k, c)
    decreases |es| - i
  {
    hide Varint, ListOps;
    if i < |es| {
      EventsFrame(es, i + 1, tCol, lo, k, k', c);
      ListFrame(FixedFrom(lo), es[i].fields, 0,
                EventsOps(es, i + 1, tCol, FixedFrom(lo), k), EventsOps(es, i + 1, tCol, FixedFrom(lo), k'), c);
    }
  }

  lemma TimelineFrame(t: TimelineLite, k: Ops, k': Ops, c: ColId)
    requires ColOf(k, c) == ColOf(k', c)
    ensures ColOf(TimelineOps(t, k), c) == ColOf(TimelineOps(t, k'), c)
    ensures IsBan(c) ==> ColOf(TimelineOps(t, k), c) == ColOf(k, c)
  {
    hide Varint, EventsOps, FramesOps;
    EventsFrame(WardEvents(t.wards), 0, W_T, 48, k, k', c);
    var w, w' := WardListOps(t, k), WardListOps(t, k');
    EventsFrame(ObjectiveEvents(t.objectives), 0, O_T, 42, w, w', c);
    var o, o' := ObjListOps(t, w), ObjListOps(t, w');
    EventsFrame(KillEvents(t.kills), 0, K_T, 35, o, o', c);
    FramesFrame(t.frames, 0, KillListOps(t, o), KillListOps(t, o'), c);
  }

  lemma MaybeTimelineFrame(t: Option<TimelineLite>, k: Ops, k': Ops, c: ColId)
    requires ColOf(k, c) == ColOf(k', c)
    ensures ColOf(MaybeTimelineOps(t, k), c) == ColOf(MaybeTimelineOps(t, k'), c)
    ensures IsBan(c) ==> ColOf(MaybeTimelineOps(t, k), c) == ColOf(k, c)
  {
    hide Varint, TimelineOps;
    if t.Some? {
      TimelineFrame(t.value, k, k', c);
    }
  }

  /** Writing the bans before the participants, as the encoder does, or after the timeline, where the
      decoder reads them, leaves the same streams. */
  lemma BansCommute(keys: set<ColId>, bans: Vec<u32>, ps: Vec<Participant>, t: Option<TimelineLite>, k: Ops)
    ensures FamOf(keys, BansOps(bans, AllPartsOps(ps, MaybeTimelineOps(t, k))))
         == FamOf(keys, AllPartsOps(ps, MaybeTimelineOps(t, BansOps(bans, k))))
  {
    forall c | c in keys
      ensures ColOf(BansOps(bans, AllPartsOps(ps, MaybeTimelineOps(t, k))), c)
           == ColOf(AllPartsOps(ps, MaybeTimelineOps(t, BansOps(bans, k))), c)
    {
      BansCommuteAt(bans, ps, t, k, c);
    }
  }

  lemma BansCommuteAt(bans: Vec<u32>, ps: Vec<Participant>, t: Option<TimelineLite>, k: Ops, c: ColId)
    ensures ColOf(BansOps(bans, AllPartsOps(ps, MaybeTimelineOps(t, k))), c)
         == ColOf(AllPartsOps(ps, MaybeTimelineOps(t, BansOps(bans, k))), c)
  {
    hide Varint, ListOps, PartsOps, MaybeTimelineOps;
    var b := BansOps(bans, k);
    var x := AllPartsOps(ps, MaybeTimelineOps(t, k));
    if IsBan(c) {
      MaybeTimelineFrame(t, k, k, c);
      PartsFrame(ps, 0, MaybeTimelineOps(t, k), MaybeTimelineOps(t, k), c);
      ListFrame(Same(BANS), bans, 0, x, k, c);
      MaybeTimelineFrame(t, b, b, c);
      PartsFrame(ps, 0, MaybeTimelineOps(t, b), MaybeTimelineOps(t, b), c);
    } else {
      ListFrame(Same(BANS), bans, 0, x, x, c);
      ListFrame(Same(BANS), bans, 0, k, k, c);
      MaybeTimelineFrame(t, k, b, c);
      PartsFrame(ps, 0, MaybeTimelineOps(t, k), MaybeTimelineOps(t, b), c);
    }
  }

  // ---- records ----

  lemma AllPartsRoundTrip(keys: set<ColId>, ps: Vec<Participant>, k: Ops)
    requires HasFixed(keys) && forall j | 0 <= j < |ps| :: DynamicIn(ps[j], keys)
    ensures DecAllParts(FamOf(keys, AllPartsOps(ps, k))) == Got(ParticipantsBytes(ps, |ps|), FamOf(keys, k))
  {
    hide ReadVal, DecParts, PartsOps, FamOf, ColOf, ParticipantsBytes, Size, Consumed, ConsumedOrSame;
    ReadValOf(keys, NPARTS, |ps|, PartsOps(ps, 0, k), TWO_64);
    PartsRoundTrip(keys, ps, 0, k);
    NoParticipants(ps);
  }

  lemma NoParticipants(ps: seq<Participant>)
    ensures ParticipantsBytes(ps, 0) == []
  {
  }

  /** Decoding a record's writes yields its canonical bytes and leaves what was written after it. */
  lemma RecordRoundTrip(keys: set<ColId>, r: MatchRecord, st: BlockState, k: Ops)
    requires HasFixed(keys) && DeltasFit(r, st)
    requires forall j | 0 <= j < |r.participants| :: DynamicIn(r.participants[j], keys)
    ensures DecRecord(FamOf(keys, RecordOps(r, st, k)), st) == Got((RecordBytes(r), After(r)), FamOf(keys, k))
  {
    hide DecIds, DecMeta, DecAllParts, DecMaybeTimeline, DecList, IdsOps, MetaOps, AllPartsOps, MaybeTimelineOps,
         IdsBytes, MetaBytes, ParticipantsBytes, TimelineBytes, PutMessage, PutBytes, Packed, ColOf, FamOf, ListOps;
    var bans := BansOps(r.bans, k);
    var tl := MaybeTimelineOps(r.timeline, bans);
    var parts := AllPartsOps(r.participants, tl);
    var bansFirst := BansOps(r.bans, AllPartsOps(r.participants, MaybeTimelineOps(r.timeline, k)));
    IdsRoundTrip(keys, r, st, MetaOps(r, bansFirst));
    MetaRoundTrip(keys, r, bansFirst);
    BansCommute(keys, r.bans, r.participants, r.timeline, k);
    AllPartsRoundTrip(keys, r.participants, tl);
    MaybeTimelineRoundTrip(keys, r.timeline, bans);
    ListOf(keys, BANS_N, Same(BANS), r.bans, TWO_32, k);
  }

  predicate AllDynamicIn(rs: seq<MatchRecord>, keys: set<ColId>) {
    forall i, j | 0 <= i < |rs| && 0 <= j < |rs[i].participants| :: DynamicIn(rs[i].participants[j], keys)
  }

  /** The canonical bytes of records `0..n`. */
  function BlockBytes(rs: seq<MatchRecord>, n: nat): (bs: seq<Bytes>)
    requires n <= |rs|
    ensures |bs| == n
  {
    seq(n, i requires 0 <= i < n => RecordBytes(rs[i]))
  }

  lemma {:induction false} RecordsRoundTrip(keys: set<ColId>, rs: seq<MatchRecord>, i: nat)
    requires HasFixed(keys) && i <= |rs| && AllDeltasFit(rs) && AllDynamicIn(rs, keys)
    ensures DecRecords(FamOf(keys, BlockOps(rs, i)), StateAt(rs, i), |rs| - i, BlockBytes(rs, i))
         == Got(BlockBytes(rs, |rs|), FamOf(keys, Nil))
    decreases |rs| - i
  {
    hide DecRecord, RecordOps, RecordBytes, FamOf, ColOf, DynamicIn;
    if i < |rs| {
      RecordRoundTrip(keys, rs[i], StateAt(rs, i), BlockOps(rs, i + 1));
      assert BlockBytes(rs, i) + [RecordBytes(rs[i])] == BlockBytes(rs, i + 1);
      RecordsRoundTrip(keys, rs, i + 1);
    }
  }
}
