/**
 The columnar block stream by stream: which values of which records each of the
 fifty fixed streams, the stat streams and the rune streams holds, and where the
 streams lie in the payload.
 */
module BlockLayout {
  import opened Results
  import opened Wire
  import opened Schema
  import opened Columns
  import opened ColumnarSpec
  import opened ColumnarBlock

  // ---- streams, by number ----

  function PartCol(p: Participant, c: ColId): Bytes {
    match c
    case Fixed(i) =>
      if i == 15 then Varint(p.playerId)
      else if i == 16 then Varint(p.championId)
      else if i == 17 then Varint(p.position)
      else if i == 18 then Varint(p.spell1)
      else if i == 19 then Varint(p.spell2)
      else if i == 20 then Varint(|p.runes|)
      else if i == 21 then Varint(|p.stats|)
      else []
    case Stat(i) => if i < |p.stats| then Varint(Zigzag(p.stats[i])) else []
    case Rune(i) => if i < |p.runes| then Varint(p.runes[i]) else []
  }

  function PartsCol(ps: seq<Participant>, i: nat, c: ColId): Bytes
    requires i <= |ps|
    decreases |ps| - i
  {
    if i == |ps| then [] else PartCol(ps[i], c) + PartsCol(ps, i + 1, c)
  }

  /** Values `i..`, each as its difference from the same place of the minute before, or from zero. */
  function DeltasFrom(vs: seq<u32>, before: seq<u32>, i: nat): Bytes
    requires i <= |vs|
    decreases |vs| - i
  {
    if i == |vs| then []
    else
      var last: int := if i < |before| then before[i] else 0;
      Varint(Zigzag(vs[i] - last)) + DeltasFrom(vs, before, i + 1)
  }

  /** Minute `f` after minute `b`. */
  function FrameCol(f: MinuteFrame, b: MinuteFrame, c: ColId): Bytes {
    if !c.Fixed? then []
    else if c.i == 24 then Varint(f.minute)
    else if c.i == 25 then Varint(|f.totalGold|)
    else if c.i == 26 then DeltasFrom(f.totalGold, b.totalGold, 0)
    else if c.i == 27 then Varint(|f.xp|)
    else if c.i == 28 then DeltasFrom(f.xp, b.xp, 0)
    else if c.i == 29 then Varint(|f.cs|)
    else if c.i == 30 then DeltasFrom(f.cs, b.cs, 0)
    else if c.i == 31 then Varint(|f.dmgToChamps|)
    else if c.i == 32 then DeltasFrom(f.dmgToChamps, b.dmgToChamps, 0)
    else []
  }

  function FramesCol(fs: seq<MinuteFrame>, i: nat, c: ColId): Bytes
    requires i <= |fs|
    decreases |fs| - i
  {
    if i == |fs| then []
    else
      var before := if i == 0 then MinuteFrame(0, [], [], [], []) else fs[i - 1];
      FrameCol(fs[i], before, c) + FramesCol(fs, i + 1, c)
  }

  /** The time of an event since the one before it, or since zero. */
  function SinceLast(t: u32, before: u32): Bytes {
    Varint(Zigzag(t - before))
  }

  function KillCol(k: KillEvent, before: u32, c: ColId): Bytes {
    if c == Fixed(34) then SinceLast(k.t, before)
    else if c == Fixed(35) then Varint(k.killer)
    else if c == Fixed(36) then Varint(k.victim)
    else if c == Fixed(37) then Varint(k.assistMask)
    else if c == Fixed(38) then Varint(k.x)
    else if c == Fixed(39) then Varint(k.y)
    else []
  }

  function KillsCol(ks: seq<KillEvent>, i: nat, c: ColId): Bytes
    requires i <= |ks|
    decreases |ks| - i
  {
    if i == |ks| then []
    else KillCol(ks[i], if i == 0 then 0 else ks[i - 1].t, c) + KillsCol(ks, i + 1, c)
  }

  function ObjectiveCol(o: ObjectiveEvent, before: u32, c: ColId): Bytes {
    if c == Fixed(41) then SinceLast(o.t, before)
    else if c == Fixed(42) then Varint(o.kind)
    else if c == Fixed(43) then Varint(o.killer)
    else if c == Fixed(44) then Varint(o.losingTeam)
    else if c == Fixed(45) then Varint(o.lane)
    else []
  }

  function ObjectivesCol(os: seq<ObjectiveEvent>, i: nat, c: ColId): Bytes
    requires i <= |os|
    decreases |os| - i
  {
    if i == |os| then []
    else ObjectiveCol(os[i], if i == 0 then 0 else os[i - 1].t, c) + ObjectivesCol(os, i + 1, c)
  }

  function WardCol(w: WardEvent, before: u32, c: ColId): Bytes {
    if c == Fixed(47) then SinceLast(w.t, before)
    else if c == Fixed(48) then Varint(w.kind)
    else if c == Fixed(49) then Varint(w.participant)
    else []
  }

  function WardsCol(ws: seq<WardEvent>, i: nat, c: ColId): Bytes
    requires i <= |ws|
    decreases |ws| - i
  {
    if i == |ws| then []
    else WardCol(ws[i], if i == 0 then 0 else ws[i - 1].t, c) + WardsCol(ws, i + 1, c)
  }

  function TimelineCol(t: TimelineLite, c: ColId): Bytes {
    if c == Fixed(23) then Varint(|t.frames|)
    else if c == Fixed(33) then Varint(|t.kills|)
    else if c == Fixed(40) then Varint(|t.objectives|)
    else if c == Fixed(46) then Varint(|t.wards|)
    else FramesCol(t.frames, 0, c) + KillsCol(t.kills, 0, c) + ObjectivesCol(t.objectives, 0, c)
         + WardsCol(t.wards, 0, c)
  }

  /** Values one after the other. */
  function NumbersFrom(vs: seq<nat>, i: nat): Bytes
    requires i <= |vs|
    decreases |vs| - i
  {
    if i == |vs| then [] else Varint(vs[i]) + NumbersFrom(vs, i + 1)
  }

  /** A record after a record with game id `gid` and start `ms`, or after zeroes. */
  function RecordCol(r: MatchRecord, gid: u64, ms: i64, c: ColId): Bytes
    requires FitsI64(r.gameId - gid) && FitsI64(r.gameStartMs - ms)
  {
    if c == Fixed(0) then Varint(r.schemaVersion)
    else if c == Fixed(1) then Varint(Zigzag(r.gameId - gid))
    else if c == Fixed(2) then Varint(|r.platform|)
    else if c == Fixed(3) then r.platform
    else if c == Fixed(4) then Varint(r.queueId)
    else if c == Fixed(5) then Varint(Zigzag(r.gameStartMs - ms))
    else if c == Fixed(6) then Varint(r.durationS)
    else if c == Fixed(7) then Varint(if r.blueWon then 1 else 0)
    else if c == Fixed(8) then Varint(|r.gameVersion|)
    else if c == Fixed(9) then r.gameVersion
    else if c == Fixed(10) then Varint(r.patchMajor)
    else if c == Fixed(11) then Varint(r.patchMinor)
    else if c == Fixed(12) then Varint(|r.bans|)
    else if c == Fixed(13) then NumbersFrom(r.bans, 0)
    else if c == Fixed(14) then Varint(|r.participants|)
    else if c == Fixed(22) then Varint(if r.timeline.Some? then 1 else 0)
    else
      PartsCol(r.participants, 0, c) + (if r.timeline.Some? then TimelineCol(r.timeline.value, c) else [])
  }

  /** Stream `c` of the records `i..`. */
  function BlockCol(rs: seq<MatchRecord>, i: nat, c: ColId): Bytes
    requires i <= |rs| && AllDeltasFit(rs)
    decreases |rs| - i
  {
    if i == |rs| then []
    else
      assert DeltasFit(rs[i], StateAt(rs, i));
      RecordCol(rs[i], if i == 0 then 0 else rs[i - 1].gameId, if i == 0 then 0 else rs[i - 1].gameStartMs, c)
      + BlockCol(rs, i + 1, c)
  }

  // ---- the writes of each part ----

  function At(c: ColId, d: ColId, b: Bytes): Bytes { if c == d then b else [] }

  lemma ValCol(d: ColId, v: u64, k: Ops, c: ColId)
    ensures ColOf(Val(d, v, k), c) == At(c, d, Varint(v)) + ColOf(k, c)
  {
  }

  lemma RawCol(d: ColId, bytes: Bytes, k: Ops, c: ColId)
    ensures ColOf(Raw(d, bytes, k), c) == At(c, d, bytes) + ColOf(k, c)
  {
  }

  /** The place of a list at which `c` gets a value. */
  function SlotOf(plan: Plan, c: ColId): Option<nat>
    requires !plan.Same?
  {
    match plan
    case FixedFrom(lo) => if c.Fixed? && c.i >= lo then Some(c.i - lo) else None
    case RuneSlots => if c.Rune? then Some(c.i) else None
    case StatSlots => if c.Stat? then Some(c.i) else None
  }

  function SlotCol(plan: Plan, vs: seq<nat>, i: nat, c: ColId): Bytes
    requires !plan.Same?
  {
    var slot := SlotOf(plan, c);
    if slot.Some? && i <= slot.value < |vs| then Varint(vs[slot.value]) else []
  }

  lemma {:induction false} ListCol(plan: Plan, vs: seq<u64>, i: nat, k: Ops, c: ColId)
    requires i <= |vs| && !plan.Same?
    ensures ColOf(ListOps(plan, vs, i, k), c) == SlotCol(plan, vs, i, c) + ColOf(k, c)
    decreases |vs| - i
  {
    hide Varint;
    if i < |vs| {
      ListCol(plan, vs, i + 1, k, c);
      ValCol(plan.At(i), vs[i], ListOps(plan, vs, i + 1, k), c);
      assert plan.At(i) == c <==> SlotOf(plan, c) == Some(i);
    }
  }

  lemma {:induction false} SameCol(d: ColId, vs: seq<u64>, i: nat, k: Ops, c: ColId)
    requires i <= |vs|
    ensures ColOf(ListOps(Same(d), vs, i, k), c) == At(c, d, NumbersFrom(vs, i)) + ColOf(k, c)
    decreases |vs| - i
  {
    hide Varint;
    if i < |vs| {
      SameCol(d, vs, i + 1, k, c);
      ValCol(d, vs[i], ListOps(Same(d), vs, i + 1, k), c);
    }
  }

  /** Six parts and what follows them, put together from the back. */
  lemma Six(w: seq<Bytes>, p: seq<Bytes>)
    requires |w| == 7 && |p| == 6
    requires w[0] == p[0] + w[1] && w[1] == p[1] + w[2] && w[2] == p[2] + w[3]
    requires w[3] == p[3] + w[4] && w[4] == p[4] + w[5] && w[5] == p[5] + w[6]
    ensures w[0] == p[0] + p[1] + p[2] + p[3] + p[4] + p[5] + w[6]
  {
  }

  function IdsPart(r: MatchRecord, gid: u64, ms: i64, c: ColId): Bytes
    requires FitsI64(r.gameId - gid) && FitsI64(r.gameStartMs - ms)
  {
    At(c, Fixed(0), Varint(r.schemaVersion)) + At(c, Fixed(1), Varint(Zigzag(r.gameId - gid)))
    + At(c, Fixed(2), Varint(|r.platform|)) + At(c, Fixed(3), r.platform)
    + At(c, Fixed(4), Varint(r.queueId)) + At(c, Fixed(5), Varint(Zigzag(r.gameStartMs - ms)))
  }

  function MetaPart(r: MatchRecord, c: ColId): Bytes {
    At(c, Fixed(6), Varint(r.durationS)) + At(c, Fixed(7), Varint(if r.blueWon then 1 else 0))
    + At(c, Fixed(8), Varint(|r.gameVersion|)) + At(c, Fixed(9), r.gameVersion)
    + At(c, Fixed(10), Varint(r.patchMajor)) + At(c, Fixed(11), Varint(r.patchMinor))
  }

  function BansPart(bans: Vec<u32>, c: ColId): Bytes {
    At(c, Fixed(12), Varint(|bans|)) + At(c, Fixed(13), NumbersFrom(bans, 0))
  }

  lemma IdsCol(r: MatchRecord, st: BlockState, k: Ops, c: ColId)
    requires DeltasFit(r, st)
    ensures ColOf(IdsOps(r, st, k), c) == IdsPart(r, st.gameId, st.gameStartMs, c) + ColOf(k, c)
  {
    hide Varint, Zigzag, ColOf;
    var k5 := Val(START_D, Zigzag(r.gameStartMs - st.gameStartMs), k);
    var k4 := Val(QUEUE, r.queueId, k5);
    var k3 := Raw(PLAT, r.platform, k4);
    var k2 := Val(PLAT_LEN, |r.platform|, k3);
    var k1 := Val(GID_D, Zigzag(r.gameId - st.gameId), k2);
    ValCol(SCHEMA, r.schemaVersion, k1, c);
    ValCol(GID_D, Zigzag(r.gameId - st.gameId), k2, c);
    ValCol(PLAT_LEN, |r.platform|, k3, c);
    RawCol(PLAT, r.platform, k4, c);
    ValCol(QUEUE, r.queueId, k5, c);
    ValCol(START_D, Zigzag(r.gameStartMs - st.gameStartMs), k, c);
    hide At;
    Six(
      [ColOf(IdsOps(r, st, k), c), ColOf(k1, c), ColOf(k2, c), ColOf(k3, c), ColOf(k4, c), ColOf(k5, c), ColOf(k, c)],
      [At(c, Fixed(0), Varint(r.schemaVersion)), At(c, Fixed(1), Varint(Zigzag(r.gameId - st.gameId))),
       At(c, Fixed(2), Varint(|r.platform|)), At(c, Fixed(3), r.platform), At(c, Fixed(4), Varint(r.queueId)),
       At(c, Fixed(5), Varint(Zigzag(r.gameStartMs - st.gameStartMs)))]);
  }

  lemma MetaCol(r: MatchRecord, k: Ops, c: ColId)
    ensures ColOf(MetaOps(r, k), c) == MetaPart(r, c) + ColOf(k, c)
  {
    hide Varint, ColOf;
    var k5 := Val(PMIN, r.patchMinor, k);
    var k4 := Val(PMAJ, r.patchMajor, k5);
    var k3 := Raw(GV, r.gameVersion, k4);
    var k2 := Val(GV_LEN, |r.gameVersion|, k3);
    var k1 := Val(BLUE, if r.blueWon then 1 else 0, k2);
    ValCol(DUR, r.durationS, k1, c);
    ValCol(BLUE, if r.blueWon then 1 else 0, k2, c);
    ValCol(GV_LEN, |r.gameVersion|, k3, c);
    RawCol(GV, r.gameVersion, k4, c);
    ValCol(PMAJ, r.patchMajor, k5, c);
    ValCol(PMIN, r.patchMinor, k, c);
    hide At;
    Six(
      [ColOf(MetaOps(r, k), c), ColOf(k1, c), ColOf(k2, c), ColOf(k3, c), ColOf(k4, c), ColOf(k5, c), ColOf(k, c)],
      [At(c, Fixed(6), Varint(r.durationS)), At(c, Fixed(7), Varint(if r.blueWon then 1 else 0)),
       At(c, Fixed(8), Varint(|r.gameVersion|)), At(c, Fixed(9), r.gameVersion),
       At(c, Fixed(10), Varint(r.patchMajor)), At(c, Fixed(11), Varint(r.patchMinor))]);
  }

  lemma BansCol(bans: Vec<u32>, k: Ops, c: ColId)
    ensures ColOf(BansOps(bans, k), c) == BansPart(bans, c) + ColOf(k, c)
  {
    hide Varint, ColOf, NumbersFrom, ListOps;
    ValCol(BANS_N, |bans|, ListOps(Same(BANS), bans, 0, k), c);
    SameCol(BANS, bans, 0, k, c);
  }

  // ---- participants ----

  lemma RunesCol(runes: Vec<u32>, k: Ops, c: ColId)
    ensures ColOf(RunesOps(runes, k), c)
         == At(c, Fixed(20), Varint(|runes|)) + SlotCol(RuneSlots, runes, 0, c) + ColOf(k, c)
  {
    hide Varint, ColOf, ListOps, SlotCol;
    ValCol(P_RUNES_N, |runes|, ListOps(RuneSlots, runes, 0, k), c);
    ListCol(RuneSlots, runes, 0, k, c);
  }

  lemma StatsCol(stats: Vec<i64>, k: Ops, c: ColId)
    ensures ColOf(StatsOps(stats, k), c)
         == At(c, Fixed(21), Varint(|stats|)) + SlotCol(StatSlots, Zigzags(stats), 0, c) + ColOf(k, c)
  {
    hide Varint, ColOf, ListOps, SlotCol;
    ValCol(P_STATS_N, |stats|, ListOps(StatSlots, Zigzags(stats), 0, k), c);
    ListCol(StatSlots, Zigzags(stats), 0, k, c);
  }

  lemma PartColIs(p: Participant, c: ColId)
    ensures PartCol(p, c)
         == SlotCol(PART_PLAN, ParticipantScalars(p), 0, c)
            + (At(c, Fixed(20), Varint(|p.runes|)) + SlotCol(RuneSlots, p.runes, 0, c)
               + (At(c, Fixed(21), Varint(|p.stats|)) + SlotCol(StatSlots, Zigzags(p.stats), 0, c)))
  {
    hide Varint, Zigzag;
  }

  lemma PartOpsCol(p: Participant, k: Ops, c: ColId)
    ensures ColOf(PartOps(p, k), c) == PartCol(p, c) + ColOf(k, c)
  {
    hide Varint, ColOf, ListOps, SlotCol, PartCol, RunesOps, StatsOps, At;
    ListCol(PART_PLAN, ParticipantScalars(p), 0, RunesOps(p.runes, StatsOps(p.stats, k)), c);
    RunesCol(p.runes, StatsOps(p.stats, k), c);
    StatsCol(p.stats, k, c);
    PartColIs(p, c);
  }

  lemma {:induction false} PartsOpsCol(ps: seq<Participant>, i: nat, k: Ops, c: ColId)
    requires i <= |ps|
    ensures ColOf(PartsOps(ps, i, k), c) == PartsCol(ps, i, c) + ColOf(k, c)
    decreases |ps| - i
  {
    hide ColOf, PartOps, PartCol;
    if i < |ps| {
      PartsOpsCol(ps, i + 1, k, c);
      PartOpsCol(ps[i], PartsOps(ps, i + 1, k), c);
    }
  }

  lemma AllPartsCol(ps: Vec<Participant>, k: Ops, c: ColId)
    ensures ColOf(AllPartsOps(ps, k), c) == At(c, Fixed(14), Varint(|ps|)) + PartsCol(ps, 0, c) + ColOf(k, c)
  {
    hide Varint, ColOf, PartsOps, PartsCol;
    ValCol(NPARTS, |ps|, PartsOps(ps, 0, k), c);
    PartsOpsCol(ps, 0, k, c);
  }

  // ---- the timeline ----

  lemma {:induction false} DeltasCol(d: ColId, vs: seq<u32>, prev: seq<u32>, i: nat, k: Ops, c: ColId)
    requires i <= |vs|
    ensures ColOf(SeriesValueOps(d, vs, prev, i, k), c) == At(c, d, DeltasFrom(vs, prev, i)) + ColOf(k, c)
    decreases |vs| - i
  {
    hide Varint, ColOf;
    if i < |vs| {
      DeltasCol(d, vs, prev, i + 1, k, c);
      var rest := SeriesValueOps(d, vs, prev, i + 1, k);
      var first := Varint(Zigzag(vs[i] - PrevAt(prev, i)));
      ValCol(d, Zigzag(vs[i] - PrevAt(prev, i)), rest, c);
      assert DeltasFrom(vs, prev, i) == first + DeltasFrom(vs, prev, i + 1);
      hide Zigzag, SeriesValueOps, DeltasFrom;
      AtBoth(c, d, first, DeltasFrom(vs, prev, i + 1), ColOf(k, c));
    }
  }

  lemma AtBoth(c: ColId, d: ColId, a: Bytes, b: Bytes, rest: Bytes)
    ensures At(c, d, a) + (At(c, d, b) + rest) == At(c, d, a + b) + rest
  {
    assert a + (b + rest) == (a + b) + rest;
  }

  /** The series of a frame from the `i`-th on. */
  function SeriesCol(ss: seq<Vec<u32>>, prev: seq<seq<u32>>, i: nat, c: ColId): Bytes
    requires |ss| == |prev| == 4 && i <= 4
    decreases 4 - i
  {
    if i == 4 then []
    else At(c, Fixed(25 + 2 * i), Varint(|ss[i]|)) + At(c, Fixed(26 + 2 * i), DeltasFrom(ss[i], prev[i], 0))
         + SeriesCol(ss, prev, i + 1, c)
  }

  lemma {:induction false} SeriesOpsCol(ss: seq<Vec<u32>>, prev: seq<seq<u32>>, i: nat, k: Ops, c: ColId)
    requires |ss| == |prev| == 4 && i <= 4
    ensures ColOf(SeriesListOps(ss, prev, i, k), c) == SeriesCol(ss, prev, i, c) + ColOf(k, c)
    decreases 4 - i
  {
    hide Varint, ColOf, DeltasFrom, SeriesValueOps;
    if i < 4 {
      SeriesOpsCol(ss, prev, i + 1, k, c);
      var rest := SeriesListOps(ss, prev, i + 1, k);
      ValCol(SeriesN(i), |ss[i]|, SeriesValueOps(SeriesV(i), ss[i], prev[i], 0, rest), c);
      DeltasCol(SeriesV(i), ss[i], prev[i], 0, rest, c);
      hide At;
    }
  }

  lemma SeriesColIs(ss: seq<Vec<u32>>, prev: seq<seq<u32>>, c: ColId)
    requires |ss| == |prev| == 4
    ensures SeriesCol(ss, prev, 0, c)
         == if c == Fixed(25) then Varint(|ss[0]|) else if c == Fixed(26) then DeltasFrom(ss[0], prev[0], 0)
            else if c == Fixed(27) then Varint(|ss[1]|) else if c == Fixed(28) then DeltasFrom(ss[1], prev[1], 0)
            else if c == Fixed(29) then Varint(|ss[2]|) else if c == Fixed(30) then DeltasFrom(ss[2], prev[2], 0)
            else if c == Fixed(31) then Varint(|ss[3]|) else if c == Fixed(32) then DeltasFrom(ss[3], prev[3], 0)
            else []
  {
    hide Varint, DeltasFrom;
    assert SeriesCol(ss, prev, 4, c) == [];
    assert SeriesCol(ss, prev, 3, c)
        == if c == Fixed(31) then Varint(|ss[3]|) else if c == Fixed(32) then DeltasFrom(ss[3], prev[3], 0) else [];
    assert SeriesCol(ss, prev, 2, c)
        == At(c, Fixed(29), Varint(|ss[2]|)) + At(c, Fixed(30), DeltasFrom(ss[2], prev[2], 0))
           + SeriesCol(ss, prev, 3, c);
    assert SeriesCol(ss, prev, 1, c)
        == At(c, Fixed(27), Varint(|ss[1]|)) + At(c, Fixed(28), DeltasFrom(ss[1], prev[1], 0))
           + SeriesCol(ss, prev, 2, c);
    assert SeriesCol(ss, prev, 0, c)
        == At(c, Fixed(25), Varint(|ss[0]|)) + At(c, Fixed(26), DeltasFrom(ss[0], prev[0], 0))
           + SeriesCol(ss, prev, 1, c);
    hide SeriesCol;
  }

  lemma FrameColIs(f: MinuteFrame, b: MinuteFrame, c: ColId)
    ensures FrameCol(f, b, c) == At(c, Fixed(24), Varint(f.minute)) + SeriesCol(Series(f), Series(b), 0, c)
  {
    hide Varint, DeltasFrom, SeriesCol;
    SeriesColIs(Series(f), Series(b), c);
  }

  function Before(fs: seq<MinuteFrame>, i: nat): MinuteFrame
    requires i <= |fs|
  {
    if i == 0 then MinuteFrame(0, [], [], [], []) else fs[i - 1]
  }

  lemma FrameOpsCol(f: MinuteFrame, b: MinuteFrame, k: Ops, c: ColId)
    ensures ColOf(Val(F_MINUTE, f.minute, SeriesListOps(Series(f), Series(b), 0, k)), c)
         == FrameCol(f, b, c) + ColOf(k, c)
  {
    hide Varint, ColOf, FrameCol, SeriesCol, SeriesListOps;
    ValCol(F_MINUTE, f.minute, SeriesListOps(Series(f), Series(b), 0, k), c);
    SeriesOpsCol(Series(f), Series(b), 0, k, c);
    FrameColIs(f, b, c);
    hide At, Series;
  }

  lemma {:induction false} FramesOpsCol(fs: seq<MinuteFrame>, i: nat, k: Ops, c: ColId)
    requires i <= |fs|
    ensures ColOf(FramesOps(fs, i, k), c) == FramesCol(fs, i, c) + ColOf(k, c)
    decreases |fs| - i
  {
    hide ColOf, FrameCol, SeriesListOps;
    if i < |fs| {
      var rest := FramesOps(fs, i + 1, k);
      FramesOpsCol(fs, i + 1, k, c);
      assert PrevSeries(fs, i) == Series(Before(fs, i));
      FrameOpsCol(fs[i], Before(fs, i), rest, c);
      assert FramesCol(fs, i, c) == FrameCol(fs[i], Before(fs, i), c) + FramesCol(fs, i + 1, c);
      hide Series, PrevSeries, FramesOps, FramesCol, Before;
    }
  }

  /** The events from the `i`-th on: their times in stream `d`, their fields along `plan`. */
  function EventsCol(es: seq<Event>, i: nat, d: ColId, plan: Plan, c: ColId): Bytes
    requires i <= |es| && !plan.Same?
    decreases |es| - i
  {
    if i == |es| then []
    else At(c, d, SinceLast(es[i].t, PrevT(es, i))) + SlotCol(plan, es[i].fields, 0, c)
         + EventsCol(es, i + 1, d, plan, c)
  }

  lemma EventOpsCol(e: Event, before: u32, d: ColId, plan: Plan, k: Ops, c: ColId)
    requires !plan.Same?
    ensures ColOf(EventOps(e, before, d, plan, k), c)
         == At(c, d, SinceLast(e.t, before)) + SlotCol(plan, e.fields, 0, c) + ColOf(k, c)
  {
    hide Varint, Zigzag, ColOf, SlotCol, ListOps;
    ValCol(d, Zigzag(e.t - before), ListOps(plan, e.fields, 0, k), c);
    ListCol(plan, e.fields, 0, k, c);
    hide At;
  }

  lemma {:induction false} EventsOpsCol(es: seq<Event>, i: nat, d: ColId, plan: Plan, k: Ops, c: ColId)
    requires i <= |es| && !plan.Same?
    ensures ColOf(EventsOps(es, i, d, plan, k), c) == EventsCol(es, i, d, plan, c) + ColOf(k, c)
    decreases |es| - i
  {
    hide ColOf, EventOps, SlotCol;
    if i < |es| {
      EventsOpsCol(es, i + 1, d, plan, k, c);
      EventOpsCol(es[i], PrevT(es, i), d, plan, EventsOps(es, i + 1, d, plan, k), c);
      hide At, PrevT, SinceLast;
    }
  }

  lemma EventListCol(es: Vec<Event>, n: ColId, d: ColId, plan: Plan, k: Ops, c: ColId)
    requires !plan.Same?
    ensures ColOf(EventListOps(es, n, d, plan, k), c)
         == At(c, n, Varint(|es|)) + EventsCol(es, 0, d, plan, c) + ColOf(k, c)
  {
    hide Varint, ColOf, EventsOps, EventsCol;
    ValCol(n, |es|, EventsOps(es, 0, d, plan, k), c);
    EventsOpsCol(es, 0, d, plan, k, c);
    hide At;
  }

  lemma KillColIs(k: KillEvent, before: u32, c: ColId)
    ensures KillCol(k, before, c)
         == At(c, K_T, SinceLast(k.t, before)) + SlotCol(KILL_PLAN, [k.killer, k.victim, k.assistMask, k.x, k.y], 0, c)
  {
    hide Varint, SinceLast;
  }

  lemma KillEventAt(ks: Vec<KillEvent>, i: nat)
    requires i < |ks|
    ensures KillEvents(ks)[i] == Event(ks[i].t, [ks[i].killer, ks[i].victim, ks[i].assistMask, ks[i].x, ks[i].y])
    ensures PrevT(KillEvents(ks), i) == if i == 0 then 0 else ks[i - 1].t
  {
  }

  lemma {:induction false} KillsColIs(ks: Vec<KillEvent>, i: nat, c: ColId)
    requires i <= |ks|
    ensures KillsCol(ks, i, c) == EventsCol(KillEvents(ks), i, K_T, KILL_PLAN, c)
    decreases |ks| - i
  {
    hide Varint, SinceLast, SlotCol, At, KillCol, KillEvents, PrevT;
    if i < |ks| {
      KillEventAt(ks, i);
      KillsColIs(ks, i + 1, c);
      KillColIs(ks[i], if i == 0 then 0 else ks[i - 1].t, c);
    }
  }

  lemma ObjectiveColIs(o: ObjectiveEvent, before: u32, c: ColId)
    ensures ObjectiveCol(o, before, c)
         == At(c, O_T, SinceLast(o.t, before)) + SlotCol(OBJ_PLAN, [o.kind, o.killer, o.losingTeam, o.lane], 0, c)
  {
    hide Varint, SinceLast;
  }

  lemma ObjectiveEventAt(os: Vec<ObjectiveEvent>, i: nat)
    requires i < |os|
    ensures ObjectiveEvents(os)[i] == Event(os[i].t, [os[i].kind, os[i].killer, os[i].losingTeam, os[i].lane])
    ensures PrevT(ObjectiveEvents(os), i) == if i == 0 then 0 else os[i - 1].t
  {
  }

  lemma {:induction false} ObjectivesColIs(os: Vec<ObjectiveEvent>, i: nat, c: ColId)
    requires i <= |os|
    ensures ObjectivesCol(os, i, c) == EventsCol(ObjectiveEvents(os), i, O_T, OBJ_PLAN, c)
    decreases |os| - i
  {
    hide Varint, SinceLast, SlotCol, At, ObjectiveCol, ObjectiveEvents, PrevT;
    if i < |os| {
      ObjectiveEventAt(os, i);
      ObjectivesColIs(os, i + 1, c);
      ObjectiveColIs(os[i], if i == 0 then 0 else os[i - 1].t, c);
    }
  }

  lemma WardColIs(w: WardEvent, before: u32, c: ColId)
    ensures WardCol(w, before, c)
         == At(c, W_T, SinceLast(w.t, before)) + SlotCol(WARD_PLAN, [w.kind, w.participant], 0, c)
  {
    hide Varint, SinceLast;
  }

  lemma WardEventAt(ws: Vec<WardEvent>, i: nat)
    requires i < |ws|
    ensures WardEvents(ws)[i] == Event(ws[i].t, [ws[i].kind, ws[i].participant])
    ensures PrevT(WardEvents(ws), i) == if i == 0 then 0 else ws[i - 1].t
  {
  }

  lemma {:induction false} WardsColIs(ws: Vec<WardEvent>, i: nat, c: ColId)
    requires i <= |ws|
    ensures WardsCol(ws, i, c) == EventsCol(WardEvents(ws), i, W_T, WARD_PLAN, c)
    decreases |ws| - i
  {
    hide Varint, SinceLast, SlotCol, At, WardCol, WardEvents, PrevT;
    if i < |ws| {
      WardEventAt(ws, i);
      WardsColIs(ws, i + 1, c);
      WardColIs(ws[i], if i == 0 then 0 else ws[i - 1].t, c);
    }
  }

  // A count's stream holds nothing else of the timeline.

  lemma {:induction false} FramesElsewhere(fs: seq<MinuteFrame>, i: nat, c: ColId)
    requires i <= |fs| && (!c.Fixed? || c.i < 24 || c.i > 32)
    ensures FramesCol(fs, i, c) == []
    decreases |fs| - i
  {
    hide Varint, DeltasFrom;
    if i < |fs| {
      FramesElsewhere(fs, i + 1, c);
    }
  }

  lemma KillElsewhere(k: KillEvent, before: u32, c: ColId)
    requires !c.Fixed? || c.i < 34 || c.i > 39
    ensures KillCol(k, before, c) == []
  {
    hide Varint, SinceLast;
  }

  lemma {:induction false} KillsElsewhere(ks: seq<KillEvent>, i: nat, c: ColId)
    requires i <= |ks| && (!c.Fixed? || c.i < 34 || c.i > 39)
    ensures KillsCol(ks, i, c) == []
    decreases |ks| - i
  {
    hide KillCol;
    if i < |ks| {
      KillElsewhere(ks[i], if i == 0 then 0 else ks[i - 1].t, c);
      KillsElsewhere(ks, i + 1, c);
    }
  }

  lemma ObjectiveElsewhere(o: ObjectiveEvent, before: u32, c: ColId)
    requires !c.Fixed? || c.i < 41 || c.i > 45
    ensures ObjectiveCol(o, before, c) == []
  {
    hide Varint, SinceLast;
  }

  lemma {:induction false} ObjectivesElsewhere(os: seq<ObjectiveEvent>, i: nat, c: ColId)
    requires i <= |os| && (!c.Fixed? || c.i < 41 || c.i > 45)
    ensures ObjectivesCol(os, i, c) == []
    decreases |os| - i
  {
    hide ObjectiveCol;
    if i < |os| {
      ObjectiveElsewhere(os[i], if i == 0 then 0 else os[i - 1].t, c);
      ObjectivesElsewhere(os, i + 1, c);
    }
  }

  lemma WardElsewhere(w: WardEvent, before: u32, c: ColId)
    requires !c.Fixed? || c.i < 47 || c.i > 49
    ensures WardCol(w, before, c) == []
  {
    hide Varint, SinceLast;
  }

  lemma {:induction false} WardsElsewhere(ws: seq<WardEvent>, i: nat, c: ColId)
    requires i <= |ws| && (!c.Fixed? || c.i < 47 || c.i > 49)
    ensures WardsCol(ws, i, c) == []
    decreases |ws| - i
  {
    hide WardCol;
    if i < |ws| {
      WardElsewhere(ws[i], if i == 0 then 0 else ws[i - 1].t, c);
      WardsElsewhere(ws, i + 1, c);
    }
  }

  /** The timeline's streams, written part by part. */
  function TimelineParts(t: TimelineLite, c: ColId): Bytes {
    At(c, Fixed(23), Varint(|t.frames|)) + FramesCol(t.frames, 0, c)
    + (At(c, Fixed(33), Varint(|t.kills|)) + KillsCol(t.kills, 0, c)
       + (At(c, Fixed(40), Varint(|t.objectives|)) + ObjectivesCol(t.objectives, 0, c)
          + (At(c, Fixed(46), Varint(|t.wards|)) + WardsCol(t.wards, 0, c))))
  }

  lemma TimelineColIs(t: TimelineLite, c: ColId)
    ensures TimelineCol(t, c) == TimelineParts(t, c)
  {
    hide Varint, FramesCol, KillsCol, ObjectivesCol, WardsCol;
    if c == Fixed(23) || c == Fixed(33) || c == Fixed(40) || c == Fixed(46) {
      FramesElsewhere(t.frames, 0, c);
      KillsElsewhere(t.kills, 0, c);
      ObjectivesElsewhere(t.objectives, 0, c);
      WardsElsewhere(t.wards, 0, c);
    }
  }

  lemma TimelineOpsCol(t: TimelineLite, k: Ops, c: ColId)
    ensures ColOf(TimelineOps(t, k), c) == TimelineCol(t, c) + ColOf(k, c)
  {
    hide Varint, ColOf, FramesOps, EventListOps, EventsCol, FramesCol, KillsCol, ObjectivesCol, WardsCol, At,
         TimelineCol, KillEvents, ObjectiveEvents, WardEvents;
    var k3 := WardListOps(t, k);
    var k2 := ObjListOps(t, k3);
    var k1 := KillListOps(t, k2);
    ValCol(NFRAMES, |t.frames|, FramesOps(t.frames, 0, k1), c);
    FramesOpsCol(t.frames, 0, k1, c);
    EventListCol(KillEvents(t.kills), NKILLS, K_T, KILL_PLAN, k2, c);
    EventListCol(ObjectiveEvents(t.objectives), NOBJS, O_T, OBJ_PLAN, k3, c);
    EventListCol(WardEvents(t.wards), NWARDS, W_T, WARD_PLAN, k, c);
    KillsColIs(t.kills, 0, c);
    ObjectivesColIs(t.objectives, 0, c);
    WardsColIs(t.wards, 0, c);
    TimelineColIs(t, c);
  }

  function MaybeTimelineCol(t: Option<TimelineLite>, c: ColId): Bytes {
    At(c, Fixed(22), Varint(if t.Some? then 1 else 0)) + (if t.Some? then TimelineCol(t.value, c) else [])
  }

  lemma MaybeTimelineOpsCol(t: Option<TimelineLite>, k: Ops, c: ColId)
    ensures ColOf(MaybeTimelineOps(t, k), c) == MaybeTimelineCol(t, c) + ColOf(k, c)
  {
    hide Varint, ColOf, TimelineOps, TimelineCol;
    if t.Some? {
      ValCol(TL_PRESENT, 1, TimelineOps(t.value, k), c);
      TimelineOpsCol(t.value, k, c);
    } else {
      ValCol(TL_PRESENT, 0, k, c);
    }
    hide At;
  }

  // ---- records ----

  lemma {:induction false} PartsElsewhere(ps: seq<Participant>, i: nat, c: ColId)
    requires i <= |ps| && c.Fixed? && (c.i < 15 || c.i > 21)
    ensures PartsCol(ps, i, c) == []
    decreases |ps| - i
  {
    hide Varint;
    if i < |ps| {
      PartsElsewhere(ps, i + 1, c);
    }
  }

  lemma TimelineElsewhere(t: TimelineLite, c: ColId)
    requires !c.Fixed? || c.i < 23
    ensures TimelineCol(t, c) == []
  {
    FramesElsewhere(t.frames, 0, c);
    KillsElsewhere(t.kills, 0, c);
    ObjectivesElsewhere(t.objectives, 0, c);
    WardsElsewhere(t.wards, 0, c);
    hide FramesCol, KillsCol, ObjectivesCol, WardsCol;
  }

  /** The fields of a record ahead of its participants, stream by stream. */
  lemma HeadIs(r: MatchRecord, gid: u64, ms: i64, c: ColId)
    requires FitsI64(r.gameId - gid) && FitsI64(r.gameStartMs - ms)
    ensures IdsPart(r, gid, ms, c) + (MetaPart(r, c) + BansPart(r.bans, c))
         == if c.Fixed? && c.i < 14 then RecordCol(r, gid, ms, c) else []
  {
    hide Varint, Zigzag, NumbersFrom, PartsCol, TimelineCol;
    assert IdsPart(r, gid, ms, c) == if c.Fixed? && c.i < 6 then RecordCol(r, gid, ms, c) else [];
    assert MetaPart(r, c) == if c.Fixed? && 6 <= c.i < 12 then RecordCol(r, gid, ms, c) else [];
    assert BansPart(r.bans, c) == if c.Fixed? && 12 <= c.i < 14 then RecordCol(r, gid, ms, c) else [];
    hide IdsPart, MetaPart, BansPart, RecordCol;
  }

  function TailPart(r: MatchRecord, c: ColId): Bytes {
    At(c, Fixed(14), Varint(|r.participants|)) + PartsCol(r.participants, 0, c) + MaybeTimelineCol(r.timeline, c)
  }

  lemma TailIs(r: MatchRecord, gid: u64, ms: i64, c: ColId)
    requires FitsI64(r.gameId - gid) && FitsI64(r.gameStartMs - ms)
    ensures TailPart(r, c) == if c.Fixed? && c.i < 14 then [] else RecordCol(r, gid, ms, c)
  {
    hide Varint, Zigzag, NumbersFrom, PartsCol, TimelineCol;
    if c.Fixed? && (c.i < 15 || c.i == 22) {
      PartsElsewhere(r.participants, 0, c);
      if r.timeline.Some? {
        TimelineElsewhere(r.timeline.value, c);
      }
    }
  }

  lemma TailOpsCol(r: MatchRecord, k: Ops, c: ColId)
    ensures ColOf(AllPartsOps(r.participants, MaybeTimelineOps(r.timeline, k)), c) == TailPart(r, c) + ColOf(k, c)
  {
    hide Varint, ColOf, AllPartsOps, MaybeTimelineOps, At, PartsCol, MaybeTimelineCol;
    AllPartsCol(r.participants, MaybeTimelineOps(r.timeline, k), c);
    MaybeTimelineOpsCol(r.timeline, k, c);
  }

  lemma RecordColIs(r: MatchRecord, gid: u64, ms: i64, c: ColId)
    requires FitsI64(r.gameId - gid) && FitsI64(r.gameStartMs - ms)
    ensures (IdsPart(r, gid, ms, c) + (MetaPart(r, c) + BansPart(r.bans, c))) + TailPart(r, c)
         == RecordCol(r, gid, ms, c)
  {
    hide IdsPart, MetaPart, BansPart, TailPart, RecordCol;
    HeadIs(r, gid, ms, c);
    TailIs(r, gid, ms, c);
  }

  /** Four parts and what follows them, put together from the back. */
  lemma Regroup(w: Bytes, x: Bytes, y: Bytes, z: Bytes, a: Bytes, b: Bytes, c: Bytes, d: Bytes, e: Bytes)
    requires w == a + x && x == b + y && y == c + z && z == d + e
    ensures w == ((a + (b + c)) + d) + e
  {
  }

  lemma RecordOpsCol(r: MatchRecord, st: BlockState, k: Ops, c: ColId)
    requires DeltasFit(r, st)
    ensures ColOf(RecordOps(r, st, k), c) == RecordCol(r, st.gameId, st.gameStartMs, c) + ColOf(k, c)
  {
    hide ColOf, IdsOps, MetaOps, BansOps, AllPartsOps, MaybeTimelineOps, RecordCol, IdsPart, MetaPart, BansPart,
         TailPart;
    var k3 := AllPartsOps(r.participants, MaybeTimelineOps(r.timeline, k));
    var k2 := BansOps(r.bans, k3);
    var k1 := MetaOps(r, k2);
    IdsCol(r, st, k1, c);
    MetaCol(r, k2, c);
    BansCol(r.bans, k3, c);
    TailOpsCol(r, k, c);
    Regroup(
      ColOf(IdsOps(r, st, k1), c), ColOf(k1, c), ColOf(k2, c), ColOf(k3, c),
      IdsPart(r, st.gameId, st.gameStartMs, c), MetaPart(r, c), BansPart(r.bans, c), TailPart(r, c), ColOf(k, c));
    RecordColIs(r, st.gameId, st.gameStartMs, c);
  }

  /** Every stream of a block holds, record after record, the values that belong to it. */
  lemma {:induction false} BlockColumns(rs: seq<MatchRecord>, i: nat, c: ColId)
    requires i <= |rs| && AllDeltasFit(rs)
    ensures ColOf(BlockOps(rs, i), c) == BlockCol(rs, i, c)
    decreases |rs| - i
  {
    hide RecordOps, RecordCol;
    if i < |rs| {
      BlockColumns(rs, i + 1, c);
      assert DeltasFit(rs[i], StateAt(rs, i));
      RecordOpsCol(rs[i], StateAt(rs, i), BlockOps(rs, i + 1), c);
      hide ColOf;
    }
  }

  // ---- the payload ----

  /** The stream at position `i` of a block with `stats` stat streams. */
  function StreamAt(rs: seq<MatchRecord>, stats: nat, i: nat): Bytes
    requires AllDeltasFit(rs)
  {
    BlockCol(rs, 0, if i < 50 then Fixed(i) else if i < 50 + stats then Stat(i - 50) else Rune(i - 50 - stats))
  }

  /** No participant has more than `w` stats, or runes, and some participant has as many. */
  ghost predicate IsWidest(rs: seq<MatchRecord>, w: nat, stats: bool) {
    && (forall i, j | 0 <= i < |rs| && 0 <= j < |rs[i].participants| ::
          (if stats then |rs[i].participants[j].stats| else |rs[i].participants[j].runes|) <= w)
    && (w > 0 ==>
          exists i, j ::
            && 0 <= i < |rs| && 0 <= j < |rs[i].participants|
            && (if stats then |rs[i].participants[j].stats| else |rs[i].participants[j].runes|) == w)
  }

  lemma {:induction false} WidestIs(ps: seq<Participant>, n: nat, stats: bool) returns (j: nat)
    requires n <= |ps| && Widest(ps, n, stats) > 0
    ensures j < n && (if stats then |ps[j].stats| else |ps[j].runes|) == Widest(ps, n, stats)
  {
    if Widest(ps, n, stats) == (if stats then |ps[n - 1].stats| else |ps[n - 1].runes|) {
      j := n - 1;
    } else {
      j := WidestIs(ps, n - 1, stats);
    }
  }

  lemma {:induction false} WidthIs(rs: seq<MatchRecord>, n: nat, stats: bool) returns (i: nat, j: nat)
    requires n <= |rs| && Width(rs, n, stats) > 0
    ensures i < n && j < |rs[i].participants|
    ensures (if stats then |rs[i].participants[j].stats| else |rs[i].participants[j].runes|) == Width(rs, n, stats)
  {
    hide Widest;
    var ps := rs[n - 1].participants;
    if Width(rs, n, stats) == Widest(ps, |ps|, stats) {
      i := n - 1;
      j := WidestIs(ps, |ps|, stats);
    } else {
      i, j := WidthIs(rs, n - 1, stats);
    }
  }

  lemma WidthIsWidest(rs: seq<MatchRecord>, stats: bool)
    ensures IsWidest(rs, Width(rs, |rs|, stats), stats)
  {
    hide Width;
    if Width(rs, |rs|, stats) > 0 {
      var i, j := WidthIs(rs, |rs|, stats);
    }
  }

  /** A payload is "LCOL", version 1, the numbers of records, stat streams and rune streams, the length of every stream
      and then every stream: the fixed ones by number, the stat streams, the rune streams, no more of them than the
      widest participant needs. */
  lemma PayloadLayout(rs: Vec<MatchRecord>) returns (stats: nat, runes: nat, streams: seq<Bytes>)
    requires AllDeltasFit(rs)
    ensures BlockPayload(rs)
         == [0x4C, 0x43, 0x4F, 0x4C, 1] + Varint(|rs|) + Varint(stats) + Varint(runes)
            + LengthsFrom(streams, 0) + DataFrom(streams, 0)
    ensures IsWidest(rs, stats, true) && IsWidest(rs, runes, false)
    ensures |streams| == 50 + stats + runes
    ensures forall i | 0 <= i < |streams| :: streams[i] == StreamAt(rs, stats, i)
  {
    hide ColOf, BlockOps, BlockCol, Width, LengthsFrom, DataFrom, Varint, IsWidest;
    stats, runes := Width(rs, |rs|, true), Width(rs, |rs|, false);
    streams := StreamsOf(BlockOps(rs, 0), stats, runes);
    WidthIsWidest(rs, true);
    WidthIsWidest(rs, false);
    forall i | 0 <= i < |streams| ensures streams[i] == StreamAt(rs, stats, i) {
      BlockColumns(rs, 0, IdAt(i, stats));
    }
  }
}
