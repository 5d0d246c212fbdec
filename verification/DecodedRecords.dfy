/**
 Whatever bytes a block decoder is given, it refuses them or returns canonical
 records: each output is the encoding of some record of the schema.
 */
module DecodedRecords {
  import opened Results
  import opened Wire
  import opened Schema
  import opened Columns
  import opened ColumnarSpec
  import opened ColumnarBlock
  import opened ProtoReader
  import opened ProtoProof

  // ---- lists read from a stream ----

  lemma {:induction false} AllBelow(f: Fam, plan: Plan, n: nat, max: nat, acc: seq<nat>)
    requires ReadAll(f, plan, n, max, acc).Got? && forall i | 0 <= i < |acc| :: acc[i] < max
    ensures forall i | 0 <= i < |acc| + n :: ReadAll(f, plan, n, max, acc).value[i] < max
    decreases n
  {
    hide ReadVal;
    if n > 0 {
      var r := ReadVal(f, plan.At(|acc|), max);
      AllBelow(r.rest, plan, n - 1, max, acc + [r.value]);
    }
  }

  lemma ListBelow(f: Fam, nCol: ColId, plan: Plan, max: nat)
    requires DecList(f, nCol, plan, max).Got?
    ensures var vs := DecList(f, nCol, plan, max).value; |vs| < TWO_64 && forall i | 0 <= i < |vs| :: vs[i] < max
  {
    hide ReadVal;
    var r := ReadVal(f, nCol, TWO_64);
    AllBelow(r.rest, plan, r.value, max, []);
    hide ReadAll;
  }

  /** A list of 32-bit numbers, as one. */
  function Narrow(vs: seq<nat>): (us: seq<u32>)
    requires forall i | 0 <= i < |vs| :: vs[i] < TWO_32
    ensures us == vs
  {
    seq(|vs|, i requires 0 <= i < |vs| => vs[i])
  }

  // ---- minutes ----

  lemma {:induction false} FramesPrefix(fs: seq<MinuteFrame>, f: MinuteFrame, n: nat)
    requires n <= |fs|
    ensures FramesBytes(fs + [f], n) == FramesBytes(fs, n)
  {
    hide PutMessage, FrameBytes;
    if n > 0 {
      FramesPrefix(fs, f, n - 1);
      assert (fs + [f])[n - 1] == fs[n - 1];
    }
  }

  lemma {:induction false} SeriesShort(f: Fam, prev: seq<seq<u32>>, acc: seq<seq<u32>>)
    requires |prev| == 4 && |acc| <= 4 && DecSeriesList(f, prev, acc).Got?
    requires forall i | 0 <= i < |acc| :: |acc[i]| < TWO_64
    ensures forall i | 0 <= i < 4 :: |DecSeriesList(f, prev, acc).value[i]| < TWO_64
    decreases 4 - |acc|
  {
    hide ReadVal, DecSeries;
    if |acc| < 4 {
      var r := ReadVal(f, SeriesN(|acc|), TWO_64);
      var vs := DecSeries(r.rest, SeriesV(|acc|), prev[|acc|], r.value, []);
      SeriesShort(vs.rest, prev, acc + [vs.value]);
    }
  }

  /** Decoded minutes are the bytes of some minutes, after those decoded before. */
  lemma {:induction false} FramesDecoded(f: Fam, n: nat, prev: seq<seq<u32>>, out: Bytes, before: seq<MinuteFrame>)
    returns (fs: seq<MinuteFrame>)
    requires |prev| == 4 && out == FramesBytes(before, |before|) && DecFrames(f, n, prev, out).Got?
    ensures |fs| == |before| + n && DecFrames(f, n, prev, out).value == FramesBytes(fs, |fs|)
    decreases n
  {
    hide ReadVal, DecSeriesList, PutMessage, FrameBytes;
    if n == 0 {
      fs := before;
    } else {
      var m := ReadVal(f, F_MINUTE, TWO_32);
      var ss := DecSeriesList(m.rest, prev, []);
      SeriesShort(m.rest, prev, []);
      var frame := MinuteFrame(m.value, ss.value[0], ss.value[1], ss.value[2], ss.value[3]);
      assert Series(frame) == ss.value;
      FramesPrefix(before, frame, |before|);
      var more := out + PutMessage(1, FrameBytes(m.value, ss.value));
      assert more == FramesBytes(before + [frame], |before| + 1);
      fs := FramesDecoded(ss.rest, n - 1, ss.value, more, before + [frame]);
    }
  }

  // ---- events ----

  lemma {:induction false} EventsPrefix(field: nat, es: seq<Event>, e: Event, n: nat)
    requires n <= |es|
    ensures EventsBytes(field, es + [e], n) == EventsBytes(field, es, n)
  {
    hide PutMessage, EventBytes;
    if n > 0 {
      EventsPrefix(field, es, e, n - 1);
      assert (es + [e])[n - 1] == es[n - 1];
    }
  }

  /** Decoded events are the bytes of some events of `m` fields each. */
  lemma {:induction false} EventsDecoded(
      f: Fam, tCol: ColId, plan: Plan, m: nat, field: nat, n: nat, prevT: u32, out: Bytes, before: seq<Event>)
    returns (es: seq<Event>)
    requires out == EventsBytes(field, before, |before|) && FieldsFit(before, m)
    requires DecEvents(f, tCol, plan, m, field, n, prevT, out).Got?
    ensures |es| == |before| + n && FieldsFit(es, m)
    ensures DecEvents(f, tCol, plan, m, field, n, prevT, out).value == EventsBytes(field, es, |es|)
    decreases n
  {
    hide PutMessage, EventBytes, DecEvent;
    if n == 0 {
      es := before;
    } else {
      var e := EventDecoded(f, tCol, plan, m, prevT);
      var d := DecEvent(f, tCol, plan, m, prevT);
      EventsPrefix(field, before, e, |before|);
      var more := out + PutMessage(field, d.value.1);
      assert more == EventsBytes(field, before + [e], |before| + 1);
      es := EventsDecoded(d.rest, tCol, plan, m, field, n - 1, e.t, more, before + [e]);
    }
  }

  lemma EventDecoded(f: Fam, tCol: ColId, plan: Plan, m: nat, prevT: u32) returns (e: Event)
    requires DecEvent(f, tCol, plan, m, prevT).Got?
    ensures |e.fields| == m && DecEvent(f, tCol, plan, m, prevT).value == (e.t, EventBytes(e.t, e.fields))
  {
    hide ReadVal, EventBytes;
    var t := ReadDelta(f, tCol, prevT, 0, TWO_32);
    AllBelow(t.rest, plan, m, TWO_32, []);
    var vs := ReadAll(t.rest, plan, m, TWO_32, []);
    hide ReadAll, ReadDelta;
    e := Event(t.value, Narrow(vs.value));
  }

  lemma EventListDecoded(f: Fam, nCol: ColId, tCol: ColId, plan: Plan, m: nat, field: nat) returns (es: Vec<Event>)
    requires DecEventList(f, nCol, tCol, plan, m, field, []).Got?
    ensures FieldsFit(es, m) && DecEventList(f, nCol, tCol, plan, m, field, []).value == EventsBytes(field, es, |es|)
  {
    hide ReadVal, DecEvents;
    var n := ReadVal(f, nCol, TWO_64);
    assert EventsBytes(field, [], 0) == [];
    es := EventsDecoded(n.rest, tCol, plan, m, field, n.value, 0, [], []);
  }

  lemma AsKills(es: Vec<Event>) returns (ks: Vec<KillEvent>)
    requires FieldsFit(es, 5)
    ensures KillEvents(ks) == es
  {
    ks := seq(|es|, i requires 0 <= i < |es| =>
      KillEvent(es[i].t, es[i].fields[0], es[i].fields[1], es[i].fields[2], es[i].fields[3], es[i].fields[4]));
    forall i | 0 <= i < |es| ensures KillEvents(ks)[i] == es[i] {
      assert es[i].fields == [es[i].fields[0], es[i].fields[1], es[i].fields[2], es[i].fields[3], es[i].fields[4]];
    }
  }

  lemma AsObjectives(es: Vec<Event>) returns (os: Vec<ObjectiveEvent>)
    requires FieldsFit(es, 4)
    ensures ObjectiveEvents(os) == es
  {
    os := seq(|es|, i requires 0 <= i < |es| =>
      ObjectiveEvent(es[i].t, es[i].fields[0], es[i].fields[1], es[i].fields[2], es[i].fields[3]));
    forall i | 0 <= i < |es| ensures ObjectiveEvents(os)[i] == es[i] {
      assert es[i].fields == [es[i].fields[0], es[i].fields[1], es[i].fields[2], es[i].fields[3]];
    }
  }

  lemma AsWards(es: Vec<Event>) returns (ws: Vec<WardEvent>)
    requires FieldsFit(es, 2)
    ensures WardEvents(ws) == es
  {
    ws := seq(|es|, i requires 0 <= i < |es| => WardEvent(es[i].t, es[i].fields[0], es[i].fields[1]));
    forall i | 0 <= i < |es| ensures WardEvents(ws)[i] == es[i] {
      assert es[i].fields == [es[i].fields[0], es[i].fields[1]];
    }
  }

  // ---- the timeline ----

  lemma TimelineDecoded(f: Fam) returns (t: TimelineLite)
    requires DecTimeline(f).Got?
    ensures DecTimeline(f).value == TimelineBytes(t)
  {
    hide ReadVal, DecFrames, DecEventList, FramesBytes, EventsBytes, KillEvents, ObjectiveEvents, WardEvents;
    var n := ReadVal(f, NFRAMES, TWO_64);
    var frames := DecFrames(n.rest, n.value, NO_SERIES, []);
    assert FramesBytes([], 0) == [] by { NoFrames(); }
    var fs := FramesDecoded(n.rest, n.value, NO_SERIES, [], []);
    var kills := DecEventList(frames.rest, NKILLS, K_T, KILL_PLAN, 5, 2, []);
    var ks := EventListDecoded(frames.rest, NKILLS, K_T, KILL_PLAN, 5, 2);
    var objs := DecEventList(kills.rest, NOBJS, O_T, OBJ_PLAN, 4, 3, []);
    var os := EventListDecoded(kills.rest, NOBJS, O_T, OBJ_PLAN, 4, 3);
    var ws := EventListDecoded(objs.rest, NWARDS, W_T, WARD_PLAN, 2, 4);
    var k := AsKills(ks);
    var o := AsObjectives(os);
    var w := AsWards(ws);
    t := TimelineLite(fs, k, o, w);
    SameLengths(k, o, w);
  }

  lemma NoFrames()
    ensures FramesBytes([], 0) == []
  {
  }

  lemma SameLengths(ks: Vec<KillEvent>, os: Vec<ObjectiveEvent>, ws: Vec<WardEvent>)
    ensures |KillEvents(ks)| == |ks| && |ObjectiveEvents(os)| == |os| && |WardEvents(ws)| == |ws|
  {
  }

  // ---- participants ----

  lemma {:induction false} ParticipantsPrefix(ps: seq<Participant>, p: Participant, n: nat)
    requires n <= |ps|
    ensures ParticipantsBytes(ps + [p], n) == ParticipantsBytes(ps, n)
  {
    hide PutMessage, ParticipantBytes;
    if n > 0 {
      ParticipantsPrefix(ps, p, n - 1);
      assert (ps + [p])[n - 1] == ps[n - 1];
    }
  }

  function Unzigzags(us: seq<nat>): (vs: seq<i64>)
    requires forall i | 0 <= i < |us| :: us[i] < TWO_64
    ensures |vs| == |us|
  {
    seq(|us|, i requires 0 <= i < |us| => Unzigzag(us[i]))
  }

  lemma ZigzagsBack(us: seq<nat>)
    requires forall i | 0 <= i < |us| :: us[i] < TWO_64
    ensures Zigzags(Unzigzags(us)) == us
  {
    hide Zigzag, Unzigzag;
    forall i | 0 <= i < |us| ensures Zigzags(Unzigzags(us))[i] == us[i] {
      ZigzagInverse(0, us[i]);
    }
  }

  lemma PartDecoded(f: Fam) returns (p: Participant)
    requires DecPart(f).Got?
    ensures DecPart(f).value == ParticipantBody(p)
  {
    hide ReadVal, DecList, ParticipantBytes, Zigzags, Unzigzags;
    var vs := ReadAll(f, PART_PLAN, 5, TWO_32, []);
    AllBelow(f, PART_PLAN, 5, TWO_32, []);
    hide ReadAll;
    ListBelow(vs.rest, P_RUNES_N, RuneSlots, TWO_32);
    var runes := DecList(vs.rest, P_RUNES_N, RuneSlots, TWO_32);
    ListBelow(runes.rest, P_STATS_N, StatSlots, TWO_64);
    var stats := DecList(runes.rest, P_STATS_N, StatSlots, TWO_64);
    ZigzagsBack(stats.value);
    var v := Narrow(vs.value);
    p := Participant(v[0], v[1], v[2], v[3], v[4], Narrow(runes.value), Unzigzags(stats.value));
    assert ParticipantScalars(p) == vs.value;
  }

  lemma {:induction false} PartsDecoded(f: Fam, n: nat, out: Bytes, before: seq<Participant>)
    returns (ps: seq<Participant>)
    requires out == ParticipantsBytes(before, |before|) && DecParts(f, n, out).Got?
    ensures |ps| == |before| + n && DecParts(f, n, out).value == ParticipantsBytes(ps, |ps|)
    decreases n
  {
    hide DecPart, PutMessage, ParticipantBytes;
    if n == 0 {
      ps := before;
    } else {
      var p := PartDecoded(f);
      var d := DecPart(f);
      ParticipantsPrefix(before, p, |before|);
      var more := out + PutMessage(11, d.value);
      assert more == ParticipantsBytes(before + [p], |before| + 1);
      ps := PartsDecoded(d.rest, n - 1, more, before + [p]);
    }
  }

  lemma AllPartsDecoded(f: Fam) returns (ps: Vec<Participant>)
    requires DecAllParts(f).Got?
    ensures DecAllParts(f).value == ParticipantsBytes(ps, |ps|)
  {
    hide ReadVal, DecParts;
    var n := ReadVal(f, NPARTS, TWO_64);
    assert ParticipantsBytes([], 0) == [];
    ps := PartsDecoded(n.rest, n.value, [], []);
  }

  // ---- records ----

  lemma TextShort(f: Fam, lenCol: ColId, col: ColId)
    requires DecText(f, lenCol, col).Got?
    ensures |DecText(f, lenCol, col).value| < TWO_64
  {
    hide ReadVal;
  }

  /** The first five fields of a decoded record. */
  lemma IdsDecoded(f: Fam, st: BlockState) returns (schema: u32, gid: u64, platform: Vec<byte>, queue: u32, ms: i64)
    requires DecIds(f, st).Got?
    ensures DecIds(f, st).value.0
         == PutVarint(1, schema) + PutVarint(2, gid) + PutBytes(3, platform) + PutVarint(4, queue)
            + PutVarint(5, AsU64(ms))
  {
    hide ReadVal, ReadDelta, DecText, PutVarint, PutBytes, AsU64;
    var f0 := ReadVal(f, SCHEMA, TWO_32);
    var f1 := ReadDelta(f0.rest, GID_D, st.gameId, 0, TWO_64);
    TextShort(f1.rest, PLAT_LEN, PLAT);
    var f2 := DecText(f1.rest, PLAT_LEN, PLAT);
    var f3 := ReadVal(f2.rest, QUEUE, TWO_32);
    var f4 := ReadDelta(f3.rest, START_D, st.gameStartMs, -TWO_63, TWO_63);
    schema, gid, platform, queue, ms := f0.value, f1.value, f2.value, f3.value, f4.value;
  }

  /** The next five. */
  lemma MetaDecoded(f: Fam) returns (dur: u32, blue: bool, version: Vec<byte>, major: u32, minor: u32)
    requires DecMeta(f).Got?
    ensures DecMeta(f).value
         == PutVarint(6, dur) + PutVarint(7, if blue then 1 else 0) + PutBytes(8, version) + PutVarint(9, major)
            + PutVarint(10, minor)
  {
    hide ReadVal, DecText, PutVarint, PutBytes;
    var f0 := ReadVal(f, DUR, TWO_32);
    var f1 := ReadVal(f0.rest, BLUE, 2);
    TextShort(f1.rest, GV_LEN, GV);
    var f2 := DecText(f1.rest, GV_LEN, GV);
    var f3 := ReadVal(f2.rest, PMAJ, TWO_32);
    var f4 := ReadVal(f3.rest, PMIN, TWO_32);
    dur, blue, version, major, minor := f0.value, f1.value == 1, f2.value, f3.value, f4.value;
  }

  function MaybeTimelineBytes(t: Option<TimelineLite>): Bytes {
    if t.Some? then PutMessage(12, TimelineBytes(t.value)) else []
  }

  lemma MaybeTimelineDecoded(f: Fam) returns (t: Option<TimelineLite>)
    requires DecMaybeTimeline(f).Got?
    ensures DecMaybeTimeline(f).value == MaybeTimelineBytes(t)
  {
    hide ReadVal, DecTimeline, TimelineBytes, PutMessage;
    var g := ReadVal(f, TL_PRESENT, 2);
    if g.value == 0 {
      t := None;
    } else {
      var u := TimelineDecoded(g.rest);
      t := Some(u);
    }
  }

  lemma RecordDecoded(f: Fam, st: BlockState) returns (r: MatchRecord)
    requires DecRecord(f, st).Got?
    ensures DecRecord(f, st).value.0 == RecordBytes(r)
  {
    hide DecIds, DecMeta, DecAllParts, DecMaybeTimeline, DecList, PutVarint, PutBytes, PutMessage, AsU64,
         ParticipantsBytes, TimelineBytes, Packed;
    var f0 := DecIds(f, st);
    var f1 := DecMeta(f0.rest);
    var f2 := DecAllParts(f1.rest);
    var f3 := DecMaybeTimeline(f2.rest);
    var f4 := DecList(f3.rest, BANS_N, Same(BANS), TWO_32);
    ListBelow(f3.rest, BANS_N, Same(BANS), TWO_32);
    var schema, gid, platform, queue, ms := IdsDecoded(f, st);
    var dur, blue, version, major, minor := MetaDecoded(f0.rest);
    var ps := AllPartsDecoded(f1.rest);
    var t := MaybeTimelineDecoded(f2.rest);
    r := MatchRecord(
      schema, gid, platform, queue, ms, dur, blue, version, major, minor, ps, t, Narrow(f4.value));
    assert IdsBytes(r) == f0.value.0 && MetaBytes(r) == f1.value;
  }

  /** The bytes are those of some record. */
  ghost predicate IsRecord(raw: Bytes) {
    exists r :: raw == RecordBytes(r)
  }

  lemma {:induction false} RecordsDecoded(f: Fam, st: BlockState, n: nat, acc: seq<Bytes>)
    requires DecRecords(f, st, n, acc).Got? && forall i | 0 <= i < |acc| :: IsRecord(acc[i])
    ensures forall i | 0 <= i < |acc| + n :: IsRecord(DecRecords(f, st, n, acc).value[i])
    decreases n
  {
    hide DecRecord, RecordBytes;
    if n > 0 {
      var r := RecordDecoded(f, st);
      var d := DecRecord(f, st);
      assert IsRecord(d.value.0);
      RecordsDecoded(d.rest, d.value.1, n - 1, acc + [d.value.0]);
    }
  }

  /** Every record of a block that decodes, whatever its bytes, is the canonical encoding of a record of the schema, so
      that the schema's reader recovers one from it. */
  lemma DecodedIsCanonical(p: Bytes, i: nat)
    requires DecodeBlock(p).Ok? && i < |DecodeBlock(p).value|
    ensures IsRecord(DecodeBlock(p).value[i])
    ensures |DecodeBlock(p).value[i]| < TWO_64 ==>
              ReadRecord(DecodeBlock(p).value[i]).Ok?
              && RecordBytes(ReadRecord(DecodeBlock(p).value[i]).value) == DecodeBlock(p).value[i]
  {
    hide ParsePayload, DecRecords, RecordBytes, ReadRecord, AllRead, FamFrom;
    AllReadFacts(p);
    var m := ParsePayload(p).value;
    RecordsDecoded(FamFrom(m.streams, m.stats, m.runes), START, m.records, []);
    assert IsRecord(DecRecords(FamFrom(m.streams, m.stats, m.runes), START, m.records, []).value[i]);
    assert IsRecord(DecodeBlock(p).value[i]);
    var r :| DecodeBlock(p).value[i] == RecordBytes(r);
    if |RecordBytes(r)| < TWO_64 {
      RecordReads(r);
    }
  }
}
