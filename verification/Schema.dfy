/**
 The archived message types and their canonical protobuf encoding: fields in tag
 order, default values omitted, repeated scalars packed, messages always written.
 */
module Schema {
  import opened Results
  import opened Wire

  datatype Participant = Participant(
    playerId: u32, championId: u32, position: u32, spell1: u32, spell2: u32,
    runes: Vec<u32>, stats: Vec<i64>)

  datatype MinuteFrame = MinuteFrame(
    minute: u32, totalGold: Vec<u32>, xp: Vec<u32>, cs: Vec<u32>, dmgToChamps: Vec<u32>)

  datatype KillEvent = KillEvent(t: u32, killer: u32, victim: u32, assistMask: u32, x: u32, y: u32)
  datatype ObjectiveEvent = ObjectiveEvent(t: u32, kind: u32, killer: u32, losingTeam: u32, lane: u32)
  datatype WardEvent = WardEvent(t: u32, kind: u32, participant: u32)

  datatype TimelineLite = TimelineLite(
    frames: Vec<MinuteFrame>, kills: Vec<KillEvent>, objectives: Vec<ObjectiveEvent>, wards: Vec<WardEvent>)

  datatype MatchRecord = MatchRecord(
    schemaVersion: u32, gameId: u64, platform: Vec<byte>, queueId: u32, gameStartMs: i64,
    durationS: u32, blueWon: bool, gameVersion: Vec<byte>, patchMajor: u32, patchMinor: u32,
    participants: Vec<Participant>, timeline: Option<TimelineLite>, bans: Vec<u32>)

  /** The shape kills, objectives and wards share: a timestamp, then plain `u32` fields from tag 2 on. */
  datatype Event = Event(t: u32, fields: seq<u32>)

  function KillEvents(ks: Vec<KillEvent>): (es: Vec<Event>)
    ensures |es| == |ks|
  {
    seq(|ks|, i requires 0 <= i < |ks| =>
      Event(ks[i].t, [ks[i].killer, ks[i].victim, ks[i].assistMask, ks[i].x, ks[i].y]))
  }

  function ObjectiveEvents(os: Vec<ObjectiveEvent>): (es: Vec<Event>)
    ensures |es| == |os|
  {
    seq(|os|, i requires 0 <= i < |os| =>
      Event(os[i].t, [os[i].kind, os[i].killer, os[i].losingTeam, os[i].lane]))
  }

  function WardEvents(ws: Vec<WardEvent>): (es: Vec<Event>)
    ensures |es| == |ws|
  {
    seq(|ws|, i requires 0 <= i < |ws| => Event(ws[i].t, [ws[i].kind, ws[i].participant]))
  }

  /** The four per-minute series, in tag order 2..5. */
  function Series(f: MinuteFrame): (ss: seq<Vec<u32>>)
    ensures |ss| == 4
  {
    [f.totalGold, f.xp, f.cs, f.dmgToChamps]
  }

  /** The five scalar fields of a participant, tags 1..5. */
  function ParticipantScalars(p: Participant): (vs: seq<u32>)
    ensures |vs| == 5
  {
    [p.playerId, p.championId, p.position, p.spell1, p.spell2]
  }

  function Zigzags(stats: seq<i64>): (vs: seq<u64>)
    ensures |vs| == |stats|
  {
    seq(|stats|, i requires 0 <= i < |stats| => Zigzag(stats[i]))
  }

  // ---- fields ----

  function PutVarint(field: nat, v: nat): Bytes {
    if v == 0 then [] else Varint(8 * field) + Varint(v)
  }

  function PutMessage(field: nat, body: Bytes): Bytes {
    Varint(8 * field + 2) + Varint(|body|) + body
  }

  function PutBytes(field: nat, body: Bytes): Bytes {
    if |body| == 0 then [] else PutMessage(field, body)
  }

  // Repeated fields are written element by element; `n` counts the elements written.

  /** Consecutive scalar fields, the first one numbered `first`. */
  function PutFields(first: nat, vs: seq<nat>, n: nat): Bytes
    requires n <= |vs|
  {
    if n == 0 then [] else PutFields(first, vs, n - 1) + PutVarint(first + n - 1, vs[n - 1])
  }

  function Packed(vs: seq<nat>, n: nat): Bytes
    requires n <= |vs|
  {
    if n == 0 then [] else Packed(vs, n - 1) + Varint(vs[n - 1])
  }

  // ---- messages ----

  function EventBytes(t: nat, fields: seq<nat>): Bytes {
    PutVarint(1, t) + PutFields(2, fields, |fields|)
  }

  function EventsBytes(field: nat, es: seq<Event>, n: nat): Bytes
    requires n <= |es|
  {
    if n == 0 then []
    else EventsBytes(field, es, n - 1) + PutMessage(field, EventBytes(es[n - 1].t, es[n - 1].fields))
  }

  function SeriesBytes(ss: seq<seq<nat>>, n: nat): Bytes
    requires n <= |ss|
  {
    if n == 0 then [] else SeriesBytes(ss, n - 1) + PutBytes(n + 1, Packed(ss[n - 1], |ss[n - 1]|))
  }

  function FrameBytes(minute: nat, ss: seq<seq<nat>>): Bytes {
    PutVarint(1, minute) + SeriesBytes(ss, |ss|)
  }

  function FramesBytes(fs: seq<MinuteFrame>, n: nat): Bytes
    requires n <= |fs|
  {
    if n == 0 then []
    else FramesBytes(fs, n - 1) + PutMessage(1, FrameBytes(fs[n - 1].minute, Series(fs[n - 1])))
  }

  function TimelineBytes(t: TimelineLite): Bytes {
    FramesBytes(t.frames, |t.frames|)
    + EventsBytes(2, KillEvents(t.kills), |t.kills|)
    + EventsBytes(3, ObjectiveEvents(t.objectives), |t.objectives|)
    + EventsBytes(4, WardEvents(t.wards), |t.wards|)
  }

  function ParticipantBytes(scalars: seq<nat>, runes: seq<nat>, zigzags: seq<nat>): Bytes {
    PutFields(1, scalars, |scalars|)
    + PutBytes(6, Packed(runes, |runes|))
    + PutBytes(7, Packed(zigzags, |zigzags|))
  }

  function ParticipantsBytes(ps: seq<Participant>, n: nat): Bytes
    requires n <= |ps|
  {
    if n == 0 then []
    else
      var p := ps[n - 1];
      ParticipantsBytes(ps, n - 1)
      + PutMessage(11, ParticipantBytes(ParticipantScalars(p), p.runes, Zigzags(p.stats)))
  }

  /** Fields 1..5. */
  function IdsBytes(r: MatchRecord): Bytes {
    PutVarint(1, r.schemaVersion)
    + PutVarint(2, r.gameId)
    + PutBytes(3, r.platform)
    + PutVarint(4, r.queueId)
    + PutVarint(5, AsU64(r.gameStartMs))
  }

  /** Fields 6..10. */
  function MetaBytes(r: MatchRecord): Bytes {
    PutVarint(6, r.durationS)
    + PutVarint(7, if r.blueWon then 1 else 0)
    + PutBytes(8, r.gameVersion)
    + PutVarint(9, r.patchMajor)
    + PutVarint(10, r.patchMinor)
  }

  /** The canonical bytes of a record, as the row writer stores them. */
  function RecordBytes(r: MatchRecord): Bytes {
    IdsBytes(r)
    + MetaBytes(r)
    + ParticipantsBytes(r.participants, |r.participants|)
    + (if r.timeline.Some? then PutMessage(12, TimelineBytes(r.timeline.value)) else [])
    + PutBytes(13, Packed(r.bans, |r.bans|))
  }
}
