/**
 A reader for the archived records that follows the protobuf encoding and the
 schema file alone: a field is a key, which is eight times its tag plus its wire
 type, and a varint or a length-delimited body; fields are looked up by tag, an
 absent one has its default, and a field of another wire type than the schema's
 is skipped like an unknown one.
 */
module ProtoReader {
  import opened Results
  import opened Wire
  import opened Schema

  datatype Field = Num(tag: nat, value: nat) | Len(tag: nat, body: Bytes)

  // ---- fields of one message ----

  function ReadField(s: Bytes): (r: Result<(Field, Bytes)>)
    ensures r.Ok? ==> |r.value.1| < |s|
  {
    var key :- ReadVarint(s);
    var (k, rest) := key;
    var number :- ReadVarint(rest);
    var (v, after) := number;
    if k % 8 == 0 then Ok((Num(k / 8, v), after))
    else if k % 8 == 2 && v <= |after| then Ok((Len(k / 8, after[..v]), after[v..]))
    else Err
  }

  function ReadFields(s: Bytes): Result<seq<Field>>
    decreases |s|
  {
    if |s| == 0 then Ok([])
    else
      var first :- ReadField(s);
      var others :- ReadFields(first.1);
      Ok([first.0] + others)
  }

  /** The varint values written under `tag`, in order. */
  function Nums(fs: seq<Field>, tag: nat): seq<nat> {
    if |fs| == 0 then []
    else
      var f := fs[|fs| - 1];
      Nums(fs[..|fs| - 1], tag) + (if f.Num? && f.tag == tag then [f.value] else [])
  }

  /** The length-delimited bodies written under `tag`, in order. */
  function Bodies(fs: seq<Field>, tag: nat): seq<Bytes> {
    if |fs| == 0 then []
    else
      var f := fs[|fs| - 1];
      Bodies(fs[..|fs| - 1], tag) + (if f.Len? && f.tag == tag then [f.body] else [])
  }

  // ---- values by schema type ----

  /** Of a repeated singular field the last one counts; an absent one is zero. */
  function Last(vs: seq<nat>): nat {
    if |vs| == 0 then 0 else vs[|vs| - 1]
  }

  function Uint64(fs: seq<Field>, tag: nat): u64 {
    Last(Nums(fs, tag)) % 0x1_0000_0000_0000_0000
  }

  function Uint32(fs: seq<Field>, tag: nat): u32 {
    Last(Nums(fs, tag)) % 0x1_0000_0000
  }

  function Bool(fs: seq<Field>, tag: nat): bool {
    Last(Nums(fs, tag)) != 0
  }

  /** Two's complement: the upper half of the 64-bit range is negative. */
  function Int64(fs: seq<Field>, tag: nat): i64 {
    var u := Uint64(fs, tag);
    if u < 0x8000_0000_0000_0000 then u else u - 0x1_0000_0000_0000_0000
  }

  /** `0, -1, 1, -2, 2, …` */
  function Sint64(u: u64): i64 {
    if u % 2 == 0 then u / 2 else -((u + 1) / 2)
  }

  /** Bodies of one tag, one after the other: what a split field stands for. */
  function Flat(bodies: seq<Bytes>): Bytes {
    if |bodies| == 0 then [] else Flat(bodies[..|bodies| - 1]) + bodies[|bodies| - 1]
  }

  function Text(fs: seq<Field>, tag: nat): Result<Vec<byte>> {
    var bodies := Bodies(fs, tag);
    if |bodies| == 0 then Ok([]) else Fit(bodies[|bodies| - 1])
  }

  /** A list that fits a vector. */
  function Fit<T>(s: seq<T>): (r: Result<Vec<T>>)
    ensures r.Ok? <==> |s| < TWO_64
    ensures r.Ok? ==> r.value == s
  {
    if |s| < TWO_64 then Ok(s) else Err
  }

  function ReadVarints(s: Bytes): Result<seq<nat>>
    decreases |s|
  {
    if |s| == 0 then Ok([])
    else
      var first :- ReadVarint(s);
      var others :- ReadVarints(first.1);
      Ok([first.0] + others)
  }

  function Truncated(vs: seq<nat>): (us: seq<u32>) {
    seq(|vs|, i requires 0 <= i < |vs| => vs[i] % 0x1_0000_0000)
  }

  function Signed(vs: seq<nat>): (ints: seq<i64>) {
    seq(|vs|, i requires 0 <= i < |vs| => Sint64(vs[i] % 0x1_0000_0000_0000_0000))
  }

  function Uint32s(fs: seq<Field>, tag: nat): Result<Vec<u32>> {
    var vs :- ReadVarints(Flat(Bodies(fs, tag)));
    Fit(Truncated(vs))
  }

  function Sint64s(fs: seq<Field>, tag: nat): Result<Vec<i64>> {
    var vs :- ReadVarints(Flat(Bodies(fs, tag)));
    Fit(Signed(vs))
  }

  /** Every body through one reader. */
  function ReadEach<T>(read: Bytes -> Result<T>, bodies: seq<Bytes>, n: nat): Result<seq<T>>
    requires n <= |bodies|
  {
    if n == 0 then Ok([])
    else
      var before :- ReadEach(read, bodies, n - 1);
      var last :- read(bodies[n - 1]);
      Ok(before + [last])
  }

  function Messages<T>(read: Bytes -> Result<T>, fs: seq<Field>, tag: nat): Result<Vec<T>> {
    var bodies := Bodies(fs, tag);
    var ts :- ReadEach(read, bodies, |bodies|);
    Fit(ts)
  }

  // ---- the messages of the schema ----

  function ReadKill(s: Bytes): Result<KillEvent> {
    var fs :- ReadFields(s);
    Ok(KillEvent(Uint32(fs, 1), Uint32(fs, 2), Uint32(fs, 3), Uint32(fs, 4), Uint32(fs, 5), Uint32(fs, 6)))
  }

  function ReadObjective(s: Bytes): Result<ObjectiveEvent> {
    var fs :- ReadFields(s);
    Ok(ObjectiveEvent(Uint32(fs, 1), Uint32(fs, 2), Uint32(fs, 3), Uint32(fs, 4), Uint32(fs, 5)))
  }

  function ReadWard(s: Bytes): Result<WardEvent> {
    var fs :- ReadFields(s);
    Ok(WardEvent(Uint32(fs, 1), Uint32(fs, 2), Uint32(fs, 3)))
  }

  function ReadFrame(s: Bytes): Result<MinuteFrame> {
    var fs :- ReadFields(s);
    var gold :- Uint32s(fs, 2);
    var xp :- Uint32s(fs, 3);
    var cs :- Uint32s(fs, 4);
    var dmg :- Uint32s(fs, 5);
    Ok(MinuteFrame(Uint32(fs, 1), gold, xp, cs, dmg))
  }

  function ReadTimeline(s: Bytes): Result<TimelineLite> {
    var fs :- ReadFields(s);
    var frames :- Messages(ReadFrame, fs, 1);
    var kills :- Messages(ReadKill, fs, 2);
    var objectives :- Messages(ReadObjective, fs, 3);
    var wards :- Messages(ReadWard, fs, 4);
    Ok(TimelineLite(frames, kills, objectives, wards))
  }

  function ReadParticipant(s: Bytes): Result<Participant> {
    var fs :- ReadFields(s);
    var runes :- Uint32s(fs, 6);
    var stats :- Sint64s(fs, 7);
    Ok(Participant(Uint32(fs, 1), Uint32(fs, 2), Uint32(fs, 3), Uint32(fs, 4), Uint32(fs, 5), runes, stats))
  }

  /** A singular message given in parts is the message their bodies make up. */
  function MaybeTimeline(fs: seq<Field>, tag: nat): Result<Option<TimelineLite>> {
    var bodies := Bodies(fs, tag);
    if |bodies| == 0 then Ok(None)
    else
      var t :- ReadTimeline(Flat(bodies));
      Ok(Some(t))
  }

  function ReadRecord(s: Bytes): Result<MatchRecord> {
    var fs :- ReadFields(s);
    var platform :- Text(fs, 3);
    var version :- Text(fs, 8);
    var participants :- Messages(ReadParticipant, fs, 11);
    var timeline :- MaybeTimeline(fs, 12);
    var bans :- Uint32s(fs, 13);
    Ok(MatchRecord(
         Uint32(fs, 1), Uint64(fs, 2), platform, Uint32(fs, 4), Int64(fs, 5),
         Uint32(fs, 6), Bool(fs, 7), version, Uint32(fs, 9), Uint32(fs, 10),
         participants, timeline, bans))
  }

  // ---- canonical form ----

  /**
   Tags never decrease, only those in `repeated` come more than once, no scalar is
   zero, and a body is empty only under a tag in `messages`.
   */
  ghost predicate Canonical(fs: seq<Field>, repeated: set<nat>, messages: set<nat>) {
    && (forall i, j :: 0 <= i < j < |fs| ==>
          fs[i].tag < fs[j].tag || (fs[i].tag == fs[j].tag && fs[i].tag in repeated))
    && (forall i :: 0 <= i < |fs| ==> Filled(fs[i], messages))
  }

  predicate Filled(f: Field, messages: set<nat>) {
    match f
    case Num(_, value) => value != 0
    case Len(tag, body) => |body| != 0 || tag in messages
  }
}
