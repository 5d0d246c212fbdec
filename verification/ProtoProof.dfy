/**
 The bytes of a record mean the record: the schema's own reader recovers it, and
 the bytes are in canonical form, for a record and for every message inside it.
 */
module ProtoProof {
  import opened Results
  import opened Wire
  import opened Schema
  import opened ProtoReader

  // ---- what a stretch of bytes spells ----

  /** Fields put before what follows them. */
  function Then(fs: seq<Field>, r: Result<seq<Field>>): Result<seq<Field>> {
    if r.Ok? then Ok(fs + r.value) else Err
  }

  /** Whatever comes next, `s` reads as the fields `fs`. */
  ghost predicate Spells(s: Bytes, fs: seq<Field>) {
    forall rest: Bytes :: ReadFields(s + rest) == Then(fs, ReadFields(rest))
  }

  lemma SpellsNothing()
    ensures Spells([], [])
  {
    forall rest: Bytes ensures ReadFields([] + rest) == Then([], ReadFields(rest)) {
      assert [] + rest == rest;
      if ReadFields(rest).Ok? {
        assert [] + ReadFields(rest).value == ReadFields(rest).value;
      }
    }
  }

  lemma SpellsBoth(a: Bytes, fa: seq<Field>, b: Bytes, fb: seq<Field>)
    requires Spells(a, fa) && Spells(b, fb)
    ensures Spells(a + b, fa + fb)
  {
    hide ReadFields;
    forall rest: Bytes ensures ReadFields((a + b) + rest) == Then(fa + fb, ReadFields(rest)) {
      assert (a + b) + rest == a + (b + rest);
      if ReadFields(rest).Ok? {
        assert fa + (fb + ReadFields(rest).value) == (fa + fb) + ReadFields(rest).value;
      }
    }
  }

  lemma SpellsReads(s: Bytes, fs: seq<Field>)
    requires Spells(s, fs)
    ensures ReadFields(s) == Ok(fs)
  {
    assert s + [] == s;
    assert ReadFields([]) == Ok([]);
    assert fs + [] == fs;
  }

  // ---- single fields ----

  function NumField(tag: nat, v: nat): (fs: seq<Field>) {
    if v == 0 then [] else [Num(tag, v)]
  }

  function LenField(tag: nat, body: Bytes): (fs: seq<Field>) {
    if |body| == 0 then [] else [Len(tag, body)]
  }

  function LenFields(tag: nat, bodies: seq<Bytes>): (fs: seq<Field>)
    ensures |fs| == |bodies|
  {
    seq(|bodies|, i requires 0 <= i < |bodies| => Len(tag, bodies[i]))
  }

  lemma VarintSpells(tag: nat, v: u64)
    requires tag < 1000
    ensures Spells(PutVarint(tag, v), NumField(tag, v))
  {
    hide ReadGroups, ReadVarint, Varint;
    if v == 0 {
      SpellsNothing();
    } else {
      forall rest: Bytes ensures ReadFields(PutVarint(tag, v) + rest) == Then([Num(tag, v)], ReadFields(rest)) {
        var s := PutVarint(tag, v) + rest;
        assert s == Varint(8 * tag) + (Varint(v) + rest);
        VarintRoundTrip(8 * tag, Varint(v) + rest);
        VarintRoundTrip(v, rest);
      }
    }
  }

  lemma ReadsMessage(tag: nat, body: Bytes, rest: Bytes)
    requires tag < 1000 && |body| < TWO_64
    ensures ReadField(PutMessage(tag, body) + rest) == Ok((Len(tag, body), rest))
  {
    hide ReadGroups, ReadVarint, Varint;
    var s := PutMessage(tag, body) + rest;
    var tail := body + rest;
    assert s == Varint(8 * tag + 2) + (Varint(|body|) + tail);
    VarintRoundTrip(8 * tag + 2, Varint(|body|) + tail);
    VarintRoundTrip(|body|, tail);
    assert tail[..|body|] == body && tail[|body|..] == rest;
  }

  lemma MessageSpells(tag: nat, body: Bytes)
    requires tag < 1000 && |body| < TWO_64
    ensures Spells(PutMessage(tag, body), [Len(tag, body)])
  {
    hide ReadField, PutMessage;
    forall rest: Bytes ensures ReadFields(PutMessage(tag, body) + rest) == Then([Len(tag, body)], ReadFields(rest)) {
      ReadsMessage(tag, body, rest);
    }
  }

  lemma BytesSpell(tag: nat, body: Bytes)
    requires tag < 1000 && |body| < TWO_64
    ensures Spells(PutBytes(tag, body), LenField(tag, body))
  {
    hide Spells;
    if |body| == 0 {
      SpellsNothing();
    } else {
      MessageSpells(tag, body);
    }
  }

  // ---- fields group by group, one group a tag ----

  /** The groups `lo..hi` in order; group `i` belongs to tag `i + 1`. */
  function Joined(gs: seq<seq<Field>>, lo: nat, hi: nat): seq<Field>
    requires lo <= hi <= |gs|
  {
    if lo == hi then [] else Joined(gs, lo, hi - 1) + gs[hi - 1]
  }

  lemma {:induction false} JoinedSplit(gs: seq<seq<Field>>, lo: nat, mid: nat, hi: nat)
    requires lo <= mid <= hi <= |gs|
    ensures Joined(gs, lo, hi) == Joined(gs, lo, mid) + Joined(gs, mid, hi)
  {
    if mid < hi {
      JoinedSplit(gs, lo, mid, hi - 1);
    }
  }

  /** `s` spells the groups `lo..hi`. */
  ghost predicate Covers(s: Bytes, gs: seq<seq<Field>>, lo: nat, hi: nat) {
    lo <= hi <= |gs| && Spells(s, Joined(gs, lo, hi))
  }

  lemma CoversBoth(a: Bytes, b: Bytes, gs: seq<seq<Field>>, lo: nat, mid: nat, hi: nat)
    requires Covers(a, gs, lo, mid) && Covers(b, gs, mid, hi)
    ensures Covers(a + b, gs, lo, hi)
  {
    hide Spells;
    JoinedSplit(gs, lo, mid, hi);
    SpellsBoth(a, Joined(gs, lo, mid), b, Joined(gs, mid, hi));
  }

  lemma CoversOne(s: Bytes, gs: seq<seq<Field>>, i: nat)
    requires i < |gs| && Spells(s, gs[i])
    ensures Covers(s, gs, i, i + 1)
  {
    hide Spells;
    assert Joined(gs, i, i + 1) == Joined(gs, i, i) + gs[i];
    assert Joined(gs, i, i + 1) == gs[i];
  }

  lemma CoversNext(a: Bytes, b: Bytes, gs: seq<seq<Field>>, lo: nat, i: nat)
    requires Covers(a, gs, lo, i) && i < |gs| && Spells(b, gs[i])
    ensures Covers(a + b, gs, lo, i + 1)
  {
    hide Spells;
    CoversOne(b, gs, i);
    CoversBoth(a, b, gs, lo, i, i + 1);
  }

  ghost predicate Tagged(gs: seq<seq<Field>>) {
    forall i, k :: 0 <= i < |gs| && 0 <= k < |gs[i]| ==> gs[i][k].tag == i + 1
  }

  lemma {:induction false} NumsConcat(a: seq<Field>, b: seq<Field>, tag: nat)
    ensures Nums(a + b, tag) == Nums(a, tag) + Nums(b, tag)
  {
    if |b| == 0 {
      assert a + b == a;
    } else {
      assert (a + b)[..|a + b| - 1] == a + b[..|b| - 1];
      NumsConcat(a, b[..|b| - 1], tag);
    }
  }

  lemma {:induction false} BodiesConcat(a: seq<Field>, b: seq<Field>, tag: nat)
    ensures Bodies(a + b, tag) == Bodies(a, tag) + Bodies(b, tag)
  {
    if |b| == 0 {
      assert a + b == a;
    } else {
      assert (a + b)[..|a + b| - 1] == a + b[..|b| - 1];
      BodiesConcat(a, b[..|b| - 1], tag);
    }
  }

  lemma {:induction false} OtherTag(fs: seq<Field>, tag: nat)
    requires forall k :: 0 <= k < |fs| ==> fs[k].tag != tag
    ensures Nums(fs, tag) == [] && Bodies(fs, tag) == []
  {
    if |fs| > 0 {
      OtherTag(fs[..|fs| - 1], tag);
    }
  }

  /** Looking a tag up in all groups is looking it up in its own. */
  lemma {:induction false} FindsGroup(gs: seq<seq<Field>>, hi: nat, tag: nat)
    requires Tagged(gs) && hi <= |gs| && 1 <= tag <= |gs|
    ensures Nums(Joined(gs, 0, hi), tag) == if tag <= hi then Nums(gs[tag - 1], tag) else []
    ensures Bodies(Joined(gs, 0, hi), tag) == if tag <= hi then Bodies(gs[tag - 1], tag) else []
    decreases hi
  {
    hide Nums, Bodies;
    if hi == 0 {
      OtherTag([], tag);
    } else {
      FindsGroup(gs, hi - 1, tag);
      NumsConcat(Joined(gs, 0, hi - 1), gs[hi - 1], tag);
      BodiesConcat(Joined(gs, 0, hi - 1), gs[hi - 1], tag);
      if tag != hi {
        OtherTag(gs[hi - 1], tag);
      }
    }
  }

  /** All fields of a message, group by group. */
  ghost predicate Message(fs: seq<Field>, gs: seq<seq<Field>>) {
    Tagged(gs) && fs == Joined(gs, 0, |gs|)
  }

  lemma NumIs(fs: seq<Field>, gs: seq<seq<Field>>, tag: nat, v: nat)
    requires Message(fs, gs) && 1 <= tag <= |gs| && gs[tag - 1] == NumField(tag, v)
    ensures Last(Nums(fs, tag)) == v
  {
    FindsGroup(gs, |gs|, tag);
  }

  lemma BodyIs(fs: seq<Field>, gs: seq<seq<Field>>, tag: nat, body: Bytes)
    requires Message(fs, gs) && 1 <= tag <= |gs| && gs[tag - 1] == LenField(tag, body)
    ensures Bodies(fs, tag) == if |body| == 0 then [] else [body]
    ensures Flat(Bodies(fs, tag)) == body
  {
    FindsGroup(gs, |gs|, tag);
    if |body| > 0 {
      OneBody(tag, body);
    }
  }

  lemma OneBody(tag: nat, body: Bytes)
    ensures Bodies([Len(tag, body)], tag) == [body]
    ensures Flat([body]) == body
  {
    var one := [Len(tag, body)];
    assert one[..0] == [];
    assert Bodies(one[..0], tag) == [];
    assert [body][..0] == [];
    assert Flat([body][..0]) == [];
  }

  lemma {:induction false} BodiesOf(tag: nat, bodies: seq<Bytes>)
    ensures Bodies(LenFields(tag, bodies), tag) == bodies
  {
    if |bodies| > 0 {
      var before := bodies[..|bodies| - 1];
      BodiesOf(tag, before);
      assert LenFields(tag, bodies)[..|bodies| - 1] == LenFields(tag, before);
      assert bodies == before + [bodies[|bodies| - 1]];
    }
  }

  lemma BodiesAre(fs: seq<Field>, gs: seq<seq<Field>>, tag: nat, bodies: seq<Bytes>)
    requires Message(fs, gs) && 1 <= tag <= |gs| && gs[tag - 1] == LenFields(tag, bodies)
    ensures Bodies(fs, tag) == bodies
  {
    FindsGroup(gs, |gs|, tag);
    BodiesOf(tag, bodies);
  }

  // ---- canonical form ----

  /** A group may repeat its tag, or leave a body empty, only where the schema has messages. */
  ghost predicate Proper(g: seq<Field>, tag: nat, repeated: set<nat>, messages: set<nat>) {
    && (|g| <= 1 || tag in repeated)
    && (forall k :: 0 <= k < |g| ==> g[k].tag == tag && Filled(g[k], messages))
  }

  lemma NumProper(tag: nat, v: nat, repeated: set<nat>, messages: set<nat>)
    ensures Proper(NumField(tag, v), tag, repeated, messages)
  {
  }

  lemma ProperTagged(gs: seq<seq<Field>>, repeated: set<nat>, messages: set<nat>)
    requires forall i :: 0 <= i < |gs| ==> Proper(gs[i], i + 1, repeated, messages)
    ensures Tagged(gs)
  {
    forall i, k | 0 <= i < |gs| && 0 <= k < |gs[i]| ensures gs[i][k].tag == i + 1 {
      assert Proper(gs[i], i + 1, repeated, messages);
    }
  }

  lemma {:induction false} JoinedCanonical(
      gs: seq<seq<Field>>, hi: nat, repeated: set<nat>, messages: set<nat>)
    requires hi <= |gs|
    requires forall i :: 0 <= i < |gs| ==> Proper(gs[i], i + 1, repeated, messages)
    ensures Canonical(Joined(gs, 0, hi), repeated, messages)
    ensures forall k :: 0 <= k < |Joined(gs, 0, hi)| ==> Joined(gs, 0, hi)[k].tag <= hi
    decreases hi
  {
    if hi > 0 {
      JoinedCanonical(gs, hi - 1, repeated, messages);
      assert Proper(gs[hi - 1], hi, repeated, messages);
    }
  }

  // ---- runs of fields ----

  function NumFields(first: nat, vs: seq<nat>): (gs: seq<seq<Field>>)
    ensures |gs| == |vs|
  {
    seq(|vs|, i requires 0 <= i < |vs| => NumField(first + i, vs[i]))
  }

  /** Scalars numbered from `first` on, after whatever spells the groups before them. */
  lemma {:induction false} FieldsCover(s: Bytes, first: nat, vs: seq<u64>, n: nat, gs: seq<seq<Field>>)
    requires 1 <= first < 100 && |vs| < 100 && n <= |vs| && first - 1 + |vs| <= |gs|
    requires forall i :: 0 <= i < |vs| ==> gs[first - 1 + i] == NumField(first + i, vs[i])
    requires Covers(s, gs, 0, first - 1)
    ensures Covers(s + PutFields(first, vs, n), gs, 0, first - 1 + n)
    decreases n
  {
    hide Spells, PutVarint;
    if n == 0 {
      assert s + PutFields(first, vs, 0) == s;
    } else {
      FieldsCover(s, first, vs, n - 1, gs);
      VarintSpells(first + n - 1, vs[n - 1]);
      var before := s + PutFields(first, vs, n - 1);
      var next := PutVarint(first + n - 1, vs[n - 1]);
      CoversNext(before, next, gs, 0, first + n - 2);
      assert before + next == s + PutFields(first, vs, n);
    }
  }

  /** Bodies written one after the other under one tag. */
  function PutMessages(tag: nat, bodies: seq<Bytes>, n: nat): Bytes
    requires n <= |bodies|
  {
    if n == 0 then [] else PutMessages(tag, bodies, n - 1) + PutMessage(tag, bodies[n - 1])
  }

  lemma {:induction false} MessagesSpell(tag: nat, bodies: seq<Bytes>, n: nat)
    requires tag < 1000 && n <= |bodies|
    requires |PutMessages(tag, bodies, n)| < TWO_64
    ensures Spells(PutMessages(tag, bodies, n), LenFields(tag, bodies[..n]))
  {
    hide Spells, PutMessage;
    if n == 0 {
      SpellsNothing();
      assert LenFields(tag, bodies[..0]) == [];
    } else {
      MessagesSpell(tag, bodies, n - 1);
      BodyFits(tag, bodies, n, n - 1);
      MessageSpells(tag, bodies[n - 1]);
      SpellsBoth(
        PutMessages(tag, bodies, n - 1), LenFields(tag, bodies[..n - 1]),
        PutMessage(tag, bodies[n - 1]), [Len(tag, bodies[n - 1])]);
      assert LenFields(tag, bodies[..n]) == LenFields(tag, bodies[..n - 1]) + [Len(tag, bodies[n - 1])];
    }
  }

  /** No body is longer than the fields that hold it. */
  lemma {:induction false} BodyFits(tag: nat, bodies: seq<Bytes>, n: nat, i: nat)
    requires i < n <= |bodies|
    ensures |bodies[i]| <= |PutMessages(tag, bodies, n)|
    decreases n
  {
    if i < n - 1 {
      BodyFits(tag, bodies, n - 1, i);
    }
  }

  lemma {:induction false} EachReads<T>(read: Bytes -> Result<T>, bodies: seq<Bytes>, ts: seq<T>, n: nat)
    requires n <= |bodies| == |ts|
    requires forall i :: 0 <= i < n ==> read(bodies[i]) == Ok(ts[i])
    ensures ReadEach(read, bodies, n) == Ok(ts[..n])
  {
    if n > 0 {
      EachReads(read, bodies, ts, n - 1);
      assert ts[..n] == ts[..n - 1] + [ts[n - 1]];
    }
  }

  // ---- packed numbers ----

  /** `s` reads as the varints `vs`, whatever comes next. */
  ghost predicate Packs(s: Bytes, vs: seq<nat>) {
    forall rest: Bytes ::
      ReadVarints(s + rest) == if ReadVarints(rest).Ok? then Ok(vs + ReadVarints(rest).value) else Err
  }

  lemma ReadsNumber(v: u64, rest: Bytes)
    ensures ReadVarints(Varint(v) + rest)
         == if ReadVarints(rest).Ok? then Ok([v] + ReadVarints(rest).value) else Err
  {
    hide ReadGroups, ReadVarint, Varint;
    VarintRoundTrip(v, rest);
  }

  lemma PackMore(before: Bytes, vs: seq<nat>, v: u64)
    requires Packs(before, vs)
    ensures Packs(before + Varint(v), vs + [v])
  {
    hide ReadVarints;
    forall rest: Bytes
      ensures ReadVarints(before + Varint(v) + rest)
           == if ReadVarints(rest).Ok? then Ok(vs + [v] + ReadVarints(rest).value) else Err
    {
      assert before + Varint(v) + rest == before + (Varint(v) + rest);
      ReadsNumber(v, rest);
      if ReadVarints(rest).Ok? {
        assert vs + ([v] + ReadVarints(rest).value) == vs + [v] + ReadVarints(rest).value;
      }
    }
  }

  lemma PacksNothing()
    ensures Packs([], [])
  {
    hide ReadVarints;
    forall rest: Bytes
      ensures ReadVarints([] + rest) == if ReadVarints(rest).Ok? then Ok([] + ReadVarints(rest).value) else Err
    {
      assert [] + rest == rest;
      if ReadVarints(rest).Ok? {
        assert [] + ReadVarints(rest).value == ReadVarints(rest).value;
      }
    }
  }

  lemma {:induction false} PackedPacks(vs: seq<u64>, n: nat)
    requires n <= |vs|
    ensures Packs(Packed(vs, n), vs[..n])
  {
    hide Packs;
    if n == 0 {
      PacksNothing();
    } else {
      PackedPacks(vs, n - 1);
      PackMore(Packed(vs, n - 1), vs[..n - 1], vs[n - 1]);
      assert vs[..n] == vs[..n - 1] + [vs[n - 1]];
    }
  }

  lemma PackedReads(vs: seq<u64>)
    ensures ReadVarints(Packed(vs, |vs|)) == Ok(vs)
  {
    hide ReadGroups, ReadVarint, Packed;
    PackedPacks(vs, |vs|);
    var s := Packed(vs, |vs|);
    assert s + [] == s;
    assert ReadVarints([]) == Ok([]);
    assert vs[..|vs|] + [] == vs;
  }

  lemma TruncatedBack(vs: seq<u32>)
    ensures Truncated(vs) == vs
  {
  }

  lemma Uint32sAre(fs: seq<Field>, gs: seq<seq<Field>>, tag: nat, vs: Vec<u32>)
    requires Message(fs, gs) && 1 <= tag <= |gs| && gs[tag - 1] == LenField(tag, Packed(vs, |vs|))
    ensures Uint32s(fs, tag) == Ok(vs)
  {
    hide ReadVarints, Packed, Bodies, Flat, Truncated, Message;
    BodyIs(fs, gs, tag, Packed(vs, |vs|));
    PackedReads(vs);
    TruncatedBack(vs);
  }

  lemma SintOf(v: i64)
    ensures Sint64(Zigzag(v)) == v
  {
  }

  lemma SignedBack(vs: seq<i64>)
    ensures Signed(Zigzags(vs)) == vs
  {
    hide Sint64, Zigzag;
    forall i | 0 <= i < |vs| ensures Signed(Zigzags(vs))[i] == vs[i] {
      SintOf(vs[i]);
    }
  }

  lemma Sint64sAre(fs: seq<Field>, gs: seq<seq<Field>>, tag: nat, vs: Vec<i64>)
    requires Message(fs, gs) && 1 <= tag <= |gs|
    requires gs[tag - 1] == LenField(tag, Packed(Zigzags(vs), |vs|))
    ensures Sint64s(fs, tag) == Ok(vs)
  {
    hide ReadVarints, Packed, Bodies, Flat, Signed, Zigzags, Message;
    var zs := Zigzags(vs);
    BodyIs(fs, gs, tag, Packed(zs, |zs|));
    PackedReads(zs);
    SignedBack(vs);
  }

  // ---- events ----

  function EventGroups(t: nat, fields: seq<nat>): (gs: seq<seq<Field>>)
    ensures |gs| == |fields| + 1
  {
    seq(|fields| + 1, i requires 0 <= i <= |fields| =>
      NumField(i + 1, if i == 0 then t else fields[i - 1]))
  }

  lemma EventProper(t: nat, fields: seq<nat>)
    ensures Tagged(EventGroups(t, fields))
    ensures forall i :: 0 <= i <= |fields| ==> Proper(EventGroups(t, fields)[i], i + 1, {}, {})
  {
    var gs := EventGroups(t, fields);
    forall i | 0 <= i <= |fields| ensures Proper(gs[i], i + 1, {}, {}) {
      NumProper(i + 1, if i == 0 then t else fields[i - 1], {}, {});
    }
    ProperTagged(gs, {}, {});
  }

  lemma EventSpells(t: u64, fields: seq<u64>)
    requires |fields| < 90
    ensures ReadFields(EventBytes(t, fields)).Ok?
    ensures Message(ReadFields(EventBytes(t, fields)).value, EventGroups(t, fields))
    ensures Canonical(ReadFields(EventBytes(t, fields)).value, {}, {})
  {
    hide Spells, ReadFields, PutVarint, NumField, Tagged, Proper, Canonical;
    var gs := EventGroups(t, fields);
    VarintSpells(1, t);
    CoversOne(PutVarint(1, t), gs, 0);
    FieldsCover(PutVarint(1, t), 2, fields, |fields|, gs);
    SpellsReads(EventBytes(t, fields), Joined(gs, 0, |gs|));
    EventProper(t, fields);
    JoinedCanonical(gs, |gs|, {}, {});
  }

  function EventBodies(es: seq<Event>): (bodies: seq<Bytes>)
    ensures |bodies| == |es|
  {
    seq(|es|, i requires 0 <= i < |es| => EventBytes(es[i].t, es[i].fields))
  }

  lemma {:induction false} EventsAreMessages(tag: nat, es: seq<Event>, n: nat)
    requires n <= |es|
    ensures EventsBytes(tag, es, n) == PutMessages(tag, EventBodies(es), n)
  {
    hide EventBytes, PutMessage;
    if n > 0 {
      EventsAreMessages(tag, es, n - 1);
    }
  }

  lemma KillReads(k: KillEvent)
    ensures ReadKill(EventBytes(k.t, [k.killer, k.victim, k.assistMask, k.x, k.y])) == Ok(k)
  {
    hide Nums, ReadFields, Message, Canonical, EventBytes, NumField;
    var fields: seq<u64> := [k.killer, k.victim, k.assistMask, k.x, k.y];
    EventSpells(k.t, fields);
    var fs, gs := ReadFields(EventBytes(k.t, fields)).value, EventGroups(k.t, fields);
    NumIs(fs, gs, 1, k.t);
    NumIs(fs, gs, 2, k.killer);
    NumIs(fs, gs, 3, k.victim);
    NumIs(fs, gs, 4, k.assistMask);
    NumIs(fs, gs, 5, k.x);
    NumIs(fs, gs, 6, k.y);
  }

  lemma ObjectiveReads(o: ObjectiveEvent)
    ensures ReadObjective(EventBytes(o.t, [o.kind, o.killer, o.losingTeam, o.lane])) == Ok(o)
  {
    hide Nums, ReadFields, Message, Canonical, EventBytes, NumField;
    var fields: seq<u64> := [o.kind, o.killer, o.losingTeam, o.lane];
    EventSpells(o.t, fields);
    var fs, gs := ReadFields(EventBytes(o.t, fields)).value, EventGroups(o.t, fields);
    NumIs(fs, gs, 1, o.t);
    NumIs(fs, gs, 2, o.kind);
    NumIs(fs, gs, 3, o.killer);
    NumIs(fs, gs, 4, o.losingTeam);
    NumIs(fs, gs, 5, o.lane);
  }

  lemma WardReads(w: WardEvent)
    ensures ReadWard(EventBytes(w.t, [w.kind, w.participant])) == Ok(w)
  {
    hide Nums, ReadFields, Message, Canonical, EventBytes, NumField;
    var fields: seq<u64> := [w.kind, w.participant];
    EventSpells(w.t, fields);
    var fs, gs := ReadFields(EventBytes(w.t, fields)).value, EventGroups(w.t, fields);
    NumIs(fs, gs, 1, w.t);
    NumIs(fs, gs, 2, w.kind);
    NumIs(fs, gs, 3, w.participant);
  }

  // ---- minutes ----

  function FrameGroups(minute: nat, ss: seq<seq<nat>>): (gs: seq<seq<Field>>)
    ensures |gs| == |ss| + 1
  {
    seq(|ss| + 1, i requires 0 <= i <= |ss| =>
      if i == 0 then NumField(1, minute) else LenField(i + 1, Packed(ss[i - 1], |ss[i - 1]|)))
  }

  lemma PutBytesHolds(tag: nat, body: Bytes)
    ensures |body| <= |PutBytes(tag, body)|
  {
  }

  lemma {:induction false} SeriesCover(s: Bytes, minute: u64, ss: seq<seq<u64>>, n: nat)
    requires n <= |ss| < 90
    requires |SeriesBytes(ss, n)| < TWO_64
    requires Covers(s, FrameGroups(minute, ss), 0, 1)
    ensures Covers(s + SeriesBytes(ss, n), FrameGroups(minute, ss), 0, n + 1)
    decreases n
  {
    hide Spells, Packed, PutBytes, LenField;
    var gs := FrameGroups(minute, ss);
    if n == 0 {
      assert s + SeriesBytes(ss, 0) == s;
    } else {
      SeriesCover(s, minute, ss, n - 1);
      var body := Packed(ss[n - 1], |ss[n - 1]|);
      var before, next := SeriesBytes(ss, n - 1), PutBytes(n + 1, body);
      PutBytesHolds(n + 1, body);
      BytesSpell(n + 1, body);
      CoversNext(s + before, next, gs, 0, n);
      assert (s + before) + next == s + SeriesBytes(ss, n);
    }
  }

  lemma FrameSpells(minute: u64, ss: seq<seq<u64>>)
    requires |ss| < 90 && |FrameBytes(minute, ss)| < TWO_64
    ensures ReadFields(FrameBytes(minute, ss)).Ok?
    ensures Message(ReadFields(FrameBytes(minute, ss)).value, FrameGroups(minute, ss))
    ensures Canonical(ReadFields(FrameBytes(minute, ss)).value, {}, {})
  {
    hide Spells, ReadFields, PutVarint, Packed;
    var gs := FrameGroups(minute, ss);
    VarintSpells(1, minute);
    CoversOne(PutVarint(1, minute), gs, 0);
    SeriesCover(PutVarint(1, minute), minute, ss, |ss|);
    SpellsReads(FrameBytes(minute, ss), Joined(gs, 0, |gs|));
    JoinedCanonical(gs, |gs|, {}, {});
  }

  lemma FrameReads(f: MinuteFrame)
    requires |FrameBytes(f.minute, Series(f))| < TWO_64
    ensures ReadFrame(FrameBytes(f.minute, Series(f))) == Ok(f)
  {
    hide Nums, ReadFields, Message, Canonical, Packed, FrameBytes, NumField, LenField, Uint32s;
    var ss := Series(f);
    FrameSpells(f.minute, ss);
    var fs, gs := ReadFields(FrameBytes(f.minute, ss)).value, FrameGroups(f.minute, ss);
    NumIs(fs, gs, 1, f.minute);
    Uint32sAre(fs, gs, 2, f.totalGold);
    Uint32sAre(fs, gs, 3, f.xp);
    Uint32sAre(fs, gs, 4, f.cs);
    Uint32sAre(fs, gs, 5, f.dmgToChamps);
  }

  function FrameBodies(fs: seq<MinuteFrame>): (bodies: seq<Bytes>)
    ensures |bodies| == |fs|
  {
    seq(|fs|, i requires 0 <= i < |fs| => FrameBytes(fs[i].minute, Series(fs[i])))
  }

  lemma {:induction false} FramesAreMessages(fs: seq<MinuteFrame>, n: nat)
    requires n <= |fs|
    ensures FramesBytes(fs, n) == PutMessages(1, FrameBodies(fs), n)
  {
    hide FrameBytes, PutMessage;
    if n > 0 {
      FramesAreMessages(fs, n - 1);
    }
  }

  // ---- the timeline ----

  function TimelineGroups(t: TimelineLite): (gs: seq<seq<Field>>)
    ensures |gs| == 4
  {
    [LenFields(1, FrameBodies(t.frames)),
     LenFields(2, EventBodies(KillEvents(t.kills))),
     LenFields(3, EventBodies(ObjectiveEvents(t.objectives))),
     LenFields(4, EventBodies(WardEvents(t.wards)))]
  }

  lemma EventsSpell(tag: nat, es: seq<Event>)
    requires tag < 1000 && |EventsBytes(tag, es, |es|)| < TWO_64
    ensures Spells(EventsBytes(tag, es, |es|), LenFields(tag, EventBodies(es)))
  {
    hide Spells;
    var bodies := EventBodies(es);
    EventsAreMessages(tag, es, |es|);
    MessagesSpell(tag, bodies, |bodies|);
    assert bodies[..|bodies|] == bodies;
  }

  lemma FramesSpell(fs: seq<MinuteFrame>)
    requires |FramesBytes(fs, |fs|)| < TWO_64
    ensures Spells(FramesBytes(fs, |fs|), LenFields(1, FrameBodies(fs)))
  {
    hide Spells;
    var bodies := FrameBodies(fs);
    FramesAreMessages(fs, |fs|);
    MessagesSpell(1, bodies, |bodies|);
    assert bodies[..|bodies|] == bodies;
  }

  lemma TimelineSpells(t: TimelineLite)
    requires |TimelineBytes(t)| < TWO_64
    ensures ReadFields(TimelineBytes(t)).Ok?
    ensures Message(ReadFields(TimelineBytes(t)).value, TimelineGroups(t))
    ensures Canonical(ReadFields(TimelineBytes(t)).value, {1, 2, 3, 4}, {1, 2, 3, 4})
  {
    hide Spells, ReadFields, EventsBytes, FramesBytes;
    var gs := TimelineGroups(t);
    FramesSpell(t.frames);
    EventsSpell(2, KillEvents(t.kills));
    EventsSpell(3, ObjectiveEvents(t.objectives));
    EventsSpell(4, WardEvents(t.wards));
    var a := FramesBytes(t.frames, |t.frames|);
    var b := EventsBytes(2, KillEvents(t.kills), |t.kills|);
    var c := EventsBytes(3, ObjectiveEvents(t.objectives), |t.objectives|);
    var d := EventsBytes(4, WardEvents(t.wards), |t.wards|);
    CoversOne(a, gs, 0);
    CoversNext(a, b, gs, 0, 1);
    CoversNext(a + b, c, gs, 0, 2);
    CoversNext(a + b + c, d, gs, 0, 3);
    SpellsReads(TimelineBytes(t), Joined(gs, 0, 4));
    JoinedCanonical(gs, 4, {1, 2, 3, 4}, {1, 2, 3, 4});
  }

  lemma FramesRead(fs: Vec<MinuteFrame>, fields: seq<Field>, gs: seq<seq<Field>>)
    requires Message(fields, gs) && |gs| >= 1 && gs[0] == LenFields(1, FrameBodies(fs))
    requires |FramesBytes(fs, |fs|)| < TWO_64
    ensures Messages(ReadFrame, fields, 1) == Ok(fs)
  {
    hide Message, Bodies, ReadFrame, FrameBytes;
    var bodies := FrameBodies(fs);
    BodiesAre(fields, gs, 1, bodies);
    FramesAreMessages(fs, |fs|);
    forall i | 0 <= i < |fs| ensures ReadFrame(bodies[i]) == Ok(fs[i]) {
      BodyFits(1, bodies, |bodies|, i);
      FrameReads(fs[i]);
    }
    EachReads(ReadFrame, bodies, fs, |fs|);
    assert fs[..|fs|] == fs;
  }

  lemma TimelineReads(t: TimelineLite)
    requires |TimelineBytes(t)| < TWO_64
    ensures ReadTimeline(TimelineBytes(t)) == Ok(t)
  {
    hide Message, Bodies, ReadFields, Canonical, ReadFrame, ReadKill, ReadObjective, ReadWard, ReadEach, EventBytes;
    TimelineSpells(t);
    var fs, gs := ReadFields(TimelineBytes(t)).value, TimelineGroups(t);
    FramesRead(t.frames, fs, gs);
    KillsRead(t.kills, fs, gs);
    ObjectivesRead(t.objectives, fs, gs);
    WardsRead(t.wards, fs, gs);
  }

  lemma KillsRead(ks: Vec<KillEvent>, fields: seq<Field>, gs: seq<seq<Field>>)
    requires Message(fields, gs) && |gs| >= 2 && gs[1] == LenFields(2, EventBodies(KillEvents(ks)))
    ensures Messages(ReadKill, fields, 2) == Ok(ks)
  {
    hide Message, Bodies, ReadKill, EventBytes;
    var bodies := EventBodies(KillEvents(ks));
    BodiesAre(fields, gs, 2, bodies);
    forall i | 0 <= i < |ks| ensures ReadKill(bodies[i]) == Ok(ks[i]) {
      KillReads(ks[i]);
    }
    EachReads(ReadKill, bodies, ks, |ks|);
    assert ks[..|ks|] == ks;
  }

  lemma ObjectivesRead(os: Vec<ObjectiveEvent>, fields: seq<Field>, gs: seq<seq<Field>>)
    requires Message(fields, gs) && |gs| >= 3 && gs[2] == LenFields(3, EventBodies(ObjectiveEvents(os)))
    ensures Messages(ReadObjective, fields, 3) == Ok(os)
  {
    hide Message, Bodies, ReadObjective, EventBytes;
    var bodies := EventBodies(ObjectiveEvents(os));
    BodiesAre(fields, gs, 3, bodies);
    forall i | 0 <= i < |os| ensures ReadObjective(bodies[i]) == Ok(os[i]) {
      ObjectiveReads(os[i]);
    }
    EachReads(ReadObjective, bodies, os, |os|);
    assert os[..|os|] == os;
  }

  lemma WardsRead(ws: Vec<WardEvent>, fields: seq<Field>, gs: seq<seq<Field>>)
    requires Message(fields, gs) && |gs| >= 4 && gs[3] == LenFields(4, EventBodies(WardEvents(ws)))
    ensures Messages(ReadWard, fields, 4) == Ok(ws)
  {
    hide Message, Bodies, ReadWard, EventBytes;
    var bodies := EventBodies(WardEvents(ws));
    BodiesAre(fields, gs, 4, bodies);
    forall i | 0 <= i < |ws| ensures ReadWard(bodies[i]) == Ok(ws[i]) {
      WardReads(ws[i]);
    }
    EachReads(ReadWard, bodies, ws, |ws|);
    assert ws[..|ws|] == ws;
  }

  // ---- participants ----

  function ParticipantGroups(scalars: seq<nat>, runes: seq<nat>, zigzags: seq<nat>): (gs: seq<seq<Field>>)
    requires |scalars| == 5
    ensures |gs| == 7
  {
    NumFields(1, scalars) + [LenField(6, Packed(runes, |runes|)), LenField(7, Packed(zigzags, |zigzags|))]
  }

  lemma ParticipantSpells(scalars: seq<u64>, runes: seq<u64>, zigzags: seq<u64>)
    requires |scalars| == 5 && |ParticipantBytes(scalars, runes, zigzags)| < TWO_64
    ensures ReadFields(ParticipantBytes(scalars, runes, zigzags)).Ok?
    ensures Message(
              ReadFields(ParticipantBytes(scalars, runes, zigzags)).value,
              ParticipantGroups(scalars, runes, zigzags))
    ensures Canonical(ReadFields(ParticipantBytes(scalars, runes, zigzags)).value, {}, {})
  {
    hide Spells, ReadFields, Packed, PutFields;
    var gs := ParticipantGroups(scalars, runes, zigzags);
    var a := PutFields(1, scalars, 5);
    var b, c := PutBytes(6, Packed(runes, |runes|)), PutBytes(7, Packed(zigzags, |zigzags|));
    SpellsNothing();
    assert Covers([], gs, 0, 0);
    FieldsCover([], 1, scalars, 5, gs);
    assert [] + a == a;
    BytesSpell(6, Packed(runes, |runes|));
    BytesSpell(7, Packed(zigzags, |zigzags|));
    CoversNext(a, b, gs, 0, 5);
    CoversNext(a + b, c, gs, 0, 6);
    SpellsReads(ParticipantBytes(scalars, runes, zigzags), Joined(gs, 0, 7));
    JoinedCanonical(gs, 7, {}, {});
  }

  function ParticipantBody(p: Participant): Bytes {
    ParticipantBytes(ParticipantScalars(p), p.runes, Zigzags(p.stats))
  }

  lemma ParticipantReads(p: Participant)
    requires |ParticipantBody(p)| < TWO_64
    ensures ReadParticipant(ParticipantBody(p)) == Ok(p)
  {
    hide Nums, ReadFields, Message, Canonical, Packed, ParticipantBytes, NumField, LenField, Uint32s, Sint64s;
    var scalars, zs := ParticipantScalars(p), Zigzags(p.stats);
    ParticipantSpells(scalars, p.runes, zs);
    var fs, gs := ReadFields(ParticipantBody(p)).value, ParticipantGroups(scalars, p.runes, zs);
    NumIs(fs, gs, 1, p.playerId);
    NumIs(fs, gs, 2, p.championId);
    NumIs(fs, gs, 3, p.position);
    NumIs(fs, gs, 4, p.spell1);
    NumIs(fs, gs, 5, p.spell2);
    Uint32sAre(fs, gs, 6, p.runes);
    Sint64sAre(fs, gs, 7, p.stats);
  }

  function ParticipantBodies(ps: seq<Participant>): (bodies: seq<Bytes>)
    ensures |bodies| == |ps|
  {
    seq(|ps|, i requires 0 <= i < |ps| => ParticipantBody(ps[i]))
  }

  lemma {:induction false} ParticipantsAreMessages(ps: seq<Participant>, n: nat)
    requires n <= |ps|
    ensures ParticipantsBytes(ps, n) == PutMessages(11, ParticipantBodies(ps), n)
  {
    hide ParticipantBytes, PutMessage;
    if n > 0 {
      ParticipantsAreMessages(ps, n - 1);
    }
  }

  lemma ParticipantsRead(ps: Vec<Participant>, fields: seq<Field>, gs: seq<seq<Field>>)
    requires Message(fields, gs) && |gs| >= 11 && gs[10] == LenFields(11, ParticipantBodies(ps))
    requires |ParticipantsBytes(ps, |ps|)| < TWO_64
    ensures Messages(ReadParticipant, fields, 11) == Ok(ps)
  {
    hide Message, Bodies, ReadParticipant, ParticipantBody, PutMessage, ParticipantsBytes;
    var bodies := ParticipantBodies(ps);
    BodiesAre(fields, gs, 11, bodies);
    ParticipantsAreMessages(ps, |ps|);
    forall i | 0 <= i < |ps| ensures ReadParticipant(bodies[i]) == Ok(ps[i]) {
      BodyFits(11, bodies, |bodies|, i);
      ParticipantReads(ps[i]);
    }
    EachReads(ReadParticipant, bodies, ps, |ps|);
    assert ps[..|ps|] == ps;
  }

  // ---- the record ----

  function TimelineField(r: MatchRecord): (fs: seq<Field>) {
    if r.timeline.Some? then [Len(12, TimelineBytes(r.timeline.value))] else []
  }

  function RecordGroups(r: MatchRecord): (gs: seq<seq<Field>>)
    ensures |gs| == 13
  {
    [NumField(1, r.schemaVersion),
     NumField(2, r.gameId),
     LenField(3, r.platform),
     NumField(4, r.queueId),
     NumField(5, AsU64(r.gameStartMs)),
     NumField(6, r.durationS),
     NumField(7, if r.blueWon then 1 else 0),
     LenField(8, r.gameVersion),
     NumField(9, r.patchMajor),
     NumField(10, r.patchMinor),
     LenFields(11, ParticipantBodies(r.participants)),
     TimelineField(r),
     LenField(13, Packed(r.bans, |r.bans|))]
  }

  lemma IdsCover(r: MatchRecord, gs: seq<seq<Field>>)
    requires gs == RecordGroups(r)
    ensures Covers(IdsBytes(r), gs, 0, 5)
  {
    hide Spells, PutVarint, PutBytes;
    var a, b, c := PutVarint(1, r.schemaVersion), PutVarint(2, r.gameId), PutBytes(3, r.platform);
    var d, e := PutVarint(4, r.queueId), PutVarint(5, AsU64(r.gameStartMs));
    VarintSpells(1, r.schemaVersion);
    VarintSpells(2, r.gameId);
    BytesSpell(3, r.platform);
    VarintSpells(4, r.queueId);
    VarintSpells(5, AsU64(r.gameStartMs));
    CoversOne(a, gs, 0);
    CoversNext(a, b, gs, 0, 1);
    CoversNext(a + b, c, gs, 0, 2);
    CoversNext(a + b + c, d, gs, 0, 3);
    CoversNext(a + b + c + d, e, gs, 0, 4);
  }

  lemma MetaCover(r: MatchRecord, gs: seq<seq<Field>>)
    requires gs == RecordGroups(r)
    ensures Covers(MetaBytes(r), gs, 5, 10)
  {
    hide Spells, PutVarint, PutBytes;
    var a, b := PutVarint(6, r.durationS), PutVarint(7, if r.blueWon then 1 else 0);
    var c, d, e := PutBytes(8, r.gameVersion), PutVarint(9, r.patchMajor), PutVarint(10, r.patchMinor);
    VarintSpells(6, r.durationS);
    VarintSpells(7, if r.blueWon then 1 else 0);
    BytesSpell(8, r.gameVersion);
    VarintSpells(9, r.patchMajor);
    VarintSpells(10, r.patchMinor);
    CoversOne(a, gs, 5);
    CoversNext(a, b, gs, 5, 6);
    CoversNext(a + b, c, gs, 5, 7);
    CoversNext(a + b + c, d, gs, 5, 8);
    CoversNext(a + b + c + d, e, gs, 5, 9);
  }

  function TimelinePart(r: MatchRecord): Bytes {
    if r.timeline.Some? then PutMessage(12, TimelineBytes(r.timeline.value)) else []
  }

  lemma TailCover(r: MatchRecord, gs: seq<seq<Field>>)
    requires gs == RecordGroups(r) && |RecordBytes(r)| < TWO_64
    ensures Covers(
              ParticipantsBytes(r.participants, |r.participants|) + TimelinePart(r)
              + PutBytes(13, Packed(r.bans, |r.bans|)), gs, 10, 13)
  {
    hide Spells, ParticipantsBytes, Packed, TimelineBytes, IdsBytes, MetaBytes;
    var bodies := ParticipantBodies(r.participants);
    var a := ParticipantsBytes(r.participants, |r.participants|);
    ParticipantsAreMessages(r.participants, |r.participants|);
    MessagesSpell(11, bodies, |bodies|);
    assert bodies[..|bodies|] == bodies;
    if r.timeline.Some? {
      MessageSpells(12, TimelineBytes(r.timeline.value));
    } else {
      SpellsNothing();
    }
    BytesSpell(13, Packed(r.bans, |r.bans|));
    CoversOne(a, gs, 10);
    CoversNext(a, TimelinePart(r), gs, 10, 11);
    CoversNext(a + TimelinePart(r), PutBytes(13, Packed(r.bans, |r.bans|)), gs, 10, 12);
  }

  lemma LenProper(tag: nat, body: Bytes)
    ensures Proper(LenField(tag, body), tag, {11}, {11, 12})
  {
  }

  lemma IdsProper(r: MatchRecord)
    ensures forall i :: 0 <= i < 5 ==> Proper(RecordGroups(r)[i], i + 1, {11}, {11, 12})
  {
    hide Proper, NumField, LenField, Packed, AsU64, LenFields, TimelineField;
    NumProper(1, r.schemaVersion, {11}, {11, 12});
    NumProper(2, r.gameId, {11}, {11, 12});
    LenProper(3, r.platform);
    NumProper(4, r.queueId, {11}, {11, 12});
    NumProper(5, AsU64(r.gameStartMs), {11}, {11, 12});
  }

  lemma MetaProper(r: MatchRecord)
    ensures forall i :: 5 <= i < 10 ==> Proper(RecordGroups(r)[i], i + 1, {11}, {11, 12})
  {
    hide Proper, NumField, LenField, Packed, AsU64, LenFields, TimelineField;
    NumProper(6, r.durationS, {11}, {11, 12});
    NumProper(7, if r.blueWon then 1 else 0, {11}, {11, 12});
    LenProper(8, r.gameVersion);
    NumProper(9, r.patchMajor, {11}, {11, 12});
    NumProper(10, r.patchMinor, {11}, {11, 12});
  }

  lemma TailProper(r: MatchRecord)
    ensures forall i :: 10 <= i < 13 ==> Proper(RecordGroups(r)[i], i + 1, {11}, {11, 12})
  {
    hide Proper, NumField, LenField, Packed, AsU64, LenFields, TimelineField;
    MessagesProper(r);
    LenProper(13, Packed(r.bans, |r.bans|));
  }

  lemma GroupsProper(r: MatchRecord)
    ensures Tagged(RecordGroups(r))
    ensures forall i :: 0 <= i < 13 ==> Proper(RecordGroups(r)[i], i + 1, {11}, {11, 12})
  {
    hide Proper, RecordGroups;
    IdsProper(r);
    MetaProper(r);
    TailProper(r);
    ProperTagged(RecordGroups(r), {11}, {11, 12});
  }

  lemma MessagesProper(r: MatchRecord)
    ensures Proper(LenFields(11, ParticipantBodies(r.participants)), 11, {11}, {11, 12})
    ensures Proper(TimelineField(r), 12, {11}, {11, 12})
  {
    hide ParticipantBodies, TimelineBytes;
  }

  lemma RecordIsParts(r: MatchRecord)
    ensures RecordBytes(r)
         == (IdsBytes(r) + MetaBytes(r))
            + (ParticipantsBytes(r.participants, |r.participants|) + TimelinePart(r)
               + PutBytes(13, Packed(r.bans, |r.bans|)))
    ensures |ParticipantsBytes(r.participants, |r.participants|)| <= |RecordBytes(r)|
  {
    hide IdsBytes, MetaBytes, ParticipantsBytes, PutBytes, PutMessage, Packed, TimelineBytes;
  }

  lemma RecordSpells(r: MatchRecord)
    requires |RecordBytes(r)| < TWO_64
    ensures ReadFields(RecordBytes(r)).Ok?
    ensures Message(ReadFields(RecordBytes(r)).value, RecordGroups(r))
    ensures Canonical(ReadFields(RecordBytes(r)).value, {11}, {11, 12})
  {
    hide Spells, ReadFields, IdsBytes, MetaBytes, ParticipantsBytes, Packed, PutBytes, TimelineBytes, RecordGroups;
    hide RecordBytes, TimelinePart, Tagged, Proper, Canonical, Joined;
    var gs := RecordGroups(r);
    IdsCover(r, gs);
    MetaCover(r, gs);
    TailCover(r, gs);
    var tail := ParticipantsBytes(r.participants, |r.participants|) + TimelinePart(r)
                + PutBytes(13, Packed(r.bans, |r.bans|));
    CoversBoth(IdsBytes(r), MetaBytes(r), gs, 0, 5, 10);
    CoversBoth(IdsBytes(r) + MetaBytes(r), tail, gs, 0, 10, 13);
    RecordIsParts(r);
    assert Covers(RecordBytes(r), gs, 0, 13);
    SpellsReads(RecordBytes(r), Joined(gs, 0, 13));
    GroupsProper(r);
    JoinedCanonical(gs, 13, {11}, {11, 12});
  }

  lemma TextIs(fs: seq<Field>, gs: seq<seq<Field>>, tag: nat, text: Vec<byte>)
    requires Message(fs, gs) && 1 <= tag <= |gs| && gs[tag - 1] == LenField(tag, text)
    ensures Text(fs, tag) == Ok(text)
  {
    hide Message, Bodies;
    BodyIs(fs, gs, tag, text);
  }

  lemma TimelineGroup(r: MatchRecord)
    ensures RecordGroups(r)[11] == TimelineField(r)
    ensures r.timeline.Some? ==> |TimelineBytes(r.timeline.value)| <= |RecordBytes(r)|
    ensures Bodies([], 12) == []
  {
    hide TimelineBytes, IdsBytes, MetaBytes, ParticipantsBytes, Packed, PutBytes, TimelineField;
  }

  lemma TimelineIs(r: MatchRecord, fs: seq<Field>)
    requires Message(fs, RecordGroups(r)) && |RecordBytes(r)| < TWO_64
    ensures MaybeTimeline(fs, 12) == Ok(r.timeline)
  {
    hide ReadTimeline, TimelineBytes, RecordBytes, Joined, RecordGroups, Bodies, Nums, Flat, Tagged;
    TimelineGroup(r);
    FindsGroup(RecordGroups(r), 13, 12);
    if r.timeline.Some? {
      var body := TimelineBytes(r.timeline.value);
      OneBody(12, body);
      TimelineReads(r.timeline.value);
    }
  }

  lemma IdsRead(r: MatchRecord, fs: seq<Field>)
    requires Message(fs, RecordGroups(r))
    ensures Uint32(fs, 1) == r.schemaVersion && Uint64(fs, 2) == r.gameId && Text(fs, 3) == Ok(r.platform)
    ensures Uint32(fs, 4) == r.queueId && Int64(fs, 5) == r.gameStartMs
  {
    hide Nums, Message, NumField, LenField, Text;
    var gs := RecordGroups(r);
    NumIs(fs, gs, 1, r.schemaVersion);
    NumIs(fs, gs, 2, r.gameId);
    TextIs(fs, gs, 3, r.platform);
    NumIs(fs, gs, 4, r.queueId);
    NumIs(fs, gs, 5, AsU64(r.gameStartMs));
  }

  lemma MetaRead(r: MatchRecord, fs: seq<Field>)
    requires Message(fs, RecordGroups(r))
    ensures Uint32(fs, 6) == r.durationS && Bool(fs, 7) == r.blueWon && Text(fs, 8) == Ok(r.gameVersion)
    ensures Uint32(fs, 9) == r.patchMajor && Uint32(fs, 10) == r.patchMinor
  {
    hide Nums, Message, NumField, LenField, Text;
    var gs := RecordGroups(r);
    NumIs(fs, gs, 6, r.durationS);
    NumIs(fs, gs, 7, if r.blueWon then 1 else 0);
    TextIs(fs, gs, 8, r.gameVersion);
    NumIs(fs, gs, 9, r.patchMajor);
    NumIs(fs, gs, 10, r.patchMinor);
  }

  /** What the row writer stores for a record is that record's protobuf encoding. */
  lemma RecordReads(r: MatchRecord)
    requires |RecordBytes(r)| < TWO_64
    ensures ReadRecord(RecordBytes(r)) == Ok(r)
  {
    hide ReadFields, Message, Canonical, RecordBytes, Messages, MaybeTimeline, Text, Uint32s, Uint32, Uint64;
    hide Int64, Bool, LenField, NumField, Packed, ParticipantBodies, ParticipantsBytes;
    RecordSpells(r);
    var fs := ReadFields(RecordBytes(r)).value;
    IdsRead(r, fs);
    MetaRead(r, fs);
    RecordIsParts(r);
    ParticipantsRead(r.participants, fs, RecordGroups(r));
    TimelineIs(r, fs);
    Uint32sAre(fs, RecordGroups(r), 13, r.bans);
  }
}
