/**
 The block payload: header, stream lengths, streams. Decoding the payload of any
 list of records whose deltas fit yields their canonical bytes.
 */
module ColumnarBlock {
  import opened Results
  import opened Wire
  import opened Schema
  import opened Columns
  import opened ColumnarSpec
  import opened ColumnarProof

  /** `LCOL`, then version 1. */
  const MAGIC: Bytes := [0x4C, 0x43, 0x4F, 0x4C, 1]

  // ---- stream order ----

  /** The streams of a block with `s` stat and `r` rune streams. */
  function Keys(s: nat, r: nat): set<ColId> {
    (set i | 0 <= i < NMISC :: Fixed(i)) + (set i | 0 <= i < s :: Stat(i)) + (set i | 0 <= i < r :: Rune(i))
  }

  /** The stream stored at position `i`: fixed streams first, then stat streams, then rune streams. */
  function IdAt(i: nat, s: nat): ColId {
    if i < NMISC then Fixed(i) else if i < NMISC + s then Stat(i - NMISC) else Rune(i - NMISC - s)
  }

  function IndexOf(c: ColId, s: nat): nat {
    match c
    case Fixed(i) => i
    case Stat(i) => NMISC + i
    case Rune(i) => NMISC + s + i
  }

  /** The streams the writes `ops` fill, in stream order. */
  function StreamsOf(ops: Ops, s: nat, r: nat): (streams: seq<Bytes>)
    ensures |streams| == NMISC + s + r
  {
    seq(NMISC + s + r, i requires 0 <= i => ColOf(ops, IdAt(i, s)))
  }

  /** Unread streams by name. */
  function FamFrom(streams: seq<Bytes>, s: nat, r: nat): (f: Fam)
    requires |streams| == NMISC + s + r
    ensures f.cols.Keys == Keys(s, r)
  {
    Fam(map c | c in Keys(s, r) :: streams[IndexOf(c, s)])
  }

  lemma StreamsByName(ops: Ops, s: nat, r: nat)
    ensures FamFrom(StreamsOf(ops, s, r), s, r) == FamOf(Keys(s, r), ops)
  {
    hide ColOf;
    forall c | c in Keys(s, r)
      ensures StreamsOf(ops, s, r)[IndexOf(c, s)] == ColOf(ops, c)
    {
      assert IdAt(IndexOf(c, s), s) == c;
    }
  }

  // ---- payload ----

  /** Lengths of streams `i..`. */
  function LengthsFrom(streams: seq<Bytes>, i: nat): Bytes
    requires i <= |streams|
    decreases |streams| - i
  {
    if i == |streams| then [] else Varint(|streams[i]|) + LengthsFrom(streams, i + 1)
  }

  function DataFrom(streams: seq<Bytes>, i: nat): Bytes
    requires i <= |streams|
    decreases |streams| - i
  {
    if i == |streams| then [] else streams[i] + DataFrom(streams, i + 1)
  }

  function Payload(records: nat, s: nat, r: nat, streams: seq<Bytes>): Bytes {
    MAGIC + (Varint(records) + (Varint(s) + (Varint(r) + (LengthsFrom(streams, 0) + DataFrom(streams, 0)))))
  }

  // ---- manifest ----

  datatype Manifest = Manifest(records: nat, stats: nat, runes: nat, streams: seq<Bytes>)

  function ReadLengths(b: Bytes, n: nat, acc: seq<nat>): (r: Result<(seq<nat>, Bytes)>)
    ensures r.Ok? ==> |r.value.0| == |acc| + n && |r.value.1| + n <= |b|
    decreases n
  {
    if n == 0 then Ok((acc, b))
    else
      match ReadVarint(b) case Err => Err case Ok((len, rest)) =>
      ReadLengths(rest, n - 1, acc + [len])
  }

  function Sum(ns: seq<nat>, i: nat): nat
    requires i <= |ns|
    decreases |ns| - i
  {
    if i == |ns| then 0 else ns[i] + Sum(ns, i + 1)
  }

  /** Cuts `data` into pieces of lengths `lens[i..]`, after the pieces already cut. */
  function Cut(data: Bytes, lens: seq<nat>, acc: seq<Bytes>): (streams: seq<Bytes>)
    requires |acc| <= |lens| && |data| == Sum(lens, |acc|)
    ensures |streams| == |lens|
    decreases |lens| - |acc|
  {
    if |acc| == |lens| then acc
    else
      var n := lens[|acc|];
      Cut(data[n..], lens, acc + [data[..n]])
  }

  /** The header and the stream lengths must account for every byte of the payload. */
  function ParsePayload(p: Bytes): (m: Result<Manifest>)
    ensures m.Ok? ==> |m.value.streams| == NMISC + m.value.stats + m.value.runes
  {
    if |p| < |MAGIC| || p[..|MAGIC|] != MAGIC then Err
    else
      match ReadVarint(p[|MAGIC|..]) case Err => Err case Ok((records, b0)) =>
      match ReadVarint(b0) case Err => Err case Ok((stats, b1)) =>
      match ReadVarint(b1) case Err => Err case Ok((runes, b2)) =>
      if NMISC + stats + runes >= TWO_64 || NMISC + stats + runes > |b2| then Err
      else
        match ReadLengths(b2, NMISC + stats + runes, []) case Err => Err case Ok((lens, data)) =>
        if |p| >= TWO_64 || Sum(lens, 0) != |data| then Err
        else Ok(Manifest(records, stats, runes, Cut(data, lens, [])))
  }

  predicate AllRead(f: Fam) {
    forall c | c in f.cols :: f.cols[c] == []
  }

  /** `decode_block`: parses the manifest, decodes the records, and insists that every stream is used up. */
  function DecodeBlock(p: Bytes): Result<seq<Bytes>> {
    match ParsePayload(p) case Err => Err case Ok(m) =>
    match DecRecords(FamFrom(m.streams, m.stats, m.runes), START, m.records, []) case Fail => Err case Got(rs, f) =>
    if AllRead(f) then Ok(rs) else Err
  }

  // ---- payload round trip ----

  lemma {:induction false} ReadLengthsOf(streams: seq<Bytes>, i: nat, lens: seq<nat>, rest: Bytes)
    requires i <= |streams| && |lens| == |streams| && forall j | 0 <= j < |streams| :: lens[j] == |streams[j]| < TWO_64
    ensures ReadLengths(LengthsFrom(streams, i) + rest, |streams| - i, lens[..i]) == Ok((lens, rest))
    decreases |streams| - i
  {
    hide ReadVarint, Varint;
    if i == |streams| {
      assert LengthsFrom(streams, i) + rest == rest && lens[..i] == lens;
    } else {
      var tail := LengthsFrom(streams, i + 1) + rest;
      assert LengthsFrom(streams, i) + rest == Varint(lens[i]) + tail;
      VarintRoundTrip(lens[i], tail);
      assert lens[..i] + [lens[i]] == lens[..i + 1];
      ReadLengthsOf(streams, i + 1, lens, rest);
    }
  }

  lemma {:induction false} CutOf(streams: seq<Bytes>, i: nat, lens: seq<nat>)
    requires i <= |streams| && |lens| == |streams| && forall j | 0 <= j < |streams| :: lens[j] == |streams[j]|
    ensures |DataFrom(streams, i)| == Sum(lens, i)
    ensures Cut(DataFrom(streams, i), lens, streams[..i]) == streams
    decreases |streams| - i
  {
    if i == |streams| {
      assert streams[..i] == streams;
    } else {
      CutOf(streams, i + 1, lens);
      var data := DataFrom(streams, i);
      assert data[..lens[i]] == streams[i] && data[lens[i]..] == DataFrom(streams, i + 1);
      assert streams[..i] + [streams[i]] == streams[..i + 1];
    }
  }

  lemma {:induction false} StreamsFit(streams: seq<Bytes>, i: nat)
    requires i <= |streams|
    ensures |LengthsFrom(streams, i)| >= |streams| - i
    ensures forall j | i <= j < |streams| :: |streams[j]| <= |DataFrom(streams, i)|
    decreases |streams| - i
  {
    hide Varint;
    if i < |streams| {
      StreamsFit(streams, i + 1);
      assert |DataFrom(streams, i)| == |streams[i]| + |DataFrom(streams, i + 1)|;
    }
  }

  /** A payload that fits in memory parses back to exactly its parts. */
  lemma PayloadRoundTrip(records: u64, s: nat, r: nat, streams: seq<Bytes>)
    requires |streams| == NMISC + s + r
    requires |Payload(records, s, r, streams)| < TWO_64
    ensures ParsePayload(Payload(records, s, r, streams)) == Ok(Manifest(records, s, r, streams))
  {
    hide ReadVarint, Varint, ReadLengths, Cut, DataFrom, LengthsFrom;
    var p := Payload(records, s, r, streams);
    var b3 := LengthsFrom(streams, 0) + DataFrom(streams, 0);
    var b2 := Varint(r) + b3;
    var b1 := Varint(s) + b2;
    StreamsFit(streams, 0);
    assert p[..|MAGIC|] == MAGIC && p[|MAGIC|..] == Varint(records) + b1;
    VarintRoundTrip(records, b1);
    VarintRoundTrip(s, b2);
    VarintRoundTrip(r, b3);
    var lens := seq(|streams|, i requires 0 <= i < |streams| => |streams[i]|);
    ReadLengthsOf(streams, 0, lens, DataFrom(streams, 0));
    assert lens[..0] == [] && streams[..0] == [];
    CutOf(streams, 0, lens);
  }

  // ---- the block theorem ----

  /** Most stat values (`stats`) or runes of one participant among the first `n`. */
  function Widest(ps: seq<Participant>, n: nat, stats: bool): (w: nat)
    requires n <= |ps|
    ensures forall j | 0 <= j < n :: (if stats then |ps[j].stats| else |ps[j].runes|) <= w
  {
    if n == 0 then 0
    else Max(Widest(ps, n - 1, stats), if stats then |ps[n - 1].stats| else |ps[n - 1].runes|)
  }

  function Max(a: nat, b: nat): nat {
    if a < b then b else a
  }

  /** The dynamic stream count of a block: the widest participant of its first `n` records. */
  function Width(rs: seq<MatchRecord>, n: nat, stats: bool): (w: nat)
    requires n <= |rs|
    ensures forall i, j | 0 <= i < n && 0 <= j < |rs[i].participants| ::
              (if stats then |rs[i].participants[j].stats| else |rs[i].participants[j].runes|) <= w
  {
    if n == 0 then 0
    else
      var ps := rs[n - 1].participants;
      Max(Width(rs, n - 1, stats), Widest(ps, |ps|, stats))
  }

  /** The payload the encoder produces. */
  function BlockPayload(rs: Vec<MatchRecord>): Bytes
    requires AllDeltasFit(rs)
  {
    var s := Width(rs, |rs|, true);
    var r := Width(rs, |rs|, false);
    Payload(|rs|, s, r, StreamsOf(BlockOps(rs, 0), s, r))
  }

  /** Decoding what the encoder writes yields exactly the canonical bytes of every record, in order. */
  lemma BlockRoundTrip(rs: Vec<MatchRecord>)
    requires AllDeltasFit(rs) && |BlockPayload(rs)| < TWO_64
    ensures DecodeBlock(BlockPayload(rs)) == Ok(BlockBytes(rs, |rs|))
  {
    hide Payload, ParsePayload, DecRecords, StreamsOf, FamFrom, BlockOps, ColOf, BlockBytes, Width;
    var s := Width(rs, |rs|, true);
    var r := Width(rs, |rs|, false);
    var ops := BlockOps(rs, 0);
    var keys := Keys(s, r);
    PayloadRoundTrip(|rs|, s, r, StreamsOf(ops, s, r));
    StreamsByName(ops, s, r);
    assert HasFixed(keys) && AllDynamicIn(rs, keys);
    RecordsRoundTrip(keys, rs, 0);
    assert BlockBytes(rs, 0) == [];
    NothingLeft(keys);
  }

  lemma NothingLeft(keys: set<ColId>)
    ensures AllRead(FamOf(keys, Nil))
  {
  }

  // ---- arbitrary input ----

  /** Streams `0..i`, by name. */
  function KeysBelow(i: nat, s: nat): set<ColId> {
    set j | 0 <= j < i :: IdAt(j, s)
  }

  lemma {:induction false} SizeOfStreams(streams: seq<Bytes>, s: nat, r: nat, i: nat)
    requires |streams| == NMISC + s + r && i <= |streams|
    ensures KeysBelow(i, s) <= Keys(s, r)
    ensures SizeOver(KeysBelow(i, s), FamFrom(streams, s, r)) + |DataFrom(streams, i)| == |DataFrom(streams, 0)|
  {
    if i > 0 {
      SizeOfStreams(streams, s, r, i - 1);
      var f := FamFrom(streams, s, r);
      var c := IdAt(i - 1, s);
      var keys := KeysBelow(i, s);
      assert IndexOf(c, s) == i - 1;
      forall j | 0 <= j < i - 1 ensures IdAt(j, s) != c {
        assert IndexOf(IdAt(j, s), s) == j;
      }
      assert keys - {c} == KeysBelow(i - 1, s);
      assert c in Keys(s, r) && f.cols[c] == streams[i - 1];
      SizeOverSplit(keys, f, c);
    }
  }

  lemma KeysBelowAll(s: nat, r: nat)
    ensures KeysBelow(NMISC + s + r, s) == Keys(s, r)
  {
    forall c | c in Keys(s, r) ensures c in KeysBelow(NMISC + s + r, s) {
      assert IdAt(IndexOf(c, s), s) == c;
    }
  }

  lemma {:induction false} CutData(data: Bytes, lens: seq<nat>, acc: seq<Bytes>)
    requires |acc| <= |lens| && |data| == Sum(lens, |acc|)
    ensures DataFrom(Cut(data, lens, acc), |acc|) == data
    ensures Cut(data, lens, acc)[..|acc|] == acc
    decreases |lens| - |acc|
  {
    if |acc| < |lens| {
      var n := lens[|acc|];
      var acc' := acc + [data[..n]];
      CutData(data[n..], lens, acc');
      var streams := Cut(data, lens, acc);
      assert streams[..|acc|] == streams[..|acc'|][..|acc|] == acc;
      assert streams[|acc|] == streams[..|acc'|][|acc|] == data[..n];
    }
  }

  predicate SuffixOf(t: Bytes, s: Bytes) {
    |t| <= |s| && t == s[|s| - |t|..]
  }

  lemma SuffixTrans(a: Bytes, b: Bytes, c: Bytes)
    requires SuffixOf(a, b) && SuffixOf(b, c)
    ensures SuffixOf(a, c)
  {
  }

  /** The streams of a parsed payload are, back to back, its last bytes. */
  lemma ParseAccounts(p: Bytes)
    requires ParsePayload(p).Ok?
    ensures var data := DataFrom(ParsePayload(p).value.streams, 0); SuffixOf(data, p) && |data| < |p|
  {
    hide Cut, Sum, DataFrom, ReadGroups, ReadLengths;
    var m := ParsePayload(p).value;
    var n := NMISC + m.stats + m.runes;
    var b := p[|MAGIC|..];
    var b0 := ReadVarint(b).value.1;
    var b1 := ReadVarint(b0).value.1;
    var b2 := ReadVarint(b1).value.1;
    var lens := ReadLengths(b2, n, []).value.0;
    var data := ReadLengths(b2, n, []).value.1;
    CutData(data, lens, []);
    ReadGroupsSuffix(b, 0);
    ReadGroupsSuffix(b0, 0);
    ReadGroupsSuffix(b1, 0);
    ReadLengthsSuffix(b2, n, []);
    SuffixTrans(b0, b, p);
    SuffixTrans(b1, b0, p);
    SuffixTrans(b2, b1, p);
    SuffixTrans(data, b2, p);
  }

  /** The streams of a payload hold all its data bytes. */
  lemma PayloadAccounts(p: Bytes)
    requires ParsePayload(p).Ok?
    ensures var m := ParsePayload(p).value;
            && Size(FamFrom(m.streams, m.stats, m.runes)) == |DataFrom(m.streams, 0)| < |p|
            && SuffixOf(DataFrom(m.streams, 0), p)
  {
    hide ParsePayload, DataFrom, SuffixOf, SizeOver, FamFrom;
    var m := ParsePayload(p).value;
    ParseAccounts(p);
    SizeOfStreams(m.streams, m.stats, m.runes, |m.streams|);
    KeysBelowAll(m.stats, m.runes);
    NoDataAtEnd(m.streams);
  }

  /** Accepted records are what the record decoder got, and it left every stream empty. */
  lemma AllReadFacts(p: Bytes)
    requires DecodeBlock(p).Ok?
    ensures ParsePayload(p).Ok?
    ensures var m := ParsePayload(p).value;
            var d := DecRecords(FamFrom(m.streams, m.stats, m.runes), START, m.records, []);
            d.Got? && d.value == DecodeBlock(p).value && Size(d.rest) == 0 && |d.value| == m.records
            && forall c | c in d.rest.cols :: d.rest.cols[c] == []
  {
    hide DecRecords, ParsePayload, FamFrom;
    var m := ParsePayload(p).value;
    var f := DecRecords(FamFrom(m.streams, m.stats, m.runes), START, m.records, []).rest;
    EmptySize(f.cols.Keys, f);
  }

  lemma {:induction false} EmptySize(keys: set<ColId>, f: Fam)
    requires keys <= f.cols.Keys && forall c | c in keys :: f.cols[c] == []
    ensures SizeOver(keys, f) == 0
    decreases |keys|
  {
    if keys != {} {
      var c :| c in keys && SizeOver(keys, f) == |f.cols[c]| + SizeOver(keys - {c}, f);
      EmptySize(keys - {c}, f);
    }
  }

  /** On any bytes at all: the streams of a block that decodes hold all the payload's data bytes, the records leave no
      byte of any of them, and there are no more records than the payload has bytes. */
  lemma DecodeConsumesAll(p: Bytes)
    requires DecodeBlock(p).Ok?
    ensures ParsePayload(p).Ok?
    ensures var m := ParsePayload(p).value;
            && |DecodeBlock(p).value| == m.records <= |p|
            && Size(FamFrom(m.streams, m.stats, m.runes)) == |DataFrom(m.streams, 0)| < |p|
            && SuffixOf(DataFrom(m.streams, 0), p)
            && var d := DecRecords(FamFrom(m.streams, m.stats, m.runes), START, m.records, []);
               d.Got? && d.value == DecodeBlock(p).value && Size(d.rest) == 0
               && forall c | c in d.rest.cols :: d.rest.cols[c] == []
  {
    AllReadFacts(p);
    PayloadAccounts(p);
    hide DecodeBlock, DecRecords, ParsePayload, DataFrom, SuffixOf, Size, FamFrom;
  }

  lemma NoDataAtEnd(streams: seq<Bytes>)
    ensures DataFrom(streams, |streams|) == []
  {
  }

  lemma {:induction false} ReadLengthsSuffix(b: Bytes, n: nat, acc: seq<nat>)
    ensures ReadLengths(b, n, acc).Ok? ==>
              var rest := ReadLengths(b, n, acc).value.1;
              SuffixOf(rest, b)
    decreases n
  {
    hide ReadGroups;
    if n > 0 && ReadVarint(b).Ok? {
      ReadGroupsSuffix(b, 0);
      ReadLengthsSuffix(ReadVarint(b).value.1, n - 1, acc + [ReadVarint(b).value.0]);
    }
  }
}
