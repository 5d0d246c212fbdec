/**
 Segment files in place: the block readers as loops, the writer of a day's
 segment, and a segment being recompacted with every state a crash could leave.
 */
module Segment {
  import opened Results
  import opened Wire
  import opened Schema
  import opened Columnar
  import opened SegmentSpec
  import opened SegmentProof
  import opened Recompact

  // ---- readers ----

  function MoreRows(records: seq<Bytes>, offsets: seq<nat>, rest: Result<Rows>): Result<Rows> {
    if rest.Err? then Err else Ok(Rows(records + rest.value.records, offsets + rest.value.offsets))
  }

  lemma NoMoreRows(records: seq<Bytes>, offsets: seq<nat>, rest: Result<Rows>)
    ensures MoreRows([], [], rest) == rest
    ensures MoreRows(records, offsets, Ok(Rows([], []))) == Ok(Rows(records, offsets))
  {
    if rest.Ok? {
      assert [] + rest.value.records == rest.value.records && [] + rest.value.offsets == rest.value.offsets;
    }
    assert records + [] == records && offsets + [] == offsets;
  }

  lemma OneMoreRow(records: seq<Bytes>, offsets: seq<nat>, raw: Bytes, off: nat, rest: Result<Rows>)
    ensures MoreRows(records, offsets, MoreRows([raw], [off], rest)) == MoreRows(records + [raw], offsets + [off], rest)
  {
    if rest.Ok? {
      assert records + ([raw] + rest.value.records) == records + [raw] + rest.value.records;
      assert offsets + ([off] + rest.value.offsets) == offsets + [off] + rest.value.offsets;
    }
  }

  method DecodeRowBlock(b: Bytes, strict: bool) returns (r: Result<Rows>)
    ensures r == RowsFrom(b, 0, strict)
  {
    hide Word;
    var records: seq<Bytes>, offsets: seq<nat> := [], [];
    var off := 0;
    NoMoreRows([], [], RowsFrom(b, 0, strict));
    while off < |b|
      invariant off <= |b|
      invariant RowsFrom(b, 0, strict) == MoreRows(records, offsets, RowsFrom(b, off, strict))
      decreases |b| - off
    {
      if off + 4 > |b| || off + 4 + Word(b, off) > |b| {
        NoMoreRows(records, offsets, Err);
        return if strict then Err else Ok(Rows(records, offsets));
      }
      var len := Word(b, off);
      OneMoreRow(records, offsets, b[off + 4..off + 4 + len], off, RowsFrom(b, off + 4 + len, strict));
      offsets := offsets + [off];
      records := records + [b[off + 4..off + 4 + len]];
      off := off + 4 + len;
    }
    NoMoreRows(records, offsets, Err);
    r := Ok(Rows(records, offsets));
  }

  method ReadSegmentBlock(env: Env, file: Bytes, at: nat, strict: bool) returns (r: Read)
    ensures r == ReadBlock(env, file, at, strict)
  {
    hide Word, RowsFrom, Unpack;
    if at + HEADER_LEN > |file| {
      return Invalid(strict);
    }
    var magic, crc := Word(file, at), Word(file, at + 4);
    var clen, ulen := Word(file, at + 8), Word(file, at + 12);
    var next := at + HEADER_LEN + clen;
    if !Known(magic) || next > |file| || clen > MAX_BLOCK || ulen > MAX_BLOCK {
      return Invalid(strict);
    }
    var packed := file[at + HEADER_LEN..next];
    if env.crc(packed) != crc {
      return Invalid(strict);
    }
    var body := env.decompress(packed, ulen);
    if body.None? || |body.value| != ulen {
      return Invalid(strict);
    }
    if magic == SEG_MAGIC {
      var rows := DecodeRowBlock(body.value, strict);
      r := if rows.Err? then Bad else Good(Block(at, next, false, rows.value.records, rows.value.offsets));
    } else {
      var records := DecodePayload(body.value);
      assert records == Unpack(body.value) by { UnpackIs(body.value); }
      r := if records.Err? then Invalid(strict)
           else Good(Block(at, next, true, records.value, Ordinals(|records.value|)));
    }
  }

  lemma UnpackIs(payload: Bytes)
    ensures Unpack(payload) == ColumnarBlock.DecodeBlock(payload)
  {
  }

  method ValidateSegment(file: Bytes) returns (pos: nat)
    ensures pos == Validate(file, 0)
  {
    hide Word;
    pos := 0;
    while true
      invariant pos <= |file| && Validate(file, 0) == Validate(file, pos)
      decreases |file| - pos
    {
      if pos + HEADER_LEN > |file| {
        return;
      }
      var clen := Word(file, pos + 8);
      if !Known(Word(file, pos)) || pos + HEADER_LEN + clen > |file| {
        return;
      }
      pos := pos + HEADER_LEN + clen;
    }
  }

  method ReadSegmentRecords(env: Env, file: Bytes) returns (records: seq<Bytes>)
    ensures records == ReadAll(env, file, 0)
  {
    hide ReadBlock;
    records := [];
    var pos := 0;
    while pos < |file|
      invariant pos <= |file| && ReadAll(env, file, 0) == records + ReadAll(env, file, pos)
      decreases |file| - pos
    {
      var r := ReadSegmentBlock(env, file, pos, false);
      if !r.Good? {
        break;
      }
      records := records + r.block.records;
      pos := r.block.next;
    }
  }

  function MoreLayout(l: Layout, rest: Result<Layout>): Result<Layout> {
    if rest.Err? then Err
    else Ok(Layout(l.records + rest.value.records, l.idx + rest.value.idx,
                   l.hasRows || rest.value.hasRows, rest.value.tail))
  }

  lemma NoMoreLayout(l: Layout, rest: Result<Layout>, tail: Option<nat>)
    ensures MoreLayout(Layout([], [], false, None), rest) == rest
    ensures MoreLayout(l, Ok(Layout([], [], false, tail))) == Ok(l.(tail := tail))
  {
    if rest.Ok? {
      assert [] + rest.value.records == rest.value.records && [] + rest.value.idx == rest.value.idx;
    }
    assert l.records + [] == l.records && l.idx + [] == l.idx;
  }

  lemma OneMoreBlock(l: Layout, b: Layout, rest: Result<Layout>)
    ensures MoreLayout(l, MoreLayout(b, rest))
         == MoreLayout(Layout(l.records + b.records, l.idx + b.idx, l.hasRows || b.hasRows, None), rest)
  {
    if rest.Ok? {
      assert l.records + (b.records + rest.value.records) == l.records + b.records + rest.value.records;
      assert l.idx + (b.idx + rest.value.idx) == l.idx + b.idx + rest.value.idx;
    }
  }

  method ReadSegmentLayout(env: Env, file: Bytes) returns (r: Result<Layout>)
    ensures r == ReadLayout(env, file, 0)
  {
    hide ReadBlock;
    var l := Layout([], [], false, None);
    var pos := 0;
    NoMoreLayout(l, ReadLayout(env, file, 0), None);
    while pos < |file|
      invariant pos <= |file| && l.tail.None?
      invariant ReadLayout(env, file, 0) == MoreLayout(l, ReadLayout(env, file, pos))
      decreases |file| - pos
    {
      var b := ReadSegmentBlock(env, file, pos, true);
      if !b.Good? {
        NoMoreLayout(l, Err, Some(pos));
        return Ok(l.(tail := Some(pos)));
      }
      var es: seq<IdxEntry> := [];
      for i := 0 to |b.block.records|
        invariant |es| == i
        invariant forall j | 0 <= j < i :: env.prost(b.block.records[j]).Ok?
                    && es[j] == IdxEntry(env.prost(b.block.records[j]).value.gameId, pos, b.block.offsets[j])
      {
        var decoded := env.prost(b.block.records[i]);
        if decoded.Err? {
          return Err;
        }
        es := es + [IdxEntry(decoded.value.gameId, pos, b.block.offsets[i])];
      }
      assert es == Entries(env, b.block.records, pos, b.block.offsets);
      OneMoreBlock(l, Layout(b.block.records, es, !b.block.columnar, None), ReadLayout(env, file, b.block.next));
      l := Layout(l.records + b.block.records, l.idx + es, l.hasRows || !b.block.columnar, None);
      pos := b.block.next;
    }
    NoMoreLayout(l, Err, None);
    r := Ok(l);
  }

  method ReadRecordAt(env: Env, file: Bytes, blockOff: nat, recOff: nat) returns (r: Result<Bytes>)
    ensures r == RecordAt(env, file, blockOff, recOff)
  {
    hide ReadBlock;
    var b := ReadSegmentBlock(env, file, blockOff, true);
    if !b.Good? {
      return Err;
    }
    if b.block.columnar {
      return if recOff < |b.block.records| then Ok(b.block.records[recOff]) else Err;
    }
    var i := 0;
    while i < |b.block.offsets|
      invariant i <= |b.block.offsets| && Position(b.block.offsets, recOff, 0) == Position(b.block.offsets, recOff, i)
    {
      if b.block.offsets[i] == recOff {
        return Ok(b.block.records[i]);
      }
      i := i + 1;
    }
    r := Err;
  }

  method ParseIdxEntries(b: Bytes) returns (r: Option<seq<IdxEntry>>)
    ensures r == ParseIdx(b)
  {
    hide EntryAt;
    if |b| % IDX_ENTRY_LEN != 0 {
      return None;
    }
    var es: seq<IdxEntry> := [];
    for i := 0 to |b| / IDX_ENTRY_LEN
      invariant es == EntriesIn(b, i)
    {
      es := es + [EntryAt(b, i)];
    }
    r := Some(es);
  }

  method EncodeIdx(es: seq<IdxEntry>) returns (b: Bytes)
    ensures b == IdxBytes(es, |es|)
  {
    hide EntryBytes;
    b := [];
    for i := 0 to |es|
      invariant b == IdxBytes(es, i)
    {
      b := b + EntryBytes(es[i]);
    }
  }

  // ---- the day's writer ----

  lemma {:induction false} RowBufAppend(raws: seq<Bytes>, raw: Bytes, n: nat)
    requires n <= |raws|
    ensures RowBuf(raws + [raw], n) == RowBuf(raws, n)
  {
    hide RowBytes;
    if n > 0 {
      RowBufAppend(raws, raw, n - 1);
      assert (raws + [raw])[n - 1] == raws[n - 1];
    }
  }

  datatype Waiting = Waiting(gameId: nat, off: nat)

  class SegmentWriter {
    var seg: Bytes
    var idx: Bytes
    var buf: Bytes
    var pending: seq<Waiting>

    ghost var raws: seq<Bytes>
    ghost var ids: seq<nat>

    /** The buffer is the pending records as rows, each listed with its game and offset. */
    ghost predicate Valid()
      reads this
    {
      && |pending| == |raws| == |ids| && buf == RowBuf(raws, |raws|)
      && forall i | 0 <= i < |raws| :: pending[i] == Waiting(ids[i], |RowBuf(raws, i)| % TWO_32)
    }

    /** Opens a day's files, cutting a torn tail. */
    constructor (seg0: Bytes, idx0: Bytes)
      ensures Valid() && seg == seg0[..Validate(seg0, 0)] && idx == idx0 && raws == [] && ids == []
    {
      var valid := ValidateSegment(seg0);
      seg, idx := seg0[..valid], idx0;
      buf, pending, raws, ids := [], [], [], [];
    }

    method Append(gameId: nat, raw: Bytes)
      requires Valid()
      modifies this`buf, this`pending, this`raws, this`ids
      ensures Valid() && raws == old(raws) + [raw] && ids == old(ids) + [gameId]
    {
      hide RowBytes;
      var off := |buf| % TWO_32;
      buf := buf + RowBytes(raw);
      pending := pending + [Waiting(gameId, off)];
      forall n | 0 <= n <= |raws| ensures RowBuf(raws + [raw], n) == RowBuf(raws, n) {
        RowBufAppend(raws, raw, n);
      }
      raws := raws + [raw];
      ids := ids + [gameId];
    }

    /** Writes the buffer as one row block and then its index entries; an empty buffer writes nothing. */
    method Flush(env: Env)
      requires Valid()
      modifies this
      ensures Valid() && raws == [] && ids == []
      ensures seg == if old(raws) == [] then old(seg)
              else old(seg) + BlockOf(env, Chunk(false, WRITER_LEVEL, old(raws)))
      ensures var es := PendingEntries(old(ids), old(raws), |old(seg)|); idx == old(idx) + IdxBytes(es, |es|)
    {
      hide RowBuf, Header, EntryBytes;
      ghost var es := PendingEntries(ids, raws, |seg|);
      if pending == [] {
        return;
      }
      var blockOff := |seg|;
      var packed := env.compress(WRITER_LEVEL, buf);
      seg := seg + (Header(SEG_MAGIC, env.crc(packed), |packed|, |buf|) + packed);
      var idxBuf: Bytes := [];
      for i := 0 to |pending|
        invariant idxBuf == IdxBytes(es, i)
      {
        idxBuf := idxBuf + EntryBytes(IdxEntry(pending[i].gameId, blockOff, pending[i].off));
      }
      idx := idx + idxBuf;
      buf, pending, raws, ids := [], [], [], [];
      assert RowBuf([], 0) == [] by { NoRows(); }
    }
  }

  lemma NoRows()
    ensures RowBuf([], 0) == []
  {
  }

  // ---- columnar blocks ----

  /** `write_columnar_block`: the encoder's payload, compressed, behind a header that must hold both lengths. */
  method WriteColumnarBlock(env: Env, raws: seq<Bytes>, level: nat) returns (r: Result<Bytes>)
    requires |raws| < TWO_64
    ensures r.Ok? <==> Writable(env, Chunk(true, level, raws))
    ensures r.Ok? ==> r.value == BlockOf(env, Chunk(true, level, raws))
  {
    hide Header, Columnar.Encodable, ColumnarBlock.BlockPayload, ColumnarBlock.DecodeBlock;
    var payload := EncodeBlock(raws, env.prost);
    if payload.Err? {
      return Err;
    }
    var packed := env.compress(level, payload.value);
    if |packed| >= TWO_32 || |payload.value| >= TWO_32 {
      return Err;
    }
    r := Ok(Header(COL_MAGIC, env.crc(packed), |packed|, |payload.value|) + packed);
  }

  /** One entry for each record of a columnar block, by its ordinal. */
  method IndexColumnarBlock(env: Env, raws: seq<Bytes>, at: nat) returns (r: Result<seq<IdxEntry>>)
    ensures r.Ok? <==> Named(env, raws)
    ensures r.Ok? ==> r.value == Entries(env, raws, at, Ordinals(|raws|))
  {
    var es: seq<IdxEntry> := [];
    for i := 0 to |raws|
      invariant |es| == i
      invariant forall j | 0 <= j < i ::
        env.prost(raws[j]).Ok? && es[j] == IdxEntry(env.prost(raws[j]).value.gameId, at, j)
    {
      var decoded := env.prost(raws[i]);
      if decoded.Err? {
        return Err;
      }
      es := es + [IdxEntry(decoded.value.gameId, at, i)];
    }
    r := Ok(es);
  }

  // ---- recompaction in place ----

  /** A segment and its index, the two temporary files beside them, and every state the first two have been in. */
  class SegmentFiles {
    var seg: Bytes
    var idx: Option<Bytes>
    var segTmp: Option<Bytes>
    var idxTmp: Option<Bytes>

    ghost var trace: seq<(Bytes, Option<Bytes>)>

    method RenameSeg()
      requires segTmp.Some?
      modifies this`seg, this`segTmp, this`trace
      ensures seg == old(segTmp).value && segTmp == None && trace == old(trace) + [(seg, idx)]
    {
      seg, segTmp := segTmp.value, None;
      trace := trace + [(seg, idx)];
    }

    method RenameIdx()
      requires idxTmp.Some?
      modifies this`idx, this`idxTmp, this`trace
      ensures idx == old(idxTmp) && idxTmp == None && trace == old(trace) + [(seg, idx)]
    {
      idx, idxTmp := idxTmp, None;
      trace := trace + [(seg, idx)];
    }

    method Truncate(len: nat)
      requires len <= |seg|
      modifies this`seg, this`trace
      ensures seg == old(seg)[..len] && trace == old(trace) + [(seg, idx)]
    {
      seg := seg[..len];
      trace := trace + [(seg, idx)];
    }

    method TailIsUnindexed(valid: nat) returns (ok: bool)
      ensures ok <==> TailUnindexed(idx, valid)
    {
      if idx.None? {
        return true;
      }
      var es := ParseIdxEntries(idx.value);
      if es.None? {
        return false;
      }
      ok := forall e | e in es.value :: e.blockOff < valid;
    }

    /** Leaves an index of exactly these entries. */
    method EnsureIdx(es: seq<IdxEntry>)
      modifies this`idx, this`idxTmp, this`trace
      ensures idx == Some(HealedIdx(old(idx), es)) && (old(idxTmp).None? ==> idxTmp.None?)
      ensures trace == old(trace) || trace == old(trace) + [(seg, idx)]
      ensures trace == old(trace) ==> idx == old(idx)
    {
      hide ParseIdx, IdxBytes;
      if idx.Some? {
        var found := ParseIdxEntries(idx.value);
        if found == Some(es) {
          return;
        }
      }
      var b := EncodeIdx(es);
      idxTmp := Some(b);
      RenameIdx();
    }

    /** Writes the columnar blocks of the rewrite and collects their index. */
    method WriteColumnar(env: Env, chunks: seq<Chunk>) returns (r: Result<seq<IdxEntry>>)
      requires forall k | 0 <= k < |chunks| :: chunks[k].columnar && |chunks[k].raws| < TWO_64
      modifies this`segTmp
      ensures r.Ok? <==> AllNamed(env, chunks) && forall k | 0 <= k < |chunks| :: Writable(env, chunks[k])
      ensures r.Ok? ==> segTmp == Some(SegBytes(env, chunks, |chunks|)) && r.value == EntriesFrom(env, chunks, 0)
    {
      hide EntriesFrom, Body, BlockOf, Entries, SegBytes;
      var out: Bytes := [];
      var es: seq<IdxEntry> := [];
      assert out == SegBytes(env, chunks, 0) by { NoBytes(env, chunks); }
      for k := 0 to |chunks|
        invariant out == SegBytes(env, chunks, k)
        invariant forall i | 0 <= i < k :: Writable(env, chunks[i]) && Named(env, chunks[i].raws)
        invariant AllNamed(env, chunks) ==> EntriesFrom(env, chunks, 0) == es + EntriesFrom(env, chunks, k)
      {
        var c := chunks[k];
        var block := WriteColumnarBlock(env, c.raws, c.level);
        assert c == Chunk(true, c.level, c.raws);
        if block.Err? {
          return Err;
        }
        var entries := IndexColumnarBlock(env, c.raws, |out|);
        if entries.Err? {
          return Err;
        }
        assert Offsets(c) == Ordinals(|c.raws|);
        es := es + entries.value;
        StepBytes(env, chunks, k);
        out := out + block.value;
        if AllNamed(env, chunks) {
          StepEntries(env, chunks, k);
        }
      }
      segTmp := Some(out);
      if AllNamed(env, chunks) {
        LastEntries(env, chunks);
      }
      r := Ok(es);
    }

    /** `recompact_segment`: on success the files are the run's result; a refusal or a failed self-check leaves both as
        they were. Whatever point a crash hits, the two files are at one of the run's crash points. */
    method Recompact(env: Env) returns (ok: bool)
      requires Lawful(env) && trace == [(seg, idx)]
      modifies this
      ensures ok <==> Recompacted(env, old(seg), old(idx)).Ok?
      ensures ok ==> idx.Some? && Recompacted(env, old(seg), old(idx)) == Ok(Pair(seg, idx.value))
      ensures !ok ==> seg == old(seg) && idx == old(idx)
      ensures segTmp.None? && idxTmp.None?
      ensures forall i | 0 <= i < |trace| :: CrashPoint(env, old(seg), old(idx), trace[i].0, trace[i].1)
    {
      hide ReadLayout, HealedIdx, TailUnindexed, Lawful, SegBytes, EntriesFrom, Writable, IdxBytes, AllNamed;
      segTmp, idxTmp := None, None;
      ghost var seg0, idx0 := seg, idx;
      var l := ReadSegmentLayout(env, seg);
      if l.Err? {
        return false;
      }
      if l.value.tail.Some? {
        var unindexed := TailIsUnindexed(l.value.tail.value);
        if !unindexed {
          return false;
        }
      }
      if !l.value.hasRows {
        if l.value.tail.Some? {
          Truncate(l.value.tail.value);
        }
        EnsureIdx(l.value.idx);
        return true;
      }
      var chunks := ChunksOf(l.value.records, 0);
      LayoutNamed(env, seg, 0);
      ChunksColumnar(env, l.value.records, 0);
      var es := WriteColumnar(env, chunks);
      if es.Err? {
        segTmp := None;
        return false;
      }
      var b := EncodeIdx(es.value);
      idxTmp := Some(b);
      var back := ReadSegmentLayout(env, segTmp.value);
      if back.Err? || back.value.tail.Some? || back.value.records != l.value.records {
        segTmp, idxTmp := None, None;
        return false;
      }
      assert Recompacted(env, seg0, idx0) == Ok(Pair(segTmp.value, b));
      RenameSeg();
      RenameIdx();
      return true;
    }
  }

  lemma StepBytes(env: Env, chunks: seq<Chunk>, k: nat)
    requires k < |chunks|
    ensures SegBytes(env, chunks, k + 1) == SegBytes(env, chunks, k) + BlockOf(env, chunks[k])
  {
  }

  lemma StepEntries(env: Env, chunks: seq<Chunk>, k: nat)
    requires k < |chunks| && AllNamed(env, chunks)
    ensures EntriesFrom(env, chunks, k)
         == Entries(env, chunks[k].raws, |SegBytes(env, chunks, k)|, Offsets(chunks[k]))
           + EntriesFrom(env, chunks, k + 1)
  {
  }

  lemma LastEntries(env: Env, chunks: seq<Chunk>)
    requires AllNamed(env, chunks)
    ensures EntriesFrom(env, chunks, |chunks|) == []
  {
  }
}
