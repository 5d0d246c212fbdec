/**
 Segment files as functions on bytes: a sequence of self-describing blocks, each
 holding length-prefixed rows or a columnar payload, and an index of fixed-size
 entries. Compression, checksum and protobuf decoding are parameters.
 */
module SegmentSpec {
  import opened Results
  import opened Wire
  import opened Schema
  import opened ColumnarBlock
  import opened Columnar

  const SEG_MAGIC: nat := 0x4753_4C31
  const COL_MAGIC: nat := 0x4C4F_4331
  const HEADER_LEN: nat := 16
  const IDX_ENTRY_LEN: nat := 20
  const MAX_BLOCK: nat := 256 * 1024 * 1024
  const RECORDS_PER_BLOCK: nat := 6_000
  const RECOMPACT_LEVEL: nat := 19
  const WRITER_LEVEL: nat := 7

  /** `compress` takes the level first, `decompress` the expected size last. */
  datatype Env = Env(
    compress: (nat, Bytes) -> Bytes, decompress: (Bytes, nat) -> Option<Bytes>, crc: Bytes -> u32,
    prost: Bytes -> Result<MatchRecord>)

  /** All that is assumed of compression. */
  ghost predicate Lawful(env: Env) {
    forall level, x :: env.decompress(env.compress(level, x), |x|) == Some(x)
  }

  // ---- blocks ----

  datatype Block = Block(at: nat, next: nat, columnar: bool, records: seq<Bytes>, offsets: seq<nat>)

  /** A strict reader reports a bad block, a tolerant one just finds none. */
  datatype Read = NoBlock | Bad | Good(block: Block)

  function Invalid(strict: bool): Read { if strict then Bad else NoBlock }

  function Word(b: Bytes, at: nat): nat
    requires at + 4 <= |b|
  {
    UnLe(b[at..at + 4])
  }

  predicate Known(magic: nat) { magic == SEG_MAGIC || magic == COL_MAGIC }

  datatype Rows = Rows(records: seq<Bytes>, offsets: seq<nat>)

  /** The rows of a row block from byte `off` on; a tolerant reader keeps the rows before a truncated one. */
  function RowsFrom(b: Bytes, off: nat, strict: bool): (r: Result<Rows>)
    requires off <= |b|
    ensures r.Ok? ==> |r.value.records| == |r.value.offsets|
    ensures !strict ==> r.Ok?
    decreases |b| - off
  {
    if off == |b| then Ok(Rows([], []))
    else if off + 4 > |b| || off + 4 + Word(b, off) > |b| then if strict then Err else Ok(Rows([], []))
    else
      var end := off + 4 + Word(b, off);
      var rest := RowsFrom(b, end, strict);
      if rest.Err? then Err else Ok(Rows([b[off + 4..end]] + rest.value.records, [off] + rest.value.offsets))
  }

  function Ordinals(n: nat): (s: seq<nat>)
    ensures |s| == n && forall i | 0 <= i < n :: s[i] == i
  {
    seq(n, i requires 0 <= i => i)
  }

  function Unpack(payload: Bytes): Result<seq<Bytes>> { DecodeBlock(payload) }

  /** The content of a block whose frame is intact. */
  function ReadBody(magic: nat, body: Bytes, at: nat, next: nat, strict: bool): (r: Read)
    ensures r.Good? ==> r.block.at == at && r.block.next == next && |r.block.records| == |r.block.offsets|
    ensures !strict ==> !r.Bad?
  {
    if magic == SEG_MAGIC then
      var rows := RowsFrom(body, 0, strict);
      if rows.Err? then Bad else Good(Block(at, next, false, rows.value.records, rows.value.offsets))
    else
      var records := Unpack(body);
      if records.Err? then Invalid(strict)
      else Good(Block(at, next, true, records.value, Ordinals(|records.value|)))
  }

  function ReadBlock(env: Env, file: Bytes, at: nat, strict: bool): (r: Read)
    ensures r.Good? ==> r.block.at == at && at + HEADER_LEN <= r.block.next <= |file|
    ensures r.Good? ==> |r.block.records| == |r.block.offsets|
    ensures !strict ==> !r.Bad?
  {
    if at + HEADER_LEN > |file| then Invalid(strict)
    else
      var magic, crc := Word(file, at), Word(file, at + 4);
      var clen, ulen := Word(file, at + 8), Word(file, at + 12);
      var next := at + HEADER_LEN + clen;
      if !Known(magic) || next > |file| || clen > MAX_BLOCK || ulen > MAX_BLOCK then Invalid(strict)
      else
        var packed := file[at + HEADER_LEN..next];
        if env.crc(packed) != crc then Invalid(strict)
        else
          var body := env.decompress(packed, ulen);
          if body.None? || |body.value| != ulen then Invalid(strict)
          else ReadBody(magic, body.value, at, next, strict)
  }

  // ---- the three readers ----

  /** Where a writer reopening the file cuts it: after the last block whose frame is complete. */
  function Validate(file: Bytes, at: nat): (end: nat)
    requires at <= |file|
    ensures at <= end <= |file|
    decreases |file| - at
  {
    if at + HEADER_LEN > |file| then at
    else
      var clen := Word(file, at + 8);
      if !Known(Word(file, at)) || at + HEADER_LEN + clen > |file| then at
      else Validate(file, at + HEADER_LEN + clen)
  }

  /** The tolerant reader: records up to the first block it cannot read. */
  function ReadAll(env: Env, file: Bytes, at: nat): seq<Bytes>
    requires at <= |file|
    decreases |file| - at
  {
    if at == |file| then []
    else
      var r := ReadBlock(env, file, at, false);
      if r.Good? then r.block.records + ReadAll(env, file, r.block.next) else []
  }

  datatype IdxEntry = IdxEntry(gameId: nat, blockOff: nat, recOff: nat)

  /** Game ids of all records can be read. */
  predicate Named(env: Env, raws: seq<Bytes>) {
    forall i | 0 <= i < |raws| :: env.prost(raws[i]).Ok?
  }

  function Entries(env: Env, raws: seq<Bytes>, at: nat, offsets: seq<nat>): (es: seq<IdxEntry>)
    requires Named(env, raws) && |offsets| == |raws|
    ensures |es| == |raws|
  {
    seq(|raws|, i requires 0 <= i < |raws| => IdxEntry(env.prost(raws[i]).value.gameId, at, offsets[i]))
  }

  /** What a strict pass over a segment finds. */
  datatype Layout = Layout(records: seq<Bytes>, idx: seq<IdxEntry>, hasRows: bool, tail: Option<nat>)

  function ReadLayout(env: Env, file: Bytes, at: nat): (r: Result<Layout>)
    requires at <= |file|
    ensures r.Ok? ==> |r.value.idx| == |r.value.records|
    ensures r.Ok? && r.value.tail.Some? ==> at <= r.value.tail.value < |file|
    decreases |file| - at
  {
    if at == |file| then Ok(Layout([], [], false, None))
    else
      var r := ReadBlock(env, file, at, true);
      if !r.Good? then Ok(Layout([], [], false, Some(at)))
      else if !Named(env, r.block.records) then Err
      else
        var rest := ReadLayout(env, file, r.block.next);
        if rest.Err? then Err
        else Ok(Layout(
          r.block.records + rest.value.records,
          Entries(env, r.block.records, at, r.block.offsets) + rest.value.idx,
          !r.block.columnar || rest.value.hasRows, rest.value.tail))
  }

  // ---- the indexed reader ----

  function Position(offsets: seq<nat>, off: nat, i: nat): (r: Option<nat>)
    requires i <= |offsets|
    ensures r.Some? ==> i <= r.value < |offsets| && offsets[r.value] == off
    decreases |offsets| - i
  {
    if i == |offsets| then None else if offsets[i] == off then Some(i) else Position(offsets, off, i + 1)
  }

  /** One record by its index entry. */
  function RecordAt(env: Env, file: Bytes, blockOff: nat, recOff: nat): Result<Bytes> {
    var r := ReadBlock(env, file, blockOff, true);
    if !r.Good? then Err
    else if r.block.columnar then if recOff < |r.block.records| then Ok(r.block.records[recOff]) else Err
    else
      var i := Position(r.block.offsets, recOff, 0);
      if i.Some? then Ok(r.block.records[i.value]) else Err
  }

  // ---- writing ----

  function RowBytes(raw: Bytes): Bytes { Le(|raw|, 4) + raw }

  /** The row writer's buffer after the first `n` records. */
  function RowBuf(raws: seq<Bytes>, n: nat): Bytes
    requires n <= |raws|
  {
    if n == 0 then [] else RowBuf(raws, n - 1) + RowBytes(raws[n - 1])
  }

  function RowOffsets(raws: seq<Bytes>): (s: seq<nat>)
    ensures |s| == |raws|
  {
    seq(|raws|, i requires 0 <= i < |raws| => |RowBuf(raws, i)|)
  }

  function Pack(env: Env, raws: seq<Bytes>): Result<Bytes> {
    if |raws| < TWO_64 && Encodable(raws, env.prost) then Ok(BlockPayload(Decoded(raws, env.prost))) else Err
  }

  /** A block to write: its records, the form and the compression level. */
  datatype Chunk = Chunk(columnar: bool, level: nat, raws: seq<Bytes>)

  function Body(env: Env, c: Chunk): Result<Bytes> {
    if c.columnar then Pack(env, c.raws) else Ok(RowBuf(c.raws, |c.raws|))
  }

  function Offsets(c: Chunk): (s: seq<nat>)
    ensures |s| == |c.raws|
  {
    if c.columnar then Ordinals(|c.raws|) else RowOffsets(c.raws)
  }

  function Magic(columnar: bool): nat { if columnar then COL_MAGIC else SEG_MAGIC }

  /** The four header words, each truncated to 32 bits. */
  function Header(magic: nat, crc: nat, clen: nat, ulen: nat): (h: Bytes)
    ensures |h| == HEADER_LEN
  {
    Le(magic, 4) + Le(crc, 4) + Le(clen, 4) + Le(ulen, 4)
  }

  function Frame(env: Env, columnar: bool, level: nat, body: Bytes): (b: Bytes)
    ensures |b| == HEADER_LEN + |env.compress(level, body)|
  {
    var packed := env.compress(level, body);
    Header(Magic(columnar), env.crc(packed), |packed|, |body|) + packed
  }

  function BlockOf(env: Env, c: Chunk): Bytes {
    var body := Body(env, c);
    if body.Ok? then Frame(env, c.columnar, c.level, body.value) else []
  }

  /** A block the readers accept: it has a body, and neither form is over the limit. */
  predicate Fits(env: Env, c: Chunk) {
    && Body(env, c).Ok?
    && |Body(env, c).value| <= MAX_BLOCK
    && |env.compress(c.level, Body(env, c).value)| <= MAX_BLOCK
  }

  /** A block that has a body, and lengths that fit the header. */
  predicate Writable(env: Env, c: Chunk) {
    && Body(env, c).Ok? && |Body(env, c).value| < TWO_32
    && |env.compress(c.level, Body(env, c).value)| < TWO_32
  }

  /** The first `n` blocks back to back. */
  function SegBytes(env: Env, chunks: seq<Chunk>, n: nat): Bytes
    requires n <= |chunks|
  {
    if n == 0 then [] else SegBytes(env, chunks, n - 1) + BlockOf(env, chunks[n - 1])
  }

  // ---- the index file ----

  function EntryBytes(e: IdxEntry): (b: Bytes)
    ensures |b| == IDX_ENTRY_LEN
  {
    Le(e.gameId, 8) + Le(e.blockOff, 8) + Le(e.recOff, 4)
  }

  function IdxBytes(es: seq<IdxEntry>, n: nat): (b: Bytes)
    requires n <= |es|
    ensures |b| == IDX_ENTRY_LEN * n
  {
    if n == 0 then [] else IdxBytes(es, n - 1) + EntryBytes(es[n - 1])
  }

  /** The index entries a row block's writer makes, its offsets truncated to 32 bits. */
  function PendingEntries(ids: seq<nat>, raws: seq<Bytes>, at: nat): (es: seq<IdxEntry>)
    requires |ids| == |raws|
    ensures |es| == |raws|
  {
    seq(|raws|, i requires 0 <= i < |raws| => IdxEntry(ids[i], at, |RowBuf(raws, i)| % TWO_32))
  }

  function EntryAt(b: Bytes, i: nat): IdxEntry
    requires IDX_ENTRY_LEN * (i + 1) <= |b|
  {
    var at := IDX_ENTRY_LEN * i;
    IdxEntry(UnLe(b[at..at + 8]), UnLe(b[at + 8..at + 16]), UnLe(b[at + 16..at + 20]))
  }

  function EntriesIn(b: Bytes, n: nat): (es: seq<IdxEntry>)
    requires IDX_ENTRY_LEN * n <= |b|
    ensures |es| == n
  {
    if n == 0 then [] else EntriesIn(b, n - 1) + [EntryAt(b, n - 1)]
  }

  /** A file that is not a whole number of entries does not parse. */
  function ParseIdx(b: Bytes): Option<seq<IdxEntry>> {
    if |b| % IDX_ENTRY_LEN != 0 then None else Some(EntriesIn(b, |b| / IDX_ENTRY_LEN))
  }
}
