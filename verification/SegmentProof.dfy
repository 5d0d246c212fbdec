/**
 Written blocks read back, torn ones stop every reader at the same byte, and
 every index entry resolves to the record it was written for.
 */
module SegmentProof {
  import opened Results
  import opened Wire
  import opened Schema
  import opened Columnar
  import opened SegmentSpec

  /** The laws can be met: storing bytes as they are is a compression. */
  lemma StoringIsLawful(crc: Bytes -> u32, prost: Bytes -> Result<MatchRecord>)
    ensures Lawful(Env((level, x) => x, (b, n) => Some(b), crc, prost))
  {
  }

  // ---- words ----

  lemma Pow4()
    ensures Pow256(4) == TWO_32 && Pow256(8) == TWO_64
  {
    assert Pow256(1) == 256 && Pow256(2) == 65536 && Pow256(3) == 16777216;
    assert Pow256(5) == 256 * TWO_32 && Pow256(6) == 65536 * TWO_32 && Pow256(7) == 16777216 * TWO_32;
  }

  lemma WordOf(b: Bytes, at: nat, v: nat)
    requires at + 4 <= |b| && b[at..at + 4] == Le(v, 4) && v < TWO_32
    ensures Word(b, at) == v
  {
    Pow4();
    LeRoundTrip(v, 4);
  }

  /** `part` lies in `file` at `at`. */
  predicate Holds(file: Bytes, at: nat, part: Bytes) {
    at + |part| <= |file| && file[at..at + |part|] == part
  }

  lemma HoldsPart(file: Bytes, at: nat, part: Bytes, i: nat, sub: Bytes)
    requires Holds(file, at, part) && Holds(part, i, sub)
    ensures Holds(file, at + i, sub)
  {
    forall j | 0 <= j < |sub| ensures file[at + i..at + i + |sub|][j] == sub[j] {
      assert file[at..at + |part|][i + j] == part[i + j];
      assert part[i..i + |sub|][j] == sub[j];
    }
  }

  lemma HoldsJoin(a: Bytes, b: Bytes, c: Bytes)
    ensures Holds(a + b + c, |a|, b)
  {
  }

  // ---- rows ----

  lemma {:induction false} RowBufPrefix(raws: seq<Bytes>, m: nat, n: nat)
    requires m < n <= |raws|
    ensures Holds(RowBuf(raws, n), |RowBuf(raws, m)|, RowBytes(raws[m]))
    ensures |RowBuf(raws, m)| + |RowBytes(raws[m])| == |RowBuf(raws, m + 1)| <= |RowBuf(raws, n)|
    decreases n
  {
    hide Holds, RowBytes;
    if n == m + 1 {
      HoldsEnd(RowBuf(raws, m), RowBytes(raws[m]));
    } else {
      RowBufPrefix(raws, m, n - 1);
      HoldsTail(RowBuf(raws, n - 1), RowBytes(raws[n - 1]), |RowBuf(raws, m)|, RowBytes(raws[m]));
    }
  }

  lemma HoldsTail(a: Bytes, b: Bytes, at: nat, part: Bytes)
    requires Holds(a, at, part)
    ensures Holds(a + b, at, part)
  {
    assert (a + b)[at..at + |part|] == a[at..at + |part|];
  }

  lemma RowHead(b: Bytes, at: nat, raw: Bytes)
    requires Holds(b, at, RowBytes(raw)) && |raw| < TWO_32
    ensures at + 4 + |raw| <= |b| && Word(b, at) == |raw| && b[at + 4..at + 4 + |raw|] == raw
  {
    HoldsPart(b, at, RowBytes(raw), 0, Le(|raw|, 4));
    WordOf(b, at, |raw|);
    HoldsPart(b, at, RowBytes(raw), 4, raw);
  }

  /** The row decoder finds every record at exactly the offset the row writer gave it. */
  lemma {:induction false} RowsRoundTrip(raws: seq<Bytes>, i: nat, strict: bool)
    requires i <= |raws| && |RowBuf(raws, |raws|)| < TWO_32
    ensures |RowBuf(raws, i)| <= |RowBuf(raws, |raws|)|
    ensures RowsFrom(RowBuf(raws, |raws|), |RowBuf(raws, i)|, strict) == Ok(Rows(raws[i..], RowOffsets(raws)[i..]))
    decreases |raws| - i
  {
    hide RowBuf, RowBytes, Word, Holds;
    var b := RowBuf(raws, |raws|);
    if i < |raws| {
      RowBufPrefix(raws, i, |raws|);
      RowLength(raws[i]);
      RowHead(b, |RowBuf(raws, i)|, raws[i]);
      RowsRoundTrip(raws, i + 1, strict);
      assert raws[i..] == [raws[i]] + raws[i + 1..];
      assert RowOffsets(raws)[i..] == [|RowBuf(raws, i)|] + RowOffsets(raws)[i + 1..];
    }
  }

  lemma RowLength(raw: Bytes)
    ensures |RowBytes(raw)| == 4 + |raw|
  {
  }

  // ---- frames ----

  lemma HeaderWords(file: Bytes, at: nat, magic: nat, crc: nat, clen: nat, ulen: nat)
    requires Holds(file, at, Header(magic, crc, clen, ulen))
    requires magic < TWO_32 && crc < TWO_32 && clen < TWO_32
    ensures Word(file, at) == magic && Word(file, at + 4) == crc && Word(file, at + 8) == clen
    ensures ulen < TWO_32 ==> Word(file, at + 12) == ulen
  {
    var h := Header(magic, crc, clen, ulen);
    hide Header;
    HeaderParts(magic, crc, clen, ulen);
    HoldsPart(file, at, h, 0, Le(magic, 4));
    HoldsPart(file, at, h, 4, Le(crc, 4));
    HoldsPart(file, at, h, 8, Le(clen, 4));
    HoldsPart(file, at, h, 12, Le(ulen, 4));
    WordOf(file, at, magic);
    WordOf(file, at + 4, crc);
    WordOf(file, at + 8, clen);
    if ulen < TWO_32 {
      WordOf(file, at + 12, ulen);
    }
  }

  lemma HeaderParts(magic: nat, crc: nat, clen: nat, ulen: nat)
    ensures var h := Header(magic, crc, clen, ulen);
            Holds(h, 0, Le(magic, 4)) && Holds(h, 4, Le(crc, 4)) && Holds(h, 8, Le(clen, 4))
              && Holds(h, 12, Le(ulen, 4))
  {
    hide Le;
  }

  lemma FrameParts(env: Env, columnar: bool, level: nat, body: Bytes)
    ensures var packed := env.compress(level, body);
            var b := Frame(env, columnar, level, body);
            && Holds(b, 0, Header(Magic(columnar), env.crc(packed), |packed|, |body|))
            && Holds(b, HEADER_LEN, packed)
  {
    hide Header;
  }

  /** An intact frame within the limits reads back its body. */
  lemma FrameReads(env: Env, file: Bytes, at: nat, columnar: bool, level: nat, body: Bytes, strict: bool)
    requires Lawful(env) && Holds(file, at, Frame(env, columnar, level, body))
    requires |body| <= MAX_BLOCK && |env.compress(level, body)| <= MAX_BLOCK
    ensures ReadBlock(env, file, at, strict)
         == ReadBody(Magic(columnar), body, at, at + |Frame(env, columnar, level, body)|, strict)
  {
    hide Header, Word, ReadBody, Holds;
    var packed := env.compress(level, body);
    FrameParts(env, columnar, level, body);
    FrameInside(env, file, at, columnar, level, body);
    HeaderWords(file, at, Magic(columnar), env.crc(packed), |packed|, |body|);
    assert env.decompress(packed, |body|) == Some(body);
  }

  lemma FrameInside(env: Env, file: Bytes, at: nat, columnar: bool, level: nat, body: Bytes)
    requires Holds(file, at, Frame(env, columnar, level, body))
    ensures var packed := env.compress(level, body);
            && Holds(file, at, Header(Magic(columnar), env.crc(packed), |packed|, |body|))
            && at + HEADER_LEN + |packed| <= |file| && file[at + HEADER_LEN..at + HEADER_LEN + |packed|] == packed
  {
    hide Header;
    var packed := env.compress(level, body);
    FrameParts(env, columnar, level, body);
    var b := Frame(env, columnar, level, body);
    hide Frame;
    HoldsPart(file, at, b, 0, Header(Magic(columnar), env.crc(packed), |packed|, |body|));
    HoldsPart(file, at, b, HEADER_LEN, packed);
  }

  /** A written block within the limits reads back its records, at the offsets its writer indexed. */
  lemma BlockReads(env: Env, file: Bytes, at: nat, c: Chunk, strict: bool)
    requires Lawful(env) && Fits(env, c) && Holds(file, at, BlockOf(env, c))
    ensures ReadBlock(env, file, at, strict) == Good(Block(at, at + |BlockOf(env, c)|, c.columnar, c.raws, Offsets(c)))
  {
    hide Frame, ReadBlock, Pack, Unpack, RowsFrom, Lawful;
    var body := Body(env, c).value;
    FrameReads(env, file, at, c.columnar, c.level, body, strict);
    if c.columnar {
      PackUnpacks(env, c.raws);
    } else {
      RowsRoundTrip(c.raws, 0, strict);
      assert c.raws[0..] == c.raws && RowOffsets(c.raws)[0..] == RowOffsets(c.raws);
    }
  }

  lemma PackUnpacks(env: Env, raws: seq<Bytes>)
    requires Pack(env, raws).Ok?
    ensures Unpack(Pack(env, raws).value) == Ok(raws)
  {
    EncodableRoundTrip(raws, env.prost);
  }

  /** A block over the limit is refused although it was written intact. */
  lemma OversizeRefused(env: Env, file: Bytes, at: nat, c: Chunk, strict: bool)
    requires Body(env, c).Ok? && Holds(file, at, BlockOf(env, c)) && !Fits(env, c)
    requires |Body(env, c).value| < TWO_32 && |env.compress(c.level, Body(env, c).value)| < TWO_32
    ensures ReadBlock(env, file, at, strict) == Invalid(strict)
  {
    hide Frame, Header, Word, Pack, Holds, ReadBody, RowBuf;
    var body := Body(env, c).value;
    var packed := env.compress(c.level, body);
    FrameInside(env, file, at, c.columnar, c.level, body);
    HeaderWords(file, at, Magic(c.columnar), env.crc(packed), |packed|, |body|);
  }

  /** The proper, possibly empty beginning a crash leaves of a block. */
  ghost predicate TornFrom(env: Env, torn: Bytes, c: Chunk) {
    torn == [] ||
    (&& Body(env, c).Ok? && |env.compress(c.level, Body(env, c).value)| < TWO_32
     && |torn| < |BlockOf(env, c)| && torn == BlockOf(env, c)[..|torn|])
  }

  /** No reader takes a torn block for one, nor does the writer that reopens the file. */
  lemma TornStops(env: Env, pre: Bytes, torn: Bytes, c: Chunk, strict: bool)
    requires TornFrom(env, torn, c)
    ensures ReadBlock(env, pre + torn, |pre|, strict) == Invalid(strict)
    ensures Validate(pre + torn, |pre|) == |pre|
  {
    hide Header, Word, Pack, ReadBody, RowBuf;
    var file := pre + torn;
    if |torn| >= HEADER_LEN {
      var body := Body(env, c).value;
      var packed := env.compress(c.level, body);
      var h := Header(Magic(c.columnar), env.crc(packed), |packed|, |body|);
      assert torn[..HEADER_LEN] == h by {
        assert BlockOf(env, c)[..|torn|][..HEADER_LEN] == BlockOf(env, c)[..HEADER_LEN];
      }
      assert file[|pre|..|pre| + HEADER_LEN] == torn[..HEADER_LEN];
      HeaderWords(file, |pre|, Magic(c.columnar), env.crc(packed), |packed|, |body|);
    }
  }

  lemma BlockValid(env: Env, file: Bytes, at: nat, c: Chunk)
    requires Writable(env, c) && Holds(file, at, BlockOf(env, c))
    ensures Validate(file, at) == Validate(file, at + |BlockOf(env, c)|)
    ensures |BlockOf(env, c)| >= HEADER_LEN
  {
    hide Frame, Header, Word, Pack, Holds, RowBuf;
    var body := Body(env, c).value;
    var packed := env.compress(c.level, body);
    FrameInside(env, file, at, c.columnar, c.level, body);
    HeaderWords(file, at, Magic(c.columnar), env.crc(packed), |packed|, |body|);
  }

  // ---- whole segments ----

  lemma {:induction false} SegHolds(env: Env, chunks: seq<Chunk>, k: nat, n: nat)
    requires k < n <= |chunks|
    ensures Holds(SegBytes(env, chunks, n), |SegBytes(env, chunks, k)|, BlockOf(env, chunks[k]))
    ensures |SegBytes(env, chunks, k)| + |BlockOf(env, chunks[k])|
            == |SegBytes(env, chunks, k + 1)| <= |SegBytes(env, chunks, n)|
    decreases n
  {
    hide BlockOf;
    if n == k + 1 {
      HoldsJoin(SegBytes(env, chunks, k), BlockOf(env, chunks[k]), []);
      assert SegBytes(env, chunks, k) + BlockOf(env, chunks[k]) + [] == SegBytes(env, chunks, n);
    } else {
      SegHolds(env, chunks, k, n - 1);
      HoldsTail(SegBytes(env, chunks, n - 1), BlockOf(env, chunks[n - 1]), |SegBytes(env, chunks, k)|,
                BlockOf(env, chunks[k]));
    }
  }

  function RecordsFrom(chunks: seq<Chunk>, k: nat): seq<Bytes>
    requires k <= |chunks|
    decreases |chunks| - k
  {
    if k == |chunks| then [] else chunks[k].raws + RecordsFrom(chunks, k + 1)
  }

  predicate AllNamed(env: Env, chunks: seq<Chunk>) {
    forall k | 0 <= k < |chunks| :: Named(env, chunks[k].raws)
  }

  /** The index the writers of these blocks leave. */
  function EntriesFrom(env: Env, chunks: seq<Chunk>, k: nat): (es: seq<IdxEntry>)
    requires k <= |chunks| && AllNamed(env, chunks)
    decreases |chunks| - k
  {
    if k == |chunks| then []
    else Entries(env, chunks[k].raws, |SegBytes(env, chunks, k)|, Offsets(chunks[k])) + EntriesFrom(env, chunks, k + 1)
  }

  predicate RowsFromChunk(chunks: seq<Chunk>, k: nat) {
    exists j :: k <= j < |chunks| && !chunks[j].columnar
  }

  ghost predicate AllFit(env: Env, chunks: seq<Chunk>) {
    forall k | 0 <= k < |chunks| :: Fits(env, chunks[k])
  }

  ghost predicate AllWritable(env: Env, chunks: seq<Chunk>) {
    forall k | 0 <= k < |chunks| :: Writable(env, chunks[k])
  }

  lemma FitsWritable(env: Env, c: Chunk)
    requires Fits(env, c)
    ensures Writable(env, c)
  {
  }

  lemma AllFitWritable(env: Env, chunks: seq<Chunk>)
    requires AllFit(env, chunks)
    ensures AllWritable(env, chunks)
  {
    hide Fits, Writable;
    forall k | 0 <= k < |chunks| ensures Writable(env, chunks[k]) {
      FitsWritable(env, chunks[k]);
    }
  }

  lemma NoBytes(env: Env, chunks: seq<Chunk>)
    ensures SegBytes(env, chunks, 0) == []
  {
  }

  lemma ChunkHolds(env: Env, chunks: seq<Chunk>, k: nat, torn: Bytes)
    requires k < |chunks|
    ensures var n := |chunks|;
            var at := |SegBytes(env, chunks, k)|;
            && Holds(SegBytes(env, chunks, n) + torn, at, BlockOf(env, chunks[k]))
            && at + |BlockOf(env, chunks[k])| == |SegBytes(env, chunks, k + 1)| <= |SegBytes(env, chunks, n)|
  {
    hide BlockOf, SegBytes;
    SegHolds(env, chunks, k, |chunks|);
    HoldsTail(SegBytes(env, chunks, |chunks|), torn, |SegBytes(env, chunks, k)|, BlockOf(env, chunks[k]));
  }

  lemma {:induction false} ValidateStops(env: Env, chunks: seq<Chunk>, torn: Bytes, c: Chunk, k: nat)
    requires k <= |chunks| && AllWritable(env, chunks) && TornFrom(env, torn, c)
    ensures var seg := SegBytes(env, chunks, |chunks|);
            |SegBytes(env, chunks, k)| <= |seg| && Validate(seg + torn, |SegBytes(env, chunks, k)|) == |seg|
    decreases |chunks| - k
  {
    hide Writable, TornFrom, BlockOf, SegBytes, Validate, Holds;
    if k == |chunks| {
      TornStops(env, SegBytes(env, chunks, k), torn, c, true);
    } else {
      ChunkHolds(env, chunks, k, torn);
      BlockValid(env, SegBytes(env, chunks, |chunks|) + torn, |SegBytes(env, chunks, k)|, chunks[k]);
      ValidateStops(env, chunks, torn, c, k + 1);
    }
  }

  lemma {:induction false} ReadAllStops(env: Env, chunks: seq<Chunk>, torn: Bytes, c: Chunk, k: nat)
    requires Lawful(env) && k <= |chunks| && AllFit(env, chunks) && TornFrom(env, torn, c)
    ensures var seg := SegBytes(env, chunks, |chunks|);
            |SegBytes(env, chunks, k)| <= |seg|
              && ReadAll(env, seg + torn, |SegBytes(env, chunks, k)|) == RecordsFrom(chunks, k)
    decreases |chunks| - k
  {
    hide Fits, TornFrom, BlockOf, SegBytes, Holds, ReadBlock, Lawful;
    if k == |chunks| {
      TornStops(env, SegBytes(env, chunks, k), torn, c, false);
    } else {
      ChunkHolds(env, chunks, k, torn);
      BlockReads(env, SegBytes(env, chunks, |chunks|) + torn, |SegBytes(env, chunks, k)|, chunks[k], false);
      ReadAllStops(env, chunks, torn, c, k + 1);
    }
  }

  lemma {:induction false} LayoutStops(env: Env, chunks: seq<Chunk>, torn: Bytes, c: Chunk, k: nat)
    requires Lawful(env) && k <= |chunks| && AllFit(env, chunks) && AllNamed(env, chunks) && TornFrom(env, torn, c)
    ensures var seg := SegBytes(env, chunks, |chunks|);
            |SegBytes(env, chunks, k)| <= |seg|
            && ReadLayout(env, seg + torn, |SegBytes(env, chunks, k)|)
            == Ok(Layout(RecordsFrom(chunks, k), EntriesFrom(env, chunks, k), RowsFromChunk(chunks, k),
                         if torn == [] then None else Some(|seg|)))
    decreases |chunks| - k
  {
    hide Fits, TornFrom, BlockOf, SegBytes, Holds, ReadBlock, Lawful, Entries;
    var file := SegBytes(env, chunks, |chunks|) + torn;
    if k == |chunks| {
      TornStops(env, SegBytes(env, chunks, k), torn, c, true);
      assert !RowsFromChunk(chunks, k);
    } else {
      ChunkHolds(env, chunks, k, torn);
      BlockReads(env, file, |SegBytes(env, chunks, k)|, chunks[k], true);
      LayoutStops(env, chunks, torn, c, k + 1);
      assert RowsFromChunk(chunks, k) <==> !chunks[k].columnar || RowsFromChunk(chunks, k + 1);
    }
  }

  // ---- a block over the readers' limit ----

  /** The records of the chunks from the `k`-th up to `bad`. */
  function RecordsUpTo(chunks: seq<Chunk>, k: nat, bad: nat): seq<Bytes>
    requires k <= bad <= |chunks|
    decreases bad - k
  {
    if k == bad then [] else chunks[k].raws + RecordsUpTo(chunks, k + 1, bad)
  }

  lemma BlockNotEmpty(env: Env, c: Chunk)
    requires Body(env, c).Ok?
    ensures |BlockOf(env, c)| >= HEADER_LEN
  {
    hide Frame;
  }

  lemma LayoutStep(env: Env, file: Bytes, at: nat)
    requires at < |file|
    ensures var r := ReadBlock(env, file, at, true);
            && (!r.Good? ==> ReadLayout(env, file, at) == Ok(Layout([], [], false, Some(at))))
            && (r.Good? && Named(env, r.block.records) ==>
                  var rest := ReadLayout(env, file, r.block.next);
                  ReadLayout(env, file, at).Ok? == rest.Ok?
                  && (rest.Ok? ==> ReadLayout(env, file, at).value.tail == rest.value.tail))
  {
    hide ReadBlock, Entries;
  }

  lemma AllStep(env: Env, file: Bytes, at: nat)
    requires at < |file|
    ensures var r := ReadBlock(env, file, at, false);
            ReadAll(env, file, at) == if r.Good? then r.block.records + ReadAll(env, file, r.block.next) else []
  {
    hide ReadBlock;
  }

  /** Both readers go past a block that fits. */
  lemma NextBlock(env: Env, chunks: seq<Chunk>, torn: Bytes, k: nat, strict: bool)
    requires Lawful(env) && k < |chunks| && Fits(env, chunks[k])
    ensures |SegBytes(env, chunks, k)| < |SegBytes(env, chunks, k + 1)| <= |SegBytes(env, chunks, |chunks|)|
    ensures var r := ReadBlock(env, SegBytes(env, chunks, |chunks|) + torn, |SegBytes(env, chunks, k)|, strict);
            r.Good? && r.block.next == |SegBytes(env, chunks, k + 1)| && r.block.records == chunks[k].raws
  {
    FitsWritable(env, chunks[k]);
    BlockNotEmpty(env, chunks[k]);
    hide Fits, BlockOf, SegBytes, Holds, ReadBlock, Lawful, Offsets, Body;
    ChunkHolds(env, chunks, k, torn);
    BlockReads(env, SegBytes(env, chunks, |chunks|) + torn, |SegBytes(env, chunks, k)|, chunks[k], strict);
  }

  lemma ReadersPass(env: Env, chunks: seq<Chunk>, torn: Bytes, k: nat)
    requires Lawful(env) && k < |chunks| && Fits(env, chunks[k]) && Named(env, chunks[k].raws)
    ensures |SegBytes(env, chunks, k)| < |SegBytes(env, chunks, k + 1)| <= |SegBytes(env, chunks, |chunks|)|
    ensures var file := SegBytes(env, chunks, |chunks|) + torn;
            var at, next := |SegBytes(env, chunks, k)|, |SegBytes(env, chunks, k + 1)|;
            && ReadLayout(env, file, at).Ok? == ReadLayout(env, file, next).Ok?
            && (ReadLayout(env, file, at).Ok? ==>
                ReadLayout(env, file, at).value.tail == ReadLayout(env, file, next).value.tail)
            && ReadAll(env, file, at) == chunks[k].raws + ReadAll(env, file, next)
  {
    hide Fits, SegBytes, ReadBlock, ReadLayout, ReadAll, Lawful, Named;
    var file := SegBytes(env, chunks, |chunks|) + torn;
    NextBlock(env, chunks, torn, k, true);
    NextBlock(env, chunks, torn, k, false);
    LayoutStep(env, file, |SegBytes(env, chunks, k)|);
    AllStep(env, file, |SegBytes(env, chunks, k)|);
  }

  /** Both end at a block over the limit. */
  lemma ReadersEnd(env: Env, chunks: seq<Chunk>, torn: Bytes, k: nat)
    requires k < |chunks| && Writable(env, chunks[k]) && !Fits(env, chunks[k])
    ensures var file, at := SegBytes(env, chunks, |chunks|) + torn, |SegBytes(env, chunks, k)|;
            && at < |SegBytes(env, chunks, |chunks|)|
            && ReadLayout(env, file, at) == Ok(Layout([], [], false, Some(at))) && ReadAll(env, file, at) == []
  {
    BlockNotEmpty(env, chunks[k]);
    hide Fits, BlockOf, SegBytes, Holds, ReadBlock, ReadLayout, ReadAll, Lawful, Offsets, Body;
    var file := SegBytes(env, chunks, |chunks|) + torn;
    ChunkHolds(env, chunks, k, torn);
    LayoutStep(env, file, |SegBytes(env, chunks, k)|);
    AllStep(env, file, |SegBytes(env, chunks, k)|);
    OversizeRefused(env, file, |SegBytes(env, chunks, k)|, chunks[k], true);
    OversizeRefused(env, file, |SegBytes(env, chunks, k)|, chunks[k], false);
  }

  /** The strict reader takes the first block over the limit for the start of a torn tail, and the tolerant one ends
      there. */
  lemma {:induction false} MisfitStops(env: Env, chunks: seq<Chunk>, torn: Bytes, k: nat, bad: nat)
    requires Lawful(env) && k <= bad < |chunks| && !Fits(env, chunks[bad]) && AllNamed(env, chunks)
             && AllWritable(env, chunks)
    requires forall i | 0 <= i < bad :: Fits(env, chunks[i])
    ensures |SegBytes(env, chunks, k)| <= |SegBytes(env, chunks, |chunks|)|
    ensures var file := SegBytes(env, chunks, |chunks|) + torn;
            var r := ReadLayout(env, file, |SegBytes(env, chunks, k)|);
            && r.Ok? && r.value.tail == Some(|SegBytes(env, chunks, bad)|)
            && ReadAll(env, file, |SegBytes(env, chunks, k)|) == RecordsUpTo(chunks, k, bad)
    ensures |SegBytes(env, chunks, bad)| < |SegBytes(env, chunks, |chunks|)|
    decreases bad - k
  {
    hide Fits, Writable, Named, SegBytes, ReadLayout, ReadAll, Lawful;
    if k == bad {
      ReadersEnd(env, chunks, torn, k);
    } else {
      ReadersPass(env, chunks, torn, k);
      MisfitStops(env, chunks, torn, k + 1, bad);
    }
  }

  lemma {:induction false} FirstMisfit(env: Env, chunks: seq<Chunk>, n: nat) returns (bad: nat)
    requires n <= |chunks| && exists k :: 0 <= k < n && !Fits(env, chunks[k])
    ensures bad < n && !Fits(env, chunks[bad]) && forall i | 0 <= i < bad :: Fits(env, chunks[i])
  {
    hide Fits;
    if exists k :: 0 <= k < n - 1 && !Fits(env, chunks[k]) {
      bad := FirstMisfit(env, chunks, n - 1);
    } else {
      bad := n - 1;
    }
  }

  /** On complete blocks followed by any proper beginning of another, the writer that reopens the file cuts it after
      the last complete block. The strict reader ends there too, and both readers see every record, if and only if no
      block is over the limit: otherwise the strict reader already ends at the first that is, with the writer appending
      behind it. */
  lemma ReadersAgreeIff(env: Env, chunks: seq<Chunk>, torn: Bytes, c: Chunk)
    requires Lawful(env) && AllWritable(env, chunks) && AllNamed(env, chunks) && TornFrom(env, torn, c)
    ensures var seg := SegBytes(env, chunks, |chunks|);
            var l := ReadLayout(env, seg + torn, 0);
            && Validate(seg + torn, 0) == |seg|
            && l.Ok? && (l.value.tail == (if torn == [] then None else Some(|seg|)) <==> AllFit(env, chunks))
            && (AllFit(env, chunks) ==>
                  && ReadAll(env, seg + torn, 0) == RecordsFrom(chunks, 0)
                  && l.value.records == RecordsFrom(chunks, 0) && l.value.idx == EntriesFrom(env, chunks, 0)
                  && (l.value.hasRows <==> RowsFromChunk(chunks, 0)))
  {
    hide TornFrom, Validate, ReadAll, ReadLayout, Lawful, RecordsFrom, EntriesFrom, SegBytes, Fits, AllNamed, Writable;
    NoBytes(env, chunks);
    ValidateStops(env, chunks, torn, c, 0);
    if AllFit(env, chunks) {
      ReadAllStops(env, chunks, torn, c, 0);
      LayoutStops(env, chunks, torn, c, 0);
    } else {
      var bad := FirstMisfit(env, chunks, |chunks|);
      MisfitStops(env, chunks, torn, 0, bad);
    }
  }

  // ---- every index entry resolves ----

  lemma {:induction false} RowOffsetsIncrease(b: Bytes, off: nat, strict: bool)
    requires off <= |b| && RowsFrom(b, off, strict).Ok?
    ensures var offsets := RowsFrom(b, off, strict).value.offsets;
            && (forall i | 0 <= i < |offsets| :: off <= offsets[i])
            && (forall i, j | 0 <= i < j < |offsets| :: offsets[i] < offsets[j])
    decreases |b| - off
  {
    hide Word;
    if off < |b| && off + 4 <= |b| && off + 4 + Word(b, off) <= |b| {
      RowOffsetsIncrease(b, off + 4 + Word(b, off), strict);
    }
  }

  lemma {:induction false} PositionOf(offsets: seq<nat>, j: nat, i: nat)
    requires i <= j < |offsets| && forall a, b | 0 <= a < b < |offsets| :: offsets[a] < offsets[b]
    ensures Position(offsets, offsets[j], i) == Some(j)
    decreases j - i
  {
    if i < j {
      PositionOf(offsets, j, i + 1);
    }
  }

  /** Each record of a block is found at the offset the block lists for it. */
  lemma RecordInBlock(env: Env, file: Bytes, at: nat, j: nat)
    requires var r := ReadBlock(env, file, at, true); r.Good? && j < |r.block.records|
    ensures var b := ReadBlock(env, file, at, true).block; RecordAt(env, file, at, b.offsets[j]) == Ok(b.records[j])
  {
    hide Word, Unpack, RowsFrom;
    var b := ReadBlock(env, file, at, true).block;
    if !b.columnar {
      var body := env.decompress(file[at + HEADER_LEN..b.next], Word(file, at + 12)).value;
      RowOffsetsIncrease(body, 0, true);
      hide ReadBlock;
      PositionOf(b.offsets, j, 0);
    }
  }

  /** On any file at all: every entry of the strict layout resolves through the indexed reader to the record it
      stands for, and carries that record's game id. */
  lemma {:induction false} EntriesResolve(env: Env, file: Bytes, at: nat, i: nat)
    requires at <= |file| && ReadLayout(env, file, at).Ok? && i < |ReadLayout(env, file, at).value.idx|
    ensures var l := ReadLayout(env, file, at).value;
            var e := l.idx[i];
            && RecordAt(env, file, e.blockOff, e.recOff) == Ok(l.records[i])
            && env.prost(l.records[i]).Ok? && env.prost(l.records[i]).value.gameId == e.gameId
    decreases |file| - at
  {
    hide ReadBlock, RecordAt;
    var b := ReadBlock(env, file, at, true).block;
    if i < |b.records| {
      RecordInBlock(env, file, at, i);
    } else {
      EntriesResolve(env, file, b.next, i - |b.records|);
    }
  }

  /** A record resolves by the entry its writer made, in a file of written blocks with or without a torn tail,
      provided its block is within the limits. */
  lemma WrittenResolves(env: Env, chunks: seq<Chunk>, torn: Bytes, k: nat, j: nat)
    requires Lawful(env) && k < |chunks| && Fits(env, chunks[k]) && j < |chunks[k].raws|
    ensures RecordAt(env, SegBytes(env, chunks, |chunks|) + torn, |SegBytes(env, chunks, k)|, Offsets(chunks[k])[j])
         == Ok(chunks[k].raws[j])
  {
    hide BlockOf, SegBytes, Holds, ReadBlock, RecordAt, Fits, Offsets, Lawful;
    var file := SegBytes(env, chunks, |chunks|) + torn;
    ChunkHolds(env, chunks, k, torn);
    BlockReads(env, file, |SegBytes(env, chunks, k)|, chunks[k], true);
    RecordInBlock(env, file, |SegBytes(env, chunks, k)|, j);
  }

  /** A flushed block's entries are the ones a strict pass over the segment finds for it, when the protobuf decoder
      reads back the games' ids and the buffer's length fits 32 bits. */
  lemma WriterIndexIsLayout(env: Env, ids: seq<nat>, raws: seq<Bytes>, at: nat)
    requires |ids| == |raws| && |RowBuf(raws, |raws|)| < TWO_32
    requires forall i | 0 <= i < |raws| :: env.prost(raws[i]).Ok? && env.prost(raws[i]).value.gameId == ids[i]
    ensures PendingEntries(ids, raws, at) == Entries(env, raws, at, Offsets(Chunk(false, WRITER_LEVEL, raws)))
  {
    hide RowBuf;
    forall i | 0 <= i < |raws| ensures |RowBuf(raws, i)| < TWO_32 {
      RowBufPrefix(raws, i, |raws|);
    }
  }

  // ---- the index file ----

  lemma EntryRoundTrip(b: Bytes, i: nat, e: IdxEntry)
    requires IDX_ENTRY_LEN * (i + 1) <= |b| && Holds(b, IDX_ENTRY_LEN * i, EntryBytes(e))
    requires e.gameId < TWO_64 && e.blockOff < TWO_64 && e.recOff < TWO_32
    ensures EntryAt(b, i) == e
  {
    var at := IDX_ENTRY_LEN * i;
    var eb := EntryBytes(e);
    assert Holds(eb, 0, Le(e.gameId, 8)) && Holds(eb, 8, Le(e.blockOff, 8)) && Holds(eb, 16, Le(e.recOff, 4)) by {
      hide Le;
    }
    hide EntryBytes;
    HoldsPart(b, at, eb, 0, Le(e.gameId, 8));
    HoldsPart(b, at, eb, 8, Le(e.blockOff, 8));
    HoldsPart(b, at, eb, 16, Le(e.recOff, 4));
    Pow4();
    LeRoundTrip(e.gameId, 8);
    LeRoundTrip(e.blockOff, 8);
    LeRoundTrip(e.recOff, 4);
    hide Le, UnLe;
  }

  predicate EntryFits(e: IdxEntry) { e.gameId < TWO_64 && e.blockOff < TWO_64 && e.recOff < TWO_32 }

  lemma {:induction false} EntriesInPrefix(a: Bytes, b: Bytes, n: nat)
    requires IDX_ENTRY_LEN * n <= |a|
    ensures EntriesIn(a + b, n) == EntriesIn(a, n)
  {
    hide UnLe;
    if n > 0 {
      EntriesInPrefix(a, b, n - 1);
      var at := IDX_ENTRY_LEN * (n - 1);
      assert (a + b)[at..at + 8] == a[at..at + 8];
      assert (a + b)[at + 8..at + 16] == a[at + 8..at + 16];
      assert (a + b)[at + 16..at + 20] == a[at + 16..at + 20];
    }
  }

  lemma HoldsEnd(a: Bytes, b: Bytes)
    ensures Holds(a + b, |a|, b)
  {
  }

  lemma EntriesInAppend(a: Bytes, e: IdxEntry, n: nat)
    requires |a| == IDX_ENTRY_LEN * n && EntryFits(e)
    ensures EntriesIn(a + EntryBytes(e), n + 1) == EntriesIn(a, n) + [e]
  {
    hide EntryBytes, EntryAt, Holds;
    EntriesInPrefix(a, EntryBytes(e), n);
    HoldsEnd(a, EntryBytes(e));
    EntryRoundTrip(a + EntryBytes(e), n, e);
  }

  lemma {:induction false} EntriesInWritten(es: seq<IdxEntry>, n: nat)
    requires n <= |es| && forall i | 0 <= i < |es| :: EntryFits(es[i])
    ensures EntriesIn(IdxBytes(es, n), n) == es[..n]
  {
    hide EntryBytes, EntriesIn;
    if n == 0 {
      assert EntriesIn([], 0) == [] by { NoEntries(); }
    } else {
      EntriesInWritten(es, n - 1);
      EntriesInAppend(IdxBytes(es, n - 1), es[n - 1], n - 1);
    }
  }

  lemma NoEntries()
    ensures EntriesIn([], 0) == []
  {
  }

  /** The index file reads back the entries written to it. */
  lemma IdxRoundTrip(es: seq<IdxEntry>)
    requires forall i | 0 <= i < |es| :: EntryFits(es[i])
    ensures ParseIdx(IdxBytes(es, |es|)) == Some(es)
  {
    hide IdxBytes, EntriesIn;
    EntriesInWritten(es, |es|);
    assert es[..|es|] == es;
  }

  lemma SliceJoin(b: Bytes, x: nat, y: nat, z: nat)
    requires x <= y <= z <= |b|
    ensures b[x..y] + b[y..z] == b[x..z]
  {
  }

  lemma LeBack(b: Bytes, x: nat, width: nat)
    requires x + width <= |b|
    ensures Le(UnLe(b[x..x + width]), width) == b[x..x + width]
  {
    UnLeRoundTrip(b[x..x + width]);
  }

  lemma EntryBack(b: Bytes, i: nat)
    requires IDX_ENTRY_LEN * (i + 1) <= |b|
    ensures EntryBytes(EntryAt(b, i)) == b[IDX_ENTRY_LEN * i..IDX_ENTRY_LEN * (i + 1)]
  {
    hide UnLe, Le;
    var at := IDX_ENTRY_LEN * i;
    LeBack(b, at, 8);
    LeBack(b, at + 8, 8);
    LeBack(b, at + 16, 4);
    SliceJoin(b, at, at + 8, at + 16);
    SliceJoin(b, at, at + 16, at + 20);
  }

  lemma EntryBackAfter(b: Bytes, n: nat, es: seq<IdxEntry>)
    requires IDX_ENTRY_LEN * (n + 1) <= |b| && |es| == n && IdxBytes(es, n) == b[..IDX_ENTRY_LEN * n]
    ensures IdxBytes(es + [EntryAt(b, n)], n + 1) == b[..IDX_ENTRY_LEN * (n + 1)]
  {
    hide EntryBytes, EntryAt;
    IdxBytesPrefix(es, EntryAt(b, n), n);
    EntryBack(b, n);
    SliceJoin(b, 0, IDX_ENTRY_LEN * n, IDX_ENTRY_LEN * (n + 1));
  }

  lemma {:induction false} EntriesBack(b: Bytes, n: nat)
    requires IDX_ENTRY_LEN * n <= |b|
    ensures IdxBytes(EntriesIn(b, n), n) == b[..IDX_ENTRY_LEN * n]
  {
    hide EntryBytes, EntryAt, IdxBytes;
    if n == 0 {
      assert IdxBytes([], 0) == [] by { NoIdxBytes(); }
    } else {
      EntriesBack(b, n - 1);
      EntryBackAfter(b, n - 1, EntriesIn(b, n - 1));
    }
  }

  lemma NoIdxBytes()
    ensures IdxBytes([], 0) == []
  {
  }

  lemma {:induction false} IdxBytesPrefix(es: seq<IdxEntry>, e: IdxEntry, n: nat)
    requires n <= |es|
    ensures IdxBytes(es + [e], n) == IdxBytes(es, n)
  {
    if n > 0 {
      hide EntryBytes;
      IdxBytesPrefix(es, e, n - 1);
      assert (es + [e])[n - 1] == es[n - 1];
    }
  }

  /** An index file that parses to these entries is, byte for byte, the file that would be written for them. */
  lemma IdxParseUnique(b: Bytes)
    requires ParseIdx(b).Some?
    ensures var es := ParseIdx(b).value; b == IdxBytes(es, |es|)
  {
    hide IdxBytes, EntriesIn;
    EntriesBack(b, |b| / IDX_ENTRY_LEN);
    assert b[..IDX_ENTRY_LEN * (|b| / IDX_ENTRY_LEN)] == b;
  }
}
