/**
 Blocks of any size: the header keeps 32 bits of each length, and a block over the
 readers' limit is lost to them. And the index a crash leaves between two appends.
 */
module SegmentLimits {
  import opened Results
  import opened Wire
  import opened Schema
  import opened ColumnarBlock
  import opened SegmentSpec
  import opened SegmentProof

  // ---- what a strict decompressor refuses ----

  /** Compressed data decompresses to what was compressed or, with too little room, to nothing; a proper beginning of it
      decompresses to nothing, an empty one perhaps to no bytes. */
  ghost predicate Strict(env: Env) {
    && (forall level, x, n: nat :: Opened(env.decompress(env.compress(level, x), n), x))
    && (forall level, x, k: nat, n: nat | k < |env.compress(level, x)| ::
          var r := env.decompress(env.compress(level, x)[..k], n);
          r.None? || (k == 0 && r.value == []))
  }

  predicate Opened(r: Option<Bytes>, x: Bytes) {
    r.None? || r.value == x
  }

  /** A compression that meets both laws: every byte behind a one, and a zero at the end. */
  function Stuff(x: Bytes): (b: Bytes)
    ensures |b| == 2 * |x| + 1
  {
    seq(2 * |x| + 1, (i: nat) requires i <= 2 * |x| => if i == 2 * |x| then 0 else if i % 2 == 0 then 1 else x[i / 2])
  }

  predicate Stuffed(b: Bytes) {
    |b| % 2 == 1 && b[|b| - 1] == 0 && forall i | 0 <= i < |b| / 2 :: b[2 * i] == 1
  }

  function Unstuff(b: Bytes): Option<Bytes> {
    if Stuffed(b) then Some(seq(|b| / 2, i requires 0 <= i < |b| / 2 => b[2 * i + 1])) else None
  }

  function Stuffing(crc: Bytes -> u32, prost: Bytes -> Result<MatchRecord>): Env {
    Env((level, x) => Stuff(x), (b, n) => Unstuff(b), crc, prost)
  }

  lemma StuffAt(x: Bytes, i: nat)
    requires i < |x|
    ensures Stuff(x)[2 * i] == 1 && Stuff(x)[2 * i + 1] == x[i]
  {
  }

  lemma IsStuffed(x: Bytes)
    ensures Stuffed(Stuff(x))
  {
    var b := Stuff(x);
    assert b[2 * |x|] == 0;
    hide Stuff;
    forall i | 0 <= i < |b| / 2 ensures b[2 * i] == 1 {
      StuffAt(x, i);
    }
  }

  lemma Unstuffs(x: Bytes)
    ensures Unstuff(Stuff(x)) == Some(x)
  {
    IsStuffed(x);
    var b := Stuff(x);
    var y := Unstuff(b).value;
    hide Stuff, Stuffed;
    forall i | 0 <= i < |x| ensures y[i] == x[i] {
      StuffAt(x, i);
    }
    hide Unstuff;
    assert y == x;
  }

  lemma CutUnstuffs(x: Bytes, k: nat)
    requires k < |Stuff(x)|
    ensures Unstuff(Stuff(x)[..k]).None?
  {
    var b := Stuff(x);
    hide Stuff;
    if k % 2 == 1 {
      StuffAt(x, k / 2);
      assert b[..k][k - 1] == b[2 * (k / 2)];
    }
  }

  lemma StuffingIsStrict(crc: Bytes -> u32, prost: Bytes -> Result<MatchRecord>)
    ensures Lawful(Stuffing(crc, prost)) && Strict(Stuffing(crc, prost))
  {
    var env := Stuffing(crc, prost);
    hide Stuff, Unstuff;
    forall level: nat, x: Bytes ensures env.decompress(env.compress(level, x), |x|) == Some(x) {
      Unstuffs(x);
    }
    forall level: nat, x: Bytes, n: nat ensures Opened(env.decompress(env.compress(level, x), n), x) {
      Unstuffs(x);
    }
    forall level: nat, x: Bytes, k: nat, n: nat | k < |env.compress(level, x)|
      ensures env.decompress(env.compress(level, x)[..k], n).None?
    {
      CutUnstuffs(x, k);
    }
  }

  // ---- truncated lengths ----

  lemma {:induction false} LeTruncates(v: nat, width: nat)
    ensures UnLe(Le(v, width)) == v % Pow256(width)
    decreases width
  {
    if width > 0 {
      LeTruncates(v / 256, width - 1);
      assert Le(v, width)[1..] == Le(v / 256, width - 1);
      ModSplit(v, Pow256(width - 1));
    }
  }

  lemma ModSplit(v: nat, p: nat)
    requires p >= 1
    ensures v % (256 * p) == v % 256 + 256 * ((v / 256) % p)
  {
    var q, r := (v / 256) / p, (v / 256) % p;
    assert v / 256 == q * p + r;
    assert v == 256 * (q * p + r) + v % 256;
    assert 256 * (q * p + r) == q * (256 * p) + 256 * r;
    ModIs(v, 256 * p, q, v % 256 + 256 * r);
  }

  lemma {:induction false} MulOrder(a: nat, b: nat, m: nat)
    ensures a < b ==> a * m + m <= b * m
    decreases b
  {
    if a + 1 < b {
      MulOrder(a, b - 1, m);
      assert b * m == (b - 1) * m + m;
    } else if a + 1 == b {
      assert b * m == a * m + m;
    }
  }

  lemma ModIs(v: nat, m: nat, q: nat, r: nat)
    requires v == q * m + r && r < m
    ensures v % m == r
  {
    MulOrder(v / m, q, m);
    MulOrder(q, v / m, m);
  }

  lemma WordTruncates(b: Bytes, at: nat, v: nat)
    requires Holds(b, at, Le(v, 4))
    ensures Word(b, at) == v % TWO_32
  {
    Pow4();
    LeTruncates(v, 4);
  }

  lemma TruncatedWords(file: Bytes, at: nat, magic: nat, crc: nat, clen: nat, ulen: nat)
    requires Holds(file, at, Header(magic, crc, clen, ulen)) && magic < TWO_32 && crc < TWO_32
    ensures Word(file, at) == magic && Word(file, at + 4) == crc
    ensures Word(file, at + 8) == clen % TWO_32 && Word(file, at + 12) == ulen % TWO_32
  {
    var h := Header(magic, crc, clen, ulen);
    hide Header, Word, Le;
    HeaderParts(magic, crc, clen, ulen);
    HoldsPart(file, at, h, 0, Le(magic, 4));
    HoldsPart(file, at, h, 4, Le(crc, 4));
    HoldsPart(file, at, h, 8, Le(clen, 4));
    HoldsPart(file, at, h, 12, Le(ulen, 4));
    WordTruncates(file, at, magic);
    WordTruncates(file, at + 4, crc);
    WordTruncates(file, at + 8, clen);
    WordTruncates(file, at + 12, ulen);
  }

  // ---- a block over the limit, however long ----

  lemma NothingEncoded()
    ensures DecodeBlock([]).Err?
  {
  }

  lemma StrictOpens(env: Env, level: nat, x: Bytes, k: nat, n: nat)
    requires Strict(env) && k <= |env.compress(level, x)|
    ensures var r := env.decompress(env.compress(level, x)[..k], n);
            r.None? || (if k < |env.compress(level, x)| then k == 0 && r.value == [] else r.value == x)
  {
    var packed := env.compress(level, x);
    assert packed[..|packed|] == packed;
  }

  /** A row block whose truncated header is that of an empty one: its lengths are multiples of 2^32, no bytes have its
      checksum, and they decompress. */
  predicate Vanishes(env: Env, c: Chunk)
    requires Body(env, c).Ok?
  {
    var body := Body(env, c).value;
    var packed := env.compress(c.level, body);
    && !c.columnar && |packed| >= TWO_32 && |packed| % TWO_32 == 0 && |body| % TWO_32 == 0
    && env.crc([]) == env.crc(packed) && env.decompress([], 0) == Some([])
  }

  /** The header's claim of how long the compressed block is. */
  function Claimed(env: Env, c: Chunk): nat
    requires Body(env, c).Ok?
  {
    |env.compress(c.level, Body(env, c).value)| % TWO_32
  }

  /** What a reader makes of a block over the limit: nothing, or an empty block of its header alone. */
  lemma MisfitRead(env: Env, file: Bytes, at: nat, c: Chunk, strict: bool)
    requires Strict(env) && Body(env, c).Ok? && Holds(file, at, BlockOf(env, c)) && !Fits(env, c)
    ensures ReadBlock(env, file, at, strict)
         == if Vanishes(env, c) then Good(Block(at, at + HEADER_LEN, false, [], [])) else Invalid(strict)
  {
    var body := Body(env, c).value;
    var packed := env.compress(c.level, body);
    if |body| < TWO_32 && |packed| < TWO_32 {
      hide ReadBlock, Holds;
      OversizeRefused(env, file, at, c, strict);
    } else {
      hide Body, Fits, Frame;
      assert BlockOf(env, c) == Frame(env, c.columnar, c.level, body);
      hide BlockOf;
      TruncatedRead(env, file, at, c, body, strict);
    }
  }

  lemma TruncatedRead(env: Env, file: Bytes, at: nat, c: Chunk, body: Bytes, strict: bool)
    requires Strict(env) && Body(env, c) == Ok(body) && Holds(file, at, Frame(env, c.columnar, c.level, body))
    requires |body| >= TWO_32 || |env.compress(c.level, body)| >= TWO_32
    ensures ReadBlock(env, file, at, strict)
         == if Vanishes(env, c) then Good(Block(at, at + HEADER_LEN, false, [], [])) else Invalid(strict)
  {
    hide Frame, Header, Word, Holds, ReadBody, Strict, Body;
    var packed := env.compress(c.level, body);
    FrameInside(env, file, at, c.columnar, c.level, body);
    TruncatedWords(file, at, Magic(c.columnar), env.crc(packed), |packed|, |body|);
    var clen, ulen := |packed| % TWO_32, |body| % TWO_32;
    var next := at + HEADER_LEN + clen;
    assert file[at + HEADER_LEN..next] == packed[..clen];
    StrictOpens(env, c.level, body, clen, ulen);
    NoBody(Magic(c.columnar), at, next, strict);
    assert clen == 0 ==> packed[..clen] == [];
  }

  lemma NoBody(magic: nat, at: nat, next: nat, strict: bool)
    requires Known(magic)
    ensures ReadBody(magic, [], at, next, strict)
         == if magic == SEG_MAGIC then Good(Block(at, next, false, [], [])) else Invalid(strict)
  {
    hide DecodeBlock;
    if magic == COL_MAGIC {
      NothingEncoded();
    }
  }

  /** In a block over the limit no reader finds a record, whatever 32 bits the header has kept of its lengths. */
  lemma OversizeUnread(env: Env, file: Bytes, at: nat, c: Chunk, strict: bool)
    requires Strict(env) && Body(env, c).Ok? && Holds(file, at, BlockOf(env, c)) && !Fits(env, c)
    ensures var r := ReadBlock(env, file, at, strict); r == Invalid(strict) || (r.Good? && r.block.records == [])
  {
    hide ReadBlock, Holds, BlockOf, Fits, Body, Strict;
    MisfitRead(env, file, at, c, strict);
  }

  /** An entry resolves to its record if and only if the record's block is within the limits, for blocks of any size:
      the row writer checks neither limit, nor that the lengths fit the header. */
  lemma WrittenResolvesIff(env: Env, chunks: seq<Chunk>, torn: Bytes, k: nat, j: nat)
    requires Lawful(env) && Strict(env) && k < |chunks| && j < |chunks[k].raws| && Body(env, chunks[k]).Ok?
    ensures Fits(env, chunks[k]) <==>
            RecordAt(env, SegBytes(env, chunks, |chunks|) + torn, |SegBytes(env, chunks, k)|, Offsets(chunks[k])[j])
              == Ok(chunks[k].raws[j])
  {
    hide BlockOf, SegBytes, Holds, ReadBlock, Body, Fits, Offsets, Lawful, Strict;
    if Fits(env, chunks[k]) {
      hide RecordAt;
      WrittenResolves(env, chunks, torn, k, j);
    } else {
      ChunkHolds(env, chunks, k, torn);
      OversizeUnread(env, SegBytes(env, chunks, |chunks|) + torn, |SegBytes(env, chunks, k)|, chunks[k], true);
    }
  }

  /** One record of zeros, too large for a block: its writer's entry does not resolve. From 2^32 bytes on the header no
      longer holds its length either. */
  lemma LargeRecordLost(crc: Bytes -> u32, prost: Bytes -> Result<MatchRecord>, level: nat, size: nat)
    requires size + 4 > MAX_BLOCK
    ensures var raw: Bytes := seq(size, _ => 0);
            var env, c := Stuffing(crc, prost), Chunk(false, level, [raw]);
            RecordAt(env, BlockOf(env, c), 0, Offsets(c)[0]) != Ok(raw)
  {
    hide Stuffing, Frame, RecordAt, ReadBlock, Le;
    var raw: Bytes := seq(size, _ => 0);
    var env, c := Stuffing(crc, prost), Chunk(false, level, [raw]);
    StuffingIsStrict(crc, prost);
    OneRow(raw);
    hide Stuff, Lawful, Strict, RowBuf;
    assert !Fits(env, c);
    OneBlock(env, c);
    hide Body, Offsets, Fits, BlockOf;
    WrittenResolvesIff(env, [c], [], 0, 0);
  }

  lemma OneRow(raw: Bytes)
    ensures |RowBuf([raw], 1)| == |raw| + 4
  {
    assert RowBuf([raw], 0) == [];
  }

  lemma OneBlock(env: Env, c: Chunk)
    ensures SegBytes(env, [c], 0) == [] && SegBytes(env, [c], |[c]|) + [] == BlockOf(env, c)
  {
    hide BlockOf;
    NoBytes(env, [c]);
  }

  // ---- where the readers and a reopening writer end ----

  /** The writer that reopens the file goes on as far past a block as its header says. */
  lemma ValidatePast(env: Env, file: Bytes, at: nat, c: Chunk)
    requires Body(env, c).Ok? && Holds(file, at, BlockOf(env, c))
    ensures at + HEADER_LEN + Claimed(env, c) <= |file|
    ensures Validate(file, at) == Validate(file, at + HEADER_LEN + Claimed(env, c))
  {
    hide Frame, Header, Word, Pack, Holds, RowBuf;
    var body := Body(env, c).value;
    var packed := env.compress(c.level, body);
    FrameInside(env, file, at, c.columnar, c.level, body);
    TruncatedWords(file, at, Magic(c.columnar), env.crc(packed), |packed|, |body|);
  }

  lemma TornHeader(env: Env, pre: Bytes, torn: Bytes, c: Chunk)
    requires Body(env, c).Ok? && HEADER_LEN <= |torn| < |BlockOf(env, c)| && torn == BlockOf(env, c)[..|torn|]
    ensures var packed := env.compress(c.level, Body(env, c).value);
            Holds(pre + torn, |pre|, Header(Magic(c.columnar), env.crc(packed), |packed|, |Body(env, c).value|))
  {
    hide Header, Body;
    var h := BlockOf(env, c)[..HEADER_LEN];
    assert torn[..HEADER_LEN] == h;
    assert (pre + torn)[|pre|..|pre| + HEADER_LEN] == torn[..HEADER_LEN];
  }

  /** At a beginning of a block it stops, unless there are as many bytes as the header says. */
  lemma ValidateTorn(env: Env, pre: Bytes, torn: Bytes, c: Chunk)
    requires Body(env, c).Ok? && |torn| < |BlockOf(env, c)| && torn == BlockOf(env, c)[..|torn|]
    ensures Validate(pre + torn, |pre|)
         == if |torn| < HEADER_LEN + Claimed(env, c) then |pre|
            else Validate(pre + torn, |pre| + HEADER_LEN + Claimed(env, c))
  {
    hide Header, Word, Body, BlockOf, Holds;
    if |torn| >= HEADER_LEN {
      TornHeader(env, pre, torn, c);
      var body := Body(env, c).value;
      var packed := env.compress(c.level, body);
      TruncatedWords(pre + torn, |pre|, Magic(c.columnar), env.crc(packed), |packed|, |body|);
    }
  }

  ghost predicate AllBodied(env: Env, chunks: seq<Chunk>) {
    forall k | 0 <= k < |chunks| :: Body(env, chunks[k]).Ok?
  }

  lemma {:induction false} ValidateUpTo(env: Env, chunks: seq<Chunk>, torn: Bytes, k: nat, bad: nat)
    requires k <= bad <= |chunks| && forall i | 0 <= i < bad :: Fits(env, chunks[i])
    ensures |SegBytes(env, chunks, k)| <= |SegBytes(env, chunks, bad)| <= |SegBytes(env, chunks, |chunks|)|
    ensures var file := SegBytes(env, chunks, |chunks|) + torn;
            Validate(file, |SegBytes(env, chunks, k)|) == Validate(file, |SegBytes(env, chunks, bad)|)
    decreases bad - k
  {
    hide Fits, BlockOf, SegBytes, Validate, Holds, Writable;
    SegInside(env, chunks, bad);
    if k < bad {
      ChunkHolds(env, chunks, k, torn);
      FitsWritable(env, chunks[k]);
      BlockValid(env, SegBytes(env, chunks, |chunks|) + torn, |SegBytes(env, chunks, k)|, chunks[k]);
      ValidateUpTo(env, chunks, torn, k + 1, bad);
    }
  }

  lemma SegInside(env: Env, chunks: seq<Chunk>, k: nat)
    requires k <= |chunks|
    ensures |SegBytes(env, chunks, k)| <= |SegBytes(env, chunks, |chunks|)|
  {
    hide BlockOf, Holds;
    if k < |chunks| {
      SegHolds(env, chunks, k, |chunks|);
    }
  }

  lemma {:induction false} ReadersUpTo(env: Env, chunks: seq<Chunk>, torn: Bytes, k: nat, bad: nat)
    requires Lawful(env) && k <= bad < |chunks| && AllNamed(env, chunks)
    requires forall i | 0 <= i < bad :: Fits(env, chunks[i])
    ensures |SegBytes(env, chunks, k)| <= |SegBytes(env, chunks, bad)| <= |SegBytes(env, chunks, |chunks|)|
    ensures var file := SegBytes(env, chunks, |chunks|) + torn;
            var at, end := |SegBytes(env, chunks, k)|, |SegBytes(env, chunks, bad)|;
            && ReadLayout(env, file, at).Ok? == ReadLayout(env, file, end).Ok?
            && (ReadLayout(env, file, at).Ok? ==>
                  ReadLayout(env, file, at).value.tail == ReadLayout(env, file, end).value.tail)
            && ReadAll(env, file, at) == RecordsUpTo(chunks, k, bad) + ReadAll(env, file, end)
    decreases bad - k
  {
    hide Fits, Named, SegBytes, ReadLayout, ReadAll, Lawful;
    SegInside(env, chunks, bad);
    if k < bad {
      ReadersPass(env, chunks, torn, k);
      ReadersUpTo(env, chunks, torn, k + 1, bad);
    }
  }

  /** Both readers end at a block over the limit that does not vanish. */
  lemma ReadersEndAt(env: Env, chunks: seq<Chunk>, torn: Bytes, k: nat)
    requires Strict(env) && k < |chunks| && Body(env, chunks[k]).Ok?
    requires !Fits(env, chunks[k]) && !Vanishes(env, chunks[k])
    ensures var file, at := SegBytes(env, chunks, |chunks|) + torn, |SegBytes(env, chunks, k)|;
            && at < |SegBytes(env, chunks, |chunks|)|
            && ReadLayout(env, file, at) == Ok(Layout([], [], false, Some(at))) && ReadAll(env, file, at) == []
  {
    BlockNotEmpty(env, chunks[k]);
    hide Fits, BlockOf, SegBytes, Holds, ReadBlock, ReadLayout, ReadAll, Strict, Offsets, Body, Vanishes;
    var file := SegBytes(env, chunks, |chunks|) + torn;
    ChunkHolds(env, chunks, k, torn);
    LayoutStep(env, file, |SegBytes(env, chunks, k)|);
    AllStep(env, file, |SegBytes(env, chunks, k)|);
    MisfitRead(env, file, |SegBytes(env, chunks, k)|, chunks[k], true);
    MisfitRead(env, file, |SegBytes(env, chunks, k)|, chunks[k], false);
  }

  /** The chunks before the first that is over the limit. */
  ghost predicate FirstBad(env: Env, chunks: seq<Chunk>, bad: nat) {
    && bad <= |chunks| && (forall i | 0 <= i < bad :: Fits(env, chunks[i]))
    && (bad < |chunks| ==> !Fits(env, chunks[bad]))
  }

  lemma FindBad(env: Env, chunks: seq<Chunk>) returns (bad: nat)
    ensures FirstBad(env, chunks, bad)
  {
    hide Fits;
    if exists k :: 0 <= k < |chunks| && !Fits(env, chunks[k]) {
      bad := FirstMisfit(env, chunks, |chunks|);
    } else {
      bad := |chunks|;
    }
  }

  /** Blocks of any size, followed by any beginning of another. With none over the limit, the reopening writer and both
      readers end after the last complete block. Otherwise the readers end at the first that is over the limit, unless
      it vanishes, and the writer goes on from as far behind its start as the truncated header says. */
  lemma EndsAnySize(env: Env, chunks: seq<Chunk>, torn: Bytes, c: Chunk, bad: nat)
    requires Lawful(env) && Strict(env) && AllBodied(env, chunks) && AllNamed(env, chunks) && TornFrom(env, torn, c)
    requires FirstBad(env, chunks, bad)
    ensures var seg, end := SegBytes(env, chunks, |chunks|), |SegBytes(env, chunks, bad)|;
            var l := ReadLayout(env, seg + torn, 0);
            if bad == |chunks| then
              && Validate(seg + torn, 0) == |seg| && ReadAll(env, seg + torn, 0) == RecordsFrom(chunks, 0)
              && l.Ok? && l.value.records == RecordsFrom(chunks, 0)
              && l.value.tail == (if torn == [] then None else Some(|seg|))
            else
              && end + HEADER_LEN + Claimed(env, chunks[bad]) <= |seg|
              && Validate(seg + torn, 0) == Validate(seg + torn, end + HEADER_LEN + Claimed(env, chunks[bad]))
              && (!Vanishes(env, chunks[bad]) ==>
                    l.Ok? && l.value.tail == Some(end) && ReadAll(env, seg + torn, 0) == RecordsUpTo(chunks, 0, bad))
  {
    hide TornFrom, Validate, ReadAll, ReadLayout, Lawful, Strict, RecordsFrom, EntriesFrom, SegBytes, Fits, AllNamed,
         Writable, RecordsUpTo, Vanishes, Claimed, Body;
    NoBytes(env, chunks);
    if bad == |chunks| {
      AllFitWritable(env, chunks);
      ReadersAgreeIff(env, chunks, torn, c);
    } else {
      ValidateUpTo(env, chunks, torn, 0, bad);
      ValidateAtBad(env, chunks, torn, bad);
      if !Vanishes(env, chunks[bad]) {
        ReadersUpTo(env, chunks, torn, 0, bad);
        ReadersEndAt(env, chunks, torn, bad);
      }
    }
  }

  lemma ValidateAtBad(env: Env, chunks: seq<Chunk>, torn: Bytes, k: nat)
    requires k < |chunks| && Body(env, chunks[k]).Ok?
    ensures var file, at := SegBytes(env, chunks, |chunks|) + torn, |SegBytes(env, chunks, k)|;
            && at + HEADER_LEN + Claimed(env, chunks[k]) <= |SegBytes(env, chunks, |chunks|)|
            && Validate(file, at) == Validate(file, at + HEADER_LEN + Claimed(env, chunks[k]))
  {
    hide SegBytes, Validate, Holds, BlockOf, Body, Claimed;
    var at := |SegBytes(env, chunks, k)|;
    ChunkHolds(env, chunks, k, torn);
    ValidatePast(env, SegBytes(env, chunks, |chunks|) + torn, at, chunks[k]);
    BlockLength(env, chunks[k]);
  }

  lemma BlockLength(env: Env, c: Chunk)
    requires Body(env, c).Ok?
    ensures |BlockOf(env, c)| >= HEADER_LEN + Claimed(env, c)
  {
    hide Frame, Body;
  }

  // ---- the index a crash leaves ----

  lemma {:induction false} IdxBytesJoin(a: seq<IdxEntry>, b: seq<IdxEntry>, n: nat)
    requires n <= |b|
    ensures IdxBytes(a + b, |a| + n) == IdxBytes(a, |a|) + IdxBytes(b, n)
  {
    hide EntryBytes;
    if n == 0 {
      IdxBytesOf(a, b, |a|);
      NoIdxBytes();
    } else {
      IdxBytesJoin(a, b, n - 1);
      assert (a + b)[|a| + n - 1] == b[n - 1];
    }
  }

  lemma {:induction false} IdxBytesOf(a: seq<IdxEntry>, b: seq<IdxEntry>, n: nat)
    requires n <= |a|
    ensures IdxBytes(a + b, n) == IdxBytes(a, n)
  {
    hide EntryBytes;
    if n > 0 {
      IdxBytesOf(a, b, n - 1);
    }
  }

  /** The first bytes of an index, a whole number of entries, are the index of the first entries. */
  lemma IdxBytesTake(es: seq<IdxEntry>, n: nat)
    requires n <= |es|
    ensures IdxBytes(es, |es|)[..IDX_ENTRY_LEN * n] == IdxBytes(es[..n], n)
  {
    hide IdxBytes;
    var head, tail := es[..n], es[n..];
    assert head + tail == es;
    IdxBytesJoin(head, tail, |tail|);
    TakeHead(IdxBytes(head, n), IdxBytes(tail, |tail|));
  }

  lemma TakeHead(a: Bytes, b: Bytes)
    ensures (a + b)[..|a|] == a
  {
  }

  /** One index append, of which a crash left the first `cut` bytes; a whole one has them all. */
  datatype Append = Append(entries: seq<IdxEntry>, cut: nat) {
    predicate Ok() { cut <= IDX_ENTRY_LEN * |entries| }

    predicate Fits() { forall i | 0 <= i < |entries| :: EntryFits(entries[i]) }

    /** The cut fell between two entries. */
    predicate Whole() { cut % IDX_ENTRY_LEN == 0 }

    function Bytes(): Bytes
      requires Ok()
    {
      IdxBytes(entries, |entries|)[..cut]
    }

    /** The entries left whole. */
    function Left(): (es: seq<IdxEntry>)
      requires Ok()
      ensures |es| == cut / IDX_ENTRY_LEN
    {
      entries[..cut / IDX_ENTRY_LEN]
    }
  }

  predicate AllOk(appends: seq<Append>) {
    forall i | 0 <= i < |appends| :: appends[i].Ok()
  }

  predicate AllFitting(appends: seq<Append>) {
    forall i | 0 <= i < |appends| :: appends[i].Fits()
  }

  predicate AllWhole(appends: seq<Append>, n: nat)
    requires n <= |appends|
  {
    forall i | 0 <= i < n :: appends[i].Whole()
  }

  /** The index file after the first `n` appends: reopening never cuts it. */
  function IndexFile(appends: seq<Append>, n: nat): Bytes
    requires n <= |appends| && AllOk(appends)
  {
    if n == 0 then [] else IndexFile(appends, n - 1) + appends[n - 1].Bytes()
  }

  function AllLeft(appends: seq<Append>, n: nat): seq<IdxEntry>
    requires n <= |appends| && AllOk(appends)
  {
    if n == 0 then [] else AllLeft(appends, n - 1) + appends[n - 1].Left()
  }

  /** The file is as long as its whole entries if and only if no append was cut inside one. */
  lemma {:induction false} FileLength(appends: seq<Append>, n: nat)
    requires n <= |appends| && AllOk(appends)
    ensures |IndexFile(appends, n)| >= IDX_ENTRY_LEN * |AllLeft(appends, n)|
    ensures |IndexFile(appends, n)| == IDX_ENTRY_LEN * |AllLeft(appends, n)| <==> AllWhole(appends, n)
  {
    hide IdxBytes;
    if n > 0 {
      FileLength(appends, n - 1);
      var cut := appends[n - 1].cut;
      assert cut == IDX_ENTRY_LEN * (cut / IDX_ENTRY_LEN) + cut % IDX_ENTRY_LEN;
      assert AllWhole(appends, n) <==> AllWhole(appends, n - 1) && appends[n - 1].Whole();
    }
  }

  lemma WholeBytes(a: Append)
    requires a.Ok() && a.Whole()
    ensures a.Bytes() == IdxBytes(a.Left(), |a.Left()|)
  {
    IdxBytesTake(a.entries, a.cut / IDX_ENTRY_LEN);
  }

  lemma {:induction false} WholeFile(appends: seq<Append>, n: nat)
    requires n <= |appends| && AllOk(appends) && AllFitting(appends) && AllWhole(appends, n)
    ensures IndexFile(appends, n) == IdxBytes(AllLeft(appends, n), |AllLeft(appends, n)|)
    ensures forall i | 0 <= i < |AllLeft(appends, n)| :: EntryFits(AllLeft(appends, n)[i])
  {
    hide IdxBytes, EntryFits;
    if n == 0 {
      NoIdxBytes();
    } else {
      WholeFile(appends, n - 1);
      var a := appends[n - 1];
      WholeBytes(a);
      IdxBytesJoin(AllLeft(appends, n - 1), a.Left(), |a.Left()|);
    }
  }

  /** After any number of appends, each cut short by a crash or not: the index parses to exactly the entries left whole
      if and only if no append was cut inside an entry. */
  lemma CrashedParsesIff(appends: seq<Append>)
    requires AllOk(appends) && AllFitting(appends)
    ensures ParseIdx(IndexFile(appends, |appends|)) == Some(AllLeft(appends, |appends|))
       <==> AllWhole(appends, |appends|)
  {
    hide IdxBytes, EntriesIn, IndexFile, AllLeft;
    FileLength(appends, |appends|);
    if AllWhole(appends, |appends|) {
      WholeFile(appends, |appends|);
      IdxRoundTrip(AllLeft(appends, |appends|));
    }
  }

  /** It does not parse at all if and only if the lengths left do not add up to whole entries. */
  lemma {:induction false} CrashedRefusedIff(appends: seq<Append>)
    requires AllOk(appends)
    ensures ParseIdx(IndexFile(appends, |appends|)).None? <==> Cuts(appends, |appends|) % IDX_ENTRY_LEN != 0
  {
    hide IdxBytes, EntriesIn;
    CutsAre(appends, |appends|);
  }

  function Cuts(appends: seq<Append>, n: nat): nat
    requires n <= |appends|
  {
    if n == 0 then 0 else Cuts(appends, n - 1) + appends[n - 1].cut
  }

  lemma {:induction false} CutsAre(appends: seq<Append>, n: nat)
    requires n <= |appends| && AllOk(appends)
    ensures |IndexFile(appends, n)| == Cuts(appends, n)
  {
    hide IdxBytes;
    if n > 0 {
      CutsAre(appends, n - 1);
    }
  }

  lemma {:induction false} LeftAreWritten(appends: seq<Append>, n: nat, e: IdxEntry)
    requires n <= |appends| && AllOk(appends) && e in AllLeft(appends, n)
    ensures exists i :: 0 <= i < n && e in appends[i].entries
  {
    if e !in appends[n - 1].Left() {
      LeftAreWritten(appends, n - 1, e);
    }
  }

  // ---- two cuts ----

  /** What two cuts, 12 bytes of one entry and 8 of another, are read as. */
  function Spliced(a: IdxEntry, b: IdxEntry): IdxEntry {
    IdxEntry(a.gameId, a.blockOff % TWO_32 + TWO_32 * (b.gameId % TWO_32), b.gameId / TWO_32)
  }

  function TwoCuts(a: IdxEntry, b: IdxEntry): seq<Append> {
    [Append([a], 12), Append([b], 8)]
  }

  lemma {:induction false} UnLeJoin(a: Bytes, b: Bytes)
    ensures UnLe(a + b) == UnLe(a) + Pow256(|a|) * UnLe(b)
    decreases |a|
  {
    if a == [] {
      assert [] + b == b;
    } else {
      UnLeJoin(a[1..], b);
      assert (a + b)[1..] == a[1..] + b;
      Regroup(Pow256(|a| - 1), UnLe(b));
    }
  }

  lemma Regroup(p: nat, u: nat)
    ensures 256 * (p * u) == (256 * p) * u
  {
  }

  lemma Quotient(v: nat, lo: nat, hi: nat)
    requires v == lo + TWO_32 * hi && lo < TWO_32
    ensures v % TWO_32 == lo && v / TWO_32 == hi
  {
  }

  lemma FourBytes(b: Bytes)
    requires |b| == 4
    ensures UnLe(b) < TWO_32
  {
    Pow4();
    UnLeRoundTrip(b);
    hide Le, UnLe, Pow256;
  }

  /** The two halves of eight bytes. */
  lemma Halves(v: nat)
    requires v < TWO_64
    ensures UnLe(Le(v, 8)[..4]) == v % TWO_32 && UnLe(Le(v, 8)[4..]) == v / TWO_32
  {
    Pow4();
    hide Pow256;
    LeRoundTrip(v, 8);
    var b := Le(v, 8);
    hide Le, UnLe;
    var lo, hi := b[..4], b[4..];
    assert lo + hi == b;
    UnLeJoin(lo, hi);
    FourBytes(lo);
    Quotient(v, UnLe(lo), UnLe(hi));
  }

  lemma SplicedBytes(a: IdxEntry, b: IdxEntry)
    ensures var f := EntryBytes(a)[..12] + EntryBytes(b)[..8];
            && |f| == 20 && f[0..8] == Le(a.gameId, 8)
            && f[8..16] == Le(a.blockOff, 8)[..4] + Le(b.gameId, 8)[..4] && f[16..20] == Le(b.gameId, 8)[4..]
  {
    hide Le;
  }

  lemma TwoCutsBytes(a: IdxEntry, b: IdxEntry)
    requires EntryFits(a) && EntryFits(b)
    ensures AllOk(TwoCuts(a, b))
    ensures IndexFile(TwoCuts(a, b), 2) == EntryBytes(a)[..12] + EntryBytes(b)[..8]
  {
    hide EntryBytes;
    var appends := TwoCuts(a, b);
    assert IdxBytes([a], 0) == [] && IdxBytes([b], 0) == [];
    assert [] + EntryBytes(a) == EntryBytes(a) && [] + EntryBytes(b) == EntryBytes(b);
    assert appends[0].Bytes() == EntryBytes(a)[..12] && appends[1].Bytes() == EntryBytes(b)[..8];
    assert IndexFile(appends, 0) == [];
    assert IndexFile(appends, 1) == EntryBytes(a)[..12];
  }

  /** Bytes laid out so are that entry. */
  lemma SplicedEntry(f: Bytes, a: IdxEntry, b: IdxEntry)
    requires EntryFits(a) && EntryFits(b) && |f| == 20 && f[0..8] == Le(a.gameId, 8)
    requires f[8..16] == Le(a.blockOff, 8)[..4] + Le(b.gameId, 8)[..4] && f[16..20] == Le(b.gameId, 8)[4..]
    ensures IdxEntry(UnLe(f[0..8]), UnLe(f[8..16]), UnLe(f[16..20])) == Spliced(a, b)
  {
    Pow4();
    hide Pow256;
    LeRoundTrip(a.gameId, 8);
    hide Le, UnLe;
    Halves(a.blockOff);
    Halves(b.gameId);
    UnLeJoin(Le(a.blockOff, 8)[..4], Le(b.gameId, 8)[..4]);
  }

  /** Two cuts that make up the length of an entry: the index parses, to one entry put together from both. */
  lemma TwoCutsParse(a: IdxEntry, b: IdxEntry)
    requires EntryFits(a) && EntryFits(b)
    ensures AllOk(TwoCuts(a, b)) && ParseIdx(IndexFile(TwoCuts(a, b), 2)) == Some([Spliced(a, b)])
  {
    TwoCutsBytes(a, b);
    SplicedBytes(a, b);
    var f := IndexFile(TwoCuts(a, b), 2);
    hide Le, UnLe, EntryBytes, IndexFile, ParseIdx, Spliced;
    OneParsed(f);
    SplicedEntry(f, a, b);
  }

  lemma OneParsed(f: Bytes)
    requires |f| == 20
    ensures ParseIdx(f) == Some([IdxEntry(UnLe(f[0..8]), UnLe(f[8..16]), UnLe(f[16..20]))])
  {
    hide UnLe;
    assert EntriesIn(f, 0) == [];
    assert EntriesIn(f, 1) == [EntryAt(f, 0)];
  }

  /** An entry nobody wrote: its game starts no block at its offset, for any second entry of a game above 2^32. */
  lemma SplicedIsNew(a: IdxEntry, b: IdxEntry)
    requires a.blockOff < TWO_32 && b.blockOff < TWO_32 && b.gameId % TWO_32 != 0
    ensures Spliced(a, b) != a && Spliced(a, b) != b && Spliced(a, b).blockOff >= TWO_32
  {
  }

  /** The indexed reader finds a record of the entry's game. */
  predicate Resolves(env: Env, file: Bytes, e: IdxEntry) {
    var r := RecordAt(env, file, e.blockOff, e.recOff);
    r.Ok? && env.prost(r.value).Ok? && env.prost(r.value).value.gameId == e.gameId
  }

  lemma WriterEntryResolves(env: Env, chunks: seq<Chunk>, torn: Bytes, c: Chunk, e: IdxEntry)
    requires Lawful(env) && AllFit(env, chunks) && AllNamed(env, chunks) && TornFrom(env, torn, c)
    requires e in EntriesFrom(env, chunks, 0)
    ensures Resolves(env, SegBytes(env, chunks, |chunks|) + torn, e)
  {
    hide AllFit, AllNamed, TornFrom, SegBytes, EntriesFrom, Lawful, ReadLayout, RecordAt, RecordsFrom;
    AllFitWritable(env, chunks);
    ReadersAgreeIff(env, chunks, torn, c);
    var file := SegBytes(env, chunks, |chunks|) + torn;
    var l := ReadLayout(env, file, 0).value;
    var i :| 0 <= i < |l.idx| && l.idx[i] == e;
    EntriesResolve(env, file, 0, i);
  }

  /** In a segment of written blocks, whose index appends together are its entries: if no append was cut inside an entry
      the index parses, and every entry of it resolves to a record of its game. */
  lemma CrashedResolves(env: Env, chunks: seq<Chunk>, torn: Bytes, c: Chunk, appends: seq<Append>)
    requires Lawful(env) && AllFit(env, chunks) && AllNamed(env, chunks) && TornFrom(env, torn, c)
    requires AllOk(appends) && AllFitting(appends)
    requires forall i, e | 0 <= i < |appends| && e in appends[i].entries :: e in EntriesFrom(env, chunks, 0)
    requires AllWhole(appends, |appends|)
    ensures var es := ParseIdx(IndexFile(appends, |appends|));
            es.Some? && forall e | e in es.value :: Resolves(env, SegBytes(env, chunks, |chunks|) + torn, e)
  {
    CrashedParsesIff(appends);
    hide AllFit, AllNamed, TornFrom, SegBytes, EntriesFrom, Lawful, Resolves, ParseIdx, IndexFile;
    forall e | e in AllLeft(appends, |appends|) ensures Resolves(env, SegBytes(env, chunks, |chunks|) + torn, e) {
      LeftAreWritten(appends, |appends|, e);
      WriterEntryResolves(env, chunks, torn, c, e);
    }
  }
}
