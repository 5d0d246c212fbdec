/**
 Rewriting a segment in columnar form: when it succeeds, that it keeps every
 record, and that a crash anywhere in it is repaired by the next run.
 */
module Recompact {
  import opened Results
  import opened Wire
  import opened SegmentSpec
  import opened SegmentProof
  import opened SegmentLimits

  // ---- one run, from files to files ----

  function ChunksOf(raws: seq<Bytes>, from: nat): seq<Chunk>
    requires from <= |raws|
    decreases |raws| - from
  {
    if from == |raws| then []
    else
      var end := if from + RECORDS_PER_BLOCK < |raws| then from + RECORDS_PER_BLOCK else |raws|;
      [Chunk(true, RECOMPACT_LEVEL, raws[from..end])] + ChunksOf(raws, end)
  }

  /** A torn tail may go only if the index is readable and points at nothing in it. */
  predicate TailUnindexed(idx: Option<Bytes>, valid: nat) {
    idx.Some? ==>
      && ParseIdx(idx.value).Some?
      && forall e | e in ParseIdx(idx.value).value :: e.blockOff < valid
  }

  /** An index that already lists these entries stays, any other is replaced. */
  function HealedIdx(idx: Option<Bytes>, es: seq<IdxEntry>): Bytes {
    if idx.Some? && ParseIdx(idx.value) == Some(es) then idx.value else IdxBytes(es, |es|)
  }

  datatype Pair = Pair(seg: Bytes, idx: Bytes)

  function Recompacted(env: Env, seg: Bytes, idx: Option<Bytes>): Result<Pair> {
    var l := ReadLayout(env, seg, 0);
    if l.Err? then Err
    else if l.value.tail.Some? && !TailUnindexed(idx, l.value.tail.value) then Err
    else if !l.value.hasRows then
      Ok(Pair(if l.value.tail.Some? then seg[..l.value.tail.value] else seg, HealedIdx(idx, l.value.idx)))
    else Rewritten(env, l.value.records)
  }

  /** The rewrite, read back strictly and compared before it replaces anything. */
  function Rewritten(env: Env, records: seq<Bytes>): Result<Pair> {
    var chunks := ChunksOf(records, 0);
    if !(forall k | 0 <= k < |chunks| :: Writable(env, chunks[k])) || !AllNamed(env, chunks) then Err
    else
      var seg := SegBytes(env, chunks, |chunks|);
      var es := EntriesFrom(env, chunks, 0);
      var back := ReadLayout(env, seg, 0);
      if back.Err? || back.value.tail.Some? || back.value.records != records then Err
      else Ok(Pair(seg, IdxBytes(es, |es|)))
  }

  // ---- chunks ----

  lemma {:induction false} ChunkRecords(raws: seq<Bytes>, from: nat)
    requires from <= |raws|
    ensures RecordsFrom(ChunksOf(raws, from), 0) == raws[from..]
    decreases |raws| - from
  {
    if from < |raws| {
      var end := if from + RECORDS_PER_BLOCK < |raws| then from + RECORDS_PER_BLOCK else |raws|;
      var rest := ChunksOf(raws, end);
      var head := Chunk(true, RECOMPACT_LEVEL, raws[from..end]);
      ChunkRecords(raws, end);
      RecordsShift(head, rest, 0);
      assert raws[from..] == raws[from..end] + raws[end..];
    }
  }

  lemma {:induction false} RecordsShift(head: Chunk, rest: seq<Chunk>, k: nat)
    requires k <= |rest|
    ensures RecordsFrom([head] + rest, k + 1) == RecordsFrom(rest, k)
    decreases |rest| - k
  {
    if k < |rest| {
      RecordsShift(head, rest, k + 1);
      assert ([head] + rest)[k + 1] == rest[k];
    }
  }

  lemma {:induction false} ChunksColumnar(env: Env, raws: seq<Bytes>, from: nat)
    requires from <= |raws| && Named(env, raws)
    ensures forall k | 0 <= k < |ChunksOf(raws, from)| :: ChunksOf(raws, from)[k].columnar
    ensures forall k | 0 <= k < |ChunksOf(raws, from)| :: |ChunksOf(raws, from)[k].raws| < TWO_64
    ensures AllNamed(env, ChunksOf(raws, from))
    decreases |raws| - from
  {
    if from < |raws| {
      var end := if from + RECORDS_PER_BLOCK < |raws| then from + RECORDS_PER_BLOCK else |raws|;
      ChunksColumnar(env, raws, end);
      var rest := ChunksOf(raws, end);
      var head := Chunk(true, RECOMPACT_LEVEL, raws[from..end]);
      assert forall k | 0 < k < |[head] + rest| :: ([head] + rest)[k] == rest[k - 1];
      assert Named(env, head.raws);
    }
  }

  lemma {:induction false} LayoutNamed(env: Env, file: Bytes, at: nat)
    requires at <= |file| && ReadLayout(env, file, at).Ok?
    ensures Named(env, ReadLayout(env, file, at).value.records)
    decreases |file| - at
  {
    hide ReadBlock;
    if at < |file| && ReadBlock(env, file, at, true).Good? {
      LayoutNamed(env, file, ReadBlock(env, file, at, true).block.next);
    }
  }

  // ---- cutting a torn tail ----

  lemma WordCut(file: Bytes, end: nat, at: nat)
    requires at + 4 <= end <= |file|
    ensures Word(file[..end], at) == Word(file, at)
  {
    assert file[..end][at..at + 4] == file[at..at + 4];
  }

  lemma BlockCut(env: Env, file: Bytes, end: nat, at: nat)
    requires end <= |file| && ReadBlock(env, file, at, true).Good? && ReadBlock(env, file, at, true).block.next <= end
    ensures ReadBlock(env, file[..end], at, true) == ReadBlock(env, file, at, true)
  {
    hide Word, ReadBody;
    WordCut(file, end, at);
    WordCut(file, end, at + 4);
    WordCut(file, end, at + 8);
    WordCut(file, end, at + 12);
    var next := ReadBlock(env, file, at, true).block.next;
    BodyNext(env, file, at);
    assert file[..end][at + HEADER_LEN..next] == file[at + HEADER_LEN..next];
  }

  lemma BodyNext(env: Env, file: Bytes, at: nat)
    requires ReadBlock(env, file, at, true).Good?
    ensures ReadBlock(env, file, at, true).block.next == at + HEADER_LEN + Word(file, at + 8)
  {
    hide Word;
  }

  /** Without its torn tail a segment has the same layout, and no tail. */
  lemma {:induction false} LayoutCut(env: Env, file: Bytes, at: nat, end: nat)
    requires at <= end <= |file| && ReadLayout(env, file, at).Ok?
    requires match ReadLayout(env, file, at).value.tail case Some(t) => end == t case None => end == |file|
    ensures ReadLayout(env, file[..end], at) == Ok(ReadLayout(env, file, at).value.(tail := None))
    decreases |file| - at
  {
    hide ReadBlock, Entries;
    if at < end {
      var b := ReadBlock(env, file, at, true).block;
      BlockCut(env, file, end, at);
      LayoutCut(env, file, b.next, end);
    }
  }

  // ---- when a rewrite succeeds ----

  /** Blocks that fit read back as they were written. */
  lemma WholeSegment(env: Env, chunks: seq<Chunk>)
    requires Lawful(env) && AllFit(env, chunks) && AllNamed(env, chunks)
    ensures ReadLayout(env, SegBytes(env, chunks, |chunks|), 0)
         == Ok(Layout(RecordsFrom(chunks, 0), EntriesFrom(env, chunks, 0), RowsFromChunk(chunks, 0), None))
  {
    hide AllFit, SegBytes, ReadLayout, Lawful, AllNamed, RecordsFrom, EntriesFrom, RowsFromChunk;
    LayoutStops(env, chunks, [], Chunk(false, 0, []), 0);
    assert SegBytes(env, chunks, |chunks|) + [] == SegBytes(env, chunks, |chunks|);
    assert SegBytes(env, chunks, 0) == [] by { NoBytes(env, chunks); }
  }

  /** The self-check passes exactly when every block fits. */
  lemma RewriteSucceedsIff(env: Env, records: seq<Bytes>)
    requires Lawful(env) && Named(env, records)
    ensures Rewritten(env, records).Ok? <==> AllFit(env, ChunksOf(records, 0))
  {
    hide SegBytes, ReadLayout, Lawful, ChunksOf, RecordsFrom, EntriesFrom, Fits, Writable;
    var chunks := ChunksOf(records, 0);
    ChunksColumnar(env, records, 0);
    ChunkRecords(records, 0);
    assert records[0..] == records;
    if AllFit(env, chunks) {
      WholeSegment(env, chunks);
      forall k | 0 <= k < |chunks| ensures Writable(env, chunks[k]) {
        FitsWritable(env, chunks[k]);
      }
    } else if forall k | 0 <= k < |chunks| :: Writable(env, chunks[k]) {
      var bad := FirstMisfit(env, chunks, |chunks|);
      MisfitStops(env, chunks, [], 0, bad);
      NoBytes(env, chunks);
      assert SegBytes(env, chunks, |chunks|) + [] == SegBytes(env, chunks, |chunks|);
    }
  }

  /** What the rewrite puts down: an all-columnar segment of the same records, and exactly its index. */
  lemma RewriteResult(env: Env, records: seq<Bytes>)
    requires Lawful(env) && Named(env, records) && Rewritten(env, records).Ok?
    ensures var p := Rewritten(env, records).value;
            var l := ReadLayout(env, p.seg, 0);
            l.Ok? && l.value.records == records && !l.value.hasRows && l.value.tail.None?
            && p.idx == IdxBytes(l.value.idx, |l.value.idx|)
  {
    hide SegBytes, ReadLayout, Lawful, ChunksOf, RecordsFrom, EntriesFrom, Fits, Writable, IdxBytes;
    var chunks := ChunksOf(records, 0);
    RewriteSucceedsIff(env, records);
    ChunksColumnar(env, records, 0);
    ChunkRecords(records, 0);
    assert records[0..] == records;
    WholeSegment(env, chunks);
  }

  // ---- a whole run ----

  /** The index a run leaves is, byte for byte, the one for the entries of the segment. */
  lemma HealedIsExact(idx: Option<Bytes>, es: seq<IdxEntry>)
    ensures HealedIdx(idx, es) == IdxBytes(es, |es|)
  {
    hide IdxBytes, ParseIdx;
    if idx.Some? && ParseIdx(idx.value) == Some(es) {
      IdxParseUnique(idx.value);
    }
  }

  /** A run succeeds exactly when the layout can be read, a torn tail is not indexed, and, if there are row blocks,
      every columnar block of the rewrite fits. */
  lemma SucceedsIff(env: Env, seg: Bytes, idx: Option<Bytes>)
    requires Lawful(env)
    ensures var l := ReadLayout(env, seg, 0);
            Recompacted(env, seg, idx).Ok? <==>
              l.Ok? && (l.value.tail.Some? ==> TailUnindexed(idx, l.value.tail.value))
              && (l.value.hasRows ==> AllFit(env, ChunksOf(l.value.records, 0)))
  {
    hide ReadLayout, Lawful, TailUnindexed, Rewritten, ChunksOf, HealedIdx, AllFit;
    var l := ReadLayout(env, seg, 0);
    if l.Ok? {
      LayoutNamed(env, seg, 0);
      RewriteSucceedsIff(env, l.value.records);
    }
  }

  /** A run that succeeds keeps every record in order and leaves an all-columnar segment, untorn, with the index of
      exactly its entries. */
  lemma RunKeepsRecords(env: Env, seg: Bytes, idx: Option<Bytes>)
    requires Lawful(env) && Recompacted(env, seg, idx).Ok?
    ensures var p := Recompacted(env, seg, idx).value;
            var l, l' := ReadLayout(env, seg, 0), ReadLayout(env, p.seg, 0);
            && l.Ok? && l'.Ok? && l'.value.records == l.value.records
            && !l'.value.hasRows && l'.value.tail.None?
            && p.idx == IdxBytes(l'.value.idx, |l'.value.idx|)
  {
    hide ReadLayout, Lawful, TailUnindexed, Rewritten, HealedIdx, IdxBytes;
    var l := ReadLayout(env, seg, 0).value;
    LayoutNamed(env, seg, 0);
    if l.hasRows {
      RewriteResult(env, l.records);
    } else {
      HealedIsExact(idx, l.idx);
      LayoutCut(env, seg, 0, if l.tail.Some? then l.tail.value else |seg|);
      assert seg[..|seg|] == seg;
    }
  }

  /** After a run, every record is found through the index under its own game id. */
  lemma RunIndexResolves(env: Env, seg: Bytes, idx: Option<Bytes>, i: nat)
    requires Lawful(env) && Recompacted(env, seg, idx).Ok? && i < |ReadLayout(env, seg, 0).value.records|
    ensures var p := Recompacted(env, seg, idx).value;
            var l' := ReadLayout(env, p.seg, 0);
            && l'.Ok? && p.idx == IdxBytes(l'.value.idx, |l'.value.idx|) && i < |l'.value.idx|
            && var e := l'.value.idx[i];
               RecordAt(env, p.seg, e.blockOff, e.recOff) == Ok(ReadLayout(env, seg, 0).value.records[i])
               && env.prost(ReadLayout(env, seg, 0).value.records[i]).Ok?
               && env.prost(ReadLayout(env, seg, 0).value.records[i]).value.gameId == e.gameId
  {
    hide ReadLayout, Lawful, Recompacted, IdxBytes, RecordAt;
    RunKeepsRecords(env, seg, idx);
    EntriesResolve(env, Recompacted(env, seg, idx).value.seg, 0, i);
  }

  /** On an all-columnar, untorn segment a run leaves the segment alone and makes the index exact, whatever it was. */
  lemma RunOnColumnar(env: Env, seg: Bytes, idx: Option<Bytes>)
    requires var l := ReadLayout(env, seg, 0); l.Ok? && !l.value.hasRows && l.value.tail.None?
    ensures var es := ReadLayout(env, seg, 0).value.idx;
            Recompacted(env, seg, idx) == Ok(Pair(seg, IdxBytes(es, |es|)))
  {
    hide ReadLayout, HealedIdx, IdxBytes;
    HealedIsExact(idx, ReadLayout(env, seg, 0).value.idx);
  }

  // ---- what the index decides ----

  /** The index decides nothing but whether a torn tail may go: without a tail, or with one it does not point into, a
      run ends as it would with no index at all. */
  lemma IndexOnlyGuards(env: Env, seg: Bytes, idx: Option<Bytes>)
    ensures var l := ReadLayout(env, seg, 0);
            Recompacted(env, seg, idx)
            == if l.Ok? && l.value.tail.Some? && !TailUnindexed(idx, l.value.tail.value) then Err
               else Recompacted(env, seg, None)
  {
    hide ReadLayout, Rewritten, HealedIdx, IdxBytes, ParseIdx;
    var l := ReadLayout(env, seg, 0);
    if l.Ok? {
      HealedIsExact(idx, l.value.idx);
      HealedIsExact(None, l.value.idx);
    }
  }

  /** An index with appends cut inside entries is replaced by the exact one in an untorn segment; with a torn tail the
      run is refused if the index does not parse, or parses to an entry at or past the tail. */
  lemma CutIndexRun(env: Env, seg: Bytes, appends: seq<Append>)
    requires AllOk(appends) && ReadLayout(env, seg, 0).Ok?
    ensures var l, b := ReadLayout(env, seg, 0).value, IndexFile(appends, |appends|);
            && (l.tail.None? ==> Recompacted(env, seg, Some(b)) == Recompacted(env, seg, None))
            && (l.tail.Some? && Cuts(appends, |appends|) % IDX_ENTRY_LEN != 0 ==> Recompacted(env, seg, Some(b)).Err?)
            && (l.tail.Some? && ParseIdx(b).Some? ==>
                  forall e | e in ParseIdx(b).value && e.blockOff >= l.tail.value ::
                    Recompacted(env, seg, Some(b)).Err?)
  {
    hide ReadLayout, Recompacted, ParseIdx, IndexFile;
    IndexOnlyGuards(env, seg, Some(IndexFile(appends, |appends|)));
    CrashedRefusedIff(appends);
  }

  /** Two cuts that parse: with a torn tail in a segment below 4 GiB the entry put together from them lies past the
      tail, and the run is refused. */
  lemma SplicedRefused(env: Env, seg: Bytes, a: IdxEntry, b: IdxEntry)
    requires EntryFits(a) && EntryFits(b) && b.gameId % TWO_32 != 0 && |seg| <= TWO_32
    requires var l := ReadLayout(env, seg, 0); l.Ok? && l.value.tail.Some?
    ensures AllOk(TwoCuts(a, b)) && Recompacted(env, seg, Some(IndexFile(TwoCuts(a, b), 2))).Err?
  {
    hide ReadLayout, Recompacted, ParseIdx, IndexFile;
    TwoCutsParse(a, b);
    assert Spliced(a, b) in [Spliced(a, b)];
    CutIndexRun(env, seg, TwoCuts(a, b));
  }

  lemma UnindexedIff(es: seq<IdxEntry>, valid: nat)
    requires forall i | 0 <= i < |es| :: EntryFits(es[i])
    ensures TailUnindexed(Some(IdxBytes(es, |es|)), valid) <==> forall e | e in es :: e.blockOff < valid
  {
    hide IdxBytes, ParseIdx, EntryFits;
    IdxRoundTrip(es);
  }

  /** Had the new index reached the disk before the new segment: the next run ends with the interrupted one's files if
      and only if no block of the new segment starts at or past the old one's torn tail; otherwise it is refused. */
  lemma SwappedHealsIff(env: Env, seg: Bytes, idx: Option<Bytes>, p: Pair, es: seq<IdxEntry>)
    requires Lawful(env) && Recompacted(env, seg, idx) == Ok(p)
    requires ReadLayout(env, p.seg, 0).Ok? && es == ReadLayout(env, p.seg, 0).value.idx
    requires forall i | 0 <= i < |es| :: EntryFits(es[i])
    ensures ReadLayout(env, seg, 0).Ok?
    ensures var tail := ReadLayout(env, seg, 0).value.tail;
            Recompacted(env, seg, Some(p.idx))
            == if tail.None? || forall e | e in es :: e.blockOff < tail.value then Ok(p) else Err
  {
    RunKeepsRecords(env, seg, idx);
    hide ReadLayout, Recompacted, IdxBytes, TailUnindexed, Lawful, EntryFits;
    IndexOnlyGuards(env, seg, idx);
    IndexOnlyGuards(env, seg, Some(p.idx));
    var tail := ReadLayout(env, seg, 0).value.tail;
    if tail.Some? {
      UnindexedIff(es, tail.value);
    }
  }

  /** A rewrite of no more records than one columnar block takes starts no block but the first. */
  lemma OneBlockResult(env: Env, records: seq<Bytes>)
    requires Lawful(env) && Named(env, records) && Rewritten(env, records).Ok? && 0 < |records| <= RECORDS_PER_BLOCK
    ensures var l := ReadLayout(env, Rewritten(env, records).value.seg, 0);
            l.Ok? && forall e | e in l.value.idx :: e.blockOff == 0
  {
    hide ReadLayout, Lawful, SegBytes, AllNamed, Writable, ChunksOf, EntriesFrom, RecordsFrom, IdxBytes, Fits;
    var chunks := ChunksOf(records, 0);
    OneChunk(records);
    RewriteSucceedsIff(env, records);
    ChunksColumnar(env, records, 0);
    WholeSegment(env, chunks);
    OneBlockEntries(env, chunks);
  }

  /** So a segment of no more records than one columnar block takes always heals. */
  lemma SwappedOneBlockHeals(env: Env, seg: Bytes, idx: Option<Bytes>, p: Pair, es: seq<IdxEntry>)
    requires Lawful(env) && Recompacted(env, seg, idx) == Ok(p)
    requires ReadLayout(env, p.seg, 0).Ok? && es == ReadLayout(env, p.seg, 0).value.idx
    requires forall i | 0 <= i < |es| :: EntryFits(es[i])
    requires var l := ReadLayout(env, seg, 0); l.Ok? && l.value.hasRows && 0 < |l.value.records| <= RECORDS_PER_BLOCK
    ensures Recompacted(env, seg, Some(p.idx)) == Ok(p)
  {
    hide ReadLayout, Rewritten, IdxBytes, ParseIdx, Lawful, Named, EntryFits, HealedIdx;
    SwappedHealsIff(env, seg, idx, p, es);
    RowsBeforeTail(env, seg, 0);
    LayoutNamed(env, seg, 0);
    OneBlockResult(env, ReadLayout(env, seg, 0).value.records);
  }

  lemma OneChunk(raws: seq<Bytes>)
    requires 0 < |raws| <= RECORDS_PER_BLOCK
    ensures |ChunksOf(raws, 0)| == 1
  {
    assert ChunksOf(raws, |raws|) == [];
  }

  lemma OneBlockEntries(env: Env, chunks: seq<Chunk>)
    requires |chunks| == 1 && AllNamed(env, chunks)
    ensures forall e | e in EntriesFrom(env, chunks, 0) :: e.blockOff == 0
  {
    hide Offsets, BlockOf;
    NoBytes(env, chunks);
    assert EntriesFrom(env, chunks, 1) == [];
  }

  lemma {:induction false} RowsBeforeTail(env: Env, file: Bytes, at: nat)
    requires at <= |file| && ReadLayout(env, file, at).Ok? && ReadLayout(env, file, at).value.hasRows
    ensures ReadLayout(env, file, at).value.tail.Some? ==> at < ReadLayout(env, file, at).value.tail.value
  {
    hide ReadBlock, Entries;
  }

  // ---- crashes ----

  /** The segment and index a crash can leave: a run replaces the segment first and the index second, each at once. */
  ghost predicate CrashPoint(env: Env, seg: Bytes, idx: Option<Bytes>, seg': Bytes, idx': Option<Bytes>) {
    || (seg' == seg && idx' == idx)
    || (Recompacted(env, seg, idx).Ok? && seg' == Recompacted(env, seg, idx).value.seg
        && (idx' == idx || idx' == Some(Recompacted(env, seg, idx).value.idx)))
  }

  /** At every crash point the segment still holds the same records. */
  lemma CrashKeepsRecords(env: Env, seg: Bytes, idx: Option<Bytes>, seg': Bytes, idx': Option<Bytes>)
    requires Lawful(env) && CrashPoint(env, seg, idx, seg', idx') && ReadLayout(env, seg, 0).Ok?
    ensures ReadLayout(env, seg', 0).Ok?
            && ReadLayout(env, seg', 0).value.records == ReadLayout(env, seg, 0).value.records
  {
    hide ReadLayout, Lawful, Recompacted;
    if seg' != seg {
      RunKeepsRecords(env, seg, idx);
    }
  }

  /** From every crash point one later run ends with exactly the files the interrupted run was making. */
  lemma CrashHeals(env: Env, seg: Bytes, idx: Option<Bytes>, seg': Bytes, idx': Option<Bytes>)
    requires Lawful(env) && Recompacted(env, seg, idx).Ok? && CrashPoint(env, seg, idx, seg', idx')
    ensures Recompacted(env, seg', idx') == Recompacted(env, seg, idx)
  {
    hide ReadLayout, Lawful, Recompacted, IdxBytes;
    if seg' != seg || idx' != idx {
      RunKeepsRecords(env, seg, idx);
      RunOnColumnar(env, seg', idx');
    }
  }

  /** A further run changes nothing. */
  lemma RunTwice(env: Env, seg: Bytes, idx: Option<Bytes>)
    requires Lawful(env) && Recompacted(env, seg, idx).Ok?
    ensures var p := Recompacted(env, seg, idx).value; Recompacted(env, p.seg, Some(p.idx)) == Ok(p)
  {
    var p := Recompacted(env, seg, idx).value;
    CrashHeals(env, seg, idx, p.seg, Some(p.idx));
  }

  // ---- the tolerant reader across a run ----

  lemma TolerantToo(env: Env, file: Bytes, at: nat)
    requires ReadBlock(env, file, at, true).Good?
    ensures ReadBlock(env, file, at, false) == ReadBlock(env, file, at, true)
  {
    hide Word, RowsFrom;
    if at + HEADER_LEN <= |file| {
      var body := env.decompress(file[at + HEADER_LEN..ReadBlock(env, file, at, true).block.next], Word(file, at + 12));
      if body.Some? && RowsFrom(body.value, 0, true).Ok? {
        TolerantRows(body.value, 0);
      }
    }
  }

  lemma {:induction false} TolerantRows(b: Bytes, off: nat)
    requires off <= |b| && RowsFrom(b, off, true).Ok?
    ensures RowsFrom(b, off, false) == RowsFrom(b, off, true)
    decreases |b| - off
  {
    hide Word;
    if off < |b| {
      TolerantRows(b, off + 4 + Word(b, off));
    }
  }

  /** The tolerant reader sees at least the records of the strict layout, and just those in an untorn segment. */
  lemma {:induction false} TolerantSeesAll(env: Env, file: Bytes, at: nat)
    requires at <= |file| && ReadLayout(env, file, at).Ok?
    ensures ReadLayout(env, file, at).value.records <= ReadAll(env, file, at)
    ensures ReadLayout(env, file, at).value.tail.None? ==>
            ReadAll(env, file, at) == ReadLayout(env, file, at).value.records
    decreases |file| - at
  {
    hide ReadBlock;
    if at < |file| && ReadBlock(env, file, at, true).Good? {
      TolerantToo(env, file, at);
      TolerantSeesAll(env, file, ReadBlock(env, file, at, true).block.next);
    }
  }

  /** For a segment of written blocks, torn or not, whoever reads it at any crash point reads the same records. */
  lemma CrashKeepsReads(env: Env, chunks: seq<Chunk>, torn: Bytes, c: Chunk, idx: Option<Bytes>, seg': Bytes,
                        idx': Option<Bytes>)
    requires Lawful(env) && AllFit(env, chunks) && AllNamed(env, chunks) && TornFrom(env, torn, c)
    requires CrashPoint(env, SegBytes(env, chunks, |chunks|) + torn, idx, seg', idx')
    ensures ReadAll(env, seg', 0) == RecordsFrom(chunks, 0)
  {
    hide ReadLayout, ReadAll, Lawful, Recompacted, AllFit, AllNamed, TornFrom, SegBytes, RecordsFrom, EntriesFrom;
    var seg := SegBytes(env, chunks, |chunks|) + torn;
    AllFitWritable(env, chunks);
    ReadersAgreeIff(env, chunks, torn, c);
    if seg' != seg {
      RunKeepsRecords(env, seg, idx);
      TolerantSeesAll(env, seg', 0);
    }
  }
}
