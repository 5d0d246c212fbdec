/**
 A day's segment and index over any number of writer sessions: opened, appended
 to, flushed, and left by a crash anywhere inside a flush.
 */
module SegmentRun {
  import opened Results
  import opened Wire
  import opened Schema
  import opened SegmentSpec
  import opened SegmentProof
  import opened SegmentLimits

  // ---- sessions ----

  datatype Item = Item(gameId: nat, raw: Bytes)

  /** The two files, and what the writer holds while it is open. */
  datatype Files = Files(seg: Bytes, idx: Bytes, open: bool, items: seq<Item>)

  datatype Step =
    | Open
    | Add(item: Item)
    | Flush
    | CrashInBlock(n: nat)
    | CrashInIndex(n: nat)
    | Close

  function Raws(items: seq<Item>): (s: seq<Bytes>)
    ensures |s| == |items|
  {
    seq(|items|, i requires 0 <= i < |items| => items[i].raw)
  }

  function Ids(items: seq<Item>): (s: seq<nat>)
    ensures |s| == |items|
  {
    seq(|items|, i requires 0 <= i < |items| => items[i].gameId)
  }

  function ChunkOf(items: seq<Item>): Chunk { Chunk(false, WRITER_LEVEL, Raws(items)) }

  function EntriesOf(items: seq<Item>, at: nat): (es: seq<IdxEntry>)
    ensures |es| == |items|
  {
    PendingEntries(Ids(items), Raws(items), at)
  }

  predicate Writes(step: Step) { step.Flush? || step.CrashInBlock? || step.CrashInIndex? }

  /** A flush writes the block, syncs it, and then appends its entries; a crash leaves a beginning of what is being
      written. A closed day is opened again after a restart. */
  predicate Enabled(env: Env, f: Files, step: Step) {
    match step
    case Open => !f.open
    case CrashInBlock(n) => f.open && f.items != [] && n < |BlockOf(env, ChunkOf(f.items))|
    case CrashInIndex(n) => f.open && f.items != [] && n <= IDX_ENTRY_LEN * |f.items|
    case _ => f.open
  }

  function Next(env: Env, f: Files, step: Step): Files
    requires Enabled(env, f, step)
  {
    match step
    case Open => Files(f.seg[..Validate(f.seg, 0)], f.idx, true, [])
    case Add(item) => f.(items := f.items + [item])
    case Flush =>
      if f.items == [] then f
      else
        var es := EntriesOf(f.items, |f.seg|);
        Files(f.seg + BlockOf(env, ChunkOf(f.items)), f.idx + IdxBytes(es, |es|), true, [])
    case CrashInBlock(n) => Files(f.seg + BlockOf(env, ChunkOf(f.items))[..n], f.idx, false, [])
    case CrashInIndex(n) =>
      var es := EntriesOf(f.items, |f.seg|);
      Files(f.seg + BlockOf(env, ChunkOf(f.items)), f.idx + IdxBytes(es, |es|)[..n], false, [])
    case Close => f.(open := false, items := [])
  }

  /** The blocks written completely, by their records, the index append of each, and the beginning of one more. */
  datatype History = History(blocks: seq<seq<Item>>, appends: seq<Append>, torn: Bytes, tornOf: Chunk)

  function NextHistory(env: Env, f: Files, h: History, step: Step): History
    requires Enabled(env, f, step)
  {
    match step
    case Open => h.(torn := [])
    case Flush =>
      if f.items == [] then h
      else h.(blocks := h.blocks + [f.items],
              appends := h.appends + [Append(EntriesOf(f.items, |f.seg|), IDX_ENTRY_LEN * |f.items|)])
    case CrashInBlock(n) =>
      h.(torn := BlockOf(env, ChunkOf(f.items))[..n], tornOf := ChunkOf(f.items))
    case CrashInIndex(n) =>
      h.(blocks := h.blocks + [f.items], appends := h.appends + [Append(EntriesOf(f.items, |f.seg|), n)])
    case _ => h
  }

  ghost function Run(env: Env, steps: seq<Step>, n: nat): (Files, History)
    requires n <= |steps|
  {
    if n == 0 then (Files([], [], false, []), History([], [], [], ChunkOf([])))
    else
      var (f, h) := Run(env, steps, n - 1);
      if Enabled(env, f, steps[n - 1])
      then (Next(env, f, steps[n - 1]), NextHistory(env, f, h, steps[n - 1]))
      else (f, h)
  }

  /** Whatever is flushed, its two lengths fit the header. */
  ghost predicate SmallBlocks(env: Env, steps: seq<Step>) {
    forall i | 0 <= i < |steps| && Writes(steps[i]) :: Writable(env, ChunkOf(Run(env, steps, i).0.items))
  }

  // ---- what the files hold ----

  function Chunks(blocks: seq<seq<Item>>): (s: seq<Chunk>)
    ensures |s| == |blocks|
  {
    seq(|blocks|, i requires 0 <= i < |blocks| => ChunkOf(blocks[i]))
  }

  /** The index append of each block lists its records at the block's offset. */
  ghost predicate Indexed(env: Env, blocks: seq<seq<Item>>, appends: seq<Append>) {
    && |appends| == |blocks| && AllOk(appends)
    && forall i | 0 <= i < |blocks| :: appends[i].entries == EntriesOf(blocks[i], |SegBytes(env, Chunks(blocks), i)|)
  }

  /** The segment is complete blocks and a proper beginning of one more, none while the writer is open; the index is the
      appends of those blocks. */
  ghost predicate Laid(env: Env, f: Files, h: History) {
    var chunks := Chunks(h.blocks);
    && Indexed(env, h.blocks, h.appends) && AllWritable(env, chunks) && TornFrom(env, h.torn, h.tornOf)
    && f.seg == SegBytes(env, chunks, |chunks|) + h.torn && (f.open ==> h.torn == [])
    && f.idx == IndexFile(h.appends, |h.appends|)
  }

  lemma {:induction false} SegBytesPrefix(env: Env, a: seq<Chunk>, c: Chunk, n: nat)
    requires n <= |a|
    ensures SegBytes(env, a + [c], n) == SegBytes(env, a, n)
  {
    hide BlockOf;
    if n > 0 {
      SegBytesPrefix(env, a, c, n - 1);
      assert (a + [c])[n - 1] == a[n - 1];
    }
  }

  lemma {:induction false} IndexFilePrefix(a: seq<Append>, x: Append, n: nat)
    requires n <= |a| && AllOk(a) && x.Ok()
    ensures IndexFile(a + [x], n) == IndexFile(a, n)
  {
    hide IdxBytes;
    if n > 0 {
      IndexFilePrefix(a, x, n - 1);
      assert (a + [x])[n - 1] == a[n - 1];
    }
  }

  lemma ChunksGrow(blocks: seq<seq<Item>>, items: seq<Item>)
    ensures Chunks(blocks + [items]) == Chunks(blocks) + [ChunkOf(items)]
  {
  }

  lemma IndexedGrows(env: Env, blocks: seq<seq<Item>>, appends: seq<Append>, items: seq<Item>, x: Append)
    requires Indexed(env, blocks, appends) && x.Ok()
    requires x.entries == EntriesOf(items, |SegBytes(env, Chunks(blocks), |blocks|)|)
    ensures Indexed(env, blocks + [items], appends + [x])
    ensures IndexFile(appends + [x], |appends| + 1) == IndexFile(appends, |appends|) + x.Bytes()
  {
    hide SegBytes, EntriesOf, ChunkOf, IdxBytes;
    ChunksGrow(blocks, items);
    IndexFilePrefix(appends, x, |appends|);
    forall i | 0 <= i <= |blocks|
      ensures SegBytes(env, Chunks(blocks + [items]), i) == SegBytes(env, Chunks(blocks), i)
    {
      SegBytesPrefix(env, Chunks(blocks), ChunkOf(items), i);
    }
  }

  lemma SegGrows(env: Env, blocks: seq<seq<Item>>, items: seq<Item>)
    requires AllWritable(env, Chunks(blocks)) && Writable(env, ChunkOf(items))
    ensures AllWritable(env, Chunks(blocks + [items]))
    ensures SegBytes(env, Chunks(blocks + [items]), |blocks| + 1)
         == SegBytes(env, Chunks(blocks), |blocks|) + BlockOf(env, ChunkOf(items))
  {
    hide Writable, ChunkOf, BlockOf;
    ChunksGrow(blocks, items);
    SegBytesPrefix(env, Chunks(blocks), ChunkOf(items), |blocks|);
  }

  /** One more block, and of its entries the first `n` bytes. */
  lemma BlockLaid(env: Env, f: Files, h: History, n: nat, f': Files, h': History)
    requires Laid(env, f, h) && f.open && Writable(env, ChunkOf(f.items)) && n <= IDX_ENTRY_LEN * |f.items|
    requires var es := EntriesOf(f.items, |f.seg|);
             && f'.seg == f.seg + BlockOf(env, ChunkOf(f.items)) && f'.idx == f.idx + IdxBytes(es, |es|)[..n]
             && h' == h.(blocks := h.blocks + [f.items], appends := h.appends + [Append(es, n)])
    ensures Laid(env, f', h')
  {
    hide BlockOf, IdxBytes, Writable, TornFrom, EntriesOf, ChunkOf, Indexed, AllWritable, SegBytes, IndexFile;
    var seg := SegBytes(env, Chunks(h.blocks), |h.blocks|);
    assert seg + [] == seg && f'.seg + [] == f'.seg;
    IndexedGrows(env, h.blocks, h.appends, f.items, Append(EntriesOf(f.items, |f.seg|), n));
    SegGrows(env, h.blocks, f.items);
  }

  lemma OpenLaid(env: Env, f: Files, h: History)
    requires Laid(env, f, h) && !f.open
    ensures Laid(env, Next(env, f, Open), h.(torn := []))
  {
    hide SegBytes, Validate, IndexFile, TornFrom, Indexed, Writable;
    var chunks := Chunks(h.blocks);
    NoBytes(env, chunks);
    ValidateStops(env, chunks, h.torn, h.tornOf, 0);
    var seg := SegBytes(env, chunks, |chunks|);
    assert (seg + h.torn)[..|seg|] == seg && seg + [] == seg;
    NothingTorn(env, h.tornOf);
  }

  lemma NothingTorn(env: Env, c: Chunk)
    ensures TornFrom(env, [], c)
  {
  }

  lemma TornLaid(env: Env, f: Files, h: History, n: nat)
    requires Laid(env, f, h) && Enabled(env, f, CrashInBlock(n)) && Writable(env, ChunkOf(f.items))
    ensures Laid(env, Next(env, f, CrashInBlock(n)), NextHistory(env, f, h, CrashInBlock(n)))
  {
    var c := ChunkOf(f.items);
    assert TornFrom(env, BlockOf(env, c)[..n], c) by { hide SegBytes, BlockOf, IndexFile; }
    hide SegBytes, BlockOf, TornFrom, IndexFile, Indexed, Writable;
    var seg := SegBytes(env, Chunks(h.blocks), |h.blocks|);
    assert seg + [] == seg;
  }

  lemma StepLaid(env: Env, f: Files, h: History, step: Step)
    requires Laid(env, f, h) && Enabled(env, f, step) && (Writes(step) ==> Writable(env, ChunkOf(f.items)))
    ensures Laid(env, Next(env, f, step), NextHistory(env, f, h, step))
  {
    hide SegBytes, BlockOf, IdxBytes, IndexFile, TornFrom, Indexed, Writable, Validate, AllWritable;
    match step
    case Open => OpenLaid(env, f, h);
    case Flush =>
      if f.items != [] {
        var es := EntriesOf(f.items, |f.seg|);
        assert IdxBytes(es, |es|)[..IDX_ENTRY_LEN * |f.items|] == IdxBytes(es, |es|);
        BlockLaid(env, f, h, IDX_ENTRY_LEN * |f.items|, Next(env, f, step), NextHistory(env, f, h, step));
      }
    case CrashInBlock(n) => TornLaid(env, f, h, n);
    case CrashInIndex(n) => BlockLaid(env, f, h, n, Next(env, f, step), NextHistory(env, f, h, step));
    case _ =>
  }

  lemma FreshLaid(env: Env)
    ensures Laid(env, Files([], [], false, []), History([], [], [], ChunkOf([])))
  {
    NoBytes(env, []);
  }

  /** After any number of sessions, with crashes anywhere in any flush: the segment is the blocks written completely and
      a proper beginning of one more; the index is, for each of those blocks in order, a beginning of its entries. */
  lemma {:induction false} RunsAreLaid(env: Env, steps: seq<Step>, n: nat)
    requires n <= |steps| && SmallBlocks(env, steps)
    ensures var (f, h) := Run(env, steps, n); Laid(env, f, h)
  {
    hide Laid, Next, NextHistory, Enabled, Writable;
    if n == 0 {
      FreshLaid(env);
    } else {
      RunsAreLaid(env, steps, n - 1);
      var (f, h) := Run(env, steps, n - 1);
      if Enabled(env, f, steps[n - 1]) {
        StepLaid(env, f, h, steps[n - 1]);
      }
    }
  }

  // ---- what the index is worth ----

  /** The protobuf decoder reads back the games' ids. */
  ghost predicate Readable(env: Env, blocks: seq<seq<Item>>) {
    forall i, j | 0 <= i < |blocks| && 0 <= j < |blocks[i]| ::
      env.prost(blocks[i][j].raw).Ok? && env.prost(blocks[i][j].raw).value.gameId == blocks[i][j].gameId
  }

  /** All entries of the first `n` appends, cut or not. */
  function EntriesUpTo(appends: seq<Append>, n: nat): seq<IdxEntry>
    requires n <= |appends|
  {
    if n == 0 then [] else EntriesUpTo(appends, n - 1) + appends[n - 1].entries
  }

  ghost predicate AllComplete(appends: seq<Append>, n: nat)
    requires n <= |appends|
  {
    forall i | 0 <= i < n :: appends[i].cut == IDX_ENTRY_LEN * |appends[i].entries|
  }

  lemma BlockEntries(env: Env, items: seq<Item>, at: nat)
    requires Readable(env, [items]) && Writable(env, ChunkOf(items))
    ensures Named(env, Raws(items)) && EntriesOf(items, at) == Entries(env, Raws(items), at, Offsets(ChunkOf(items)))
  {
    hide RowBuf, Offsets;
    assert [items][0] == items;
    WriterIndexIsLayout(env, Ids(items), Raws(items), at);
  }

  lemma BlocksNamed(env: Env, blocks: seq<seq<Item>>)
    requires Readable(env, blocks)
    ensures AllNamed(env, Chunks(blocks))
  {
  }

  /** The appends together are the entries a strict pass finds. */
  lemma {:induction false} AppendsAreLayout(env: Env, blocks: seq<seq<Item>>, appends: seq<Append>, n: nat)
    requires n <= |blocks| && Indexed(env, blocks, appends) && Readable(env, blocks) && AllWritable(env, Chunks(blocks))
    ensures AllNamed(env, Chunks(blocks))
    ensures EntriesUpTo(appends, n) + EntriesFrom(env, Chunks(blocks), n) == EntriesFrom(env, Chunks(blocks), 0)
  {
    hide SegBytes, Entries, EntriesOf, Writable, Offsets;
    BlocksNamed(env, blocks);
    if n > 0 {
      AppendsAreLayout(env, blocks, appends, n - 1);
      var chunks := Chunks(blocks);
      assert Readable(env, [blocks[n - 1]]);
      assert chunks[n - 1] == ChunkOf(blocks[n - 1]);
      BlockEntries(env, blocks[n - 1], |SegBytes(env, chunks, n - 1)|);
      var es := appends[n - 1].entries;
      assert EntriesFrom(env, chunks, n - 1) == es + EntriesFrom(env, chunks, n);
      assert EntriesUpTo(appends, n) + EntriesFrom(env, chunks, n)
          == EntriesUpTo(appends, n - 1) + (es + EntriesFrom(env, chunks, n));
    }
  }

  lemma {:induction false} CutsBound(appends: seq<Append>, n: nat)
    requires n <= |appends| && AllOk(appends)
    ensures Cuts(appends, n) <= IDX_ENTRY_LEN * |EntriesUpTo(appends, n)|
    ensures Cuts(appends, n) == IDX_ENTRY_LEN * |EntriesUpTo(appends, n)| <==> AllComplete(appends, n)
  {
    if n > 0 {
      CutsBound(appends, n - 1);
      assert AllComplete(appends, n) <==>
             AllComplete(appends, n - 1) && appends[n - 1].cut == IDX_ENTRY_LEN * |appends[n - 1].entries|;
    }
  }

  lemma {:induction false} CompleteLeft(appends: seq<Append>, n: nat)
    requires n <= |appends| && AllOk(appends) && AllComplete(appends, n)
    ensures AllWhole(appends, n) && AllLeft(appends, n) == EntriesUpTo(appends, n)
  {
    if n > 0 {
      CompleteLeft(appends, n - 1);
    }
  }

  /** The file is the index of all entries if and only if no append was cut. */
  lemma CompleteIff(appends: seq<Append>)
    requires AllOk(appends) && AllFitting(appends)
    ensures var es := EntriesUpTo(appends, |appends|);
            IndexFile(appends, |appends|) == IdxBytes(es, |es|) <==> AllComplete(appends, |appends|)
  {
    hide IdxBytes, IndexFile, EntriesUpTo, AllLeft, AllComplete;
    CutsBound(appends, |appends|);
    CutsAre(appends, |appends|);
    if AllComplete(appends, |appends|) {
      CompleteLeft(appends, |appends|);
      WholeFile(appends, |appends|);
    }
  }

  lemma {:induction false} AppendInLayout(appends: seq<Append>, n: nat, i: nat, e: IdxEntry)
    requires i < n <= |appends| && e in appends[i].entries
    ensures e in EntriesUpTo(appends, n)
  {
    if i < n - 1 {
      AppendInLayout(appends, n - 1, i, e);
    }
  }

  /** After any sessions and crashes, for readable records in blocks within the limits: readers find every record of
      every complete block. The index parses to exactly the entries left whole if and only if no crash cut inside one,
      and then each of them resolves; and it is the exact index of the segment if and only if no crash cut an append. */
  lemma SessionsIndex(env: Env, steps: seq<Step>, n: nat)
    requires n <= |steps| && Lawful(env) && SmallBlocks(env, steps)
    requires var h := Run(env, steps, n).1;
             Readable(env, h.blocks) && AllFit(env, Chunks(h.blocks)) && AllFitting(h.appends)
    ensures var (f, h) := Run(env, steps, n);
            var l := ReadLayout(env, f.seg, 0);
            && AllOk(h.appends) && l.Ok? && ReadAll(env, f.seg, 0) == RecordsFrom(Chunks(h.blocks), 0)
            && l.value.records == RecordsFrom(Chunks(h.blocks), 0)
            && l.value.idx == EntriesUpTo(h.appends, |h.appends|)
            && (ParseIdx(f.idx) == Some(AllLeft(h.appends, |h.appends|)) <==> AllWhole(h.appends, |h.appends|))
            && (AllWhole(h.appends, |h.appends|) ==>
                  ParseIdx(f.idx).Some? && forall e | e in ParseIdx(f.idx).value :: Resolves(env, f.seg, e))
            && (f.idx == IdxBytes(l.value.idx, |l.value.idx|) <==> AllComplete(h.appends, |h.appends|))
  {
    RunsAreLaid(env, steps, n);
    var (f, h) := Run(env, steps, n);
    hide Run, SmallBlocks;
    LaidIndex(env, f, h);
  }

  lemma LaidIndex(env: Env, f: Files, h: History)
    requires Laid(env, f, h) && Lawful(env)
    requires Readable(env, h.blocks) && AllFit(env, Chunks(h.blocks)) && AllFitting(h.appends)
    ensures var l := ReadLayout(env, f.seg, 0);
            && l.Ok? && ReadAll(env, f.seg, 0) == RecordsFrom(Chunks(h.blocks), 0)
            && l.value.records == RecordsFrom(Chunks(h.blocks), 0)
            && l.value.idx == EntriesUpTo(h.appends, |h.appends|)
            && (ParseIdx(f.idx) == Some(AllLeft(h.appends, |h.appends|)) <==> AllWhole(h.appends, |h.appends|))
            && (AllWhole(h.appends, |h.appends|) ==>
                  ParseIdx(f.idx).Some? && forall e | e in ParseIdx(f.idx).value :: Resolves(env, f.seg, e))
            && (f.idx == IdxBytes(l.value.idx, |l.value.idx|) <==> AllComplete(h.appends, |h.appends|))
  {
    hide ReadLayout, ReadAll, Lawful, Readable, AllFit, AllFitting, AllWritable, TornFrom, SegBytes, IndexFile,
         EntriesFrom, RecordsFrom, EntriesUpTo, AllLeft, ParseIdx, IdxBytes, Resolves, AllWhole, AllComplete;
    var chunks := Chunks(h.blocks);
    LaidLayout(env, f, h);
    CrashedParsesIff(h.appends);
    CompleteIff(h.appends);
    if AllWhole(h.appends, |h.appends|) {
      forall i, e | 0 <= i < |h.appends| && e in h.appends[i].entries ensures e in EntriesFrom(env, chunks, 0) {
        AppendInLayout(h.appends, |h.appends|, i, e);
      }
      CrashedResolves(env, chunks, h.torn, h.tornOf, h.appends);
    }
  }

  lemma LaidLayout(env: Env, f: Files, h: History)
    requires Laid(env, f, h) && Lawful(env) && Readable(env, h.blocks) && AllFit(env, Chunks(h.blocks))
    ensures AllNamed(env, Chunks(h.blocks))
    ensures var l := ReadLayout(env, f.seg, 0);
            && l.Ok? && ReadAll(env, f.seg, 0) == RecordsFrom(Chunks(h.blocks), 0)
            && l.value.records == RecordsFrom(Chunks(h.blocks), 0)
            && l.value.idx == EntriesUpTo(h.appends, |h.appends|) == EntriesFrom(env, Chunks(h.blocks), 0)
  {
    var chunks := Chunks(h.blocks);
    AppendsAreLayout(env, h.blocks, h.appends, |h.blocks|);
    assert EntriesFrom(env, chunks, |chunks|) == [];
    hide ReadLayout, ReadAll, Lawful, Readable, AllFit, AllWritable, TornFrom, SegBytes, EntriesFrom, RecordsFrom,
         EntriesUpTo, Indexed, IndexFile;
    var es := EntriesUpTo(h.appends, |h.appends|);
    assert es + [] == es;
    ReadersAgreeIff(env, chunks, h.torn, h.tornOf);
  }

  // ---- two crashes in one day ----

  function TwoCrashes(a: Item, b: Item): seq<Step> {
    [Open, Add(a), CrashInIndex(12), Open, Add(b), CrashInIndex(8)]
  }

  lemma OneEntry(a: Item, at: nat)
    ensures EntriesOf([a], at) == [IdxEntry(a.gameId, at, 0)]
  {
    assert RowBuf(Raws([a]), 0) == [];
  }

  lemma FirstCrash(env: Env, a: Item, b: Item)
    requires Writable(env, ChunkOf([a]))
    ensures var (f, h) := Run(env, TwoCrashes(a, b), 3);
            var block := BlockOf(env, ChunkOf([a]));
            f == Files(block, IdxBytes([IdxEntry(a.gameId, 0, 0)], 1)[..12], false, [])
  {
    hide BlockOf, IdxBytes, Writable, EntriesOf, ChunkOf;
    var steps := TwoCrashes(a, b);
    OneEntry(a, 0);
    assert Run(env, steps, 0).0 == Files([], [], false, []);
    assert Run(env, steps, 1).0 == Files([], [], true, []);
    assert [] + [a] == [a];
    assert Run(env, steps, 2).0 == Files([], [], true, [a]);
    var block := BlockOf(env, ChunkOf([a]));
    assert [] + block == block;
    var es := EntriesOf([a], 0);
    assert [] + IdxBytes(es, |es|)[..12] == IdxBytes(es, |es|)[..12];
    assert Run(env, steps, 3).0 == Files(block, IdxBytes(es, |es|)[..12], false, []);
  }

  lemma OneBlockValid(env: Env, a: Item)
    requires Writable(env, ChunkOf([a]))
    ensures var block := BlockOf(env, ChunkOf([a])); Validate(block, 0) == |block|
  {
    hide BlockOf, Writable, ChunkOf, Validate, TornFrom, Holds;
    var c := ChunkOf([a]);
    OneBlock(env, c);
    NothingTorn(env, c);
    assert AllWritable(env, [c]);
    ValidateStops(env, [c], [], c, 0);
  }

  /** Two crashes of one day, each inside an index append, 12 and 8 bytes into it: the index parses, to one entry put
      together from both, which neither session wrote and which lies past any segment below 4 GiB. */
  lemma TwoCrashesParse(env: Env, a: Item, b: Item)
    requires Writable(env, ChunkOf([a])) && a.gameId < TWO_64 && b.gameId < TWO_64 && b.gameId % TWO_32 != 0
    requires |BlockOf(env, ChunkOf([a]))| < TWO_32
    ensures var f := Run(env, TwoCrashes(a, b), 6).0;
            var x := IdxEntry(a.gameId, TWO_32 * (b.gameId % TWO_32), b.gameId / TWO_32);
            && ParseIdx(f.idx) == Some([x]) && x != IdxEntry(a.gameId, 0, 0)
            && x != IdxEntry(b.gameId, |BlockOf(env, ChunkOf([a]))|, 0)
  {
    hide BlockOf, IdxBytes, Writable, EntriesOf, ChunkOf, ParseIdx, Validate;
    var steps := TwoCrashes(a, b);
    var block := BlockOf(env, ChunkOf([a]));
    FirstCrash(env, a, b);
    OneBlockValid(env, a);
    var x, y := IdxEntry(a.gameId, 0, 0), IdxEntry(b.gameId, |block|, 0);
    var i1 := IdxBytes([x], 1)[..12];
    assert block[..|block|] == block;
    assert Run(env, steps, 4).0 == Files(block, i1, true, []);
    assert [] + [b] == [b];
    assert Run(env, steps, 5).0 == Files(block, i1, true, [b]);
    OneEntry(b, |block|);
    assert Run(env, steps, 6).0.idx == i1 + IdxBytes([y], 1)[..8];
    hide Run;
    TwoCutsFile(x, y);
    TwoCutsParse(x, y);
    SplicedIsNew(x, y);
  }

  lemma TwoCutsFile(a: IdxEntry, b: IdxEntry)
    ensures AllOk(TwoCuts(a, b)) && IndexFile(TwoCuts(a, b), 2) == IdxBytes([a], 1)[..12] + IdxBytes([b], 1)[..8]
  {
    hide IdxBytes;
    var appends := TwoCuts(a, b);
    assert IndexFile(appends, 0) == [];
    assert IndexFile(appends, 1) == IdxBytes([a], 1)[..12];
  }
}
