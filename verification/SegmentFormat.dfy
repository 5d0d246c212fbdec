/**
 The segment format byte by byte, and what it takes for a block to be read: stated
 on raw bytes, without the words and frames the writer is built from.
 */
module SegmentFormat {
  import opened Results
  import opened Wire
  import opened ColumnarBlock
  import opened SegmentSpec
  import opened SegmentProof
  import opened Recompact

  // ---- words ----

  /** Four bytes, least significant first. */
  function Quad(b: Bytes, at: nat): nat
    requires at + 4 <= |b|
  {
    (b[at] as int) + 0x100 * (b[at + 1] as int) + 0x1_0000 * (b[at + 2] as int) + 0x100_0000 * (b[at + 3] as int)
  }

  lemma UnLeFour(s: Bytes)
    requires |s| == 4
    ensures UnLe(s) == Quad(s, 0)
  {
    var (a, b, c) := (s[1..], s[2..], s[3..]);
    assert a[1..] == b && b[1..] == c && c[1..] == [];
    assert UnLe([]) == 0;
    assert UnLe(c) == s[3];
    assert UnLe(b) == s[2] + 256 * UnLe(c);
    assert UnLe(a) == s[1] + 256 * UnLe(b);
  }

  lemma WordIsQuad(b: Bytes, at: nat)
    requires at + 4 <= |b|
    ensures Word(b, at) == Quad(b, at)
  {
    UnLeFour(b[at..at + 4]);
  }

  lemma LeStep(v: nat, n: nat)
    ensures Le(v, n + 1) == [v % 256] + Le(v / 256, n)
  {
  }

  lemma Shifts(v: nat)
    ensures v / 256 / 256 == v / 0x1_0000 && v / 0x1_0000 / 256 == v / 0x100_0000
    ensures v / 0x100_0000 / 256 == v / 0x1_0000_0000
    ensures v % 256 + 0x100 * (v / 256 % 256) + 0x1_0000 * (v / 0x1_0000 % 256) + 0x100_0000 * (v / 0x100_0000 % 256)
         == v % 0x1_0000_0000
  {
  }

  /** The first four bytes hold the low 32 bits, least significant byte first, and the others the rest. */
  lemma LeMore(v: nat, more: nat)
    ensures Le(v, 4 + more)
         == [v % 256, v / 256 % 256, v / 0x1_0000 % 256, v / 0x100_0000 % 256] + Le(v / 0x1_0000_0000, more)
  {
    hide Le;
    Shifts(v);
    LeStep(v, 3 + more);
    LeStep(v / 256, 2 + more);
    LeStep(v / 0x1_0000, 1 + more);
    LeStep(v / 0x100_0000, more);
  }

  /** A word holds its number's low 32 bits, least significant byte first. */
  lemma LeFour(v: nat)
    ensures Le(v, 4) == [v % 256, v / 256 % 256, v / 0x1_0000 % 256, v / 0x100_0000 % 256]
    ensures Quad(Le(v, 4), 0) == v % 0x1_0000_0000
  {
    LeMore(v, 0);
    Shifts(v);
  }

  lemma LeWords(v: nat, more: nat)
    ensures Le(v, 4 + more) == Le(v, 4) + Le(v / 0x1_0000_0000, more)
  {
    hide Le;
    LeMore(v, more);
    LeFour(v);
  }

  lemma QuadIn(file: Bytes, at: nat, v: nat)
    requires at + 4 <= |file| && file[at..at + 4] == Le(v, 4)
    ensures Quad(file, at) == v % 0x1_0000_0000
  {
    LeFour(v);
    var word := file[at..at + 4];
    assert word[0] == file[at] && word[1] == file[at + 1] && word[2] == file[at + 2] && word[3] == file[at + 3];
  }

  // ---- what is written ----

  /** A block is sixteen bytes and the compressed body: "1LSG" before rows or "1COL" before columns, the checksum of
      what follows, its length and that of the body, each as a word. */
  lemma FrameLayout(env: Env, columnar: bool, level: nat, body: Bytes)
    ensures var (f, packed) := (Frame(env, columnar, level, body), env.compress(level, body));
            && |f| == 16 + |packed| && f[16..] == packed
            && f[..4] == (if columnar then [0x31, 0x43, 0x4F, 0x4C] else [0x31, 0x4C, 0x53, 0x47])
            && Quad(f, 4) == env.crc(packed)
            && Quad(f, 8) == |packed| % 0x1_0000_0000 && Quad(f, 12) == |body| % 0x1_0000_0000
  {
    hide Le;
    var (f, packed) := (Frame(env, columnar, level, body), env.compress(level, body));
    var crc, magic := env.crc(packed), Magic(columnar);
    assert f[..4] == Le(magic, 4);
    assert f[4..8] == Le(crc, 4);
    assert f[8..12] == Le(|packed|, 4);
    assert f[12..16] == Le(|body|, 4);
    hide Frame, Header;
    LeFour(magic);
    assert Le(magic, 4) == if columnar then [0x31, 0x43, 0x4F, 0x4C] else [0x31, 0x4C, 0x53, 0x47];
    QuadIn(f, 4, crc);
    QuadIn(f, 8, |packed|);
    QuadIn(f, 12, |body|);
  }

  /** Each row is its length in four bytes and its own bytes, after the rows before it. */
  lemma RowLayout(raws: seq<Bytes>, i: nat)
    requires i < |raws|
    ensures RowBuf(raws, 0) == []
    ensures RowBuf(raws, i + 1) == RowBuf(raws, i) + Le(|raws[i]|, 4) + raws[i]
    ensures Quad(Le(|raws[i]|, 4), 0) == |raws[i]| % 0x1_0000_0000
  {
    LeFour(|raws[i]|);
    hide Le;
    assert RowBuf(raws, i + 1) == RowBuf(raws, i) + RowBytes(raws[i]);
  }

  /** An index entry is twenty bytes: game id and block offset in eight each, record offset in four. */
  lemma EntryLayout(e: IdxEntry)
    ensures var b := EntryBytes(e);
            && |b| == 20
            && Quad(b, 0) == e.gameId % 0x1_0000_0000
            && Quad(b, 4) == e.gameId / 0x1_0000_0000 % 0x1_0000_0000
            && Quad(b, 8) == e.blockOff % 0x1_0000_0000
            && Quad(b, 12) == e.blockOff / 0x1_0000_0000 % 0x1_0000_0000
            && Quad(b, 16) == e.recOff % 0x1_0000_0000
  {
    var b := EntryBytes(e);
    EntryParts(e);
    hide EntryBytes, Le;
    QuadIn(b, 0, e.gameId);
    QuadIn(b, 4, e.gameId / 0x1_0000_0000);
    QuadIn(b, 8, e.blockOff);
    QuadIn(b, 12, e.blockOff / 0x1_0000_0000);
    QuadIn(b, 16, e.recOff);
  }

  lemma EntryParts(e: IdxEntry)
    ensures var b := EntryBytes(e);
            && b[0..4] == Le(e.gameId, 4) && b[4..8] == Le(e.gameId / 0x1_0000_0000, 4)
            && b[8..12] == Le(e.blockOff, 4) && b[12..16] == Le(e.blockOff / 0x1_0000_0000, 4)
            && b[16..20] == Le(e.recOff, 4)
  {
    hide Le;
    LeWords(e.gameId, 4);
    LeWords(e.blockOff, 4);
    var (v, w, x) := (Le(e.gameId, 8), Le(e.blockOff, 8), Le(e.recOff, 4));
    var b := v + w + x;
    assert EntryBytes(e) == b;
    assert b[0..4] == v[..4] && b[4..8] == v[4..8];
    assert b[8..12] == w[..4] && b[12..16] == w[4..8];
    assert b[16..20] == x;
  }

  // ---- what is read ----

  /** The frame of a block at `at` is whole and within the limits, and its bytes have the checksum it states. */
  predicate Intact(env: Env, file: Bytes, at: nat) {
    && at + 16 <= |file|
    && (Quad(file, at) == 0x4753_4C31 || Quad(file, at) == 0x4C4F_4331)
    && at + 16 + Quad(file, at + 8) <= |file|
    && Quad(file, at + 8) <= 268_435_456 && Quad(file, at + 12) <= 268_435_456
    && env.crc(file[at + 16..at + 16 + Quad(file, at + 8)]) == Quad(file, at + 4)
  }

  /** What the block's bytes decompress to, if that has the length stated. */
  function Unpacked(env: Env, file: Bytes, at: nat): Option<Bytes>
    requires Intact(env, file, at)
  {
    var body := env.decompress(file[at + 16..at + 16 + Quad(file, at + 8)], Quad(file, at + 12));
    if body.Some? && |body.value| == Quad(file, at + 12) then body else None
  }

  /** A block is read if and only if its frame is intact, of either kind, it decompresses to the length stated, and
      that decodes; what is read is what it decodes to. */
  lemma ReadIff(env: Env, file: Bytes, at: nat, strict: bool)
    ensures ReadBlock(env, file, at, strict).Good? <==>
            && Intact(env, file, at)
            && Unpacked(env, file, at).Some?
            && if Quad(file, at) == 0x4753_4C31 then RowsFrom(Unpacked(env, file, at).value, 0, strict).Ok?
               else DecodeBlock(Unpacked(env, file, at).value).Ok?
    ensures ReadBlock(env, file, at, strict).Good? ==>
            var (b, body) := (ReadBlock(env, file, at, strict).block, Unpacked(env, file, at).value);
            && b.next == at + 16 + Quad(file, at + 8)
            && b.columnar == (Quad(file, at) == 0x4C4F_4331)
            && if b.columnar then DecodeBlock(body) == Ok(b.records) && b.offsets == seq(|b.records|, i => i)
               else RowsFrom(body, 0, strict) == Ok(Rows(b.records, b.offsets))
  {
    hide RowsFrom, DecodeBlock, Word, Quad;
    if at + 16 <= |file| {
      WordIsQuad(file, at);
      WordIsQuad(file, at + 4);
      WordIsQuad(file, at + 8);
      WordIsQuad(file, at + 12);
    }
  }

  /** A whole row starts at `at`. */
  predicate WholeRow(b: Bytes, at: nat) {
    at + 4 <= |b| && at + 4 + Quad(b, at) <= |b|
  }

  /** The `i`-th row is a whole one, and ends where the next one starts or at `end`. */
  predicate RowIs(b: Bytes, rows: Rows, i: nat, end: nat)
    requires i < |rows.records| == |rows.offsets|
  {
    var at := rows.offsets[i];
    && WholeRow(b, at) && rows.records[i] == b[at + 4..at + 4 + Quad(b, at)]
    && at + 4 + Quad(b, at) == if i + 1 < |rows.offsets| then rows.offsets[i + 1] else end
  }

  /** The rows lie back to back from `off` to `end`, each with its length before it. */
  ghost predicate Lie(b: Bytes, off: nat, rows: Rows, end: nat) {
    && |rows.records| == |rows.offsets| && off <= end <= |b|
    && (forall i: nat | i < |rows.records| :: RowIs(b, rows, i, end))
    && (if |rows.offsets| > 0 then rows.offsets[0] == off else end == off)
  }

  lemma OneMoreLies(b: Bytes, off: nat, rest: Rows, end: nat)
    requires WholeRow(b, off) && Lie(b, off + 4 + Quad(b, off), rest, end)
    ensures Lie(b, off, Rows([b[off + 4..off + 4 + Quad(b, off)]] + rest.records, [off] + rest.offsets), end)
  {
    hide Quad;
    var rows := Rows([b[off + 4..off + 4 + Quad(b, off)]] + rest.records, [off] + rest.offsets);
    forall i: nat | i < |rows.records| ensures RowIs(b, rows, i, end) {
      if i > 0 {
        assert RowIs(b, rest, i - 1, end);
      }
    }
  }

  /** Both row readers take every whole row from the start on and stop at the first that is not; the strict one refuses
      the block if bytes are left there. */
  lemma {:induction false} RowsAreWhole(b: Bytes, off: nat) returns (end: nat)
    requires off <= |b|
    ensures Lie(b, off, RowsFrom(b, off, false).value, end)
    ensures end < |b| ==> !WholeRow(b, end)
    ensures RowsFrom(b, off, true) == if end == |b| then RowsFrom(b, off, false) else Err
    decreases |b| - off
  {
    hide Word, Quad;
    if off + 4 <= |b| {
      WordIsQuad(b, off);
    }
    if WholeRow(b, off) {
      var next := off + 4 + Quad(b, off);
      end := RowsAreWhole(b, next);
      OneMoreLies(b, off, RowsFrom(b, next, false).value, end);
      hide Lie;
    } else {
      end := off;
    }
  }

  /** Bytes that do not have the checksum stated are read by nobody, whatever the kind of the block. */
  lemma CorruptIsRefused(env: Env, file: Bytes, at: nat, strict: bool)
    requires at + 16 <= |file| && at + 16 + Quad(file, at + 8) <= |file|
    requires env.crc(file[at + 16..at + 16 + Quad(file, at + 8)]) != Quad(file, at + 4)
    ensures !ReadBlock(env, file, at, strict).Good?
  {
    hide Quad, ReadBlock;
    ReadIff(env, file, at, strict);
  }

  // ---- the blocks of a rewrite ----

  /** Records are cut into columnar blocks of 6000, at level 19, the last one with what is left. */
  lemma {:induction false} ChunksAre(raws: seq<Bytes>, from: nat, k: nat)
    requires from <= |raws|
    ensures |ChunksOf(raws, from)| == (|raws| - from + 5_999) / 6_000
    ensures k < |ChunksOf(raws, from)| ==>
              from + 6_000 * k < |raws| && ChunksOf(raws, from)[k]
              == Chunk(true, 19,
                   raws[from + 6_000 * k..if from + 6_000 * (k + 1) < |raws| then from + 6_000 * (k + 1) else |raws|])
    decreases |raws| - from
  {
    if from < |raws| {
      var end := if from + RECORDS_PER_BLOCK < |raws| then from + RECORDS_PER_BLOCK else |raws|;
      ChunksAre(raws, end, if k > 0 then k - 1 else 0);
    }
  }
}
