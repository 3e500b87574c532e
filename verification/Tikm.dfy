/**
 * The local TIKM file: a 48-byte header, the sorted chunk section, the sorted fork
 * section and a trailer. Lookups are binary searches over the bytes themselves.
 */
module Tikm {
  import opened Types
  import opened ManifestSpec
  import opened SortedLists
  import opened Manifest
  import opened ByteCodec

  const MAGIC: Bytes := [0x54, 0x49, 0x4B, 0x4D]
  const VERSION := 1
  const HEADER_SIZE := 48
  const TAG_SIZE := 20
  const ENTRY_SIZE := 40
  const META_ENTRY_SIZE := 24

  // ── Entries ──

  function EncodeRf(rf: RelFork): (b: Bytes)
    ensures |b| == 16
  {
    Le32(rf.spc) + Le32(rf.db) + Le32(rf.rel) + Le32(Unsigned(rf.fork))
  }

  function DecodeRf(b: Bytes): RelFork
    requires |b| == 16
  {
    RelFork(To32(b[0..4]), To32(b[4..8]), To32(b[8..12]), Signed(To32(b[12..16])))
  }

  lemma RfRoundTrip(rf: RelFork)
    ensures DecodeRf(EncodeRf(rf)) == rf
  {
    hide To32, Le32;
    var b := EncodeRf(rf);
    assert b[0..4] == Le32(rf.spc) && b[4..8] == Le32(rf.db) && b[8..12] == Le32(rf.rel)
           && b[12..16] == Le32(Unsigned(rf.fork));
  }

  function EncodeTag(t: ChunkTag): (b: Bytes)
    ensures |b| == TAG_SIZE
  {
    EncodeRf(t.rf) + Le32(t.id)
  }

  function DecodeTag(b: Bytes): ChunkTag
    requires |b| == TAG_SIZE
  {
    ChunkTag(DecodeRf(b[0..16]), To32(b[16..20]))
  }

  function EncodeRef(r: ChunkRef): (b: Bytes)
    ensures |b| == 20
  {
    Le64(r.db) + Le32(r.tl) + Le64(r.lsn)
  }

  function DecodeRef(b: Bytes): ChunkRef
    requires |b| == 20
  {
    ChunkRef(To64(b[0..8]), To32(b[8..12]), To64(b[12..20]))
  }

  function EncodeEntry(e: Entry): (b: Bytes)
    ensures |b| == ENTRY_SIZE
  {
    EncodeTag(e.0) + EncodeRef(e.1)
  }

  function DecodeEntry(b: Bytes): Entry
    requires |b| == ENTRY_SIZE
  {
    (DecodeTag(b[0..TAG_SIZE]), DecodeRef(b[TAG_SIZE..ENTRY_SIZE]))
  }

  lemma TagRoundTrip(t: ChunkTag)
    ensures DecodeTag(EncodeTag(t)) == t
  {
    hide To32, Le32, EncodeRf, DecodeRf;
    RfRoundTrip(t.rf);
    var b := EncodeTag(t);
    assert b[0..16] == EncodeRf(t.rf) && b[16..20] == Le32(t.id);
  }

  lemma RefRoundTrip(r: ChunkRef)
    ensures DecodeRef(EncodeRef(r)) == r
  {
    hide To32, Le32, To64, Le64;
    var b := EncodeRef(r);
    assert b[0..8] == Le64(r.db) && b[8..12] == Le32(r.tl) && b[12..20] == Le64(r.lsn);
  }

  lemma EntryRoundTrip(e: Entry)
    ensures DecodeEntry(EncodeEntry(e)) == e
  {
    hide EncodeTag, DecodeTag, EncodeRef, DecodeRef;
    TagRoundTrip(e.0);
    RefRoundTrip(e.1);
    var b := EncodeEntry(e);
    assert b[0..TAG_SIZE] == EncodeTag(e.0) && b[TAG_SIZE..ENTRY_SIZE] == EncodeRef(e.1);
  }

  function EncodeMeta(e: MetaEntry): (b: Bytes)
    ensures |b| == META_ENTRY_SIZE
  {
    EncodeRf(e.0) + Le32(e.1.nblocks) + [if e.1.deleted then 1 else 0, 0, 0, 0]
  }

  function DecodeMeta(b: Bytes): MetaEntry
    requires |b| == META_ENTRY_SIZE
  {
    (DecodeRf(b[0..16]), Meta(To32(b[16..20]), b[20] != 0))
  }

  lemma MetaRoundTrip(e: MetaEntry)
    ensures DecodeMeta(EncodeMeta(e)) == e
  {
    hide To32, Le32, EncodeRf, DecodeRf;
    RfRoundTrip(e.0);
    var b := EncodeMeta(e);
    assert b[0..16] == EncodeRf(e.0) && b[16..20] == Le32(e.1.nblocks);
  }

  // ── Where each field lies ──

  lemma RfLayout(rf: RelFork)
    ensures var b := EncodeRf(rf);
            && To32(b[0..4]) == rf.spc && To32(b[4..8]) == rf.db && To32(b[8..12]) == rf.rel
            && Signed(To32(b[12..16])) == rf.fork
  {
    hide To32, Le32;
    var b := EncodeRf(rf);
    assert b[0..4] == Le32(rf.spc) && b[4..8] == Le32(rf.db) && b[8..12] == Le32(rf.rel)
           && b[12..16] == Le32(Unsigned(rf.fork));
  }

  /** The bytes of a chunk entry that hold each of its fields. */
  lemma EntryLayout(e: Entry)
    ensures var (b, t, r) := (EncodeEntry(e), e.0, e.1);
            && To32(b[0..4]) == t.rf.spc && To32(b[4..8]) == t.rf.db && To32(b[8..12]) == t.rf.rel
            && Signed(To32(b[12..16])) == t.rf.fork && To32(b[16..20]) == t.id
            && To64(b[20..28]) == r.db && To32(b[28..32]) == r.tl && To64(b[32..40]) == r.lsn
  {
    hide To32, Le32, To64, Le64, EncodeRf;
    RfLayout(e.0.rf);
    var b := EncodeEntry(e);
    FrontOf(EncodeRf(e.0.rf), b);
    assert b[16..20] == Le32(e.0.id);
    assert b[20..28] == Le64(e.1.db) && b[28..32] == Le32(e.1.tl) && b[32..40] == Le64(e.1.lsn);
  }

  /** The bytes of a fork entry that hold each of its fields; the last three are zero. */
  lemma MetaLayout(e: MetaEntry)
    ensures var (b, rf, m) := (EncodeMeta(e), e.0, e.1);
            && To32(b[0..4]) == rf.spc && To32(b[4..8]) == rf.db && To32(b[8..12]) == rf.rel
            && Signed(To32(b[12..16])) == rf.fork && To32(b[16..20]) == m.nblocks
            && b[20] == (if m.deleted then 1 else 0) && b[21..24] == [0, 0, 0]
  {
    hide To32, Le32, EncodeRf;
    RfLayout(e.0);
    var b := EncodeMeta(e);
    FrontOf(EncodeRf(e.0), b);
    assert b[16..20] == Le32(e.1.nblocks);
  }

  /** The fields of a fork at the front of a longer record. */
  lemma FrontOf(front: Bytes, b: Bytes)
    requires |front| == 16 && front <= b
    ensures b[0..4] == front[0..4] && b[4..8] == front[4..8] && b[8..12] == front[8..12] && b[12..16] == front[12..16]
  {
  }

  // ── The file ──

  /** Everything a TIKM file holds. */
  datatype Image = Image(tables: Tables, timestamp: I64, pgState: Bytes)

  /** Counts must fit their 64-bit fields. */
  predicate Representable(im: Image) {
    |im.tables.chunks| < 0x1_0000_0000_0000_0000 && |im.tables.meta| < 0x1_0000_0000_0000_0000
    && |im.pgState| < 0x1_0000_0000_0000_0000
  }

  function HeaderOf(im: Image): (b: Bytes)
    requires Representable(im)
    ensures |b| == HEADER_SIZE
  {
    MAGIC + Le32(VERSION) + Le32(im.tables.ckpt.tl) + Le32(im.tables.redo.tl)
    + Le64(im.tables.ckpt.lsn) + Le64(im.tables.redo.lsn)
    + Le64(Unsigned64(im.timestamp)) + Le64(|im.tables.chunks|)
  }

  /** The whole file, section by section. */
  function FileOf(im: Image): Bytes
    requires Representable(im)
  {
    HeaderOf(im) + Records(im.tables.chunks, EncodeEntry)
    + Le64(|im.tables.meta|) + Records(im.tables.meta, EncodeMeta)
    + Le64(|im.pgState|) + im.pgState
  }

  /** Fill `buf` from `lo` on; what is before `lo` stays. */
  method CopyFrom(buf: array<U8>, lo: nat, src: Bytes)
    requires lo + |src| <= buf.Length
    modifies buf
    ensures buf[..lo + |src|] == old(buf[..lo]) + src
  {
    for i := 0 to |src|
      invariant buf[..lo] == old(buf[..lo])
      invariant buf[lo..lo + i] == src[..i]
    {
      buf[lo + i] := src[i];
      assert buf[lo..lo + i + 1] == buf[lo..lo + i] + [src[i]];
    }
    assert src[..|src|] == src;
    assert buf[..lo + |src|] == buf[..lo] + buf[lo..lo + |src|];
  }

  method WriteHeader(im: Image) returns (header: Bytes)
    requires Representable(im)
    ensures header == HeaderOf(im)
  {
    hide Le32, Le64;
    var buf := new U8[HEADER_SIZE](_ => 0);
    assert buf[..0] == [];
    CopyFrom(buf, 0, MAGIC);
    CopyFrom(buf, 4, Le32(VERSION));
    CopyFrom(buf, 8, Le32(im.tables.ckpt.tl));
    CopyFrom(buf, 12, Le32(im.tables.redo.tl));
    CopyFrom(buf, 16, Le64(im.tables.ckpt.lsn));
    CopyFrom(buf, 24, Le64(im.tables.redo.lsn));
    CopyFrom(buf, 32, Le64(Unsigned64(im.timestamp)));
    CopyFrom(buf, 40, Le64(|im.tables.chunks|));
    assert buf[..] == buf[..HEADER_SIZE];
    header := buf[..];
  }

  method WriteChunks(chunks: seq<Entry>) returns (body: Bytes)
    ensures body == Records(chunks, EncodeEntry)
  {
    body := [];
    for n := 0 to |chunks|
      invariant body == Records(chunks[..n], EncodeEntry)
    {
      RecordsSnoc(chunks[..n], chunks[n], EncodeEntry);
      assert chunks[..n + 1] == chunks[..n] + [chunks[n]];
      ghost var was := body;
      body := body + EncodeTag(chunks[n].0);
      body := body + EncodeRef(chunks[n].1);
      assert body == was + EncodeEntry(chunks[n]);
    }
    assert chunks[..|chunks|] == chunks;
  }

  method WriteMetas(meta: seq<MetaEntry>) returns (body: Bytes)
    ensures body == Records(meta, EncodeMeta)
  {
    body := [];
    for n := 0 to |meta|
      invariant body == Records(meta[..n], EncodeMeta)
    {
      RecordsSnoc(meta[..n], meta[n], EncodeMeta);
      assert meta[..n + 1] == meta[..n] + [meta[n]];
      body := body + EncodeMeta(meta[n]);
    }
    assert meta[..|meta|] == meta;
  }

  /** `write_tikm`: the bytes of the published file. */
  method WriteTikm(im: Image) returns (file: Bytes)
    requires Representable(im)
    ensures file == FileOf(im)
  {
    file := WriteHeader(im);
    var chunks := WriteChunks(im.tables.chunks);
    file := file + chunks;
    file := file + Le64(|im.tables.meta|);
    var metas := WriteMetas(im.tables.meta);
    file := file + metas;
    file := file + Le64(|im.pgState|);
    file := file + im.pgState;
  }

  // ── Reading ──

  /** `pread_exact`: none if the file ends first. */
  function Pread(file: Bytes, off: nat, len: nat): Option<Bytes> {
    if off + len <= |file| then Some(file[off..off + len]) else None
  }

  datatype Error = Truncated | BadMagic | BadVersion

  datatype Result<+T> = Ok(value: T) | Err(error: Error)

  /** An open manifest: the file and the header fields. */
  datatype Opened = Opened(file: Bytes, ckpt: Checkpoint, redo: Checkpoint, timestamp: I64, pgState: Bytes,
                           count: U64, metaCount: U64)
  {
    function MetaHeaderOffset(): nat { HEADER_SIZE + count * ENTRY_SIZE }

    function MetaBodyOffset(): nat { MetaHeaderOffset() + 8 }
  }

  function ReadPgState(file: Bytes, off: nat): Option<Bytes> {
    match Pread(file, off, 8)
    case None => None
    case Some(b) => if To64(b) == 0 then Some([]) else Pread(file, off + 8, To64(b))
  }

  function OpenLocal(file: Bytes): Result<Opened> {
    match Pread(file, 0, HEADER_SIZE)
    case None => Err(Truncated)
    case Some(h) =>
      if h[0..4] != MAGIC then
        Err(BadMagic)
      else if To32(h[4..8]) != VERSION then
        Err(BadVersion)
      else
        var count := To64(h[40..48]);
        var metaAt := HEADER_SIZE + count * ENTRY_SIZE;
        match Pread(file, metaAt, 8)
        case None => Err(Truncated)
        case Some(mb) =>
          var metaCount := To64(mb);
          match ReadPgState(file, metaAt + 8 + metaCount * META_ENTRY_SIZE)
          case None => Err(Truncated)
          case Some(pg) =>
            Ok(Opened(file, Checkpoint(To32(h[8..12]), To64(h[16..24])), Checkpoint(To32(h[12..16]), To64(h[24..32])),
                      Signed64(To64(h[32..40])), pg, count, metaCount))
  }

  function OpenedOf(im: Image): Opened
    requires Representable(im)
  {
    Opened(FileOf(im), im.tables.ckpt, im.tables.redo, im.timestamp, im.pgState, |im.tables.chunks|, |im.tables.meta|)
  }

  lemma Middle(a: Bytes, b: Bytes, c: Bytes, i: nat, j: nat)
    requires i <= j <= |b|
    ensures |a + b + c| == |a| + |b| + |c|
    ensures (a + b + c)[|a| + i..|a| + j] == b[i..j]
  {
  }

  /** Where each part of the file is. */
  lemma FileParts(im: Image)
    requires Representable(im)
    ensures var f, n, k := FileOf(im), |im.tables.chunks| * ENTRY_SIZE, |im.tables.meta| * META_ENTRY_SIZE;
            && |f| == HEADER_SIZE + n + 8 + k + 8 + |im.pgState|
            && f[0..HEADER_SIZE] == HeaderOf(im)
            && f[HEADER_SIZE..HEADER_SIZE + n] == Records(im.tables.chunks, EncodeEntry)
            && f[HEADER_SIZE + n..HEADER_SIZE + n + 8] == Le64(|im.tables.meta|)
            && f[HEADER_SIZE + n + 8..HEADER_SIZE + n + 8 + k] == Records(im.tables.meta, EncodeMeta)
            && f[HEADER_SIZE + n + 8 + k..HEADER_SIZE + n + 8 + k + 8] == Le64(|im.pgState|)
            && f[HEADER_SIZE + n + 8 + k + 8..] == im.pgState
  {
    hide HeaderOf, Records, Le64;
    RecordsLength(im.tables.chunks, EncodeEntry, ENTRY_SIZE);
    RecordsLength(im.tables.meta, EncodeMeta, META_ENTRY_SIZE);
  }

  lemma HeaderParts(im: Image)
    requires Representable(im)
    ensures var h := HeaderOf(im);
            && h[0..4] == MAGIC && To32(h[4..8]) == VERSION
            && To32(h[8..12]) == im.tables.ckpt.tl && To32(h[12..16]) == im.tables.redo.tl
            && To64(h[16..24]) == im.tables.ckpt.lsn && To64(h[24..32]) == im.tables.redo.lsn
            && Signed64(To64(h[32..40])) == im.timestamp && To64(h[40..48]) == |im.tables.chunks|
  {
    hide To32, To64, Le32, Le64;
    var h := HeaderOf(im);
    assert h[0..4] == MAGIC && h[4..8] == Le32(VERSION);
    assert h[8..12] == Le32(im.tables.ckpt.tl) && h[12..16] == Le32(im.tables.redo.tl);
    assert h[16..24] == Le64(im.tables.ckpt.lsn) && h[24..32] == Le64(im.tables.redo.lsn);
    assert h[32..40] == Le64(Unsigned64(im.timestamp)) && h[40..48] == Le64(|im.tables.chunks|);
  }

  /** `open_local` recovers every field and count that `write_tikm` wrote. */
  lemma OpenRoundTrip(im: Image)
    requires Representable(im)
    ensures OpenLocal(FileOf(im)) == Ok(OpenedOf(im))
  {
    hide HeaderOf, Records, FileOf, To32, To64, Le32, Le64;
    FileParts(im);
    HeaderParts(im);
    LeOf64(|im.tables.meta|);
    LeOf64(|im.pgState|);
    var f, p := FileOf(im), |FileOf(im)| - |im.pgState|;
    assert f[p..p + |im.pgState|] == f[p..] == im.pgState;
  }

  lemma LeOf64(x: U64)
    ensures To64(Le64(x)) == x
  {
  }

  /** A file cut short anywhere does not open. */
  lemma CutFileFails(im: Image, k: nat)
    requires Representable(im) && k < |FileOf(im)|
    ensures OpenLocal(FileOf(im)[..k]) == Err(Truncated)
  {
    hide HeaderOf, Records, FileOf, To32, To64, Le32, Le64;
    FileParts(im);
    HeaderParts(im);
    LeOf64(|im.tables.meta|);
    LeOf64(|im.pgState|);
    var f := FileOf(im);
    var g := f[..k];
    var m := HEADER_SIZE + |im.tables.chunks| * ENTRY_SIZE;
    var p := m + 8 + |im.tables.meta| * META_ENTRY_SIZE;
    assert k >= HEADER_SIZE ==> g[0..HEADER_SIZE] == f[0..HEADER_SIZE];
    assert k >= m + 8 ==> g[m..m + 8] == f[m..m + 8];
    assert k >= p + 8 ==> g[p..p + 8] == f[p..p + 8];
  }

  // ── Lookups on the bytes ──

  /** Record `i` of a section that starts at byte `at`. */
  lemma RecordIn<T(!new)>(f: Bytes, at: nat, xs: seq<T>, enc: T -> Bytes, size: nat, i: nat)
    requires FixedSize(enc, size) && i < |xs| && at + |Records(xs, enc)| <= |f|
    requires f[at..at + |Records(xs, enc)|] == Records(xs, enc)
    ensures Pread(f, at + i * size, size) == Some(enc(xs[i]))
  {
    hide Records, FixedSize;
    RecordAt(xs, enc, size, i);
    SubSlice(f, at, Records(xs, enc), i * size, i * size + size);
  }

  lemma SubSlice(f: Bytes, at: nat, part: Bytes, i: nat, j: nat)
    requires i <= j <= |part| && at + |part| <= |f| && f[at..at + |part|] == part
    ensures f[at + i..at + j] == part[i..j]
  {
    forall k | 0 <= k < j - i ensures f[at + i..at + j][k] == part[i..j][k] {
      assert f[at..at + |part|][i + k] == f[at + i + k];
    }
  }

  /** Chunk entry `i` of a written file. */
  lemma EntryAt(im: Image, i: nat)
    requires Representable(im) && i < |im.tables.chunks|
    ensures Pread(FileOf(im), HEADER_SIZE + i * ENTRY_SIZE, ENTRY_SIZE) == Some(EncodeEntry(im.tables.chunks[i]))
  {
    hide HeaderOf, Records, FileOf, EncodeEntry, Representable, Le64;
    FileParts(im);
    RecordsLength(im.tables.chunks, EncodeEntry, ENTRY_SIZE);
    RecordIn(FileOf(im), HEADER_SIZE, im.tables.chunks, EncodeEntry, ENTRY_SIZE, i);
  }

  /** Fork entry `i` of a written file. */
  lemma MetaAt(im: Image, i: nat)
    requires Representable(im) && i < |im.tables.meta|
    ensures Pread(FileOf(im), OpenedOf(im).MetaBodyOffset() + i * META_ENTRY_SIZE, META_ENTRY_SIZE)
            == Some(EncodeMeta(im.tables.meta[i]))
  {
    hide HeaderOf, Records, FileOf, EncodeMeta, Representable, Le64;
    FileParts(im);
    RecordsLength(im.tables.meta, EncodeMeta, META_ENTRY_SIZE);
    RecordIn(FileOf(im), OpenedOf(im).MetaBodyOffset(), im.tables.meta, EncodeMeta, META_ENTRY_SIZE, i);
  }

  /** `lookup`: exactly the entry that the sorted list has for the tag. */
  method Lookup(o: Opened, key: ChunkTag, ghost im: Image, ghost m: map<ChunkTag, ChunkRef>)
    returns (r: Result<Option<ChunkRef>>)
    requires Representable(im) && o == OpenedOf(im) && Lists(im.tables.chunks, m, TagRank)
    ensures r == Ok(if key in m then Some(m[key]) else None)
  {
    hide Narrowed, Lists, EncodeEntry, FileOf, DecodeEntry, TagRank;
    ghost var s := im.tables.chunks;
    var lo, hi := 0, o.count;
    assert Narrowed(s, TagRank, key, lo, hi) by { NarrowAll(s, TagRank, key); }
    while lo < hi
      invariant Narrowed(s, TagRank, key, lo, hi) && 0 <= lo <= hi <= |s|
    {
      var mid := lo + (hi - lo) / 2;
      var buf := Pread(o.file, HEADER_SIZE + mid * ENTRY_SIZE, ENTRY_SIZE);
      EntryAt(im, mid);
      EntryRoundTrip(s[mid]);
      Narrow(s, m, TagRank, key, lo, hi, mid);
      if buf.None? {
        return Err(Truncated);
      }
      var e := DecodeEntry(buf.value);
      RankIsOrder(e.0, key);
      if e.0 == key {
        EntryOf(s, m, TagRank, mid);
        return Ok(Some(e.1));
      } else if TagLess(e.0, key) {
        lo := mid + 1;
      } else {
        hi := mid;
      }
    }
    NotThere(s, m, TagRank, key, lo);
    r := Ok(None);
  }

  /** `lookup_relfork_meta`: exactly the entry that the sorted list has for the fork. */
  method LookupMeta(o: Opened, key: RelFork, ghost im: Image, ghost m: map<RelFork, Meta>)
    returns (r: Result<Option<Meta>>)
    requires Representable(im) && o == OpenedOf(im) && Lists(im.tables.meta, m, RfRank)
    ensures r == Ok(if key in m then Some(m[key]) else None)
  {
    hide Narrowed, Lists, EncodeMeta, FileOf, DecodeMeta, RfRank;
    ghost var s := im.tables.meta;
    var lo, hi := 0, o.metaCount;
    NarrowAll(s, RfRank, key);
    while lo < hi
      invariant Narrowed(s, RfRank, key, lo, hi) && 0 <= lo <= hi <= |s|
    {
      var mid := lo + (hi - lo) / 2;
      var buf := Pread(o.file, o.MetaBodyOffset() + mid * META_ENTRY_SIZE, META_ENTRY_SIZE);
      MetaAt(im, mid);
      MetaRoundTrip(s[mid]);
      Narrow(s, m, RfRank, key, lo, hi, mid);
      if buf.None? {
        return Err(Truncated);
      }
      var e := DecodeMeta(buf.value);
      RfRankIsOrder(e.0, key);
      if e.0 == key {
        EntryOf(s, m, RfRank, mid);
        return Ok(Some(e.1));
      } else if RfLess(e.0, key) {
        lo := mid + 1;
      } else {
        hi := mid;
      }
    }
    NotThere(s, m, RfRank, key, lo);
    r := Ok(None);
  }

  /** `read_all_entries`: the chunk list comes back whole. */
  method ReadAllEntries(o: Opened, ghost im: Image) returns (es: seq<Entry>)
    requires Representable(im) && o == OpenedOf(im)
    ensures es == im.tables.chunks
  {
    hide EncodeEntry, FileOf, DecodeEntry;
    es := [];
    for n := 0 to o.count
      invariant es == im.tables.chunks[..n]
    {
      EntryAt(im, n);
      EntryRoundTrip(im.tables.chunks[n]);
      es := es + [DecodeEntry(Pread(o.file, HEADER_SIZE + n * ENTRY_SIZE, ENTRY_SIZE).value)];
    }
  }

  /** `read_all_meta_entries`: the fork list comes back whole. */
  method ReadAllMeta(o: Opened, ghost im: Image) returns (es: seq<MetaEntry>)
    requires Representable(im) && o == OpenedOf(im)
    ensures es == im.tables.meta
  {
    hide EncodeMeta, FileOf, DecodeMeta;
    es := [];
    for n := 0 to o.metaCount
      invariant es == im.tables.meta[..n]
    {
      MetaAt(im, n);
      MetaRoundTrip(im.tables.meta[n]);
      es := es + [DecodeMeta(Pread(o.file, o.MetaBodyOffset() + n * META_ENTRY_SIZE, META_ENTRY_SIZE).value)];
    }
  }
}
