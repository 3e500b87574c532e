/** Identifiers shared by every part of the model, with their derived orders. */
module Types {
  const BLCKSZ := 8192
  const BLOCKS_PER_CHUNK := 32
  const CHUNK_SIZE := 262144
  const SEGMENT_LSN_RANGE := 0x1000_0000

  type U8 = x: int | 0 <= x < 0x100
  type U32 = x: int | 0 <= x < 0x1_0000_0000
  type I32 = x: int | -0x8000_0000 <= x < 0x8000_0000
  type U64 = x: int | 0 <= x < 0x1_0000_0000_0000_0000

  type Bytes = seq<U8>

  datatype Option<+T> = None | Some(value: T)

  /** A fork of a relation: `(spc_oid, db_oid, rel_number, fork_number)`. */
  datatype RelFork = RelFork(spc: U32, db: U32, rel: U32, fork: I32)

  /** A chunk of 32 blocks of a fork; the source repeats the fork's four fields in it. */
  datatype ChunkTag = ChunkTag(rf: RelFork, id: U32)

  datatype Meta = Meta(nblocks: U32, deleted: bool)

  /** Ordered by timeline, then by LSN. */
  datatype Checkpoint = Checkpoint(tl: U32, lsn: U64)

  /** Ordered by timeline, then by index. */
  datatype SegmentId = SegmentId(tl: U32, index: U64)

  /** The default timeline is 1, so the default checkpoint is not all zero. */
  const GENESIS := Checkpoint(1, 0)

  /** Position of a fork in the derived order of `RelFork`. */
  function RfRank(rf: RelFork): int {
    ((rf.spc * 0x1_0000_0000 + rf.db) * 0x1_0000_0000 + rf.rel) * 0x1_0000_0000 + (rf.fork + 0x8000_0000)
  }

  /** Position of a chunk tag in the derived order of `ChunkTag`. */
  function TagRank(t: ChunkTag): int {
    RfRank(t.rf) * 0x1_0000_0000 + t.id
  }

  predicate RfLess(a: RelFork, b: RelFork) {
    || a.spc < b.spc
    || (a.spc == b.spc && a.db < b.db)
    || (a.spc == b.spc && a.db == b.db && a.rel < b.rel)
    || (a.spc == b.spc && a.db == b.db && a.rel == b.rel && a.fork < b.fork)
  }

  predicate TagLess(a: ChunkTag, b: ChunkTag) {
    RfLess(a.rf, b.rf) || (a.rf == b.rf && a.id < b.id)
  }

  /** Field-by-field order and integer rank are the same order. */
  lemma RankIsOrder(a: ChunkTag, b: ChunkTag)
    ensures RfRank(a.rf) < RfRank(b.rf) <==> RfLess(a.rf, b.rf)
    ensures TagRank(a) < TagRank(b) <==> TagLess(a, b)
    ensures RfRank(a.rf) == RfRank(b.rf) <==> a.rf == b.rf
    ensures TagRank(a) == TagRank(b) <==> a == b
  {
    RfRankIsOrder(a.rf, b.rf);
    assert 0 <= a.id < 0x1_0000_0000 && 0 <= b.id < 0x1_0000_0000;
  }

  lemma RfRankIsOrder(a: RelFork, b: RelFork)
    ensures RfRank(a) < RfRank(b) <==> RfLess(a, b)
    ensures RfRank(a) == RfRank(b) <==> a == b
  {
    var (p, q) := (a.spc * 0x1_0000_0000 + a.db, b.spc * 0x1_0000_0000 + b.db);
    assert p < q <==> a.spc < b.spc || (a.spc == b.spc && a.db < b.db);
    assert p == q <==> a.spc == b.spc && a.db == b.db;
    var (r, s) := (p * 0x1_0000_0000 + a.rel, q * 0x1_0000_0000 + b.rel);
    assert r < s <==> p < q || (p == q && a.rel < b.rel);
    assert r == s <==> p == q && a.rel == b.rel;
  }

  predicate CkptLess(a: Checkpoint, b: Checkpoint) {
    a.tl < b.tl || (a.tl == b.tl && a.lsn < b.lsn)
  }

  predicate CkptLe(a: Checkpoint, b: Checkpoint) {
    a == b || CkptLess(a, b)
  }

  predicate SidLess(a: SegmentId, b: SegmentId) {
    a.tl < b.tl || (a.tl == b.tl && a.index < b.index)
  }

  predicate SidLe(a: SegmentId, b: SegmentId) {
    a == b || SidLess(a, b)
  }

  /** The segment whose LSN range holds a checkpoint. */
  function SidOf(c: Checkpoint): SegmentId {
    SegmentId(c.tl, c.lsn / SEGMENT_LSN_RANGE)
  }

  /**
   * Whether some checkpoint of segment `s` lies in `[low, high]`, tested on the
   * segment's lowest and highest possible checkpoints.
   */
  predicate Overlaps(s: SegmentId, low: Checkpoint, high: Checkpoint) {
    var first := s.index * SEGMENT_LSN_RANGE;
    var last := first + SEGMENT_LSN_RANGE - 1;
    && !(s.tl < low.tl || (s.tl == low.tl && last < low.lsn))
    && !(s.tl > high.tl || (s.tl == high.tl && first > high.lsn))
  }

  /** The overlap test never rejects the segment of a checkpoint in the range. */
  lemma OverlapsCovers(c: Checkpoint, low: Checkpoint, high: Checkpoint)
    requires CkptLe(low, c) && CkptLe(c, high)
    ensures Overlaps(SidOf(c), low, high)
  {
  }

  /** Segments follow checkpoint order. */
  lemma SidMonotone(a: Checkpoint, b: Checkpoint)
    requires CkptLe(a, b)
    ensures SidLe(SidOf(a), SidOf(b))
  {
  }

  function Min(a: int, b: int): int {
    if a <= b then a else b
  }

  /** `base` with the bytes from `off` on replaced by `data`. */
  function Splice(base: Bytes, off: nat, data: Bytes): (r: Bytes)
    requires off + |data| <= |base|
    ensures |r| == |base|
    ensures forall i :: 0 <= i < |base| ==> r[i] == if off <= i < off + |data| then data[i - off] else base[i]
  {
    base[..off] + data + base[off + |data|..]
  }

  function Zeros(n: nat): (r: Bytes)
    ensures |r| == n && forall i :: 0 <= i < n ==> r[i] == 0
  {
    seq(n, _ => 0)
  }

  /** The bytes of one chunk. */
  type Chunk = b: Bytes | |b| == CHUNK_SIZE witness Zeros(CHUNK_SIZE)
}
