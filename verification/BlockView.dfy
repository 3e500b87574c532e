/** Blocks as a reader sees them through the chunk view, and what each chunk operation does to them. */
module BlockView {
  import opened Types
  import opened ChunkCache
  import opened Tiling

  type Block = b: Bytes | |b| == BLCKSZ witness Zeros(BLCKSZ)

  type View = map<ChunkTag, Chunk>

  /** Block `i` of a run of blocks. */
  function BlockAt(data: Bytes, i: nat): Block
    requires (i + 1) * BLCKSZ <= |data|
  {
    data[i * BLCKSZ..(i + 1) * BLCKSZ]
  }

  /** Block `b` of a fork, if its chunk is there. */
  function BlockOf(v: View, rf: RelFork, b: nat): Option<Block>
    requires b < BLOCK_LIMIT
  {
    if TagOf(rf, b) in v then Some(BlockAt(v[TagOf(rf, b)], b % BLOCKS_PER_CHUNK)) else None
  }

  lemma SpliceBlock(base: Chunk, off: nat, data: Bytes, i: nat)
    requires |data| % BLCKSZ == 0 && off * BLCKSZ + |data| <= CHUNK_SIZE && i < BLOCKS_PER_CHUNK
    ensures BlockAt(Splice(base, off * BLCKSZ, data), i)
            == if off <= i && (i - off + 1) * BLCKSZ <= |data| then BlockAt(data, i - off) else BlockAt(base, i)
  {
    var r := Splice(base, off * BLCKSZ, data);
    var want := if off <= i && (i - off + 1) * BLCKSZ <= |data| then BlockAt(data, i - off) else BlockAt(base, i);
    forall j | 0 <= j < BLCKSZ ensures BlockAt(r, i)[j] == want[j] {
    }
  }

  /** Blocks of other chunks do not move, and within the chunk only the patched ones change. */
  lemma PatchBlock(v: View, t: ChunkTag, off: nat, data: Bytes, rf: RelFork, b: nat)
    requires b < BLOCK_LIMIT && |data| % BLCKSZ == 0 && off * BLCKSZ + |data| <= CHUNK_SIZE
    ensures var w := v[t := Splice(Base(v, t), off * BLCKSZ, data)];
            var i := b % BLOCKS_PER_CHUNK;
            && (TagOf(rf, b) != t ==> BlockOf(w, rf, b) == BlockOf(v, rf, b))
            && (TagOf(rf, b) == t && off <= i && (i - off + 1) * BLCKSZ <= |data| ==> BlockOf(w, rf, b) == Some(BlockAt(data, i - off)))
            && (TagOf(rf, b) == t && !(off <= i && (i - off + 1) * BLCKSZ <= |data|) && t in v ==> BlockOf(w, rf, b) == BlockOf(v, rf, b))
  {
    SpliceBlock(Base(v, t), off, data, b % BLOCKS_PER_CHUNK);
  }

  /** The blocks `[start, upto)` of the fork are those of `data`; every other block that was there is as before. */
  ghost predicate Written(v: View, w: View, rf: RelFork, start: nat, upto: nat, data: Bytes) {
    && start <= upto <= BLOCK_LIMIT && (upto - start) * BLCKSZ <= |data|
    && (forall b {:trigger BlockOf(w, rf, b)} :: start <= b < upto ==> BlockOf(w, rf, b) == Some(BlockAt(data, b - start)))
    && (forall r, b {:trigger BlockOf(w, r, b)} :: 0 <= b < BLOCK_LIMIT && !(r == rf && start <= b < upto) && BlockOf(v, r, b).Some? ==>
          BlockOf(w, r, b) == BlockOf(v, r, b))
  }

  /** How far the first `k` pieces of `[start, last]` reach. */
  function Reached(start: nat, last: nat, k: nat): nat
    requires start <= last
  {
    if k == 0 then start else Limit(start, last, k - 1)
  }

  lemma SubSlice(d: Bytes, a: nat, b: nat, i: nat, j: nat)
    requires a <= b <= |d| && i <= j <= b - a
    ensures d[a..b][i..j] == d[a + i..a + j]
  {
    assert forall k :: 0 <= k < j - i ==> d[a..b][i..j][k] == d[a + i..a + j][k];
  }

  lemma PieceSlice(data: Bytes, lo: nat, hi: nat, i: nat)
    requires lo * BLCKSZ + (i + 1) * BLCKSZ <= hi * BLCKSZ <= |data|
    ensures BlockAt(data[lo * BLCKSZ..hi * BLCKSZ], i) == BlockAt(data, lo + i)
  {
    SubSlice(data, lo * BLCKSZ, hi * BLCKSZ, i * BLCKSZ, (i + 1) * BLCKSZ);
  }

  /** A piece in blocks: `[lo, hi)` of the file, from where the pieces before it ended. */
  lemma PieceInBlocks(rf: RelFork, start: nat, last: nat, k: nat)
    requires start <= last < BLOCK_LIMIT && k < Count(start, last)
    ensures var (p, lo, hi) := (Piece(rf, start, last, k), First(start, k), Limit(start, last, k));
            && start <= lo < hi <= last + 1 && lo == Reached(start, last, k) && hi == Reached(start, last, k + 1)
            && p.bufOffset == (lo - start) * BLCKSZ && p.bufEnd == (hi - start) * BLCKSZ
            && p.blockOffset == lo % BLOCKS_PER_CHUNK && p.blockOffset + (hi - lo) <= BLOCKS_PER_CHUNK
            && forall b {:trigger TagOf(rf, b)} :: lo <= b < hi ==>
                 TagOf(rf, b) == p.tag && b % BLOCKS_PER_CHUNK == p.blockOffset + (b - lo)
  {
  }

  /** Patching the `k`-th piece extends what is written by its blocks. */
  lemma PatchPiece(v: View, w: View, rf: RelFork, start: nat, last: nat, k: nat, data: Bytes)
    requires start <= last < BLOCK_LIMIT && k < Count(start, last) && |data| == (last + 1 - start) * BLCKSZ
    requires Written(v, w, rf, start, Reached(start, last, k), data)
    ensures var p := Piece(rf, start, last, k);
            && 0 <= p.bufOffset <= p.bufEnd <= |data|
            && p.blockOffset * BLCKSZ + (p.bufEnd - p.bufOffset) <= CHUNK_SIZE
            && Written(v, w[p.tag := Splice(Base(w, p.tag), p.blockOffset * BLCKSZ, data[p.bufOffset..p.bufEnd])],
                       rf, start, Reached(start, last, k + 1), data)
  {
    var p := Piece(rf, start, last, k);
    PiecesTile(rf, start, last, k);
    PieceFits(rf, start, last, k);
    var part := data[p.bufOffset..p.bufEnd];
    var x := w[p.tag := Splice(Base(w, p.tag), p.blockOffset * BLCKSZ, part)];
    var (lo, hi) := (Reached(start, last, k), Reached(start, last, k + 1));
    forall b | start <= b < hi ensures BlockOf(x, rf, b) == Some(BlockAt(data, b - start)) {
      PatchOwn(w, rf, start, last, k, data, b);
    }
    forall r, b | 0 <= b < BLOCK_LIMIT && !(r == rf && start <= b < hi) && BlockOf(v, r, b).Some?
      ensures BlockOf(x, r, b) == BlockOf(v, r, b)
    {
      assert BlockOf(w, r, b) == BlockOf(v, r, b);
      PatchOther(w, rf, start, last, k, data, r, b);
    }
  }

  lemma PatchOwn(w: View, rf: RelFork, start: nat, last: nat, k: nat, data: Bytes, b: nat)
    requires start <= last < BLOCK_LIMIT && k < Count(start, last) && |data| == (last + 1 - start) * BLCKSZ
    requires start <= b < Reached(start, last, k + 1)
    requires b < Reached(start, last, k) ==> BlockOf(w, rf, b) == Some(BlockAt(data, b - start))
    ensures var p := Piece(rf, start, last, k);
            && p.bufOffset <= p.bufEnd <= |data| && p.blockOffset * BLCKSZ + (p.bufEnd - p.bufOffset) <= CHUNK_SIZE
            && BlockOf(w[p.tag := Splice(Base(w, p.tag), p.blockOffset * BLCKSZ, data[p.bufOffset..p.bufEnd])], rf, b)
               == Some(BlockAt(data, b - start))
  {
    PieceInBlocks(rf, start, last, k);
    BlockInPiece(rf, start, last, b, k);
    hide Piece, First, Limit, Reached, BlockAt, Count;
    var p := Piece(rf, start, last, k);
    var (lo, hi) := (First(start, k), Limit(start, last, k));
    PatchBlock(w, p.tag, p.blockOffset, data[p.bufOffset..p.bufEnd], rf, b);
    if b >= lo {
      assert TagOf(rf, b) == p.tag;
      PieceSlice(data, lo - start, hi - start, b - lo);
    }
  }

  lemma PatchOther(w: View, rf: RelFork, start: nat, last: nat, k: nat, data: Bytes, r: RelFork, b: nat)
    requires start <= last < BLOCK_LIMIT && k < Count(start, last) && |data| == (last + 1 - start) * BLCKSZ
    requires b < BLOCK_LIMIT && !(r == rf && start <= b < Reached(start, last, k + 1)) && BlockOf(w, r, b).Some?
    ensures var p := Piece(rf, start, last, k);
            && p.bufOffset <= p.bufEnd <= |data| && p.blockOffset * BLCKSZ + (p.bufEnd - p.bufOffset) <= CHUNK_SIZE
            && BlockOf(w[p.tag := Splice(Base(w, p.tag), p.blockOffset * BLCKSZ, data[p.bufOffset..p.bufEnd])], r, b)
               == BlockOf(w, r, b)
  {
    var p := Piece(rf, start, last, k);
    PiecesTile(rf, start, last, k);
    PieceFits(rf, start, last, k);
    PatchBlock(w, p.tag, p.blockOffset, data[p.bufOffset..p.bufEnd], r, b);
  }

  // ── Reading ──

  /** The blocks `[start, upto)` of the file `f` stand at the front of the buffer. */
  ghost predicate Filled(buf: Bytes, f: seq<Block>, start: nat, upto: nat) {
    && start <= upto <= |f| && (upto - start) * BLCKSZ <= |buf|
    && forall i {:trigger BlockAt(buf, i)} :: 0 <= i < upto - start ==> BlockAt(buf, i) == f[start + i]
  }

  /** The bytes of a chunk that a piece asks for. */
  function PartOf(chunk: Chunk, p: Item): Bytes
    requires p.bufOffset <= p.bufEnd && p.blockOffset * BLCKSZ + (p.bufEnd - p.bufOffset) <= CHUNK_SIZE
  {
    chunk[p.blockOffset * BLCKSZ..p.blockOffset * BLCKSZ + (p.bufEnd - p.bufOffset)]
  }

  lemma SpliceBuf(buf: Bytes, lo: nat, hi: nat, part: Bytes, i: nat)
    requires lo <= hi && hi * BLCKSZ <= |buf| && |part| == (hi - lo) * BLCKSZ && i < hi
    ensures BlockAt(Splice(buf, lo * BLCKSZ, part), i) == if i < lo then BlockAt(buf, i) else BlockAt(part, i - lo)
  {
    var r := Splice(buf, lo * BLCKSZ, part);
    forall j | 0 <= j < BLCKSZ
      ensures BlockAt(r, i)[j] == (if i < lo then BlockAt(buf, i) else BlockAt(part, i - lo))[j]
    {
    }
  }

  /** Blocks `[off, off + hi - lo)` of a chunk copied to blocks `[lo, hi)` of the buffer. */
  lemma CopiedBlock(buf: Bytes, chunk: Chunk, off: nat, lo: nat, hi: nat, i: nat)
    requires lo <= hi && hi * BLCKSZ <= |buf| && off + (hi - lo) <= BLOCKS_PER_CHUNK && i < hi
    ensures BlockAt(Splice(buf, lo * BLCKSZ, chunk[off * BLCKSZ..off * BLCKSZ + (hi - lo) * BLCKSZ]), i)
            == if i < lo then BlockAt(buf, i) else BlockAt(chunk, off + i - lo)
  {
    var part := chunk[off * BLCKSZ..off * BLCKSZ + (hi - lo) * BLCKSZ];
    SpliceBuf(buf, lo, hi, part, i);
    if i >= lo {
      SubSlice(chunk, off * BLCKSZ, off * BLCKSZ + (hi - lo) * BLCKSZ, (i - lo) * BLCKSZ, (i - lo + 1) * BLCKSZ);
    }
  }

  /** Copying the `k`-th piece out of its chunk fills the buffer as far as the piece reaches. */
  lemma FillPiece(buf: Bytes, v: View, f: seq<Block>, rf: RelFork, start: nat, last: nat, k: nat)
    requires start <= last < |f| <= BLOCK_LIMIT && k < Count(start, last) && |buf| >= (last + 1 - start) * BLCKSZ
    requires Filled(buf, f, start, Reached(start, last, k))
    requires forall b {:trigger BlockOf(v, rf, b)} :: 0 <= b < |f| ==> BlockOf(v, rf, b) == Some(f[b])
    ensures var p := Piece(rf, start, last, k);
            && p.tag in v && p.bufOffset <= p.bufEnd <= |buf|
            && p.blockOffset * BLCKSZ + (p.bufEnd - p.bufOffset) <= CHUNK_SIZE
            && Filled(Splice(buf, p.bufOffset, PartOf(v[p.tag], p)), f, start, Reached(start, last, k + 1))
  {
    var p := Piece(rf, start, last, k);
    PiecesTile(rf, start, last, k);
    PieceFits(rf, start, last, k);
    var (lo, hi) := (First(start, k), Limit(start, last, k));
    BlockInPiece(rf, start, last, lo, k);
    assert BlockOf(v, rf, lo) == Some(f[lo]);
    var part := PartOf(v[p.tag], p);
    forall i | 0 <= i < hi - start ensures BlockAt(Splice(buf, p.bufOffset, part), i) == f[start + i] {
      FillBlock(buf, v, f, rf, start, last, k, i);
    }
  }

  lemma FillBlock(buf: Bytes, v: View, f: seq<Block>, rf: RelFork, start: nat, last: nat, k: nat, i: nat)
    requires start <= last < |f| <= BLOCK_LIMIT && k < Count(start, last) && |buf| >= (last + 1 - start) * BLCKSZ
    requires Filled(buf, f, start, Reached(start, last, k)) && i < Limit(start, last, k) - start
    requires BlockOf(v, rf, start + i) == Some(f[start + i])
    requires Piece(rf, start, last, k).tag in v
    ensures var p := Piece(rf, start, last, k);
            && p.bufOffset <= p.bufEnd <= |buf| && p.blockOffset * BLCKSZ + (p.bufEnd - p.bufOffset) <= CHUNK_SIZE
            && BlockAt(Splice(buf, p.bufOffset, PartOf(v[p.tag], p)), i) == f[start + i]
  {
    PieceInBlocks(rf, start, last, k);
    var p := Piece(rf, start, last, k);
    var (lo, hi) := (First(start, k), Limit(start, last, k));
    assert TagOf(rf, start + i) == p.tag || i < lo - start;
    hide Piece, First, Limit, Reached, BlockAt, Count, Splice;
    CopiedBlock(buf, v[p.tag], p.blockOffset, lo - start, hi - start, i);
  }
}
