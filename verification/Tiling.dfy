/** How a range of blocks is cut into chunks, and the caller's buffer with it. */
module Tiling {
  import opened Types

  const BLOCK_LIMIT := 0x1_0000_0000 - 32

  /** One chunk of a request: where it lies in the chunk and in the caller's buffer. */
  datatype Item = Item(tag: ChunkTag, full: bool, blockOffset: nat, bufOffset: nat, bufEnd: nat)

  /** The chunk of a block. */
  function TagOf(rf: RelFork, b: nat): ChunkTag
    requires b < 0x1_0000_0000
  {
    ChunkTag(rf, b / BLOCKS_PER_CHUNK)
  }

  /** How many chunks the blocks `[start, last]` touch. */
  function Count(start: nat, last: nat): (n: nat)
    requires start <= last
    ensures n > 0
  {
    last / BLOCKS_PER_CHUNK - start / BLOCKS_PER_CHUNK + 1
  }

  function Max(a: int, b: int): int {
    if a >= b then a else b
  }

  /** First and one-past-last block of the `k`-th piece of `[start, last]`. */
  function First(start: nat, k: nat): nat {
    Max(start, (start / BLOCKS_PER_CHUNK + k) * BLOCKS_PER_CHUNK)
  }

  function Limit(start: nat, last: nat, k: nat): nat {
    Min(last + 1, (start / BLOCKS_PER_CHUNK + k + 1) * BLOCKS_PER_CHUNK)
  }

  /** The `k`-th piece. */
  function Piece(rf: RelFork, start: nat, last: nat, k: nat): Item
    requires start <= last < BLOCK_LIMIT && k < Count(start, last)
  {
    var id := start / BLOCKS_PER_CHUNK + k;
    var (first, limit) := (First(start, k), Limit(start, last, k));
    Item(ChunkTag(rf, id), limit - first == BLOCKS_PER_CHUNK, first - id * BLOCKS_PER_CHUNK,
         (first - start) * BLCKSZ, (limit - start) * BLCKSZ)
  }

  /** The chunks that blocks `[start, start + n)` touch. */
  function TagsOf(rf: RelFork, start: nat, n: nat): (tags: seq<ChunkTag>)
    requires start + n <= BLOCK_LIMIT
    ensures |tags| == if n == 0 then 0 else Count(start, start + n - 1)
  {
    if n == 0 then []
    else seq(Count(start, start + n - 1), k requires 0 <= k < Count(start, start + n - 1) => ChunkTag(rf, start / BLOCKS_PER_CHUNK + k))
  }

  /** They are the chunks of the pieces, no chunk twice. */
  lemma TagsAre(rf: RelFork, start: nat, n: nat)
    requires n > 0 && start + n <= BLOCK_LIMIT
    ensures forall k {:trigger TagsOf(rf, start, n)[k]} :: 0 <= k < Count(start, start + n - 1) ==> TagsOf(rf, start, n)[k] == Piece(rf, start, start + n - 1, k).tag
    ensures forall i, j :: 0 <= i < j < Count(start, start + n - 1) ==> TagsOf(rf, start, n)[i] != TagsOf(rf, start, n)[j]
  {
  }

  /** The pieces tile the buffer: the first starts it, each begins where the last ended, the last ends it. */
  lemma PiecesTile(rf: RelFork, start: nat, last: nat, k: nat)
    requires start <= last < BLOCK_LIMIT && k < Count(start, last)
    ensures Piece(rf, start, last, 0).bufOffset == 0
    ensures Piece(rf, start, last, Count(start, last) - 1).bufEnd == (last + 1 - start) * BLCKSZ
    ensures k + 1 < Count(start, last) ==> Piece(rf, start, last, k).bufEnd == Piece(rf, start, last, k + 1).bufOffset
    ensures Piece(rf, start, last, k).bufOffset < Piece(rf, start, last, k).bufEnd <= (last + 1 - start) * BLCKSZ
  {
  }

  /** A piece stays within its chunk, and covers it exactly when it says so. */
  lemma PieceFits(rf: RelFork, start: nat, last: nat, k: nat)
    requires start <= last < BLOCK_LIMIT && k < Count(start, last)
    ensures var p := Piece(rf, start, last, k);
            && p.blockOffset * BLCKSZ + (p.bufEnd - p.bufOffset) <= CHUNK_SIZE
            && (p.full <==> p.blockOffset == 0 && p.bufEnd - p.bufOffset == CHUNK_SIZE)
            && (p.bufEnd - p.bufOffset) % BLCKSZ == 0
  {
  }

  /**
   * A block of the range is in exactly the piece of its own chunk, at its own place in
   * the chunk and in the buffer.
   */
  lemma BlockInPiece(rf: RelFork, start: nat, last: nat, b: nat, k: nat)
    requires start <= b <= last < BLOCK_LIMIT && k < Count(start, last)
    ensures First(start, k) <= b < Limit(start, last, k) <==> Piece(rf, start, last, k).tag == TagOf(rf, b)
    ensures Piece(rf, start, last, k).tag == TagOf(rf, b) ==>
              var p := Piece(rf, start, last, k);
              p.bufOffset + (b % BLOCKS_PER_CHUNK - p.blockOffset) * BLCKSZ == (b - start) * BLCKSZ
    ensures b / BLOCKS_PER_CHUNK - start / BLOCKS_PER_CHUNK < Count(start, last)
  {
  }

  /** The iterator over the chunks of a block range. */
  class ChunkTagIter {
    var current: ChunkTag
    var endId: U32
    var blkno: nat
    var startBlock: nat
    var endBlock: nat

    /** `k` pieces of `[start, last]` of `rf` have been handed out. */
    ghost predicate After(rf: RelFork, start: nat, last: nat, k: nat)
      reads this
    {
      && start <= last < BLOCK_LIMIT && k <= Count(start, last)
      && startBlock == start && endBlock == last && endId == last / BLOCKS_PER_CHUNK
      && current == ChunkTag(rf, start / BLOCKS_PER_CHUNK + k)
      && blkno == if k < Count(start, last) then First(start, k) else last + 1
    }

    /** `chunk_block_range`. */
    constructor (rf: RelFork, start: nat, nblocks: nat)
      requires nblocks > 0 && start + nblocks <= BLOCK_LIMIT
      ensures After(rf, start, start + nblocks - 1, 0)
    {
      var last := start + nblocks - 1;
      current, endId := TagOf(rf, start), last / BLOCKS_PER_CHUNK;
      blkno, startBlock, endBlock := start, start, last;
    }

    /** `next`: the pieces in order, then none. */
    method Next(ghost rf: RelFork, ghost start: nat, ghost last: nat, ghost k: nat) returns (r: Option<Item>)
      requires After(rf, start, last, k)
      modifies this
      ensures After(rf, start, last, if k < Count(start, last) then k + 1 else k)
      ensures r == if k < Count(start, last) then Some(Piece(rf, start, last, k)) else None
    {
      if current.id > endId {
        return None;
      }
      var tag := current;
      var chunkEnd := (tag.id + 1) * BLOCKS_PER_CHUNK - 1;
      var nblks := Min(chunkEnd, endBlock) - blkno + 1;
      var blockOffset := blkno - tag.id * BLOCKS_PER_CHUNK;
      var bufOffset := (blkno - startBlock) * BLCKSZ;
      var bufEnd := bufOffset + nblks * BLCKSZ;
      blkno := blkno + nblks;
      current := ChunkTag(tag.rf, tag.id + 1);
      r := Some(Item(tag, nblks == BLOCKS_PER_CHUNK, blockOffset, bufOffset, bufEnd));
    }
  }
}
