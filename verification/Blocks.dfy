/**
 * Relation forks as growable arrays of blocks: what `read_blocks`, `write_blocks`,
 * truncate, delete and create do to them through the two caches.
 */
module Blocks {
  import opened Types
  import opened HashChains
  import opened Tiling
  import opened BlockView
  import opened CacheRoom
  import C = ChunkCache
  import M = MetaCache

  /** The specification: the blocks of each live fork. */
  type Files = map<RelFork, seq<Block>>

  /** Lengths and contents of every live fork are those of the specification. */
  ghost predicate Agrees(metas: map<RelFork, Meta>, v: View, files: Files) {
    && (forall rf {:trigger rf in files} :: rf in files <==> rf in metas && !metas[rf].deleted)
    && (forall rf {:trigger files[rf]} :: rf in files ==>
          |files[rf]| == metas[rf].nblocks <= BLOCK_LIMIT && Shows(v, rf, files[rf]))
  }

  /** Every block of the file is what the chunk view has. */
  ghost predicate Shows(v: View, rf: RelFork, f: seq<Block>) {
    |f| <= BLOCK_LIMIT && forall b {:trigger BlockOf(v, rf, b)} :: 0 <= b < |f| ==> BlockOf(v, rf, b) == Some(f[b])
  }

  function DataBlocks(data: Bytes, n: nat): seq<Block>
    requires n * BLCKSZ <= |data|
  {
    seq(n, i requires 0 <= i < n => BlockAt(data, i))
  }

  /** The file with the blocks of `ws` from `start` on, longer if they reach further. */
  function Overwritten(f: seq<Block>, start: nat, ws: seq<Block>): (g: seq<Block>)
    requires start <= |f|
    ensures |g| == Max(|f|, start + |ws|)
    ensures forall b :: 0 <= b < |g| ==> g[b] == if start <= b < start + |ws| then ws[b - start] else f[b]
  {
    f[..start] + ws + (if start + |ws| < |f| then f[start + |ws|..] else [])
  }

  lemma AgreesCreate(metas: map<RelFork, Meta>, v: View, files: Files, rf: RelFork)
    requires Agrees(metas, v, files)
    ensures Agrees(metas[rf := Meta(0, false)], v, files[rf := []])
  {
  }

  lemma AgreesDelete(metas: map<RelFork, Meta>, v: View, files: Files, rf: RelFork)
    requires Agrees(metas, v, files)
    ensures Agrees(metas[rf := Meta(0, true)], v, files - {rf})
  {
    hide Shows;
  }

  lemma AgreesShorter(metas: map<RelFork, Meta>, v: View, files: Files, rf: RelFork, n: U32)
    requires Agrees(metas, v, files) && rf in files && n <= |files[rf]|
    ensures Agrees(metas[rf := Meta(n, false)], v, files[rf := files[rf][..n]])
  {
    assert Shows(v, rf, files[rf][..n]);
    hide Shows;
  }

  /** Dropping cached chunks beyond the end of a file hides none of its blocks. */
  lemma AgreesTruncated(metas: map<RelFork, Meta>, v: View, w: View, store: View, files: Files, rf: RelFork, n: nat)
    requires Agrees(metas, v, files) && C.TruncatedView(v, store, w, rf, n)
    requires rf in files ==> |files[rf]| <= n
    ensures Agrees(metas, w, files)
  {
    forall r | r in files ensures Shows(w, r, files[r]) {
      forall b | 0 <= b < |files[r]| ensures BlockOf(w, r, b) == Some(files[r][b]) {
        assert BlockOf(v, r, b) == Some(files[r][b]);
        var t := TagOf(r, b);
        assert !C.Beyond(rf, n, t);
        assert t in w <==> t in v;
      }
    }
    hide Shows;
  }

  /** A whole write, and the length that follows it. */
  lemma AgreesWritten(metas: map<RelFork, Meta>, v: View, w: View, files: Files, rf: RelFork, start: nat, n: nat, data: Bytes)
    requires Agrees(metas, v, files) && rf in files && start <= |files[rf]| && start + n <= BLOCK_LIMIT
    requires Written(v, w, rf, start, start + n, data)
    ensures Agrees(metas[rf := Meta(Max(metas[rf].nblocks, start + n), false)], w,
                   files[rf := Overwritten(files[rf], start, DataBlocks(data, n))])
  {
    var g := Overwritten(files[rf], start, DataBlocks(data, n));
    assert Shows(w, rf, g) by {
      forall b | 0 <= b < |g| ensures BlockOf(w, rf, b) == Some(g[b]) {
        if !(start <= b < start + n) {
          assert BlockOf(v, rf, b) == Some(files[rf][b]);
        }
      }
    }
    OthersStay(v, w, files, rf, start, start + n, data);
    hide Shows, Written;
  }

  lemma OthersStay(v: View, w: View, files: Files, rf: RelFork, start: nat, upto: nat, data: Bytes)
    requires Written(v, w, rf, start, upto, data)
    ensures forall r {:trigger files[r]} :: r in files && r != rf && Shows(v, r, files[r]) ==> Shows(w, r, files[r])
  {
    forall r | r in files && r != rf && Shows(v, r, files[r]) ensures Shows(w, r, files[r]) {
      forall b | 0 <= b < |files[r]| ensures BlockOf(w, r, b) == Some(files[r][b]) {
        assert BlockOf(v, r, b) == Some(files[r][b]);
      }
    }
  }

  /** A write cut off after some pieces, with the old length: what lies within it changed. */
  lemma AgreesCut(metas: map<RelFork, Meta>, v: View, w: View, files: Files, rf: RelFork, start: nat, upto: nat, data: Bytes)
    requires Agrees(metas, v, files) && rf in files && start <= |files[rf]|
    requires Written(v, w, rf, start, upto, data)
    ensures Agrees(metas, w, files[rf := Overwritten(files[rf], start, DataBlocks(data, upto - start))[..|files[rf]|]])
  {
    var g := Overwritten(files[rf], start, DataBlocks(data, upto - start))[..|files[rf]|];
    assert Shows(w, rf, g) by {
      forall b | 0 <= b < |g| ensures BlockOf(w, rf, b) == Some(g[b]) {
        if !(start <= b < upto) {
          assert BlockOf(v, rf, b) == Some(files[rf][b]);
        }
      }
    }
    OthersStay(v, w, files, rf, start, upto, data);
    hide Shows, Written;
  }

  // ── The operations ──

  datatype Error = NoSuchFork | BeyondEof | AlreadyThere | NoSlot | FlushFailed

  datatype Result<+T> = Ok(value: T) | Err(error: Error)

  /** Copy `src` into the buffer at byte `lo`. */
  method CopyInto(buf: array<U8>, lo: nat, src: Bytes)
    requires lo + |src| <= buf.Length
    modifies buf
    ensures buf[..] == Splice(old(buf[..]), lo, src)
  {
    ghost var was := buf[..];
    for i := 0 to |src|
      invariant forall j :: 0 <= j < buf.Length ==> buf[j] == if lo <= j < lo + i then src[j - lo] else was[j]
    {
      buf[lo + i] := src[i];
    }
  }

  /** A piece lies within its chunk and within the buffer. */
  predicate WellPlaced(p: Item, len: nat) {
    && p.bufOffset <= p.bufEnd <= len
    && p.blockOffset * BLCKSZ + (p.bufEnd - p.bufOffset) <= CHUNK_SIZE
    && (p.full ==> p.blockOffset == 0 && p.bufEnd - p.bufOffset == CHUNK_SIZE)
  }

  /** The piece's bytes were copied out of its chunk into the buffer, and nothing else. */
  ghost predicate CopiedIn(before: Bytes, after: Bytes, v: View, p: Item)
    requires WellPlaced(p, |before|)
  {
    p.tag in v && after == Splice(before, p.bufOffset, PartOf(v[p.tag], p))
  }

  class BlockStore {
    const chunks: C.ChunkCache
    const metas: M.MetaCache
    /** The blocks of every live fork. */
    ghost var files: Files

    /** The two caches share nothing. */
    ghost predicate Apart() {
      && chunks.repr !! metas.repr
      && this !in chunks.repr && this !in metas.repr
      && chunks !in chunks.repr && chunks !in metas.repr && metas !in chunks.repr && metas !in metas.repr
      && chunks.slots in chunks.repr && metas.slots in metas.repr
      && repr == {chunks, metas} + chunks.repr + metas.repr
    }

    ghost const repr: set<object>

    /** The caches are sound, whatever they hold. */
    ghost predicate Sound()
      reads this, repr
    {
      Apart() && chunks.Valid() && metas.Valid()
    }

    ghost predicate Valid()
      reads this, repr
    {
      Sound() && Agrees(metas.slots.view, chunks.slots.view, files)
    }

    /** On an empty store. */
    constructor (n: nat, buckets: nat, hash: ChunkTag -> nat, m: nat, metaBuckets: nat, forkHash: RelFork -> nat)
      requires 0 < n <= NIL && buckets > 0 && 0 < m <= NIL && metaBuckets > 0
      ensures Valid() && files == map[] && fresh(repr)
    {
      hide C.ChunkCache.Valid, M.MetaCache.Valid;
      var c := new C.ChunkCache(n, buckets, hash, map[]);
      var x := new M.MetaCache(m, metaBuckets, forkHash, map[]);
      chunks, metas := c, x;
      repr := {c, x} + c.repr + x.repr;
      files := map[];
    }

    // ── When an operation can be served ──

    /** What decides whether chunks can be served. */
    ghost function ChunkState(down: set<ChunkTag>): (s: Counters)
      requires Sound()
      reads this, repr
      ensures Sane(s)
    {
      chunks.State(down)
    }

    /** The blocks `[start, start + n)`, as far as the file goes, can be read. */
    ghost predicate CanRead(rf: RelFork, start: nat, n: nat, downC: set<ChunkTag>, down: set<RelFork>)
      requires Valid()
      reads this, repr
    {
      hide C.ChunkCache.Valid, M.MetaCache.Valid, Shows;
      && rf in files && metas.CanHold(rf, down) && start <= |files[rf]|
      && CanServe(ChunkState(downC), TagsOf(rf, start, Min(n, |files[rf]| - start)))
    }

    /** The blocks `[start, start + n)` can be written. */
    ghost predicate CanWrite(rf: RelFork, start: nat, n: nat, downC: set<ChunkTag>, down: set<RelFork>)
      requires Valid() && start + n <= BLOCK_LIMIT
      reads this, repr
    {
      hide C.ChunkCache.Valid, M.MetaCache.Valid;
      rf in files && metas.CanHold(rf, down) && CanServe(ChunkState(downC), TagsOf(rf, start, n))
    }

    // ── Metadata ──

    /** `create`: an absent fork becomes live and empty. */
    method Create(rf: RelFork, down: set<RelFork>) returns (r: Result<()>)
      requires Valid() && rf != M.NO_FORK
      modifies this, repr
      ensures Valid()
      ensures r.Ok? ==> rf !in old(files) && files == old(files)[rf := []]
      ensures r.Err? ==> files == old(files) && (r.error.AlreadyThere? ==> rf in files)
      ensures r.Ok? <==> rf !in old(files) && old(metas.CanHold(rf, down))
    {
      hide C.ChunkCache.Valid, M.MetaCache.Valid;
      ghost var was, v := metas.slots.view, chunks.slots.view;
      var x := metas.CreateRelfork(rf, down);
      AgreesCreate(was, v, files, rf);
      hide Agrees;
      match x
      case Ok(_) =>
        files := files[rf := []];
        r := Ok(());
      case Err(e) => r := Err(if e.AlreadyExists? then AlreadyThere else NoSlot);
    }

    /** `get_nblocks`: the length of a live fork. */
    method GetNblocks(rf: RelFork, down: set<RelFork>) returns (r: Result<nat>)
      requires Valid() && rf != M.NO_FORK
      modifies metas.repr
      ensures Valid() && files == old(files) && chunks.slots.view == old(chunks.slots.view) && metas.slots.view == old(metas.slots.view)
      ensures r.Ok? ==> rf in files && r.value == |files[rf]| && metas.CanHold(rf, down)
      ensures r == Err(NoSuchFork) ==> rf !in files
      ensures r.Ok? <==> rf in files && old(metas.CanHold(rf, down))
    {
      hide C.ChunkCache.Valid, M.MetaCache.Valid;
      var x := metas.GetNblocks(rf, down);
      match x
      case Ok(n) => r := Ok(n);
      case Err(e) => r := Err(if e.NotFound? then NoSuchFork else NoSlot);
    }

    /** `truncate_relfork`: metadata first, so that no reader asks for what is dropped next. */
    method Truncate(rf: RelFork, nblocks: U32, down: set<RelFork>) returns (r: Result<()>)
      requires Valid() && rf != M.NO_FORK && (rf in files ==> nblocks <= |files[rf]|)
      modifies this, repr
      ensures Valid()
      ensures r.Ok? ==> rf in old(files) && files == old(files)[rf := old(files)[rf][..nblocks]]
      ensures r.Err? ==> files == old(files) && (r.error.NoSuchFork? ==> rf !in files)
      ensures r.Ok? <==> rf in old(files) && old(metas.CanHold(rf, down))
    {
      hide C.ChunkCache.Valid, M.MetaCache.Valid;
      ghost var was, v := metas.slots.view, chunks.slots.view;
      var x := metas.PutNblocks(rf, nblocks, down);
      if x.Err? {
        return Err(if x.error.NotFound? then NoSuchFork else NoSlot);
      }
      AgreesShorter(was, v, files, rf, nblocks);
      files := files[rf := files[rf][..nblocks]];
      hide Agrees, C.TruncatedView;
      chunks.TruncateRelfork(rf, nblocks);
      AgreesTruncated(metas.slots.view, v, chunks.slots.view, chunks.slots.store, files, rf, nblocks);
      r := Ok(());
    }

    /** `delete_fork`: mark it deleted, then drop all its cached chunks. */
    method Delete(rf: RelFork, down: set<RelFork>) returns (r: Result<()>)
      requires Valid() && rf != M.NO_FORK
      modifies this, repr
      ensures Valid()
      ensures r.Ok? ==> rf in old(files) && files == old(files) - {rf}
      ensures r.Err? ==> files == old(files) && (r.error.NoSuchFork? ==> rf !in files)
      ensures r.Ok? <==> rf in old(files) && old(metas.CanHold(rf, down))
    {
      hide C.ChunkCache.Valid, M.MetaCache.Valid;
      ghost var was, v := metas.slots.view, chunks.slots.view;
      var x := metas.PutDeleted(rf, true, down);
      if x.Err? {
        return Err(if x.error.NotFound? then NoSuchFork else NoSlot);
      }
      AgreesDelete(was, v, files, rf);
      files := files - {rf};
      hide Agrees, C.TruncatedView;
      chunks.TruncateRelfork(rf, 0);
      AgreesTruncated(metas.slots.view, v, chunks.slots.view, chunks.slots.store, files, rf, 0);
      r := Ok(());
    }

    /** `flush_dirty`: chunks first, then metadata; afterwards the store alone has every file. */
    method FlushDirty(downC: set<ChunkTag>, down: set<RelFork>) returns (r: Result<()>)
      requires Valid()
      modifies repr
      ensures Valid()
      ensures r.Ok? ==> Agrees(metas.slots.store, chunks.slots.store, files)
      ensures r.Ok? <==> old(chunks.CanFlush(None, downC) && metas.CanFlush(None, down))
    {
      hide C.ChunkCache.Valid, M.MetaCache.Valid;
      var a := chunks.FlushDirtyChunks(None, downC);
      if !a {
        return Err(FlushFailed);
      }
      var b := metas.FlushDirtyMetas(None, down);
      if !b {
        return Err(FlushFailed);
      }
      r := Ok(());
    }

    // ── Data ──

    /** `get_chunk_merge`: a whole chunk straight into its place, or part of one through a temporary. */
    method GetChunkMerge(p: Item, buf: array<U8>, down: set<ChunkTag>) returns (r: Result<()>)
      requires Valid() && p.tag != C.NO_TAG && WellPlaced(p, buf.Length)
      requires var b: object := buf; b !in repr
      modifies chunks.repr, buf
      ensures Valid() && files == old(files) && chunks.slots.view == old(chunks.slots.view) && metas.slots.view == old(metas.slots.view)
      ensures r.Ok? ==> CopiedIn(old(buf[..]), buf[..], chunks.slots.view, p)
      ensures r == Err(NoSuchFork) <==> p.tag !in chunks.slots.view
      ensures r == Err(NoSlot) <==> p.tag in chunks.slots.view && !CanServeOne(old(ChunkState(down)), p.tag)
      ensures r.Ok? ==> Served(old(ChunkState(down)), ChunkState(down), p.tag)
      ensures r.Err? ==> r.error in {NoSuchFork, NoSlot}
    {
      hide C.ChunkCache.Valid, M.MetaCache.Valid, Agrees, CanServeOne, Served;
      var got := chunks.GetChunk(p.tag, down);
      match got
      case NotFound => r := Err(NoSuchFork);
      case Exhausted => r := Err(NoSlot);
      case Ok(chunk) =>
        if p.full {
          assert PartOf(chunk, p) == chunk;
          CopyInto(buf, p.bufOffset, chunk);
        } else {
          var offset := p.blockOffset * BLCKSZ;
          CopyInto(buf, p.bufOffset, chunk[offset..offset + (p.bufEnd - p.bufOffset)]);
        }
        r := Ok(());
    }

    lemma FileShows(rf: RelFork)
      requires Valid() && rf in files
      ensures |files[rf]| <= BLOCK_LIMIT && Shows(chunks.slots.view, rf, files[rf])
    {
      ShowsOf(metas.slots.view, chunks.slots.view, files, rf);
    }

    /** Copy one piece of a read into its place. */
    method ReadPiece(item: Item, rf: RelFork, ghost start: nat, ghost last: nat, ghost k: nat, buf: array<U8>, down: set<ChunkTag>)
      returns (r: Result<()>)
      requires Valid() && rf != M.NO_FORK && rf in files && start <= last < |files[rf]| && last < BLOCK_LIMIT && k < Count(start, last)
      requires item == Piece(rf, start, last, k) && (last + 1 - start) * BLCKSZ <= buf.Length
      requires Filled(buf[..], files[rf], start, Reached(start, last, k))
      requires var b: object := buf; b !in repr
      modifies chunks.repr, buf
      ensures Valid() && files == old(files) && chunks.slots.view == old(chunks.slots.view) && metas.slots.view == old(metas.slots.view)
      ensures r.Ok? ==> Filled(buf[..], files[rf], start, Reached(start, last, k + 1))
      ensures r.Ok? ==> Served(old(ChunkState(down)), ChunkState(down), item.tag)
      ensures r.Err? ==> r.error == NoSlot && !CanServeOne(old(ChunkState(down)), item.tag)
    {
      hide BlockStore.Valid, Piece, Filled, Shows, Count, Reached, WellPlaced, CopiedIn, CanServeOne, Served;
      FileShows(rf);
      FillNext(buf[..], chunks.slots.view, files[rf], rf, start, last, k);
      r := GetChunkMerge(item, buf, down);
    }

    /** Copy blocks `[start, start + n)`, all within the file, to the front of the buffer. */
    method ReadRange(rf: RelFork, start: nat, n: nat, buf: array<U8>, down: set<ChunkTag>) returns (r: Result<nat>)
      requires Valid() && rf != M.NO_FORK && rf in files && n > 0 && start + n <= |files[rf]| && n * BLCKSZ <= buf.Length
      requires var b: object := buf; b !in repr
      modifies chunks.repr, buf
      ensures Valid() && files == old(files) && chunks.slots.view == old(chunks.slots.view) && metas.slots.view == old(metas.slots.view)
      ensures r.Ok? ==> r.value == n && Filled(buf[..], files[rf], start, start + n)
      ensures r.Err? ==> r.error == NoSlot
      ensures start + n <= BLOCK_LIMIT && (r.Ok? <==> CanServe(old(ChunkState(down)), TagsOf(rf, start, n)))
    {
      hide BlockStore.Sound, Agrees, Piece, Filled, Shows, Count, Reached, First, Limit, CanServeOne, Served, CanServe, Serving, TagsOf;
      FileShows(rf);
      ghost var state0, tags := ChunkState(down), TagsOf(rf, start, n);
      TagsAre(rf, start, n);
      ServingStart(state0, tags);
      ghost var f, last, k := files[rf], start + n - 1, 0;
      FilledNone(buf[..], f, start, last);
      var iter := new ChunkTagIter(rf, start, n);
      while true
        invariant fresh(iter) && iter.After(rf, start, last, k) && k <= Count(start, last)
        invariant Valid() && files == old(files)
        invariant chunks.slots.view == old(chunks.slots.view) && metas.slots.view == old(metas.slots.view)
        invariant Filled(buf[..], f, start, Reached(start, last, k)) && Serving(state0, ChunkState(down), tags, k)
        decreases Count(start, last) - k
      {
        ghost var state := ChunkState(down);
        var item := iter.Next(rf, start, last, k);
        if item.None? {
          break;
        }
        var got := ReadPiece(item.value, rf, start, last, k, buf, down);
        if got.Err? {
          ServingFails(state0, state, tags, k);
          return Err(got.error);
        }
        ServingNext(state0, state, ChunkState(down), tags, k);
        k := k + 1;
      }
      ReachedEnd(start, last);
      ServingEnds(state0, ChunkState(down), tags);
      r := Ok(n);
    }

    /**
     * `read_blocks`: the bytes last written to each block, clipped at the end of the
     * file, at the front of the buffer. It succeeds exactly when the fork is live, the range
     * starts within it, and the caches can serve its entry and its chunks.
     */
    method ReadBlocks(rf: RelFork, start: nat, n: nat, buf: array<U8>, downC: set<ChunkTag>, down: set<RelFork>) returns (r: Result<nat>)
      requires Valid() && rf != M.NO_FORK && n * BLCKSZ <= buf.Length
      requires var b: object := buf; b !in repr
      modifies repr, buf
      ensures Valid()
      ensures r.Ok? ==> rf in files && start <= |files[rf]| && r.value == Min(n, |files[rf]| - start)
      ensures r.Ok? ==> Filled(buf[..], files[rf], start, start + r.value)
      ensures r == Err(BeyondEof) ==> rf in files && start > |files[rf]|
      ensures r == Err(NoSuchFork) ==> rf !in files
      ensures r.Ok? <==> old(CanRead(rf, start, n, downC, down))
    {
      hide C.ChunkCache.Valid, M.MetaCache.Valid, Agrees, CanServe, TagsOf;
      var len := GetNblocks(rf, down);
      if len.Err? {
        return Err(if len.error.BeyondEof? then NoSlot else len.error);
      }
      ServeNone(ChunkState(downC), TagsOf(rf, 0, 0));
      if start == len.value {
        return Ok(0);
      } else if start > len.value {
        return Err(BeyondEof);
      }
      var count := Min(n, len.value - start);
      if count == 0 {
        return Ok(0);
      }
      r := ReadRange(rf, start, count, buf, downC);
    }

    /** Patch one piece of a write into its chunk. */
    method WritePiece(item: Item, rf: RelFork, ghost start: nat, ghost last: nat, ghost k: nat, src: Bytes, down: set<ChunkTag>, ghost v: View)
      returns (ok: bool)
      requires Sound() && rf != M.NO_FORK && start <= last < BLOCK_LIMIT && k < Count(start, last)
      requires item == Piece(rf, start, last, k) && |src| == (last + 1 - start) * BLCKSZ
      requires Written(v, chunks.slots.view, rf, start, Reached(start, last, k), src)
      modifies chunks.repr
      ensures Sound() && files == old(files) && metas.slots.view == old(metas.slots.view)
      ensures Written(v, chunks.slots.view, rf, start, Reached(start, last, if ok then k + 1 else k), src)
      ensures ok && PutsWork(down, rf) ==> Served(old(ChunkState(down)), ChunkState(down), item.tag)
      ensures !ok ==> !CanServeOne(old(ChunkState(down)), item.tag)
    {
      hide C.ChunkCache.Valid, M.MetaCache.Valid, Piece, Written, Count, Reached, CanServeOne, Served;
      PieceToWrite(rf, start, last, k, src);
      PatchPiece(v, chunks.slots.view, rf, start, last, k, src);
      var r := chunks.PatchChunk(item.tag, item.blockOffset, src[item.bufOffset..item.bufEnd], down);
      ok := r.Done?;
    }

    /** Patch the pieces in order; the first failure stops the write after `upto`. */
    method WriteRange(rf: RelFork, start: nat, n: nat, src: Bytes, down: set<ChunkTag>) returns (ok: bool, ghost upto: nat)
      requires Sound() && rf != M.NO_FORK && n > 0 && start + n <= BLOCK_LIMIT && |src| == n * BLCKSZ
      modifies chunks.repr
      ensures Sound() && files == old(files) && metas.slots.view == old(metas.slots.view)
      ensures start <= upto <= start + n && (ok ==> upto == start + n)
      ensures Written(old(chunks.slots.view), chunks.slots.view, rf, start, upto, src)
      ensures PutsWork(down, rf) ==> (ok <==> CanServe(old(ChunkState(down)), TagsOf(rf, start, n)))
    {
      hide BlockStore.Sound, Piece, Written, Count, Reached, CanServeOne, Served, CanServe, Serving, TagsOf;
      ghost var state0, tags := ChunkState(down), TagsOf(rf, start, n);
      TagsAre(rf, start, n);
      ServingStart(state0, tags);
      ghost var last, k, v := start + n - 1, 0, chunks.slots.view;
      WrittenNone(v, rf, start, last, src);
      var iter := new ChunkTagIter(rf, start, n);
      while true
        invariant fresh(iter) && iter.After(rf, start, last, k) && k <= Count(start, last)
        invariant Sound() && files == old(files) && metas.slots.view == old(metas.slots.view)
        invariant Written(v, chunks.slots.view, rf, start, Reached(start, last, k), src)
        invariant PutsWork(down, rf) ==> Serving(state0, ChunkState(down), tags, k)
        decreases Count(start, last) - k
      {
        ghost var state := ChunkState(down);
        var item := iter.Next(rf, start, last, k);
        if item.None? {
          break;
        }
        ok := WritePiece(item.value, rf, start, last, k, src, down, v);
        if !ok {
          upto := Reached(start, last, k);
          ReachedWithin(start, last, k);
          if PutsWork(down, rf) {
            ServingFails(state0, state, tags, k);
          }
          return;
        }
        if PutsWork(down, rf) {
          ServingNext(state0, state, ChunkState(down), tags, k);
        }
        k := k + 1;
      }
      ReachedEnd(start, last);
      if PutsWork(down, rf) {
        ServingEnds(state0, ChunkState(down), tags);
      }
      ok, upto := true, start + n;
    }

    /**
     * `write_blocks`: the blocks are overwritten from `start` on and the file grows to
     * hold them. A write that fails may have changed a first part of what it covers,
     * but never the length. While puts of the fork's chunks work, it succeeds exactly when
     * the fork is live and the caches can serve its entry and its chunks.
     */
    method WriteBlocks(rf: RelFork, start: nat, n: nat, src: Bytes, downC: set<ChunkTag>, down: set<RelFork>) returns (r: Result<nat>)
      requires Valid() && rf != M.NO_FORK && start + n <= BLOCK_LIMIT && |src| == n * BLCKSZ
      requires rf in files ==> start <= |files[rf]|
      modifies this, repr
      ensures Valid()
      ensures r.Ok? ==> r.value == n && rf in old(files)
      ensures r.Ok? ==> files == old(files)[rf := Overwritten(old(files)[rf], start, DataBlocks(src, n))]
      ensures r.Err? ==> files == old(files) || PartlyWritten(old(files), files, rf, start, n, src)
      ensures r == Err(NoSuchFork) ==> rf !in old(files)
      ensures PutsWork(downC, rf) ==> (r.Ok? <==> old(CanWrite(rf, start, n, downC, down)))
    {
      hide C.ChunkCache.Valid, M.MetaCache.Valid, Agrees, Written, Overwritten, PartlyWritten, CanServe, TagsOf;
      var len := GetNblocks(rf, down);
      if len.Err? {
        return Err(if len.error.BeyondEof? then NoSlot else len.error);
      }
      if n == 0 {
        ServeNone(ChunkState(downC), TagsOf(rf, start, 0));
        WriteNothing(files, rf, start, src);
        return Ok(0);
      }
      ghost var metas0, v := metas.slots.view, chunks.slots.view;
      var ok, upto := WriteRange(rf, start, n, src, downC);
      if !ok {
        CutIsPartly(metas0, v, chunks.slots.view, files, rf, start, upto, n, src);
        files := files[rf := CutFile(files[rf], start, upto, src)];
        return Err(NoSlot);
      }
      r := Extend(rf, start, n, src, len.value, down, v);
    }

    /** The last step of a write: the new length, if the write reaches past the old one. */
    method Extend(rf: RelFork, start: nat, n: nat, ghost src: Bytes, len: nat, down: set<RelFork>, ghost v: View) returns (r: Result<nat>)
      requires Sound() && rf != M.NO_FORK && n > 0 && start + n <= BLOCK_LIMIT && |src| == n * BLCKSZ
      requires Agrees(metas.slots.view, v, files) && rf in files && start <= len == |files[rf]|
      requires Written(v, chunks.slots.view, rf, start, start + n, src)
      modifies this, metas.repr
      ensures Valid()
      ensures r.Ok? ==> r.value == n && files == old(files)[rf := Overwritten(old(files)[rf], start, DataBlocks(src, n))]
      ensures r.Err? ==> r.error == NoSlot && PartlyWritten(old(files), files, rf, start, n, src)
      ensures old(metas.CanHold(rf, down)) ==> r.Ok?
    {
      hide C.ChunkCache.Valid, M.MetaCache.Valid, Agrees, Written, Overwritten, PartlyWritten;
      ghost var metas0, w := metas.slots.view, chunks.slots.view;
      AgreesWritten(metas0, v, w, files, rf, start, n, src);
      CutIsPartly(metas0, v, w, files, rf, start, start + n, n, src);
      LengthOf(metas0, v, files, rf);
      if start + n > len {
        var x := metas.PutNblocks(rf, start + n, down);
        if x.Err? {
          assert x.error.Exhausted?;
          files := files[rf := CutFile(files[rf], start, start + n, src)];
          return Err(NoSlot);
        }
      } else {
        assert metas0[rf := Meta(len, false)] == metas0;
      }
      files := files[rf := Overwritten(files[rf], start, DataBlocks(src, n))];
      r := Ok(n);
    }
  }

  /** Puts of the fork's chunks do not fail. */
  predicate PutsWork(down: set<ChunkTag>, rf: RelFork) {
    forall t :: t in down ==> t.rf != rf
  }

  /** The file after a write was cut off: overwritten up to `upto`, its length unchanged. */
  function CutFile(f: seq<Block>, start: nat, upto: nat, src: Bytes): seq<Block>
    requires start <= |f| && start <= upto && (upto - start) * BLCKSZ <= |src|
  {
    Overwritten(f, start, DataBlocks(src, upto - start))[..|f|]
  }

  /** A first part of the write, up to the old length, took effect. */
  ghost predicate PartlyWritten(before: Files, after: Files, rf: RelFork, start: nat, n: nat, src: Bytes)
    requires |src| == n * BLCKSZ
  {
    && rf in before && start <= |before[rf]|
    && exists m {:trigger CutFile(before[rf], start, m, src)} ::
         start <= m <= start + n && after == before[rf := CutFile(before[rf], start, m, src)]
  }

  lemma CutIsPartly(metas: map<RelFork, Meta>, v: View, w: View, files: Files, rf: RelFork, start: nat, upto: nat, n: nat, src: Bytes)
    requires Agrees(metas, v, files) && rf in files && start <= |files[rf]| && start <= upto <= start + n && |src| == n * BLCKSZ
    requires Written(v, w, rf, start, upto, src)
    ensures var after := files[rf := CutFile(files[rf], start, upto, src)];
            Agrees(metas, w, after) && PartlyWritten(files, after, rf, start, n, src)
  {
    hide Agrees, Written, Overwritten;
    AgreesCut(metas, v, w, files, rf, start, upto, src);
  }

  lemma WriteNothing(files: Files, rf: RelFork, start: nat, src: Bytes)
    requires rf in files && start <= |files[rf]|
    ensures files == files[rf := Overwritten(files[rf], start, DataBlocks(src, 0))]
  {
    assert Overwritten(files[rf], start, DataBlocks(src, 0)) == files[rf];
  }

  lemma LengthOf(metas: map<RelFork, Meta>, v: View, files: Files, rf: RelFork)
    requires Agrees(metas, v, files) && rf in files
    ensures rf in metas && metas[rf] == Meta(|files[rf]|, false)
  {
  }

  lemma WrittenNone(v: View, rf: RelFork, start: nat, last: nat, src: Bytes)
    requires start <= last < BLOCK_LIMIT
    ensures Written(v, v, rf, start, Reached(start, last, 0), src)
  {
  }

  lemma ReachedWithin(start: nat, last: nat, k: nat)
    requires start <= last && k <= Count(start, last)
    ensures start <= Reached(start, last, k) <= last + 1
  {
  }

  /** A piece of a write is a non-empty run of whole blocks within its chunk. */
  lemma PieceToWrite(rf: RelFork, start: nat, last: nat, k: nat, src: Bytes)
    requires start <= last < BLOCK_LIMIT && k < Count(start, last) && |src| == (last + 1 - start) * BLCKSZ
    ensures var p := Piece(rf, start, last, k);
            && p.tag.rf == rf && p.bufOffset < p.bufEnd <= |src| && (p.bufEnd - p.bufOffset) % BLCKSZ == 0
            && p.blockOffset * BLCKSZ + (p.bufEnd - p.bufOffset) <= CHUNK_SIZE
  {
    PieceFits(rf, start, last, k);
    PiecesTile(rf, start, last, k);
  }

  lemma ShowsOf(metas: map<RelFork, Meta>, v: View, files: Files, rf: RelFork)
    requires Agrees(metas, v, files) && rf in files
    ensures |files[rf]| <= BLOCK_LIMIT && Shows(v, rf, files[rf])
  {
  }

  lemma FilledNone(buf: Bytes, f: seq<Block>, start: nat, last: nat)
    requires start <= last < |f|
    ensures Filled(buf, f, start, Reached(start, last, 0))
  {
  }

  lemma ReachedEnd(start: nat, last: nat)
    requires start <= last
    ensures Reached(start, last, Count(start, last)) == last + 1
  {
  }

  /** What the next piece needs and gives. */
  lemma FillNext(buf: Bytes, v: View, f: seq<Block>, rf: RelFork, start: nat, last: nat, k: nat)
    requires start <= last < |f| <= BLOCK_LIMIT && k < Count(start, last) && |buf| >= (last + 1 - start) * BLCKSZ
    requires Filled(buf, f, start, Reached(start, last, k)) && Shows(v, rf, f)
    ensures var p := Piece(rf, start, last, k);
            && p.tag.rf == rf && p.tag in v && WellPlaced(p, |buf|)
            && forall after :: CopiedIn(buf, after, v, p) ==> Filled(after, f, start, Reached(start, last, k + 1))
  {
    PieceFits(rf, start, last, k);
    FillPiece(buf, v, f, rf, start, last, k);
    hide Filled;
  }
}
