/**
 * What a patch does to the bytes a caller wrote. `patch_chunk` takes not-found for a
 * chunk that was never written, so a partial patch in a process that needs the base
 * and cannot load it puts its data over zeros. Exactly then bytes are lost.
 */
module StorePatch {
  import opened Types
  import opened WindowSpec
  import opened ManifestSpec
  import opened History
  import opened StoreModel
  import opened StoreInv
  import opened StoreReads
  import opened StoreSteps

  /** A patch of a plain map: the data over the bytes last written, or over zeros. */
  function Over(plain: map<ChunkTag, Chunk>, t: ChunkTag, off: nat, data: Bytes): Chunk
    requires off + |data| <= CHUNK_SIZE
  {
    Splice(if t in plain then plain[t] else Zeros(CHUNK_SIZE), off, data)
  }

  /** A partial patch in a process that finds nothing above the base and cannot load the base. */
  ghost predicate Blind(c: Config, s: State, pid: nat, t: ChunkTag, off: nat, data: Bytes)
    requires pid in s.caches
  {
    !IsFull(off, data) && !Loadable(s, pid) && LockedFind(c, s, t).None?
  }

  predicate ZeroOutside(b: Chunk, off: nat, len: nat) {
    forall i :: 0 <= i < CHUNK_SIZE && !(off <= i < off + len) ==> b[i] == 0
  }

  /** The newest version of the chunk can be read: no deletion of its fork has dropped it. */
  ghost predicate Kept(s: State, h: seq<Commit>, t: ChunkTag) {
    t in s.draft.Chunks() || LiveSince(Below(h, s.base), LastIdx(h, t), t.rf)
  }

  /** In a process that cannot load the base a read gives what its locked part finds. */
  lemma {:induction false} UnloadableRead(c: Config, s: State, h: seq<Commit>, spec: Spec, pid: nat, t: ChunkTag)
    requires Inv(c, s, h, spec) && pid in s.caches && !Loadable(s, pid)
    ensures GetChunk(c, s, pid, t).Some? <==> LockedFind(c, s, t).Some?
  {
    hide LockedFind, Loadable, ObjInv, SegInv, WindowInv, ManInv, PhaseInv, BaseManifest;
    LockedFindIs(c, s, h, spec, t);
    if LockedFind(c, s, t).Some? {
      assert t in spec.chunks;
    }
  }

  /** What a patch goes over: the bytes the store holds, but zeros for a blind one. */
  lemma {:induction false} PatchBaseIs(c: Config, s: State, h: seq<Commit>, spec: Spec, pid: nat, t: ChunkTag)
    requires Inv(c, s, h, spec) && pid in s.caches && Kept(s, h, t)
    ensures PatchBase(c, s, pid, t)
            == if t in spec.chunks && (Loadable(s, pid) || LockedFind(c, s, t).Some?) then spec.chunks[t] else Zeros(CHUNK_SIZE)
  {
    hide LockedFind, Loadable, GetChunk, Inv, LiveSince, Below, LastIdx;
    ReadChunkIsLastWrite(c, s, h, spec, pid, t);
    if !Loadable(s, pid) {
      UnloadableRead(c, s, h, spec, pid, t);
    }
  }

  /**
   * The store gets the bytes a plain map gets if and only if the patch is whole, or the
   * base can be loaded, or the chunk is found above it, or it was never written, or all
   * the patch leaves of it was zero anyway.
   */
  lemma {:induction false} PatchIsPlainIff(c: Config, s: State, h: seq<Commit>, spec: Spec, pid: nat, t: ChunkTag, off: nat, data: Bytes)
    requires Inv(c, s, h, spec) && pid in s.caches && off + |data| <= CHUNK_SIZE && Kept(s, h, t)
    ensures Splice(PatchBase(c, s, pid, t), off, data) == Over(spec.chunks, t, off, data)
            <==> IsFull(off, data) || Loadable(s, pid) || LockedFind(c, s, t).Some? || t !in spec.chunks
                 || ZeroOutside(spec.chunks[t], off, |data|)
  {
    hide Inv, LockedFind, Loadable, PatchBase, Kept;
    PatchBaseIs(c, s, h, spec, pid, t);
    if t in spec.chunks {
      SpliceOverZerosIff(spec.chunks[t], off, data);
    }
  }

  /** The same for a plain map that agreed with the store on the chunk. */
  lemma {:induction false} PatchAgrees(c: Config, s: State, h: seq<Commit>, spec: Spec, plain: map<ChunkTag, Chunk>,
                                       pid: nat, t: ChunkTag, off: nat, data: Bytes)
    requires Inv(c, s, h, spec) && pid in s.caches && off + |data| <= CHUNK_SIZE && Kept(s, h, t)
    requires (t in plain <==> t in spec.chunks) && (t in plain ==> spec.chunks[t] == plain[t])
    ensures Splice(PatchBase(c, s, pid, t), off, data) == Over(plain, t, off, data)
            <==> !Blind(c, s, pid, t, off, data) || t !in plain || ZeroOutside(plain[t], off, |data|)
  {
    hide Inv, LockedFind, Loadable, PatchBase, Kept;
    PatchIsPlainIff(c, s, h, spec, pid, t, off, data);
    if t in plain {
      SpliceOverZerosIff(plain[t], off, data);
    }
  }

  lemma SpliceOverZerosIff(b: Chunk, off: nat, data: Bytes)
    requires off + |data| <= CHUNK_SIZE
    ensures Splice(Zeros(CHUNK_SIZE), off, data) == Splice(b, off, data) <==> ZeroOutside(b, off, |data|)
    ensures IsFull(off, data) ==> ZeroOutside(b, off, |data|)
  {
    var x, y := Splice(Zeros(CHUNK_SIZE), off, data), Splice(b, off, data);
    forall i | 0 <= i < CHUNK_SIZE
      ensures x[i] == if off <= i < off + |data| then data[i - off] else 0
      ensures y[i] == if off <= i < off + |data| then data[i - off] else b[i]
    {
    }
  }

  lemma FullSplice(base: Chunk, data: Bytes)
    requires |data| == CHUNK_SIZE
    ensures Splice(base, 0, data) == data
  {
  }
}
