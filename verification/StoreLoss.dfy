/**
 * A reachable store whose local file is not current: a process that starts while
 * the compactor is between rewriting the local file and installing the base puts
 * the previous manifest back. A clean restart then loses a committed fork and its chunk.
 */
module StoreLoss {
  import opened Types
  import opened WindowSpec
  import opened ManifestSpec
  import opened History
  import opened StoreModel
  import opened StoreInv
  import opened StoreReads
  import opened StoreSteps
  import opened StoreCompaction
  import opened StoreRestart
  import opened StorePatch
  import opened StoreRuns

  ghost predicate Reachable(c: Config, w: World) {
    exists ops :: IsRun(c, ops) && After(c, ops) == w
  }

  lemma {:induction false} ReachableStep(c: Config, w: World, op: Op)
    requires Reachable(c, w) && Allowed(w, op)
    ensures Reachable(c, Next(c, w, op))
  {
    hide Allowed, Next;
    var ops :| IsRun(c, ops) && After(c, ops) == w;
    var more := ops + [op];
    assert more[..|more| - 1] == ops && more[|more| - 1] == op;
    assert After(c, more) == Next(c, w, op);
  }

  lemma ReachableInv(c: Config, w: World)
    requires c.Sound() && Reachable(c, w)
    ensures WorldInv(c, w)
  {
    hide WorldInv;
    var ops :| IsRun(c, ops) && After(c, ops) == w;
    RunInv(c, ops);
  }

  const A := Checkpoint(1, 1)
  const B := Checkpoint(1, SEGMENT_LSN_RANGE)
  const C := Checkpoint(1, 2 * SEGMENT_LSN_RANGE)

  const ONE_BLOCK := Meta(1, false)

  function K1(t: ChunkTag): Commit { Commit(A, GENESIS, A, {t}, map[t.rf := ONE_BLOCK]) }

  const K2 := Commit(B, A, B, {}, map[])
  const K3 := Commit(C, B, C, {}, map[])

  /** The world holds the bytes `v` of one chunk and the metadata of its fork, as they were written. */
  ghost predicate HoldsOne(w: World, t: ChunkTag, v: Chunk) {
    w.spec == Spec(map[t := v], map[t.rf := ONE_BLOCK]) && w.plain == map[t := v]
  }

  /** One chunk committed at `A`, then two commits without changes in later segments. */
  ghost predicate ThreeCommits(w: World, t: ChunkTag, v: Chunk) {
    && HoldsOne(w, t, v)
    && w.h == [K1(t), K2, K3] && w.s.draft == NO_DRAFT
    && w.s.local == EMPTY && w.s.caches == map[0 := EMPTY] && w.s.bases == map[]
    && w.s.base == GENESIS && w.s.redo == C && w.s.phase == Idle
  }

  /** A commit puts the draft into the history and changes nothing that compaction or reload uses. */
  lemma {:induction false} CommitNow(c: Config, w0: World, at: Checkpoint) returns (w: World)
    requires Reachable(c, w0) && Before(w0.s.head, at)
    ensures Reachable(c, w) && w.h == w0.h + [CommitOf(w0.s, at, at)] && w.spec == w0.spec && w.plain == w0.plain
    ensures w.s.draft == NO_DRAFT && w.s.head == at && w.s.redo == at && w.s.phase == w0.s.phase
    ensures w.s.local == w0.s.local && w.s.caches == w0.s.caches && w.s.base == w0.s.base && w.s.bases == w0.s.bases
    ensures w.s.segs.Keys == w0.s.segs.Keys + {SidOf(at)} && |w.s.window| <= |w0.s.window| + 1
  {
    hide Reachable;
    ReachableStep(c, w0, MakeCommit(at, at));
    w := Next(c, w0, MakeCommit(at, at));
  }

  lemma {:induction false} WriteOne(c: Config, t: ChunkTag, v: Chunk) returns (w: World)
    ensures Reachable(c, w) && HoldsOne(w, t, v) && w.h == [] && w.s.head == GENESIS
    ensures w.s.draft.Chunks() == {t} && w.s.draft.Relforks() == map[t.rf := ONE_BLOCK]
    ensures w.s.local == EMPTY && w.s.caches == map[0 := EMPTY] && w.s.bases == map[]
    ensures w.s.base == GENESIS && w.s.phase == Idle
  {
    hide GetChunk, AfterGetChunk, LockedFind, Reachable;
    OriginIsReachable(c);
    ReachableStep(c, ORIGIN, Patch(0, t, 0, v));
    w := Next(c, ORIGIN, Patch(0, t, 0, v));
    FullSplice(PatchBase(c, ORIGIN.s, 0, t), v);
    FullSplice(Zeros(CHUNK_SIZE), v);
    ReachableStep(c, w, Put(t.rf, ONE_BLOCK));
    w := Next(c, w, Put(t.rf, ONE_BLOCK));
  }

  lemma {:induction false} OriginIsReachable(c: Config)
    ensures Reachable(c, ORIGIN)
  {
    assert IsRun(c, []) && After(c, []) == ORIGIN;
  }

  lemma {:induction false} WriteAndCommit(c: Config, t: ChunkTag, v: Chunk) returns (w: World)
    requires c.Sound()
    ensures Reachable(c, w) && ThreeCommits(w, t, v)
  {
    hide Reachable;
    w := WriteOne(c, t, v);
    w := CommitNow(c, w, A);
    assert NO_DRAFT.Chunks() == {} && NO_DRAFT.Relforks() == map[];
    w := CommitNow(c, w, B);
    w := CommitNow(c, w, C);
  }

  /** The first two commits are gathered for folding. */
  lemma {:induction false} Gathered(c: Config, w: World, t: ChunkTag, v: Chunk)
    requires WorldInv(c, w) && ThreeCommits(w, t, v)
    ensures var ids := Listing(w.s.segs, GENESIS, C);
            Gather(w.s.segs, ids, |ids|, false, GENESIS, C) == [K1(t), K2]
  {
    hide FilesInv, NothingLost, ManInv, ObjInv, DataInv, WindowInv, PhaseInv, Gather, Chain;
    var s, h := w.s, w.h;
    var ids := Listing(s.segs, GENESIS, C);
    var ks := Gather(s.segs, ids, |ids|, false, GENESIS, C);
    FilesAreOk(s, h);
    GatherAscends(s, ids, |ids|, false, GENESIS, C);
    AllInFile(c, w, t, v);
    forall k ensures k in ks <==> k in [K1(t), K2] {
      CollectedIs(s, h, false, GENESIS, C, k);
    }
    AscendingUnique(ks, [K1(t), K2]);
  }

  /** With nothing compacted yet, every commit that changed something is in a file; so are later ones. */
  lemma {:induction false} AllInFile(c: Config, w: World, t: ChunkTag, v: Chunk)
    requires WorldInv(c, w) && ThreeCommits(w, t, v)
    ensures forall k :: k in w.h ==> InFile(w.s, k)
  {
    hide ManInv, ObjInv, DataInv, WindowInv, PhaseInv, Chain;
    var h := w.h;
    assert !IsEmpty(h[0]) && InFile(w.s, h[0]);
    assert InFile(w.s, h[1]) && InFile(w.s, h[2]);
  }

  /** The base was just published, and the local file rewritten, for commits up to `B`. */
  ghost predicate JustWritten(w: World, t: ChunkTag, v: Chunk) {
    && HoldsOne(w, t, v)
    && w.h == [K1(t), K2, K3] && w.s.draft == NO_DRAFT
    && w.s.caches == map[0 := EMPTY] && w.s.base == GENESIS && w.s.bases.Keys == {B}
    && w.s.phase.Written? && w.s.phase.pid == 0 && w.s.phase.from == GENESIS && w.s.phase.target == B
    && w.s.local.ckpt == A && w.s.phase.applied == w.s.local
  }

  lemma {:induction false} CompactToCollect(c: Config, w0: World, t: ChunkTag, v: Chunk) returns (w: World)
    requires c.Sound() && Reachable(c, w0) && ThreeCommits(w0, t, v)
    ensures Reachable(c, w)
    ensures w == w0.(s := w0.s.(phase := Collected(0, false, GENESIS, Listing(w0.s.segs, GENESIS, C), [K1(t), K2])))
  {
    hide Listing, Gather, Reachable, WorldInv;
    ReachableInv(c, w0);
    Gathered(c, w0, t, v);
    ReachableStep(c, w0, Compact(0));
    w := Next(c, w0, Compact(0));
    ReachableStep(c, w, CollectSegments);
    w := Next(c, w, CollectSegments);
  }

  lemma {:induction false} CompactToWrite(c: Config, w0: World, t: ChunkTag, v: Chunk) returns (w: World)
    requires c.Sound() && Reachable(c, w0) && ThreeCommits(w0, t, v)
    ensures Reachable(c, w) && JustWritten(w, t, v)
  {
    hide Listing, Reachable, Folded;
    w := CompactToCollect(c, w0, t, v);
    ReachableStep(c, w, PublishBase);
    w := Next(c, w, PublishBase);
    HeaderIsA(c, t);
    ReachableStep(c, w, WriteLocalFile);
    w := Next(c, w, WriteLocalFile);
  }

  lemma {:induction false} HeaderIsA(c: Config, t: ChunkTag)
    ensures Folded(c.db, EMPTY, [K1(t), K2]).ckpt == A
  {
    var ks := [K1(t), K2];
    assert ks[..|ks| - 1] == [K1(t)];
    assert IsEmpty(ks[|ks| - 1]) && !IsEmpty([K1(t)][0]);
    assert LastChange(GENESIS, [K1(t)]) == A;
  }

  /** A new process opens the file, and its first read of the base puts the old one back. */
  lemma {:induction false} NewcomerRestores(c: Config, w0: World, t: ChunkTag, v: Chunk, u: ChunkTag) returns (w: World)
    requires c.Sound() && Reachable(c, w0) && JustWritten(w0, t, v) && u != t
    ensures Reachable(c, w) && w.s.phase == w0.s.phase && w.s.base == GENESIS && w.s.local == EMPTY
    ensures w.h == w0.h && w.s.draft == NO_DRAFT && HoldsOne(w, t, v) && 0 in w.s.caches
  {
    hide Reachable, LockedFind, Inv;
    w := w0;
    ReachableStep(c, w, NewProcess(1));
    w := Next(c, w, NewProcess(1));
    ReachableInv(c, w);
    LockedFindIs(c, w.s, w.h, w.spec, u);
    LastIdxIs(w.h, u, -1);
    assert NO_DRAFT.Chunks() == {};
    assert LockedFind(c, w.s, u).None?;
    ReachableStep(c, w, ReadChunk(1, u));
    w := Next(c, w, ReadChunk(1, u));
  }

  /** The deletions run to their end and change only the files. */
  lemma {:induction false} DeleteAll(c: Config, w0: World) returns (w: World)
    requires Reachable(c, w0) && w0.s.phase.Deleting?
    ensures Reachable(c, w) && w.s.phase.Idle? && w.h == w0.h && w.spec == w0.spec && w.plain == w0.plain
    ensures w.s == w0.s.(segs := w.s.segs, phase := Idle)
    decreases |w0.s.phase.ids|
  {
    hide Reachable;
    ReachableStep(c, w0, DeleteSegment);
    w := Next(c, w0, DeleteSegment);
    if w.s.phase.Deleting? {
      w := DeleteAll(c, w);
    }
  }

  /** The compactor goes on from the rewritten file to its end. */
  lemma {:induction false} FinishCompaction(c: Config, w0: World) returns (w: World)
    requires Reachable(c, w0) && w0.s.phase.Written? && w0.s.base == w0.s.phase.from
    ensures Reachable(c, w) && w.s.phase.Idle? && w.h == w0.h && w.spec == w0.spec && w.plain == w0.plain
    ensures w.s == w0.s.(segs := w.s.segs, phase := Idle, base := w0.s.phase.target,
                         caches := w0.s.caches[w0.s.phase.pid := w0.s.phase.applied])
  {
    hide Reachable;
    ReachableStep(c, w0, InstallBase);
    w := Next(c, w0, InstallBase);
    ReachableStep(c, w, SwapSnapshot);
    w := Next(c, w, SwapSnapshot);
    w := DeleteAll(c, w);
  }

  /**
   * Every step of this run is allowed, no fork is ever deleted, and the store is idle
   * with an empty draft. The chunk and its fork read back before the restart; after it,
   * both are not found.
   */
  lemma {:induction false} RestartCanLoseAChunk(c: Config, t: ChunkTag, v: Chunk, u: ChunkTag) returns (w: World)
    requires c.Sound() && u != t
    ensures Reachable(c, w) && w.s.phase.Idle? && DraftIsEmpty(w.s) && NoDeletion(w, t.rf) && HoldsOne(w, t, v)
    ensures 0 in w.s.caches && GetChunk(c, w.s, 0, t) == Some(v) && GetMeta(c, w.s, 0, t.rf) == Some(ONE_BLOCK)
    ensures GetChunk(c, Restart(c, w.s, 0), 0, t) == None && GetMeta(c, Restart(c, w.s, 0), 0, t.rf) == None
    ensures !LocalIsCurrent(w.s, w.h) && !LocalIsInstalled(w.s)
  {
    hide Reachable, Restart, GetChunk, GetMeta, Inv;
    w := WriteAndCommit(c, t, v);
    w := CompactToWrite(c, w, t, v);
    w := NewcomerRestores(c, w, t, v, u);
    w := FinishCompaction(c, w);
    ReachableInv(c, w);
    FirstFileIsGone(c, w, t);
    assert NO_DRAFT.Chunks() == {} && NO_DRAFT.Relforks() == map[];
    assert NoDeletion(w, t.rf);
    LastIdxIs(w.h, t, 0);
    LastMetaIs(w.h, t.rf, 0);
    NoDeletionIsLive(w, 3, 0, t.rf);
    assert w.h[..3] == w.h;
    RestartKeepsChunkIff(c, w.s, w.h, w.spec, 0, t);
    RestartKeepsMetaIff(c, w.s, w.h, w.spec, 0, t.rf);
    StillReads(c, w, 0, t);
    StaleIsNotInstalled(c, w);
  }

  lemma LastMetaIs(h: seq<Commit>, rf: RelFork, r: nat)
    requires r < |h| && rf in h[r].relforks && forall i :: r < i < |h| ==> rf !in h[i].relforks
    ensures LastMeta(h, rf) == r
  {
  }

  lemma {:induction false} FirstFileIsGone(c: Config, w: World, t: ChunkTag)
    requires WorldInv(c, w) && w.s.phase.Idle? && w.s.base == B && w.h == [K1(t), K2, K3]
    ensures !InFile(w.s, w.h[0])
  {
    hide ManInv, ObjInv, DataInv, WindowInv, SegInv, Chain;
    assert SidLess(SidOf(A), SidOf(B));
  }

  lemma {:induction false} StillReads(c: Config, w: World, pid: nat, t: ChunkTag)
    requires WorldInv(c, w) && NoDeletion(w, t.rf) && pid in w.s.caches && (w.s.phase.Idle? || Loadable(w.s, pid))
    requires t in w.spec.chunks && t.rf in w.spec.metas
    ensures GetChunk(c, w.s, pid, t) == Some(w.spec.chunks[t]) && GetMeta(c, w.s, pid, t.rf) == Some(w.spec.metas[t.rf])
  {
    hide ManInv, ObjInv, DataInv, WindowInv, SegInv, PhaseInv, Chain, Loadable, NoDeletion, GetChunk, GetMeta;
    if w.s.phase.Idle? {
      IdleCanLoad(c, w.s, w.h);
    }
    LiveRead(c, w, pid, t);
    ReadMetaIsLastPut(c, w.s, w.h, w.spec, pid, t.rf);
  }

  lemma {:induction false} StaleIsNotInstalled(c: Config, w: World)
    requires WorldInv(c, w) && !LocalIsCurrent(w.s, w.h)
    ensures !LocalIsInstalled(w.s)
  {
    hide Inv, LocalIsCurrent, LocalIsInstalled;
    if LocalIsInstalled(w.s) {
      InstalledIsCurrent(c, w.s, w.h, w.spec);
    }
  }
}
