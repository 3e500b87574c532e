/**
 * A reachable store in which a process cannot load the base. Compaction publishes under
 * the last checkpoint it folds, a restart takes the last one that changed something, so
 * nothing is stored under the base; while the next compaction has rewritten the local
 * file, a new process finds neither. It then reads committed data as not found, and a
 * partial patch by it destroys the rest of the chunk for everyone.
 */
module StoreGap {
  import opened Types
  import opened WindowSpec
  import opened ManifestSpec
  import opened History
  import opened StoreModel
  import opened StoreInv
  import opened StoreReads
  import opened StoreSteps
  import opened StoreCompaction
  import opened StoreRestart
  import opened StorePatch
  import opened StoreRuns
  import opened StoreLoss

  const D := Checkpoint(1, 3 * SEGMENT_LSN_RANGE)
  const E := Checkpoint(1, 4 * SEGMENT_LSN_RANGE)

  function KD(u: ChunkTag): Commit { Commit(D, C, D, {u}, map[]) }

  const KE := Commit(E, D, E, {}, map[])

  /** The chunk and its fork are what was last written to them. */
  ghost predicate Has(w: World, t: ChunkTag, v: Chunk) {
    && t in w.spec.chunks && w.spec.chunks[t] == v
    && t in w.plain && w.plain[t] == v
    && t.rf in w.spec.metas && w.spec.metas[t.rf] == ONE_BLOCK
  }

  /** What every state from the restart to the gap has in common: the first commit is in the base alone. */
  ghost predicate OnlyInBase(w: World, t: ChunkTag, v: Chunk) {
    && Has(w, t, v)
    && w.s.base == A && A !in w.s.bases && SidOf(A) !in w.s.segs
    && 0 in w.s.caches && w.s.caches[0].ckpt == A
  }

  /** Compacted up to `B` and restarted: the base is `A`, under which nothing is stored. */
  ghost predicate Restarted(w: World, t: ChunkTag, v: Chunk) {
    && OnlyInBase(w, t, v) && w.h == [K1(t), K2, K3] && w.s.draft == NO_DRAFT
    && w.s.local.ckpt == A && w.s.caches.Keys == {0} && w.s.phase == Idle && w.s.head == C && |w.s.window| <= 2
  }

  lemma {:induction false} CompactAndRestart(c: Config, t: ChunkTag, v: Chunk) returns (w: World)
    requires c.Sound()
    ensures Reachable(c, w) && Restarted(w, t, v)
  {
    hide Reachable, Inv, NewestOf, SortedSids;
    w := WriteAndCommit(c, t, v);
    w := CompactToWrite(c, w, t, v);
    w := FinishCompaction(c, w);
    assert NO_DRAFT.Chunks() == {} && NO_DRAFT.Relforks() == map[];
    ReachableInv(c, w);
    FirstFileIsGone(c, w, t);
    RestartedHeadAndWindow(c, w, t);
    ReachableStep(c, w, CleanRestart(0));
    w := Next(c, w, CleanRestart(0));
  }

  lemma {:induction false} RestartedHeadAndWindow(c: Config, w: World, t: ChunkTag)
    requires WorldInv(c, w) && w.h == [K1(t), K2, K3] && !InFile(w.s, w.h[0])
    ensures var s1 := Restart(c, w.s, 0); s1.head == C && |s1.window| <= 2
  {
    hide ManInv, ObjInv, DataInv, PhaseInv, NothingLost, NewestOf, SortedSids, Chain;
    HydratedWindow(c, w.s, w.h, 0);
    var s1 := Restart(c, w.s, 0);
    assert |s1.window| > 2 ==> InFile(s1, w.h[0]);
  }

  /** Another chunk written and committed, and a commit above it. */
  ghost predicate FiveCommits(w: World, t: ChunkTag, v: Chunk, u: ChunkTag) {
    && OnlyInBase(w, t, v) && w.h == [K1(t), K2, K3, KD(u), KE] && w.s.draft == NO_DRAFT
    && w.s.caches.Keys == {0} && w.s.phase == Idle && w.s.redo == E && |w.s.window| <= 4
  }

  lemma {:induction false} TwoMoreCommits(c: Config, w0: World, t: ChunkTag, v: Chunk, u: ChunkTag) returns (w: World)
    requires c.Sound() && Reachable(c, w0) && Restarted(w0, t, v) && u != t
    ensures Reachable(c, w) && FiveCommits(w, t, v, u)
  {
    hide Reachable, GetChunk, AfterGetChunk, LockedFind;
    var p := Patch(0, u, 0, Zeros(CHUNK_SIZE));
    ReachableStep(c, w0, p);
    w := Next(c, w0, p);
    assert w.s.draft.Chunks() == {u} && w.s.draft.Relforks() == map[];
    w := CommitNow(c, w, D);
    assert NO_DRAFT.Chunks() == {} && NO_DRAFT.Relforks() == map[];
    w := CommitNow(c, w, E);
  }

  // ── The gap ──

  /** A fold of commits, one of which changed something, takes its header from one of them. */
  lemma {:induction false} HeaderIsFolded(from: Checkpoint, ks: seq<Commit>, k: Commit)
    requires k in ks && !IsEmpty(k)
    ensures exists i :: 0 <= i < |ks| && LastChange(from, ks) == ks[i].ckpt
    decreases |ks|
  {
    var last := |ks| - 1;
    if IsEmpty(ks[last]) {
      assert ks == ks[..last] + [ks[last]];
      HeaderIsFolded(from, ks[..last], k);
      var i :| 0 <= i < last && LastChange(from, ks[..last]) == ks[..last][i].ckpt;
      assert LastChange(from, ks) == ks[i].ckpt;
    } else {
      assert LastChange(from, ks) == ks[last].ckpt;
    }
  }

  /** The commit at `D` is among the commits, and none is at or below the base. */
  ghost predicate AboveBase(ks: seq<Commit>, u: ChunkTag) {
    KD(u) in ks && forall i :: 0 <= i < |ks| ==> CkptLess(A, ks[i].ckpt)
  }

  ghost function GatheredNow(s: State): seq<Commit> {
    var ids := Listing(s.segs, A, E);
    Gather(s.segs, ids, |ids|, false, A, E)
  }

  lemma {:induction false} GathersAboveBase(c: Config, w: World, t: ChunkTag, v: Chunk, u: ChunkTag)
    requires WorldInv(c, w) && FiveCommits(w, t, v, u)
    ensures AboveBase(GatheredNow(w.s), u)
  {
    hide ManInv, ObjInv, DataInv, WindowInv, PhaseInv, Gather, Chain, FilesInv, Has;
    var ks := GatheredNow(w.s);
    assert w.h[3] == KD(u) && !IsEmpty(KD(u)) && InFile(w.s, KD(u));
    CollectedIs(w.s, w.h, false, A, E, KD(u));
    forall i | 0 <= i < |ks| ensures CkptLess(A, ks[i].ckpt) {
      CollectedIs(w.s, w.h, false, A, E, ks[i]);
    }
  }

  /** Process 1 has just started, and can find the base nowhere. */
  ghost predicate InGap(w: World, t: ChunkTag, v: Chunk, u: ChunkTag) {
    && OnlyInBase(w, t, v) && w.h == [K1(t), K2, K3, KD(u), KE] && w.s.draft == NO_DRAFT
    && |w.s.window| <= 4 && 1 in w.s.caches && !Loadable(w.s, 1)
  }

  lemma {:induction false} CompactAgain(c: Config, w0: World, t: ChunkTag, v: Chunk, u: ChunkTag) returns (w: World)
    requires c.Sound() && Reachable(c, w0) && FiveCommits(w0, t, v, u)
    ensures Reachable(c, w) && w == w0.(s := w0.s.(phase := w.s.phase)) && w.s.phase.Collected? && w.s.phase.pid == 0
    ensures !w.s.phase.through && AboveBase(w.s.phase.apply, u)
  {
    hide Listing, Gather, Reachable, WorldInv;
    ReachableInv(c, w0);
    GathersAboveBase(c, w0, t, v, u);
    ReachableStep(c, w0, Compact(0));
    w := Next(c, w0, Compact(0));
    ReachableStep(c, w, CollectSegments);
    w := Next(c, w, CollectSegments);
  }

  lemma {:induction false} IntoTheGap(c: Config, w0: World, t: ChunkTag, v: Chunk, u: ChunkTag) returns (w: World)
    requires c.Sound() && Reachable(c, w0) && FiveCommits(w0, t, v, u)
    ensures Reachable(c, w) && InGap(w, t, v, u)
  {
    hide Reachable, Folded, LastChange;
    w := CompactAgain(c, w0, t, v, u);
    var apply := w.s.phase.apply;
    HeaderIsFolded(w.s.caches[0].ckpt, apply, KD(u));
    FoldedHeader(c.db, w.s.caches[0], apply);
    ReachableStep(c, w, PublishBase);
    w := Next(c, w, PublishBase);
    ReachableStep(c, w, WriteLocalFile);
    w := Next(c, w, WriteLocalFile);
    ReachableStep(c, w, NewProcess(1));
    w := Next(c, w, NewProcess(1));
  }

  /** In the gap, process 0 reads what was written and process 1 reads not-found. */
  lemma {:induction false} ReadsInGap(c: Config, w: World, t: ChunkTag, v: Chunk, u: ChunkTag)
    requires WorldInv(c, w) && InGap(w, t, v, u) && u != t
    ensures GetChunk(c, w.s, 0, t) == Some(v) && GetMeta(c, w.s, 0, t.rf) == Some(ONE_BLOCK)
    ensures LockedFind(c, w.s, t).None? && GetChunk(c, w.s, 1, t) == None && GetMeta(c, w.s, 1, t.rf) == None
    ensures NoDeletion(w, t.rf)
  {
    hide ManInv, ObjInv, DataInv, PhaseInv, NothingLost, Chain, LockedFind, LockedMeta, FilesInv, ListsNewest;
    assert NO_DRAFT.Chunks() == {} && NO_DRAFT.Relforks() == map[];
    LastIdxIs(w.h, t, 0);
    LastMetaIs(w.h, t.rf, 0);
    LockedFindGives(c, w.s, w.h, t);
    LockedMetaGives(c, w.s, w.h, t.rf);
    StillReads(c, w, 0, t);
  }

  /**
   * For every configuration, a reachable store with live, committed data that process 0
   * reads and process 1 does not. A partial patch by process 1 puts its data over zeros,
   * and from then on every process reads those zeros.
   */
  lemma {:induction false} BlindPatchLosesBytes(c: Config, t: ChunkTag, v: Chunk, u: ChunkTag, off: nat, data: Bytes)
    returns (w: World, w1: World)
    requires c.Sound() && u != t && off + |data| <= CHUNK_SIZE && !IsFull(off, data)
    ensures Reachable(c, w) && NoDeletion(w, t.rf) && Has(w, t, v) && 0 in w.s.caches && 1 in w.s.caches
    ensures GetChunk(c, w.s, 0, t) == Some(v) && GetMeta(c, w.s, 0, t.rf) == Some(ONE_BLOCK)
    ensures !Loadable(w.s, 1) && GetChunk(c, w.s, 1, t) == None && GetMeta(c, w.s, 1, t.rf) == None
    ensures IsBlind(c, w, Patch(1, t, off, data)) && w1 == Next(c, w, Patch(1, t, off, data))
    ensures forall pid :: pid in w1.s.caches ==> GetChunk(c, w1.s, pid, t) == Some(Splice(Zeros(CHUNK_SIZE), off, data))
    ensures t in w1.plain && w1.plain[t] == Splice(v, off, data)
  {
    hide Reachable, Inv, Loadable, GetMeta, LockedFind;
    w := CompactAndRestart(c, t, v);
    w := TwoMoreCommits(c, w, t, v, u);
    w := IntoTheGap(c, w, t, v, u);
    ReachableInv(c, w);
    ReadsInGap(c, w, t, v, u);
    w1 := Next(c, w, Patch(1, t, off, data));
    DraftIsRead(c, w1.s, t);
  }

  lemma DraftIsRead(c: Config, s: State, t: ChunkTag)
    requires t in s.draft.mem && KeyOf(c, s.head, t) in s.objs
    ensures forall pid :: pid in s.caches ==> GetChunk(c, s, pid, t) == Some(s.objs[KeyOf(c, s.head, t)])
  {
  }
}
