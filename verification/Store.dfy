/**
 * The store itself: fields updated in place, reads and folds by loops. Each method
 * is proved against the value model, and keeps the invariant that ties the fields
 * to the last write of each chunk and fork.
 */
module Store {
  import opened Types
  import opened WindowSpec
  import opened ManifestSpec
  import opened History
  import opened StoreModel
  import opened StoreInv
  import opened StoreReads
  import opened StoreSteps
  import opened StoreCompaction
  import opened StoreRestart
  import opened StorePatch
  import opened StoreEffect

  lemma InitHolds(a: seq<SegmentId>, k: SegmentId)
    requires Increasing(a) && a != []
    ensures k in a[..|a| - 1] <==> k in a && k != a[|a| - 1]
    ensures k in a ==> SidLe(k, a[|a| - 1])
  {
    if k in a {
      var i :| 0 <= i < |a| && a[i] == k;
      assert i < |a| - 1 ==> a[..|a| - 1][i] == k;
    }
  }

  lemma EmptyOrHolds(b: seq<SegmentId>)
    ensures b == [] || exists x :: x in b
  {
    if b != [] {
      assert b[0] in b;
    }
  }

  /** Two ascending lists of the same ids are the same list. */
  lemma {:induction false} IncreasingUnique(a: seq<SegmentId>, b: seq<SegmentId>)
    requires Increasing(a) && Increasing(b)
    requires forall x :: x in a <==> x in b
    ensures a == b
    decreases |a|
  {
    if a == [] {
      EmptyOrHolds(b);
    } else {
      assert a[0] in b;
      var x, y := a[|a| - 1], b[|b| - 1];
      assert x in a && y in b;
      InitHolds(b, x);
      InitHolds(a, y);
      var a1, b1 := a[..|a| - 1], b[..|b| - 1];
      forall k ensures k in a1 <==> k in b1 {
        InitHolds(a, k);
        InitHolds(b, k);
      }
      IncreasingUnique(a1, b1);
      assert a == a1 + [x] && b == b1 + [y];
    }
  }

  lemma ExtendIncreasing(ids: seq<SegmentId>, low: SegmentId)
    requires Increasing(ids) && forall x :: x in ids ==> SidLess(x, low)
    ensures Increasing(ids + [low])
  {
  }

  /** The ids of a listing, sorted. */
  method SortIds(s: set<SegmentId>) returns (ids: seq<SegmentId>)
    ensures ids == SortedSids(s)
  {
    ids := [];
    var rest := s;
    while rest != {}
      invariant rest <= s && Increasing(ids)
      invariant forall x :: x in ids <==> x in s && x !in rest
      invariant forall x, y :: x in ids && y in rest ==> SidLess(x, y)
      decreases |rest|
    {
      ghost var w := LowestSid(rest);
      var low: SegmentId :| low in rest && forall x :: x in rest ==> SidLe(low, x);
      ExtendIncreasing(ids, low);
      ids := ids + [low];
      forall y | y in rest && y != low ensures SidLess(low, y) {
        assert SidLe(low, y);
      }
      rest := rest - {low};
    }
    IncreasingUnique(ids, SortedSids(s));
  }

  /** Every process answers every chunk read (of a fork live since) and metadata read from `spec`. */
  ghost predicate AnswersAll(c: Config, s: State, h: seq<Commit>, spec: Spec) {
    && (forall pid, t :: pid in s.caches && t in spec.chunks
          && (t in s.draft.Chunks() || LiveSince(Below(h, s.base), LastIdx(h, t), t.rf))
          ==> StoreModel.GetChunk(c, s, pid, t) == Some(spec.chunks[t]))
    && (forall pid, t :: pid in s.caches && t !in spec.chunks ==> StoreModel.GetChunk(c, s, pid, t) == None)
    && (forall pid, rf :: pid in s.caches ==>
          StoreModel.GetMeta(c, s, pid, rf) == if rf in spec.metas then Some(spec.metas[rf]) else None)
  }

  lemma {:induction false} IdleAnswersAll(c: Config, s: State, h: seq<Commit>, spec: Spec)
    requires Inv(c, s, h, spec) && s.phase.Idle?
    ensures AnswersAll(c, s, h, spec)
  {
    hide StoreModel.GetChunk, StoreModel.GetMeta, Loadable, LiveSince, Below, LastIdx, ManInv, ObjInv, SegInv, WindowInv, PhaseInv, DataInv;
    IdleCanLoad(c, s, h);
    forall pid, t | pid in s.caches
      ensures t in spec.chunks && (t in s.draft.Chunks() || LiveSince(Below(h, s.base), LastIdx(h, t), t.rf))
              ==> StoreModel.GetChunk(c, s, pid, t) == Some(spec.chunks[t])
      ensures t !in spec.chunks ==> StoreModel.GetChunk(c, s, pid, t) == None
    {
      ReadChunkIsLastWrite(c, s, h, spec, pid, t);
    }
    forall pid, rf | pid in s.caches
      ensures StoreModel.GetMeta(c, s, pid, rf) == if rf in spec.metas then Some(spec.metas[rf]) else None
    {
      ReadMetaIsLastPut(c, s, h, spec, pid, rf);
    }
  }

  class Store {
    const c: Config

    var objs: map<ChunkKey, Chunk>
    var segs: map<SegmentId, seq<Commit>>
    var bases: map<Checkpoint, Manifest>
    var local: Manifest
    var caches: map<nat, Manifest>
    var base: Checkpoint
    var head: Checkpoint
    var redo: Checkpoint
    var window: seq<Commit>
    var draft: Draft
    var phase: Phase

    /** Every commit so far, and the bytes and metadata of the newest versions. */
    ghost var hist: seq<Commit>
    ghost var spec: Spec
    /** What callers wrote: each patch goes over the bytes last written. */
    ghost var plain: map<ChunkTag, Chunk>

    ghost function View(): State
      reads this
    {
      State(objs, segs, bases, local, caches, base, head, redo, window, draft, phase)
    }

    ghost predicate Valid()
      reads this
    {
      Inv(c, View(), hist, spec)
    }

    /** The newest version of the chunk is what was last written to it. */
    ghost predicate Agrees(t: ChunkTag)
      reads this
    {
      (t in plain <==> t in spec.chunks) && (t in plain ==> spec.chunks[t] == plain[t])
    }

    constructor (c: Config)
      requires c.Sound()
      ensures Valid() && View() == START && this.c == c
      ensures spec == Spec(map[], map[]) && plain == map[]
    {
      this.c := c;
      objs, segs, bases := map[], map[], map[];
      local, caches := EMPTY, map[0 := EMPTY];
      base, head, redo := GENESIS, GENESIS, GENESIS;
      window, draft, phase := [], NO_DRAFT, Idle;
      hist, spec, plain := [], Spec(map[], map[]), map[];
      new;
      StartInv(c);
    }

    // ── Base manifest ──

    /** `base_manifest`: none if it cannot be loaded. */
    method LoadBase(pid: nat) returns (m: Option<Manifest>)
      requires Valid() && pid in caches
      modifies this`local, this`caches
      ensures Valid() && View() == Reloaded(old(View()), pid)
      ensures m == if old(Loadable(View(), pid)) then Some(old(BaseManifest(View(), pid))) else None
    {
      hide Inv;
      ReloadedKeeps(c, View(), hist, spec, pid);
      if caches[pid].ckpt == base {
        return Some(caches[pid]);
      }
      if base == GENESIS {
        local := EMPTY;
      } else if local.ckpt == base {
      } else if base in bases {
        local := bases[base];
      } else {
        return None;
      }
      caches := caches[pid := local];
      m := Some(local);
    }

    method ListSegments(low: Checkpoint, high: Checkpoint) returns (ids: seq<SegmentId>)
      ensures ids == Listing(segs, low, high)
    {
      ids := SortIds(set x | x in segs && Overlaps(x, low, high));
    }

    // ── Reads ──

    /** Walk of the listed segments, newest checkpoint first. */
    method ScanSegments(ids: seq<SegmentId>, hit: Commit -> bool) returns (r: Option<Commit>)
      requires forall i :: 0 <= i < |ids| ==> ids[i] in segs
      ensures r == SegmentsScan(segs, ids, |ids|, hit)
    {
      var n := |ids|;
      while n > 0
        invariant 0 <= n <= |ids|
        invariant SegmentsScan(segs, ids, |ids|, hit) == SegmentsScan(segs, ids, n, hit)
      {
        var seg := segs[ids[n - 1]];
        var m := |seg|;
        while m > 0
          invariant 0 <= m <= |seg|
          invariant SegmentScan(seg, |seg|, hit) == SegmentScan(seg, m, hit)
        {
          if hit(seg[m - 1]) {
            return Some(seg[m - 1]);
          }
          m := m - 1;
        }
        n := n - 1;
      }
      r := None;
    }

    /** The part of a chunk read that runs under the timeline read lock. */
    method FindLocked(t: ChunkTag) returns (r: Option<ChunkKey>)
      ensures r == LockedFind(c, View(), t)
    {
      if draft.MaybeChunk(t) && KeyOf(c, head, t) in objs {
        return Some(KeyOf(c, head, t));
      }
      var i := 0;
      while i < |window|
        invariant 0 <= i <= |window|
        invariant WindowFind(c, View(), t, 0) == WindowFind(c, View(), t, i)
      {
        if c.maybe(window[i], t) && KeyOf(c, window[i].prev, t) in objs {
          return Some(KeyOf(c, window[i].prev, t));
        }
        i := i + 1;
      }
      var top := if |window| == 0 then head else window[|window| - 1].ckpt;
      if CkptLe(top, base) {
        return None;
      }
      var ids := ListSegments(base, top);
      var k := ScanSegments(ids, ChunkHit(c, objs, t, base, top));
      r := match k case Some(k) => Some(KeyOf(c, k.prev, t)) case None => None;
    }

    /**
     * `get_chunk`: the last bytes written, or none; and none only if the chunk was
     * never written, the base cannot be loaded, or the fork was deleted since.
     */
    method GetChunk(pid: nat, t: ChunkTag) returns (r: Option<Chunk>)
      requires Valid() && pid in caches
      modifies this`local, this`caches
      ensures Valid() && View() == AfterGetChunk(c, old(View()), pid, t)
      ensures r == StoreModel.GetChunk(c, old(View()), pid, t)
      ensures r.Some? ==> t in spec.chunks && r.value == spec.chunks[t]
      ensures r.Some? && Agrees(t) ==> r.value == plain[t]
      ensures (t in spec.chunks && old(Loadable(View(), pid))
               && (t in draft.Chunks() || LiveSince(Below(hist, base), LastIdx(hist, t), t.rf))) ==> r == Some(spec.chunks[t])
    {
      hide Inv, Below, LiveSince, LastIdx, LockedFind, KeyOf;
      ReadChunkIsLastWrite(c, View(), hist, spec, pid, t);
      var k := FindLocked(t);
      if k.None? {
        var m := LoadBase(pid);
        if m.None? || t !in m.value.chunks {
          return None;
        }
        var ref := m.value.chunks[t];
        k := Some(ChunkKey(ref.db, Checkpoint(ref.tl, ref.lsn), t));
      }
      r := if k.value in objs then Some(objs[k.value]) else None;
    }

    /** The part of a metadata read that runs under the timeline read lock. */
    method AskLocked(rf: RelFork) returns (r: Option<Meta>)
      ensures r == LockedMeta(c, View(), rf)
    {
      var d := draft.GetRelfork(rf);
      if d.Some? {
        return d;
      }
      var n, going := 0, true;
      while n < |window| && going
        invariant 0 <= n <= |window|
        invariant WindowAsk(c, window, rf, 0) == if going then WindowAsk(c, window, rf, n) else Stopped(n)
        decreases |window| - n
      {
        match c.ask(window[n], rf) {
          case Hit(meta) => return Some(meta);
          case DefinitiveMiss =>
          case Inconclusive => going := false;
        }
        n := n + 1;
      }
      var top := if n == 0 then head else window[n - 1].ckpt;
      if CkptLess(top, base) {
        return None;
      }
      var ids := ListSegments(base, top);
      var k := ScanSegments(ids, MetaHit(rf, base, top));
      r := match k case Some(k) => (if rf in k.relforks then Some(k.relforks[rf]) else None) case None => None;
    }

    /** `get_meta`: exactly the last metadata put, when the base can be loaded. */
    method GetMeta(pid: nat, rf: RelFork) returns (r: Option<Meta>)
      requires Valid() && pid in caches
      modifies this`local, this`caches
      ensures Valid() && View() == AfterGetMeta(c, old(View()), pid, rf)
      ensures r == StoreModel.GetMeta(c, old(View()), pid, rf)
      ensures old(Loadable(View(), pid)) ==> r == if rf in spec.metas then Some(spec.metas[rf]) else None
    {
      hide Inv, LockedMeta;
      if Loadable(View(), pid) {
        ReadMetaIsLastPut(c, View(), hist, spec, pid, rf);
      }
      r := AskLocked(rf);
      if r.None? {
        var m := LoadBase(pid);
        r := if m.Some? && rf in m.value.meta then Some(m.value.meta[rf]) else None;
      }
    }

    // ── Writes ──

    /**
     * `patch_chunk`: `data` goes over the bytes read, or over zeros. It gives the chunk the
     * bytes it was meant to if and only if the patch is not blind, the chunk was never
     * written, or all that the patch leaves of it is zero.
     */
    method PatchChunk(pid: nat, t: ChunkTag, blockOffset: nat, data: Bytes)
      requires Valid() && pid in caches
      requires data != [] && |data| % BLCKSZ == 0 && blockOffset * BLCKSZ + |data| <= CHUNK_SIZE
      modifies this`local, this`caches, this`objs, this`draft, this`spec, this`plain
      ensures Valid() && View() == StoreModel.PatchChunk(c, old(View()), pid, t, blockOffset * BLCKSZ, data)
      ensures spec == old(spec).(chunks := old(spec).chunks[t :=
                Splice(old(PatchBase(c, View(), pid, t)), blockOffset * BLCKSZ, data)])
      ensures plain == old(plain)[t := Over(old(plain), t, blockOffset * BLCKSZ, data)]
      ensures old(Agrees(t) && Kept(View(), hist, t)) ==>
                (Agrees(t) <==> !old(Blind(c, View(), pid, t, blockOffset * BLCKSZ, data)) || t !in old(plain)
                                || ZeroOutside(old(plain)[t], blockOffset * BLCKSZ, |data|))
    {
      hide Inv, Kept, ZeroOutside, Blind, Over, PatchBase, StoreModel.PatchChunk;
      var off := blockOffset * BLCKSZ;
      if Agrees(t) && Kept(View(), hist, t) {
        PatchAgrees(c, View(), hist, spec, plain, pid, t, off, data);
      }
      plain := plain[t := Over(plain, t, off, data)];
      MergeAndPut(pid, t, off, data);
    }

    /** The read-merge-write of a patch: a whole chunk needs no read. */
    method MergeAndPut(pid: nat, t: ChunkTag, off: nat, data: Bytes)
      requires Valid() && pid in caches && off + |data| <= CHUNK_SIZE
      modifies this`local, this`caches, this`objs, this`draft, this`spec
      ensures Valid() && View() == StoreModel.PatchChunk(c, old(View()), pid, t, off, data)
      ensures spec == old(spec).(chunks := old(spec).chunks[t := Splice(old(PatchBase(c, View(), pid, t)), off, data)])
    {
      hide Inv, StoreModel.GetChunk, AfterGetChunk, Below, LiveSince, LastIdx;
      PatchKeeps(c, View(), hist, spec, pid, t, off, data);
      ghost var was := PatchBase(c, View(), pid, t);
      spec := spec.(chunks := spec.chunks[t := Splice(was, off, data)]);
      label Before:
      var merged: Chunk;
      if off == 0 && |data| == CHUNK_SIZE {
        merged := data;
        assert merged == Splice(was, 0, data);
      } else {
        spec := old(spec);
        var r := this.GetChunk(pid, t);
        merged := Splice(if r.Some? then r.value else Zeros(CHUNK_SIZE), off, data);
        spec := old@Before(spec);
      }
      objs := objs[KeyOf(c, head, t) := merged];
      draft := draft.WithChunk(t);
    }

    method PutMeta(rf: RelFork, m: Meta)
      requires Valid()
      modifies this`draft, this`spec
      ensures Valid() && View() == StoreModel.PutMeta(old(View()), rf, m)
      ensures spec == old(spec).(metas := old(spec).metas[rf := m])
    {
      hide Inv;
      PutMetaKeeps(c, View(), hist, spec, rf, m);
      draft := draft.WithRelfork(rf, m);
      spec := spec.(metas := spec.metas[rf := m]);
    }

    method SpillDraft()
      requires Valid()
      modifies this`draft
      ensures Valid() && View() == Spill(old(View()))
    {
      hide Inv;
      SpillKeeps(c, View(), hist, spec);
      draft := draft.Spilled();
    }

    // ── Commit ──

    /** `run_commit_protocol` once dirty state was flushed: drain, append, push, advance. */
    method RunCommitProtocol(ckpt: Checkpoint, redo: Checkpoint)
      requires Valid() && Before(head, ckpt)
      modifies this`segs, this`redo, this`draft, this`window, this`head, this`hist
      ensures Valid() && View() == RunCommit(c, old(View()), ckpt, redo)
      ensures hist == old(hist) + [Commit(ckpt, old(head), redo, old(draft.Chunks()), old(draft.Relforks()))]
      ensures head == ckpt && this.redo == redo && draft == NO_DRAFT
    {
      hide Inv, Pushed, SidOf;
      CommitKeeps(c, View(), hist, spec, ckpt, redo);
      hist := hist + [CommitOf(View(), ckpt, redo)];
      var prev := head;
      this.redo := redo;
      var summary := Commit(ckpt, prev, redo, draft.Chunks(), draft.Relforks());
      draft := NO_DRAFT;
      var sid := SidOf(ckpt);
      var seg := if sid in segs then segs[sid] else [];
      segs := segs[sid := seg + [summary]];
      window := Pushed(window, summary, c.window);
      head := ckpt;
    }

    // ── Compaction, one method per phase ──

    method SnapshotRange(pid: nat)
      requires Valid() && phase.Idle? && pid in caches
      modifies this`phase
      ensures Valid() && View() == Snap(old(View()), pid)
    {
      hide Inv;
      SnapKeeps(c, View(), hist, spec, pid);
      var upper := if redo.lsn == 0 then head else redo;
      if !CkptLe(upper, base) {
        phase := Snapped(pid, false, base, upper);
      }
    }

    method SnapshotThrough(pid: nat, target: Checkpoint)
      requires Valid() && phase.Idle? && pid in caches
      modifies this`phase
      ensures Valid() && View() == SnapThrough(old(View()), pid, target)
    {
      hide Inv;
      SnapThroughKeeps(c, View(), hist, spec, pid, target);
      if !CkptLe(target, base) {
        phase := Snapped(pid, true, base, target);
      }
    }

    /** Load the listed segments and keep the eligible checkpoints, in order. */
    method GatherEligible(ids: seq<SegmentId>, through: bool, from: Checkpoint, upper: Checkpoint) returns (apply: seq<Commit>)
      requires forall i :: 0 <= i < |ids| ==> ids[i] in segs
      ensures apply == Gather(segs, ids, |ids|, through, from, upper)
    {
      apply := [];
      for n := 0 to |ids|
        invariant apply == Gather(segs, ids, n, through, from, upper)
      {
        var seg := segs[ids[n]];
        ghost var before := apply;
        for m := 0 to |seg|
          invariant apply == before + EligibleOf(seg[..m], through, from, upper)
        {
          assert seg[..m + 1][..m] == seg[..m];
          if Eligible(seg[m], through, from, upper) {
            apply := apply + [seg[m]];
          }
        }
        assert seg[..|seg|] == seg;
      }
    }

    method CollectSegments()
      requires Valid() && phase.Snapped?
      modifies this`phase
      ensures Valid() && View() == Collect(old(View()))
    {
      hide Inv;
      CollectKeeps(c, View(), hist, spec);
      var ids := ListSegments(phase.from, phase.upper);
      var apply := GatherEligible(ids, phase.through, phase.from, phase.upper);
      phase := if apply == [] then Idle else Collected(phase.pid, phase.through, phase.from, ids, apply);
    }

    method PublishBase()
      requires Valid() && phase.Collected? && phase.apply != [] && phase.pid in caches
      modifies this`local, this`caches, this`bases, this`phase
      ensures Valid() && View() == Publish(c, old(View()))
    {
      hide Inv, Folded;
      PublishKeeps(c, View(), hist, spec);
      var p := phase;
      var cur := LoadBase(p.pid);
      if cur.None? {
        phase := Idle;
        return;
      }
      var applied := Folded(c.db, cur.value, p.apply);
      var target := if p.through then applied.ckpt else p.apply[|p.apply| - 1].ckpt;
      bases := bases[target := applied];
      phase := Published(p.pid, p.from, p.ids, target, applied);
    }

    method WriteLocalFile()
      requires Valid() && phase.Published?
      modifies this`local, this`phase
      ensures Valid() && View() == WriteLocal(old(View()))
    {
      hide Inv;
      WriteLocalKeeps(c, View(), hist, spec);
      local := phase.applied;
      phase := Written(phase.pid, phase.from, phase.ids, phase.target, phase.applied);
    }

    method InstallBase()
      requires Valid() && phase.Written?
      modifies this`base, this`phase
      ensures Valid() && View() == Install(old(View()))
    {
      hide Inv;
      InstallKeeps(c, View(), hist, spec);
      if base != phase.from {
        phase := Idle;
      } else {
        base := phase.target;
        phase := Installed(phase.pid, phase.ids, phase.target, phase.applied);
      }
    }

    method SwapSnapshot()
      requires Valid() && phase.Installed?
      modifies this`caches, this`phase
      ensures Valid() && View() == Swap(old(View()))
    {
      hide Inv;
      SwapKeeps(c, View(), hist, spec);
      caches := caches[phase.pid := phase.applied];
      phase := Deleting(TakeBelow(phase.ids, SidOf(phase.target)));
    }

    method DeleteNext()
      requires Valid() && phase.Deleting?
      modifies this`segs, this`phase
      ensures Valid() && View() == DeleteOne(old(View()))
    {
      hide Inv;
      DeleteKeeps(c, View(), hist, spec);
      if phase.ids == [] {
        phase := Idle;
      } else {
        segs := segs - {phase.ids[0]};
        phase := Deleting(phase.ids[1..]);
      }
    }

    /** The phases after the range was read, in their order. */
    method FinishPhases()
      requires Valid() && phase.Snapped? && phase.from == base && phase.pid in caches && Loadable(View(), phase.pid)
      modifies this`local, this`caches, this`bases, this`base, this`segs, this`phase
      ensures Valid() && phase.Idle?
      ensures View() == Finished(c, old(View()).(phase := Idle), old(phase.pid), old(phase.through), old(phase.upper))
    {
      hide Inv, Folded, Listing, Gather, TakeBelow, Reloaded, Loadable;
      CollectSegments();
      if phase.Collected? {
        SameBase(old(View()), View(), phase.pid);
        PublishInstallSwap();
        ghost var s := View();
        while phase.Deleting?
          invariant Valid() && (phase.Deleting? || phase.Idle?) && DeletesFrom(s, View())
          decreases if phase.Deleting? then |phase.ids| + 1 else 0
        {
          DeleteRest(View());
          DeleteNext();
        }
      }
    }

    /** Publish, rewrite the local file, install and swap: with one compactor nothing is raced. */
    method PublishInstallSwap()
      requires Valid() && phase.Collected? && phase.apply != [] && phase.from == base && phase.pid in caches && Loadable(View(), phase.pid)
      modifies this`local, this`caches, this`bases, this`base, this`phase
      ensures Valid() && phase.Deleting? && View() == Swapped(c, old(View()))
    {
      hide Inv, Folded, TakeBelow, Loadable;
      PublishBase();
      WriteLocalFile();
      InstallBase();
      SwapSnapshot();
    }

    /**
     * `run_compaction` when nothing runs beside it: it ends idle; the commits below the
     * redo point are in the base and the files below it are gone; and afterwards every
     * process still reads the newest bytes and the last metadata from before it.
     */
    method RunCompaction(pid: nat)
      requires Valid() && phase.Idle? && pid in caches
      modifies this`local, this`caches, this`bases, this`base, this`segs, this`phase
      ensures Valid() && phase.Idle?
      ensures Compacted(c, old(View()), View(), hist, pid)
      ensures AnswersAll(c, View(), hist, spec)
    {
      hide Inv, Finished, Loadable, Compacted, AnswersAll, Snap;
      CanLoadIdle(c, View(), hist, spec, pid);
      CompactionIs(c, View(), hist, spec, pid);
      SnapIs(View(), pid);
      SnapshotRange(pid);
      if phase.Snapped? {
        SameBase(old(View()), View(), pid);
        FinishPhases();
      }
      IdleAnswersAll(c, View(), hist, spec);
    }

    /** `run_compaction_through` when nothing runs beside it: every commit at or below the target is in the base. */
    method RunCompactionThrough(pid: nat, target: Checkpoint)
      requires Valid() && phase.Idle? && pid in caches
      modifies this`local, this`caches, this`bases, this`base, this`segs, this`phase
      ensures Valid() && phase.Idle?
      ensures CompactedThrough(c, old(View()), View(), hist, pid, target)
      ensures AnswersAll(c, View(), hist, spec)
    {
      hide Inv, Finished, Loadable, CompactedThrough, AnswersAll, SnapThrough;
      CanLoadIdle(c, View(), hist, spec, pid);
      BoundedCompactionIs(c, View(), hist, spec, pid, target);
      SnapThroughIs(View(), pid, target);
      SnapshotThrough(pid, target);
      if phase.Snapped? {
        SameBase(old(View()), View(), pid);
        FinishPhases();
      }
      IdleAnswersAll(c, View(), hist, spec);
    }

    // ── Processes and restarts ──

    method NewProcess(pid: nat)
      requires Valid() && pid !in caches
      modifies this`caches
      ensures Valid() && View() == Attach(old(View()), pid)
    {
      hide Inv;
      AttachKeeps(c, View(), hist, spec, pid);
      caches := caches[pid := local];
    }

    /** A clean restart followed by `hydrate_timeline_state`. */
    method RestartAndHydrate(pid: nat)
      requires Valid() && phase.Idle? && DraftIsEmpty(View()) && LocalIsCurrent(View(), hist)
      modifies this`caches, this`base, this`head, this`redo, this`window, this`draft
      ensures Valid() && View() == Restart(c, old(View()), pid)
    {
      hide Inv, NewestOf, LocalIsCurrent, SortedSids, LocalIsCurrent, DraftIsEmpty;
      RestartKeeps(c, View(), hist, spec, pid);
      WindowHasRoom(c, View(), hist, spec);
      caches, draft, redo, base := map[pid := local], NO_DRAFT, GENESIS, local.ckpt;
      var ids := SortIds(segs.Keys);
      var newest := CollectNewest(ids);
      Replay(newest);
    }

    /** Push the collected checkpoints oldest first, so that the newest ends up in front. */
    method Replay(newest: seq<Commit>)
      requires |newest| <= c.window
      modifies this`head, this`window
      ensures window == newest && head == if newest == [] then GENESIS else newest[0].ckpt
    {
      head, window := GENESIS, [];
      var i := |newest|;
      while i > 0
        invariant 0 <= i <= |newest| && window == newest[i..]
        invariant head == if window == [] then GENESIS else window[0].ckpt
      {
        i := i - 1;
        window := Pushed(window, newest[i], c.window);
        head := newest[i].ckpt;
      }
      assert newest == newest[0..];
    }

    /** The newest checkpoints of all listed segments, newest first, until the window is full. */
    method CollectNewest(ids: seq<SegmentId>) returns (newest: seq<Commit>)
      requires c.window > 0 && forall i :: 0 <= i < |ids| ==> ids[i] in segs
      ensures newest == NewestOf(segs, ids, |ids|, c.window) && |newest| <= c.window
    {
      hide NewestOf, Backwards;
      newest := [];
      var n := |ids|;
      while n > 0 && |newest| < c.window
        invariant 0 <= n <= |ids| && |newest| <= c.window
        invariant NewestOf(segs, ids, |ids|, c.window) == newest + NewestOf(segs, ids, n, c.window - |newest|)
      {
        var got := NewestIn(segs[ids[n - 1]], c.window - |newest|);
        NewestStep(segs, ids, n, c.window - |newest|, newest);
        newest := newest + got;
        n := n - 1;
      }
      NewestOfNone(segs, ids, n, c.window - |newest|);
    }

    /** The last `room` checkpoints of one segment, newest first. */
    method NewestIn(seg: seq<Commit>, room: nat) returns (got: seq<Commit>)
      ensures got == Backwards(seg, room)
    {
      got := [];
      var m := |seg|;
      while m > 0 && |got| < room
        invariant 0 <= m <= |seg| && |got| == |seg| - m <= room
        invariant forall i :: 0 <= i < |got| ==> got[i] == seg[|seg| - 1 - i]
      {
        got := got + [seg[m - 1]];
        m := m - 1;
      }
    }
  }

  lemma {:induction false} NewestStep(segs: map<SegmentId, seq<Commit>>, ids: seq<SegmentId>, n: nat, room: nat, pre: seq<Commit>)
    requires 0 < n <= |ids| && room > 0 && forall i :: 0 <= i < |ids| ==> ids[i] in segs
    ensures var got := Backwards(segs[ids[n - 1]], room);
            pre + NewestOf(segs, ids, n, room) == (pre + got) + NewestOf(segs, ids, n - 1, room - |got|)
  {
  }

  lemma {:induction false} NewestOfNone(segs: map<SegmentId, seq<Commit>>, ids: seq<SegmentId>, n: nat, room: nat)
    requires n <= |ids| && (n == 0 || room == 0) && forall i :: 0 <= i < |ids| ==> ids[i] in segs
    ensures NewestOf(segs, ids, n, room) == []
  {
  }

  /** `now` is on the way from `s` to the end of its deletions. */
  ghost predicate DeletesFrom(s: State, now: State) {
    if s.phase.Deleting? then
      if now.phase.Deleting? then DeleteAll(now) == DeleteAll(s) else now == DeleteAll(s)
    else
      now == s
  }

  lemma {:induction false} CanLoadIdle(c: Config, s: State, h: seq<Commit>, spec: Spec, pid: nat)
    requires Inv(c, s, h, spec) && s.phase.Idle? && pid in s.caches
    ensures Loadable(s, pid)
  {
    hide ObjInv, SegInv, WindowInv, ManInv, PhaseInv, DataInv, Loadable;
    IdleCanLoad(c, s, h);
  }

  lemma SnapIs(s: State, pid: nat)
    requires s.phase.Idle?
    ensures Snap(s, pid) == if Snap(s, pid).phase.Snapped? then s.(phase := Snapped(pid, false, s.base, UpperBound(s))) else s
  {
  }

  lemma SnapThroughIs(s: State, pid: nat, target: Checkpoint)
    requires s.phase.Idle?
    ensures SnapThrough(s, pid, target)
            == if SnapThrough(s, pid, target).phase.Snapped? then s.(phase := Snapped(pid, true, s.base, target)) else s
  {
  }

  lemma WindowHasRoom(c: Config, s: State, h: seq<Commit>, spec: Spec)
    requires Inv(c, s, h, spec)
    ensures c.window > 0
  {
  }
}
