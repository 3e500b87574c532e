/**
 * `get_chunk` drops the timeline lock before it asks the base manifest. Commits,
 * compaction phases and other reads may land in between: the answer is the same.
 */
module StoreSplit {
  import opened Types
  import opened WindowSpec
  import opened ManifestSpec
  import opened History
  import opened StoreModel
  import opened StoreInv
  import opened StoreReads
  import opened StoreSteps
  import opened StoreCompaction
  import opened StoreRestart
  import opened StoreRuns

  /** The chunk's newest version is at or below the base, and no write to it is pending. */
  ghost predicate InBase(w: World, t: ChunkTag) {
    t !in w.s.draft.Chunks() && LastIdx(w.h, t) < Upto(w.h, w.s.base)
  }

  predicate Touches(op: Op, t: ChunkTag) {
    (op.Patch? && op.t == t) || op.CleanRestart?
  }

  /** Which chunks the draft holds after a step that does not write `t`. */
  lemma {:induction false} StepChunks(c: Config, w: World, op: Op, t: ChunkTag)
    requires Allowed(w, op) && !Touches(op, t) && t !in w.s.draft.Chunks()
    ensures t !in Next(c, w, op).s.draft.Chunks()
    ensures op.MakeCommit? ==> t !in CommitOf(w.s, op.ckpt, op.redo).chunks
  {
    hide GetChunk, LockedFind, LockedMeta, Listing, Gather, Folded, NewestOf, SortedSids, LoadManifest, BaseManifest;
  }

  /** Only an installation moves the base. */
  lemma {:induction false} StepBase(c: Config, w: World, op: Op)
    requires Allowed(w, op) && !op.InstallBase? && !op.CleanRestart?
    ensures Next(c, w, op).s.base == w.s.base
  {
    hide GetChunk, LockedFind, LockedMeta, Listing, Gather, Folded, NewestOf, SortedSids, LoadManifest, BaseManifest;
  }

  lemma {:induction false} InstallKeepsInBase(c: Config, w: World, t: ChunkTag)
    requires WorldInv(c, w) && w.s.phase.Written? && InBase(w, t)
    ensures InBase(Next(c, w, InstallBase), t)
  {
    hide ObjInv, SegInv, WindowInv, ManInv, DataInv, Fits, Increasing, Lists, Upto;
    var s, i, target := w.s, LastIdx(w.h, t), w.s.phase.target;
    if i >= 0 {
      assert t in w.h[i].chunks && !IsEmpty(w.h[i]);
      UptoSplits(w.h, s.base, i);
      UptoSplits(w.h, target, i);
    }
  }

  lemma {:induction false} StepKeepsInBase(c: Config, w: World, op: Op, t: ChunkTag)
    requires WorldInv(c, w) && Allowed(w, op) && !Touches(op, t) && InBase(w, t)
    ensures InBase(Next(c, w, op), t)
  {
    if op.InstallBase? {
      InstallKeepsInBase(c, w, t);
    } else {
      hide NextState, Upto, LastIdx, ObjInv, SegInv, WindowInv, ManInv, DataInv, PhaseInv;
      StepChunks(c, w, op, t);
      StepBase(c, w, op);
      if op.MakeCommit? {
        var k := CommitOf(w.s, op.ckpt, op.redo);
        LastIdxSnoc(w.h, k, t);
        BaseIsBelowHead(c, w.s, w.h);
        UptoExtend(w.h, k, w.s.base);
      }
    }
  }

  /** The world after more operations, from any world. */
  ghost function Then(c: Config, w: World, ops: seq<Op>): World
    decreases |ops|
  {
    if ops == [] then
      w
    else
      var v, op := Then(c, w, ops[..|ops| - 1]), ops[|ops| - 1];
      if Allowed(v, op) then Next(c, v, op) else v
  }

  lemma {:induction false} ThenKeepsInBase(c: Config, w: World, ops: seq<Op>, t: ChunkTag)
    requires WorldInv(c, w) && InBase(w, t) && forall i :: 0 <= i < |ops| ==> !Touches(ops[i], t)
    ensures WorldInv(c, Then(c, w, ops)) && InBase(Then(c, w, ops), t)
    decreases |ops|
  {
    if ops != [] {
      hide WorldInv, InBase, Allowed, Next;
      var init, op := ops[..|ops| - 1], ops[|ops| - 1];
      ThenKeepsInBase(c, w, init, t);
      var v := Then(c, w, init);
      if Allowed(v, op) {
        StepKeepsInv(c, v, op);
        StepKeepsInBase(c, v, op, t);
      }
    }
  }

  /**
   * A read whose locked part found nothing, and whose base lookup runs after any
   * further steps that neither write the chunk nor restart, returns the chunk's
   * last bytes, if its fork was never committed as deleted.
   */
  lemma {:induction false} SplitReadIsLastWrite(c: Config, w: World, ops: seq<Op>, pid: nat, t: ChunkTag)
    requires WorldInv(c, w) && LockedFind(c, w.s, t).None?
    requires forall i :: 0 <= i < |ops| ==> !Touches(ops[i], t)
    requires var v := Then(c, w, ops); pid in v.s.caches && Loadable(v.s, pid) && NoDeletion(v, t.rf)
    ensures var v, r := Then(c, w, ops), BaseFind(Then(c, w, ops).s, pid, t);
            if t in v.spec.chunks then
              r.Some? && r.value in v.s.objs && v.s.objs[r.value] == v.spec.chunks[t]
            else
              r.None?
  {
    hide LockedFind, BaseFind, Then, ObjInv, SegInv, WindowInv, ManInv, PhaseInv, LiveSince, NoDeletion, Loadable, Upto;
    LockedFindIs(c, w.s, w.h, w.spec, t);
    ThenKeepsInBase(c, w, ops, t);
    var v := Then(c, w, ops);
    NoDeletionIsLive(v, Upto(v.h, v.s.base), LastIdx(v.h, t), t.rf);
    BaseFindIs(c, v.s, v.h, v.spec, pid, t);
  }
}
