/**
 * Whole runs of the store, from an empty one: any interleaving of reads, writes,
 * spills, commits, compaction phases, new processes and clean restarts. In every
 * reachable state the layered read is a read of a plain map, but for the bytes that
 * blind patches lost.
 */
module StoreRuns {
  import opened Types
  import opened WindowSpec
  import opened ManifestSpec
  import opened History
  import opened StoreModel
  import opened StoreInv
  import opened StoreReads
  import opened StoreSteps
  import opened StoreCompaction
  import opened StoreRestart
  import opened StorePatch

  datatype Op =
    | Patch(pid: nat, t: ChunkTag, off: nat, data: Bytes)
    | Put(rf: RelFork, m: Meta)
    | SpillDraft
    | ReadChunk(pid: nat, t: ChunkTag)
    | ReadMeta(pid: nat, rf: RelFork)
    | MakeCommit(ckpt: Checkpoint, redo: Checkpoint)
    | Compact(pid: nat)
    | CompactThrough(pid: nat, target: Checkpoint)
    | CollectSegments
    | PublishBase
    | WriteLocalFile
    | InstallBase
    | SwapSnapshot
    | DeleteSegment
    | NewProcess(pid: nat)
    | CleanRestart(pid: nat)

  /**
   * A store with its history, what its newest versions hold (`spec`), and the plain map
   * of what callers wrote: each patch goes over the bytes last written.
   */
  datatype World = World(s: State, h: seq<Commit>, spec: Spec, plain: map<ChunkTag, Chunk>)

  const ORIGIN := World(START, [], Spec(map[], map[]), map[])

  /**
   * What a run may do next. A commit must advance the LSN and not the timeline
   * backwards; a restart must be clean, with the local file current.
   */
  ghost predicate Allowed(w: World, op: Op) {
    match op
    case Patch(pid, t, off, data) => pid in w.s.caches && off + |data| <= CHUNK_SIZE
    case Put(_, _) => true
    case SpillDraft => true
    case ReadChunk(pid, _) => pid in w.s.caches
    case ReadMeta(pid, _) => pid in w.s.caches
    case MakeCommit(ckpt, _) => Before(w.s.head, ckpt)
    case Compact(pid) => w.s.phase.Idle? && pid in w.s.caches
    case CompactThrough(pid, _) => w.s.phase.Idle? && pid in w.s.caches
    case CollectSegments => w.s.phase.Snapped?
    case PublishBase => w.s.phase.Collected? && w.s.phase.apply != [] && w.s.phase.pid in w.s.caches
    case WriteLocalFile => w.s.phase.Published?
    case InstallBase => w.s.phase.Written?
    case SwapSnapshot => w.s.phase.Installed?
    case DeleteSegment => w.s.phase.Deleting?
    case NewProcess(pid) => pid !in w.s.caches
    case CleanRestart(_) => w.s.phase.Idle? && DraftIsEmpty(w.s) && LocalIsCurrent(w.s, w.h)
  }

  ghost function NextState(c: Config, w: World, op: Op): State
    requires Allowed(w, op)
  {
    match op
    case Patch(pid, t, off, data) => PatchChunk(c, w.s, pid, t, off, data)
    case Put(rf, m) => PutMeta(w.s, rf, m)
    case SpillDraft => Spill(w.s)
    case ReadChunk(pid, t) => AfterGetChunk(c, w.s, pid, t)
    case ReadMeta(pid, rf) => AfterGetMeta(c, w.s, pid, rf)
    case MakeCommit(ckpt, redo) => RunCommit(c, w.s, ckpt, redo)
    case Compact(pid) => Snap(w.s, pid)
    case CompactThrough(pid, target) => SnapThrough(w.s, pid, target)
    case CollectSegments => Collect(w.s)
    case PublishBase => Publish(c, w.s)
    case WriteLocalFile => WriteLocal(w.s)
    case InstallBase => Install(w.s)
    case SwapSnapshot => Swap(w.s)
    case DeleteSegment => DeleteOne(w.s)
    case NewProcess(pid) => Attach(w.s, pid)
    case CleanRestart(pid) => Restart(c, w.s, pid)
  }

  /** The history grows by commits; `spec` records what was stored, `plain` what was written. */
  ghost function Next(c: Config, w: World, op: Op): World
    requires Allowed(w, op)
  {
    World(NextState(c, w, op),
          if op.MakeCommit? then w.h + [CommitOf(w.s, op.ckpt, op.redo)] else w.h,
          match op
          case Patch(pid, t, off, data) =>
            w.spec.(chunks := w.spec.chunks[t := Splice(PatchBase(c, w.s, pid, t), off, data)])
          case Put(rf, m) => w.spec.(metas := w.spec.metas[rf := m])
          case _ => w.spec,
          if op.Patch? then w.plain[op.t := Over(w.plain, op.t, op.off, op.data)] else w.plain)
  }

  ghost predicate WorldInv(c: Config, w: World) {
    Inv(c, w.s, w.h, w.spec)
  }

  lemma {:induction false} OriginInv(c: Config)
    requires c.Sound()
    ensures WorldInv(c, ORIGIN)
  {
    StartInv(c);
  }

  /** Every allowed step keeps every layer in agreement with the history. */
  lemma {:induction false} StepKeepsInv(c: Config, w: World, op: Op)
    requires WorldInv(c, w) && Allowed(w, op)
    ensures WorldInv(c, Next(c, w, op))
  {
    hide Inv, PatchChunk, RunCommit, Collect, Publish, Restart, PatchBase, Reloaded, LockedFind, LockedMeta;
    var s, h, spec := w.s, w.h, w.spec;
    match op
    case Patch(pid, t, off, data) => PatchKeeps(c, s, h, spec, pid, t, off, data);
    case Put(rf, m) => PutMetaKeeps(c, s, h, spec, rf, m);
    case SpillDraft => SpillKeeps(c, s, h, spec);
    case ReadChunk(pid, t) => ReloadedKeeps(c, s, h, spec, pid);
    case ReadMeta(pid, rf) => ReloadedKeeps(c, s, h, spec, pid);
    case MakeCommit(ckpt, redo) => CommitKeeps(c, s, h, spec, ckpt, redo);
    case Compact(pid) => SnapKeeps(c, s, h, spec, pid);
    case CompactThrough(pid, target) => SnapThroughKeeps(c, s, h, spec, pid, target);
    case CollectSegments => CollectKeeps(c, s, h, spec);
    case PublishBase => PublishKeeps(c, s, h, spec);
    case WriteLocalFile => WriteLocalKeeps(c, s, h, spec);
    case InstallBase => InstallKeeps(c, s, h, spec);
    case SwapSnapshot => SwapKeeps(c, s, h, spec);
    case DeleteSegment => DeleteKeeps(c, s, h, spec);
    case NewProcess(pid) => AttachKeeps(c, s, h, spec, pid);
    case CleanRestart(pid) => RestartKeeps(c, s, h, spec, pid);
  }

  // ── Runs ──

  /** The world after a list of operations; one that is not allowed does nothing. */
  ghost function After(c: Config, ops: seq<Op>): World
    decreases |ops|
  {
    if ops == [] then
      ORIGIN
    else
      var w, op := After(c, ops[..|ops| - 1]), ops[|ops| - 1];
      if Allowed(w, op) then Next(c, w, op) else w
  }

  /** Every operation is allowed where it stands. */
  ghost predicate IsRun(c: Config, ops: seq<Op>) {
    ops == [] || (IsRun(c, ops[..|ops| - 1]) && Allowed(After(c, ops[..|ops| - 1]), ops[|ops| - 1]))
  }

  lemma {:induction false} RunInv(c: Config, ops: seq<Op>)
    requires c.Sound() && IsRun(c, ops)
    ensures WorldInv(c, After(c, ops))
    decreases |ops|
  {
    hide WorldInv, Allowed, Next;
    if ops == [] {
      OriginInv(c);
    } else {
      RunInv(c, ops[..|ops| - 1]);
      StepKeepsInv(c, After(c, ops[..|ops| - 1]), ops[|ops| - 1]);
    }
  }

  /**
   * In every reachable state each manifest (stored, local or cached) represents exactly the
   * commits up to its header and carries the redo point of the newest commit folded into it.
   */
  lemma {:induction false} ManifestsAreTrue(c: Config, ops: seq<Op>)
    requires c.Sound() && IsRun(c, ops)
    ensures var (s, h) := (After(c, ops).s, After(c, ops).h);
            && Covers(c.db, s.local, Below(h, s.local.ckpt)) && RedoOk(s.local, h, s.local.ckpt)
            && (forall p :: p in s.caches ==> Covers(c.db, s.caches[p], Below(h, s.caches[p].ckpt)) && RedoOk(s.caches[p], h, s.caches[p].ckpt))
            && (forall b :: b in s.bases ==> Covers(c.db, s.bases[b], Below(h, s.bases[b].ckpt)) && RedoOk(s.bases[b], h, b))
  {
    hide After, ObjInv, SegInv, WindowInv, PhaseInv, DataInv, Covers, RedoOk, Below;
    RunInv(c, ops);
  }

  // ── The plain map ──

  /** The bytes a plain map holds for a tag after the writes of a run. */
  function LastWritten(ops: seq<Op>, t: ChunkTag): Option<Chunk>
    decreases |ops|
  {
    if ops == [] then
      None
    else
      var was := LastWritten(ops[..|ops| - 1], t);
      var op := ops[|ops| - 1];
      if op.Patch? && op.t == t && op.off + |op.data| <= CHUNK_SIZE then
        Some(Splice(if was.Some? then was.value else Zeros(CHUNK_SIZE), op.off, op.data))
      else
        was
  }

  /** The metadata a plain map holds for a fork after the puts of a run. */
  function LastPut(ops: seq<Op>, rf: RelFork): Option<Meta>
    decreases |ops|
  {
    if ops == [] then
      None
    else if ops[|ops| - 1].Put? && ops[|ops| - 1].rf == rf then
      Some(ops[|ops| - 1].m)
    else
      LastPut(ops[..|ops| - 1], rf)
  }

  predicate NeverDeleted(ops: seq<Op>, rf: RelFork) {
    forall i :: 0 <= i < |ops| ==> !(ops[i].Put? && ops[i].rf == rf && ops[i].m.deleted)
  }

  /** No commit and no draft entry of the world marks the fork deleted. */
  ghost predicate NoDeletion(w: World, rf: RelFork) {
    && (forall i :: 0 <= i < |w.h| ==> !Deleted(w.h[i].relforks, rf))
    && !Deleted(w.s.draft.Relforks(), rf)
  }

  lemma {:induction false} MetaFoldKeepsLive(h: seq<Commit>, rf: RelFork)
    requires forall i :: 0 <= i < |h| ==> !Deleted(h[i].relforks, rf)
    ensures !Deleted(MetaFold(h), rf)
    decreases |h|
  {
    if h != [] {
      MetaFoldKeepsLive(h[..|h| - 1], rf);
    }
  }

  lemma {:induction false} NoDeletionIsLive(w: World, p: nat, i: int, rf: RelFork)
    requires NoDeletion(w, rf) && p <= |w.h|
    ensures LiveSince(w.h[..p], i, rf)
  {
    forall j | i < j <= p && 0 <= j ensures !Deleted(MetaFold(w.h[..p][..j]), rf) {
      assert w.h[..p][..j] == w.h[..j];
      MetaFoldKeepsLive(w.h[..j], rf);
    }
  }

  /** How a step treats the draft's metadata. */
  lemma {:induction false} StepDraft(c: Config, w: World, op: Op)
    requires Allowed(w, op)
    ensures var d := Next(c, w, op).s.draft;
            match op
            case Put(rf, m) => d.Relforks() == w.s.draft.Relforks()[rf := m]
            case MakeCommit(_, _) => d.Relforks() == map[]
            case CleanRestart(_) => d.Relforks() == map[]
            case _ => d.Relforks() == w.s.draft.Relforks()
  {
    hide GetChunk, LockedFind, LockedMeta, Listing, Gather, Folded, NewestOf, SortedSids, LoadManifest, BaseManifest;
  }

  lemma {:induction false} NoDeletionStep(c: Config, w: World, op: Op, rf: RelFork)
    requires Allowed(w, op) && NoDeletion(w, rf)
    requires !(op.Put? && op.rf == rf && op.m.deleted)
    ensures NoDeletion(Next(c, w, op), rf)
  {
    hide NextState, Allowed;
    StepDraft(c, w, op);
    if op.MakeCommit? {
      assert CommitOf(w.s, op.ckpt, op.redo).relforks == w.s.draft.Relforks();
    }
  }

  lemma {:induction false} NeverDeletedHolds(c: Config, ops: seq<Op>, rf: RelFork)
    requires IsRun(c, ops) && NeverDeleted(ops, rf)
    ensures NoDeletion(After(c, ops), rf)
    decreases |ops|
  {
    hide Next, Allowed;
    if ops == [] {
      assert NO_DRAFT.Relforks() == map[];
    } else {
      NeverDeletedHolds(c, ops[..|ops| - 1], rf);
      NoDeletionStep(c, After(c, ops[..|ops| - 1]), ops[|ops| - 1], rf);
    }
  }

  /** A chunk of a fork that was never deleted reads as the specification's bytes. */
  lemma {:induction false} LiveRead(c: Config, w: World, pid: nat, t: ChunkTag)
    requires WorldInv(c, w) && NoDeletion(w, t.rf) && pid in w.s.caches && Loadable(w.s, pid)
    ensures GetChunk(c, w.s, pid, t) == if t in w.spec.chunks then Some(w.spec.chunks[t]) else None
  {
    hide Inv, GetChunk, MetaFold, LiveSince, NoDeletion;
    ReadChunkIsLastWrite(c, w.s, w.h, w.spec, pid, t);
    NoDeletionIsLive(w, Upto(w.h, w.s.base), LastIdx(w.h, t), t.rf);
  }

  // ── Bytes that blind patches lost ──

  /** Patches in a process that has to merge with the base and cannot load it. */
  ghost predicate IsBlind(c: Config, w: World, op: Op) {
    op.Patch? && op.pid in w.s.caches && Blind(c, w.s, op.pid, op.t, op.off, op.data)
  }

  /**
   * Byte `b` of the chunk is not what was last written there: a blind patch beside it
   * zeroed a byte that was not zero, and no patch has written the byte since.
   */
  ghost predicate Lost(c: Config, ops: seq<Op>, t: ChunkTag, b: nat)
    requires b < CHUNK_SIZE
    decreases |ops|
  {
    if ops == [] then
      false
    else
      var init, op := ops[..|ops| - 1], ops[|ops| - 1];
      var w := After(c, init);
      if !op.Patch? || op.t != t || op.off + |op.data| > CHUNK_SIZE then Lost(c, init, t, b)
      else if op.off <= b < op.off + |op.data| then false
      else if IsBlind(c, w, op) then t in w.plain && w.plain[t][b] != 0
      else Lost(c, init, t, b)
  }

  ghost predicate NoneLost(c: Config, ops: seq<Op>, t: ChunkTag) {
    forall b: nat {:trigger Lost(c, ops, t, b)} :: b < CHUNK_SIZE ==> !Lost(c, ops, t, b)
  }

  /** Some patch of the chunk in the run was blind. */
  ghost predicate SomeBlind(c: Config, ops: seq<Op>, t: ChunkTag)
    decreases |ops|
  {
    ops != [] && (SomeBlind(c, ops[..|ops| - 1], t)
                  || (ops[|ops| - 1].Patch? && ops[|ops| - 1].t == t && IsBlind(c, After(c, ops[..|ops| - 1]), ops[|ops| - 1])))
  }

  /** One byte of a chunk after a patch of it: in the store, and in the plain map. */
  lemma {:induction false} PatchedByte(c: Config, w: World, op: Op, b: nat)
    requires WorldInv(c, w) && op.Patch? && Allowed(w, op) && b < CHUNK_SIZE && NoDeletion(w, op.t.rf)
    ensures var w1 := Next(c, w, op);
            && op.t in w1.spec.chunks && op.t in w1.plain
            && w1.plain[op.t][b] == (if op.off <= b < op.off + |op.data| then op.data[b - op.off]
                                     else if op.t in w.plain then w.plain[op.t][b] else 0)
            && w1.spec.chunks[op.t][b] == (if op.off <= b < op.off + |op.data| then op.data[b - op.off]
                                           else if op.t in w.spec.chunks && !IsBlind(c, w, op) then w.spec.chunks[op.t][b] else 0)
  {
    hide Inv, LockedFind, Loadable, PatchBase, NextState, LiveSince, NoDeletion;
    NoDeletionIsLive(w, Upto(w.h, w.s.base), LastIdx(w.h, op.t), op.t.rf);
    PatchBaseIs(c, w.s, w.h, w.spec, op.pid, op.t);
  }

  /**
   * After every run, each byte of a chunk in the store is the byte last written there if
   * and only if it was not lost to a blind patch.
   */
  lemma {:induction false} StoredByteIff(c: Config, ops: seq<Op>, t: ChunkTag, b: nat)
    requires c.Sound() && IsRun(c, ops) && NeverDeleted(ops, t.rf) && b < CHUNK_SIZE
    ensures var w := After(c, ops);
            && (t in w.plain <==> t in w.spec.chunks)
            && (t !in w.plain ==> !Lost(c, ops, t, b))
            && (t in w.plain ==> (w.spec.chunks[t][b] == w.plain[t][b] <==> !Lost(c, ops, t, b)))
            && (t in w.plain && Lost(c, ops, t, b) ==> w.spec.chunks[t][b] == 0)
    decreases |ops|
  {
    if ops != [] {
      hide NextState, WorldInv, NoDeletion, IsBlind, Over, PatchBase;
      var init, op := ops[..|ops| - 1], ops[|ops| - 1];
      StoredByteIff(c, init, t, b);
      if op.Patch? && op.t == t {
        RunInv(c, init);
        NeverDeletedHolds(c, init, t.rf);
        PatchedByte(c, After(c, init), op, b);
      }
    }
  }

  lemma {:induction false} StoredIsPlainIff(c: Config, ops: seq<Op>, t: ChunkTag)
    requires c.Sound() && IsRun(c, ops) && NeverDeleted(ops, t.rf)
    ensures var w := After(c, ops);
            && (t in w.plain <==> t in w.spec.chunks)
            && (t !in w.plain ==> NoneLost(c, ops, t))
            && (t in w.plain ==> (w.spec.chunks[t] == w.plain[t] <==> NoneLost(c, ops, t)))
  {
    hide After, Lost, IsRun;
    StoredByteIff(c, ops, t, 0);
    var w := After(c, ops);
    forall b: nat | b < CHUNK_SIZE
      ensures t !in w.plain ==> !Lost(c, ops, t, b)
      ensures t in w.plain ==> t in w.spec.chunks && (w.spec.chunks[t][b] == w.plain[t][b] <==> !Lost(c, ops, t, b))
    {
      StoredByteIff(c, ops, t, b);
    }
    if t in w.plain && NoneLost(c, ops, t) {
      assert forall b :: 0 <= b < CHUNK_SIZE ==> w.spec.chunks[t][b] == w.plain[t][b];
    }
  }

  /**
   * After every run that lost nothing of a chunk, a patch of it gives the store the bytes
   * it gives the plain map if and only if it is not blind, or the chunk was never
   * written, or all that the patch leaves of it is zero.
   */
  lemma {:induction false} PatchAgreesIff(c: Config, ops: seq<Op>, op: Op)
    requires c.Sound() && op.Patch? && IsRun(c, ops) && NeverDeleted(ops, op.t.rf) && NoneLost(c, ops, op.t)
    requires Allowed(After(c, ops), op)
    ensures var w, w1 := After(c, ops), Next(c, After(c, ops), op);
            op.t in w1.spec.chunks && op.t in w1.plain
            && (w1.spec.chunks[op.t] == w1.plain[op.t]
                <==> !IsBlind(c, w, op) || op.t !in w.plain || ZeroOutside(w.plain[op.t], op.off, |op.data|))
  {
    hide After, Inv, NextState, PatchBase, Lost, NoneLost, LockedFind, Loadable, NoDeletion, LiveSince;
    var w := After(c, ops);
    RunInv(c, ops);
    NeverDeletedHolds(c, ops, op.t.rf);
    StoredIsPlainIff(c, ops, op.t);
    NoDeletionIsLive(w, Upto(w.h, w.s.base), LastIdx(w.h, op.t), op.t.rf);
    PatchIsPlainIff(c, w.s, w.h, w.spec, op.pid, op.t, op.off, op.data);
    if op.t in w.plain {
      SpliceOverZerosIff(w.plain[op.t], op.off, op.data);
    }
  }

  /** A run that patches no chunk blindly loses nothing of it. */
  lemma {:induction false} NoBlindNoneLost(c: Config, ops: seq<Op>, t: ChunkTag, b: nat)
    requires !SomeBlind(c, ops, t) && b < CHUNK_SIZE
    ensures !Lost(c, ops, t, b)
    decreases |ops|
  {
    if ops != [] {
      hide After, IsBlind;
      NoBlindNoneLost(c, ops[..|ops| - 1], t, b);
    }
  }

  /** The world's plain map is the one the operations alone determine. */
  lemma {:induction false} PlainIsLastWritten(c: Config, ops: seq<Op>, t: ChunkTag)
    requires IsRun(c, ops)
    ensures var plain := After(c, ops).plain;
            LastWritten(ops, t) == if t in plain then Some(plain[t]) else None
    decreases |ops|
  {
    if ops != [] {
      hide NextState, PatchBase;
      PlainIsLastWritten(c, ops[..|ops| - 1], t);
    }
  }

  lemma {:induction false} MetasArePlain(c: Config, ops: seq<Op>, rf: RelFork)
    requires IsRun(c, ops)
    ensures var spec := After(c, ops).spec;
            LastPut(ops, rf) == if rf in spec.metas then Some(spec.metas[rf]) else None
    decreases |ops|
  {
    if ops != [] {
      hide NextState, Allowed, PatchBase;
      MetasArePlain(c, ops[..|ops| - 1], rf);
    }
  }

  /**
   * Exactly: in every state that a run can reach, `get_chunk` returns the bytes of the
   * last patches to the chunk, or not-found if there were none, for every fork that the
   * run never marks deleted; unless the base is needed now and cannot be loaded, or a
   * blind patch lost one of its bytes.
   */
  lemma {:induction false} GetChunkRefinesMapIff(c: Config, ops: seq<Op>, pid: nat, t: ChunkTag)
    requires c.Sound() && IsRun(c, ops) && NeverDeleted(ops, t.rf) && pid in After(c, ops).s.caches
    ensures var s := After(c, ops).s;
            GetChunk(c, s, pid, t) == LastWritten(ops, t)
            <==> (Loadable(s, pid) || LockedFind(c, s, t).Some? || LastWritten(ops, t).None?) && NoneLost(c, ops, t)
  {
    hide After, LastWritten, NoDeletion, Loadable, Inv, LockedFind, NoneLost, GetChunk;
    RunInv(c, ops);
    NeverDeletedHolds(c, ops, t.rf);
    StoredIsPlainIff(c, ops, t);
    PlainIsLastWritten(c, ops, t);
    var w := After(c, ops);
    if Loadable(w.s, pid) {
      LiveRead(c, w, pid, t);
    } else {
      ReadChunkIsLastWrite(c, w.s, w.h, w.spec, pid, t);
      UnloadableRead(c, w.s, w.h, w.spec, pid, t);
    }
  }

  /** In a run without blind patches of the chunk, each process that can load the base reads the plain map. */
  lemma {:induction false} GetChunkRefinesMap(c: Config, ops: seq<Op>, pid: nat, t: ChunkTag)
    requires c.Sound() && IsRun(c, ops) && NeverDeleted(ops, t.rf) && !SomeBlind(c, ops, t)
    requires pid in After(c, ops).s.caches && Loadable(After(c, ops).s, pid)
    ensures GetChunk(c, After(c, ops).s, pid, t) == LastWritten(ops, t)
  {
    hide After, LastWritten, GetChunk, Loadable, LockedFind, Lost, SomeBlind;
    GetChunkRefinesMapIff(c, ops, pid, t);
    forall b: nat | b < CHUNK_SIZE ensures !Lost(c, ops, t, b) {
      NoBlindNoneLost(c, ops, t, b);
    }
  }

  /**
   * In every reachable state `get_meta` returns the last metadata put for the fork, or
   * not-found if there was none, exactly unless it needs the base and cannot load it.
   */
  lemma {:induction false} GetMetaRefinesMapIff(c: Config, ops: seq<Op>, pid: nat, rf: RelFork)
    requires c.Sound() && IsRun(c, ops) && pid in After(c, ops).s.caches
    ensures var s := After(c, ops).s;
            GetMeta(c, s, pid, rf) == LastPut(ops, rf)
            <==> Loadable(s, pid) || LockedMeta(c, s, rf).Some? || LastPut(ops, rf).None?
  {
    hide After, LastPut, Inv, Loadable, LockedMeta;
    RunInv(c, ops);
    var w := After(c, ops);
    MetasArePlain(c, ops, rf);
    LockedMetaIs(c, w.s, w.h, w.spec, rf);
    if Loadable(w.s, pid) {
      ReadMetaIsLastPut(c, w.s, w.h, w.spec, pid, rf);
    }
  }

  /** `create_relfork`: refused for a fork whose metadata is read and not deleted, else an empty live fork. */
  ghost function CreateRelfork(c: Config, s: State, pid: nat, rf: RelFork): Option<State>
    requires pid in s.caches
  {
    var r := GetMeta(c, s, pid, rf);
    if r.Some? && !r.value.deleted then None else Some(PutMeta(AfterGetMeta(c, s, pid, rf), rf, Meta(0, false)))
  }

  /**
   * After every run `create_relfork` refuses exactly the live forks, unless the fork is
   * live, its metadata is in the base and the base cannot be loaded: then it empties it.
   */
  lemma {:induction false} CreateRefusesLiveIff(c: Config, ops: seq<Op>, pid: nat, rf: RelFork)
    requires c.Sound() && IsRun(c, ops) && pid in After(c, ops).s.caches
    ensures var s, live := After(c, ops).s, LastPut(ops, rf).Some? && !LastPut(ops, rf).value.deleted;
            (CreateRelfork(c, s, pid, rf).None? <==> live)
            <==> Loadable(s, pid) || LockedMeta(c, s, rf).Some? || !live
  {
    hide After, LastPut, Inv, Loadable, LockedMeta, IsRun;
    GetMetaRefinesMapIff(c, ops, pid, rf);
    var s := After(c, ops).s;
    assert !Loadable(s, pid) && LockedMeta(c, s, rf).None? ==> GetMeta(c, s, pid, rf) == None;
  }

  /** The base can always be loaded, except between the compactor's rewrite of the local file and its installation. */
  lemma {:induction false} AlwaysLoadable(c: Config, ops: seq<Op>, pid: nat)
    requires c.Sound() && IsRun(c, ops) && pid in After(c, ops).s.caches
    requires !After(c, ops).s.phase.Written?
    ensures Loadable(After(c, ops).s, pid)
  {
    hide After, ManInv, ObjInv, SegInv, WindowInv, PhaseInv, DataInv, Loadable;
    RunInv(c, ops);
    var w := After(c, ops);
    IdleCanLoad(c, w.s, w.h);
  }
}
