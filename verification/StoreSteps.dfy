/** Every step of the store keeps the invariant. */
module StoreSteps {
  import opened Types
  import opened WindowSpec
  import opened ManifestSpec
  import opened History
  import opened StoreModel
  import opened StoreInv
  import opened StoreReads

  // ── Reads and process start ──

  lemma EmptyIsGood(c: Config, h: seq<Commit>)
    requires Chain(h)
    ensures Good(c.db, EMPTY, h)
  {
    NothingAtGenesis(h);
    assert EMPTY.redo == RedoAt(h, 0);
    EmptyCovers(c.db);
    assert Below(h, GENESIS) == [];
  }

  lemma LoadedIsGood(c: Config, s: State, h: seq<Commit>)
    requires Chain(h) && ManInv(c, s, h) && CanLoad(s, s.base)
    ensures Good(c.db, LoadManifest(s, s.base), h) && HeaderOk(s, LoadManifest(s, s.base))
  {
    EmptyIsGood(c, h);
  }

  /** The empty store satisfies the invariant. */
  lemma {:induction false} StartInv(c: Config)
    requires c.Sound()
    ensures Inv(c, START, [], Spec(map[], map[]))
  {
    hide Folded;
    EmptyIsGood(c, []);
    assert NO_DRAFT.Chunks() == {} && NO_DRAFT.Relforks() == map[];
  }

  lemma {:induction false} ReloadedKeeps(c: Config, s: State, h: seq<Commit>, spec: Spec, pid: nat)
    requires Inv(c, s, h, spec) && pid in s.caches
    ensures Inv(c, Reloaded(s, pid), h, spec)
  {
    hide ObjInv, SegInv, WindowInv, ManInv, PhaseInv, DataInv;
    var s1 := Reloaded(s, pid);
    SameObjects(c, s, s1, h);
    SameFiles(c, s, s1, h);
    SameData(c, s, s1, h, spec);
    SamePhase(c, s, s1, h);
    ReloadedManifests(c, s, h, pid);
  }

  lemma {:induction false} ReloadedManifests(c: Config, s: State, h: seq<Commit>, pid: nat)
    requires Chain(h) && ManInv(c, s, h) && pid in s.caches
    ensures ManInv(c, Reloaded(s, pid), h)
  {
    hide Good, Fits;
    if CanLoad(s, s.base) {
      LoadedIsGood(c, s, h);
    }
  }

  lemma {:induction false} SameObjects(c: Config, s: State, s1: State, h: seq<Commit>)
    requires ObjInv(c, s, h)
    requires s1.objs == s.objs && s1.head == s.head && s1.draft.Chunks() == s.draft.Chunks()
    ensures ObjInv(c, s1, h)
  {
  }

  lemma {:induction false} SameFiles(c: Config, s: State, s1: State, h: seq<Commit>)
    requires SegInv(s, h) && WindowInv(c, s, h)
    requires s1.segs == s.segs && s1.base == s.base && s1.window == s.window
    ensures SegInv(s1, h) && WindowInv(c, s1, h)
  {
  }

  lemma {:induction false} SameData(c: Config, s: State, s1: State, h: seq<Commit>, spec: Spec)
    requires DataInv(c, s, h, spec)
    requires s1.objs == s.objs && s1.head == s.head
    requires s1.draft.Chunks() == s.draft.Chunks() && s1.draft.Relforks() == s.draft.Relforks()
    ensures DataInv(c, s1, h, spec)
  {
    assert forall t :: Latest(c, s1, h, t) == Latest(c, s, h, t);
  }

  lemma {:induction false} SamePhase(c: Config, s: State, s1: State, h: seq<Commit>)
    requires PhaseInv(c, s, h)
    requires s1.phase == s.phase && s1.segs == s.segs && s1.bases == s.bases && s1.base == s.base
    requires s.caches.Keys <= s1.caches.Keys
    ensures PhaseInv(c, s1, h)
  {
  }

  lemma {:induction false} SameManifests(c: Config, s: State, s1: State, h: seq<Commit>)
    requires ManInv(c, s, h)
    requires s1.local == s.local && s1.caches == s.caches && s1.bases == s.bases && s1.base == s.base && s1.phase == s.phase
    ensures ManInv(c, s1, h)
  {
  }

  lemma {:induction false} AttachKeeps(c: Config, s: State, h: seq<Commit>, spec: Spec, pid: nat)
    requires Inv(c, s, h, spec)
    ensures Inv(c, Attach(s, pid), h, spec)
  {
    hide ObjInv, SegInv, WindowInv, PhaseInv, DataInv, ManInv;
    var s1 := Attach(s, pid);
    AttachManifests(c, s, h, pid);
    SameObjects(c, s, s1, h);
    SameFiles(c, s, s1, h);
    SameData(c, s, s1, h, spec);
    SamePhase(c, s, s1, h);
  }

  lemma {:induction false} AttachManifests(c: Config, s: State, h: seq<Commit>, pid: nat)
    requires ManInv(c, s, h)
    ensures ManInv(c, Attach(s, pid), h)
  {
    hide Good, Fits;
  }

  // ── Writes ──

  /** What a patch puts on top of: the bytes read, or zeros. */
  ghost function PatchBase(c: Config, s: State, pid: nat, t: ChunkTag): Chunk
    requires pid in s.caches
  {
    var r := GetChunk(c, s, pid, t);
    if r.Some? then r.value else Zeros(CHUNK_SIZE)
  }

  lemma {:induction false} PatchKeeps(c: Config, s: State, h: seq<Commit>, spec: Spec, pid: nat, t: ChunkTag, off: nat, data: Bytes)
    requires Inv(c, s, h, spec) && pid in s.caches && off + |data| <= CHUNK_SIZE
    ensures Inv(c, PatchChunk(c, s, pid, t, off, data), h,
                spec.(chunks := spec.chunks[t := Splice(PatchBase(c, s, pid, t), off, data)]))
  {
    ReloadedKeeps(c, s, h, spec, pid);
    var s1 := if IsFull(off, data) then s else AfterGetChunk(c, s, pid, t);
    var merged := Splice(PatchBase(c, s, pid, t), off, data);
    PutKeeps(c, s1, h, spec, t, merged);
  }

  /** Storing a whole chunk at the head prefix and noting it in the draft. */
  lemma {:induction false} PutKeeps(c: Config, s: State, h: seq<Commit>, spec: Spec, t: ChunkTag, bytes: Chunk)
    requires Inv(c, s, h, spec)
    ensures Inv(c, s.(objs := s.objs[KeyOf(c, s.head, t) := bytes], draft := s.draft.WithChunk(t)), h,
                spec.(chunks := spec.chunks[t := bytes]))
  {
    hide ObjInv, SegInv, WindowInv, ManInv, PhaseInv, DataInv;
    var s1 := s.(objs := s.objs[KeyOf(c, s.head, t) := bytes], draft := s.draft.WithChunk(t));
    PutObjects(c, s, s1, h, t, bytes);
    SameFiles(c, s, s1, h);
    PutData(c, s, s1, h, spec, t, bytes);
    SamePhase(c, s, s1, h);
    SameManifests(c, s, s1, h);
  }

  lemma {:induction false} PutObjects(c: Config, s: State, s1: State, h: seq<Commit>, t: ChunkTag, bytes: Chunk)
    requires ObjInv(c, s, h)
    requires s1 == s.(objs := s.objs[KeyOf(c, s.head, t) := bytes], draft := s.draft.WithChunk(t))
    ensures ObjInv(c, s1, h)
  {
    assert s1.draft.Chunks() == s.draft.Chunks() + {t};
  }

  lemma {:induction false} PutData(c: Config, s: State, s1: State, h: seq<Commit>, spec: Spec, t: ChunkTag, bytes: Chunk)
    requires DataInv(c, s, h, spec)
    requires s1 == s.(objs := s.objs[KeyOf(c, s.head, t) := bytes], draft := s.draft.WithChunk(t))
    ensures DataInv(c, s1, h, spec.(chunks := spec.chunks[t := bytes]))
  {
    assert s1.draft.Chunks() == s.draft.Chunks() + {t};
    forall u | u != t ensures Latest(c, s1, h, u) == Latest(c, s, h, u) {
    }
    assert Latest(c, s1, h, t) == Some(KeyOf(c, s.head, t));
  }

  lemma {:induction false} PutMetaKeeps(c: Config, s: State, h: seq<Commit>, spec: Spec, rf: RelFork, m: Meta)
    requires Inv(c, s, h, spec)
    ensures Inv(c, PutMeta(s, rf, m), h, spec.(metas := spec.metas[rf := m]))
  {
    hide ObjInv, SegInv, WindowInv, ManInv, PhaseInv, DataInv;
    var s1 := PutMeta(s, rf, m);
    assert s1.draft.Relforks() == s.draft.Relforks()[rf := m];
    assert s1.draft.Chunks() == s.draft.Chunks();
    SameObjects(c, s, s1, h);
    SameFiles(c, s, s1, h);
    MetaData(c, s, s1, h, spec, rf, m);
    SamePhase(c, s, s1, h);
    SameManifests(c, s, s1, h);
  }

  lemma {:induction false} MetaData(c: Config, s: State, s1: State, h: seq<Commit>, spec: Spec, rf: RelFork, m: Meta)
    requires DataInv(c, s, h, spec)
    requires s1.objs == s.objs && s1.head == s.head && s1.draft.Chunks() == s.draft.Chunks()
    requires s1.draft.Relforks() == s.draft.Relforks()[rf := m]
    ensures DataInv(c, s1, h, spec.(metas := spec.metas[rf := m]))
  {
    hide MetaFold;
    assert forall t :: Latest(c, s1, h, t) == Latest(c, s, h, t);
  }

  lemma {:induction false} SpillKeeps(c: Config, s: State, h: seq<Commit>, spec: Spec)
    requires Inv(c, s, h, spec)
    ensures Inv(c, Spill(s), h, spec)
  {
    hide ObjInv, SegInv, WindowInv, ManInv, PhaseInv, DataInv;
    var s1 := Spill(s);
    assert s1.draft.Relforks() == s.draft.Relforks();
    assert s1.draft.Chunks() == s.draft.Chunks();
    SameObjects(c, s, s1, h);
    SameFiles(c, s, s1, h);
    SameData(c, s, s1, h, spec);
    SamePhase(c, s, s1, h);
    SameManifests(c, s, s1, h);
  }

  // ── Commit ──

  lemma WrittenAtExtend(h: seq<Commit>, k: Commit, at: Checkpoint, t: ChunkTag)
    ensures WrittenAt(h + [k], at, t) <==> WrittenAt(h, at, t) || (k.prev == at && t in k.chunks)
  {
    var g := h + [k];
    if WrittenAt(h, at, t) {
      var i :| 0 <= i < |h| && h[i].prev == at && t in h[i].chunks;
      assert g[i] == h[i];
    }
    if k.prev == at && t in k.chunks {
      assert g[|h|] == k;
    }
  }

  lemma {:induction false} CommitObjects(c: Config, s: State, s1: State, h: seq<Commit>, k: Commit)
    requires ObjInv(c, s, h) && k.prev == s.head && k.chunks == s.draft.Chunks()
    requires s1.objs == s.objs && s1.draft == NO_DRAFT
    ensures ObjInv(c, s1, h + [k])
  {
    hide WrittenAt;
    forall o: ChunkKey | o.db == c.db
      ensures o in s1.objs <==> WrittenAt(h + [k], o.ckpt, o.tag) || (o.ckpt == s1.head && o.tag in s1.draft.Chunks())
    {
      WrittenAtExtend(h, k, o.ckpt, o.tag);
    }
  }

  lemma {:induction false} CommitData(c: Config, s: State, s1: State, h: seq<Commit>, spec: Spec, k: Commit)
    requires DataInv(c, s, h, spec) && k.prev == s.head
    requires k.chunks == s.draft.Chunks() && k.relforks == s.draft.Relforks()
    requires s1.objs == s.objs && s1.draft == NO_DRAFT
    ensures DataInv(c, s1, h + [k], spec)
  {
    var g := h + [k];
    MetaFoldStep(h, k);
    assert NO_DRAFT.Relforks() == map[];
    forall t ensures Latest(c, s1, g, t) == Latest(c, s, h, t) {
      LastIdxSnoc(h, k, t);
    }
  }

  lemma {:induction false} BucketExtend(h: seq<Commit>, k: Commit, sid: SegmentId)
    ensures Bucket(h + [k], sid) == if SidOf(k.ckpt) == sid then Bucket(h, sid) + [k] else Bucket(h, sid)
  {
    var g := h + [k];
    assert g[..|g| - 1] == h && g[|g| - 1] == k;
  }

  /** A new commit's segment file exists already, unless no commit belongs in it. */
  lemma {:induction false} NewFileIsEmpty(s: State, h: seq<Commit>, k: Commit)
    requires Chain(h) && SegInv(s, h) && k.prev == HeadOf(h) && Before(k.prev, k.ckpt)
    ensures SidOf(k.ckpt) !in s.segs ==> Bucket(h, SidOf(k.ckpt)) == []
  {
    var sid := SidOf(k.ckpt);
    var b := Bucket(h, sid);
    if sid !in s.segs && b != [] {
      BucketHolds(h, sid, b[0]);
      var i :| 0 <= i < |h| && h[i] == b[0];
      HeadIsHighest(h, i);
      SidMonotone(h[i].ckpt, HeadOf(h));
      SidMonotone(HeadOf(h), k.ckpt);
    }
  }

  lemma {:induction false} CommitFiles(s: State, s1: State, h: seq<Commit>, k: Commit)
    requires Chain(h) && SegInv(s, h) && k.prev == HeadOf(h) && Before(k.prev, k.ckpt)
    requires var sid := SidOf(k.ckpt);
             s1.segs == s.segs[sid := (if sid in s.segs then s.segs[sid] else []) + [k]]
    requires s1.base == s.base
    ensures SegInv(s1, h + [k])
  {
    hide Chain;
    var g := h + [k];
    NewFileIsEmpty(s, h, k);
    forall sid | sid in s1.segs ensures s1.segs[sid] == Bucket(g, sid) && s1.segs[sid] != [] {
      BucketExtend(h, k, sid);
    }
    forall i | 0 <= i < |h| ensures g[i] == h[i] && InFile(s1, g[i]) == InFile(s, h[i]) {
      OldFiles(s, s1, h, k, i);
    }
    assert InFile(s1, g[|h|]);
  }

  /** A commit adds no file for an older commit. */
  lemma {:induction false} OldFiles(s: State, s1: State, h: seq<Commit>, k: Commit, i: nat)
    requires Chain(h) && SegInv(s, h) && k.prev == HeadOf(h) && Before(k.prev, k.ckpt) && i < |h|
    requires s1.segs.Keys == s.segs.Keys + {SidOf(k.ckpt)}
    ensures InFile(s1, h[i]) == InFile(s, h[i])
  {
    hide Chain, SegInv;
    NewFileIsEmpty(s, h, k);
    BucketHolds(h, SidOf(k.ckpt), h[i]);
  }

  lemma {:induction false} RedoExtend(m: Manifest, h: seq<Commit>, k: Commit, at: Checkpoint)
    requires Chain(h) && k.prev == HeadOf(h) && Before(k.prev, k.ckpt)
    requires RedoOk(m, h, at) && CkptLe(m.ckpt, HeadOf(h)) && CkptLe(at, HeadOf(h))
    ensures RedoOk(m, h + [k], at)
  {
    hide Chain, Upto;
    UptoExtend(h, k, m.ckpt);
    UptoExtend(h, k, at);
    var g := h + [k];
    assert forall i :: 0 <= i < |h| ==> g[i] == h[i];
    var n: nat :| Upto(h, m.ckpt) <= n <= |h| && AllEmpty(h, Upto(h, m.ckpt), n)
      && m.redo == RedoAt(h, n) && (at == m.ckpt || n == Upto(h, at));
    assert RedoAt(g, n) == RedoAt(h, n);
  }

  lemma {:induction false} GoodExtend(db: U64, m: Manifest, h: seq<Commit>, k: Commit)
    requires Chain(h) && k.prev == HeadOf(h) && Before(k.prev, k.ckpt)
    requires Good(db, m, h) && CkptLe(m.ckpt, HeadOf(h))
    ensures Good(db, m, h + [k]) && Below(h + [k], m.ckpt) == Below(h, m.ckpt)
  {
    hide Covers, RedoOk;
    RedoExtend(m, h, k, m.ckpt);
    UptoExtend(h, k, m.ckpt);
    assert (h + [k])[..Upto(h, m.ckpt)] == h[..Upto(h, m.ckpt)];
    if m.ckpt != GENESIS {
      var i :| 0 <= i < |h| && h[i].ckpt == m.ckpt && !IsEmpty(h[i]);
      assert (h + [k])[i] == h[i];
    }
  }

  lemma {:induction false} FitsExtend(db: U64, m: Manifest, h: seq<Commit>, k: Commit, at: Checkpoint)
    requires Chain(h) && k.prev == HeadOf(h) && Before(k.prev, k.ckpt)
    requires Fits(db, m, h, at)
    ensures Fits(db, m, h + [k], at)
  {
    hide Good, RedoOk;
    GoodExtend(db, m, h, k);
    RedoExtend(m, h, k, at);
    UptoExtend(h, k, m.ckpt);
    UptoExtend(h, k, at);
    var g := h + [k];
    assert forall i :: 0 <= i < |h| ==> g[i] == h[i];
  }

  lemma {:induction false} HeaderIsBelowHead(c: Config, s: State, h: seq<Commit>, m: Manifest)
    requires HeaderOk(s, m) && CkptLe(s.base, HeadOf(h))
    requires s.phase.Written? ==> Fits(c.db, s.phase.applied, h, s.phase.target)
    ensures CkptLe(m.ckpt, HeadOf(h))
  {
    hide Good;
  }

  lemma {:induction false} CommitManifests(c: Config, s: State, s1: State, h: seq<Commit>, k: Commit)
    requires Chain(h) && k.prev == HeadOf(h) && Before(k.prev, k.ckpt)
    requires ManInv(c, s, h) && (s.phase.Written? ==> Fits(c.db, s.phase.applied, h, s.phase.target))
    requires s1.local == s.local && s1.caches == s.caches && s1.bases == s.bases && s1.base == s.base && s1.phase == s.phase
    ensures ManInv(c, s1, h + [k])
  {
    hide Good, Fits, HeaderOk, Chain;
    HeldExtends(c, s, s1, h, k, s.local);
    forall p | p in s.caches ensures Good(c.db, s.caches[p], h + [k]) && HeaderOk(s1, s.caches[p]) {
      HeldExtends(c, s, s1, h, k, s.caches[p]);
    }
    forall b | b in s.bases ensures Fits(c.db, s.bases[b], h + [k], b) {
      FitsExtend(c.db, s.bases[b], h, k, b);
    }
  }

  /** A manifest that some process holds is as good after a commit as before. */
  lemma {:induction false} HeldExtends(c: Config, s: State, s1: State, h: seq<Commit>, k: Commit, m: Manifest)
    requires Chain(h) && k.prev == HeadOf(h) && Before(k.prev, k.ckpt) && CkptLe(s.base, HeadOf(h))
    requires s.phase.Written? ==> Fits(c.db, s.phase.applied, h, s.phase.target)
    requires Good(c.db, m, h) && HeaderOk(s, m) && s1.base == s.base && s1.phase == s.phase
    ensures Good(c.db, m, h + [k]) && HeaderOk(s1, m)
  {
    hide Good, Fits, Chain;
    HeaderIsBelowHead(c, s, h, m);
    GoodExtend(c.db, m, h, k);
  }

  lemma {:induction false} ContinuesExtend(h: seq<Commit>, k: Commit, from: Checkpoint, apply: seq<Commit>)
    requires Chain(h) && k.prev == HeadOf(h) && Before(k.prev, k.ckpt) && CkptLe(from, HeadOf(h))
    requires Continues(h, from, apply)
    ensures Continues(h + [k], from, apply)
    ensures apply != [] && CkptLe(apply[|apply| - 1].ckpt, HeadOf(h))
  {
    hide Chain, Upto;
    UptoExtend(h, k, from);
    var i, j :| Upto(h, from) <= i < j <= |h| && AllEmpty(h, Upto(h, from), i) && apply == h[i..j];
    var g := h + [k];
    assert g[i..j] == apply;
    assert forall x :: 0 <= x < |h| ==> g[x] == h[x];
    assert AllEmpty(g, Upto(g, from), i);
    HeadIsHighest(h, j - 1);
  }

  /** The file of a new commit is not below any bound the compactor works with. */
  lemma NewFileIsHigh(h: seq<Commit>, k: Commit, bound: Checkpoint)
    requires k.prev == HeadOf(h) && Before(k.prev, k.ckpt) && CkptLe(bound, HeadOf(h))
    ensures !SidLess(SidOf(k.ckpt), SidOf(bound))
  {
    SidMonotone(bound, k.ckpt);
  }

  lemma {:induction false} CommitPhase(c: Config, s: State, s1: State, h: seq<Commit>, k: Commit)
    requires Chain(h) && k.prev == HeadOf(h) && Before(k.prev, k.ckpt)
    requires CkptLe(s.base, HeadOf(h)) && PhaseInv(c, s, h)
    requires s1.segs.Keys == s.segs.Keys + {SidOf(k.ckpt)}
    requires s1.phase == s.phase && s1.bases == s.bases && s1.base == s.base && s1.caches == s.caches
    ensures PhaseInv(c, s1, h + [k])
  {
    hide Good, Continues, Increasing;
    NewFileIsHigh(h, k, s.base);
    match s.phase
    case Collected(pid, _, from, ids, apply) =>
      ContinuesExtend(h, k, from, apply);
      NewFileIsHigh(h, k, apply[|apply| - 1].ckpt);
    case Published(pid, from, ids, target, applied) => ReadyExtend(c, s, s1, h, k, ids, target, applied);
    case Written(pid, from, ids, target, applied) => ReadyExtend(c, s, s1, h, k, ids, target, applied);
    case Installed(pid, ids, target, applied) => ReadyExtend(c, s, s1, h, k, ids, target, applied);
    case _ =>
  }

  lemma {:induction false} ReadyExtend(c: Config, s: State, s1: State, h: seq<Commit>, k: Commit,
                                       ids: seq<SegmentId>, target: Checkpoint, applied: Manifest)
    requires Chain(h) && k.prev == HeadOf(h) && Before(k.prev, k.ckpt)
    requires CkptLe(s.base, HeadOf(h)) && Ready(c, s, h, ids, target, applied)
    requires s1.segs.Keys == s.segs.Keys + {SidOf(k.ckpt)} && s1.bases == s.bases && s1.base == s.base
    ensures Ready(c, s1, h + [k], ids, target, applied)
  {
    hide Good, Increasing;
    NewFileIsHigh(h, k, target);
    FitsExtend(c.db, applied, h, k, target);
    UptoExtend(h, k, target);
    UptoExtend(h, k, s.base);
    var g := h + [k];
    assert forall x :: 0 <= x < |h| ==> g[x] == h[x];
  }

  lemma {:induction false} CommitKeeps(c: Config, s: State, h: seq<Commit>, spec: Spec, ckpt: Checkpoint, redo: Checkpoint)
    requires Inv(c, s, h, spec) && Before(s.head, ckpt)
    ensures Inv(c, RunCommit(c, s, ckpt, redo), h + [CommitOf(s, ckpt, redo)], spec)
  {
    hide ObjInv, SegInv, ManInv, DataInv, PhaseInv, Chain, WindowInv, Fits, Pushed;
    var s1, k := RunCommit(c, s, ckpt, redo), CommitOf(s, ckpt, redo);
    ChainExtend(h, k);
    CommitObjects(c, s, s1, h, k);
    CommitData(c, s, s1, h, spec, k);
    CommitFiles(s, s1, h, k);
    CommitWindow(c, s, s1, h, k);
    BaseIsBelowHead(c, s, h);
    WrittenFits(c, s, h);
    CommitManifests(c, s, s1, h, k);
    CommitPhase(c, s, s1, h, k);
  }

  lemma {:induction false} CommitWindow(c: Config, s: State, s1: State, h: seq<Commit>, k: Commit)
    requires WindowInv(c, s, h) && c.window > 0 && s1.window == Pushed(s.window, k, c.window)
    ensures WindowInv(c, s1, h + [k])
  {
    hide ListsNewest;
    PushListsNewest(s.window, h, k, c.window);
  }

  lemma {:induction false} WrittenFits(c: Config, s: State, h: seq<Commit>)
    requires PhaseInv(c, s, h)
    ensures s.phase.Written? ==> Fits(c.db, s.phase.applied, h, s.phase.target)
  {
    hide Fits;
  }

  lemma {:induction false} BaseIsBelowHead(c: Config, s: State, h: seq<Commit>)
    requires ManInv(c, s, h)
    ensures CkptLe(s.base, HeadOf(h)) && CkptLe(GENESIS, s.base)
  {
    hide Good, Fits;
  }
}
