/**
 * A restart rebuilds the window from the files that are left and takes the base
 * from the local file's header. Which answers survive is characterised exactly.
 */
module StoreRestart {
  import opened Types
  import opened WindowSpec
  import opened ManifestSpec
  import opened History
  import opened StoreModel
  import opened StoreInv
  import opened StoreReads
  import opened StoreSteps
  import opened StoreCompaction

  // ── Hydration lists the newest commits ──

  lemma {:induction false} BackwardsAppend(a: seq<Commit>, b: seq<Commit>, room: nat)
    ensures Backwards(a + b, room) == Backwards(b, room) + Backwards(a, room - |Backwards(b, room)|)
  {
    var l, x := Backwards(a + b, room), Backwards(b, room);
    var y := Backwards(a, room - |x|);
    forall i | 0 <= i < |l| ensures l[i] == (x + y)[i] {
    }
  }

  lemma {:induction false} NewestIsBackwards(s: State, ids: seq<SegmentId>, n: nat, room: nat)
    requires n <= |ids| && forall i :: 0 <= i < |ids| ==> ids[i] in s.segs
    ensures NewestOf(s.segs, ids, n, room) == Backwards(Contents(s, ids, n), room)
    decreases n
  {
    if n > 0 && room > 0 {
      hide Backwards;
      var got := Backwards(s.segs[ids[n - 1]], room);
      NewestIsBackwards(s, ids, n - 1, room - |got|);
      BackwardsAppend(Contents(s, ids, n - 1), s.segs[ids[n - 1]], room);
    }
  }

  lemma {:induction false} ContentsAscends(s: State, ids: seq<SegmentId>, n: nat)
    requires Increasing(ids) && FilesOk(s) && n <= |ids| && forall i :: 0 <= i < |ids| ==> ids[i] in s.segs
    ensures AscendingCkpts(Contents(s, ids, n))
    decreases n
  {
    if n > 0 {
      ContentsAscends(s, ids, n - 1);
      var a, b := Contents(s, ids, n - 1), s.segs[ids[n - 1]];
      forall i, j | 0 <= i < |a| && 0 <= j < |b| ensures CkptLess(a[i].ckpt, b[j].ckpt) {
        EarlierFileIsOlder(s, ids, n - 1, a[i], b[j]);
      }
    }
  }

  /** Where the commits that are still in files start. */
  lemma {:induction false} FirstInFile(s: State, h: seq<Commit>, n: nat) returns (lo: nat)
    requires FilesInv(s, h) && n <= |h|
    requires forall i :: n <= i < |h| ==> InFile(s, h[i])
    ensures lo <= n && forall i :: 0 <= i < |h| ==> (InFile(s, h[i]) <==> i >= lo)
    decreases n
  {
    if n == 0 || !InFile(s, h[n - 1]) {
      lo := n;
    } else {
      lo := FirstInFile(s, h, n - 1);
    }
  }

  lemma {:induction false} AllFilesAreSuffix(s: State, h: seq<Commit>, lo: nat)
    requires Chain(h) && FilesInv(s, h) && lo <= |h|
    requires forall i :: 0 <= i < |h| ==> (InFile(s, h[i]) <==> i >= lo)
    ensures var ids := SortedSids(s.segs.Keys); Contents(s, ids, |ids|) == h[lo..]
  {
    hide FilesInv, Chain, Contents, AscendingCkpts;
    var ids := SortedSids(s.segs.Keys);
    var all := Contents(s, ids, |ids|);
    FilesAreOk(s, h);
    ContentsAscends(s, ids, |ids|);
    SliceAscends(h, lo, |h|);
    assert h[lo..|h|] == h[lo..];
    forall k ensures k in all <==> k in h[lo..] {
      AllFilesHold(s, h, lo, k);
    }
    AscendingUnique(all, h[lo..]);
  }

  lemma {:induction false} AllFilesHold(s: State, h: seq<Commit>, lo: nat, k: Commit)
    requires Chain(h) && FilesInv(s, h) && lo <= |h|
    requires forall i :: 0 <= i < |h| ==> (InFile(s, h[i]) <==> i >= lo)
    ensures var ids := SortedSids(s.segs.Keys); k in Contents(s, ids, |ids|) <==> k in h[lo..]
  {
    hide Chain;
    var ids := SortedSids(s.segs.Keys);
    ContentsHolds(s, ids, |ids|, k);
    if k in Contents(s, ids, |ids|) {
      var i :| 0 <= i < |ids| && k in s.segs[ids[i]];
      BucketHolds(h, ids[i], k);
      var x :| 0 <= x < |h| && h[x] == k;
      assert ids[i] in ids && x >= lo;
      assert h[lo..][x - lo] == k;
    }
    if k in h[lo..] {
      var x :| 0 <= x < |h[lo..]| && h[lo..][x] == k;
      assert h[lo + x] == k;
      var sid := SidOf(k.ckpt);
      assert sid in ids;
      BucketHolds(h, sid, k);
    }
  }

  lemma {:induction false} SuffixListsNewest(h: seq<Commit>, lo: nat, room: nat)
    requires lo <= |h|
    ensures ListsNewest(Backwards(h[lo..], room), h)
  {
  }

  /**
   * The hydrated window lists the newest commits, all of them from files that exist; it is
   * full, or it holds all the commits that are in files.
   */
  lemma {:induction false} HydratedWindow(c: Config, s: State, h: seq<Commit>, pid: nat)
    requires c.Sound() && Chain(h) && FilesInv(s, h)
    ensures var s1 := Restart(c, s, pid);
            && WindowInv(c, s1, h) && s1.head == HeadOf(h)
            && (forall i :: |h| - |s1.window| <= i < |h| ==> 0 <= i && InFile(s1, h[i]))
            && (|s1.window| == c.window || forall i :: 0 <= i < |h| - |s1.window| ==> !InFile(s1, h[i]))
  {
    hide Chain, NewestOf, FilesInv;
    var ids := SortedSids(s.segs.Keys);
    var lo := FirstInFile(s, h, |h|);
    AllFilesAreSuffix(s, h, lo);
    NewestIsBackwards(s, ids, |ids|, c.window);
    SuffixListsNewest(h, lo, c.window);
    LastIsInFile(s, h);
  }

  lemma LastIsInFile(s: State, h: seq<Commit>)
    requires FilesInv(s, h)
    ensures h != [] ==> InFile(s, h[|h| - 1])
  {
  }

  // ── Restarts that keep the invariant ──

  predicate DraftIsEmpty(s: State) {
    s.draft.Chunks() == {} && s.draft.Relforks() == map[]
  }

  /** Each commit above the local file's header is still in a file, or changed nothing. */
  ghost predicate LocalIsCurrent(s: State, h: seq<Commit>) {
    forall i :: 0 <= i < |h| ==> InFile(s, h[i]) || CkptLe(h[i].ckpt, s.local.ckpt) || IsEmpty(h[i])
  }

  /**
   * A check the caller can make: the local file carries the same header as the
   * stored manifest of the base, even if that header is older than the base.
   */
  predicate LocalIsInstalled(s: State) {
    s.local.ckpt == if s.base in s.bases then s.bases[s.base].ckpt else s.base
  }

  lemma {:induction false} InstalledIsCurrent(c: Config, s: State, h: seq<Commit>, spec: Spec)
    requires Inv(c, s, h, spec) && LocalIsInstalled(s)
    ensures LocalIsCurrent(s, h)
  {
    hide ObjInv, FilesInv, DataInv, PhaseInv, WindowInv;
    if s.base in s.bases {
      hide Good;
      var m := s.bases[s.base];
      assert Fits(c.db, m, h, s.base);
      forall i | 0 <= i < |h| && !InFile(s, h[i]) && !IsEmpty(h[i]) ensures CkptLe(h[i].ckpt, m.ckpt) {
        UptoSplits(h, s.base, i);
        UptoSplits(h, m.ckpt, i);
      }
    }
  }

  lemma {:induction false} RestartManifests(c: Config, s: State, h: seq<Commit>, pid: nat)
    requires ManInv(c, s, h) && s.phase.Idle? && Chain(h)
    ensures ManInv(c, Restart(c, s, pid), h)
  {
    hide Covers, Fits, NewestOf, SortedSids, Chain;
    if s.local.ckpt != GENESIS {
      var i :| 0 <= i < |h| && h[i].ckpt == s.local.ckpt && !IsEmpty(h[i]);
      HeadIsHighest(h, i);
    }
  }

  lemma {:induction false} RestartPhase(c: Config, s: State, h: seq<Commit>, pid: nat)
    requires ManInv(c, s, h) && PhaseInv(c, s, h) && s.phase.Idle?
    ensures PhaseInv(c, Restart(c, s, pid), h)
  {
    hide Good, Fits, NewestOf, SortedSids;
    SidMonotone(s.local.ckpt, s.base);
  }

  lemma {:induction false} RestartFiles(c: Config, s: State, h: seq<Commit>, pid: nat)
    requires FilesInv(s, h) && LocalIsCurrent(s, h)
    ensures SegInv(Restart(c, s, pid), h)
  {
    hide NewestOf, SortedSids;
  }

  /** After a clean restart on a current local file, every layer agrees with the history again. */
  lemma {:induction false} RestartKeeps(c: Config, s: State, h: seq<Commit>, spec: Spec, pid: nat)
    requires Inv(c, s, h, spec) && s.phase.Idle? && DraftIsEmpty(s) && LocalIsCurrent(s, h)
    ensures Inv(c, Restart(c, s, pid), h, spec)
  {
    hide ObjInv, FilesInv, ManInv, PhaseInv, DataInv, WindowInv, NewestOf, SortedSids, Chain, LocalIsCurrent, SegInv;
    var s1 := Restart(c, s, pid);
    FilesOfSeg(s, h);
    HydratedWindow(c, s, h, pid);
    SameObjects(c, s, s1, h);
    SameData(c, s, s1, h, spec);
    RestartManifests(c, s, h, pid);
    RestartPhase(c, s, h, pid);
    RestartFiles(c, s, h, pid);
  }

  lemma FilesOfSeg(s: State, h: seq<Commit>)
    requires SegInv(s, h)
    ensures FilesInv(s, h)
  {
  }

  // ── Exactly which answers survive ──

  /** A version survives the restart if its file exists or the local file's header reaches it. */
  predicate Survives(s: State, k: Commit) {
    InFile(s, k) || CkptLe(k.ckpt, s.local.ckpt)
  }

  /** The bytes the local file refers to, current or not. */
  function LocalChunk(s: State, t: ChunkTag): Option<Chunk> {
    if t !in s.local.chunks then
      None
    else
      var r := s.local.chunks[t];
      var key := ChunkKey(r.db, Checkpoint(r.tl, r.lsn), t);
      if key in s.objs then Some(s.objs[key]) else None
  }

  /**
   * For a chunk whose fork has been live since its last write, the restarted store
   * reads the last bytes if and only if that version survives, or the local file
   * refers to another one with the same bytes. Otherwise it reads what the local file
   * refers to, if anything.
   */
  lemma {:induction false} RestartKeepsChunkIff(c: Config, s: State, h: seq<Commit>, spec: Spec, pid: nat, t: ChunkTag)
    requires Inv(c, s, h, spec) && s.phase.Idle? && DraftIsEmpty(s)
    requires LastIdx(h, t) >= 0 && LiveSince(h, LastIdx(h, t), t.rf)
    ensures t in spec.chunks
    ensures GetChunk(c, Restart(c, s, pid), pid, t)
            == if Survives(s, h[LastIdx(h, t)]) then Some(spec.chunks[t]) else LocalChunk(s, t)
    ensures GetChunk(c, Restart(c, s, pid), pid, t) == Some(spec.chunks[t])
            <==> Survives(s, h[LastIdx(h, t)]) || LocalChunk(s, t) == Some(spec.chunks[t])
  {
    hide ObjInv, FilesInv, NothingLost, ManInv, PhaseInv, WindowInv, NewestOf, SortedSids, Chain, LockedFind, BaseFind, Survives, LiveSince;
    RestartFindsIff(c, s, h, spec, pid, t);
    if !Survives(s, h[LastIdx(h, t)]) {
      LostIsLocal(c, s, h, spec, pid, t);
    }
  }

  /** The restarted store finds the object of the last version exactly if that version survives. */
  lemma {:induction false} RestartFindsIff(c: Config, s: State, h: seq<Commit>, spec: Spec, pid: nat, t: ChunkTag)
    requires Inv(c, s, h, spec) && s.phase.Idle? && DraftIsEmpty(s)
    requires LastIdx(h, t) >= 0 && LiveSince(h, LastIdx(h, t), t.rf)
    ensures Find(c, Restart(c, s, pid), pid, t) == Latest(c, s, h, t) <==> Survives(s, h[LastIdx(h, t)])
    ensures !Survives(s, h[LastIdx(h, t)]) ==> LockedFind(c, Restart(c, s, pid), t).None?
  {
    hide ObjInv, FilesInv, NothingLost, ManInv, PhaseInv, DataInv, WindowInv, NewestOf, SortedSids, Chain, LockedFind, BaseFind;
    var s1, w := Restart(c, s, pid), LastIdx(h, t);
    HydratedWindow(c, s, h, pid);
    SameObjects(c, s, s1, h);
    RestartedFiles(c, s, h, pid);
    RestartedWindow(c, s1, h);
    LockedFindGives(c, s1, h, t);
    RestartManifests(c, s, h, pid);
    RestartedBase(c, s1, h, pid, t);
    assert w >= |h| - |s1.window| ==> InFile(s1, h[w]);
  }

  lemma {:induction false} LostIsLocal(c: Config, s: State, h: seq<Commit>, spec: Spec, pid: nat, t: ChunkTag)
    requires Inv(c, s, h, spec) && LockedFind(c, Restart(c, s, pid), t).None?
    ensures GetChunk(c, Restart(c, s, pid), pid, t) == LocalChunk(s, t)
  {
    hide Inv, LockedFind, NewestOf, SortedSids;
  }

  /**
   * The restarted store reads the last metadata put for a fork if and only if the commit
   * that put it survives, or the local file has the same metadata from an older one.
   */
  lemma {:induction false} RestartKeepsMetaIff(c: Config, s: State, h: seq<Commit>, spec: Spec, pid: nat, rf: RelFork)
    requires Inv(c, s, h, spec) && s.phase.Idle? && DraftIsEmpty(s) && LastMeta(h, rf) >= 0
    ensures rf in spec.metas
    ensures GetMeta(c, Restart(c, s, pid), pid, rf)
            == if Survives(s, h[LastMeta(h, rf)]) then Some(spec.metas[rf])
               else if rf in s.local.meta then Some(s.local.meta[rf]) else None
    ensures GetMeta(c, Restart(c, s, pid), pid, rf) == Some(spec.metas[rf])
            <==> Survives(s, h[LastMeta(h, rf)]) || (rf in s.local.meta && s.local.meta[rf] == spec.metas[rf])
  {
    hide ObjInv, FilesInv, NothingLost, ManInv, PhaseInv, WindowInv, NewestOf, SortedSids, Chain, LockedMeta;
    var s1, w := Restart(c, s, pid), LastMeta(h, rf);
    MetaFoldIsLast(h, rf);
    HydratedWindow(c, s, h, pid);
    RestartedFiles(c, s, h, pid);
    RestartedWindow(c, s1, h);
    LockedMetaGives(c, s1, h, rf);
    assert w >= |h| - |s1.window| ==> InFile(s1, h[w]);
    if CkptLe(h[w].ckpt, s.local.ckpt) {
      LocalMetaIs(c, s, h, rf);
    }
  }

  /** The local file has the last metadata of a fork if its header reaches the commit that put it. */
  lemma {:induction false} LocalMetaIs(c: Config, s: State, h: seq<Commit>, rf: RelFork)
    requires ManInv(c, s, h) && Chain(h) && LastMeta(h, rf) >= 0 && CkptLe(h[LastMeta(h, rf)].ckpt, s.local.ckpt)
    ensures rf in s.local.meta && s.local.meta[rf] == h[LastMeta(h, rf)].relforks[rf]
  {
    var w, n := LastMeta(h, rf), Upto(h, s.local.ckpt);
    UptoSplits(h, s.local.ckpt, w);
    LastMetaPrefix(h, rf, n);
    MetaFoldIsLast(Below(h, s.local.ckpt), rf);
  }

  lemma RestartedFiles(c: Config, s: State, h: seq<Commit>, pid: nat)
    requires FilesInv(s, h)
    ensures FilesInv(Restart(c, s, pid), h)
  {
    hide NewestOf, SortedSids;
  }

  lemma RestartedWindow(c: Config, s1: State, h: seq<Commit>)
    requires WindowInv(c, s1, h)
    ensures ListsNewest(s1.window, h) && (h != [] ==> s1.window != [])
  {
    hide ListsNewest;
  }

  /** The restarted base answers with version `w` exactly if its header reaches it. */
  lemma {:induction false} RestartedBase(c: Config, s1: State, h: seq<Commit>, pid: nat, t: ChunkTag)
    requires Chain(h) && ManInv(c, s1, h) && s1.head == HeadOf(h) && ObjInv(c, s1, h)
    requires s1.caches == map[pid := s1.local] && s1.base == s1.local.ckpt && s1.draft.Chunks() == {}
    requires LastIdx(h, t) >= 0 && LiveSince(h, LastIdx(h, t), t.rf)
    ensures BaseFind(s1, pid, t) == Latest(c, s1, h, t) <==> CkptLe(h[LastIdx(h, t)].ckpt, s1.base)
  {
    hide ManInv, Upto, MetaFold;
    var w, n := LastIdx(h, t), Upto(h, s1.base);
    BaseManifestCovers(c, s1, h, pid);
    UptoSplits(h, s1.base, w);
    LastIdxPrefix(h, t, n);
    KeyExists(c, s1, h, w, t);
    var m, p := s1.local, Below(h, s1.base);
    if w < n {
      LiveSincePrefix(h, n, w, t.rf);
    } else if t in m.chunks {
      var q := LastIdx(p, t);
      ChainOrder(h, q, w);
    }
  }
}
