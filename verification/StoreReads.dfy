/** The layered read finds the newest version of a chunk and of a fork's metadata. */
module StoreReads {
  import opened Types
  import opened WindowSpec
  import opened ManifestSpec
  import opened History
  import opened StoreModel
  import opened StoreInv

  // ── Objects of one commit ──

  /** The object of a commit exists exactly when the commit holds the chunk. */
  lemma KeyExists(c: Config, s: State, h: seq<Commit>, i: nat, t: ChunkTag)
    requires Chain(h) && s.head == HeadOf(h) && ObjInv(c, s, h) && i < |h|
    ensures KeyOf(c, h[i].prev, t) in s.objs <==> t in h[i].chunks
  {
    HeadIsHighest(h, i);
    var k := KeyOf(c, h[i].prev, t);
    if k in s.objs {
      assert WrittenAt(h, k.ckpt, k.tag);
      var j :| 0 <= j < |h| && h[j].prev == k.ckpt && t in h[j].chunks;
      if j < i { ChainOrder(h, j, i); } else if i < j { ChainOrder(h, i, j); }
    }
    if t in h[i].chunks {
      assert WrittenAt(h, k.ckpt, k.tag);
    }
  }

  lemma HeadKeyExists(c: Config, s: State, h: seq<Commit>, t: ChunkTag)
    requires Chain(h) && s.head == HeadOf(h) && ObjInv(c, s, h)
    ensures KeyOf(c, s.head, t) in s.objs <==> t in s.draft.Chunks()
  {
    var k := KeyOf(c, s.head, t);
    if WrittenAt(h, k.ckpt, k.tag) {
      var j :| 0 <= j < |h| && h[j].prev == k.ckpt && t in h[j].chunks;
      HeadIsHighest(h, j);
    }
  }

  // ── Window walk ──

  lemma {:induction false} WindowFindIs(c: Config, s: State, h: seq<Commit>, t: ChunkTag, i: nat)
    requires c.Sound() && Chain(h) && s.head == HeadOf(h) && ObjInv(c, s, h) && ListsNewest(s.window, h)
    requires i <= |s.window| && LastIdx(h, t) < |h| - i
    ensures WindowFind(c, s, t, i) ==
            if LastIdx(h, t) >= |h| - |s.window| then Some(KeyOf(c, h[LastIdx(h, t)].prev, t)) else None
    decreases |s.window| - i
  {
    if i < |s.window| {
      var n := |h| - 1 - i;
      assert s.window[i] == h[n];
      KeyExists(c, s, h, n, t);
      if LastIdx(h, t) != n {
        WindowFindIs(c, s, h, t, i + 1);
      } else {
        assert c.maybe(h[n], t);
      }
    }
  }

  // ── Segment scan ──

  /** `k` is the newest hit of `ks`. */
  ghost predicate IsNewest(ks: seq<Commit>, k: Commit, hit: Commit -> bool) {
    k in ks && hit(k) && forall x {:trigger x in ks} :: x in ks && hit(x) ==> CkptLe(x.ckpt, k.ckpt)
  }

  ghost predicate NoHit(ks: seq<Commit>, hit: Commit -> bool) {
    forall x {:trigger x in ks} :: x in ks ==> !hit(x)
  }

  lemma {:induction false} SegmentScanIs(seg: seq<Commit>, n: nat, hit: Commit -> bool)
    requires n <= |seg| && AscendingCkpts(seg)
    ensures match SegmentScan(seg, n, hit)
            case Some(k) => IsNewest(seg[..n], k, hit)
            case None => NoHit(seg[..n], hit)
    decreases n
  {
    if n > 0 {
      SegmentScanIs(seg, n - 1, hit);
      assert seg[..n] == seg[..n - 1] + [seg[n - 1]];
    }
  }

  /** All commits in the first `n` listed files. */
  ghost function Contents(s: State, ids: seq<SegmentId>, n: nat): seq<Commit>
    requires n <= |ids| && forall i :: 0 <= i < |ids| ==> ids[i] in s.segs
  {
    if n == 0 then [] else Contents(s, ids, n - 1) + s.segs[ids[n - 1]]
  }

  lemma {:induction false} ContentsHolds(s: State, ids: seq<SegmentId>, n: nat, k: Commit)
    requires n <= |ids| && forall i :: 0 <= i < |ids| ==> ids[i] in s.segs
    ensures k in Contents(s, ids, n) <==> exists i :: 0 <= i < n && k in s.segs[ids[i]]
    decreases n
  {
    if n > 0 {
      ContentsHolds(s, ids, n - 1, k);
    }
  }

  ghost predicate FilesOk(s: State) {
    forall sid {:trigger sid in s.segs} :: sid in s.segs ==>
      AscendingCkpts(s.segs[sid]) && forall k :: k in s.segs[sid] ==> SidOf(k.ckpt) == sid
  }

  lemma FilesAreOk(s: State, h: seq<Commit>)
    requires Chain(h) && FilesInv(s, h)
    ensures FilesOk(s)
  {
    forall sid | sid in s.segs
      ensures AscendingCkpts(s.segs[sid]) && forall k :: k in s.segs[sid] ==> SidOf(k.ckpt) == sid
    {
      BucketAscends(h, sid);
      forall k | k in s.segs[sid] ensures SidOf(k.ckpt) == sid {
        BucketHolds(h, sid, k);
      }
    }
  }

  /** Every commit of an earlier listed file is older than every commit of a later one. */
  lemma EarlierFileIsOlder(s: State, ids: seq<SegmentId>, n: nat, x: Commit, k: Commit)
    requires Increasing(ids) && FilesOk(s) && n < |ids| && forall i :: 0 <= i < |ids| ==> ids[i] in s.segs
    requires x in Contents(s, ids, n) && k in s.segs[ids[n]]
    ensures CkptLess(x.ckpt, k.ckpt)
  {
    ContentsHolds(s, ids, n, x);
    var i :| 0 <= i < n && x in s.segs[ids[i]];
    assert SidLess(ids[i], ids[n]);
    SidOrder(x.ckpt, k.ckpt);
  }

  lemma {:induction false} SegmentsScanIs(s: State, ids: seq<SegmentId>, n: nat, hit: Commit -> bool)
    requires Increasing(ids) && FilesOk(s) && n <= |ids| && forall i :: 0 <= i < |ids| ==> ids[i] in s.segs
    ensures match SegmentsScan(s.segs, ids, n, hit)
            case Some(k) => IsNewest(Contents(s, ids, n), k, hit)
            case None => NoHit(Contents(s, ids, n), hit)
    decreases n
  {
    if n > 0 {
      var seg, all := s.segs[ids[n - 1]], Contents(s, ids, n);
      SegmentScanIs(seg, |seg|, hit);
      assert seg[..|seg|] == seg;
      match SegmentScan(seg, |seg|, hit)
      case Some(k) =>
        forall x | x in Contents(s, ids, n - 1) ensures CkptLe(x.ckpt, k.ckpt) {
          EarlierFileIsOlder(s, ids, n - 1, x, k);
        }
      case None =>
        SegmentsScanIs(s, ids, n - 1, hit);
    }
  }

  /** A commit in range whose file exists is in the listed files, and only commits are. */
  lemma ListedContents(s: State, h: seq<Commit>, low: Checkpoint, high: Checkpoint, k: Commit)
    requires Chain(h) && FilesInv(s, h)
    ensures var ids := Listing(s.segs, low, high);
            && (k in Contents(s, ids, |ids|) ==> k in h && InFile(s, k))
            && (k in h && InFile(s, k) && CkptLe(low, k.ckpt) && CkptLe(k.ckpt, high) ==> k in Contents(s, ids, |ids|))
  {
    var ids := Listing(s.segs, low, high);
    ContentsHolds(s, ids, |ids|, k);
    if k in Contents(s, ids, |ids|) {
      var i :| 0 <= i < |ids| && k in s.segs[ids[i]];
      assert ids[i] in ids;
      BucketHolds(h, ids[i], k);
    }
    if k in h && InFile(s, k) && CkptLe(low, k.ckpt) && CkptLe(k.ckpt, high) {
      OverlapsCovers(k.ckpt, low, high);
      var sid := SidOf(k.ckpt);
      assert sid in ids;
      var i :| 0 <= i < |ids| && ids[i] == sid;
      BucketHolds(h, sid, k);
    }
  }

  /**
   * A scan whose hits all lie in `[low, high]` returns the newest hit of the whole
   * history among commits that are still in files, if there is one.
   */
  lemma {:induction false} ScanIs(s: State, h: seq<Commit>, low: Checkpoint, high: Checkpoint, hit: Commit -> bool)
    requires Chain(h) && FilesInv(s, h)
    requires forall k :: hit(k) ==> CkptLe(low, k.ckpt) && CkptLe(k.ckpt, high)
    ensures var ids := Listing(s.segs, low, high);
            match SegmentsScan(s.segs, ids, |ids|, hit)
            case Some(k) => hit(k) && InFile(s, k) && exists i :: 0 <= i < |h| && h[i] == k && forall j :: i < j < |h| ==> !hit(h[j])
            case None => forall i :: 0 <= i < |h| && InFile(s, h[i]) ==> !hit(h[i])
  {
    hide Chain, SegmentsScan, FilesOk, Contents;
    var ids := Listing(s.segs, low, high);
    FilesAreOk(s, h);
    SegmentsScanIs(s, ids, |ids|, hit);
    var all := Contents(s, ids, |ids|);
    forall i | 0 <= i < |h| && InFile(s, h[i]) && hit(h[i]) ensures h[i] in all {
      ListedContents(s, h, low, high, h[i]);
    }
    match SegmentsScan(s.segs, ids, |ids|, hit)
    case None =>
    case Some(k) =>
      ListedContents(s, h, low, high, k);
      var i :| 0 <= i < |h| && h[i] == k;
      forall j | i < j < |h| ensures !hit(h[j]) {
        ChainOrder(h, i, j);
      }
  }

  /**
   * The chunk scan over `[low, top)` finds version `w`, when the commits from `top`
   * on do not hold the chunk and `w` is in a file at or above `low`.
   */
  lemma {:induction false} ChunkScanIs(c: Config, s: State, h: seq<Commit>, t: ChunkTag, low: Checkpoint, top: Checkpoint)
    requires Chain(h) && FilesInv(s, h) && s.head == HeadOf(h) && ObjInv(c, s, h)
    requires LastIdx(h, t) >= 0 ==> CkptLess(h[LastIdx(h, t)].ckpt, top)
    ensures var ids, w := Listing(s.segs, low, top), LastIdx(h, t);
            var r := SegmentsScan(s.segs, ids, |ids|, ChunkHit(c, s.objs, t, low, top));
            && (r.Some? ==> w >= 0 && r.value == h[w] && InFile(s, h[w]))
            && (w >= 0 && CkptLe(low, h[w].ckpt) && InFile(s, h[w]) ==> r.Some?)
  {
    hide FilesInv, Chain, SegmentsScan, LastIdx, ObjInv;
    var hit, w := ChunkHit(c, s.objs, t, low, top), LastIdx(h, t);
    ScanIs(s, h, low, top, hit);
    if w >= 0 {
      KeyExists(c, s, h, w, t);
    }
    var ids := Listing(s.segs, low, top);
    var r := SegmentsScan(s.segs, ids, |ids|, hit);
    if r.Some? {
      var i :| 0 <= i < |h| && h[i] == r.value && forall j :: i < j < |h| ==> !hit(h[j]);
      if i < w {
        ChainOrder(h, i, w);
      }
    }
  }

  // ── The whole read of a chunk ──

  /** With the chunk not in the window, the scan finds its version or leaves it to the base. */
  lemma {:induction false} BelowWindowIs(c: Config, s: State, h: seq<Commit>, t: ChunkTag)
    requires Chain(h) && s.head == HeadOf(h) && ObjInv(c, s, h) && FilesInv(s, h) && ListsNewest(s.window, h) && (h != [] ==> s.window != [])
    requires LastIdx(h, t) < |h| - |s.window|
    ensures var top, w := ScanTop(s, |s.window|), LastIdx(h, t);
            var ids := Listing(s.segs, s.base, top);
            var r := SegmentsScan(s.segs, ids, |ids|, ChunkHit(c, s.objs, t, s.base, top));
            && (!CkptLe(top, s.base) && r.Some? ==> w >= 0 && r.value == h[w] && InFile(s, h[w]))
            && (CkptLe(top, s.base) || r.None? ==> w < 0 || CkptLe(h[w].ckpt, s.base) || !InFile(s, h[w]))
  {
    hide ObjInv, FilesInv, SegmentsScan, LastIdx, Chain;
    var top, w := ScanTop(s, |s.window|), LastIdx(h, t);
    if w >= 0 {
      var n := |h| - |s.window|;
      assert s.window[|s.window| - 1] == h[n];
      ChainOrder(h, w, n);
    }
    ChunkScanIs(c, s, h, t, s.base, top);
  }

  /**
   * Whatever files are left: under the lock, a read finds the newest version, or
   * leaves one that is at or below the base or whose file is gone.
   */
  lemma {:induction false} LockedFindGives(c: Config, s: State, h: seq<Commit>, t: ChunkTag)
    requires c.Sound() && Chain(h) && s.head == HeadOf(h) && ObjInv(c, s, h) && s.draft.WellFormed()
    requires FilesInv(s, h) && ListsNewest(s.window, h) && (h != [] ==> s.window != [])
    ensures var r, w := LockedFind(c, s, t), LastIdx(h, t);
            if r.Some? then
              r == Latest(c, s, h, t)
              && (t in s.draft.Chunks() || InFile(s, h[w]) || w >= |h| - |s.window|)
            else
              t !in s.draft.Chunks() && (w < 0 || CkptLe(h[w].ckpt, s.base) || !InFile(s, h[w]))
  {
    hide ObjInv, FilesInv, SegmentsScan, WindowFind, LastIdx, Chain;
    HeadKeyExists(c, s, h, t);
    if t in s.draft.Chunks() {
      assert s.draft.MaybeChunk(t);
    } else {
      WindowFindIs(c, s, h, t, 0);
      if LastIdx(h, t) < |h| - |s.window| {
        BelowWindowIs(c, s, h, t);
      }
    }
  }

  /** Under the lock, a read finds the newest version, or leaves one that is in the base. */
  lemma {:induction false} LockedFindIs(c: Config, s: State, h: seq<Commit>, spec: Spec, t: ChunkTag)
    requires Inv(c, s, h, spec)
    ensures var r := LockedFind(c, s, t);
            if r.Some? then r == Latest(c, s, h, t)
            else t !in s.draft.Chunks() && LastIdx(h, t) < Upto(h, s.base)
  {
    hide ObjInv, FilesInv, ManInv, PhaseInv, DataInv, LockedFind, ListsNewest, Chain;
    LockedFindGives(c, s, h, t);
    var w := LastIdx(h, t);
    if w >= 0 {
      assert t in h[w].chunks && !IsEmpty(h[w]);
      UptoSplits(h, s.base, w);
    }
  }

  /** Whichever way a process gets it, its base manifest represents the commits up to the base. */
  lemma BaseManifestCovers(c: Config, s: State, h: seq<Commit>, pid: nat)
    requires Chain(h) && ManInv(c, s, h) && pid in s.caches && Loadable(s, pid)
    ensures Covers(c.db, BaseManifest(s, pid), Below(h, s.base))
    ensures Fits(c.db, BaseManifest(s, pid), h, s.base)
  {
    var m := BaseManifest(s, pid);
    if s.base == GENESIS {
      GenesisFits(c, s, h, m, pid);
    } else if m.ckpt != s.base {
      assert m == s.bases[s.base];
      UptoMonotone(h, m.ckpt, s.base);
      CoversEmpty(c.db, m, h, Upto(h, m.ckpt), Upto(h, s.base));
    }
  }

  lemma GenesisFits(c: Config, s: State, h: seq<Commit>, m: Manifest, pid: nat)
    requires Chain(h) && ManInv(c, s, h) && pid in s.caches && Loadable(s, pid) && s.base == GENESIS && m == BaseManifest(s, pid)
    ensures Covers(c.db, m, Below(h, GENESIS)) && Fits(c.db, m, h, GENESIS)
  {
    hide Covers, RedoOk, Chain, Upto, Fits;
    NothingAtGenesis(h);
    EmptyCovers(c.db);
    assert Below(h, GENESIS) == [];
    if m == EMPTY {
      EmptyRedo(h);
    }
    AtGenesis(c.db, m, h);
  }

  lemma EmptyRedo(h: seq<Commit>)
    requires Upto(h, GENESIS) == 0
    ensures RedoOk(EMPTY, h, GENESIS)
  {
    assert EMPTY.redo == RedoAt(h, 0);
  }

  lemma AtGenesis(db: U64, m: Manifest, h: seq<Commit>)
    requires m.ckpt == GENESIS && Covers(db, m, Below(h, GENESIS)) && RedoOk(m, h, GENESIS) && Chain(h)
    ensures Fits(db, m, h, GENESIS)
  {
    hide Covers, RedoOk, Upto;
    if h != [] {
      HeadIsHighest(h, 0);
    }
  }

  lemma NothingAtGenesis(h: seq<Commit>)
    requires Chain(h)
    ensures Upto(h, GENESIS) == 0
  {
    if h != [] {
      HeadIsHighest(h, 0);
      UptoIs(h, GENESIS, 0);
    }
  }

  /** The base manifest answers for a version at or below the base, unless its fork was deleted since. */
  lemma BaseFindIs(c: Config, s: State, h: seq<Commit>, spec: Spec, pid: nat, t: ChunkTag)
    requires Inv(c, s, h, spec) && pid in s.caches
    requires t !in s.draft.Chunks() && LastIdx(h, t) < Upto(h, s.base)
    ensures BaseFind(s, pid, t).Some? ==> BaseFind(s, pid, t) == Latest(c, s, h, t)
    ensures Loadable(s, pid) && LastIdx(h, t) >= 0 && LiveSince(Below(h, s.base), LastIdx(h, t), t.rf) ==> BaseFind(s, pid, t) == Latest(c, s, h, t)
    ensures LastIdx(h, t) < 0 ==> BaseFind(s, pid, t).None?
  {
    if Loadable(s, pid) {
      var m, p, w := BaseManifest(s, pid), Below(h, s.base), LastIdx(h, t);
      BaseManifestCovers(c, s, h, pid);
      LastIdxPrefix(h, t, Upto(h, s.base));
      if t in m.chunks {
        assert w >= 0 && p[w] == h[w] && m.chunks[t] == RefOf(c.db, h[w]);
        KeyExists(c, s, h, w, t);
        assert Checkpoint(m.chunks[t].tl, m.chunks[t].lsn) == h[w].prev;
      }
    }
  }

  /**
   * `get_chunk` in any process returns the last bytes written to the chunk or
   * not-found; and the bytes, if the chunk was written, its fork was live at every
   * commit from that write to the base, and the base manifest can be loaded.
   */
  lemma ReadChunkIsLastWrite(c: Config, s: State, h: seq<Commit>, spec: Spec, pid: nat, t: ChunkTag)
    requires Inv(c, s, h, spec) && pid in s.caches
    ensures GetChunk(c, s, pid, t).Some? ==> t in spec.chunks && GetChunk(c, s, pid, t).value == spec.chunks[t]
    ensures t in spec.chunks && Loadable(s, pid) && (t in s.draft.Chunks() || LiveSince(Below(h, s.base), LastIdx(h, t), t.rf)) ==>
              GetChunk(c, s, pid, t) == Some(spec.chunks[t])
  {
    hide SegInv, WindowInv, ManInv, PhaseInv, Chain, LockedFind, BaseFind, Loadable;
    LockedFindIs(c, s, h, spec, t);
    if LockedFind(c, s, t).None? {
      BaseFindIs(c, s, h, spec, pid, t);
    }
  }

  // ── Metadata ──

  function LastMeta(h: seq<Commit>, rf: RelFork): (r: int)
    ensures -1 <= r < |h|
    ensures r >= 0 ==> rf in h[r].relforks
    ensures forall i :: r < i < |h| ==> rf !in h[i].relforks
  {
    if h == [] then
      -1
    else if rf in h[|h| - 1].relforks then
      |h| - 1
    else
      var r := LastMeta(h[..|h| - 1], rf);
      assert forall i :: r < i < |h| - 1 ==> h[..|h| - 1][i] == h[i];
      r
  }

  lemma {:induction false} MetaFoldIsLast(h: seq<Commit>, rf: RelFork)
    ensures rf in MetaFold(h) <==> LastMeta(h, rf) >= 0
    ensures rf in MetaFold(h) ==> MetaFold(h)[rf] == h[LastMeta(h, rf)].relforks[rf]
    decreases |h|
  {
    if h != [] {
      MetaFoldIsLast(h[..|h| - 1], rf);
    }
  }

  lemma LastMetaPrefix(h: seq<Commit>, rf: RelFork, k: nat)
    requires k <= |h| && LastMeta(h, rf) < k
    ensures LastMeta(h[..k], rf) == LastMeta(h, rf)
  {
    var a, b := LastMeta(h, rf), LastMeta(h[..k], rf);
    assert b >= 0 ==> rf in h[b].relforks;
    assert a >= 0 ==> rf in h[..k][a].relforks;
  }

  /**
   * The index walk answers with the newest metadata, or stops after entry `n - 1`
   * with the newest metadata no newer than that entry.
   */
  lemma {:induction false} WindowAskIs(c: Config, h: seq<Commit>, w: seq<Commit>, rf: RelFork, i: nat)
    requires c.Sound() && ListsNewest(w, h) && i <= |w| && LastMeta(h, rf) < |h| - i
    ensures match WindowAsk(c, w, rf, i)
            case Answered(meta) => LastMeta(h, rf) >= 0 && LastMeta(h, rf) >= |h| - |w| && h[LastMeta(h, rf)].relforks[rf] == meta
            case Stopped(n) => LastMeta(h, rf) <= |h| - n && (n == 0 ==> w == [])
    decreases |w| - i
  {
    if i < |w| {
      assert w[i] == h[|h| - 1 - i];
      if c.ask(w[i], rf) == DefinitiveMiss {
        WindowAskIs(c, h, w, rf, i + 1);
      }
    }
  }

  lemma {:induction false} MetaScanIs(s: State, h: seq<Commit>, rf: RelFork, low: Checkpoint, top: Checkpoint)
    requires Chain(h) && FilesInv(s, h)
    requires LastMeta(h, rf) >= 0 ==> CkptLe(h[LastMeta(h, rf)].ckpt, top)
    ensures var ids, w := Listing(s.segs, low, top), LastMeta(h, rf);
            var r := SegmentsScan(s.segs, ids, |ids|, MetaHit(rf, low, top));
            && (r.Some? ==> w >= 0 && r.value == h[w] && InFile(s, h[w]))
            && (w >= 0 && CkptLe(low, h[w].ckpt) && InFile(s, h[w]) ==> r.Some?)
  {
    hide FilesInv, Chain, SegmentsScan, LastMeta;
    var hit, w := MetaHit(rf, low, top), LastMeta(h, rf);
    ScanIs(s, h, low, top, hit);
    var ids := Listing(s.segs, low, top);
    var r := SegmentsScan(s.segs, ids, |ids|, hit);
    if r.Some? {
      var i :| 0 <= i < |h| && h[i] == r.value && forall j :: i < j < |h| ==> !hit(h[j]);
      if i < w {
        ChainOrder(h, i, w);
      }
    }
  }

  /** Where the walk stopped, the scan finds the newest metadata, or that is below the base or in no file. */
  lemma {:induction false} StoppedMetaIs(s: State, h: seq<Commit>, rf: RelFork, n: nat)
    requires Chain(h) && FilesInv(s, h) && ListsNewest(s.window, h)
    requires n <= |s.window| && LastMeta(h, rf) <= |h| - n && (n == 0 ==> LastMeta(h, rf) < 0)
    ensures var top, w := ScanTop(s, n), LastMeta(h, rf);
            var ids := Listing(s.segs, s.base, top);
            var r := SegmentsScan(s.segs, ids, |ids|, MetaHit(rf, s.base, top));
            && (!CkptLess(top, s.base) && r.Some? ==> w >= 0 && r.value == h[w] && InFile(s, h[w]))
            && (CkptLess(top, s.base) || r.None? ==> w < 0 || CkptLess(h[w].ckpt, s.base) || !InFile(s, h[w]))
  {
    hide FilesInv, SegmentsScan, Chain;
    var top, w := ScanTop(s, n), LastMeta(h, rf);
    if w >= 0 {
      assert s.window[n - 1] == h[|h| - n];
      if w < |h| - n { ChainOrder(h, w, |h| - n); }
    }
    MetaScanIs(s, h, rf, s.base, top);
  }

  /**
   * Whatever files are left: under the lock, a read finds the newest metadata, or
   * leaves one that is below the base or whose file is gone.
   */
  lemma {:induction false} LockedMetaGives(c: Config, s: State, h: seq<Commit>, rf: RelFork)
    requires c.Sound() && Chain(h) && s.draft.WellFormed()
    requires FilesInv(s, h) && ListsNewest(s.window, h) && (h != [] ==> s.window != [])
    ensures var r, w, d := LockedMeta(c, s, rf), LastMeta(h, rf), s.draft.Relforks();
            if rf in d then r == Some(d[rf])
            else if r.Some? then w >= 0 && r.value == h[w].relforks[rf] && (InFile(s, h[w]) || w >= |h| - |s.window|)
            else w < 0 || CkptLess(h[w].ckpt, s.base) || !InFile(s, h[w])
  {
    hide FilesInv, SegmentsScan, Chain, ListsNewest;
    if s.draft.GetRelfork(rf).None? {
      WindowAskIs(c, h, s.window, rf, 0);
      match WindowAsk(c, s.window, rf, 0)
      case Answered(meta) =>
      case Stopped(n) => StoppedMetaIs(s, h, rf, n);
    }
  }

  lemma {:induction false} LockedMetaIs(c: Config, s: State, h: seq<Commit>, spec: Spec, rf: RelFork)
    requires Inv(c, s, h, spec)
    ensures var r := LockedMeta(c, s, rf);
            if r.Some? then rf in spec.metas && spec.metas[rf] == r.value
            else rf !in s.draft.Relforks() && LastMeta(h, rf) < Upto(h, s.base)
  {
    hide FilesInv, ObjInv, ManInv, PhaseInv, LockedMeta, Chain, ListsNewest;
    MetaFoldIsLast(h, rf);
    LockedMetaGives(c, s, h, rf);
    var w := LastMeta(h, rf);
    if w >= 0 {
      assert !IsEmpty(h[w]);
      UptoSplits(h, s.base, w);
    }
  }

  /** `get_meta` in any process that can load the base returns exactly the last metadata put. */
  lemma {:induction false} ReadMetaIsLastPut(c: Config, s: State, h: seq<Commit>, spec: Spec, pid: nat, rf: RelFork)
    requires Inv(c, s, h, spec) && pid in s.caches && Loadable(s, pid)
    ensures GetMeta(c, s, pid, rf) == if rf in spec.metas then Some(spec.metas[rf]) else None
  {
    LockedMetaIs(c, s, h, spec, rf);
    if LockedMeta(c, s, rf).None? {
      MetaFoldIsLast(h, rf);
      var p := Below(h, s.base);
      BaseManifestCovers(c, s, h, pid);
      LastMetaPrefix(h, rf, Upto(h, s.base));
      MetaFoldIsLast(p, rf);
    }
  }
}
