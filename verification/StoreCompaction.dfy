/** Every phase of a compaction keeps the invariant, with commits and reads in between. */
module StoreCompaction {
  import opened Types
  import opened WindowSpec
  import opened ManifestSpec
  import opened History
  import opened StoreModel
  import opened StoreInv
  import opened StoreReads
  import opened StoreSteps

  // ── The listed files are a slice of the history ──

  /** Two ascending lists with the same commits are the same list. */
  lemma {:induction false} AscendingUnique(a: seq<Commit>, b: seq<Commit>)
    requires AscendingCkpts(a) && AscendingCkpts(b)
    requires forall k :: k in a <==> k in b
    ensures a == b
    decreases |a|
  {
    if a != [] || b != [] {
      var z := (a + b)[0];
      assert z in a + b;
      assert z in a && z in b;
      var x, y := a[|a| - 1], b[|b| - 1];
      assert x in b && y in a;
      assert x == y;
      var a1, b1 := a[..|a| - 1], b[..|b| - 1];
      forall k ensures k in a1 <==> k in b1 {
        InInit(a, k);
        InInit(b, k);
      }
      AscendingUnique(a1, b1);
      assert a == a1 + [x] && b == b1 + [y];
    }
  }

  lemma {:induction false} InInit(a: seq<Commit>, k: Commit)
    requires AscendingCkpts(a) && a != []
    ensures k in a[..|a| - 1] <==> k in a && k != a[|a| - 1]
  {
    assert a == a[..|a| - 1] + [a[|a| - 1]];
  }

  lemma {:induction false} EligibleHolds(seg: seq<Commit>, through: bool, from: Checkpoint, upper: Checkpoint, k: Commit)
    requires AscendingCkpts(seg)
    ensures AscendingCkpts(EligibleOf(seg, through, from, upper))
    ensures k in EligibleOf(seg, through, from, upper) <==> k in seg && Eligible(k, through, from, upper)
    decreases |seg|
  {
    if seg != [] {
      var last := seg[|seg| - 1];
      var rest := EligibleOf(seg[..|seg| - 1], through, from, upper);
      EligibleHolds(seg[..|seg| - 1], through, from, upper, k);
      forall i | 0 <= i < |rest| ensures CkptLess(rest[i].ckpt, last.ckpt) {
        EligibleHolds(seg[..|seg| - 1], through, from, upper, rest[i]);
        assert rest[i] in seg[..|seg| - 1];
      }
      assert seg == seg[..|seg| - 1] + [last];
    }
  }

  lemma {:induction false} GatherHolds(s: State, ids: seq<SegmentId>, n: nat, through: bool, from: Checkpoint, upper: Checkpoint, k: Commit)
    requires Increasing(ids) && FilesOk(s) && n <= |ids| && forall i :: 0 <= i < |ids| ==> ids[i] in s.segs
    ensures k in Gather(s.segs, ids, n, through, from, upper) <==> k in Contents(s, ids, n) && Eligible(k, through, from, upper)
    decreases n
  {
    if n > 0 {
      GatherHolds(s, ids, n - 1, through, from, upper, k);
      EligibleHolds(s.segs[ids[n - 1]], through, from, upper, k);
    }
  }

  lemma {:induction false} GatherAscends(s: State, ids: seq<SegmentId>, n: nat, through: bool, from: Checkpoint, upper: Checkpoint)
    requires Increasing(ids) && FilesOk(s) && n <= |ids| && forall i :: 0 <= i < |ids| ==> ids[i] in s.segs
    ensures AscendingCkpts(Gather(s.segs, ids, n, through, from, upper))
    decreases n
  {
    if n > 0 {
      GatherAscends(s, ids, n - 1, through, from, upper);
      var g, seg := Gather(s.segs, ids, n - 1, through, from, upper), s.segs[ids[n - 1]];
      var e := EligibleOf(seg, through, from, upper);
      forall i | 0 <= i < |e| ensures e[i] in seg && AscendingCkpts(e) {
        EligibleHolds(seg, through, from, upper, e[i]);
      }
      forall i, j | 0 <= i < |g| && 0 <= j < |e| ensures CkptLess(g[i].ckpt, e[j].ckpt) {
        GatherHolds(s, ids, n - 1, through, from, upper, g[i]);
        EarlierFileIsOlder(s, ids, n - 1, g[i], e[j]);
      }
    }
  }

  ghost predicate IsSlice(h: seq<Commit>, ks: seq<Commit>, i: nat, j: nat) {
    i < j <= |h| && ks == h[i..j]
  }

  lemma {:induction false} SliceAscends(h: seq<Commit>, i: nat, j: nat)
    requires Chain(h) && i <= j <= |h|
    ensures AscendingCkpts(h[i..j])
  {
    forall x, y | 0 <= x < y < j - i ensures CkptLess(h[i..j][x].ckpt, h[i..j][y].ckpt) {
      ChainOrder(h, i + x, i + y);
    }
  }

  /** What `Collect` gathers, by membership. */
  lemma {:induction false} CollectedIs(s: State, h: seq<Commit>, through: bool, from: Checkpoint, upper: Checkpoint, k: Commit)
    requires Chain(h) && FilesInv(s, h)
    ensures var ids := Listing(s.segs, from, upper);
            k in Gather(s.segs, ids, |ids|, through, from, upper)
            <==> k in h && InFile(s, k) && Eligible(k, through, from, upper)
  {
    hide FilesInv, Chain;
    var ids := Listing(s.segs, from, upper);
    FilesAreOk(s, h);
    GatherHolds(s, ids, |ids|, through, from, upper, k);
    ListedContents(s, h, from, upper, k);
  }

  /** The gathered commits are consecutive, and those skipped since the base are empty. */
  lemma {:induction false} CollectContinues(s: State, h: seq<Commit>, through: bool, from: Checkpoint, upper: Checkpoint)
    requires Chain(h) && SegInv(s, h) && from == s.base
    ensures var ids := Listing(s.segs, from, upper);
            var ks := Gather(s.segs, ids, |ids|, through, from, upper);
            ks != [] ==> Continues(h, from, ks) && ks[|ks| - 1] in h && Eligible(ks[|ks| - 1], through, from, upper)
  {
    hide Chain, FilesInv, Gather, Continues, Increasing;
    var ids := Listing(s.segs, from, upper);
    var ks := Gather(s.segs, ids, |ids|, through, from, upper);
    if ks != [] {
      CollectedIs(s, h, through, from, upper, ks[0]);
      CollectedIs(s, h, through, from, upper, ks[|ks| - 1]);
      var i :| 0 <= i < |h| && h[i] == ks[0];
      var l :| 0 <= l < |h| && h[l] == ks[|ks| - 1];
      CollectContinuesAt(s, h, through, from, upper, ks, i, l);
    }
  }

  lemma {:induction false} CollectContinuesAt(s: State, h: seq<Commit>, through: bool, from: Checkpoint, upper: Checkpoint, ks: seq<Commit>, i: nat, l: nat)
    requires Chain(h) && SegInv(s, h) && from == s.base && i < |h| && l < |h|
    requires var ids := Listing(s.segs, from, upper); ks == Gather(s.segs, ids, |ids|, through, from, upper)
    requires ks != [] && h[i] == ks[0] && h[l] == ks[|ks| - 1] && CkptLess(from, h[i].ckpt)
    ensures Continues(h, from, ks)
  {
    hide Chain, FilesInv, NothingLost, Gather;
    var ids := Listing(s.segs, from, upper);
    FilesAreOk(s, h);
    GatherAscends(s, ids, |ids|, through, from, upper);
    CollectedSlice(s, h, through, from, upper, ks, i, l);
    UptoSplits(h, from, i);
    SkippedAreEmpty(s, h, through, from, upper, ks, i);
  }

  lemma {:induction false} IndexOrder(h: seq<Commit>, x: nat, y: nat)
    requires Chain(h) && x < |h| && y < |h|
    ensures CkptLe(h[x].ckpt, h[y].ckpt) <==> x <= y
  {
    if x < y { ChainOrder(h, x, y); } else if y < x { ChainOrder(h, y, x); }
  }

  /** Membership in a slice is a matter of checkpoints. */
  lemma {:induction false} InSlice(h: seq<Commit>, i: nat, l: nat, k: Commit)
    requires Chain(h) && i <= l < |h|
    ensures k in h[i..l + 1] <==> k in h && CkptLe(h[i].ckpt, k.ckpt) && CkptLe(k.ckpt, h[l].ckpt)
  {
    hide Chain;
    var sl := h[i..l + 1];
    if k in sl {
      var x :| 0 <= x < |sl| && sl[x] == k;
      assert h[i + x] == k;
      IndexOrder(h, i, i + x);
      IndexOrder(h, i + x, l);
    }
    if k in h && CkptLe(h[i].ckpt, k.ckpt) && CkptLe(k.ckpt, h[l].ckpt) {
      var x :| 0 <= x < |h| && h[x] == k;
      IndexOrder(h, i, x);
      IndexOrder(h, x, l);
      assert sl[x - i] == k;
    }
  }

  ghost predicate Bounded(ks: seq<Commit>) {
    ks != [] && forall k :: k in ks ==> CkptLe(ks[0].ckpt, k.ckpt) && CkptLe(k.ckpt, ks[|ks| - 1].ckpt)
  }

  lemma AscendingIsBounded(ks: seq<Commit>)
    requires AscendingCkpts(ks) && ks != []
    ensures Bounded(ks)
  {
  }

  lemma {:induction false} CollectedSlice(s: State, h: seq<Commit>, through: bool, from: Checkpoint, upper: Checkpoint, ks: seq<Commit>, i: nat, l: nat)
    requires Chain(h) && FilesInv(s, h) && i < |h| && l < |h|
    requires var ids := Listing(s.segs, from, upper); ks == Gather(s.segs, ids, |ids|, through, from, upper)
    requires ks != [] && AscendingCkpts(ks) && h[i] == ks[0] && h[l] == ks[|ks| - 1]
    ensures i <= l && ks == h[i..l + 1]
  {
    AscendingIsBounded(ks);
    IndexOrder(h, i, l);
    CollectedIs(s, h, through, from, upper, h[i]);
    CollectedIs(s, h, through, from, upper, h[l]);
    forall k ensures k in ks <==> k in h[i..l + 1] {
      CollectedMember(s, h, through, from, upper, ks, i, l, k);
    }
    SliceAscends(h, i, l + 1);
    AscendingUnique(ks, h[i..l + 1]);
  }

  lemma {:induction false} CollectedMember(s: State, h: seq<Commit>, through: bool, from: Checkpoint, upper: Checkpoint, ks: seq<Commit>, i: nat, l: nat, k: Commit)
    requires Chain(h) && FilesInv(s, h) && i <= l < |h|
    requires var ids := Listing(s.segs, from, upper); ks == Gather(s.segs, ids, |ids|, through, from, upper)
    requires Bounded(ks) && h[i] == ks[0] && h[l] == ks[|ks| - 1]
    requires InFile(s, h[i]) && Eligible(h[i], through, from, upper) && Eligible(h[l], through, from, upper)
    ensures k in ks <==> k in h[i..l + 1]
  {
    hide Chain, Gather;
    CollectedIs(s, h, through, from, upper, k);
    InSlice(h, i, l, k);
    if k in h[i..l + 1] {
      var x :| 0 <= x < |h| && h[x] == k;
      IndexOrder(h, i, x);
      assert i < x ==> InFile(s, h[x]);
    }
  }

  lemma {:induction false} SkippedAreEmpty(s: State, h: seq<Commit>, through: bool, from: Checkpoint, upper: Checkpoint, ks: seq<Commit>, i: nat)
    requires Chain(h) && SegInv(s, h) && from == s.base && i < |h|
    requires var ids := Listing(s.segs, from, upper); ks == Gather(s.segs, ids, |ids|, through, from, upper)
    requires ks != [] && AscendingCkpts(ks) && h[i] == ks[0] && Upto(h, from) <= i
    ensures AllEmpty(h, Upto(h, from), i)
  {
    hide Gather;
    AscendingIsBounded(ks);
    CollectedIs(s, h, through, from, upper, h[i]);
    forall x | Upto(h, from) <= x < i ensures IsEmpty(h[x]) {
      ChainOrder(h, x, i);
      UptoSplits(h, from, x);
      CollectedIs(s, h, through, from, upper, h[x]);
    }
  }

  /** Every file up to the last gathered commit is in the listing. */
  lemma {:induction false} ListingIsComplete(s: State, from: Checkpoint, upper: Checkpoint, last: Checkpoint)
    requires NoneBelow(s, SidOf(from)) && CkptLe(from, last) && CkptLe(last, upper)
    ensures Lists(s, Listing(s.segs, from, upper), SidOf(last))
  {
    var ids := Listing(s.segs, from, upper);
    forall sid | sid in s.segs && SidLess(sid, SidOf(last)) ensures sid in ids {
      BetweenOverlaps(sid, from, upper, last);
    }
  }

  lemma BetweenOverlaps(sid: SegmentId, low: Checkpoint, high: Checkpoint, last: Checkpoint)
    requires !SidLess(sid, SidOf(low)) && SidLess(sid, SidOf(last)) && CkptLe(last, high)
    ensures Overlaps(sid, low, high)
  {
  }

  lemma {:induction false} CollectPhase(c: Config, s: State, h: seq<Commit>)
    requires Chain(h) && SegInv(s, h) && PhaseInv(c, s, h) && s.phase.Snapped?
    ensures PhaseInv(c, Collect(s), h)
  {
    hide FilesInv, NothingLost, Chain, Continues, Gather, Increasing;
    var p := s.phase;
    CollectContinues(s, h, p.through, p.from, p.upper);
    var ids := Listing(s.segs, p.from, p.upper);
    var ks := Gather(s.segs, ids, |ids|, p.through, p.from, p.upper);
    if ks != [] {
      ListingIsComplete(s, p.from, p.upper, ks[|ks| - 1].ckpt);
    }
  }

  // ── Frames ──

  /** Nothing but the phase changed, and no manifest was being written. */
  lemma {:induction false} PhaseOnly(c: Config, s: State, s1: State, h: seq<Commit>, spec: Spec)
    requires Inv(c, s, h, spec) && s1 == s.(phase := s1.phase) && !s.phase.Written?
    requires PhaseInv(c, s1, h)
    ensures Inv(c, s1, h, spec)
  {
    hide ObjInv, SegInv, WindowInv, PhaseInv, DataInv, Good, Fits;
    SameObjects(c, s, s1, h);
    SameFiles(c, s, s1, h);
    SameData(c, s, s1, h, spec);
  }

  lemma {:induction false} SnapKeeps(c: Config, s: State, h: seq<Commit>, spec: Spec, pid: nat)
    requires Inv(c, s, h, spec) && s.phase.Idle? && pid in s.caches
    ensures Inv(c, Snap(s, pid), h, spec)
  {
    hide ObjInv, SegInv, WindowInv, ManInv, DataInv;
    if Snap(s, pid) != s {
      PhaseOnly(c, s, Snap(s, pid), h, spec);
    }
  }

  lemma {:induction false} SnapThroughKeeps(c: Config, s: State, h: seq<Commit>, spec: Spec, pid: nat, target: Checkpoint)
    requires Inv(c, s, h, spec) && s.phase.Idle? && pid in s.caches
    ensures Inv(c, SnapThrough(s, pid, target), h, spec)
  {
    hide ObjInv, SegInv, WindowInv, ManInv, DataInv;
    if SnapThrough(s, pid, target) != s {
      PhaseOnly(c, s, SnapThrough(s, pid, target), h, spec);
    }
  }

  lemma {:induction false} CollectKeeps(c: Config, s: State, h: seq<Commit>, spec: Spec)
    requires Inv(c, s, h, spec) && s.phase.Snapped?
    ensures Inv(c, Collect(s), h, spec)
  {
    hide ObjInv, SegInv, WindowInv, ManInv, DataInv, PhaseInv;
    CollectPhase(c, s, h);
    PhaseOnly(c, s, Collect(s), h, spec);
  }

  // ── Publish ──

  /**
   * The folded manifest represents the commits up to `target`; if the base would
   * move back, only commits that changed nothing lie in between.
   */
  lemma {:induction false} FoldedFits(db: U64, cur: Manifest, h: seq<Commit>, base: Checkpoint, apply: seq<Commit>, through: bool)
    requires Chain(h) && Fits(db, cur, h, base) && Continues(h, base, apply)
    ensures var applied := Folded(db, cur, apply);
            var last := apply[|apply| - 1].ckpt;
            var target := if through then applied.ckpt else last;
            && Fits(db, applied, h, target)
            && CkptLe(target, last) && CkptLe(last, HeadOf(h))
            && (CkptLe(base, target) || AllEmpty(h, Upto(h, target), Upto(h, base)))
  {
    hide Covers, Folded, Fits, Chain;
    var i, j :| Upto(h, base) <= i < j <= |h| && AllEmpty(h, Upto(h, base), i) && apply == h[i..j];
    var applied := Folded(db, cur, apply);
    FoldedSlice(db, cur, h, base, i, j);
    FoldedHeader(db, cur, apply);
    FoldedRedo(db, cur, h, i, j);
    HeadIsHighest(h, j - 1);
    FoldedTarget(db, cur, applied, h, base, i, j);
  }

  lemma {:induction false} FoldedTarget(db: U64, cur: Manifest, applied: Manifest, h: seq<Commit>, base: Checkpoint, i: nat, j: nat)
    requires Upto(h, base) <= i < j <= |h| && AllEmpty(h, Upto(h, base), i)
    requires Chain(h) && Fits(db, cur, h, base) && Covers(db, applied, h[..j])
    requires applied.ckpt == LastChange(cur.ckpt, h[i..j]) && applied.redo == h[j - 1].redo
    ensures Fits(db, applied, h, applied.ckpt) && Fits(db, applied, h, h[j - 1].ckpt)
    ensures CkptLe(applied.ckpt, h[j - 1].ckpt) && CkptLe(base, h[j - 1].ckpt)
    ensures CkptLe(base, applied.ckpt) || AllEmpty(h, Upto(h, applied.ckpt), Upto(h, base))
  {
    hide Covers, Fits, LastChange, Chain;
    LastChangeIs(h, i, j, cur.ckpt);
    if applied.ckpt == cur.ckpt && AllEmpty(h, i, j) {
      FoldedUnchanged(db, cur, applied, h, base, i, j);
    } else {
      var x :| i <= x < j && h[x].ckpt == applied.ckpt && !IsEmpty(h[x]) && AllEmpty(h, x + 1, j);
      FoldedChanged(db, applied, h, base, i, j, x);
    }
  }

  /** All folded commits were empty: the header stays, and everything since it is empty. */
  lemma {:induction false} FoldedUnchanged(db: U64, cur: Manifest, applied: Manifest, h: seq<Commit>, base: Checkpoint, i: nat, j: nat)
    requires Upto(h, base) <= i < j <= |h| && AllEmpty(h, Upto(h, base), i) && AllEmpty(h, i, j)
    requires Chain(h) && Fits(db, cur, h, base) && applied.ckpt == cur.ckpt && Covers(db, applied, h[..j])
    requires applied.redo == h[j - 1].redo
    ensures Fits(db, applied, h, applied.ckpt) && Fits(db, applied, h, h[j - 1].ckpt)
    ensures CkptLe(applied.ckpt, h[j - 1].ckpt) && CkptLe(base, h[j - 1].ckpt)
    ensures AllEmpty(h, Upto(h, applied.ckpt), Upto(h, base))
  {
    hide Covers;
    UptoAt(h, j - 1);
    UptoMonotone(h, cur.ckpt, base);
    UptoSplits(h, base, j - 1);
    CoversEmpty(db, applied, h, Upto(h, cur.ckpt), j);
    assert applied.redo == RedoAt(h, j);
    HeadIsHighest(h, j - 1);
    LeTransitive(cur.ckpt, base, h[j - 1].ckpt);
  }

  /** The last folded commit that changed something, at `x`, becomes the header. */
  lemma {:induction false} FoldedChanged(db: U64, applied: Manifest, h: seq<Commit>, base: Checkpoint, i: nat, j: nat, x: nat)
    requires Upto(h, base) <= i <= x < j <= |h| && Chain(h) && Covers(db, applied, h[..j])
    requires h[x].ckpt == applied.ckpt && !IsEmpty(h[x]) && AllEmpty(h, x + 1, j) && applied.redo == h[j - 1].redo
    ensures Fits(db, applied, h, applied.ckpt) && Fits(db, applied, h, h[j - 1].ckpt)
    ensures CkptLe(applied.ckpt, h[j - 1].ckpt) && CkptLe(base, applied.ckpt) && CkptLe(base, h[j - 1].ckpt)
  {
    hide Covers, Fits, Chain;
    UptoSplits(h, base, x);
    UptoSplits(h, base, j - 1);
    FitsFrom(db, applied, h, x, j);
  }

  lemma {:induction false} FitsFrom(db: U64, m: Manifest, h: seq<Commit>, x: nat, j: nat)
    requires x < j <= |h| && Chain(h) && Covers(db, m, h[..j])
    requires h[x].ckpt == m.ckpt && !IsEmpty(h[x]) && AllEmpty(h, x + 1, j) && m.redo == h[j - 1].redo
    ensures Fits(db, m, h, m.ckpt) && Fits(db, m, h, h[j - 1].ckpt) && CkptLe(m.ckpt, h[j - 1].ckpt)
  {
    hide Covers, Chain;
    UptoAt(h, j - 1);
    UptoAt(h, x);
    CoversEmpty(db, m, h, x + 1, j);
    assert m.redo == RedoAt(h, j);
    HeadIsHighest(h, j - 1);
    HeadIsHighest(h, x);
    IndexOrder(h, x, j - 1);
  }

  lemma LeTransitive(a: Checkpoint, b: Checkpoint, c: Checkpoint)
    requires CkptLe(a, b) && !CkptLe(c, b)
    ensures CkptLe(a, c)
  {
  }

  lemma FoldedHeader(db: U64, m: Manifest, ks: seq<Commit>)
    ensures Folded(db, m, ks).ckpt == LastChange(m.ckpt, ks)
  {
  }

  lemma FoldedRedo(db: U64, m: Manifest, h: seq<Commit>, i: nat, j: nat)
    requires i < j <= |h|
    ensures Folded(db, m, h[i..j]).redo == h[j - 1].redo
  {
  }

  lemma {:induction false} UptoAt(h: seq<Commit>, x: nat)
    requires Chain(h) && x < |h|
    ensures Upto(h, h[x].ckpt) == x + 1
  {
    if x + 1 < |h| {
      ChainOrder(h, x, x + 1);
    }
    UptoIs(h, h[x].ckpt, x + 1);
  }

  lemma {:induction false} FoldedSlice(db: U64, cur: Manifest, h: seq<Commit>, base: Checkpoint, i: nat, j: nat)
    requires Chain(h) && Fits(db, cur, h, base)
    requires Upto(h, base) <= i <= j <= |h| && AllEmpty(h, Upto(h, base), i)
    ensures Covers(db, Folded(db, cur, h[i..j]), h[..j])
  {
    hide Covers, Folded;
    UptoMonotone(h, cur.ckpt, base);
    CoversEmpty(db, cur, h, Upto(h, cur.ckpt), i);
    FoldedCovers(db, cur, h, i, j);
  }

  lemma {:induction false} PublishReady(c: Config, s: State, h: seq<Commit>)
    requires Chain(h) && ManInv(c, s, h) && PhaseInv(c, s, h) && s.phase.Collected? && s.phase.apply != []
    requires Loadable(s, s.phase.pid)
    ensures var s1 := Publish(c, s);
            && Fits(c.db, s1.phase.applied, h, s1.phase.target)
            && Lists(s, s1.phase.ids, SidOf(s1.phase.target))
            && (CkptLe(s.base, s1.phase.target) || AllEmpty(h, Upto(h, s1.phase.target), Upto(h, s.base)))
  {
    hide Good, Folded, Continues, ManInv;
    var p := s.phase;
    BaseManifestCovers(c, s, h, p.pid);
    var cur := BaseManifest(s, p.pid);
    FoldedFits(c.db, cur, h, s.base, p.apply, p.through);
    SidMonotone(Publish(c, s).phase.target, p.apply[|p.apply| - 1].ckpt);
  }

  lemma {:induction false} PublishManifests(c: Config, s: State, s1: State, h: seq<Commit>)
    requires Chain(h) && ManInv(c, s, h) && s.phase.Collected?
    requires s1.phase.Published? && s1.base == s.base && s1.bases == s.bases[s1.phase.target := s1.phase.applied]
    requires Fits(c.db, s1.phase.applied, h, s1.phase.target)
    requires s.phase.pid in s.caches
    requires s.bases.Keys <= s1.bases.Keys
    requires var r := Reloaded(s, s.phase.pid); s1.local == r.local && s1.caches == r.caches
    ensures ManInv(c, s1, h)
  {
    hide Good, Fits;
    ReloadedManifests(c, s, h, s.phase.pid);
  }

  /** Outside the write of the local file, every process can load the base manifest. */
  lemma IdleCanLoad(c: Config, s: State, h: seq<Commit>)
    requires ManInv(c, s, h) && !s.phase.Written?
    ensures CanLoad(s, s.base)
    ensures forall pid :: pid in s.caches ==> Loadable(s, pid)
  {
    hide Good, Fits, HeaderOk;
  }

  lemma {:induction false} PublishKeeps(c: Config, s: State, h: seq<Commit>, spec: Spec)
    requires Inv(c, s, h, spec) && s.phase.Collected? && s.phase.apply != [] && s.phase.pid in s.caches
    ensures Inv(c, Publish(c, s), h, spec)
  {
    hide ObjInv, SegInv, WindowInv, ManInv, DataInv, Fits, Folded, Continues;
    var s1 := Publish(c, s);
    assert Loadable(s, s.phase.pid) by { IdleCanLoad(c, s, h); }
    PublishReady(c, s, h);
    SameObjects(c, s, s1, h);
    SameFiles(c, s, s1, h);
    SameData(c, s, s1, h, spec);
    PublishManifests(c, s, s1, h);
  }

  // ── Write, install, swap, delete ──

  lemma {:induction false} WriteLocalKeeps(c: Config, s: State, h: seq<Commit>, spec: Spec)
    requires Inv(c, s, h, spec) && s.phase.Published?
    ensures Inv(c, WriteLocal(s), h, spec)
  {
    hide ObjInv, SegInv, WindowInv, DataInv, ManInv, PhaseInv, Good, Fits;
    var s1 := WriteLocal(s);
    SameObjects(c, s, s1, h);
    SameFiles(c, s, s1, h);
    SameData(c, s, s1, h, spec);
    WriteLocalManifests(c, s, h);
    WriteLocalPhase(c, s, h);
  }

  lemma {:induction false} WriteLocalManifests(c: Config, s: State, h: seq<Commit>)
    requires ManInv(c, s, h) && PhaseInv(c, s, h) && s.phase.Published?
    ensures ManInv(c, WriteLocal(s), h)
  {
    hide Good, NoneBelow, Increasing, Lists, RedoOk, AllEmpty;
  }

  lemma {:induction false} WriteLocalPhase(c: Config, s: State, h: seq<Commit>)
    requires PhaseInv(c, s, h) && s.phase.Published?
    ensures PhaseInv(c, WriteLocal(s), h)
  {
    hide Good, Fits;
  }

  /** A header at or below the old base is at or below the new one, even if that is lower. */
  lemma {:induction false} HeaderSurvives(c: Config, h: seq<Commit>, m: Manifest, from: Checkpoint, target: Checkpoint)
    requires Chain(h) && IsChange(h, m.ckpt) && CkptLe(m.ckpt, from) && CkptLe(GENESIS, target)
    requires CkptLe(from, target) || AllEmpty(h, Upto(h, target), Upto(h, from))
    ensures CkptLe(m.ckpt, target)
  {
    if m.ckpt != GENESIS {
      var i :| 0 <= i < |h| && h[i].ckpt == m.ckpt && !IsEmpty(h[i]);
      UptoSplits(h, from, i);
      UptoSplits(h, target, i);
    }
  }

  lemma {:induction false} TargetIsHigh(c: Config, h: seq<Commit>, m: Manifest, at: Checkpoint)
    requires Chain(h) && Fits(c.db, m, h, at)
    ensures CkptLe(GENESIS, at) && IsChange(h, m.ckpt)
  {
    hide Covers;
    if m.ckpt != GENESIS {
      var i :| 0 <= i < |h| && h[i].ckpt == m.ckpt && !IsEmpty(h[i]);
      HeadIsHighest(h, i);
    }
  }

  lemma {:induction false} InstallHeader(c: Config, s: State, s1: State, h: seq<Commit>, m: Manifest)
    requires Chain(h) && s.phase.Written? && s1.base == s.phase.target
    requires Ready(c, s, h, s.phase.ids, s.phase.target, s.phase.applied)
    requires Good(c.db, m, h) && HeaderOk(s, m)
    ensures HeaderOk(s1, m)
  {
    hide Covers;
    TargetIsHigh(c, h, s.phase.applied, s.phase.target);
    if m != s.phase.applied {
      HeaderSurvives(c, h, m, s.base, s.phase.target);
    }
  }

  lemma {:induction false} InstallManifests(c: Config, s: State, h: seq<Commit>)
    requires Chain(h) && ManInv(c, s, h) && s.phase.Written? && s.base == s.phase.from
    requires Ready(c, s, h, s.phase.ids, s.phase.target, s.phase.applied)
    ensures ManInv(c, Install(s), h)
  {
    hide Good, Ready, HeaderOk;
    var s1, p := Install(s), s.phase;
    InstallHeader(c, s, s1, h, s.local);
    forall q | q in s.caches ensures HeaderOk(s1, s1.caches[q]) {
      InstallHeader(c, s, s1, h, s.caches[q]);
    }
    ReadyFits(c, s, h, p.ids, p.target, p.applied);
    TargetIsHigh(c, h, p.applied, p.target);
  }

  lemma ReadyFits(c: Config, s: State, h: seq<Commit>, ids: seq<SegmentId>, target: Checkpoint, applied: Manifest)
    requires Ready(c, s, h, ids, target, applied)
    ensures Fits(c.db, applied, h, target) && target in s.bases && CkptLe(target, HeadOf(h))
  {
    hide Good;
  }

  lemma {:induction false} InstallFiles(c: Config, s: State, h: seq<Commit>)
    requires Chain(h) && SegInv(s, h) && s.phase.Written? && s.base == s.phase.from
    requires Ready(c, s, h, s.phase.ids, s.phase.target, s.phase.applied)
    ensures SegInv(Install(s), h)
  {
    hide Good;
    var s1 := Install(s);
    forall i | 0 <= i < |h| ensures InFile(s1, h[i]) || CkptLe(h[i].ckpt, s1.base) || IsEmpty(h[i]) {
      UptoSplits(h, s.base, i);
      UptoSplits(h, s1.base, i);
    }
  }

  lemma {:induction false} InstallKeeps(c: Config, s: State, h: seq<Commit>, spec: Spec)
    requires Inv(c, s, h, spec) && s.phase.Written?
    ensures Inv(c, Install(s), h, spec)
  {
    hide ObjInv, SegInv, ManInv, DataInv, Fits, Increasing, Chain, ListsNewest;
    var s1 := Install(s);
    SameObjects(c, s, s1, h);
    SameData(c, s, s1, h, spec);
    InstallManifests(c, s, h);
    InstallFiles(c, s, h);
  }

  lemma {:induction false} TakeBelowIs(ids: seq<SegmentId>, bound: SegmentId)
    requires Increasing(ids)
    ensures var t := TakeBelow(ids, bound);
            && Increasing(t)
            && (forall x :: x in t <==> x in ids && SidLess(x, bound))
    decreases |ids|
  {
    if ids != [] {
      var tail := ids[1..];
      TakeBelowIs(tail, bound);
      assert ids == [ids[0]] + tail;
      var t := TakeBelow(ids, bound);
      if SidLess(ids[0], bound) {
        forall i | 1 <= i < |t| ensures SidLess(t[0], t[i]) {
          assert t[i] in tail;
        }
      } else {
        assert forall x :: x in ids ==> !SidLess(x, bound);
      }
    }
  }

  lemma {:induction false} SwapPhase(c: Config, s: State, h: seq<Commit>)
    requires PhaseInv(c, s, h) && s.phase.Installed?
    ensures PhaseInv(c, Swap(s), h)
  {
    hide Fits;
    TakeBelowIs(s.phase.ids, SidOf(s.phase.target));
  }

  lemma {:induction false} SwapManifests(c: Config, s: State, h: seq<Commit>)
    requires ManInv(c, s, h) && PhaseInv(c, s, h) && s.phase.Installed?
    ensures ManInv(c, Swap(s), h)
  {
    hide Good, TakeBelow, Increasing;
  }

  lemma {:induction false} SwapKeeps(c: Config, s: State, h: seq<Commit>, spec: Spec)
    requires Inv(c, s, h, spec) && s.phase.Installed?
    ensures Inv(c, Swap(s), h, spec)
  {
    hide ObjInv, SegInv, WindowInv, ManInv, DataInv, PhaseInv;
    var s1 := Swap(s);
    SameObjects(c, s, s1, h);
    SameFiles(c, s, s1, h);
    SameData(c, s, s1, h, spec);
    SwapPhase(c, s, h);
    SwapManifests(c, s, h);
  }

  /** No deleted file holds a checkpoint above the base. */
  lemma DeletedIsBelowBase(c: Config, s: State, h: seq<Commit>, k: Commit)
    requires Chain(h) && SegInv(s, h) && PhaseInv(c, s, h) && s.phase.Deleting? && s.phase.ids != []
    requires s.phase.ids[0] in s.segs && k in s.segs[s.phase.ids[0]]
    ensures CkptLess(k.ckpt, s.base)
  {
    BucketHolds(h, s.phase.ids[0], k);
    SidOrder(k.ckpt, s.base);
  }

  lemma {:induction false} DeleteFiles(c: Config, s: State, h: seq<Commit>)
    requires Chain(h) && SegInv(s, h) && PhaseInv(c, s, h) && s.phase.Deleting? && s.phase.ids != []
    requires CkptLe(s.base, HeadOf(h)) && CkptLe(GENESIS, s.base)
    ensures SegInv(DeleteOne(s), h)
  {
    var s1, gone := DeleteOne(s), s.phase.ids[0];
    assert forall x :: x in s.phase.ids ==> SidLe(gone, x);
    forall i, j | 0 <= i < j < |h| && InFile(s1, h[i]) ensures InFile(s1, h[j]) {
      ChainOrder(h, i, j);
      SidMonotone(h[i].ckpt, h[j].ckpt);
    }
    if h != [] {
      SidMonotone(s.base, HeadOf(h));
    }
    forall i | 0 <= i < |h| ensures InFile(s1, h[i]) || CkptLe(h[i].ckpt, s1.base) || IsEmpty(h[i]) {
      if InFile(s, h[i]) && SidOf(h[i].ckpt) == gone {
        SidOrder(h[i].ckpt, s.base);
      }
    }
  }

  lemma {:induction false} DeletePhase(c: Config, s: State, h: seq<Commit>)
    requires PhaseInv(c, s, h) && s.phase.Deleting? && s.phase.ids != []
    ensures PhaseInv(c, DeleteOne(s), h)
  {
    var ids := s.phase.ids;
    assert ids == [ids[0]] + ids[1..];
  }

  lemma {:induction false} DeleteKeeps(c: Config, s: State, h: seq<Commit>, spec: Spec)
    requires Inv(c, s, h, spec) && s.phase.Deleting?
    ensures Inv(c, DeleteOne(s), h, spec)
  {
    var s1 := DeleteOne(s);
    if s.phase.ids == [] {
      DoneKeeps(c, s, h, spec);
    } else {
      hide ObjInv, SegInv, ManInv, DataInv, PhaseInv, ListsNewest;
      SameObjects(c, s, s1, h);
      SameData(c, s, s1, h, spec);
      BaseIsBelowHead(c, s, h);
      DeleteFiles(c, s, h);
      DeletePhase(c, s, h);
      SameButPhase(c, s, s1, h);
    }
  }

  lemma {:induction false} SameButPhase(c: Config, s: State, s1: State, h: seq<Commit>)
    requires ManInv(c, s, h) && !s.phase.Written?
    requires s1.local == s.local && s1.caches == s.caches && s1.bases == s.bases && s1.base == s.base
    ensures ManInv(c, s1, h)
  {
    hide Good, Fits;
  }

  lemma {:induction false} DoneKeeps(c: Config, s: State, h: seq<Commit>, spec: Spec)
    requires Inv(c, s, h, spec) && s.phase.Deleting? && s.phase.ids == []
    ensures Inv(c, DeleteOne(s), h, spec)
  {
    hide ObjInv, SegInv, WindowInv, ManInv, DataInv;
    PhaseOnly(c, s, DeleteOne(s), h, spec);
  }
}
