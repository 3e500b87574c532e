/**
 * What a compaction does when nothing runs beside it, told over the history alone: which
 * commits it folds, where the base ends up, what the manifest under it holds, and which
 * segment files are left.
 */
module StoreEffect {
  import opened Types
  import opened WindowSpec
  import opened ManifestSpec
  import opened History
  import opened StoreModel
  import opened StoreInv
  import opened StoreReads
  import opened StoreSteps
  import opened StoreCompaction

  // ── The statement ──

  /** Commit `i` is in a file and lies above the base and below the redo point (the head, while none is known). */
  predicate BelowRedo(s: State, h: seq<Commit>, i: nat)
    requires i < |h|
  {
    InFile(s, h[i]) && CkptLess(s.base, h[i].ckpt) && CkptLess(h[i].ckpt, if s.redo.lsn == 0 then s.head else s.redo)
  }

  /** Commit `i` is in a file and lies above the base and not above `target`. */
  predicate UpToTarget(s: State, h: seq<Commit>, target: Checkpoint, i: nat)
    requires i < |h|
  {
    InFile(s, h[i]) && CkptLess(s.base, h[i].ckpt) && CkptLe(h[i].ckpt, target)
  }

  /**
   * From `s` to `s1` the commits up to `h[n]` went into the base, now called `at`: its
   * manifest is stored, in the local file and in the compactor's cache, it represents
   * exactly those commits and carries the redo point of `h[n]`, and just the segment
   * files below the base are gone.
   */
  ghost predicate FoldedUpTo(c: Config, s: State, s1: State, h: seq<Commit>, pid: nat, n: nat, at: Checkpoint) {
    && n < |h| && at in s1.bases
    && var m := s1.bases[at];
    && s1 == s.(base := at, bases := s.bases[at := m], local := m, caches := s.caches[pid := m], segs := s1.segs)
    && Fits(c.db, m, h, at) && Covers(c.db, m, h[..n + 1]) && m.redo == h[n].redo
    && (forall sid {:trigger sid in s1.segs} :: sid in s1.segs <==> sid in s.segs && !SidLess(sid, SidOf(at)))
    && (forall sid {:trigger s1.segs[sid]} :: sid in s1.segs ==> s1.segs[sid] == s.segs[sid])
  }

  /** The effect of `run_compaction`: the newest commit below the redo point becomes the base. */
  ghost predicate Compacted(c: Config, s: State, s1: State, h: seq<Commit>, pid: nat) {
    if forall i :: 0 <= i < |h| ==> !BelowRedo(s, h, i) then
      s1 == s
    else
      exists n: nat {:trigger BelowRedo(s, h, n)} ::
        && n < |h| && BelowRedo(s, h, n) && (forall i :: n < i < |h| ==> !BelowRedo(s, h, i))
        && FoldedUpTo(c, s, s1, h, pid, n, h[n].ckpt)
  }

  /**
   * The effect of `run_compaction_through`: the commits up to the newest one at or below
   * the target go into the base, which is named after the last of them that changed
   * something; so every commit at or below the target is in it.
   */
  ghost predicate CompactedThrough(c: Config, s: State, s1: State, h: seq<Commit>, pid: nat, target: Checkpoint) {
    if forall i :: 0 <= i < |h| ==> !UpToTarget(s, h, target, i) then
      s1 == s
    else
      exists n: nat {:trigger UpToTarget(s, h, target, n)} ::
        && n < |h| && UpToTarget(s, h, target, n) && (forall i :: n < i < |h| ==> !UpToTarget(s, h, target, i))
        && FoldedUpTo(c, s, s1, h, pid, n, s1.base)
        && s1.base == s1.bases[s1.base].ckpt && Upto(h, s1.base) <= n + 1 && AllEmpty(h, Upto(h, s1.base), n + 1)
        && n + 1 == Upto(h, target)
        && (CkptLe(target, s.head) ==> Fits(c.db, s1.bases[s1.base], h, target))
  }

  // ── What is gathered ──

  predicate Chosen(s: State, h: seq<Commit>, through: bool, upper: Checkpoint, i: nat)
    requires i < |h|
  {
    InFile(s, h[i]) && CkptLess(s.base, h[i].ckpt) && (CkptLess(h[i].ckpt, upper) || (through && h[i].ckpt == upper))
  }

  /** The commits gathered from `s`. */
  ghost function Apply(s: State, through: bool, upper: Checkpoint): seq<Commit> {
    var ids := Listing(s.segs, s.base, upper);
    Gather(s.segs, ids, |ids|, through, s.base, upper)
  }

  lemma {:induction false} GatheredIffChosen(s: State, h: seq<Commit>, through: bool, upper: Checkpoint, i: nat)
    requires Chain(h) && FilesInv(s, h) && i < |h|
    ensures h[i] in Apply(s, through, upper) <==> Chosen(s, h, through, upper, i)
  {
    hide Chain, FilesInv, Gather;
    CollectedIs(s, h, through, s.base, upper, h[i]);
  }

  /** What is gathered ends with the newest chosen commit. */
  lemma {:induction false} GatheredEnds(s: State, h: seq<Commit>, through: bool, upper: Checkpoint) returns (i: nat, n: nat)
    requires Chain(h) && SegInv(s, h) && Apply(s, through, upper) != []
    ensures Upto(h, s.base) <= i <= n < |h| && AllEmpty(h, Upto(h, s.base), i) && Apply(s, through, upper) == h[i..n + 1]
    ensures Chosen(s, h, through, upper, n) && forall x :: n < x < |h| ==> !Chosen(s, h, through, upper, x)
  {
    hide Chain, FilesInv, NothingLost, Gather, Chosen, Listing, Apply, Upto;
    var ks := Apply(s, through, upper);
    ApplyContinues(s, h, through, upper);
    var i0, j :| Upto(h, s.base) <= i0 < j <= |h| && AllEmpty(h, Upto(h, s.base), i0) && ks == h[i0..j];
    i, n := i0, j - 1;
    assert ks[|ks| - 1] == h[n];
    GatheredIffChosen(s, h, through, upper, n);
    forall x | n < x < |h| ensures !Chosen(s, h, through, upper, x) {
      GatheredIffChosen(s, h, through, upper, x);
      NotInSlice(h, i, n, x);
    }
  }

  lemma {:induction false} ApplyContinues(s: State, h: seq<Commit>, through: bool, upper: Checkpoint)
    requires Chain(h) && SegInv(s, h) && Apply(s, through, upper) != []
    ensures Continues(h, s.base, Apply(s, through, upper))
  {
    hide Chain, FilesInv, NothingLost, Gather, Listing, Continues;
    CollectContinues(s, h, through, s.base, upper);
  }

  lemma {:induction false} NotInSlice(h: seq<Commit>, i: nat, n: nat, x: nat)
    requires Chain(h) && i <= n < x < |h|
    ensures h[x] !in h[i..n + 1]
  {
    hide Chain;
    InSlice(h, i, n, h[x]);
    IndexOrder(h, x, n);
  }

  lemma {:induction false} NoneGathered(s: State, h: seq<Commit>, through: bool, upper: Checkpoint)
    requires Chain(h) && FilesInv(s, h)
    ensures Apply(s, through, upper) == [] <==> forall i :: 0 <= i < |h| ==> !Chosen(s, h, through, upper, i)
  {
    hide Chain, FilesInv, Gather, Chosen, Listing;
    var ks := Apply(s, through, upper);
    forall i | 0 <= i < |h| ensures Chosen(s, h, through, upper, i) ==> ks != [] {
      GatheredIffChosen(s, h, through, upper, i);
    }
    if ks != [] {
      FirstIsACommit(s, h, through, upper);
      var i :| 0 <= i < |h| && h[i] == ks[0];
      GatheredIffChosen(s, h, through, upper, i);
    }
  }

  lemma {:induction false} FirstIsACommit(s: State, h: seq<Commit>, through: bool, upper: Checkpoint)
    requires Chain(h) && FilesInv(s, h) && Apply(s, through, upper) != []
    ensures Apply(s, through, upper)[0] in h
  {
    hide Chain, FilesInv, Gather;
    CollectedIs(s, h, through, s.base, upper, Apply(s, through, upper)[0]);
  }

  // ── The phases, run one after the other ──

  function DeleteAll(s: State): State
    requires s.phase.Deleting?
  {
    s.(segs := s.segs - (set x | x in s.phase.ids), phase := Idle)
  }

  lemma DeleteRest(s: State)
    requires s.phase.Deleting?
    ensures if s.phase.ids == [] then DeleteOne(s) == DeleteAll(s)
            else DeleteOne(s).phase.Deleting? && DeleteAll(DeleteOne(s)) == DeleteAll(s)
  {
    if s.phase.ids != [] {
      HeadAndRest(s.phase.ids);
    }
  }

  lemma HeadAndRest(ids: seq<SegmentId>)
    requires ids != []
    ensures (set x | x in ids) == {ids[0]} + (set x | x in ids[1..])
  {
    assert ids == [ids[0]] + ids[1..];
  }

  /** The state from which the files go, when the manifest has been published and installed. */
  ghost function Swapped(c: Config, s: State): State
    requires s.phase.Collected? && s.phase.apply != [] && s.phase.pid in s.caches && Loadable(s, s.phase.pid) && s.phase.from == s.base
    ensures Swapped(c, s).phase.Deleting?
  {
    Swap(Install(WriteLocal(Publish(c, s))))
  }

  /** The manifest that the gathered commits give. */
  ghost function FoldOf(c: Config, s: State): Manifest
    requires s.phase.Collected? && s.phase.pid in s.caches && Loadable(s, s.phase.pid)
  {
    Folded(c.db, BaseManifest(s, s.phase.pid), s.phase.apply)
  }

  lemma SwappedIs(c: Config, s: State)
    requires s.phase.Collected? && s.phase.apply != [] && s.phase.pid in s.caches && Loadable(s, s.phase.pid) && s.phase.from == s.base
    ensures var (m, p) := (FoldOf(c, s), s.phase);
            var at := if p.through then m.ckpt else p.apply[|p.apply| - 1].ckpt;
            Swapped(c, s) == s.(base := at, bases := s.bases[at := m], local := m, caches := s.caches[p.pid := m],
                                phase := Deleting(TakeBelow(p.ids, SidOf(at))))
  {
    hide Folded, TakeBelow;
    var m := FoldOf(c, s);
    assert Reloaded(s, s.phase.pid).caches[s.phase.pid := m] == s.caches[s.phase.pid := m];
  }

  /** The phases after a range was read, to the end. */
  ghost function Finished(c: Config, s: State, pid: nat, through: bool, upper: Checkpoint): State
    requires pid in s.caches && Loadable(s, pid)
  {
    var s1 := Collect(s.(phase := Snapped(pid, through, s.base, upper)));
    if s1.phase.Collected? then DeleteAll(Swapped(c, s1)) else s1
  }

  /** Deleting the listed files below `at` leaves just the files from `at` on. */
  lemma {:induction false} DeletedFiles(s: State, upper: Checkpoint, last: Checkpoint, at: Checkpoint)
    requires NoneBelow(s, SidOf(s.base)) && CkptLe(s.base, last) && CkptLe(last, upper) && CkptLe(at, last)
    ensures var gone := set x | x in TakeBelow(Listing(s.segs, s.base, upper), SidOf(at));
            forall sid :: sid in s.segs - gone <==> sid in s.segs && !SidLess(sid, SidOf(at))
  {
    hide NoneBelow, Overlaps;
    var ids := Listing(s.segs, s.base, upper);
    TakeBelowIs(ids, SidOf(at));
    ListingIsComplete(s, s.base, upper, last);
    SidMonotone(at, last);
  }

  /** The whole effect, for both kinds of compaction. */
  ghost predicate EndsAs(c: Config, s: State, s1: State, h: seq<Commit>, pid: nat, through: bool, n: nat) {
    && FoldedUpTo(c, s, s1, h, pid, n, s1.base)
    && var m := s1.bases[s1.base];
    && s1.base == (if through then m.ckpt else h[n].ckpt)
    && Upto(h, s1.base) <= n + 1 && AllEmpty(h, Upto(h, s1.base), n + 1)
    && Fits(c.db, m, h, h[n].ckpt) && Upto(h, h[n].ckpt) == n + 1
  }

  /** A snapshot of the range and the gathered commits of `s`. */
  ghost function Gathered(s: State, pid: nat, through: bool, upper: Checkpoint): State {
    s.(phase := Collected(pid, through, s.base, Listing(s.segs, s.base, upper), Apply(s, through, upper)))
  }

  lemma {:induction false} FinishedIs(c: Config, s: State, h: seq<Commit>, spec: Spec, pid: nat, through: bool, upper: Checkpoint)
    returns (n: nat)
    requires Inv(c, s, h, spec) && s.phase.Idle? && pid in s.caches && Loadable(s, pid)
    requires Apply(s, through, upper) != []
    ensures n < |h| && Chosen(s, h, through, upper, n) && forall x :: n < x < |h| ==> !Chosen(s, h, through, upper, x)
    ensures EndsAs(c, s, Finished(c, s, pid, through, upper), h, pid, through, n)
  {
    hide ObjInv, FilesInv, NothingLost, WindowInv, DataInv, ManInv, Chain, Apply, Folded, Fits, Chosen, NoneBelow, EndsAs, Finished, Swapped;
    var i: nat;
    i, n := GatheredEnds(s, h, through, upper);
    FinishedSwaps(c, s, pid, through, upper);
    BaseManifestCovers(c, s, h, pid);
    SwappedEnds(c, s, h, pid, through, upper, i, n);
  }

  lemma FinishedSwaps(c: Config, s: State, pid: nat, through: bool, upper: Checkpoint)
    requires pid in s.caches && Loadable(s, pid) && Apply(s, through, upper) != []
    ensures Finished(c, s, pid, through, upper) == DeleteAll(Swapped(c, Gathered(s, pid, through, upper)))
  {
    hide Gather, Swapped, Listing;
  }

  lemma {:induction false} SwappedEnds(c: Config, s: State, h: seq<Commit>, pid: nat, through: bool, upper: Checkpoint, i: nat, n: nat)
    requires pid in s.caches && Loadable(s, pid) && s.phase.Idle? && NoneBelow(s, SidOf(s.base))
    requires Chain(h) && Fits(c.db, BaseManifest(s, pid), h, s.base)
    requires Upto(h, s.base) <= i <= n < |h| && AllEmpty(h, Upto(h, s.base), i) && Apply(s, through, upper) == h[i..n + 1]
    requires Chosen(s, h, through, upper, n)
    ensures EndsAs(c, s, DeleteAll(Swapped(c, Gathered(s, pid, through, upper))), h, pid, through, n)
  {
    hide Chain, Apply, Folded, Fits, Covers, Chosen, NoneBelow, Swapped, Listing, TakeBelow, Loadable, BaseManifest, Upto;
    var s2 := Gathered(s, pid, through, upper);
    var ks := h[i..n + 1];
    assert ks[|ks| - 1] == h[n];
    SameBase(s, s2, pid);
    FoldedParts(c.db, BaseManifest(s, pid), h, s.base, i, n);
    SwappedIs(c, s2);
    var m := FoldOf(c, s2);
    assert m == Folded(c.db, BaseManifest(s, pid), ks);
    var at := if through then m.ckpt else h[n].ckpt;
    ChosenBounds(s, h, through, upper, n);
    LeRefl(h[n].ckpt);
    DeletedFiles(s, upper, h[n].ckpt, at);
  }

  lemma SameBase(s: State, s2: State, pid: nat)
    requires pid in s.caches && Loadable(s, pid) && s2 == s.(phase := s2.phase)
    ensures Loadable(s2, pid) && BaseManifest(s2, pid) == BaseManifest(s, pid)
  {
  }

  lemma LeRefl(c: Checkpoint)
    ensures CkptLe(c, c)
  {
  }

  lemma ChosenBounds(s: State, h: seq<Commit>, through: bool, upper: Checkpoint, n: nat)
    requires n < |h| && Chosen(s, h, through, upper, n)
    ensures CkptLe(s.base, h[n].ckpt) && CkptLe(h[n].ckpt, upper)
  {
  }

  /** The folded manifest, in every respect. */
  lemma {:induction false} FoldedParts(db: U64, cur: Manifest, h: seq<Commit>, base: Checkpoint, i: nat, n: nat)
    requires Chain(h) && Fits(db, cur, h, base) && Upto(h, base) <= i <= n < |h| && AllEmpty(h, Upto(h, base), i)
    ensures var m := Folded(db, cur, h[i..n + 1]);
            && Fits(db, m, h, m.ckpt) && Fits(db, m, h, h[n].ckpt) && Covers(db, m, h[..n + 1]) && m.redo == h[n].redo
            && CkptLe(m.ckpt, h[n].ckpt) && Upto(h, h[n].ckpt) == n + 1
            && Upto(h, m.ckpt) <= n + 1 && AllEmpty(h, Upto(h, m.ckpt), n + 1)
  {
    hide Covers, Folded, Chain, LastChange;
    var m := Folded(db, cur, h[i..n + 1]);
    FoldedSlice(db, cur, h, base, i, n + 1);
    FoldedHeader(db, cur, h[i..n + 1]);
    FoldedRedo(db, cur, h, i, n + 1);
    FoldedTarget(db, cur, m, h, base, i, n + 1);
    UptoAt(h, n);
    UptoMonotone(h, m.ckpt, h[n].ckpt);
  }

  // ── The two compactions ──

  lemma {:induction false} CompactionIs(c: Config, s: State, h: seq<Commit>, spec: Spec, pid: nat)
    requires Inv(c, s, h, spec) && s.phase.Idle? && pid in s.caches && Loadable(s, pid)
    ensures Compacted(c, s, if Snap(s, pid).phase.Snapped? then Finished(c, s, pid, false, UpperBound(s)) else s, h, pid)
  {
    hide Inv, Finished, FoldedUpTo, Apply, Fits, EndsAs;
    var upper := UpperBound(s);
    forall i | 0 <= i < |h| ensures Chosen(s, h, false, upper, i) <==> BelowRedo(s, h, i) {
    }
    InvParts(c, s, h, spec);
    NoneGathered(s, h, false, upper);
    if CkptLe(upper, s.base) {
      NothingChosen(s, h, false, upper);
    } else if Apply(s, false, upper) == [] {
      FinishedNone(c, s, pid, false, upper);
    } else {
      var n := FinishedIs(c, s, h, spec, pid, false, upper);
      assert BelowRedo(s, h, n);
      ReachedNewest(c, s, Finished(c, s, pid, false, upper), h, pid, n);
    }
  }

  lemma {:induction false} BoundedCompactionIs(c: Config, s: State, h: seq<Commit>, spec: Spec, pid: nat, target: Checkpoint)
    requires Inv(c, s, h, spec) && s.phase.Idle? && pid in s.caches && Loadable(s, pid)
    ensures CompactedThrough(c, s, if SnapThrough(s, pid, target).phase.Snapped? then Finished(c, s, pid, true, target) else s, h, pid, target)
  {
    hide Inv, Finished, FoldedUpTo, Apply, Fits, EndsAs;
    forall i | 0 <= i < |h| ensures Chosen(s, h, true, target, i) <==> UpToTarget(s, h, target, i) {
    }
    InvParts(c, s, h, spec);
    NoneGathered(s, h, true, target);
    if CkptLe(target, s.base) {
      NothingChosen(s, h, true, target);
    } else if Apply(s, true, target) == [] {
      FinishedNone(c, s, pid, true, target);
    } else {
      var n := FinishedIs(c, s, h, spec, pid, true, target);
      NewestReachesTarget(s, h, target, n);
      assert UpToTarget(s, h, target, n);
      ReachedTarget(c, s, Finished(c, s, pid, true, target), h, pid, target, n);
    }
  }

  lemma InvParts(c: Config, s: State, h: seq<Commit>, spec: Spec)
    requires Inv(c, s, h, spec)
    ensures Chain(h) && FilesInv(s, h) && s.head == HeadOf(h)
  {
  }

  lemma NothingChosen(s: State, h: seq<Commit>, through: bool, upper: Checkpoint)
    requires CkptLe(upper, s.base)
    ensures forall i :: 0 <= i < |h| ==> !Chosen(s, h, through, upper, i)
  {
  }

  lemma FinishedNone(c: Config, s: State, pid: nat, through: bool, upper: Checkpoint)
    requires pid in s.caches && Loadable(s, pid) && s.phase.Idle? && Apply(s, through, upper) == []
    ensures Finished(c, s, pid, through, upper) == s
  {
    hide Gather;
  }

  lemma ReachedNewest(c: Config, s: State, s1: State, h: seq<Commit>, pid: nat, n: nat)
    requires EndsAs(c, s, s1, h, pid, false, n)
    ensures n < |h| && FoldedUpTo(c, s, s1, h, pid, n, h[n].ckpt)
  {
  }

  lemma ReachedTarget(c: Config, s: State, s1: State, h: seq<Commit>, pid: nat, target: Checkpoint, n: nat)
    requires EndsAs(c, s, s1, h, pid, true, n) && Upto(h, target) == n + 1 && s.head == HeadOf(h)
    requires CkptLe(h[n].ckpt, target)
    ensures s1.base in s1.bases && s1.base == s1.bases[s1.base].ckpt && FoldedUpTo(c, s, s1, h, pid, n, s1.base)
    ensures Upto(h, s1.base) <= n + 1 && AllEmpty(h, Upto(h, s1.base), n + 1)
    ensures CkptLe(target, s.head) ==> Fits(c.db, s1.bases[s1.base], h, target)
  {
    hide Fits, Covers;
    if CkptLe(target, s.head) {
      FitsAtTarget(c.db, s1.bases[s1.base], h, h[n].ckpt, target);
    }
  }

  /** With the newest chosen commit in a file, so are all later ones: none is at or below the target. */
  lemma {:induction false} NewestReachesTarget(s: State, h: seq<Commit>, target: Checkpoint, n: nat)
    requires Chain(h) && FilesInv(s, h) && n < |h| && UpToTarget(s, h, target, n)
    requires forall i :: n < i < |h| ==> !UpToTarget(s, h, target, i)
    ensures Upto(h, target) == n + 1
  {
    if n + 1 < |h| {
      assert InFile(s, h[n + 1]);
      ChainOrder(h, n, n + 1);
      assert !UpToTarget(s, h, target, n + 1);
    }
    UptoIs(h, target, n + 1);
  }

  lemma {:induction false} FitsAtTarget(db: U64, m: Manifest, h: seq<Commit>, at: Checkpoint, target: Checkpoint)
    requires Fits(db, m, h, at) && Upto(h, at) == Upto(h, target) && CkptLe(at, target) && CkptLe(target, HeadOf(h))
    requires m.redo == RedoAt(h, Upto(h, at))
    ensures Fits(db, m, h, target)
  {
    hide Covers;
    var n := Upto(h, target);
    assert m.redo == RedoAt(h, n);
  }
}
