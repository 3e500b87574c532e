/**
 * The list of all commits ever made, oldest first. It is the yardstick for the
 * store: no layer keeps it whole, but each layer is a view of part of it.
 */
module History {
  import opened Types
  import opened WindowSpec
  import opened ManifestSpec

  /** A later checkpoint: LSN strictly higher, timeline not lower. */
  predicate Before(a: Checkpoint, b: Checkpoint) {
    a.tl <= b.tl && a.lsn < b.lsn
  }

  function HeadOf(h: seq<Commit>): Checkpoint {
    if h == [] then GENESIS else h[|h| - 1].ckpt
  }

  /** Each commit starts where the one before it ended. */
  ghost predicate Chain(h: seq<Commit>) {
    forall i :: 0 <= i < |h| ==> h[i].prev == HeadOf(h[..i]) && Before(h[i].prev, h[i].ckpt)
  }

  lemma {:induction false} ChainOrder(h: seq<Commit>, i: nat, j: nat)
    requires Chain(h) && i < j < |h|
    ensures Before(h[i].ckpt, h[j].ckpt)
    ensures Before(h[i].prev, h[j].prev)
    ensures h[i].ckpt == h[j].prev || Before(h[i].ckpt, h[j].prev)
    decreases j
  {
    assert h[j].prev == HeadOf(h[..j]) == h[j - 1].ckpt;
    if i < j - 1 {
      ChainOrder(h, i, j - 1);
    }
  }

  lemma ChainPrefix(h: seq<Commit>, k: nat)
    requires Chain(h) && k <= |h|
    ensures Chain(h[..k])
  {
    forall i | 0 <= i < k ensures h[..k][i].prev == HeadOf(h[..k][..i]) {
      assert h[..k][..i] == h[..i];
    }
  }

  lemma ChainExtend(h: seq<Commit>, k: Commit)
    requires Chain(h) && k.prev == HeadOf(h) && Before(k.prev, k.ckpt)
    ensures Chain(h + [k])
  {
    var g := h + [k];
    forall i | 0 <= i < |g| ensures g[i].prev == HeadOf(g[..i]) && Before(g[i].prev, g[i].ckpt) {
      assert g[..i] == h[..i];
      if i == |h| {
        assert h[..i] == h;
      }
    }
  }

  lemma HeadIsHighest(h: seq<Commit>, i: nat)
    requires Chain(h) && i < |h|
    ensures CkptLe(h[i].ckpt, HeadOf(h)) && CkptLess(GENESIS, h[i].ckpt) && h[i].ckpt.lsn > 0
    ensures Before(h[i].prev, HeadOf(h)) && CkptLe(GENESIS, h[i].prev)
  {
    assert h[0].prev == HeadOf(h[..0]) == GENESIS;
    if 0 < i {
      ChainOrder(h, 0, i);
    }
    if i < |h| - 1 {
      ChainOrder(h, i, |h| - 1);
    }
  }

  // ── Which commit last touched a chunk ──

  /** Index of the newest commit that holds `t`, or -1. */
  function LastIdx(h: seq<Commit>, t: ChunkTag): (r: int)
    ensures -1 <= r < |h|
    ensures r >= 0 ==> t in h[r].chunks
    ensures forall i :: r < i < |h| ==> t !in h[i].chunks
  {
    if h == [] then
      -1
    else if t in h[|h| - 1].chunks then
      |h| - 1
    else
      var r := LastIdx(h[..|h| - 1], t);
      assert forall i :: r < i < |h| - 1 ==> h[..|h| - 1][i] == h[i];
      r
  }

  lemma LastIdxIs(h: seq<Commit>, t: ChunkTag, r: int)
    requires -1 <= r < |h| && (r >= 0 ==> t in h[r].chunks)
    requires forall i :: r < i < |h| ==> t !in h[i].chunks
    ensures LastIdx(h, t) == r
  {
    var l := LastIdx(h, t);
    assert r >= 0 ==> r <= l;
  }

  lemma {:induction false} LastIdxSnoc(h: seq<Commit>, k: Commit, t: ChunkTag)
    ensures LastIdx(h + [k], t) == if t in k.chunks then |h| else LastIdx(h, t)
  {
    var g := h + [k];
    assert g[..|g| - 1] == h && g[|g| - 1] == k;
  }

  /** Dropping commits that do not hold `t` changes nothing. */
  lemma LastIdxPrefix(h: seq<Commit>, t: ChunkTag, k: nat)
    requires k <= |h|
    ensures LastIdx(h, t) < k ==> LastIdx(h[..k], t) == LastIdx(h, t)
    ensures LastIdx(h[..k], t) >= 0 ==> LastIdx(h, t) >= LastIdx(h[..k], t)
  {
    var r := LastIdx(h, t);
    if r < k {
      LastIdxIs(h[..k], t, r);
    }
    var q := LastIdx(h[..k], t);
    assert q >= 0 ==> t in h[q].chunks;
  }

  // ── How many commits lie at or below a checkpoint ──

  function Upto(h: seq<Commit>, c: Checkpoint): (n: nat)
    ensures n <= |h|
  {
    if h == [] then 0
    else if CkptLe(h[|h| - 1].ckpt, c) then |h|
    else Upto(h[..|h| - 1], c)
  }

  lemma {:induction false} UptoSplits(h: seq<Commit>, c: Checkpoint, i: nat)
    requires Chain(h) && i < |h|
    ensures i < Upto(h, c) <==> CkptLe(h[i].ckpt, c)
    decreases |h|
  {
    var last := |h| - 1;
    if CkptLe(h[last].ckpt, c) {
      if i < last {
        ChainOrder(h, i, last);
      }
    } else if i < last {
      ChainPrefix(h, last);
      UptoSplits(h[..last], c, i);
      assert h[..last][i] == h[i];
    }
  }

  lemma UptoIs(h: seq<Commit>, c: Checkpoint, n: nat)
    requires Chain(h) && n <= |h|
    requires n > 0 ==> CkptLe(h[n - 1].ckpt, c)
    requires n < |h| ==> !CkptLe(h[n].ckpt, c)
    ensures Upto(h, c) == n
  {
    if n > 0 { UptoSplits(h, c, n - 1); }
    if n < |h| { UptoSplits(h, c, n); }
  }

  /** A new commit above `c` is not counted. */
  lemma {:induction false} UptoExtend(h: seq<Commit>, k: Commit, c: Checkpoint)
    requires Chain(h) && k.prev == HeadOf(h) && Before(k.prev, k.ckpt) && CkptLe(c, HeadOf(h))
    ensures Upto(h + [k], c) == Upto(h, c)
  {
    var g := h + [k];
    assert g[|g| - 1] == k;
    assert g[..|g| - 1] == h;
  }

  lemma UptoMonotone(h: seq<Commit>, a: Checkpoint, b: Checkpoint)
    requires Chain(h) && CkptLe(a, b)
    ensures Upto(h, a) <= Upto(h, b)
  {
    var n := Upto(h, a);
    if n > 0 {
      UptoSplits(h, a, n - 1);
      UptoSplits(h, b, n - 1);
    }
  }

  /** The prefix of commits at or below `c`. */
  function Below(h: seq<Commit>, c: Checkpoint): seq<Commit> {
    h[..Upto(h, c)]
  }

  ghost predicate AllEmpty(h: seq<Commit>, i: int, j: int)
    requires 0 <= i && j <= |h|
  {
    forall k :: i <= k < j ==> IsEmpty(h[k])
  }

  // ── Metadata ──

  lemma MapAssociates<K, V>(a: map<K, V>, b: map<K, V>, c: map<K, V>)
    ensures (a + b) + c == a + (b + c)
  {
  }

  lemma {:induction false} MetaFoldStep(ks: seq<Commit>, k: Commit)
    ensures MetaFold(ks + [k]) == MetaFold(ks) + k.relforks
  {
    var all := ks + [k];
    assert all[..|all| - 1] == ks && all[|all| - 1] == k;
  }

  lemma {:induction false} MetaFoldAppend(p: seq<Commit>, ks: seq<Commit>)
    ensures MetaFold(p + ks) == MetaFold(p) + MetaFold(ks)
    decreases |ks|
  {
    if ks == [] {
      assert p + ks == p;
    } else {
      hide MetaFold;
      var init, k := ks[..|ks| - 1], ks[|ks| - 1];
      MetaFoldAppend(p, init);
      MetaFoldStep(init, k);
      MetaFoldStep(p + init, k);
      assert ks == init + [k] && p + ks == (p + init) + [k];
      MapAssociates(MetaFold(p), MetaFold(init), k.relforks);
    }
  }

  lemma {:induction false} MetaFoldEmpty(h: seq<Commit>, k: nat, j: nat)
    requires k <= j <= |h| && AllEmpty(h, k, j)
    ensures MetaFold(h[..j]) == MetaFold(h[..k])
    decreases j
  {
    if k < j {
      MetaFoldEmpty(h, k, j - 1);
      assert h[..j][..j - 1] == h[..j - 1];
      assert IsEmpty(h[j - 1]);
    }
  }

  // ── What a manifest holds of a prefix of commits ──

  /** The fork is live after commit `w` and at every later commit of `p`. */
  ghost predicate LiveSince(p: seq<Commit>, w: int, rf: RelFork) {
    forall j :: w < j <= |p| && 0 <= j ==> !Deleted(MetaFold(p[..j]), rf)
  }

  /**
   * `m` represents exactly the commits of `p`: the metadata is their fold, every
   * reference is to the newest version, and only forks that were deleted at some
   * point since that version may have lost it.
   */
  ghost predicate Covers(db: U64, m: Manifest, p: seq<Commit>) {
    && m.meta == MetaFold(p)
    && (forall t {:trigger t in m.chunks} :: t in m.chunks ==>
          LastIdx(p, t) >= 0 && m.chunks[t] == RefOf(db, p[LastIdx(p, t)]))
    && (forall t {:trigger t in m.chunks} :: LastIdx(p, t) >= 0 && LiveSince(p, LastIdx(p, t), t.rf) ==> t in m.chunks)
  }

  /** One more checkpoint with a higher prefix LSN overrides its chunks. */
  lemma {:induction false} CombineStep(db: U64, ks: seq<Commit>, k: Commit, t: ChunkTag)
    requires t in Combine(db, ks) ==> Combine(db, ks)[t].lsn < k.prev.lsn
    ensures t in Combine(db, ks + [k]) <==> t in k.chunks || t in Combine(db, ks)
    ensures t in k.chunks ==> Combine(db, ks + [k])[t] == RefOf(db, k)
    ensures t !in k.chunks && t in Combine(db, ks) ==> Combine(db, ks + [k])[t] == Combine(db, ks)[t]
  {
    var all := ks + [k];
    assert all[|all| - 1] == k && all[..|all| - 1] == ks;
  }

  /** The reference a fold gives a chunk is the one of the newest commit that holds it. */
  lemma {:induction false} CombineIsLast(db: U64, p: seq<Commit>, ks: seq<Commit>, t: ChunkTag)
    requires Chain(p + ks)
    ensures t in Combine(db, ks) <==> LastIdx(p + ks, t) >= |p|
    ensures t in Combine(db, ks) ==> Combine(db, ks)[t] == RefOf(db, (p + ks)[LastIdx(p + ks, t)])
    decreases |ks|
  {
    if ks != [] {
      hide Combine, LastIdx;
      var init, k := ks[..|ks| - 1], ks[|ks| - 1];
      var g := p + init;
      assert p + ks == g + [k] && ks == init + [k];
      ChainInit(g, k);
      CombineIsLast(db, p, init, t);
      var w := LastIdx(g, t);
      if w >= |p| {
        ChainOrder(g + [k], w, |g|);
      }
      CombineStep(db, init, k, t);
      LastIdxSnoc(g, k, t);
    }
  }

  lemma ChainInit(g: seq<Commit>, k: Commit)
    requires Chain(g + [k])
    ensures Chain(g)
  {
    ChainPrefix(g + [k], |g|);
    assert (g + [k])[..|g|] == g;
  }

  lemma LiveSincePrefix(p: seq<Commit>, k: nat, w: int, rf: RelFork)
    requires k <= |p| && LiveSince(p, w, rf)
    ensures LiveSince(p[..k], w, rf)
  {
    forall j | w < j <= k && 0 <= j ensures !Deleted(MetaFold(p[..k][..j]), rf) {
      assert p[..k][..j] == p[..j];
    }
  }

  /** Folding the next commits of the history into a manifest that covers a prefix. */
  lemma {:induction false} FoldedCovers(db: U64, m: Manifest, h: seq<Commit>, k: nat, j: nat)
    requires Chain(h) && k <= j <= |h| && Covers(db, m, h[..k])
    ensures Covers(db, Folded(db, m, h[k..j]), h[..j])
  {
    var f := Folded(db, m, h[k..j]);
    var p := h[..j];
    assert f.meta == MetaFold(p) by {
      assert p == h[..k] + h[k..j];
      MetaFoldAppend(h[..k], h[k..j]);
    }
    assert p[..j] == p;
    forall t | t in f.chunks
      ensures LastIdx(p, t) >= 0 && f.chunks[t] == RefOf(db, p[LastIdx(p, t)])
    {
      FoldedChunk(db, m, h, k, j, t);
    }
    forall t | LastIdx(p, t) >= 0 && LiveSince(p, LastIdx(p, t), t.rf)
      ensures t in f.chunks
    {
      FoldedChunk(db, m, h, k, j, t);
      assert !Deleted(MetaFold(p[..|p|]), t.rf);
    }
  }

  lemma {:induction false} FoldedChunk(db: U64, m: Manifest, h: seq<Commit>, k: nat, j: nat, t: ChunkTag)
    requires Chain(h) && k <= j <= |h| && Covers(db, m, h[..k])
    ensures var all := MergeChunks(m.chunks, Combine(db, h[k..j]));
            && (t in all ==> LastIdx(h[..j], t) >= 0 && all[t] == RefOf(db, h[LastIdx(h[..j], t)]))
            && (LastIdx(h[..j], t) >= 0 && LiveSince(h[..j], LastIdx(h[..j], t), t.rf) ==> t in all)
  {
    assert h[..k] + h[k..j] == h[..j];
    ChainPrefix(h, j);
    CombineIsLast(db, h[..k], h[k..j], t);
    LastIdxPrefix(h[..j], t, k);
    assert h[..j][..k] == h[..k];
    var w := LastIdx(h[..j], t);
    if t in m.chunks && w >= k {
      var b := LastIdx(h[..k], t);
      assert m.chunks[t] == RefOf(db, h[b]);
      ChainOrder(h, b, w);
    }
    if 0 <= w < k && LiveSince(h[..j], w, t.rf) {
      LiveSincePrefix(h[..j], k, w, t.rf);
    }
  }

  /** Commits that change nothing do not matter to what a manifest covers. */
  lemma {:induction false} CoversEmpty(db: U64, m: Manifest, h: seq<Commit>, k: nat, j: nat)
    requires k <= j <= |h| && AllEmpty(h, k, j)
    ensures Covers(db, m, h[..k]) <==> Covers(db, m, h[..j])
  {
    MetaFoldEmpty(h, k, j);
    forall t
      ensures LastIdx(h[..j], t) == LastIdx(h[..k], t)
    {
      LastIdxEmpty(h, k, j, t);
    }
    forall t | LastIdx(h[..k], t) >= 0
      ensures LiveSince(h[..k], LastIdx(h[..k], t), t.rf) <==> LiveSince(h[..j], LastIdx(h[..j], t), t.rf)
    {
      LiveSinceEmpty(h, k, j, LastIdx(h[..k], t), t.rf);
    }
  }

  lemma LastIdxEmpty(h: seq<Commit>, k: nat, j: nat, t: ChunkTag)
    requires k <= j <= |h| && AllEmpty(h, k, j)
    ensures LastIdx(h[..j], t) == LastIdx(h[..k], t)
  {
    var r := LastIdx(h[..k], t);
    forall i | r < i < j ensures t !in h[..j][i].chunks {
      if i < k {
        assert h[..j][i] == h[..k][i];
      } else {
        assert IsEmpty(h[i]);
      }
    }
    LastIdxIs(h[..j], t, r);
  }

  lemma LiveSinceEmpty(h: seq<Commit>, k: nat, j: nat, w: int, rf: RelFork)
    requires 0 <= w < k <= j <= |h| && AllEmpty(h, k, j)
    ensures LiveSince(h[..k], w, rf) <==> LiveSince(h[..j], w, rf)
  {
    assert h[..j][..k] == h[..k];
    if LiveSince(h[..j], w, rf) {
      LiveSincePrefix(h[..j], k, w, rf);
    }
    if LiveSince(h[..k], w, rf) {
      forall i | w < i <= j ensures !Deleted(MetaFold(h[..j][..i]), rf) {
        assert h[..j][..i] == h[..i];
        if i <= k {
          assert h[..k][..i] == h[..i];
        } else {
          MetaFoldEmpty(h, k, i);
          assert h[..k][..k] == h[..k];
        }
      }
    }
  }

  /** The empty manifest covers no commits. */
  lemma EmptyCovers(db: U64)
    ensures Covers(db, EMPTY, [])
  {
  }

  /** `LastChange` names the last commit of the slice that is not empty. */
  lemma {:induction false} LastChangeIs(h: seq<Commit>, k: nat, j: nat, from: Checkpoint)
    requires Chain(h) && k <= j <= |h|
    ensures var c := LastChange(from, h[k..j]);
            || (c == from && AllEmpty(h, k, j))
            || (exists i :: k <= i < j && h[i].ckpt == c && !IsEmpty(h[i]) && AllEmpty(h, i + 1, j))
    decreases j
  {
    if k < j {
      assert h[k..j][..j - k - 1] == h[k..j - 1];
      if IsEmpty(h[j - 1]) {
        LastChangeIs(h, k, j - 1, from);
      } else {
        assert h[j - 1].ckpt == LastChange(from, h[k..j]) && AllEmpty(h, j, j);
      }
    }
  }
}
