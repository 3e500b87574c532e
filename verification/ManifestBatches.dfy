/** Folding a list of checkpoints at once and in several batches. */
module ManifestBatches {
  import opened Types
  import opened WindowSpec
  import opened ManifestSpec
  import opened History

  lemma MergeAssociates(x: map<ChunkTag, ChunkRef>, y: map<ChunkTag, ChunkRef>, z: map<ChunkTag, ChunkRef>)
    ensures MergeChunks(MergeChunks(x, y), z) == MergeChunks(x, MergeChunks(y, z))
  {
  }

  function Single(db: U64, k: Commit): map<ChunkTag, ChunkRef> {
    map t | t in k.chunks :: RefOf(db, k)
  }

  lemma {:induction false} CombineSnoc(db: U64, ks: seq<Commit>, k: Commit)
    ensures Combine(db, ks + [k]) == MergeChunks(Combine(db, ks), Single(db, k))
  {
    var all := ks + [k];
    assert all[|all| - 1] == k && all[..|all| - 1] == ks;
  }

  lemma {:induction false} CombineAppend(db: U64, a: seq<Commit>, b: seq<Commit>)
    ensures Combine(db, a + b) == MergeChunks(Combine(db, a), Combine(db, b))
    decreases |b|
  {
    hide MergeChunks;
    if b == [] {
      assert a + b == a;
      MergeNone(Combine(db, a));
    } else {
      var init, k := b[..|b| - 1], b[|b| - 1];
      CombineAppend(db, a, init);
      CombineSnoc(db, init, k);
      CombineSnoc(db, a + init, k);
      assert a + b == (a + init) + [k] && b == init + [k];
      MergeAssociates(Combine(db, a), Combine(db, init), Single(db, k));
    }
  }

  lemma MergeNone(x: map<ChunkTag, ChunkRef>)
    ensures MergeChunks(x, map[]) == x
  {
  }

  lemma {:induction false} LastChangeAppend(from: Checkpoint, a: seq<Commit>, b: seq<Commit>)
    ensures LastChange(from, a + b) == LastChange(LastChange(from, a), b)
    decreases |b|
  {
    if b == [] {
      assert a + b == a;
    } else {
      var init, k := b[..|b| - 1], b[|b| - 1];
      LastChangeAppend(from, a, init);
      var all := a + b;
      assert all[..|all| - 1] == a + init && all[|all| - 1] == k;
    }
  }

  /** The chunk's reference does not come from before a cut at which its fork was deleted. */
  predicate Overwritten(before: map<ChunkTag, ChunkRef>, after: map<ChunkTag, ChunkRef>, t: ChunkTag) {
    t in before ==> t in after && (after[t].lsn > before[t].lsn || after[t] == before[t])
  }

  predicate SameAt<K, V(==)>(a: map<K, V>, b: map<K, V>, k: K) {
    (k in a <==> k in b) && (k in a ==> a[k] == b[k])
  }

  lemma SameMaps<K(!new), V>(a: map<K, V>, b: map<K, V>)
    ensures a == b <==> forall k :: SameAt(a, b, k)
  {
    if forall k :: SameAt(a, b, k) {
      forall k ensures (k in a <==> k in b) && (k in a ==> a[k] == b[k]) {
        assert SameAt(a, b, k);
      }
      assert a == b;
    }
  }

  /**
   * Chunks of a fork that is deleted at the cut (`mid`) and live again at the end are
   * the only ones that two batches may treat otherwise than one.
   */
  ghost predicate CleanCut(x: map<ChunkTag, ChunkRef>, z: map<ChunkTag, ChunkRef>, mid: map<RelFork, Meta>, end: map<RelFork, Meta>) {
    forall t: ChunkTag {:trigger Overwritten(x, z, t)} ::
      Deleted(mid, t.rf) && !Deleted(end, t.rf) ==> Overwritten(x, z, t)
  }

  lemma DropsAgreeAt(x: map<ChunkTag, ChunkRef>, z: map<ChunkTag, ChunkRef>, mid: map<RelFork, Meta>, end: map<RelFork, Meta>, t: ChunkTag)
    ensures SameAt(WithoutDeleted(MergeChunks(WithoutDeleted(x, mid), z), end), WithoutDeleted(MergeChunks(x, z), end), t)
            <==> (Deleted(mid, t.rf) && !Deleted(end, t.rf) ==> Overwritten(x, z, t))
  {
  }

  lemma DropsAgree(x: map<ChunkTag, ChunkRef>, z: map<ChunkTag, ChunkRef>, mid: map<RelFork, Meta>, end: map<RelFork, Meta>)
    ensures WithoutDeleted(MergeChunks(WithoutDeleted(x, mid), z), end) == WithoutDeleted(MergeChunks(x, z), end)
            <==> CleanCut(x, z, mid, end)
  {
    hide WithoutDeleted, MergeChunks, Deleted, Overwritten, SameAt;
    var two, one := WithoutDeleted(MergeChunks(WithoutDeleted(x, mid), z), end), WithoutDeleted(MergeChunks(x, z), end);
    forall t: ChunkTag
      ensures SameAt(two, one, t) <==> (Deleted(mid, t.rf) && !Deleted(end, t.rf) ==> Overwritten(x, z, t))
    {
      DropsAgreeAt(x, z, mid, end, t);
    }
    SameMaps(two, one);
  }

  ghost predicate CutIsClean(db: U64, m: Manifest, a: seq<Commit>, b: seq<Commit>) {
    var mid := m.meta + MetaFold(a);
    CleanCut(MergeChunks(m.chunks, Combine(db, a)), Combine(db, b), mid, mid + MetaFold(b))
  }

  lemma {:induction false} BatchParts(db: U64, m: Manifest, a: seq<Commit>, b: seq<Commit>)
    ensures var two := Folded(db, Folded(db, m, a), b);
            var one := Folded(db, m, a + b);
            && two.ckpt == one.ckpt && two.redo == one.redo && two.meta == one.meta
            && one.meta == (m.meta + MetaFold(a)) + MetaFold(b)
            && one.chunks == WithoutDeleted(MergeChunks(MergeChunks(m.chunks, Combine(db, a)), Combine(db, b)), one.meta)
  {
    hide MergeChunks, WithoutDeleted, MetaFold, LastChange, Combine;
    MetaFoldAppend(a, b);
    MapAssociates(m.meta, MetaFold(a), MetaFold(b));
    LastChangeAppend(m.ckpt, a, b);
    CombineAppend(db, a, b);
    MergeAssociates(m.chunks, Combine(db, a), Combine(db, b));
    if b == [] {
      assert a + b == a;
    } else {
      assert (a + b)[|a + b| - 1] == b[|b| - 1];
    }
  }

  /** Folding in two batches gives what one batch gives, exactly when the cut is clean. */
  lemma {:induction false} TwoBatchesIff(db: U64, m: Manifest, a: seq<Commit>, b: seq<Commit>)
    ensures Folded(db, Folded(db, m, a), b) == Folded(db, m, a + b) <==> CutIsClean(db, m, a, b)
  {
    hide MetaFold, LastChange, Combine, CleanCut, WithoutDeleted, MergeChunks;
    var mid := m.meta + MetaFold(a);
    BatchParts(db, m, a, b);
    DropsAgree(MergeChunks(m.chunks, Combine(db, a)), Combine(db, b), mid, mid + MetaFold(b));
  }

  // ── Any number of batches ──

  /** No fork deleted somewhere along the list is live again later in it. */
  ghost predicate NoneRevived(meta: map<RelFork, Meta>, ks: seq<Commit>) {
    forall i, j, rf {:trigger Deleted(meta + MetaFold(ks[..i]), rf), Deleted(meta + MetaFold(ks[..j]), rf)} ::
      0 <= i <= j <= |ks| && Deleted(meta + MetaFold(ks[..i]), rf) ==> Deleted(meta + MetaFold(ks[..j]), rf)
  }

  function FoldBatches(db: U64, m: Manifest, bs: seq<seq<Commit>>): Manifest {
    if bs == [] then m else Folded(db, FoldBatches(db, m, bs[..|bs| - 1]), bs[|bs| - 1])
  }

  function Flat(bs: seq<seq<Commit>>): seq<Commit> {
    if bs == [] then [] else Flat(bs[..|bs| - 1]) + bs[|bs| - 1]
  }

  lemma {:induction false} RevivedPrefix(meta: map<RelFork, Meta>, a: seq<Commit>, b: seq<Commit>)
    requires NoneRevived(meta, a + b)
    ensures NoneRevived(meta, a)
    ensures forall rf :: Deleted(meta + MetaFold(a), rf) ==> Deleted(meta + MetaFold(a) + MetaFold(b), rf)
  {
    hide MetaFold;
    var all := a + b;
    assert forall i :: 0 <= i <= |a| ==> all[..i] == a[..i];
    assert all[..|a|] == a && all[..|all|] == all;
    MetaFoldAppend(a, b);
    MapAssociates(meta, MetaFold(a), MetaFold(b));
  }

  /** However a list without revived forks is cut into batches, the fold is the same. */
  lemma {:induction false} ManyBatches(db: U64, m: Manifest, bs: seq<seq<Commit>>)
    requires bs != [] && NoneRevived(m.meta, Flat(bs))
    ensures FoldBatches(db, m, bs) == Folded(db, m, Flat(bs))
    decreases |bs|
  {
    hide Folded, MetaFold, Combine, MergeChunks, WithoutDeleted;
    var init, last := bs[..|bs| - 1], bs[|bs| - 1];
    var a := Flat(init);
    RevivedPrefix(m.meta, a, last);
    if init == [] {
      assert a + last == last;
    } else {
      ManyBatches(db, m, init);
      CleanIfNoneRevived(db, m, a, last);
      TwoBatchesIff(db, m, a, last);
    }
  }

  lemma {:induction false} CleanIfNoneRevived(db: U64, m: Manifest, a: seq<Commit>, b: seq<Commit>)
    requires forall rf :: Deleted(m.meta + MetaFold(a), rf) ==> Deleted(m.meta + MetaFold(a) + MetaFold(b), rf)
    ensures CutIsClean(db, m, a, b)
  {
    hide MetaFold, Combine, MergeChunks, Overwritten;
  }

  // ── A fork that is dropped and created again ──

  /**
   * A chunk written before its fork was dropped, the fork created again without a
   * new write to it: one batch keeps the old chunk, two batches drop it.
   */
  lemma {:induction false} RevivedForkDiffers(db: U64, t: ChunkTag)
    ensures t in Folded(db, EMPTY, [Write(t), Drop(t), Create(t)]).chunks
    ensures t !in Folded(db, Folded(db, EMPTY, [Write(t), Drop(t)]), [Create(t)]).chunks
  {
    hide Combine, MetaFold, LastChange;
    FoldOne(db, Write(t));
    FoldSnoc(db, [Write(t)], Drop(t));
    FoldSnoc(db, [Write(t), Drop(t)], Create(t));
    FoldOne(db, Create(t));
    assert [Write(t)] + [Drop(t)] == [Write(t), Drop(t)];
    assert [Write(t), Drop(t)] + [Create(t)] == [Write(t), Drop(t), Create(t)];
    assert Single(db, Drop(t)) == map[] == Single(db, Create(t));
  }

  function Write(t: ChunkTag): Commit {
    Commit(Checkpoint(1, 10), GENESIS, GENESIS, {t}, map[t.rf := Meta(1, false)])
  }

  function Drop(t: ChunkTag): Commit {
    Commit(Checkpoint(1, 20), Checkpoint(1, 10), GENESIS, {}, map[t.rf := Meta(0, true)])
  }

  function Create(t: ChunkTag): Commit {
    Commit(Checkpoint(1, 30), Checkpoint(1, 20), GENESIS, {}, map[t.rf := Meta(0, false)])
  }

  lemma {:induction false} FoldOne(db: U64, k: Commit)
    ensures MetaFold([k]) == k.relforks && Combine(db, [k]) == Single(db, k)
  {
    assert [k][..0] == [];
  }

  lemma {:induction false} FoldSnoc(db: U64, ks: seq<Commit>, k: Commit)
    ensures MetaFold(ks + [k]) == MetaFold(ks) + k.relforks
    ensures Combine(db, ks + [k]) == MergeChunks(Combine(db, ks), Single(db, k))
  {
    MetaFoldStep(ks, k);
    CombineSnoc(db, ks, k);
  }
}
