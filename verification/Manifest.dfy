/**
 * `apply_segments`: collect the chunks of the folded checkpoints, sort, drop all but
 * the highest LSN of each chunk, merge with the base list by two pointers, and drop
 * deleted forks. The lists it returns are the sorted lists of `ManifestSpec.Folded`.
 */
module Manifest {
  import opened Types
  import opened WindowSpec
  import opened ManifestSpec
  import opened SortedLists

  type Entry = (ChunkTag, ChunkRef)

  type MetaEntry = (RelFork, Meta)

  /** A base manifest as its file holds it. */
  datatype Tables = Tables(ckpt: Checkpoint, redo: Checkpoint, chunks: seq<Entry>, meta: seq<MetaEntry>)

  ghost predicate Represents(a: Tables, m: Manifest) {
    && a.ckpt == m.ckpt && a.redo == m.redo
    && Lists(a.chunks, m.chunks, TagRank) && Lists(a.meta, m.meta, RfRank)
  }

  lemma TagRankIsInjective()
    ensures Injective(TagRank) && Injective(RfRank)
  {
    forall a: ChunkTag, b: ChunkTag ensures TagRank(a) == TagRank(b) ==> a == b {
      RankIsOrder(a, b);
    }
    forall a: RelFork, b: RelFork ensures RfRank(a) == RfRank(b) ==> a == b {
      RfRankIsOrder(a, b);
    }
  }

  // ── 1. Collect ──

  /** The folded checkpoints contribute exactly these (tag, reference) pairs. */
  ghost predicate Contributes(db: U64, ks: seq<Commit>, e: Entry) {
    exists i :: 0 <= i < |ks| && e.0 in ks[i].chunks && e.1 == RefOf(db, ks[i])
  }

  ghost predicate Collected(db: U64, ks: seq<Commit>, es: seq<Entry>) {
    forall e: Entry {:trigger e in es} :: e in es <==> Contributes(db, ks, e)
  }

  method ListChunks(chunks: set<ChunkTag>, r: ChunkRef) returns (es: seq<Entry>)
    ensures forall e: Entry :: e in es <==> e.0 in chunks && e.1 == r
  {
    es := [];
    var rest := chunks;
    while rest != {}
      invariant rest <= chunks
      invariant forall e: Entry :: e in es <==> e.0 in chunks - rest && e.1 == r
      decreases |rest|
    {
      var t :| t in rest;
      es := es + [(t, r)];
      rest := rest - {t};
    }
  }

  lemma ContributesSnoc(db: U64, ks: seq<Commit>, k: Commit, e: Entry)
    ensures Contributes(db, ks + [k], e) <==> Contributes(db, ks, e) || (e.0 in k.chunks && e.1 == RefOf(db, k))
  {
    var all := ks + [k];
    if Contributes(db, ks, e) {
      var i :| 0 <= i < |ks| && e.0 in ks[i].chunks && e.1 == RefOf(db, ks[i]);
      assert all[i] == ks[i];
    }
    if e.0 in k.chunks && e.1 == RefOf(db, k) {
      assert all[|ks|] == k;
    }
  }

  lemma CollectedNone(db: U64)
    ensures Collected(db, [], [])
  {
  }

  lemma CollectedSnoc(db: U64, ks: seq<Commit>, k: Commit, es: seq<Entry>, more: seq<Entry>)
    requires Collected(db, ks, es)
    requires forall e: Entry :: e in more <==> e.0 in k.chunks && e.1 == RefOf(db, k)
    ensures Collected(db, ks + [k], es + more)
  {
    forall e: Entry ensures e in es + more <==> Contributes(db, ks + [k], e) {
      ContributesSnoc(db, ks, k, e);
    }
  }

  lemma {:induction false} FoldSnoc(ks: seq<Commit>, k: Commit, from: Checkpoint)
    ensures MetaFold(ks + [k]) == MetaFold(ks) + k.relforks
    ensures LastChange(from, ks + [k]) == if IsEmpty(k) then LastChange(from, ks) else k.ckpt
  {
    var all := ks + [k];
    assert all[|all| - 1] == k && all[..|all| - 1] == ks;
  }

  method CollectAll(db: U64, from: Checkpoint, ks: seq<Commit>)
    returns (es: seq<Entry>, newMeta: map<RelFork, Meta>, last: Checkpoint)
    ensures Collected(db, ks, es)
    ensures newMeta == MetaFold(ks) && last == LastChange(from, ks)
  {
    hide Collected;
    es, newMeta, last := [], map[], from;
    CollectedNone(db);
    for n := 0 to |ks|
      invariant Collected(db, ks[..n], es)
      invariant newMeta == MetaFold(ks[..n]) && last == LastChange(from, ks[..n])
    {
      var k := ks[n];
      FoldSnoc(ks[..n], k, from);
      assert ks[..n + 1] == ks[..n] + [k];
      if k.chunks != {} || k.relforks != map[] {
        last := k.ckpt;
      }
      var more := ListChunks(k.chunks, RefOf(db, k));
      CollectedSnoc(db, ks[..n], k, es, more);
      es := es + more;
      newMeta := newMeta + k.relforks;
    }
    assert ks[..|ks|] == ks;
  }

  // ── 2. Sort and drop all but the highest LSN ──

  /** By tag ascending, then by LSN descending. */
  predicate EntryLe(a: Entry, b: Entry, rank: ChunkTag -> int) {
    rank(a.0) < rank(b.0) || (rank(a.0) == rank(b.0) && a.1.lsn >= b.1.lsn)
  }

  ghost predicate InOrder(s: seq<Entry>, rank: ChunkTag -> int) {
    forall i, j :: 0 <= i < j < |s| ==> EntryLe(s[i], s[j], rank)
  }

  lemma InsertInOrder(s: seq<Entry>, i: nat, e: Entry, rank: ChunkTag -> int)
    requires i <= |s| && InOrder(s, rank)
    requires forall j :: 0 <= j < i ==> EntryLe(s[j], e, rank)
    requires forall j :: i <= j < |s| ==> EntryLe(e, s[j], rank)
    ensures InOrder(s[..i] + [e] + s[i..], rank)
    ensures multiset(s[..i] + [e] + s[i..]) == multiset(s) + multiset{e}
  {
    assert s == s[..i] + s[i..];
  }

  /** The library sort: some ordered permutation, so ties may come out either way. */
  method SortEntries(es: seq<Entry>, rank: ChunkTag -> int) returns (s: seq<Entry>)
    ensures InOrder(s, rank) && multiset(s) == multiset(es)
  {
    s := [];
    for n := 0 to |es|
      invariant InOrder(s, rank) && multiset(s) == multiset(es[..n])
    {
      var i := 0;
      while i < |s| && EntryLe(s[i], es[n], rank)
        invariant i <= |s|
        invariant forall j :: 0 <= j < i ==> EntryLe(s[j], es[n], rank)
      {
        i := i + 1;
      }
      InsertInOrder(s, i, es[n], rank);
      s := s[..i] + [es[n]] + s[i..];
      assert es[..n + 1] == es[..n] + [es[n]];
    }
    assert es[..|es|] == es;
  }

  /** For each tag of `es`, one of its entries with the highest LSN. */
  ghost predicate Highest(es: seq<Entry>, m: map<ChunkTag, ChunkRef>) {
    && (forall t :: t in m ==> (t, m[t]) in es)
    && (forall e: Entry :: e in es ==> e.0 in m && e.1.lsn <= m[e.0].lsn)
  }

  /** Keep the first entry of each run of equal tags. */
  method Dedup(s: seq<Entry>, rank: ChunkTag -> int) returns (out: seq<Entry>, ghost m: map<ChunkTag, ChunkRef>)
    requires InOrder(s, rank) && Injective(rank)
    ensures Lists(out, m, rank) && Highest(s, m)
  {
    hide Lists, Highest, InOrder, Injective;
    out, m := [], map[];
    NoneListed<ChunkTag, ChunkRef>(rank);
    NoneHighest();
    assert s[..0] == [];
    for n := 0 to |s|
      invariant Lists(out, m, rank) && Highest(s[..n], m)
      invariant if n == 0 then out == [] else out != [] && out[|out| - 1].0 == s[n - 1].0
    {
      assert s[..n + 1] == s[..n] + [s[n]];
      if out == [] || out[|out| - 1].0 != s[n].0 {
        DedupFresh(s, n, out, m, rank);
        m := m[s[n].0 := s[n].1];
        out := out + [s[n]];
      } else {
        DedupRepeat(s, n, m, rank);
      }
    }
    assert s[..|s|] == s;
  }

  lemma NoneHighest()
    ensures Highest([], map[])
  {
  }

  lemma DedupFresh(s: seq<Entry>, n: nat, out: seq<Entry>, m: map<ChunkTag, ChunkRef>, rank: ChunkTag -> int)
    requires n < |s| && InOrder(s, rank) && Injective(rank) && Lists(out, m, rank) && Highest(s[..n], m)
    requires n > 0 ==> out != [] && out[|out| - 1].0 == s[n - 1].0
    requires out == [] || out[|out| - 1].0 != s[n].0
    ensures Lists(out + [s[n]], m[s[n].0 := s[n].1], rank)
    ensures Highest(s[..n] + [s[n]], m[s[n].0 := s[n].1])
  {
    var e := s[n];
    if n > 0 {
      assert EntryLe(s[n - 1], e, rank);
      assert rank(s[n - 1].0) < rank(e.0);
    }
    assert out == [] ==> n == 0;
    assert forall i :: 0 <= i < |out| ==> rank(out[i].0) < rank(e.0);
    ListsSnoc(out, m, rank, e);
    HighestSnoc(s[..n], m, e);
  }

  lemma HighestSnoc(es: seq<Entry>, m: map<ChunkTag, ChunkRef>, e: Entry)
    requires Highest(es, m) && e.0 !in m
    ensures Highest(es + [e], m[e.0 := e.1])
  {
  }

  lemma DedupRepeat(s: seq<Entry>, n: nat, m: map<ChunkTag, ChunkRef>, rank: ChunkTag -> int)
    requires 0 < n < |s| && InOrder(s, rank) && Highest(s[..n], m) && s[n - 1].0 == s[n].0
    ensures Highest(s[..n] + [s[n]], m)
  {
    assert EntryLe(s[n - 1], s[n], rank);
    assert s[..n][n - 1] == s[n - 1];
    assert s[n - 1] in s[..n];
  }

  /** A key above all others goes to the end of the list. */
  lemma ListsSnoc<K(!new), V>(s: seq<(K, V)>, m: map<K, V>, rank: K -> int, e: (K, V))
    requires Lists(s, m, rank) && forall i :: 0 <= i < |s| ==> rank(s[i].0) < rank(e.0)
    ensures Lists(s + [e], m[e.0 := e.1], rank) && e.0 !in m
  {
    HasSnocAll(s, e);
    assert !Has(s, e.0);
  }

  // ── 3. Two-pointer merge ──

  /** Where the merge stands: `out` lists the first `bi` and `ci` entries of its inputs. */
  ghost predicate Merging(base: seq<Entry>, add: seq<Entry>, bi: nat, ci: nat, out: seq<Entry>,
                          all: map<ChunkTag, ChunkRef>, rank: ChunkTag -> int)
  {
    && bi <= |base| && ci <= |add|
    && Ascending(out, rank) && Within(out, all)
    && (forall k :: Has(out, k) <==> Has(base[..bi], k) || Has(add[..ci], k))
    && (bi < |base| ==> forall i :: 0 <= i < |out| ==> rank(out[i].0) < rank(base[bi].0))
    && (ci < |add| ==> forall i :: 0 <= i < |out| ==> rank(out[i].0) < rank(add[ci].0))
  }

  method Merge(base: seq<Entry>, add: seq<Entry>, rank: ChunkTag -> int,
               ghost mb: map<ChunkTag, ChunkRef>, ghost ma: map<ChunkTag, ChunkRef>)
    returns (out: seq<Entry>)
    requires Lists(base, mb, rank) && Lists(add, ma, rank) && Injective(rank)
    ensures Lists(out, MergeChunks(mb, ma), rank)
  {
    hide Merging, Lists, MergeChunks, Injective;
    ghost var all := MergeChunks(mb, ma);
    out := [];
    var bi, ci := 0, 0;
    MergeStart(base, add, all, rank);
    while bi < |base| && ci < |add|
      invariant bi <= |base| && ci <= |add| && Merging(base, add, bi, ci, out, all, rank)
    {
      if rank(base[bi].0) < rank(add[ci].0) {
        TakeBase(base, add, bi, ci, out, mb, ma, rank);
        out := out + [base[bi]];
        bi := bi + 1;
      } else if rank(base[bi].0) > rank(add[ci].0) {
        TakeAdd(base, add, bi, ci, out, mb, ma, rank);
        out := out + [add[ci]];
        ci := ci + 1;
      } else {
        TakeBoth(base, add, bi, ci, out, mb, ma, rank);
        if add[ci].1.lsn > base[bi].1.lsn {
          out := out + [add[ci]];
        } else {
          out := out + [base[bi]];
        }
        bi, ci := bi + 1, ci + 1;
      }
    }
    while bi < |base|
      invariant bi <= |base| && ci <= |add| && (bi == |base| || ci == |add|)
      invariant Merging(base, add, bi, ci, out, all, rank)
    {
      TakeBase(base, add, bi, ci, out, mb, ma, rank);
      out := out + [base[bi]];
      bi := bi + 1;
    }
    while ci < |add|
      invariant bi == |base| && ci <= |add| && Merging(base, add, bi, ci, out, all, rank)
    {
      TakeAdd(base, add, bi, ci, out, mb, ma, rank);
      out := out + [add[ci]];
      ci := ci + 1;
    }
    MergeEnd(base, add, out, mb, ma, rank);
  }

  lemma MergeStart(base: seq<Entry>, add: seq<Entry>, all: map<ChunkTag, ChunkRef>, rank: ChunkTag -> int)
    ensures Merging(base, add, 0, 0, [], all, rank)
  {
  }

  lemma MergeEnd(base: seq<Entry>, add: seq<Entry>, out: seq<Entry>,
                 mb: map<ChunkTag, ChunkRef>, ma: map<ChunkTag, ChunkRef>, rank: ChunkTag -> int)
    requires Lists(base, mb, rank) && Lists(add, ma, rank)
    requires Merging(base, add, |base|, |add|, out, MergeChunks(mb, ma), rank)
    ensures Lists(out, MergeChunks(mb, ma), rank)
  {
    assert base[..|base|] == base && add[..|add|] == add;
  }

  /** A key below the next entry and not among the first `n` is not in the list at all. */
  lemma Absent(s: seq<Entry>, m: map<ChunkTag, ChunkRef>, n: nat, k: ChunkTag, rank: ChunkTag -> int)
    requires Lists(s, m, rank) && n <= |s| && !Has(s[..n], k)
    requires n < |s| ==> rank(k) < rank(s[n].0)
    ensures k !in m
  {
    forall i | 0 <= i < |s| ensures s[i].0 != k {
      if i < n {
        assert s[..n][i] == s[i];
      }
    }
    assert !Has(s, k);
  }

  /** Appending the least remaining entry and moving the pointers past its key. */
  lemma Take(base: seq<Entry>, add: seq<Entry>, bi: nat, ci: nat, bj: nat, cj: nat, out: seq<Entry>, e: Entry,
             all: map<ChunkTag, ChunkRef>, rank: ChunkTag -> int)
    requires Merging(base, add, bi, ci, out, all, rank) && bj <= |base| && cj <= |add|
    requires e.0 in all && all[e.0] == e.1
    requires forall k :: Has(base[..bj], k) || Has(add[..cj], k) <==> Has(base[..bi], k) || Has(add[..ci], k) || k == e.0
    requires forall i :: 0 <= i < |out| ==> rank(out[i].0) < rank(e.0)
    requires bj < |base| ==> rank(e.0) < rank(base[bj].0)
    requires cj < |add| ==> rank(e.0) < rank(add[cj].0)
    ensures Merging(base, add, bj, cj, out + [e], all, rank)
  {
    hide Has;
    HasSnocAll(out, e);
  }

  lemma PrefixGrows(s: seq<Entry>, i: nat)
    requires i < |s|
    ensures forall k :: Has(s[..i + 1], k) <==> Has(s[..i], k) || k == s[i].0
  {
    assert s[..i + 1] == s[..i] + [s[i]];
    HasSnocAll(s[..i], s[i]);
  }

  lemma TakeBase(base: seq<Entry>, add: seq<Entry>, bi: nat, ci: nat, out: seq<Entry>,
                 mb: map<ChunkTag, ChunkRef>, ma: map<ChunkTag, ChunkRef>, rank: ChunkTag -> int)
    requires Lists(base, mb, rank) && Lists(add, ma, rank)
    requires Merging(base, add, bi, ci, out, MergeChunks(mb, ma), rank)
    requires bi < |base| && (ci == |add| || rank(base[bi].0) < rank(add[ci].0))
    ensures Merging(base, add, bi + 1, ci, out + [base[bi]], MergeChunks(mb, ma), rank)
  {
    var e := base[bi];
    PrefixGrows(base, bi);
    assert !Has(out, e.0);
    Absent(add, ma, ci, e.0, rank);
    Take(base, add, bi, ci, bi + 1, ci, out, e, MergeChunks(mb, ma), rank);
  }

  lemma TakeAdd(base: seq<Entry>, add: seq<Entry>, bi: nat, ci: nat, out: seq<Entry>,
                mb: map<ChunkTag, ChunkRef>, ma: map<ChunkTag, ChunkRef>, rank: ChunkTag -> int)
    requires Lists(base, mb, rank) && Lists(add, ma, rank)
    requires Merging(base, add, bi, ci, out, MergeChunks(mb, ma), rank)
    requires ci < |add| && (bi == |base| || rank(add[ci].0) < rank(base[bi].0))
    ensures Merging(base, add, bi, ci + 1, out + [add[ci]], MergeChunks(mb, ma), rank)
  {
    var e := add[ci];
    PrefixGrows(add, ci);
    assert !Has(out, e.0);
    Absent(base, mb, bi, e.0, rank);
    Take(base, add, bi, ci, bi, ci + 1, out, e, MergeChunks(mb, ma), rank);
  }

  lemma TakeBoth(base: seq<Entry>, add: seq<Entry>, bi: nat, ci: nat, out: seq<Entry>,
                 mb: map<ChunkTag, ChunkRef>, ma: map<ChunkTag, ChunkRef>, rank: ChunkTag -> int)
    requires Lists(base, mb, rank) && Lists(add, ma, rank) && Injective(rank)
    requires Merging(base, add, bi, ci, out, MergeChunks(mb, ma), rank)
    requires bi < |base| && ci < |add| && rank(base[bi].0) == rank(add[ci].0)
    ensures var e := if add[ci].1.lsn > base[bi].1.lsn then add[ci] else base[bi];
            Merging(base, add, bi + 1, ci + 1, out + [e], MergeChunks(mb, ma), rank)
  {
    var e := if add[ci].1.lsn > base[bi].1.lsn then add[ci] else base[bi];
    assert base[bi].0 == add[ci].0;
    PrefixGrows(base, bi);
    PrefixGrows(add, ci);
    Take(base, add, bi, ci, bi + 1, ci + 1, out, e, MergeChunks(mb, ma), rank);
  }

  // ── 4 to 6. Metadata, deleted forks, sorted output ──

  method DropDeleted(chunks: seq<Entry>, ghost m: map<ChunkTag, ChunkRef>, meta: map<RelFork, Meta>, rank: ChunkTag -> int)
    returns (out: seq<Entry>)
    requires Lists(chunks, m, rank)
    ensures Lists(out, WithoutDeleted(m, meta), rank)
  {
    hide WithoutDeleted, Retained, Lists;
    out := [];
    RetainedNone(chunks, m, meta, rank);
    for n := 0 to |chunks|
      invariant Retained(out, chunks, n, m, meta, rank)
    {
      RetainedNext(out, chunks, n, m, meta, rank);
      if !(chunks[n].0.rf in meta && meta[chunks[n].0.rf].deleted) {
        out := out + [chunks[n]];
      }
    }
    RetainedAll(out, chunks, m, meta, rank);
  }

  /** `out` keeps, of the first `n` chunks, those of forks that are not deleted. */
  ghost predicate Retained(out: seq<Entry>, chunks: seq<Entry>, n: nat, m: map<ChunkTag, ChunkRef>,
                           meta: map<RelFork, Meta>, rank: ChunkTag -> int)
  {
    && n <= |chunks| && Ascending(out, rank) && Within(out, m)
    && forall k :: Has(out, k) <==> Has(chunks[..n], k) && !Deleted(meta, k.rf)
  }

  lemma RetainedNone(chunks: seq<Entry>, m: map<ChunkTag, ChunkRef>, meta: map<RelFork, Meta>, rank: ChunkTag -> int)
    ensures Retained([], chunks, 0, m, meta, rank)
  {
  }

  lemma RetainedNext(out: seq<Entry>, chunks: seq<Entry>, n: nat, m: map<ChunkTag, ChunkRef>,
                     meta: map<RelFork, Meta>, rank: ChunkTag -> int)
    requires Lists(chunks, m, rank) && n < |chunks| && Retained(out, chunks, n, m, meta, rank)
    ensures Retained(if Deleted(meta, chunks[n].0.rf) then out else out + [chunks[n]], chunks, n + 1, m, meta, rank)
  {
    PrefixGrows(chunks, n);
    HasSnocAll(out, chunks[n]);
    BelowNext(chunks, n, rank);
    forall i | 0 <= i < |out| ensures rank(out[i].0) < rank(chunks[n].0) {
      assert Has(out, out[i].0);
    }
    hide Has;
  }

  lemma RetainedAll(out: seq<Entry>, chunks: seq<Entry>, m: map<ChunkTag, ChunkRef>,
                    meta: map<RelFork, Meta>, rank: ChunkTag -> int)
    requires Lists(chunks, m, rank) && Retained(out, chunks, |chunks|, m, meta, rank)
    ensures Lists(out, WithoutDeleted(m, meta), rank)
  {
    assert chunks[..|chunks|] == chunks;
    RetainedIs(out, m, meta, rank);
  }

  lemma BelowNext(s: seq<Entry>, n: nat, rank: ChunkTag -> int)
    requires Ascending(s, rank) && n < |s|
    ensures forall k :: Has(s[..n], k) ==> rank(k) < rank(s[n].0)
  {
  }

  lemma RetainedIs(out: seq<Entry>, m: map<ChunkTag, ChunkRef>, meta: map<RelFork, Meta>, rank: ChunkTag -> int)
    requires Ascending(out, rank) && Within(out, m)
    requires forall k :: k in m && !Deleted(meta, k.rf) ==> Has(out, k)
    requires forall k :: Has(out, k) ==> !Deleted(meta, k.rf)
    ensures Lists(out, WithoutDeleted(m, meta), rank)
  {
    assert forall i :: 0 <= i < |out| ==> Has(out, out[i].0);
  }

  /** The metadata map as a list sorted by fork: each fork goes before the first larger one. */
  method SortMeta(m: map<RelFork, Meta>, rank: RelFork -> int) returns (s: seq<MetaEntry>)
    requires Injective(rank)
    ensures Lists(s, m, rank)
  {
    hide Lists, Injective;
    s := [];
    var rest := m.Keys;
    ghost var done: map<RelFork, Meta> := map[];
    NoneListed<RelFork, Meta>(rank);
    while rest != {}
      invariant Lists(s, done, rank)
      invariant rest <= m.Keys && done.Keys == m.Keys - rest
      invariant forall k :: k in done ==> done[k] == m[k]
      decreases |rest|
    {
      var rf :| rf in rest;
      var i := Place(s, rf, rank);
      InsertLists(s, done, i, (rf, m[rf]), rank);
      s := s[..i] + [(rf, m[rf])] + s[i..];
      done := done[rf := m[rf]];
      rest := rest - {rf};
    }
    assert done == m;
  }

  method Place(s: seq<MetaEntry>, rf: RelFork, rank: RelFork -> int) returns (i: nat)
    ensures i <= |s| && (forall j :: 0 <= j < i ==> rank(s[j].0) < rank(rf))
    ensures i < |s| ==> rank(rf) <= rank(s[i].0)
  {
    i := 0;
    while i < |s| && rank(s[i].0) < rank(rf)
      invariant i <= |s| && forall j :: 0 <= j < i ==> rank(s[j].0) < rank(rf)
    {
      i := i + 1;
    }
  }

  lemma NoneListed<K(!new), V>(rank: K -> int)
    ensures Lists<K, V>([], map[], rank)
  {
  }

  lemma InsertLists(s: seq<MetaEntry>, m: map<RelFork, Meta>, i: nat, e: MetaEntry, rank: RelFork -> int)
    requires Lists(s, m, rank) && e.0 !in m && i <= |s| && Injective(rank)
    requires forall j :: 0 <= j < i ==> rank(s[j].0) < rank(e.0)
    requires i < |s| ==> rank(e.0) <= rank(s[i].0)
    ensures Lists(s[..i] + [e] + s[i..], m[e.0 := e.1], rank)
  {
    ghost var r := s[..i] + [e] + s[i..];
    AboveNext(s, m, i, e, rank);
    InsertAscends(s, i, e, rank);
    InsertHas(s, i, e);
    hide Ascending, Has, Injective;
  }

  lemma AboveNext(s: seq<MetaEntry>, m: map<RelFork, Meta>, i: nat, e: MetaEntry, rank: RelFork -> int)
    requires Ascending(s, rank) && Within(s, m) && e.0 !in m && i <= |s| && Injective(rank)
    requires i < |s| ==> rank(e.0) <= rank(s[i].0)
    ensures forall j :: i <= j < |s| ==> rank(e.0) < rank(s[j].0)
  {
    assert i < |s| ==> s[i].0 in m && rank(e.0) != rank(s[i].0);
  }

  lemma InsertAscends(s: seq<MetaEntry>, i: nat, e: MetaEntry, rank: RelFork -> int)
    requires Ascending(s, rank) && i <= |s|
    requires forall j :: 0 <= j < i ==> rank(s[j].0) < rank(e.0)
    requires forall j :: i <= j < |s| ==> rank(e.0) < rank(s[j].0)
    ensures Ascending(s[..i] + [e] + s[i..], rank)
  {
  }

  lemma InsertHas(s: seq<MetaEntry>, i: nat, e: MetaEntry)
    requires i <= |s|
    ensures forall k :: Has(s, k) || k == e.0 ==> Has(s[..i] + [e] + s[i..], k)
  {
    var r := s[..i] + [e] + s[i..];
    assert r[i] == e;
    forall k | Has(s, k) ensures Has(r, k) {
      var j :| 0 <= j < |s| && s[j].0 == k;
      assert r[if j < i then j else j + 1] == s[j];
    }
  }

  // ── The whole fold ──

  /** For each chunk of the folded checkpoints, one of its references with the highest LSN. */
  ghost predicate IsBest(db: U64, ks: seq<Commit>, m: map<ChunkTag, ChunkRef>) {
    && (forall t :: t in m ==> Contributes(db, ks, (t, m[t])))
    && (forall e: Entry {:trigger Contributes(db, ks, e)} :: Contributes(db, ks, e) ==> e.0 in m && e.1.lsn <= m[e.0].lsn)
  }

  lemma HighestIsBest(db: U64, ks: seq<Commit>, es: seq<Entry>, s: seq<Entry>, m: map<ChunkTag, ChunkRef>)
    requires Collected(db, ks, es) && multiset(s) == multiset(es) && Highest(s, m)
    ensures IsBest(db, ks, m)
  {
    hide Contributes;
    assert forall e: Entry {:trigger e in es} :: e in es <==> e in multiset(es);
    assert forall e: Entry {:trigger e in s} :: e in s <==> e in multiset(s);
    forall e: Entry | Contributes(db, ks, e) ensures e.0 in m && e.1.lsn <= m[e.0].lsn {
      assert e in es;
      assert e in s;
    }
    forall t | t in m ensures Contributes(db, ks, (t, m[t])) {
      assert (t, m[t]) in s;
      assert (t, m[t]) in es;
    }
  }

  /** Equal LSNs mean equal prefixes, which strictly increasing commit LSNs guarantee. */
  ghost predicate NoTies(ks: seq<Commit>) {
    forall i, j :: 0 <= i < |ks| && 0 <= j < |ks| && ks[i].prev.lsn == ks[j].prev.lsn ==> ks[i].prev == ks[j].prev
  }

  /** Without ties, every order the sort may choose gives the same references. */
  lemma {:induction false} BestIsCombine(db: U64, ks: seq<Commit>, m: map<ChunkTag, ChunkRef>)
    requires IsBest(db, ks, m) && NoTies(ks)
    ensures m == Combine(db, ks)
  {
    hide IsBest, NoTies;
    CombineIsBest(db, ks);
    forall t ensures t in m <==> t in Combine(db, ks) {
      BestHas(db, ks, m, Combine(db, ks), t);
      BestHas(db, ks, Combine(db, ks), m, t);
    }
    forall t | t in m ensures m[t] == Combine(db, ks)[t] {
      BestIsUnique(db, ks, m, Combine(db, ks), t);
    }
  }

  lemma BestHas(db: U64, ks: seq<Commit>, m: map<ChunkTag, ChunkRef>, n: map<ChunkTag, ChunkRef>, t: ChunkTag)
    requires IsBest(db, ks, m) && IsBest(db, ks, n)
    ensures t in m ==> t in n && m[t].lsn <= n[t].lsn
  {
    assert t in m ==> Contributes(db, ks, (t, m[t]));
  }

  lemma BestIsUnique(db: U64, ks: seq<Commit>, m: map<ChunkTag, ChunkRef>, n: map<ChunkTag, ChunkRef>, t: ChunkTag)
    requires IsBest(db, ks, m) && IsBest(db, ks, n) && NoTies(ks) && t in m
    ensures t in n && m[t] == n[t]
  {
    BestHas(db, ks, m, n, t);
    BestHas(db, ks, n, m, t);
    assert Contributes(db, ks, (t, m[t])) && Contributes(db, ks, (t, n[t]));
  }

  lemma {:induction false} CombineIsBest(db: U64, ks: seq<Commit>)
    ensures IsBest(db, ks, Combine(db, ks))
  {
    if ks != [] {
      var init, k := ks[..|ks| - 1], ks[|ks| - 1];
      CombineIsBest(db, init);
      assert ks == init + [k];
      forall e: Entry ensures Contributes(db, ks, e) <==> Contributes(db, init, e) || (e.0 in k.chunks && e.1 == RefOf(db, k)) {
        ContributesSnoc(db, init, k, e);
      }
    }
  }

  /**
   * `apply_segments`: the result represents the base overridden by the folded
   * checkpoints, minus deleted forks, as strictly sorted lists. `best` is the choice
   * the sort made among equal LSNs; without ties there is only one.
   */
  method ApplySegments(base: Tables, ghost m: Manifest, ks: seq<Commit>, db: U64)
    returns (applied: Tables, ghost best: map<ChunkTag, ChunkRef>)
    requires Represents(base, m)
    ensures IsBest(db, ks, best) && Represents(applied, FoldedWith(m, ks, best))
    ensures NoTies(ks) ==> Represents(applied, Folded(db, m, ks))
    ensures applied.redo == if ks == [] then base.redo else ks[|ks| - 1].redo
  {
    TagRankIsInjective();
    var redo := if ks == [] then base.redo else ks[|ks| - 1].redo;
    var es, newMeta, last := CollectAll(db, base.ckpt, ks);
    var sorted := SortEntries(es, TagRank);
    var combined;
    combined, best := Dedup(sorted, TagRank);
    HighestIsBest(db, ks, es, sorted, best);
    var merged := Merge(base.chunks, combined, TagRank, m.chunks, best);
    var baseMeta := MapOf(base.meta, m.meta);
    var meta := baseMeta + newMeta;
    var chunks := DropDeleted(merged, MergeChunks(m.chunks, best), meta, TagRank);
    var metaSorted := SortMeta(meta, RfRank);
    applied := Tables(last, redo, chunks, metaSorted);
    if NoTies(ks) {
      BestIsCombine(db, ks, best);
    }
  }

  /** `Folded` with another choice among references of equal LSN. */
  function FoldedWith(m: Manifest, ks: seq<Commit>, best: map<ChunkTag, ChunkRef>): Manifest {
    var meta := m.meta + MetaFold(ks);
    Manifest(LastChange(m.ckpt, ks), if ks == [] then m.redo else ks[|ks| - 1].redo,
             WithoutDeleted(MergeChunks(m.chunks, best), meta), meta)
  }

  method MapOf(s: seq<MetaEntry>, ghost m: map<RelFork, Meta>) returns (r: map<RelFork, Meta>)
    requires Lists(s, m, RfRank)
    ensures r == m
  {
    r := map[];
    for n := 0 to |s|
      invariant forall k :: k in r ==> k in m && r[k] == m[k]
      invariant forall i :: 0 <= i < n ==> s[i].0 in r
    {
      r := r[s[n].0 := s[n].1];
    }
    forall k | k in m ensures k in r {
      assert Has(s, k);
    }
    assert r == m;
  }
}
