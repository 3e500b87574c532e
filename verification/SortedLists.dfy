/** Maps kept as lists sorted by key, the form a base manifest has in memory and on disk. */
module SortedLists {
  ghost predicate Ascending<K, V>(s: seq<(K, V)>, rank: K -> int) {
    forall i, j :: 0 <= i < j < |s| ==> rank(s[i].0) < rank(s[j].0)
  }

  ghost predicate Has<K(!new), V>(s: seq<(K, V)>, k: K) {
    exists i :: 0 <= i < |s| && s[i].0 == k
  }

  /** Every entry of `s` is an entry of `m`. */
  ghost predicate Within<K(!new), V>(s: seq<(K, V)>, m: map<K, V>) {
    forall i :: 0 <= i < |s| ==> s[i].0 in m && m[s[i].0] == s[i].1
  }

  /** `s` has exactly the entries of `m`, by ascending rank of the key. */
  ghost predicate Lists<K(!new), V>(s: seq<(K, V)>, m: map<K, V>, rank: K -> int) {
    && Ascending(s, rank)
    && Within(s, m)
    && (forall k :: k in m ==> Has(s, k))
  }

  ghost predicate Injective<K(!new)>(rank: K -> int) {
    forall a, b {:trigger rank(a), rank(b)} :: rank(a) == rank(b) ==> a == b
  }

  lemma HasSnoc<K(!new), V>(s: seq<(K, V)>, e: (K, V), k: K)
    ensures Has(s + [e], k) <==> Has(s, k) || k == e.0
  {
    var r := s + [e];
    if Has(s, k) {
      var i :| 0 <= i < |s| && s[i].0 == k;
      assert r[i].0 == k;
    }
    if k == e.0 {
      assert r[|s|].0 == k;
    }
  }

  lemma HasSnocAll<K(!new), V>(s: seq<(K, V)>, e: (K, V))
    ensures forall k :: Has(s + [e], k) <==> Has(s, k) || k == e.0
  {
    forall k ensures Has(s + [e], k) <==> Has(s, k) || k == e.0 {
      HasSnoc(s, e, k);
    }
  }

  /** Entry `i` of a sorted list of `m`, found by its key. */
  lemma At<K(!new), V>(s: seq<(K, V)>, m: map<K, V>, rank: K -> int, k: K) returns (i: nat)
    requires Lists(s, m, rank) && k in m
    ensures i < |s| && s[i] == (k, m[k])
  {
    assert Has(s, k);
    i :| 0 <= i < |s| && s[i].0 == k;
    assert s[i] == (s[i].0, s[i].1);
  }

  /** A map has one sorted list, so the stored form of a manifest is determined by its content. */
  lemma {:induction false} ListIsUnique<K(!new), V>(s: seq<(K, V)>, t: seq<(K, V)>, m: map<K, V>, rank: K -> int)
    requires Lists(s, m, rank) && Lists(t, m, rank)
    ensures s == t
  {
    Prefix(s, t, m, rank, |s|);
    Prefix(t, s, m, rank, |t|);
  }

  lemma {:induction false} Prefix<K(!new), V>(s: seq<(K, V)>, t: seq<(K, V)>, m: map<K, V>, rank: K -> int, n: nat)
    requires Lists(s, m, rank) && Lists(t, m, rank) && n <= |s|
    ensures n <= |t| && forall j :: 0 <= j < n ==> s[j] == t[j]
    decreases n
  {
    if n > 0 {
      hide Lists;
      Prefix(s, t, m, rank, n - 1);
      NextIsSame(s, t, m, rank, n - 1);
    }
  }

  lemma NextIsSame<K(!new), V>(s: seq<(K, V)>, t: seq<(K, V)>, m: map<K, V>, rank: K -> int, n: nat)
    requires Lists(s, m, rank) && Lists(t, m, rank) && n < |s|
    requires n <= |t| && forall j :: 0 <= j < n ==> s[j] == t[j]
    ensures n < |t| && s[n] == t[n]
  {
    var j := Found(s, t, m, rank, n);
    var i := Found(t, s, m, rank, n);
    hide Lists;
    InOrder(t, m, rank, n, j);
    InOrder(s, m, rank, n, i);
  }

  /** The next entry of `s` is in `t`, not before place `n`. */
  lemma Found<K(!new), V>(s: seq<(K, V)>, t: seq<(K, V)>, m: map<K, V>, rank: K -> int, n: nat) returns (j: nat)
    requires Lists(s, m, rank) && Lists(t, m, rank) && n < |s|
    requires forall i :: 0 <= i < n && i < |t| ==> s[i] == t[i]
    ensures n <= j < |t| && t[j] == s[n]
  {
    j := At(t, m, rank, s[n].0);
    assert t[j] == s[n];
    NotEarlier(s, t, rank, n, j);
  }

  lemma InOrder<K(!new), V>(s: seq<(K, V)>, m: map<K, V>, rank: K -> int, i: nat, j: nat)
    requires Lists(s, m, rank) && i <= j < |s|
    ensures i == j || rank(s[i].0) < rank(s[j].0)
  {
  }

  lemma NotEarlier<K(!new), V>(s: seq<(K, V)>, t: seq<(K, V)>, rank: K -> int, n: nat, j: nat)
    requires Ascending(s, rank) && n < |s| && j < |t| && t[j] == s[n]
    requires forall i :: 0 <= i < n && i < |t| ==> s[i] == t[i]
    ensures n <= j
  {
    assert forall i :: 0 <= i < n ==> rank(s[i].0) < rank(s[n].0);
  }

  // ── Binary search ──

  /** The key, if it is there, is between `lo` and `hi`. */
  ghost predicate Narrowed<K(!new), V>(s: seq<(K, V)>, rank: K -> int, key: K, lo: int, hi: int) {
    && 0 <= lo <= hi <= |s|
    && (forall i :: 0 <= i < lo ==> rank(s[i].0) < rank(key))
    && (forall i :: hi <= i < |s| ==> rank(s[i].0) > rank(key))
  }

  lemma Narrow<K(!new), V>(s: seq<(K, V)>, m: map<K, V>, rank: K -> int, key: K, lo: int, hi: int, mid: int)
    requires Lists(s, m, rank) && Narrowed(s, rank, key, lo, hi) && lo <= mid < hi
    ensures rank(s[mid].0) < rank(key) ==> Narrowed(s, rank, key, mid + 1, hi)
    ensures rank(s[mid].0) > rank(key) ==> Narrowed(s, rank, key, lo, mid)
  {
  }

  lemma NotThere<K(!new), V>(s: seq<(K, V)>, m: map<K, V>, rank: K -> int, key: K, lo: int)
    requires Lists(s, m, rank) && Narrowed(s, rank, key, lo, lo)
    ensures key !in m
  {
    assert !Has(s, key);
  }

  lemma NarrowAll<K(!new), V>(s: seq<(K, V)>, rank: K -> int, key: K)
    ensures Narrowed(s, rank, key, 0, |s|)
  {
  }

  lemma EntryOf<K(!new), V>(s: seq<(K, V)>, m: map<K, V>, rank: K -> int, i: nat)
    requires Lists(s, m, rank) && i < |s|
    ensures s[i].0 in m && m[s[i].0] == s[i].1
  {
  }
}
