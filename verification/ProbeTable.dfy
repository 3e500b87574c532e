/**
 * An open-addressed table with linear probing, as a draft-buffer shard and the
 * fork zone have it: slots filled in place, never removed one by one.
 */
module ProbeTable {
  import opened Cyclic

  datatype Slot<K, V> = Empty | Occupied(key: K, value: V)

  /** `Full`: no slot is left; `Added(over)`: `over` says the watermark was reached. */
  datatype Outcome = Full | Added(over: bool)

  /** Where probing for `k` starts. */
  function Home<K>(hash: K -> nat, k: K, n: nat): (r: nat)
    requires n > 0
    ensures r < n
  {
    hash(k) % n
  }

  /** Slot `j` is occupied and so is every slot that a probe for its key passes before. */
  ghost predicate Reachable<K, V>(s: seq<Slot<K, V>>, hash: K -> nat, j: nat)
    requires j < |s|
  {
    s[j].Occupied? ==>
      forall i :: 0 <= i < Steps(Home(hash, s[j].key, |s|), j, |s|) ==> s[Around(Home(hash, s[j].key, |s|), i, |s|)].Occupied?
  }

  ghost predicate ProbeInv<K(!new), V>(s: seq<Slot<K, V>>, hash: K -> nat) {
    && (forall j {:trigger Reachable(s, hash, j)} :: 0 <= j < |s| ==> Reachable(s, hash, j))
    && (forall i, j :: 0 <= i < |s| && 0 <= j < |s| && s[i].Occupied? && s[j].Occupied? && s[i].key == s[j].key ==> i == j)
  }

  /** The occupied slots are exactly the entries of `m`. */
  ghost predicate Holds<K(!new), V>(s: seq<Slot<K, V>>, m: map<K, V>) {
    && (forall j :: 0 <= j < |s| && s[j].Occupied? ==> s[j].key in m && m[s[j].key] == s[j].value)
    && (forall k {:trigger k in m} :: k in m ==> exists j :: 0 <= j < |s| && s[j].Occupied? && s[j].key == k)
  }

  /** The first `n` slots of a probe for `k` are occupied by other keys. */
  ghost predicate Passed<K, V>(s: seq<Slot<K, V>>, hash: K -> nat, k: K, n: nat)
    requires n <= |s| && |s| > 0
  {
    forall i :: 0 <= i < n ==> var x := s[Around(Home(hash, k, |s|), i, |s|)]; x.Occupied? && x.key != k
  }

  /** A probe that meets an empty slot, or all slots, has shown that the key is absent. */
  lemma NotHeld<K(!new), V>(s: seq<Slot<K, V>>, hash: K -> nat, m: map<K, V>, k: K, n: nat)
    requires ProbeInv(s, hash) && Holds(s, m) && |s| > 0 && n <= |s| && Passed(s, hash, k, n)
    requires n == |s| || s[Around(Home(hash, k, |s|), n, |s|)].Empty?
    ensures k !in m
  {
    forall j | 0 <= j < |s| ensures !(s[j].Occupied? && s[j].key == k) {
      var d := Steps(Home(hash, k, |s|), j, |s|);
      assert Reachable(s, hash, j);
      assert d < n ==> s[Around(Home(hash, k, |s|), d, |s|)].key != k;
    }
  }

  /** Filling the empty slot that ends a probe keeps the probe invariant. */
  lemma FillKeeps<K(!new), V>(s: seq<Slot<K, V>>, hash: K -> nat, m: map<K, V>, k: K, v: V, n: nat)
    requires ProbeInv(s, hash) && Holds(s, m) && n < |s| && Passed(s, hash, k, n)
    requires s[Around(Home(hash, k, |s|), n, |s|)].Empty?
    ensures var r := s[Around(Home(hash, k, |s|), n, |s|) := Occupied(k, v)];
            k !in m && ProbeInv(r, hash) && Holds(r, m[k := v])
  {
    NotHeld(s, hash, m, k, n);
    var idx := Around(Home(hash, k, |s|), n, |s|);
    var r := s[idx := Occupied(k, v)];
    FillReachable(s, hash, k, v, n);
    FillHolds(s, m, k, v, idx);
  }

  lemma FillReachable<K(!new), V>(s: seq<Slot<K, V>>, hash: K -> nat, k: K, v: V, n: nat)
    requires ProbeInv(s, hash) && n < |s| && Passed(s, hash, k, n)
    requires s[Around(Home(hash, k, |s|), n, |s|)].Empty?
    ensures var r := s[Around(Home(hash, k, |s|), n, |s|) := Occupied(k, v)];
            forall j {:trigger Reachable(r, hash, j)} :: 0 <= j < |r| ==> Reachable(r, hash, j)
  {
    var idx := Around(Home(hash, k, |s|), n, |s|);
    var r := s[idx := Occupied(k, v)];
    forall j | 0 <= j < |r| ensures Reachable(r, hash, j) {
      assert Reachable(s, hash, j);
    }
  }

  lemma FillHolds<K(!new), V>(s: seq<Slot<K, V>>, m: map<K, V>, k: K, v: V, idx: nat)
    requires Holds(s, m) && idx < |s| && s[idx].Empty? && k !in m
    ensures Holds(s[idx := Occupied(k, v)], m[k := v])
  {
    var r := s[idx := Occupied(k, v)];
    assert r[idx].key == k;
    forall q | q in m ensures exists j :: 0 <= j < |r| && r[j].Occupied? && r[j].key == q {
      var j :| 0 <= j < |s| && s[j].Occupied? && s[j].key == q;
      assert r[j] == s[j];
    }
  }

  lemma OverwriteKeeps<K(!new), V>(s: seq<Slot<K, V>>, hash: K -> nat, m: map<K, V>, idx: nat, v: V)
    requires ProbeInv(s, hash) && Holds(s, m) && idx < |s| && s[idx].Occupied?
    ensures var r := s[idx := Occupied(s[idx].key, v)];
            ProbeInv(r, hash) && Holds(r, m[s[idx].key := v])
  {
    var r := s[idx := Occupied(s[idx].key, v)];
    forall j | 0 <= j < |r| ensures Reachable(r, hash, j) {
      assert Reachable(s, hash, j);
    }
    forall q | q in m ensures exists j :: 0 <= j < |r| && r[j].Occupied? && r[j].key == q {
      var j :| 0 <= j < |s| && s[j].Occupied? && s[j].key == q;
      assert r[j].key == q;
    }
    assert r[idx].key == s[idx].key;
  }

  class Table<K(!new, ==), V> {
    const hash: K -> nat
    const watermark: nat
    const slots: array<Slot<K, V>>
    var len: nat
    ghost var contents: map<K, V>

    ghost predicate Valid()
      reads this, slots
    {
      slots.Length > 0 && ProbeInv(slots[..], hash) && Holds(slots[..], contents) && len == |contents|
    }

    /** As many entries as slots. */
    ghost predicate AtCapacity()
      reads this
    {
      |contents| == slots.Length
    }

    constructor (cap: nat, watermark: nat, hash: K -> nat)
      requires cap > 0
      ensures Valid() && contents == map[] && fresh(slots)
      ensures this.hash == hash && this.watermark == watermark && slots.Length == cap
    {
      this.hash, this.watermark := hash, watermark;
      slots := new Slot<K, V>[cap](_ => Empty);
      len, contents := 0, map[];
    }

    /**
     * `insert`: the entry is there afterwards, over any older one, unless every slot
     * is taken by another key.
     */
    method Insert(k: K, v: V) returns (r: Outcome)
      requires Valid()
      modifies this, slots
      ensures Valid()
      ensures r.Added? ==> contents == old(contents)[k := v]
      ensures r.Added? ==> r.over == (k !in old(contents) && len >= watermark)
      ensures r.Full? ==> contents == old(contents) && k !in contents && AtCapacity() && contents != map[]
    {
      hide Holds, ProbeInv, Passed;
      ghost var s := slots[..];
      var start := hash(k) % slots.Length;
      NonePassed(s, hash, k);
      for i := 0 to slots.Length
        invariant slots[..] == s && len == old(len) && contents == old(contents)
        invariant Passed(s, hash, k, i)
      {
        var idx := (start + i) % slots.Length;
        AroundIsModulo(start, i, slots.Length);
        match slots[idx]
        case Empty =>
          FillKeeps(s, hash, contents, k, v, i);
          slots[idx] := Occupied(k, v);
          assert slots[..] == s[idx := Occupied(k, v)];
          len := len + 1;
          contents := contents[k := v];
          return Added(len >= watermark);
        case Occupied(key, _) =>
          if key == k {
            OverwriteKeeps(s, hash, contents, idx, v);
            HeldAt(s, contents, idx);
            slots[idx] := Occupied(k, v);
            assert slots[..] == s[idx := Occupied(k, v)];
            contents := contents[k := v];
            return Added(false);
          }
          PassOne(s, hash, k, i);
      }
      NotHeld(s, hash, contents, k, slots.Length);
      AllHeld(s, hash, contents, k);
      r := Full;
    }

    /** `contains` and `get`: exactly the entry, whatever the load. */
    method Get(k: K) returns (r: Slot<K, V>)
      requires Valid()
      ensures r == if k in contents then Occupied(k, contents[k]) else Empty
    {
      hide Holds, ProbeInv, Passed;
      ghost var s := slots[..];
      var start := hash(k) % slots.Length;
      NonePassed(s, hash, k);
      for i := 0 to slots.Length
        invariant Passed(s, hash, k, i)
      {
        var idx := (start + i) % slots.Length;
        AroundIsModulo(start, i, slots.Length);
        match slots[idx]
        case Empty =>
          NotHeld(s, hash, contents, k, i);
          return Empty;
        case Occupied(key, value) =>
          if key == k {
            HeldAt(s, contents, idx);
            return slots[idx];
          }
          PassOne(s, hash, k, i);
      }
      NotHeld(s, hash, contents, k, slots.Length);
      r := Empty;
    }

    /** `drain_into`: every entry comes out and the table is empty. */
    method Drain() returns (out: map<K, V>)
      requires Valid()
      modifies this, slots
      ensures Valid() && contents == map[]
      ensures out == old(contents) && |out| <= slots.Length
    {
      ghost var s := slots[..];
      out := map[];
      for i := 0 to slots.Length
        invariant slots[i..] == s[i..] && contents == old(contents)
        invariant forall j :: 0 <= j < i ==> slots[j].Empty?
        invariant forall k :: k in out ==> k in contents && out[k] == contents[k]
        invariant forall j :: 0 <= j < i && s[j].Occupied? ==> s[j].key in out
        invariant |out| <= i
      {
        if slots[i].Occupied? {
          assert slots[i] == s[i];
          out := out[slots[i].key := slots[i].value];
          slots[i] := Empty;
        }
      }
      assert out == contents;
      len, contents := 0, map[];
    }
  }

  lemma NonePassed<K(!new), V>(s: seq<Slot<K, V>>, hash: K -> nat, k: K)
    requires |s| > 0
    ensures Passed(s, hash, k, 0)
  {
  }

  lemma PassOne<K(!new), V>(s: seq<Slot<K, V>>, hash: K -> nat, k: K, i: nat)
    requires i < |s| && Passed(s, hash, k, i)
    requires var x := s[Around(Home(hash, k, |s|), i, |s|)]; x.Occupied? && x.key != k
    ensures Passed(s, hash, k, i + 1)
  {
  }

  lemma HeldAt<K(!new), V>(s: seq<Slot<K, V>>, m: map<K, V>, idx: nat)
    requires Holds(s, m) && idx < |s| && s[idx].Occupied?
    ensures s[idx].key in m && m[s[idx].key] == s[idx].value
    ensures |m[s[idx].key := s[idx].value]| == |m|
  {
    assert m[s[idx].key := s[idx].value] == m;
  }

  function KeysBelow<K, V>(s: seq<Slot<K, V>>, n: nat): set<K>
    requires n <= |s|
  {
    set j | 0 <= j < n && s[j].Occupied? :: s[j].key
  }

  /** Occupied slots with different keys: as many keys as slots. */
  lemma {:induction false} CountKeys<K(!new), V>(s: seq<Slot<K, V>>, n: nat)
    requires n <= |s| && forall j :: 0 <= j < n ==> s[j].Occupied?
    requires forall i, j :: 0 <= i < j < n ==> s[i].key != s[j].key
    ensures |KeysBelow(s, n)| == n
    decreases n
  {
    if n > 0 {
      CountKeys(s, n - 1);
      assert KeysBelow(s, n) == KeysBelow(s, n - 1) + {s[n - 1].key};
    }
  }

  /** A probe that passes every slot has met a table with an entry in each. */
  lemma AllHeld<K(!new), V>(s: seq<Slot<K, V>>, hash: K -> nat, m: map<K, V>, k: K)
    requires ProbeInv(s, hash) && Holds(s, m) && |s| > 0 && Passed(s, hash, k, |s|)
    ensures |m| == |s| && m != map[]
  {
    forall j | 0 <= j < |s| ensures s[j].Occupied? {
      var d := Steps(Home(hash, k, |s|), j, |s|);
      assert Around(Home(hash, k, |s|), d, |s|) == j;
    }
    CountKeys(s, |s|);
    assert KeysBelow(s, |s|) == m.Keys;
    assert s[0].key in m;
  }
}
