/**
 * What a write-back cache means: each linked slot holds the newest value of its tag,
 * a clean one the same value as the store, and a reader sees cache over store.
 */
module WriteBack {
  /** A slot is the one its tag is linked to. */
  predicate LinkedAt<K>(tags: seq<K>, where: map<K, nat>, s: nat)
    requires s < |tags|
  {
    tags[s] in where && where[tags[s]] == s
  }

  ghost predicate SlotsOk<K(!new), V>(tags: seq<K>, dirty: seq<bool>, data: seq<V>, where: map<K, nat>, empty: K, store: map<K, V>) {
    && |tags| == |dirty| == |data| && empty !in where
    && (forall k {:trigger where[k]} :: k in where ==>
          where[k] < |tags| && tags[where[k]] == k && (dirty[where[k]] || (k in store && store[k] == data[where[k]])))
    && (forall s {:trigger dirty[s]} :: 0 <= s < |tags| && dirty[s] ==> LinkedAt(tags, where, s))
  }

  /** `view` is the cache laid over the store. */
  ghost predicate Overlay<K(!new), V(!new)>(data: seq<V>, where: map<K, nat>, store: map<K, V>, view: map<K, V>) {
    && (forall k {:trigger k in view} :: k in view <==> k in where || k in store)
    && (forall k {:trigger view[k]} {:trigger where[k]} :: k in where && where[k] < |data| ==> k in view && view[k] == data[where[k]])
    && (forall k {:trigger view[k]} {:trigger store[k]} :: k in store && k !in where ==> k in view && view[k] == store[k])
  }

  ghost predicate CacheOk<K(!new), V(!new)>(tags: seq<K>, dirty: seq<bool>, data: seq<V>, where: map<K, nat>,
                                            empty: K, store: map<K, V>, view: map<K, V>)
  {
    SlotsOk(tags, dirty, data, where, empty, store) && Overlay(data, where, store, view)
  }

  /** Evicting a clean slot hides nothing: the store has the same value. */
  lemma UnlinkClean<K(!new), V(!new)>(tags: seq<K>, dirty: seq<bool>, data: seq<V>, where: map<K, nat>,
                                      empty: K, store: map<K, V>, view: map<K, V>, s: nat)
    requires CacheOk(tags, dirty, data, where, empty, store, view) && s < |tags| && !dirty[s] && LinkedAt(tags, where, s)
    ensures CacheOk(tags, dirty, data, where - {tags[s]}, empty, store, view)
  {
    var w := where - {tags[s]};
    assert where[tags[s]] == s;
    forall k | k in w ensures w[k] < |tags| && w[k] != s {
      assert where[k] == w[k];
    }
    forall x | 0 <= x < |tags| && dirty[x] ensures LinkedAt(tags, w, x) {
      assert LinkedAt(tags, where, x);
    }
    assert view[tags[s]] == data[s];
  }

  /** Flushing a slot makes it clean and its value the store's. */
  lemma FlushSlot<K(!new), V(!new)>(tags: seq<K>, dirty: seq<bool>, data: seq<V>, where: map<K, nat>,
                                    empty: K, store: map<K, V>, view: map<K, V>, s: nat)
    requires CacheOk(tags, dirty, data, where, empty, store, view) && s < |tags| && dirty[s]
    ensures CacheOk(tags, dirty[s := false], data, where, empty, store[tags[s] := data[s]], view)
  {
    assert LinkedAt(tags, where, s);
    var t := tags[s];
    assert where[t] == s;
    assert view[t] == data[s];
    forall k | k in where ensures k != t ==> where[k] != s {
      assert tags[where[k]] == k;
    }
  }

  /** Giving an unlinked slot another tag and value. */
  lemma RefillSlot<K(!new), V(!new)>(tags: seq<K>, dirty: seq<bool>, data: seq<V>, where: map<K, nat>,
                                     empty: K, store: map<K, V>, view: map<K, V>, s: nat, k: K, v: V)
    requires CacheOk(tags, dirty, data, where, empty, store, view) && s < |tags| && !LinkedAt(tags, where, s)
    ensures !dirty[s] && CacheOk(tags[s := k], dirty, data[s := v], where, empty, store, view)
  {
    forall q | q in where ensures where[q] != s {
      assert tags[where[q]] == q;
    }
  }

  /** Linking a refilled slot: a dirty value is new, a clean one is the store's. */
  lemma LinkSlot<K(!new), V(!new)>(tags: seq<K>, dirty: seq<bool>, data: seq<V>, where: map<K, nat>,
                                   empty: K, store: map<K, V>, view: map<K, V>, s: nat, mark: bool)
    requires CacheOk(tags, dirty, data, where, empty, store, view) && s < |tags|
    requires tags[s] != empty && tags[s] !in where && (mark || (tags[s] in store && store[tags[s]] == data[s]))
    ensures CacheOk(tags, dirty[s := mark], data, where[tags[s] := s], empty, store, view[tags[s] := data[s]])
  {
    var t := tags[s];
    var w := where[t := s];
    forall k | k in where ensures where[k] != s {
      assert tags[where[k]] == k;
    }
    forall x | 0 <= x < |tags| && dirty[s := mark][x] ensures LinkedAt(tags, w, x) {
      if x != s {
        assert dirty[x];
        assert LinkedAt(tags, where, x);
      }
    }
  }

  /** Writing into a linked slot. */
  lemma WriteSlot<K(!new), V(!new)>(tags: seq<K>, dirty: seq<bool>, data: seq<V>, where: map<K, nat>,
                                    empty: K, store: map<K, V>, view: map<K, V>, k: K, v: V)
    requires CacheOk(tags, dirty, data, where, empty, store, view) && k in where
    ensures where[k] < |tags| && CacheOk(tags, dirty[where[k] := true], data[where[k] := v], where, empty, store, view[k := v])
  {
    var s := where[k];
    forall q | q in where && q != k ensures where[q] != s {
      assert tags[where[q]] == q;
    }
    assert LinkedAt(tags, where, s);
    var d1 := dirty[s := true];
    forall x | 0 <= x < |tags| && d1[x] ensures LinkedAt(tags, where, x) {
      if x != s {
        assert dirty[x];
      }
    }
  }

  /** What a reader sees of a tag whose slot is dropped unflushed. */
  function Dropped<K, V>(store: map<K, V>, view: map<K, V>, k: K): map<K, V> {
    if k in store then view[k := store[k]] else view - {k}
  }

  lemma DropSlot<K(!new), V(!new)>(tags: seq<K>, dirty: seq<bool>, data: seq<V>, where: map<K, nat>,
                                   empty: K, store: map<K, V>, view: map<K, V>, s: nat)
    requires CacheOk(tags, dirty, data, where, empty, store, view) && s < |tags| && LinkedAt(tags, where, s)
    ensures CacheOk(tags, dirty[s := false], data, where - {tags[s]}, empty, store, Dropped(store, view, tags[s]))
  {
    var w := where - {tags[s]};
    assert where[tags[s]] == s;
    forall k | k in w ensures w[k] < |tags| && w[k] != s {
      assert where[k] == w[k];
    }
    forall x | 0 <= x < |tags| && dirty[s := false][x] ensures LinkedAt(tags, w, x) {
      assert dirty[x];
      assert LinkedAt(tags, where, x);
    }
  }
}
