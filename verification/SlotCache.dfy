/**
 * The slot table both write-back caches are built on: lookup through hash chains,
 * eviction by clock sweep in three phases, insertion, flushing. Run by one thread.
 */
module SlotCache {
  import opened Types
  import opened HashChains
  import opened ClockSweep
  import opened Cyclic
  import opened WriteBack

  /** `Flushed`: the store now has the slot's value; `Failed`: the slot stays dirty. */
  datatype FlushResult = Flushed | AlreadyClean | Failed

  datatype InsertResult = Inserted | Duplicate | NoVictim

  ghost predicate Differ(a: object, b: object) {
    a != b
  }

  class SlotCache<K(!new, ==), V(!new)> {
    const empty: K
    const chains: Chains<K>
    const dirty: array<bool>
    const usage: array<nat>
    const data: array<V>
    var hand: nat
    var store: map<K, V>
    /** What a reader sees: the cache laid over the store. */
    ghost var view: map<K, V>

    /** The arrays are separate objects of one length. */
    ghost predicate Shaped()
      reads this
    {
      && Differ(chains.tags, dirty) && Differ(chains.tags, usage) && Differ(chains.tags, data)
      && Differ(chains.next, dirty) && Differ(chains.next, usage) && Differ(chains.next, data)
      && Differ(chains.heads, dirty) && Differ(chains.heads, usage) && Differ(chains.heads, data)
      && Differ(dirty, usage) && Differ(dirty, data) && Differ(usage, data)
      && 0 < chains.tags.Length == dirty.Length == usage.Length == data.Length && hand < dirty.Length
    }

    ghost predicate Valid()
      reads this, chains, chains.tags, chains.next, chains.heads, dirty, usage, data
    {
      && Shaped() && chains.Valid() && Counts(usage[..])
      && CacheOk(chains.tags[..], dirty[..], data[..], chains.where, empty, store, view)
    }

    constructor (n: nat, buckets: nat, hash: K -> nat, empty: K, blank: V, store: map<K, V>)
      requires 0 < n <= NIL && buckets > 0
      ensures Valid() && view == store && this.store == store && chains.where == map[] && this.empty == empty
      ensures fresh(chains) && fresh(chains.tags) && fresh(chains.next) && fresh(chains.heads)
              && fresh(dirty) && fresh(usage) && fresh(data)
    {
      this.empty, this.store, view, hand := empty, store, store, 0;
      var c := new Chains(n, buckets, hash, empty);
      chains := c;
      dirty := new bool[n](_ => false);
      usage := new nat[n](_ => 0);
      data := new V[n](_ => blank);
    }

    /** `try_flush_dirty_chunk` and `try_flush_dirty_meta`; puts of tags in `down` fail. */
    method TryFlush(s: nat, down: set<K>) returns (r: FlushResult)
      requires Valid() && s < dirty.Length
      modifies dirty, this`store
      ensures Valid()
      ensures r.Failed? ==> store == old(store) && dirty[..] == old(dirty[..]) && dirty[s] && chains.tags[s] in down
      ensures r.AlreadyClean? ==> store == old(store) && dirty[..] == old(dirty[..]) && !dirty[s]
      ensures r.Flushed? ==> store == old(store)[chains.tags[s] := data[s]] && dirty[..] == old(dirty[..])[s := false] && old(dirty[s])
      ensures r.Flushed? ==> chains.tags[s] !in down
    {
      hide CacheOk, Counts, ChainsOk;
      var was := dirty[s];
      if !was {
        return AlreadyClean;
      }
      FlushSlot(chains.tags[..], dirty[..], data[..], chains.where, empty, store, view, s);
      ghost var before, after := dirty[..], dirty[..][s := false];
      dirty[s] := false;
      if chains.tags[s] in down {
        dirty[s] := true;
        assert dirty[..] == before;
        return Failed;
      }
      store := store[chains.tags[s] := data[s]];
      assert dirty[..] == after;
      r := Flushed;
    }

    method Touch(s: nat)
      requires Valid() && s < usage.Length
      modifies usage
      ensures Valid() && usage[..] == old(usage[..])[s := Touched(old(usage[s]))]
    {
      hide CacheOk, ChainsOk;
      if usage[s] < MAX_USAGE {
        usage[s] := usage[s] + 1;
      }
      assert usage[..] == old(usage[..])[s := Touched(old(usage[s]))];
    }

    /** The count before it is lowered. */
    method Untouch(s: nat) returns (prev: nat)
      requires Valid() && s < usage.Length
      modifies usage
      ensures Valid() && prev == old(usage[s]) && usage[..] == old(usage[..])[s := Untouched(old(usage[s]))]
    {
      hide CacheOk, ChainsOk;
      prev := usage[s];
      if usage[s] > 0 {
        usage[s] := usage[s] - 1;
      }
      assert usage[..] == old(usage[..])[s := Untouched(old(usage[s]))];
    }

    // ── Eviction ──

    /** The slot is out of its chain, cleared, and ready for another tag. */
    ghost predicate Free(s: nat)
      requires Shaped()
      reads this, chains, chains.tags
    {
      s < chains.tags.Length && !LinkedAt(chains.tags[..], chains.where, s)
    }

    /** No tag is linked that was not, and none moved. */
    twostate predicate OnlyUnlinks()
      reads chains
    {
      forall k :: k in chains.where ==> k in old(chains.where) && chains.where[k] == old(chains.where)[k]
    }

    /** Phase three: unlink the flushed slot and clear it. */
    method UnlinkAndClear(s: nat)
      requires Valid() && s < dirty.Length && !dirty[s]
      modifies chains, chains.tags, chains.next, chains.heads, usage
      ensures Valid() && view == old(view) && Free(s) && OnlyUnlinks()
      ensures usage[..] == old(usage[..])[s := 0]
    {
      hide ChainsOk;
      ghost var ts, ds, xs := chains.tags[..], dirty[..], data[..];
      if chains.Linked(s) {
        UnlinkClean(ts, ds, xs, chains.where, empty, store, view, s);
      }
      hide CacheOk, Counts;
      chains.UnlinkOwn(s);
      RefillSlot(ts, ds, xs, chains.where, empty, store, view, s, empty, data[s]);
      assert xs[s := data[s]] == xs;
      chains.Clear(s, empty);
      ghost var us := usage[..];
      usage[s] := 0;
      assert usage[..] == us[s := 0];
      StillFree(ts, dirty[..], xs, chains.where, empty, store, view, s);
      CountsUpdate(us, s, 0);
    }

    /** The three phases for one candidate that aged to zero. */
    method TryEvict(s: nat, down: set<K>) returns (ok: bool)
      requires Valid() && s < dirty.Length
      modifies this`store, dirty, chains, chains.tags, chains.next, chains.heads, usage
      ensures Valid() && view == old(view) && OnlyUnlinks()
      ensures ok <==> old(Evictable(s, down))
      ensures ok ==> Free(s) && usage[..] == old(usage[..])[s := 0]
      ensures !ok ==> chains.where == old(chains.where) && chains.tags[..] == old(chains.tags[..]) && dirty[..] == old(dirty[..])
      ensures !ok ==> usage[..] == old(usage[..])[s := Touched(old(usage[s]))]
    {
      hide CacheOk, ChainsOk;
      // Phase 1 pins the slot; with one thread nothing else can hold it.
      if chains.tags[s] != empty {
        var r := TryFlush(s, down);
        if r.Failed? {
          Touch(s);
          return false;
        }
      } else {
        EmptyIsClean(s);
      }
      UnlinkAndClear(s);
      ok := true;
    }

    /** The slot's put, if it needs one, does not fail. */
    ghost predicate Evictable(s: nat, down: set<K>)
      requires Shaped() && s < dirty.Length
      reads this, chains, chains.tags, dirty
    {
      dirty[s] ==> chains.tags[s] !in down
    }

    ghost function Good(down: set<K>): (g: seq<bool>)
      requires Shaped()
      reads this, chains, chains.tags, dirty
      ensures |g| == dirty.Length && forall s :: 0 <= s < |g| ==> (g[s] <==> Evictable(s, down))
    {
      var (ds, ts) := (dirty[..], chains.tags[..]);
      seq(|ds|, s requires 0 <= s < |ds| => !ds[s] || ts[s] !in down)
    }

    /** There is room for another tag: some slot that can be evicted has a count below the maximum. */
    ghost predicate Room(down: set<K>)
      requires Shaped()
      reads this, chains, chains.tags, dirty, usage
    {
      Spare(usage[..], Good(down))
    }

    /** What a sweep did to the usage counts of the slots that can be evicted. */
    ghost predicate SweptTo(u: seq<nat>, good: seq<bool>, start: nat, r: Option<nat>)
      requires Shaped() && |u| == |good| == usage.Length && start < |u|
      reads this, chains, usage
    {
      match r
      case Some(s) =>
        && s < |u| && IsVictim(u, good, start, s) && u[s] < MAX_USAGE && hand == (s + 1) % |u| && usage[s] == 0
        && (forall d {:trigger At(start, d, |u|)} :: 0 <= d < |u| && good[At(start, d, |u|)] ==>
              usage[At(start, d, |u|)] == u[At(start, d, |u|)] - Passes(d, u[s], Steps(start, s, |u|)))
      case None =>
        && hand == start && (forall s :: 0 <= s < |u| && good[s] ==> u[s] == MAX_USAGE && usage[s] == 0)
    }

    /**
     * `evict_and_pin`: a free slot; no reader sees a change. The victim is the first slot
     * from the hand with the smallest usage count among those whose put does not fail,
     * their counts are lowered by their passes, and the sweep gives up exactly when all of
     * them are at the maximum.
     */
    method EvictAndPin(down: set<K>) returns (r: Option<nat>)
      requires Valid()
      modifies this`hand, this`store, dirty, chains, chains.tags, chains.next, chains.heads, usage
      ensures Valid() && view == old(view) && OnlyUnlinks()
      ensures r.Some? ==> Free(r.value) && usage[r.value] == 0
      ensures r.None? ==> chains.where == old(chains.where)
      ensures SweptTo(old(usage[..]), old(Good(down)), old(hand), r)
      ensures r.Some? <==> old(Room(down))
    {
      hide CacheOk, ChainsOk, Swept, Counts, AtStep, At, Untouched, Touched, IsVictim;
      var n, start := dirty.Length, hand;
      ghost var u, good := usage[..], Good(down);
      ghost var p, q := 0, 0;
      SweepStart(u, good, start);
      FirstStep(n);
      for i := 0 to n * MAX_USAGE
        invariant Valid() && view == old(view) && chains.where == old(chains.where) && hand == start
        invariant chains.tags[..] == old(chains.tags[..]) && dirty[..] == old(dirty[..])
        invariant AtStep(i, p, q, n) && Swept(u, usage[..], good, start, p, q)
      {
        NextStep(i, p, q, n, start);
        var slot := (start + i) % n;
        ghost var now := usage[..];
        SameGood(down, old(chains.tags[..]), old(dirty[..]), good, slot);
        var prev := Untouch(slot);
        if prev == 0 {
          UntouchZero(now, slot);
          var ok := TryEvict(slot, down);
          if ok {
            hand := (slot + 1) % n;
            VictimFound(u, now, usage[..], good, start, p, q);
            return Some(slot);
          }
        }
        SweepNext(u, now, usage[..], good, start, p, q);
        p, q := NextRound(p, q, n), NextOffset(q, n);
      }
      LastStep(p, q, n);
      SweepExhausted(u, usage[..], good, start);
      r := None;
    }

    /** Whether a slot can be evicted does not change while nothing is flushed. */
    lemma SameGood(down: set<K>, tags: seq<K>, ds: seq<bool>, good: seq<bool>, s: nat)
      requires Shaped() && chains.tags[..] == tags && dirty[..] == ds && s < |good| == |ds|
      requires forall x :: 0 <= x < |good| ==> (good[x] <==> (!ds[x] || tags[x] !in down))
      ensures good[s] <==> Evictable(s, down)
    {
    }

    // ── Lookup, hits and insertion ──

    method Find(k: K) returns (r: Option<nat>)
      requires Valid()
      ensures r == if k in chains.where then Some(chains.where[k]) else None
      ensures r.Some? ==> r.value < data.Length == usage.Length && k in view && view[k] == data[r.value]
    {
      hide ChainsOk;
      r := chains.Lookup(k);
      if r.Some? {
        SlotIs(chains.tags[..], dirty[..], data[..], chains.where, empty, store, view, k);
      }
    }

    /** A hit that writes: the new value, marked dirty. */
    method WriteHit(k: K, s: nat, v: V)
      requires Valid() && k in chains.where && chains.where[k] == s < data.Length
      modifies this`view, data, dirty, usage
      ensures Valid() && view == old(view)[k := v]
      ensures usage[..] == old(usage[..])[s := Touched(old(usage[s]))] && dirty[..] == old(dirty[..])[s := true]
    {
      hide ChainsOk, Counts;
      WriteSlot(chains.tags[..], dirty[..], data[..], chains.where, empty, store, view, k, v);
      hide CacheOk;
      ghost var xs, ds := data[..][s := v], dirty[..][s := true];
      data[s] := v;
      dirty[s] := true;
      assert data[..] == xs && dirty[..] == ds;
      view := view[k := v];
      Touch(s);
    }

    /**
     * `insert`: evict, write the value, and link it unless the tag is linked already.
     * A clean value must be the store's.
     */
    method Insert(k: K, v: V, mark: bool, down: set<K>) returns (r: InsertResult)
      requires Valid() && k != empty
      requires mark || (k !in chains.where && k in store && store[k] == v)
      modifies this, chains, chains.tags, chains.next, chains.heads, dirty, usage, data
      ensures Valid()
      ensures r.Inserted? ==> view == old(view)[k := v] && k in chains.where
      ensures r.Inserted? ==> chains.where[k] < usage.Length && usage[chains.where[k]] == 1 && dirty[chains.where[k]] == mark
      ensures !r.Inserted? ==> view == old(view)
      ensures r.Duplicate? ==> k in old(chains.where) && k in chains.where
      ensures r.NoVictim? <==> !old(Room(down))
    {
      hide ChainsOk, Counts, SweptTo, CacheOk, Room;
      StoreOfMissing(k);
      var slot := EvictAndPin(down);
      if slot.None? {
        return NoVictim;
      }
      var s := slot.value;
      StoreOfMissing(k);
      WriteFree(s, v);
      var found := chains.Lookup(k);
      if found.Some? {
        return Duplicate;
      }
      LinkFree(s, k, mark);
      r := Inserted;
    }

    /** What the store has for a tag that is not linked is what readers see. */
    lemma StoreOfMissing(k: K)
      requires Valid()
      ensures k !in chains.where ==> (k in view <==> k in store) && (k in store ==> view[k] == store[k])
    {
    }

    /** A linked tag's slot carries it. */
    lemma SlotOf(k: K)
      requires Valid()
      ensures chains.tags.Length == dirty.Length
      ensures k in chains.where ==> chains.where[k] < dirty.Length && chains.tags[chains.where[k]] == k
    {
      assert k in chains.where ==> chains.tags[..][chains.where[k]] == k;
    }

    /** Write a value into a free slot; no reader notices. */
    method WriteFree(s: nat, v: V)
      requires Valid() && Free(s)
      modifies data
      ensures Valid() && Free(s) && data[s] == v && !dirty[s]
    {
      hide ChainsOk, Counts;
      RefillSlot(chains.tags[..], dirty[..], data[..], chains.where, empty, store, view, s, chains.tags[s], v);
      hide CacheOk;
      assert chains.tags[..][s := chains.tags[s]] == chains.tags[..];
      ghost var xs := data[..][s := v];
      data[s] := v;
      assert data[..] == xs;
    }

    /** Link a written slot under its tag. */
    method LinkFree(s: nat, k: K, mark: bool)
      requires Valid() && Free(s) && k != empty && k !in chains.where
      requires mark || (k in store && store[k] == data[s])
      modifies this`view, chains, chains.tags, chains.next, chains.heads, dirty, usage
      ensures Valid() && view == old(view)[k := data[s]] && k in chains.where && chains.where[k] == s
      ensures usage[..] == old(usage[..])[s := Touched(old(usage[s]))] && dirty[..] == old(dirty[..])[s := mark]
    {
      hide ChainsOk, Counts;
      ghost var ts, ds, xs := chains.tags[..], dirty[..], data[..];
      RefillSlot(ts, ds, xs, chains.where, empty, store, view, s, k, data[s]);
      assert xs[s := data[s]] == xs;
      LinkSlot(ts[s := k], ds, xs, chains.where, empty, store, view, s, mark);
      hide CacheOk;
      chains.Link(s, k);
      if mark {
        dirty[s] := true;
      }
      assert dirty[..] == ds[s := mark];
      view := view[k := data[s]];
      Touch(s);
    }

    // ── Flushing ──

    /** `flush_dirty_chunks` and `flush_dirty_metas`: the first failed put stops it. */
    method FlushAll(only: K -> bool, down: set<K>) returns (ok: bool)
      requires Valid()
      modifies this`store, dirty
      ensures Valid() && view == old(view)
      ensures ok ==> forall k :: k in view && only(k) ==> k in store && store[k] == view[k]
      ensures forall k :: k in store ==> k in view
      ensures ok <==> forall x :: 0 <= x < dirty.Length && old(dirty[..])[x] && only(chains.tags[x]) ==> chains.tags[x] !in down
    {
      hide ChainsOk, Counts, CacheOk;
      StoreInView();
      for s := 0 to dirty.Length
        invariant Valid() && view == old(view) && (forall k :: k in store ==> k in view)
        invariant forall x :: 0 <= x < s && only(chains.tags[x]) ==> !dirty[x]
        invariant forall x :: s <= x < dirty.Length ==> dirty[x] == old(dirty[..])[x]
        invariant forall x :: 0 <= x < s && old(dirty[..])[x] && only(chains.tags[x]) ==> chains.tags[x] !in down
      {
        if dirty[s] && only(chains.tags[s]) {
          ghost var ds := dirty[..];
          var r := TryFlush(s, down);
          StoreInView();
          if r.Failed? {
            return false;
          }
          assert forall x :: 0 <= x < s ==> dirty[..][x] == ds[x];
        }
      }
      AllFlushed(only);
      ok := true;
    }

    lemma StoreInView()
      requires Valid()
      ensures forall k :: k in store ==> k in view
    {
    }

    lemma AllFlushed(only: K -> bool)
      requires Valid() && forall x :: 0 <= x < dirty.Length && only(chains.tags[x]) ==> !dirty[x]
      ensures forall k :: k in view && only(k) ==> k in store && store[k] == view[k]
    {
      forall k | k in view && only(k) ensures k in store && store[k] == view[k] {
        if k in chains.where {
          assert chains.tags[..][chains.where[k]] == k;
          assert !dirty[..][chains.where[k]];
        }
      }
    }

    // ── Dropping ──

    /** Unlink a slot and discard its value, flushed or not. */
    method Drop(s: nat)
      requires Valid() && s < dirty.Length
      modifies this`view, chains, chains.tags, chains.next, chains.heads, dirty, usage
      ensures Valid() && OnlyUnlinks()
      ensures view == if old(chains.Linked(s)) then Dropped(store, old(view), old(chains.tags[s])) else old(view)
      ensures !(old(chains.tags[s]) in chains.where && chains.where[old(chains.tags[s])] == s) && chains.tags[..] == old(chains.tags[..])[s := empty]
    {
      hide ChainsOk, Counts;
      ghost var ts, ds, xs := chains.tags[..], dirty[..], data[..];
      if chains.Linked(s) {
        DropSlot(ts, ds, xs, chains.where, empty, store, view, s);
      } else {
        RefillSlot(ts, ds, xs, chains.where, empty, store, view, s, ts[s], xs[s]);
        assert ds[s := false] == ds;
      }
      hide CacheOk;
      view := if chains.Linked(s) then Dropped(store, view, chains.tags[s]) else view;
      chains.UnlinkOwn(s);
      dirty[s] := false;
      assert dirty[..] == ds[s := false];
      ghost var us := usage[..];
      RefillSlot(ts, dirty[..], xs, chains.where, empty, store, view, s, empty, xs[s]);
      assert xs[s := xs[s]] == xs;
      chains.Clear(s, empty);
      usage[s] := 0;
      assert usage[..] == us[s := 0];
      CountsUpdate(us, s, 0);
    }

    lemma EmptyIsClean(s: nat)
      requires Valid() && s < dirty.Length && chains.tags[s] == empty
      ensures !dirty[s]
    {
      assert dirty[..][s] ==> LinkedAt(chains.tags[..], chains.where, s);
    }
  }

  /** Step `i` of the sweep is step `q` of round `p`. */
  predicate AtStep(i: nat, p: nat, q: nat, n: nat) {
    i == p * n + q && q < n && p <= MAX_USAGE && (p == MAX_USAGE ==> q == 0)
  }

  function NextRound(p: nat, q: nat, n: nat): nat {
    if q + 1 == n then p + 1 else p
  }

  function NextOffset(q: nat, n: nat): nat {
    if q + 1 == n then 0 else q + 1
  }

  lemma FirstStep(n: nat)
    requires n > 0
    ensures AtStep(0, 0, 0, n)
  {
  }

  lemma NextStep(i: nat, p: nat, q: nat, n: nat, start: nat)
    requires AtStep(i, p, q, n) && i < n * MAX_USAGE && start < n
    ensures p < MAX_USAGE && q < n && (start + i) % n == At(start, q, n)
    ensures AtStep(i + 1, NextRound(p, q, n), NextOffset(q, n), n)
  {
    SlotOfStep(start, p, q, n);
    if q + 1 == n {
      assert (p + 1) * n == p * n + n;
    }
  }

  lemma LastStep(p: nat, q: nat, n: nat)
    requires n > 0 && AtStep(n * MAX_USAGE, p, q, n)
    ensures p == MAX_USAGE && q == 0
  {
  }

  lemma SweepNext(u: seq<nat>, now: seq<nat>, after: seq<nat>, good: seq<bool>, start: nat, p: nat, q: nat)
    requires Swept(u, now, good, start, p, q) && q < |u| && |after| == |now|
    requires var s := At(start, q, |u|);
             && (forall x :: 0 <= x < |u| && x != s ==> after[x] == now[x])
             && (good[s] ==> now[s] > 0 && after[s] == Untouched(now[s]))
    ensures Swept(u, after, good, start, NextRound(p, q, |u|), NextOffset(q, |u|))
  {
    SweepPass(u, now, after, good, start, p, q);
    if q + 1 == |u| {
      SweepRound(u, after, good, start, p);
    }
  }

  lemma UntouchZero(us: seq<nat>, s: nat)
    requires s < |us| && us[s] == 0
    ensures us[s := Untouched(us[s])] == us
  {
  }

  /** The victim, once cleared: each count is down by its passes. */
  lemma VictimFound(u: seq<nat>, now: seq<nat>, after: seq<nat>, good: seq<bool>, start: nat, p: nat, q: nat)
    requires Swept(u, now, good, start, p, q) && q < |u| && now[At(start, q, |u|)] == 0 && p < MAX_USAGE && good[At(start, q, |u|)]
    requires after == now[At(start, q, |u|) := 0]
    ensures var s := At(start, q, |u|);
            && IsVictim(u, good, start, s) && u[s] < MAX_USAGE && after[s] == 0 && Spare(u, good)
            && (forall d {:trigger At(start, d, |u|)} :: 0 <= d < |u| && good[At(start, d, |u|)] ==>
                  after[At(start, d, |u|)] == u[At(start, d, |u|)] - Passes(d, u[s], Steps(start, s, |u|)))
  {
    SweepStop(u, now, good, start, p, q);
  }

  lemma SlotIs<K(!new), V(!new)>(tags: seq<K>, dirty: seq<bool>, data: seq<V>, where: map<K, nat>,
                                 empty: K, store: map<K, V>, view: map<K, V>, k: K)
    requires CacheOk(tags, dirty, data, where, empty, store, view) && k in where
    ensures where[k] < |data| && k in view && view[k] == data[where[k]]
  {
  }

  lemma CountsUpdate(us: seq<nat>, s: nat, c: nat)
    requires Counts(us) && s < |us| && c <= MAX_USAGE
    ensures Counts(us[s := c])
  {
  }

  lemma StillFree<K(!new), V(!new)>(tags: seq<K>, dirty: seq<bool>, data: seq<V>, where: map<K, nat>,
                                    empty: K, store: map<K, V>, view: map<K, V>, s: nat)
    requires CacheOk(tags, dirty, data, where, empty, store, view) && s < |tags|
    ensures !LinkedAt(tags[s := empty], where, s)
  {
  }
}
