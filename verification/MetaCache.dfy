/** The write-back cache of fork lengths and deletion marks, run by one thread. */
module MetaCache {
  import opened Types
  import opened HashChains
  import opened SlotCache

  /** A default tag means that a slot is empty. */
  const NO_FORK := RelFork(0, 0, 0, 0)

  datatype Error = NotFound | AlreadyExists | Exhausted

  datatype Result<+T> = Ok(value: T) | Err(error: Error)

  class MetaCache {
    const slots: SlotCache<RelFork, Meta>
    ghost const repr: set<object>

    ghost predicate Valid()
      reads this, repr
    {
      && repr == {slots, slots.chains, slots.chains.tags, slots.chains.next, slots.chains.heads, slots.dirty, slots.usage, slots.data}
      && slots.Valid() && slots.empty == NO_FORK
    }

    constructor (n: nat, buckets: nat, hash: RelFork -> nat, store: map<RelFork, Meta>)
      requires 0 < n <= NIL && buckets > 0
      ensures Valid() && slots.view == store && slots.store == store && slots.chains.where == map[] && fresh(repr)
    {
      var t := new SlotCache(n, buckets, hash, NO_FORK, Meta(0, false), store);
      slots := t;
      repr := {t, t.chains, t.chains.tags, t.chains.next, t.chains.heads, t.dirty, t.usage, t.data};
    }

    /** The fork's entry is cached, or some slot can be evicted for it. */
    ghost predicate CanHold(rf: RelFork, down: set<RelFork>)
      requires Valid()
      reads this, repr
    {
      rf in slots.chains.where || slots.Room(down)
    }

    /** `load_from_store`: fetch and insert; afterwards the fork is in the cache. */
    method LoadFromStore(rf: RelFork, down: set<RelFork>) returns (r: Result<Meta>)
      requires Valid() && rf != NO_FORK && rf !in slots.chains.where
      modifies repr
      ensures Valid() && slots.view == old(slots.view)
      ensures r.Ok? ==> rf in slots.chains.where && rf in slots.view && r.value == slots.view[rf]
      ensures r == Err(NotFound) <==> rf !in slots.view
      ensures r == Err(NotFound) ==> slots.chains.where == old(slots.chains.where)
      ensures r == Err(NotFound) ==> (slots.Room(down) <==> old(slots.Room(down)))
      ensures r == Err(Exhausted) <==> rf in slots.view && !old(CanHold(rf, down))
      ensures r != Err(AlreadyExists)
    {
      hide SlotCache.Valid, SlotCache.Room;
      slots.StoreOfMissing(rf);
      if rf !in slots.store {
        return Err(NotFound);
      }
      var meta := slots.store[rf];
      var i := slots.Insert(rf, meta, false, down);
      assert old(slots.view)[rf := meta] == old(slots.view);
      r := if i.NoVictim? then Err(Exhausted) else Ok(meta);
    }

    /** `get_meta`: cache, then store; it fails for a missing fork, and for one that cannot be held. */
    method GetMeta(rf: RelFork, down: set<RelFork>) returns (r: Result<Meta>)
      requires Valid() && rf != NO_FORK
      modifies repr
      ensures Valid() && slots.view == old(slots.view)
      ensures r.Ok? ==> rf in slots.chains.where && rf in slots.view && r.value == slots.view[rf]
      ensures r == Err(NotFound) <==> rf !in slots.view
      ensures r == Err(Exhausted) <==> rf in slots.view && !old(CanHold(rf, down))
      ensures r != Err(AlreadyExists)
    {
      hide SlotCache.Valid, SlotCache.Room;
      var s := slots.Find(rf);
      if s.Some? {
        r := Ok(slots.data[s.value]);
        slots.Touch(s.value);
        return;
      }
      r := LoadFromStore(rf, down);
    }

    method GetNblocks(rf: RelFork, down: set<RelFork>) returns (r: Result<U32>)
      requires Valid() && rf != NO_FORK
      modifies repr
      ensures Valid() && slots.view == old(slots.view)
      ensures r.Ok? ==> rf in slots.view && slots.view[rf] == Meta(r.value, false) && rf in slots.chains.where
      ensures r == Err(NotFound) ==> rf in slots.view ==> slots.view[rf].deleted
      ensures r == Err(Exhausted) <==> rf in slots.view && !old(CanHold(rf, down))
      ensures r != Err(AlreadyExists)
    {
      hide SlotCache.Valid, SlotCache.Room;
      var m := GetMeta(rf, down);
      match m
      case Err(e) => r := Err(e);
      case Ok(meta) => r := if meta.deleted then Err(NotFound) else Ok(meta.nblocks);
    }

    /** `put_nblocks`: a new length for a live fork. */
    method PutNblocks(rf: RelFork, nblocks: U32, down: set<RelFork>) returns (r: Result<()>)
      requires Valid() && rf != NO_FORK
      modifies repr
      ensures Valid()
      ensures r.Ok? ==> rf in old(slots.view) && !old(slots.view)[rf].deleted && slots.view == old(slots.view)[rf := Meta(nblocks, false)]
      ensures r.Err? ==> slots.view == old(slots.view)
      ensures r == Err(NotFound) ==> rf in slots.view ==> slots.view[rf].deleted
      ensures r == Err(Exhausted) <==> rf in slots.view && !old(CanHold(rf, down))
      ensures r != Err(AlreadyExists)
    {
      hide SlotCache.Valid, SlotCache.Room;
      while true
        invariant Valid() && slots.view == old(slots.view)
        invariant rf in slots.view && !old(CanHold(rf, down)) ==> rf !in slots.chains.where && !CanHold(rf, down)
        invariant old(CanHold(rf, down)) ==> CanHold(rf, down)
        decreases if rf in slots.chains.where then 0 else 1
      {
        var s := slots.Find(rf);
        if s.Some? {
          var m := slots.data[s.value];
          if m.deleted {
            return Err(NotFound);
          }
          slots.WriteHit(rf, s.value, Meta(nblocks, m.deleted));
          return Ok(());
        }
        var got := LoadFromStore(rf, down);
        if got.Err? {
          return Err(got.error);
        }
      }
    }

    /** `put_deleted`: mark a live fork; deletion zeroes its length. */
    method PutDeleted(rf: RelFork, deleted: bool, down: set<RelFork>) returns (r: Result<()>)
      requires Valid() && rf != NO_FORK
      modifies repr
      ensures Valid()
      ensures r.Ok? ==> rf in old(slots.view) && !old(slots.view)[rf].deleted
      ensures r.Ok? ==> slots.view == old(slots.view)[rf := Meta(if deleted then 0 else old(slots.view)[rf].nblocks, deleted)]
      ensures r.Err? ==> slots.view == old(slots.view)
      ensures r == Err(NotFound) ==> rf in slots.view ==> slots.view[rf].deleted
      ensures r == Err(Exhausted) <==> rf in slots.view && !old(CanHold(rf, down))
      ensures r != Err(AlreadyExists)
    {
      hide SlotCache.Valid, SlotCache.Room;
      while true
        invariant Valid() && slots.view == old(slots.view)
        invariant rf in slots.view && !old(CanHold(rf, down)) ==> rf !in slots.chains.where && !CanHold(rf, down)
        invariant old(CanHold(rf, down)) ==> CanHold(rf, down)
        decreases if rf in slots.chains.where then 0 else 1
      {
        var s := slots.Find(rf);
        if s.Some? {
          var m := slots.data[s.value];
          if m.deleted {
            return Err(NotFound);
          }
          var nblocks := if deleted then 0 else m.nblocks;
          slots.WriteHit(rf, s.value, Meta(nblocks, deleted));
          return Ok(());
        }
        var got := LoadFromStore(rf, down);
        if got.Err? {
          return Err(got.error);
        }
      }
    }

    /** `create_relfork`: an absent or deleted fork becomes live and empty. */
    method CreateRelfork(rf: RelFork, down: set<RelFork>) returns (r: Result<()>)
      requires Valid() && rf != NO_FORK
      modifies repr
      ensures Valid()
      ensures r.Ok? ==> (rf in old(slots.view) ==> old(slots.view)[rf].deleted) && slots.view == old(slots.view)[rf := Meta(0, false)]
      ensures r.Err? ==> slots.view == old(slots.view)
      ensures r == Err(AlreadyExists) ==> rf in slots.view && !slots.view[rf].deleted
      ensures r == Err(Exhausted) <==> !old(CanHold(rf, down))
      ensures r != Err(NotFound)
    {
      hide SlotCache.Valid, SlotCache.Room;
      while true
        invariant Valid() && slots.view == old(slots.view)
        invariant old(CanHold(rf, down)) <==> CanHold(rf, down)
        decreases if rf in slots.chains.where then 0 else 1
      {
        var s := slots.Find(rf);
        if s.Some? {
          var m := slots.data[s.value];
          if !m.deleted {
            return Err(AlreadyExists);
          }
          slots.WriteHit(rf, s.value, Meta(0, false));
          return Ok(());
        }
        var got := LoadFromStore(rf, down);
        if got == Err(NotFound) {
          var i := slots.Insert(rf, Meta(0, false), true, down);
          return if i.Inserted? then Ok(()) else Err(Exhausted);
        }
        if got.Err? {
          return Err(got.error);
        }
      }
    }

    /** No dirty entry that the flush asks for has a put that fails. */
    ghost predicate CanFlush(only: Option<RelFork>, down: set<RelFork>)
      requires Valid()
      reads this, repr
    {
      forall s :: 0 <= s < slots.dirty.Length && slots.dirty[s] && (only == None || only == Some(slots.chains.tags[s])) ==>
        slots.chains.tags[s] !in down
    }

    /** `flush_dirty_metas`, for one fork or all. */
    method FlushDirtyMetas(only: Option<RelFork>, down: set<RelFork>) returns (ok: bool)
      requires Valid()
      modifies repr
      ensures Valid() && slots.view == old(slots.view)
      ensures ok ==> forall rf :: rf in slots.view && (only == None || only == Some(rf)) ==> rf in slots.store && slots.store[rf] == slots.view[rf]
      ensures ok <==> old(CanFlush(only, down))
      ensures ok && only == None ==> slots.store == slots.view
    {
      hide SlotCache.Valid;
      ok := slots.FlushAll((rf: RelFork) => only == None || only == Some(rf), down);
    }
  }
}
