/** The write-back cache of 256 KB chunks, run by one thread. */
module ChunkCache {
  import opened Types
  import opened HashChains
  import opened WriteBack
  import opened SlotCache
  import opened ClockSweep
  import opened CacheRoom

  /** A default tag means that a slot is empty. */
  const NO_TAG := ChunkTag(RelFork(0, 0, 0, 0), 0)

  datatype GetResult = Ok(chunk: Chunk) | NotFound | Exhausted

  datatype PutResult = Done | NoSlot

  /** The first block of a chunk. */
  function StartBlock(t: ChunkTag): nat {
    t.id * BLOCKS_PER_CHUNK
  }

  /** Chunks of `rf` that lie wholly at or beyond `firstBlock`. */
  predicate Beyond(rf: RelFork, firstBlock: nat, t: ChunkTag) {
    t.rf == rf && firstBlock <= StartBlock(t)
  }

  /** What lies before the cut reads as it did. */
  ghost predicate KeptBefore(before: map<ChunkTag, Chunk>, after: map<ChunkTag, Chunk>, rf: RelFork, firstBlock: nat) {
    forall t {:trigger t in after} {:trigger t in before} :: !Beyond(rf, firstBlock, t) ==>
      (t in after <==> t in before) && (t in before ==> after[t] == before[t])
  }

  /** What lies beyond the cut reads as the store has it. */
  ghost predicate StoredBeyond(store: map<ChunkTag, Chunk>, after: map<ChunkTag, Chunk>, rf: RelFork, firstBlock: nat) {
    forall t {:trigger t in after} {:trigger t in store} :: Beyond(rf, firstBlock, t) ==>
      (t in after <==> t in store) && (t in store ==> after[t] == store[t])
  }

  /** A view after a truncation. */
  ghost predicate TruncatedView(before: map<ChunkTag, Chunk>, store: map<ChunkTag, Chunk>, after: map<ChunkTag, Chunk>,
                                rf: RelFork, firstBlock: nat)
  {
    KeptBefore(before, after, rf, firstBlock) && StoredBeyond(store, after, rf, firstBlock)
  }

  lemma KeptAll(v: map<ChunkTag, Chunk>, rf: RelFork, firstBlock: nat)
    ensures KeptBefore(v, v, rf, firstBlock)
  {
  }

  lemma DropKeeps(before: map<ChunkTag, Chunk>, store: map<ChunkTag, Chunk>, after: map<ChunkTag, Chunk>,
                  rf: RelFork, firstBlock: nat, t: ChunkTag)
    requires KeptBefore(before, after, rf, firstBlock) && Beyond(rf, firstBlock, t)
    ensures KeptBefore(before, Dropped(store, after, t), rf, firstBlock)
  {
  }

  class ChunkCache {
    const slots: SlotCache<ChunkTag, Chunk>
    ghost const repr: set<object>

    ghost predicate Valid()
      reads this, repr
    {
      && repr == {slots, slots.chains, slots.chains.tags, slots.chains.next, slots.chains.heads, slots.dirty, slots.usage, slots.data}
      && slots.Valid() && slots.empty == NO_TAG
    }

    constructor (n: nat, buckets: nat, hash: ChunkTag -> nat, store: map<ChunkTag, Chunk>)
      requires 0 < n <= NIL && buckets > 0
      ensures Valid() && slots.view == store && slots.store == store && slots.chains.where == map[] && fresh(repr)
    {
      var t := new SlotCache<ChunkTag, Chunk>(n, buckets, hash, NO_TAG, Zeros(CHUNK_SIZE), store);
      slots := t;
      repr := {t, t.chains, t.chains.tags, t.chains.next, t.chains.heads, t.dirty, t.usage, t.data};
    }

    /** What decides whether a chunk can be served. */
    ghost function State(down: set<ChunkTag>): (r: Counters)
      requires Valid()
      reads this, repr
      ensures Sane(r)
    {
      StateIsSane(down);
      Counters(slots.chains.where, slots.usage[..], slots.Good(down))
    }

    lemma StateIsSane(down: set<ChunkTag>)
      requires Valid()
      ensures Sane(Counters(slots.chains.where, slots.usage[..], slots.Good(down)))
    {
      var where := slots.chains.where;
      forall t | t in where ensures where[t] < slots.dirty.Length && slots.chains.tags[where[t]] == t {
        slots.SlotOf(t);
      }
    }

    /**
     * `get_chunk`: cache, then store; a read changes nothing a reader can see. It fails for
     * a missing chunk, and for one that is not cached when no slot can be evicted.
     */
    method GetChunk(t: ChunkTag, down: set<ChunkTag>) returns (r: GetResult)
      requires Valid() && t != NO_TAG
      modifies repr
      ensures Valid() && slots.view == old(slots.view)
      ensures r.Ok? ==> t in slots.view && r.chunk == slots.view[t]
      ensures r.NotFound? <==> t !in slots.view
      ensures r.Exhausted? <==> t in slots.view && !CanServeOne(old(State(down)), t)
      ensures r.Ok? ==> Served(old(State(down)), State(down), t)
    {
      hide SlotCache.Valid, Spare;
      var s := slots.Find(t);
      if s.Some? {
        r := Ok(slots.data[s.value]);
        slots.Touch(s.value);
        return;
      }
      slots.StoreOfMissing(t);
      if t !in slots.store {
        return NotFound;
      }
      var data := slots.store[t];
      var i := slots.Insert(t, data, false, down);
      if i.Inserted? {
        assert old(slots.view)[t := data] == old(slots.view);
        slots.SlotOf(t);
        return Ok(data);
      }
      r := Exhausted;
    }

    /**
     * `patch_chunk`: `data` over the chunk as readers see it, or over zeros. It fails only for
     * a chunk that is not cached when no slot can be evicted.
     */
    method PatchChunk(t: ChunkTag, blockOffset: nat, data: Bytes, down: set<ChunkTag>) returns (r: PutResult)
      requires Valid() && t != NO_TAG
      requires data != [] && |data| % BLCKSZ == 0 && blockOffset * BLCKSZ + |data| <= CHUNK_SIZE
      modifies repr
      ensures Valid()
      ensures r.Done? ==> slots.view == old(slots.view)[t := Splice(Base(old(slots.view), t), blockOffset * BLCKSZ, data)]
      ensures r.NoSlot? ==> slots.view == old(slots.view)
      ensures r.Done? <==> CanServeOne(old(State(down)), t)
      ensures r.Done? && t !in down ==> Served(old(State(down)), State(down), t)
    {
      hide SlotCache.Valid, Spare;
      var off := blockOffset * BLCKSZ;
      var full := off == 0 && |data| == CHUNK_SIZE;
      var s := slots.Find(t);
      if s.Some? {
        var chunk: Chunk := if full then data else Splice(slots.data[s.value], off, data);
        WholeSplice(slots.data[s.value], data);
        slots.SlotOf(t);
        slots.WriteHit(t, s.value, chunk);
        assert t !in down ==> State(down).good == old(State(down)).good;
        return Done;
      }
      slots.StoreOfMissing(t);
      var chunk: Chunk := if full then data
                          else Splice(if t in slots.store then slots.store[t] else Zeros(CHUNK_SIZE), off, data);
      WholeSplice(Base(slots.view, t), data);
      var i := slots.Insert(t, chunk, true, down);
      slots.SlotOf(t);
      r := if i.Inserted? then Done else NoSlot;
    }

    /** No dirty entry that the flush asks for has a put that fails. */
    ghost predicate CanFlush(only: Option<RelFork>, down: set<ChunkTag>)
      requires Valid()
      reads this, repr
    {
      forall s :: 0 <= s < slots.dirty.Length && slots.dirty[s] && (only == None || only == Some(slots.chains.tags[s].rf)) ==>
        slots.chains.tags[s] !in down
    }

    /** `flush_dirty_chunks`, for one fork or all. */
    method FlushDirtyChunks(only: Option<RelFork>, down: set<ChunkTag>) returns (ok: bool)
      requires Valid()
      modifies repr
      ensures Valid() && slots.view == old(slots.view)
      ensures ok ==> forall t :: t in slots.view && (only == None || only == Some(t.rf)) ==> t in slots.store && slots.store[t] == slots.view[t]
      ensures ok <==> old(CanFlush(only, down))
      ensures ok && only == None ==> slots.store == slots.view
    {
      hide SlotCache.Valid;
      ok := slots.FlushAll((t: ChunkTag) => only == None || only == Some(t.rf), down);
    }

    /** `truncate_relfork`: chunks at or beyond `firstBlock` leave the cache unflushed; a straddling one stays. */
    method TruncateRelfork(rf: RelFork, firstBlock: nat)
      requires Valid()
      modifies repr
      ensures Valid() && slots.store == old(slots.store)
      ensures TruncatedView(old(slots.view), slots.store, slots.view, rf, firstBlock)
    {
      hide SlotCache.Valid, KeptBefore, StoredBeyond;
      KeptAll(slots.view, rf, firstBlock);
      for s := 0 to slots.dirty.Length
        invariant Valid() && slots.store == old(slots.store)
        invariant KeptBefore(old(slots.view), slots.view, rf, firstBlock) && NoneBelow(rf, firstBlock, s)
      {
        slots.SlotOf(NO_TAG);
        var t := slots.chains.tags[s];
        StillNone(rf, firstBlock, s);
        if Beyond(rf, firstBlock, t) {
          DropKeeps(old(slots.view), slots.store, slots.view, rf, firstBlock, t);
        }
        if t.rf == rf && firstBlock <= StartBlock(t) {
          slots.Drop(s);
        }
      }
      NoneLeft(rf, firstBlock);
    }

    /** No slot below `n` is linked to a chunk beyond the cut. */
    ghost predicate NoneBelow(rf: RelFork, firstBlock: nat, n: nat)
      reads slots, slots.chains
    {
      forall t {:trigger slots.chains.where[t]} :: t in slots.chains.where && Beyond(rf, firstBlock, t) ==> slots.chains.where[t] >= n
    }

    lemma StillNone(rf: RelFork, firstBlock: nat, s: nat)
      requires Valid() && NoneBelow(rf, firstBlock, s) && s < slots.chains.tags.Length
      ensures forall t {:trigger slots.chains.where[t]} :: t in slots.chains.where && Beyond(rf, firstBlock, t) ==>
                slots.chains.where[t] > s || t == slots.chains.tags[s]
    {
      hide SlotCache.Valid;
      forall t | t in slots.chains.where && Beyond(rf, firstBlock, t)
        ensures slots.chains.where[t] > s || t == slots.chains.tags[s]
      {
        slots.SlotOf(t);
      }
    }

    lemma NoneLeft(rf: RelFork, firstBlock: nat)
      requires Valid() && NoneBelow(rf, firstBlock, slots.dirty.Length)
      ensures StoredBeyond(slots.store, slots.view, rf, firstBlock)
    {
      hide SlotCache.Valid;
      forall t | Beyond(rf, firstBlock, t)
        ensures (t in slots.view <==> t in slots.store) && (t in slots.store ==> slots.view[t] == slots.store[t])
      {
        slots.SlotOf(t);
        slots.StoreOfMissing(t);
      }
    }
  }

  /** The bytes a patch goes over. */
  function Base(view: map<ChunkTag, Chunk>, t: ChunkTag): Chunk {
    if t in view then view[t] else Zeros(CHUNK_SIZE)
  }

  /** Writing a whole chunk needs no base. */
  lemma WholeSplice(base: Chunk, data: Bytes)
    requires |data| <= CHUNK_SIZE
    ensures |data| == CHUNK_SIZE ==> Splice(base, 0, data) == data
  {
  }
}
