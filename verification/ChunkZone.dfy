/** The sharded set of chunk tags: each tag in the shard its hash picks. */
module ChunkZone {
  import opened Types
  import opened ProbeTable

  type Shard = Table<ChunkTag, ()>

  class ChunkZone {
    const hash: ChunkTag -> nat
    const cap: nat
    const shards: seq<Shard>
    /** The tags recorded. */
    ghost var tags: set<ChunkTag>
    ghost const repr: set<object>

    /** The shard of a tag. */
    function ShardOf(t: ChunkTag): (i: nat)
      requires |shards| > 0
      ensures i < |shards|
    {
      hash(t) % |shards|
    }

    /** The shards are separate objects, each a valid table. */
    ghost predicate Separate()
      reads this, repr
    {
      && |shards| > 0 && this !in repr
      && (forall i :: 0 <= i < |shards| ==> shards[i] in repr && shards[i].slots in repr)
      && (forall i, j :: 0 <= i < j < |shards| ==> shards[i] != shards[j] && shards[i].slots != shards[j].slots)
      && (forall i :: 0 <= i < |shards| ==> shards[i].Valid() && shards[i].slots.Length == cap)
    }

    /** From shard `n` on, each holds exactly the recorded tags that belong to it. */
    ghost predicate HoldsFrom(n: nat)
      requires Separate()
      reads this, repr
    {
      && (forall i, t :: n <= i < |shards| && t in shards[i].contents ==> t in tags && ShardOf(t) == i)
      && (forall t {:trigger t in tags} :: t in tags && ShardOf(t) >= n ==> t in shards[ShardOf(t)].contents)
    }

    ghost predicate Valid()
      reads this, repr
    {
      Separate() && HoldsFrom(0)
    }

    constructor (numShards: nat, cap: nat, watermark: nat, hash: ChunkTag -> nat)
      requires numShards > 0 && cap > 0
      ensures Valid() && tags == {} && fresh(repr) && this !in repr
      ensures this.hash == hash && this.cap == cap && |shards| == numShards
    {
      var ss: seq<Shard> := [];
      ghost var r: set<object> := {};
      for n := 0 to numShards
        invariant |ss| == n && fresh(r)
        invariant forall i :: 0 <= i < n ==> ss[i] in r && ss[i].slots in r
        invariant forall i, j :: 0 <= i < j < n ==> ss[i] != ss[j] && ss[i].slots != ss[j].slots
        invariant forall i :: 0 <= i < n ==> ss[i].Valid() && ss[i].slots.Length == cap && ss[i].contents == map[]
      {
        var shard := new Table(cap, watermark, hash);
        ss := ss + [shard];
        r := r + {shard, shard.slots};
      }
      this.hash, this.cap, shards := hash, cap, ss;
      tags, repr := {}, r;
    }

    /** The recorded tags that share the tag's shard. */
    ghost function SameShard(t: ChunkTag): set<ChunkTag>
      requires |shards| > 0
      reads this
    {
      set u | u in tags && ShardOf(u) == ShardOf(t)
    }

    /** As many as the shard has slots. */
    ghost predicate ShardFull(t: ChunkTag)
      requires |shards| > 0
      reads this
    {
      |SameShard(t)| == cap
    }

    /** Insertion into one shard; the others stay. */
    method InsertInto(n: nat, t: ChunkTag) returns (r: Outcome)
      requires Separate() && n < |shards|
      modifies shards[n], shards[n].slots
      ensures Separate()
      ensures forall i :: 0 <= i < |shards| && i != n ==> shards[i].contents == old(shards[i].contents)
      ensures r.Added? ==> shards[n].contents == old(shards[n].contents)[t := ()]
      ensures r.Full? ==> shards[n].contents == old(shards[n].contents) && t !in shards[n].contents && shards[n].AtCapacity() && shards[n].contents != map[]
    {
      hide ProbeInv, Holds;
      r := shards[n].Insert(t, ());
    }

    lemma FullShard(t: ChunkTag)
      requires Valid() && shards[ShardOf(t)].AtCapacity() && shards[ShardOf(t)].contents != map[]
      ensures ShardFull(t) && tags != {}
    {
      hide Table.Valid;
      var n := ShardOf(t);
      assert SameShard(t) == shards[n].contents.Keys;
      var k :| k in shards[n].contents;
      assert k in tags;
    }

    /** The tag is in the set afterwards, unless its shard is full without it. */
    method Insert(t: ChunkTag) returns (r: Outcome)
      requires Valid()
      modifies this, repr
      ensures Valid()
      ensures r.Added? ==> tags == old(tags) + {t}
      ensures r.Full? ==> tags == old(tags) && t !in tags && ShardFull(t) && tags != {}
    {
      hide Table.Valid, Table.AtCapacity, ChunkZone.ShardFull;
      var n := ShardOf(t);
      r := InsertInto(n, t);
      if r.Added? {
        tags := tags + {t};
      } else {
        FullShard(t);
      }
    }

    method Contains(t: ChunkTag) returns (r: bool)
      requires Valid()
      ensures r <==> t in tags
    {
      var slot := shards[ShardOf(t)].Get(t);
      r := slot.Occupied?;
    }

    ghost predicate EmptyBelow(n: nat)
      reads this, repr
    {
      Separate() && n <= |shards| && forall i :: 0 <= i < n ==> shards[i].contents == map[]
    }

    /** One shard is emptied; the others stay. */
    method DrainShard(n: nat) returns (out: set<ChunkTag>)
      requires Separate() && n < |shards| && HoldsFrom(n) && EmptyBelow(n)
      modifies repr
      ensures Separate() && HoldsFrom(n + 1) && EmptyBelow(n + 1)
      ensures tags == old(tags) && |out| <= cap
      ensures forall t {:trigger t in out} :: t in out <==> t in tags && ShardOf(t) == n
    {
      hide ProbeInv, Holds;
      var got := shards[n].Drain();
      KeysSize(got);
      out := got.Keys;
    }

    ghost method Clear()
      requires EmptyBelow(|shards|)
      modifies this`tags
      ensures Valid() && tags == {}
    {
      hide Table.Valid;
      tags := {};
    }

    /** Every shard is emptied, in order. */
    method Drain() returns (out: set<ChunkTag>)
      requires Valid()
      modifies this, repr
      ensures Valid() && tags == {}
      ensures out == old(tags) && |out| <= |shards| * cap
    {
      hide HoldsFrom, EmptyBelow;
      NoneEmptyYet();
      out := {};
      for n := 0 to |shards|
        invariant Separate() && tags == old(tags) && HoldsFrom(n) && EmptyBelow(n)
        invariant forall t {:trigger t in out} :: t in out <==> t in tags && ShardOf(t) < n
        invariant |out| <= n * cap
      {
        hide Separate;
        var got := DrainShard(n);
        UnionSize(out, got);
        out := out + got;
        OneMore(n, cap);
      }
      assert out == tags;
      Clear();
    }

    lemma NoneEmptyYet()
      requires Separate()
      ensures EmptyBelow(0)
    {
    }
  }

  lemma UnionSize<T>(a: set<T>, b: set<T>)
    ensures |a + b| <= |a| + |b|
  {
    assert |a + b| + |a * b| == |a| + |b|;
  }

  lemma OneMore(n: nat, cap: nat)
    ensures (n + 1) * cap == n * cap + cap
  {
  }

  lemma KeysSize<K, V>(m: map<K, V>)
    ensures |m.Keys| == |m|
  {
  }
}
