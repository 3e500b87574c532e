/**
 * When a cache can serve a list of chunks one after the other: a chunk that is cached is
 * found, another one needs a slot to evict. Serving a cached chunk raises its count, so a
 * list may fail that starts with room to spare; after one miss there is always room.
 */
module CacheRoom {
  import opened Types
  import opened ClockSweep

  /** Where chunks are linked, the usage counts, and which slots can be evicted. */
  datatype Counters = Counters(where: map<ChunkTag, nat>, usage: seq<nat>, good: seq<bool>)

  ghost predicate Sane(s: Counters) {
    && |s.usage| == |s.good|
    && (forall t {:trigger s.where[t]} :: t in s.where ==> s.where[t] < |s.usage|)
    && (forall t, u {:trigger s.where[t], s.where[u]} :: t in s.where && u in s.where && t != u ==> s.where[t] != s.where[u])
  }

  /** One chunk can be served. */
  ghost predicate CanServeOne(s: Counters, t: ChunkTag)
    requires Sane(s)
  {
    t in s.where || Spare(s.usage, s.good)
  }

  /**
   * The chunks can be served in order: if one is not cached, the chunks found before the
   * first such one leave some evictable slot's count below the maximum.
   */
  ghost predicate CanServe(s: Counters, tags: seq<ChunkTag>)
    requires Sane(s)
    decreases |tags|
  {
    tags == [] || (if tags[0] in s.where then CanServe(Hit(s, tags[0]), tags[1..]) else Spare(s.usage, s.good))
  }

  lemma ServeNone(s: Counters, tags: seq<ChunkTag>)
    requires Sane(s) && |tags| == 0
    ensures CanServe(s, tags)
  {
  }

  function Hit(s: Counters, t: ChunkTag): Counters
    requires t in s.where && s.where[t] < |s.usage|
  {
    s.(usage := s.usage[s.where[t] := Touched(s.usage[s.where[t]])])
  }

  /** The chunk was served: found, or put in a slot whose count is now one. */
  ghost predicate Served(s: Counters, s1: Counters, t: ChunkTag) {
    && Sane(s) && Sane(s1)
    && if t in s.where then s1 == Hit(s, t)
       else Spare(s.usage, s.good) && Warm(s1, t)
  }

  /** The chunk is cached in an evictable slot with count one. */
  ghost predicate Warm(s: Counters, t: ChunkTag)
    requires Sane(s)
  {
    t in s.where && s.usage[s.where[t]] == 1 && s.good[s.where[t]]
  }

  ghost predicate Distinct(tags: seq<ChunkTag>) {
    forall i, j :: 0 <= i < j < |tags| ==> tags[i] != tags[j]
  }

  /** Where serving a list stands after its first `k` chunks: only hits so far, or a miss left a warm slot. */
  ghost predicate Serving(s0: Counters, s: Counters, tags: seq<ChunkTag>, k: nat) {
    && Sane(s0) && Sane(s) && k <= |tags| && Distinct(tags)
    && ((CanServe(s0, tags) <==> CanServe(s, tags[k..]))
        || (CanServe(s0, tags) && exists m :: 0 <= m < k && Warm(s, tags[m])))
  }

  lemma ServingStart(s: Counters, tags: seq<ChunkTag>)
    requires Sane(s) && Distinct(tags)
    ensures Serving(s, s, tags, 0)
  {
    assert tags[0..] == tags;
  }

  lemma WarmIsSpare(s: Counters, t: ChunkTag)
    requires Sane(s)
    ensures Warm(s, t) ==> Spare(s.usage, s.good)
  {
  }

  /** Each chunk served brings the list one further. */
  lemma ServingNext(s0: Counters, s: Counters, s1: Counters, tags: seq<ChunkTag>, k: nat)
    requires Serving(s0, s, tags, k) && k < |tags| && Served(s, s1, tags[k])
    ensures Serving(s0, s1, tags, k + 1)
  {
    hide Spare;
    var rest := tags[k..];
    assert rest[0] == tags[k] && rest[1..] == tags[k + 1..];
    if tags[k] !in s.where {
      assert Warm(s1, tags[k]);
    } else if exists m :: 0 <= m < k && Warm(s, tags[m]) {
      var m :| 0 <= m < k && Warm(s, tags[m]);
      assert tags[m] != tags[k];
      assert Warm(s1, tags[m]);
    }
  }

  /** A chunk that cannot be served was not to be: the list could not be served from the start. */
  lemma ServingFails(s0: Counters, s: Counters, tags: seq<ChunkTag>, k: nat)
    requires Serving(s0, s, tags, k) && k < |tags| && !CanServeOne(s, tags[k])
    ensures !CanServe(s0, tags)
  {
    assert tags[k..][0] == tags[k];
    forall m | 0 <= m < k ensures !Warm(s, tags[m]) {
      WarmIsSpare(s, tags[m]);
    }
  }

  lemma ServingEnds(s0: Counters, s: Counters, tags: seq<ChunkTag>)
    requires Serving(s0, s, tags, |tags|)
    ensures CanServe(s0, tags)
  {
  }

  /** Enough for any list: all of it is cached, or some evictable slot's count is three or less. */
  lemma {:induction false} ServeIf(s: Counters, tags: seq<ChunkTag>)
    requires Sane(s) && Distinct(tags)
    requires (forall i :: 0 <= i < |tags| ==> tags[i] in s.where)
             || (exists x :: 0 <= x < |s.usage| && s.good[x] && s.usage[x] <= 3)
    ensures CanServe(s, tags)
  {
    if i :| 0 <= i < |tags| && tags[i] !in s.where {
      var x :| 0 <= x < |s.usage| && s.good[x] && s.usage[x] <= 3;
      LowServes(s, tags, x, 0);
    } else {
      AllCachedServe(s, tags);
    }
  }

  lemma {:induction false} AllCachedServe(s: Counters, tags: seq<ChunkTag>)
    requires Sane(s) && forall i :: 0 <= i < |tags| ==> tags[i] in s.where
    ensures CanServe(s, tags)
    decreases |tags|
  {
    if tags != [] {
      assert tags[0] in s.where;
      AllCachedServe(Hit(s, tags[0]), tags[1..]);
    }
  }

  /** A slot's own chunk is found at most once, so a count of three stays below five. */
  lemma {:induction false} LowServes(s: Counters, tags: seq<ChunkTag>, x: nat, hits: nat)
    requires Sane(s) && Distinct(tags) && x < |s.usage| && s.good[x] && s.usage[x] <= 3 + hits && hits <= 1
    requires hits == 1 ==> forall i :: 0 <= i < |tags| && tags[i] in s.where ==> s.where[tags[i]] != x
    ensures CanServe(s, tags)
    decreases |tags|
  {
    if tags != [] {
      if tags[0] in s.where {
        var s1 := Hit(s, tags[0]);
        forall i | 0 <= i < |tags[1..]| && tags[1..][i] in s.where && s.where[tags[0]] == x ensures s.where[tags[1..][i]] != x {
          assert tags[1..][i] == tags[i + 1] && tags[0] != tags[i + 1];
        }
        LowServes(s1, tags[1..], x, if s.where[tags[0]] == x then 1 else hits);
      } else {
        assert s.good[x] && s.usage[x] < MAX_USAGE;
      }
    }
  }
}
