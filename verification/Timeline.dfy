/**
 * The shared timeline state: a ring of the newest checkpoints, each with its Bloom
 * filter and fork index.
 */
module Timeline {
  import opened Types
  import opened WindowSpec
  import opened ChunkBloom
  import opened RelforkIndex

  // ── Segment ranges ──

  /** The overlap test is exact: some checkpoint of the segment lies in the range. */
  lemma OverlapsExact(s: SegmentId, low: Checkpoint, high: Checkpoint)
    requires CkptLe(low, high) && s.index * SEGMENT_LSN_RANGE + SEGMENT_LSN_RANGE <= 0x1_0000_0000_0000_0000
    ensures Overlaps(s, low, high) <==> exists c :: SidOf(c) == s && CkptLe(low, c) && CkptLe(c, high)
  {
    var first := s.index * SEGMENT_LSN_RANGE;
    if Overlaps(s, low, high) {
      var c := Checkpoint(s.tl, if s.tl == low.tl && first < low.lsn then low.lsn else first);
      assert SidOf(c) == s && CkptLe(low, c) && CkptLe(c, high);
    }
    if exists c :: SidOf(c) == s && CkptLe(low, c) && CkptLe(c, high) {
      var c :| SidOf(c) == s && CkptLe(low, c) && CkptLe(c, high);
      OverlapsCovers(c, low, high);
    }
  }

  // ── One entry ──

  class ActiveCheckpoint {
    var ckpt: Checkpoint
    var prev: Checkpoint
    const bloom: ChunkBloom
    const index: RelforkIndex
    ghost const repr: set<object>

    ghost predicate Valid()
      reads this, repr
    {
      && repr == {bloom, bloom.bits, index, index.entries} && this !in repr && PartsApart()
      && bloom.Valid() && index.Valid()
    }

    ghost predicate PartsApart() {
      var a: set<object> := {bloom, bloom.bits};
      var b: set<object> := {index, index.entries};
      a !! b
    }

    /** The entry summarises `k`. */
    ghost predicate Shows(k: Commit)
      reads this, repr
    {
      Valid() && ckpt == k.ckpt && prev == k.prev && bloom.tags == k.chunks && index.forks == k.relforks
    }

    /** The sizes of the filter and the index, which never change. */
    ghost predicate Sized(shape: Shape, cap: nat) {
      bloom.shape == shape && index.entries.Length == cap
    }

    constructor (shape: Shape, cap: nat)
      requires shape.bytes > 0
      ensures Valid() && fresh(repr) && Sized(shape, cap)
    {
      ckpt, prev := GENESIS, GENESIS;
      var b := new ChunkBloom(shape);
      var x := new RelforkIndex(cap);
      bloom, index := b, x;
      repr := {b, b.bits, x, x.entries};
    }

    /** `populate`: identity, filter and index are all replaced. */
    method Populate(ckpt: Checkpoint, prev: Checkpoint, chunks: set<ChunkTag>, relforks: map<RelFork, Meta>)
      requires Valid()
      modifies this, repr
      ensures Valid() && this.ckpt == ckpt && this.prev == prev && bloom.tags == chunks && index.forks == relforks
    {
      this.ckpt, this.prev := ckpt, prev;
      InsertAll(chunks);
      index.Populate(relforks);
    }

    method InsertAll(chunks: set<ChunkTag>)
      requires Valid()
      modifies bloom, bloom.bits
      ensures Valid() && bloom.tags == chunks
    {
      hide ChunkBloom.Valid, RelforkIndex.Valid;
      bloom.Clear();
      var rest := chunks;
      while rest != {}
        invariant Valid() && rest <= chunks && bloom.tags == chunks - rest
        decreases |rest|
      {
        var t :| t in rest;
        bloom.Insert(t);
        rest := rest - {t};
      }
    }
  }

  /** Two entries share no object. */
  ghost predicate Apart(a: ActiveCheckpoint, b: ActiveCheckpoint) {
    a != b && a.repr !! b.repr && a !in b.repr && b !in a.repr
  }

  // ── The ring ──

  /** The slot `i` steps behind the newest one. */
  function SlotBehind(head: nat, i: nat, n: nat): (r: nat)
    requires head < n && i < n
    ensures r < n
  {
    if i < head then head - 1 - i else head + n - 1 - i
  }

  lemma SlotIsModulo(head: nat, i: nat, n: nat)
    requires head < n && i < n
    ensures (head + n - 1 - i) % n == SlotBehind(head, i, n)
  {
    var x := SlotBehind(head, i, n);
    if i < head {
      WrapOnce(x, n);
    } else {
      SmallMod(x, n);
    }
  }

  lemma WrapOnce(x: nat, n: nat)
    requires x < n
    ensures (x + n) % n == x
  {
  }

  lemma SmallMod(x: nat, n: nat)
    requires x < n
    ensures x % n == x
  {
  }

  /** One step on, each slot is one further behind, and only the new one was written. */
  lemma SlotsMove(head: nat, n: nat)
    requires head < n
    ensures (head + 1) % n < n
    ensures SlotBehind((head + 1) % n, 0, n) == head
    ensures forall i {:trigger SlotBehind((head + 1) % n, i, n)} :: 0 < i < n ==>
              SlotBehind((head + 1) % n, i, n) == SlotBehind(head, i - 1, n) != head
  {
    assert (head + 1) % n == if head + 1 == n then 0 else head + 1;
  }

  class TimelineState {
    const window: seq<ActiveCheckpoint>
    const shape: Shape
    const cap: nat
    var generation: nat
    var head: Checkpoint
    var activeCount: nat
    var activeHead: nat
    /** Everything ever pushed, oldest first. */
    ghost var pushes: seq<Commit>
    ghost const repr: set<object>

    ghost predicate Separate()
      reads this, repr
    {
      && |window| > 0 && this !in repr && activeHead < |window| && activeCount <= |window|
      && (forall i :: 0 <= i < |window| ==> window[i] in repr && window[i].repr <= repr && window[i].Valid())
      && (forall i, j :: 0 <= i < j < |window| ==> Apart(window[i], window[j]))
      && shape.bytes > 0 && (forall i :: 0 <= i < |window| ==> window[i].Sized(shape, cap))
    }

    /** The slots behind the head show the newest pushes, newest first. */
    ghost predicate ShowsNewest()
      requires Separate()
      reads this, repr
    {
      && activeCount == Min(|pushes|, |window|)
      && (forall i :: 0 <= i < activeCount ==>
            window[SlotBehind(activeHead, i, |window|)].Shows(pushes[|pushes| - 1 - i]))
      && head == if pushes == [] then GENESIS else pushes[|pushes| - 1].ckpt
    }

    ghost predicate Valid()
      reads this, repr
    {
      Separate() && ShowsNewest()
    }

    constructor (n: nat, shape: Shape, cap: nat)
      requires n > 0 && shape.bytes > 0
      ensures Valid() && pushes == [] && fresh(repr) && |window| == n && this.shape == shape && this.cap == cap
    {
      hide ActiveCheckpoint.Valid;
      var w: seq<ActiveCheckpoint> := [];
      ghost var r: set<object> := {};
      for m := 0 to n
        invariant |w| == m && fresh(r)
        invariant forall i :: 0 <= i < m ==> w[i] in r && w[i].repr <= r && w[i].Valid() && w[i].Sized(shape, cap)
        invariant forall i, j :: 0 <= i < j < m ==> Apart(w[i], w[j])
      {
        var a := new ActiveCheckpoint(shape, cap);
        w := w + [a];
        r := r + {a} + a.repr;
      }
      this.shape, this.cap := shape, cap;
      window, generation, head, activeCount, activeHead := w, 0, GENESIS, 0, 0;
      pushes, repr := [], r;
    }

    /** Fill one slot; what the others show stays. */
    method PopulateAt(n: nat, k: Commit)
      requires Separate() && n < |window|
      modifies window[n], window[n].repr
      ensures Separate() && window[n].Shows(k)
      ensures forall i, x :: 0 <= i < |window| && i != n && old(window[i].Shows(x)) ==> window[i].Shows(x)
    {
      hide ActiveCheckpoint.Valid;
      window[n].Populate(k.ckpt, k.prev, k.chunks, k.relforks);
    }

    /** What the slots behind the head show, but for the slot about to be the newest. */
    ghost predicate OthersShow()
      requires Separate()
      reads this, repr
    {
      && activeCount == Min(|pushes|, |window|)
      && (forall i :: 0 <= i < activeCount && SlotBehind(activeHead, i, |window|) != activeHead ==>
            window[SlotBehind(activeHead, i, |window|)].Shows(pushes[|pushes| - 1 - i]))
    }

    /** Move the head over the slot that was just filled. */
    method Advance(k: Commit)
      requires Separate() && OthersShow() && window[activeHead].Shows(k)
      modifies this`activeHead, this`activeCount, this`head, this`generation, this`pushes
      ensures Valid() && pushes == old(pushes) + [k] && generation == old(generation) + 1
    {
      hide ActiveCheckpoint.Valid, ActiveCheckpoint.Shows, Apart, SlotBehind;
      SlotsMove(activeHead, |window|);
      activeHead := (activeHead + 1) % |window|;
      if activeCount < |window| {
        activeCount := activeCount + 1;
      }
      head := k.ckpt;
      generation := generation + 1;
      pushes := pushes + [k];
    }

    /** `push_active`: the oldest entry gives way once the ring is full. */
    method PushActive(k: Commit)
      requires Valid()
      modifies this, repr
      ensures Valid() && pushes == old(pushes) + [k] && generation == old(generation) + 1
    {
      hide ActiveCheckpoint.Valid, ActiveCheckpoint.Shows, Apart, SlotBehind;
      PopulateAt(activeHead, k);
      Advance(k);
    }

    /** `iter_active`: the entries of the newest `min(pushes, W)` checkpoints, newest first. */
    method IterActive() returns (entries: seq<ActiveCheckpoint>)
      requires Valid()
      ensures |entries| == Min(|pushes|, |window|)
      ensures forall i :: 0 <= i < |entries| ==> entries[i].Shows(pushes[|pushes| - 1 - i]) && entries[i].Sized(shape, cap)
    {
      entries := [];
      for i := 0 to activeCount
        invariant |entries| == i
        invariant forall j :: 0 <= j < i ==> entries[j] == window[SlotBehind(activeHead, j, |window|)]
      {
        var slot := (activeHead + |window| - 1 - i) % |window|;
        SlotIsModulo(activeHead, i, |window|);
        entries := entries + [window[slot]];
      }
    }
  }

  // ── What the read path gets ──

  /** The filters and indexes of a timeline, as the store's read path sees them. */
  ghost function ConfigOf(db: U64, w: nat, shape: Shape, cap: nat): Config
    requires shape.bytes > 0
  {
    Config(db, w, (k: Commit, t: ChunkTag) => shape.Maybe(k.chunks, t),
           (k: Commit, rf: RelFork) => Ask(k.relforks, cap, rf))
  }

  /** Whatever the hash, the filter size and the index cap: the read path may rely on them. */
  lemma TimelineIsSound(db: U64, w: nat, shape: Shape, cap: nat)
    requires shape.bytes > 0 && w > 0
    ensures ConfigOf(db, w, shape, cap).Sound()
  {
    var c := ConfigOf(db, w, shape, cap);
    forall k: Commit, t: ChunkTag | t in k.chunks ensures c.maybe(k, t) {
      NoFalseNegatives(shape, k.chunks, t);
    }
    forall k: Commit, rf: RelFork
      ensures match c.ask(k, rf)
              case Hit(meta) => rf in k.relforks && k.relforks[rf] == meta
              case DefinitiveMiss => rf !in k.relforks
              case Inconclusive => true
    {
      AnswersAreTrue(k.relforks, cap, rf);
    }
  }
}
