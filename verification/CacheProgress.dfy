/**
 * What a thread gets done when no other comes between its steps: flushes store, hits patch,
 * evictions free their slot and fills link it. From any state that keeps the invariant.
 */
module CacheProgress {
  import opened Types
  import opened ChunkCache
  import opened CacheProtocol

  lemma Steps(w: World, a: Act)
    requires Inv(w.s, w.spec) && Enabled(w.s, a)
    ensures CanStep(w, a) && Step(w, a) == World(Next(w.s, a), NextSpec(w.spec, w.s, a))
    ensures Inv(Step(w, a).s, Step(w, a).spec)
  {
    InvIsSane(w.s, w.spec);
    StepKeeps(w.s, w.spec, a);
  }

  /** A linked slot holds the bytes of the last completed patches, a dirty one is linked. */
  lemma SlotSpec(s: State, spec: map<ChunkTag, Chunk>, i: nat)
    requires Inv(s, spec) && i < |s.slots|
    ensures s.slots[i].linked ==> s.slots[i].tag in spec && spec[s.slots[i].tag] == s.slots[i].data
    ensures s.slots[i].dirty ==> s.slots[i].linked && s.slots[i].tag != NO_TAG
    ensures s.slots[i].linked && !s.slots[i].dirty ==> s.slots[i].tag in s.store && s.store[s.slots[i].tag] == s.slots[i].data
  {
    assert SlotOk(s.slots[i], s.store);
    if s.slots[i].linked {
      SpecOfLinked(s, spec, i);
    }
  }

  /** The state with slot `i` and thread `tid` replaced. */
  function With(s: State, i: nat, x: Slot, tid: nat, l: Local, store: map<ChunkTag, Chunk>): State
    requires i < |s.slots|
  {
    State(s.slots[i := x], store, s.threads[tid := l])
  }

  lemma WithAgain(s: State, i: nat, x: Slot, tid: nat, l: Local, store: map<ChunkTag, Chunk>)
    requires i < |s.slots|
    ensures var w := With(s, i, x, tid, l, store);
            && |w.slots| == |s.slots| && w.slots[i] == x && tid in w.threads && w.threads[tid] == l && w.store == store
            && (forall y, m, st :: With(w, i, y, tid, m, st) == With(s, i, y, tid, m, st))
            && (tid !in s.threads ==> w.threads - {tid} == s.threads)
  {
  }

  lemma WithSlot(s: State, i: nat, x: Slot, tid: nat, l: Local, store: map<ChunkTag, Chunk>, y: Slot)
    requires i < |s.slots|
    ensures With(s, i, x, tid, l, store).slots[i := y] == s.slots[i := y]
  {
  }

  // ── Flushes ──

  /** After pinning, a flush goes on exactly when the slot is dirty. */
  lemma FlushGoesOnIff(w: World, tid: nat)
    requires Inv(w.s, w.spec) && tid in w.s.threads && w.s.threads[tid].FlushPinned?
    ensures var s1 := Step(w, FlushCheck(tid)).s;
            && w.s.threads[tid].slot < |w.s.slots|
            && (SlotOf(w.s, tid).dirty <==> tid in s1.threads && s1.threads[tid].FlushSeen?)
            && (!SlotOf(w.s, tid).dirty ==> tid !in s1.threads)
  {
    hide Inv;
    Steps(w, FlushCheck(tid));
  }

  /** Whatever happened since the flush looked: a put that succeeds stores the last completed patches and cleans the slot. */
  lemma PutStores(w: World, tid: nat)
    requires Inv(w.s, w.spec) && tid in w.s.threads && w.s.threads[tid].FlushSeen? && w.s.threads[tid].slot < |w.s.slots|
    requires SlotOf(w.s, tid).dirty
    ensures var (x, w1) := (SlotOf(w.s, tid), Step(w, FlushPut(tid, true)));
            && x.tag in w.spec && w1.spec == w.spec && w1.s.store == w.s.store[x.tag := w.spec[x.tag]]
            && w1.s.slots == w.s.slots[w.s.threads[tid].slot := x.(dirty := false)]
            && w1.s.threads == w.s.threads[tid := Finished(w.s.threads[tid].slot)]
  {
    SlotSpec(w.s, w.spec, w.s.threads[tid].slot);
    hide Inv;
    Steps(w, FlushPut(tid, true));
  }

  /** A flush of a dirty slot, start to end. */
  lemma FlushCompletes(w: World, tid: nat, i: nat)
    requires Inv(w.s, w.spec) && tid !in w.s.threads && i < |w.s.slots| && w.s.slots[i].dirty
    ensures var x := w.s.slots[i];
            var w1 := Step(Step(Step(Step(w, FlushPin(tid, i)), FlushCheck(tid)), FlushPut(tid, true)), Release(tid));
            && x.tag in w.spec && w1.spec == w.spec && w1.s.threads == w.s.threads
            && w1.s.slots == w.s.slots[i := x.(dirty := false)] && w1.s.store == w.s.store[x.tag := w.spec[x.tag]]
  {
    hide Inv, Step;
    Steps(w, FlushPin(tid, i));
    var a := Step(w, FlushPin(tid, i));
    Steps(a, FlushCheck(tid));
    var b := Step(a, FlushCheck(tid));
    PutStores(b, tid);
    Steps(b, FlushPut(tid, true));
    var c := Step(b, FlushPut(tid, true));
    Steps(c, Release(tid));
    var d := Step(c, Release(tid));
    assert d.s.threads == w.s.threads;
    assert d.s.slots == w.s.slots[i := w.s.slots[i].(dirty := false)];
  }

  // ── Hits ──

  /** A hit reads or patches the last completed patches of its tag. */
  lemma HitCompletes(w: World, tid: nat, i: nat, tag: ChunkTag, patch: Option<Patch>)
    requires Inv(w.s, w.spec) && tid !in w.s.threads && LinkedTo(w.s, i, tag) && FitsOpt(patch)
    ensures var x := w.s.slots[i];
            var w1 := Step(Step(Step(w, Lookup(tid, i, tag, patch)), Section(tid)), Release(tid));
            && tag in w.spec && w1.spec == (if patch.Some? then w.spec[tag := Apply(patch, w.spec[tag])] else w.spec)
            && w1.s.slots == w.s.slots[i := x.(data := Apply(patch, w.spec[tag]), dirty := x.dirty || patch.Some?)]
            && w1.s.threads == w.s.threads && w1.s.store == w.s.store
  {
    hide Inv, Step, Apply, With;
    var x := w.s.slots[i];
    LookupIs(w, tid, i, tag, patch);
    var a := Step(w, Lookup(tid, i, tag, patch));
    WithAgain(w.s, i, x.(pins := x.pins + 1), tid, Hit(i, tag, patch), w.s.store);
    SectionIs(a, tid);
    var y := x.(data := Apply(patch, w.spec[tag]), dirty := x.dirty || patch.Some?);
    WithAgain(w.s, i, y.(pins := x.pins + 1), tid, Finished(i), w.s.store);
    WithSlot(w.s, i, y.(pins := x.pins + 1), tid, Finished(i), w.s.store, y);
    var b := Step(a, Section(tid));
    ReleaseIs(b, tid);
  }

  lemma ReleaseIs(w: World, tid: nat)
    requires Inv(w.s, w.spec) && tid in w.s.threads && w.s.threads[tid].Finished? && w.s.threads[tid].slot < |w.s.slots|
    requires SlotOf(w.s, tid).pins > 0
    ensures var (i, w1) := (w.s.threads[tid].slot, Step(w, Release(tid)));
            var x := w.s.slots[i];
            w1.spec == w.spec && w1.s == State(w.s.slots[i := x.(pins := x.pins - 1)], w.s.store, w.s.threads - {tid})
  {
    hide Inv;
    Steps(w, Release(tid));
  }

  lemma LookupIs(w: World, tid: nat, i: nat, tag: ChunkTag, patch: Option<Patch>)
    requires Inv(w.s, w.spec) && tid !in w.s.threads && LinkedTo(w.s, i, tag) && FitsOpt(patch)
    ensures var (x, w1) := (w.s.slots[i], Step(w, Lookup(tid, i, tag, patch)));
            w1.spec == w.spec && Inv(w1.s, w1.spec)
            && w1.s == With(w.s, i, x.(pins := x.pins + 1), tid, Hit(i, tag, patch), w.s.store)
  {
    hide Inv;
    Steps(w, Lookup(tid, i, tag, patch));
  }

  /** The section of a hit under the slot's lock. */
  lemma SectionIs(w: World, tid: nat)
    requires Inv(w.s, w.spec) && tid in w.s.threads && w.s.threads[tid].Hit?
    ensures var (l, w1) := (w.s.threads[tid], Step(w, Section(tid)));
            && l.slot < |w.s.slots| && FitsOpt(l.patch) && l.tag in w.spec && w.s.slots[l.slot].data == w.spec[l.tag]
            && w1.spec == (if l.patch.Some? then w.spec[l.tag := Apply(l.patch, w.spec[l.tag])] else w.spec)
            && Inv(w1.s, w1.spec) && var x := w.s.slots[l.slot];
            w1.s == With(w.s, l.slot, x.(data := Apply(l.patch, w.spec[l.tag]), dirty := x.dirty || l.patch.Some?),
                         tid, Finished(l.slot), w.s.store)
  {
    HitSpec(w.s, w.spec, tid);
    hide Inv, Splice;
    Steps(w, Section(tid));
  }

  lemma HitSpec(s: State, spec: map<ChunkTag, Chunk>, tid: nat)
    requires Inv(s, spec) && tid in s.threads && s.threads[tid].Hit?
    ensures var l := s.threads[tid];
            l.slot < |s.slots| && FitsOpt(l.patch) && l.tag in spec && s.slots[l.slot].data == spec[l.tag]
  {
    assert ThreadOk(s, s.threads[tid]);
    SlotSpec(s, spec, s.threads[tid].slot);
  }

  // ── Evictions and fills ──

  /** Phase three unlinks the slot exactly when nobody else holds it and it is clean; otherwise it gives up. */
  lemma UnlinksIff(w: World, tid: nat)
    requires Inv(w.s, w.spec) && tid in w.s.threads && w.s.threads[tid].Flushed?
    ensures var (i, s1) := (w.s.threads[tid].slot, Step(w, Unlink(tid)).s);
            && i < |w.s.slots|
            && (tid in s1.threads <==> Holders(w.s.threads, i) == {tid} && !w.s.slots[i].dirty)
            && (tid in s1.threads ==> s1 == w.s.(slots := w.s.slots[i := w.s.slots[i].(linked := false)],
                                                 threads := w.s.threads[tid := Unlinked(i)]))
  {
    Alone(w.s, w.spec, tid);
    hide Inv;
    Steps(w, Unlink(tid));
  }

  lemma Alone(s: State, spec: map<ChunkTag, Chunk>, tid: nat)
    requires Inv(s, spec) && tid in s.threads
    ensures s.threads[tid].slot < |s.slots|
    ensures SlotOf(s, tid).pins == 1 <==> Holders(s.threads, s.threads[tid].slot) == {tid}
  {
    var h := Holders(s.threads, s.threads[tid].slot);
    assert s.slots[s.threads[tid].slot].pins == |h|;
    if |h| == 1 {
      assert |h - {tid}| == 0;
      assert h == {tid};
    }
  }

  /** The store after an eviction: it has the slot's bytes if they were dirty. */
  function Evicted(store: map<ChunkTag, Chunk>, x: Slot): map<ChunkTag, Chunk> {
    if x.dirty then store[x.tag := x.data] else store
  }

  /** The three phases for an unpinned slot, start to end: it is out of its chain and cleared, and its bytes are the store's. */
  lemma EvictionCompletes(w: World, tid: nat, i: nat)
    requires Inv(w.s, w.spec) && tid !in w.s.threads && i < |w.s.slots| && w.s.slots[i].pins == 0
    ensures var x := w.s.slots[i];
            var w1 := Step(Step(Step(Step(w, Claim(tid, i)), EvictFlush(tid, true)), Unlink(tid)), Clear(tid));
            && w1.spec == w.spec && w1.s == With(w.s, i, Slot(NO_TAG, false, false, x.data, 1), tid, Owned(i), Evicted(w.s.store, x))
            && (x.linked ==> x.tag in w1.s.store && x.tag in w.spec && w1.s.store[x.tag] == w.spec[x.tag])
            && Inv(w1.s, w1.spec)
  {
    SlotSpec(w.s, w.spec, i);
    hide Inv, Step, With;
    var x := w.s.slots[i];
    var stored := Evicted(w.s.store, x);
    ClaimIs(w, tid, i);
    var a := Step(w, Claim(tid, i));
    WithAgain(w.s, i, x.(pins := 1), tid, Claimed(i, x.tag), w.s.store);
    EvictFlushIs(a, tid);
    var b := Step(a, EvictFlush(tid, true));
    WithAgain(w.s, i, x.(pins := 1, dirty := false), tid, Flushed(i, x.tag), stored);
    UnlinkIs(b, tid);
    var c := Step(b, Unlink(tid));
    WithAgain(w.s, i, x.(pins := 1, dirty := false, linked := false), tid, Unlinked(i), stored);
    ClearIs(c, tid);
  }

  lemma ClaimIs(w: World, tid: nat, i: nat)
    requires Inv(w.s, w.spec) && tid !in w.s.threads && i < |w.s.slots| && w.s.slots[i].pins == 0
    ensures var (x, w1) := (w.s.slots[i], Step(w, Claim(tid, i)));
            w1.spec == w.spec && Inv(w1.s, w1.spec)
            && w1.s == With(w.s, i, x.(pins := 1), tid, Claimed(i, x.tag), w.s.store)
  {
    hide Inv;
    Steps(w, Claim(tid, i));
  }

  /** Phase two with a put that works. */
  lemma EvictFlushIs(w: World, tid: nat)
    requires Inv(w.s, w.spec) && tid in w.s.threads && w.s.threads[tid].Claimed? && w.s.threads[tid].slot < |w.s.slots|
    ensures var (l, w1) := (w.s.threads[tid], Step(w, EvictFlush(tid, true)));
            var x := w.s.slots[l.slot];
            w1.spec == w.spec && Inv(w1.s, w1.spec)
            && w1.s == With(w.s, l.slot, x.(dirty := false), tid, Flushed(l.slot, l.tag), Evicted(w.s.store, x))
  {
    SlotSpec(w.s, w.spec, w.s.threads[tid].slot);
    hide Inv;
    Steps(w, EvictFlush(tid, true));
  }

  /** Phase three for a slot that nobody else holds. */
  lemma UnlinkIs(w: World, tid: nat)
    requires Inv(w.s, w.spec) && tid in w.s.threads && w.s.threads[tid].Flushed? && w.s.threads[tid].slot < |w.s.slots|
    requires SlotOf(w.s, tid).pins == 1 && !SlotOf(w.s, tid).dirty
    ensures var (i, w1) := (w.s.threads[tid].slot, Step(w, Unlink(tid)));
            w1.spec == w.spec && Inv(w1.s, w1.spec)
            && w1.s == With(w.s, i, w.s.slots[i].(linked := false), tid, Unlinked(i), w.s.store)
  {
    hide Inv;
    Steps(w, Unlink(tid));
  }

  lemma ClearIs(w: World, tid: nat)
    requires Inv(w.s, w.spec) && tid in w.s.threads && w.s.threads[tid].Unlinked? && w.s.threads[tid].slot < |w.s.slots|
    ensures var (i, w1) := (w.s.threads[tid].slot, Step(w, Clear(tid)));
            w1.spec == w.spec && Inv(w1.s, w1.spec)
            && w1.s == With(w.s, i, w.s.slots[i].(tag := NO_TAG, dirty := false), tid, Owned(i), w.s.store)
  {
    hide Inv;
    Steps(w, Clear(tid));
  }

  /** A fill of a chunk that is nowhere in the cache links the slot, with the last completed patches and its own. */
  lemma FillCompletes(w: World, tid: nat, tag: ChunkTag, patch: Option<Patch>)
    requires Inv(w.s, w.spec) && Enabled(w.s, Fill(tid, tag, patch)) && !IsLinked(w.s, tag)
    requires patch.Some? || tag in w.spec
    ensures var (i, w1) := (w.s.threads[tid].slot, Step(w, Fill(tid, tag, patch)));
            && LinkedTo(w1.s, i, tag) && w1.s.slots[i].data == Apply(patch, Base(w.spec, tag))
            && w1.spec == (if patch.Some? then w.spec[tag := Apply(patch, Base(w.spec, tag))] else w.spec)
            && (w1.s.slots[i].dirty <==> patch.Some?)
            && w1.s.threads == w.s.threads - {tid} && w1.s.store == w.s.store
  {
    MissIsStored(w.s, w.spec, tag);
    hide Inv, IsLinked;
    Steps(w, Fill(tid, tag, patch));
  }

  lemma MissIsStored(s: State, spec: map<ChunkTag, Chunk>, tag: ChunkTag)
    requires Inv(s, spec) && !IsLinked(s, tag)
    ensures (tag in spec <==> tag in s.store) && Base(spec, tag) == Base(s.store, tag)
  {
  }

  /** A miss from start to end: any unpinned slot serves any chunk that is not cached. */
  lemma MissCompletes(w: World, tid: nat, i: nat, tag: ChunkTag, patch: Option<Patch>)
    requires Inv(w.s, w.spec) && tid !in w.s.threads && i < |w.s.slots| && w.s.slots[i].pins == 0
    requires tag != NO_TAG && FitsOpt(patch) && !IsLinked(w.s, tag) && (patch.Some? || tag in w.spec)
    ensures var w4 := Step(Step(Step(Step(w, Claim(tid, i)), EvictFlush(tid, true)), Unlink(tid)), Clear(tid));
            var w5 := Step(w4, Fill(tid, tag, patch));
            && LinkedTo(w5.s, i, tag) && w5.s.slots[i].data == Apply(patch, Base(w.spec, tag))
            && w5.spec == (if patch.Some? then w.spec[tag := Apply(patch, Base(w.spec, tag))] else w.spec)
            && w5.s.threads == w.s.threads
  {
    hide Inv, Step, IsLinked, Base, Apply;
    EvictionCompletes(w, tid, i);
    var d := Step(Step(Step(Step(w, Claim(tid, i)), EvictFlush(tid, true)), Unlink(tid)), Clear(tid));
    StillMissing(w.s, d.s, i, tag);
    FillCompletes(d, tid, tag, patch);
    assert w.s.threads[tid := Owned(i)] - {tid} == w.s.threads;
  }

  lemma StillMissing(s: State, s1: State, i: nat, tag: ChunkTag)
    requires !IsLinked(s, tag) && i < |s.slots| == |s1.slots| && !s1.slots[i].linked
    requires forall j :: 0 <= j < |s.slots| && j != i ==> s1.slots[j] == s.slots[j]
    ensures !IsLinked(s1, tag)
  {
    forall j: nat ensures !LinkedTo(s1, j, tag) {
      assert !LinkedTo(s, j, tag);
    }
  }
}
