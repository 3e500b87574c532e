/**
 * A run in which a link is mismatched: the code fetches before it evicts, and a fetch that
 * another thread's patch and eviction overtake brings the old bytes back.
 */
module StaleFetch {
  import opened Types
  import opened ChunkCache
  import opened CacheProtocol
  import opened SplitMiss

  /** Thread 1 patches the chunk into the only slot, then thread 0 evicts it. */
  function Overtaking(t: ChunkTag, p: Patch): seq<Act> {
    [Claim(1, 0), EvictFlush(1, true), Unlink(1), Clear(1), Fill(1, t, Some(p)),
     Claim(0, 0), EvictFlush(0, true), Unlink(0), Clear(0)]
  }

  lemma {:induction false} AfterSnoc(n: nat, store: map<ChunkTag, Chunk>, acts: seq<Act>, a: Act)
    ensures After(n, store, acts + [a]) == Step(After(n, store, acts), a)
  {
    var all := acts + [a];
    assert all[..|all| - 1] == acts && all[|all| - 1] == a;
  }

  function One(x: Slot, store: map<ChunkTag, Chunk>, threads: map<nat, Local>): State {
    State([x], store, threads)
  }

  const FREE := Slot(NO_TAG, false, false, Zeros(CHUNK_SIZE), 0)

  lemma {:induction false} AfterPrefix(n: nat, store: map<ChunkTag, Chunk>, acts: seq<Act>, k: nat)
    requires k < |acts|
    ensures After(n, store, acts[..k + 1]) == Step(After(n, store, acts[..k]), acts[k])
  {
    assert acts[..k + 1] == acts[..k] + [acts[k]];
    AfterSnoc(n, store, acts[..k], acts[k]);
  }

  lemma {:induction false} AtStart(store: map<ChunkTag, Chunk>, acts: seq<Act>)
    ensures After(1, store, acts[..0]) == World(One(FREE, store, map[]), store)
  {
    assert Start(1, store).slots == [FREE];
  }

  // A thread alone with one slot, step by step.

  lemma ClaimOne(x: Slot, store: map<ChunkTag, Chunk>, spec: map<ChunkTag, Chunk>, tid: nat)
    requires x.pins == 0
    ensures Step(World(One(x, store, map[]), spec), Claim(tid, 0))
            == World(One(x.(pins := 1), store, map[tid := Claimed(0, x.tag)]), spec)
  {
  }

  lemma FlushOne(x: Slot, store: map<ChunkTag, Chunk>, spec: map<ChunkTag, Chunk>, tid: nat)
    requires x.dirty ==> x.tag != NO_TAG
    ensures Step(World(One(x, store, map[tid := Claimed(0, x.tag)]), spec), EvictFlush(tid, true))
            == World(One(x.(dirty := false), if x.dirty then store[x.tag := x.data] else store, map[tid := Flushed(0, x.tag)]), spec)
  {
  }

  lemma UnlinkOne(x: Slot, store: map<ChunkTag, Chunk>, spec: map<ChunkTag, Chunk>, tid: nat)
    requires x.pins == 1 && !x.dirty
    ensures Step(World(One(x, store, map[tid := Flushed(0, x.tag)]), spec), Unlink(tid))
            == World(One(x.(linked := false), store, map[tid := Unlinked(0)]), spec)
  {
  }

  lemma ClearOne(x: Slot, store: map<ChunkTag, Chunk>, spec: map<ChunkTag, Chunk>, tid: nat)
    ensures Step(World(One(x, store, map[tid := Unlinked(0)]), spec), Clear(tid))
            == World(One(x.(tag := NO_TAG, dirty := false), store, map[tid := Owned(0)]), spec)
  {
  }

  /** The four steps of an eviction of the only slot. */
  lemma EvictOne(x: Slot, store: map<ChunkTag, Chunk>, spec: map<ChunkTag, Chunk>, tid: nat)
    requires x.pins == 0 && (x.dirty ==> x.tag != NO_TAG)
    ensures var now := if x.dirty then store[x.tag := x.data] else store;
            Step(Step(Step(Step(World(One(x, store, map[]), spec), Claim(tid, 0)), EvictFlush(tid, true)), Unlink(tid)), Clear(tid))
            == World(One(Slot(NO_TAG, false, false, x.data, 1), now, map[tid := Owned(0)]), spec)
  {
    hide Step;
    var now := if x.dirty then store[x.tag := x.data] else store;
    ClaimOne(x, store, spec, tid);
    var y := x.(pins := 1);
    FlushOne(y, store, spec, tid);
    var z := y.(dirty := false);
    UnlinkOne(z, now, spec, tid);
    ClearOne(z.(linked := false), now, spec, tid);
  }

  /** The patching thread fills the slot it owns. */
  lemma FillFree(t: ChunkTag, p: Patch, v: Chunk, tid: nat)
    requires t != NO_TAG && p.Fits()
    ensures var w := Splice(v, p.off, p.data);
            Step(World(One(FREE.(pins := 1), map[t := v], map[tid := Owned(0)]), map[t := v]), Fill(tid, t, Some(p)))
            == World(One(Slot(t, true, true, w, 0), map[t := v], map[]), map[t := w])
  {
  }

  /** The steps above, as steps of a run in which misses are split. */
  function Plains(acts: seq<Act>): seq<SplitAct> {
    seq(|acts|, i requires 0 <= i < |acts| => Plain(acts[i]))
  }

  /** Between a fetch and its link the protocol runs as if there were no fetch. */
  lemma {:induction false} FetchIsSilent(t: ChunkTag, v: Chunk, acts: seq<Act>)
    requires t != NO_TAG
    ensures var m := SplitAfter(1, map[t := v], [Fetch(0, t, None)] + Plains(acts));
            && m.w == After(1, map[t := v], acts) && m.fetched.Keys == {0}
            && m.fetched[0] == Fetched(t, Some(v), None, m.fetched[0].calm)
    decreases |acts|
  {
    var run := [Fetch(0, t, None)] + Plains(acts);
    if acts == [] {
      assert run[..0] == [];
      assert SplitAfter(1, map[t := v], run) == SplitStep(SplitAfter(1, map[t := v], []), Fetch(0, t, None));
    } else {
      hide Step;
      var init := acts[..|acts| - 1];
      FetchIsSilent(t, v, init);
      assert run[..|run| - 1] == [Fetch(0, t, None)] + Plains(init);
      assert run[|run| - 1] == Plain(acts[|acts| - 1]);
    }
  }

  /** After the overtaking steps the only slot is thread 0's to fill, and the store has the patch. */
  lemma {:induction false} OvertakingEnds(t: ChunkTag, p: Patch, v: Chunk)
    requires t != NO_TAG && p.Fits()
    ensures var patched := Splice(v, p.off, p.data);
            After(1, map[t := v], Overtaking(t, p))
            == World(One(Slot(NO_TAG, false, false, patched, 1), map[t := patched], map[0 := Owned(0)]), map[t := patched])
  {
    hide After, Step;
    var store, a := map[t := v], Overtaking(t, p);
    var patched := Splice(v, p.off, p.data);
    AtStart(store, a);
    EvictOne(FREE, store, store, 1);
    FillFree(t, p, v, 1);
    EvictOne(Slot(t, true, true, patched, 0), store, map[t := patched], 0);
    assert store[t := patched] == map[t := patched];
    AfterPrefix(1, store, a, 0);
    AfterPrefix(1, store, a, 1);
    AfterPrefix(1, store, a, 2);
    AfterPrefix(1, store, a, 3);
    AfterPrefix(1, store, a, 4);
    AfterPrefix(1, store, a, 5);
    AfterPrefix(1, store, a, 6);
    AfterPrefix(1, store, a, 7);
    AfterPrefix(1, store, a, 8);
    assert a[..9] == a;
  }

  /**
   * Thread 0 fetches `v`; the steps above run; thread 0 links what it fetched. The
   * patch was completed, but the cache now shows the bytes from before it, as clean.
   */
  lemma {:induction false} StaleFetchLosesPatch(t: ChunkTag, p: Patch, v: Chunk)
    requires t != NO_TAG && p.Fits() && Splice(v, p.off, p.data) != v
    ensures var m := SplitAfter(1, map[t := v], [Fetch(0, t, None)] + Plains(Overtaking(t, p)) + [Link(0)]);
            && t in m.w.spec && m.w.spec[t] == Splice(v, p.off, p.data)
            && LinkedTo(m.w.s, 0, t) && !m.w.s.slots[0].dirty && m.w.s.slots[0].data == v != m.w.spec[t]
            && !InvNow(m)
  {
    hide After;
    var run := [Fetch(0, t, None)] + Plains(Overtaking(t, p));
    FetchIsSilent(t, v, Overtaking(t, p));
    OvertakingEnds(t, p, v);
    var all := run + [Link(0)];
    assert all[..|all| - 1] == run && all[|all| - 1] == Link(0);
    var m0, m := SplitAfter(1, map[t := v], run), SplitAfter(1, map[t := v], all);
    assert !IsLinked(m0.w.s, t);
    assert m.w.s.slots[0] == Slot(t, true, false, v, 0);
  }
}
