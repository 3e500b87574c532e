/**
 * A miss as the code runs it: the store is asked first, then a slot is evicted, and then
 * the bytes that were fetched are linked. Whether that loses a patch is decided exactly
 * by whether the store still has those bytes when they are linked.
 */
module SplitMiss {
  import opened Types
  import opened ChunkCache
  import opened CacheProtocol

  /** What a thread fetched, and whether no put of that tag has completed since. */
  datatype Fetched = Fetched(tag: ChunkTag, got: Option<Chunk>, patch: Option<Patch>, calm: bool)
  {
    predicate Ok() { tag != NO_TAG && FitsOpt(patch) && (patch.None? ==> got.Some?) }

    /** The bytes to link: a missing chunk is patched over zeros. */
    function Bytes(): Chunk
      requires FitsOpt(patch)
    {
      Apply(patch, if got.Some? then got.value else Zeros(CHUNK_SIZE))
    }
  }

  /** The last part of a miss: link what was fetched, unless the tag was linked meanwhile. */
  ghost function LinkStep(s: State, tid: nat, f: Fetched): State
    requires tid in s.threads && s.threads[tid].slot < |s.slots| && f.Ok()
  {
    var i := s.threads[tid].slot;
    if IsLinked(s, f.tag) then Unpinned(s, tid)
    else Unpinned(SetSlot(s, i, s.slots[i].(tag := f.tag, linked := true, data := f.Bytes(), dirty := f.patch.Some?)), tid)
  }

  ghost function LinkSpec(s: State, spec: map<ChunkTag, Chunk>, f: Fetched): map<ChunkTag, Chunk>
    requires f.Ok()
  {
    if f.patch.Some? && !IsLinked(s, f.tag) then spec[f.tag := Apply(f.patch, Base(spec, f.tag))] else spec
  }

  /** What would be fetched now is linked as the same bytes. */
  predicate Matches(s: State, f: Fetched)
    requires f.Ok()
  {
    (f.patch.None? ==> f.tag in s.store) && f.Bytes() == Apply(f.patch, Base(s.store, f.tag))
  }

  lemma LinkIsFill(s: State, tid: nat, f: Fetched)
    requires Sane(s) && f.Ok() && Enabled(s, Fill(tid, f.tag, f.patch)) && (IsLinked(s, f.tag) || Matches(s, f))
    ensures LinkStep(s, tid, f) == FillStep(s, tid, f.tag, f.patch)
    ensures forall spec :: LinkSpec(s, spec, f) == NextSpec(spec, s, Fill(tid, f.tag, f.patch))
  {
    hide IsLinked;
  }

  /**
   * With an owned slot and a tag in no slot: linking keeps the protocol's invariant if
   * and only if the store has the bytes that were fetched (for a patch, as far as the
   * patch leaves them).
   */
  lemma LinkKeepsIff(s: State, spec: map<ChunkTag, Chunk>, tid: nat, f: Fetched)
    requires Inv(s, spec) && f.Ok() && tid in s.threads && s.threads[tid].Owned? && !IsLinked(s, f.tag)
    ensures Inv(LinkStep(s, tid, f), LinkSpec(s, spec, f)) <==> Matches(s, f)
  {
    InvIsSane(s, spec);
    if Matches(s, f) {
      hide Inv, Matches, IsLinked;
      LinkIsFill(s, tid, f);
      FillKeeps(s, spec, tid, f.tag, f.patch);
    } else {
      MismatchBreaks(s, spec, tid, f);
    }
  }

  lemma MismatchBreaks(s: State, spec: map<ChunkTag, Chunk>, tid: nat, f: Fetched)
    requires Inv(s, spec) && f.Ok() && tid in s.threads && s.threads[tid].Owned? && !IsLinked(s, f.tag)
    requires !Matches(s, f)
    ensures !Inv(LinkStep(s, tid, f), LinkSpec(s, spec, f))
  {
    hide PinsOk, ThreadsOk, IsLinked;
    InvIsSane(s, spec);
    var i, s1 := s.threads[tid].slot, LinkStep(s, tid, f);
    assert s1.slots[i].linked && s1.slots[i].tag == f.tag && s1.slots[i].data == f.Bytes();
    assert Base(spec, f.tag) == Base(s.store, f.tag);
  }

  // ── Runs ──

  /** The protocol's world, and what each thread fetched and has not linked yet. */
  datatype Missing = Missing(w: World, fetched: map<nat, Fetched>)

  datatype SplitAct =
    | Plain(a: Act)
    | Fetch(tid: nat, tag: ChunkTag, patch: Option<Patch>)
    | Link(tid: nat)

  /** The step completes a put of the tag. */
  predicate Puts(s: State, a: Act, t: ChunkTag)
    requires Enabled(s, a)
  {
    (a.FlushPut? || a.EvictFlush?) && a.ok && s.threads[a.tid].slot < |s.slots|
    && SlotOf(s, a.tid).dirty && SlotOf(s, a.tid).tag == t
  }

  /** A tag's bytes in the store change only when a put of it completes. */
  lemma StoreStays(s: State, a: Act, t: ChunkTag)
    requires Sane(s) && Enabled(s, a) && !Puts(s, a, t)
    ensures t in Next(s, a).store <==> t in s.store
    ensures t in s.store ==> Next(s, a).store[t] == s.store[t]
  {
  }

  ghost predicate CanSplit(m: Missing, a: SplitAct) {
    match a
    case Plain(b) => CanStep(m.w, b)
    case Fetch(tid, tag, patch) => tid !in m.fetched && tag != NO_TAG && FitsOpt(patch) && (patch.None? ==> tag in m.w.s.store)
    case Link(tid) =>
      && tid in m.fetched && m.fetched[tid].Ok() && tid in m.w.s.threads
      && m.w.s.threads[tid].Owned? && m.w.s.threads[tid].slot < |m.w.s.slots|
  }

  ghost function SplitStep(m: Missing, a: SplitAct): Missing {
    if !CanSplit(m, a) then
      m
    else
      match a
      case Plain(b) =>
        Missing(Step(m.w, b),
                map t | t in m.fetched :: m.fetched[t].(calm := m.fetched[t].calm && !Puts(m.w.s, b, m.fetched[t].tag)))
      case Fetch(tid, tag, patch) =>
        m.(fetched := m.fetched[tid := Fetched(tag, if tag in m.w.s.store then Some(m.w.s.store[tag]) else None, patch, true)])
      case Link(tid) =>
        var f := m.fetched[tid];
        Missing(World(LinkStep(m.w.s, tid, f), LinkSpec(m.w.s, m.w.spec, f)), m.fetched - {tid})
  }

  ghost function SplitAfter(n: nat, store: map<ChunkTag, Chunk>, acts: seq<SplitAct>): Missing
    decreases |acts|
  {
    if acts == [] then Missing(World(Start(n, store), store), map[])
    else SplitStep(SplitAfter(n, store, acts[..|acts| - 1]), acts[|acts| - 1])
  }

  /** The step links bytes that the store no longer has, for a tag in no slot. */
  ghost predicate Mismatched(m: Missing, a: SplitAct) {
    a.Link? && CanSplit(m, a) && !IsLinked(m.w.s, m.fetched[a.tid].tag) && !Matches(m.w.s, m.fetched[a.tid])
  }

  /** Some step of the run does. */
  ghost predicate SomeMismatch(n: nat, store: map<ChunkTag, Chunk>, acts: seq<SplitAct>)
    decreases |acts|
  {
    acts != [] && (SomeMismatch(n, store, acts[..|acts| - 1])
                   || Mismatched(SplitAfter(n, store, acts[..|acts| - 1]), acts[|acts| - 1]))
  }

  /** Some step of the run links after a put of the tag completed since its fetch. */
  ghost predicate SomeOvertaken(n: nat, store: map<ChunkTag, Chunk>, acts: seq<SplitAct>)
    decreases |acts|
  {
    acts != [] && (SomeOvertaken(n, store, acts[..|acts| - 1])
                   || (var m, a := SplitAfter(n, store, acts[..|acts| - 1]), acts[|acts| - 1];
                       a.Link? && CanSplit(m, a) && !m.fetched[a.tid].calm))
  }

  ghost predicate InvNow(m: Missing) {
    Inv(m.w.s, m.w.spec)
  }

  /** One step keeps the invariant if and only if it is not mismatched. */
  lemma SplitStepKeepsIff(m: Missing, a: SplitAct)
    requires InvNow(m)
    ensures InvNow(SplitStep(m, a)) <==> !Mismatched(m, a)
  {
    hide Inv, Matches, IsLinked, Next, NextSpec, LinkStep, LinkSpec;
    if CanSplit(m, a) {
      match a
      case Plain(b) => StepKeeps(m.w.s, m.w.spec, b);
      case Fetch(tid, tag, patch) =>
      case Link(tid) =>
        var f := m.fetched[tid];
        InvIsSane(m.w.s, m.w.spec);
        if IsLinked(m.w.s, f.tag) {
          LinkIsFill(m.w.s, tid, f);
          FillKeeps(m.w.s, m.w.spec, tid, f.tag, f.patch);
        } else {
          LinkKeepsIff(m.w.s, m.w.spec, tid, f);
        }
    }
  }

  /** Exactly: no patch is lost at any moment of a run if and only if no link in it is mismatched. */
  lemma {:induction false} NothingLostIff(n: nat, store: map<ChunkTag, Chunk>, acts: seq<SplitAct>)
    ensures (forall k {:trigger acts[..k]} :: 0 <= k <= |acts| ==> InvNow(SplitAfter(n, store, acts[..k])))
            <==> !SomeMismatch(n, store, acts)
    decreases |acts|
  {
    hide InvNow, Mismatched, SplitStep;
    if acts == [] {
      StartIsOk(n, store);
    } else {
      var last := |acts| - 1;
      var init := acts[..last];
      NothingLostIff(n, store, init);
      assert acts[..|acts|] == acts;
      forall k | 0 <= k <= last ensures init[..k] == acts[..k] {
      }
      if !SomeMismatch(n, store, init) {
        assert init[..last] == init;
        SplitStepKeepsIff(SplitAfter(n, store, init), acts[last]);
      }
    }
  }

  lemma StartIsOk(n: nat, store: map<ChunkTag, Chunk>)
    ensures InvNow(SplitAfter(n, store, []))
  {
    StartOk(n, store);
  }

  // ── When no put comes between ──

  /** What was fetched and not overtaken is what the store has. */
  ghost predicate CalmOk(m: Missing) {
    forall t {:trigger m.fetched[t]} :: t in m.fetched && m.fetched[t].calm ==>
      var f := m.fetched[t];
      f.got == if f.tag in m.w.s.store then Some(m.w.s.store[f.tag]) else None
  }

  lemma CalmMatches(m: Missing, tid: nat)
    requires CalmOk(m) && tid in m.fetched && m.fetched[tid].calm && m.fetched[tid].Ok()
    ensures Matches(m.w.s, m.fetched[tid])
  {
  }

  lemma CalmStays(m: Missing, a: SplitAct)
    requires CalmOk(m)
    ensures CalmOk(SplitStep(m, a))
  {
    hide Next, NextSpec, IsLinked, Enabled;
    var m1 := SplitStep(m, a);
    if CanSplit(m, a) && a.Plain? {
      forall t | t in m1.fetched && m1.fetched[t].calm
        ensures m1.fetched[t].got == if m1.fetched[t].tag in m1.w.s.store then Some(m1.w.s.store[m1.fetched[t].tag]) else None
      {
        assert m.fetched[t].calm;
        StoreStays(m.w.s, a.a, m.fetched[t].tag);
      }
    }
  }

  lemma {:induction false} CalmAlways(n: nat, store: map<ChunkTag, Chunk>, acts: seq<SplitAct>)
    ensures CalmOk(SplitAfter(n, store, acts))
    decreases |acts|
  {
    if acts != [] {
      hide CalmOk, SplitStep;
      CalmAlways(n, store, acts[..|acts| - 1]);
      CalmStays(SplitAfter(n, store, acts[..|acts| - 1]), acts[|acts| - 1]);
    }
  }

  lemma {:induction false} CalmRunsMatch(n: nat, store: map<ChunkTag, Chunk>, acts: seq<SplitAct>)
    requires !SomeOvertaken(n, store, acts)
    ensures !SomeMismatch(n, store, acts)
    decreases |acts|
  {
    if acts != [] {
      hide CalmOk, SplitStep, Matches, IsLinked;
      var m, a := SplitAfter(n, store, acts[..|acts| - 1]), acts[|acts| - 1];
      CalmRunsMatch(n, store, acts[..|acts| - 1]);
      CalmAlways(n, store, acts[..|acts| - 1]);
      if a.Link? && CanSplit(m, a) {
        CalmMatches(m, a.tid);
      }
    }
  }

  /** If no put of a tag completes between its fetch and its link, no patch is ever lost. */
  lemma {:induction false} CalmRunsLoseNothing(n: nat, store: map<ChunkTag, Chunk>, acts: seq<SplitAct>)
    requires !SomeOvertaken(n, store, acts)
    ensures InvNow(SplitAfter(n, store, acts))
  {
    hide InvNow, SplitAfter, SomeOvertaken, SomeMismatch;
    CalmRunsMatch(n, store, acts);
    NothingLostIff(n, store, acts);
    assert acts[..|acts|] == acts;
  }
}
