/**
 * Many threads on one chunk cache: each section under a lock is one step, and so is
 * each lone atomic access. Patches, reads, flushes and three-phase evictions interleave.
 */
module CacheProtocol {
  import opened Types
  import opened ChunkCache

  datatype Patch = Patch(off: nat, data: Bytes)
  {
    predicate Fits() { off + |data| <= CHUNK_SIZE }
  }

  /** `linked`: the slot is in its tag's hash chain. */
  datatype Slot = Slot(tag: ChunkTag, linked: bool, dirty: bool, data: Chunk, pins: nat)

  /** Where a thread is; every state but idle holds one pin on `slot`. */
  datatype Local =
    | Hit(slot: nat, tag: ChunkTag, patch: Option<Patch>)  // found and pinned by a lookup
    | Finished(slot: nat)                                      // finished with the slot, still pinned
    | FlushPinned(slot: nat)                               // pinned by a flush, without any bucket lock
    | FlushSeen(slot: nat)                                 // the flush saw it dirty after pinning
    | Claimed(slot: nat, tag: ChunkTag)                    // eviction, after phase one
    | Flushed(slot: nat, tag: ChunkTag)                    // eviction, after phase two
    | Unlinked(slot: nat)                                  // eviction, after phase three
    | Owned(slot: nat)                                     // cleared, ready for another tag
  {
    predicate Evicting() { Claimed? || Flushed? || Unlinked? || Owned? }
  }

  datatype State = State(slots: seq<Slot>, store: map<ChunkTag, Chunk>, threads: map<nat, Local>)

  /** What thread `tid` does next; a put fails when `ok` is false. */
  datatype Act =
    | Lookup(tid: nat, s: nat, tag: ChunkTag, patch: Option<Patch>)
    | Section(tid: nat)
    | Release(tid: nat)
    | FlushPin(tid: nat, s: nat)
    | FlushCheck(tid: nat)
    | FlushPut(tid: nat, ok: bool)
    | Claim(tid: nat, s: nat)
    | EvictFlush(tid: nat, ok: bool)
    | Unlink(tid: nat)
    | Clear(tid: nat)
    | Fill(tid: nat, tag: ChunkTag, patch: Option<Patch>)

  function Holders(threads: map<nat, Local>, s: nat): set<nat> {
    set t | t in threads && threads[t].slot == s
  }

  predicate LinkedTo(s: State, i: nat, t: ChunkTag) {
    i < |s.slots| && s.slots[i].linked && s.slots[i].tag == t
  }

  /** Some slot is linked to the tag. */
  ghost predicate IsLinked(s: State, t: ChunkTag) {
    exists j :: LinkedTo(s, j, t)
  }

  /** The thread's slot. */
  function SlotOf(s: State, tid: nat): Slot
    requires tid in s.threads && s.threads[tid].slot < |s.slots|
  {
    s.slots[s.threads[tid].slot]
  }

  predicate FitsOpt(p: Option<Patch>) {
    p.Some? ==> p.value.Fits()
  }

  function Apply(p: Option<Patch>, base: Chunk): Chunk
    requires FitsOpt(p)
  {
    if p.Some? then Splice(base, p.value.off, p.value.data) else base
  }

  // ── Steps ──

  function SetSlot(s: State, i: nat, x: Slot): State
    requires i < |s.slots|
  {
    s.(slots := s.slots[i := x])
  }

  function Goto(s: State, tid: nat, l: Local): State {
    s.(threads := s.threads[tid := l])
  }

  function Pinned(s: State, tid: nat, l: Local): State
    requires l.slot < |s.slots|
  {
    var x := s.slots[l.slot];
    Goto(SetSlot(s, l.slot, x.(pins := x.pins + 1)), tid, l)
  }

  /** Drop the thread's pin. */
  function Unpinned(s: State, tid: nat): State
    requires tid in s.threads && s.threads[tid].slot < |s.slots|
  {
    var i := s.threads[tid].slot;
    var x := s.slots[i];
    SetSlot(s, i, x.(pins := if x.pins > 0 then x.pins - 1 else 0)).(threads := s.threads - {tid})
  }

  /** `try_flush_dirty_chunk` under the slot's I/O lock. */
  function Put(s: State, i: nat, ok: bool): State
    requires i < |s.slots|
  {
    var x := s.slots[i];
    if x.dirty && ok then SetSlot(s, i, x.(dirty := false)).(store := s.store[x.tag := x.data]) else s
  }

  /** A lookup hits a linked slot; eviction claims only an unpinned one. */
  predicate Enabled(s: State, a: Act) {
    match a
    case Lookup(tid, i, tag, patch) => tid !in s.threads && LinkedTo(s, i, tag) && FitsOpt(patch)
    case Section(tid) => tid in s.threads && s.threads[tid].Hit?
    case Release(tid) => tid in s.threads && s.threads[tid].Finished?
    case FlushPin(tid, i) => tid !in s.threads && i < |s.slots|
    case FlushCheck(tid) => tid in s.threads && s.threads[tid].FlushPinned?
    case FlushPut(tid, ok) => tid in s.threads && s.threads[tid].FlushSeen?
    case Claim(tid, i) => tid !in s.threads && i < |s.slots| && s.slots[i].pins == 0
    case EvictFlush(tid, ok) => tid in s.threads && s.threads[tid].Claimed?
    case Unlink(tid) => tid in s.threads && s.threads[tid].Flushed?
    case Clear(tid) => tid in s.threads && s.threads[tid].Unlinked?
    case Fill(tid, tag, patch) => tid in s.threads && s.threads[tid].Owned? && tag != NO_TAG && FitsOpt(patch)
  }

  /** Every thread's slot exists and its patch fits. */
  ghost predicate Sane(s: State) {
    forall t {:trigger s.threads[t]} :: t in s.threads ==>
      s.threads[t].slot < |s.slots| && (s.threads[t].Hit? ==> FitsOpt(s.threads[t].patch))
  }

  /** The patch or read of a hit, under the slot's I/O lock. */
  function SectionStep(s: State, tid: nat): State
    requires tid in s.threads && s.threads[tid].Hit? && s.threads[tid].slot < |s.slots| && FitsOpt(s.threads[tid].patch)
  {
    var l := s.threads[tid];
    var x := s.slots[l.slot];
    Goto(SetSlot(s, l.slot, x.(data := Apply(l.patch, x.data), dirty := x.dirty || l.patch.Some?)), tid, Finished(l.slot))
  }

  /** Phase two: flush an occupied slot; a failed put gives the slot up, still linked and dirty. */
  function EvictFlushStep(s: State, tid: nat, ok: bool): State
    requires tid in s.threads && s.threads[tid].Claimed? && s.threads[tid].slot < |s.slots|
  {
    var l := s.threads[tid];
    var x := s.slots[l.slot];
    if x.tag == NO_TAG || !x.dirty then Goto(s, tid, Flushed(l.slot, l.tag))
    else if ok then Goto(Put(s, l.slot, true), tid, Flushed(l.slot, l.tag))
    else Unpinned(s, tid)
  }

  /** Phase three: give up if someone else pinned the slot or dirtied it again, else unlink. */
  function UnlinkStep(s: State, tid: nat): State
    requires tid in s.threads && s.threads[tid].Flushed? && s.threads[tid].slot < |s.slots|
  {
    var i := s.threads[tid].slot;
    var x := s.slots[i];
    if x.pins != 1 || x.dirty then Unpinned(s, tid)
    else Goto(SetSlot(s, i, x.(linked := false)), tid, Unlinked(i))
  }

  function ClearStep(s: State, tid: nat): State
    requires tid in s.threads && s.threads[tid].Unlinked? && s.threads[tid].slot < |s.slots|
  {
    var i := s.threads[tid].slot;
    Goto(SetSlot(s, i, s.slots[i].(tag := NO_TAG, dirty := false)), tid, Owned(i))
  }

  /** The bytes a fill puts in the slot: what the store has, patched. */
  function Filled(s: State, tag: ChunkTag, patch: Option<Patch>): Chunk
    requires FitsOpt(patch)
  {
    Apply(patch, Base(s.store, tag))
  }

  /** A miss: fetch, patch, and link, unless the tag was linked meanwhile or is nowhere. */
  ghost function FillStep(s: State, tid: nat, tag: ChunkTag, patch: Option<Patch>): State
    requires tid in s.threads && s.threads[tid].Owned? && s.threads[tid].slot < |s.slots| && FitsOpt(patch)
  {
    var i := s.threads[tid].slot;
    if IsLinked(s, tag) || (patch.None? && tag !in s.store) then
      Unpinned(s, tid)
    else
      var x := s.slots[i];
      Unpinned(SetSlot(s, i, x.(tag := tag, linked := true, data := Filled(s, tag, patch), dirty := patch.Some?)), tid)
  }

  ghost function Next(s: State, a: Act): State
    requires Sane(s) && Enabled(s, a)
  {
    match a
    case Lookup(tid, i, tag, patch) => Pinned(s, tid, Hit(i, tag, patch))
    case Section(tid) => SectionStep(s, tid)
    case Release(tid) => Unpinned(s, tid)
    case FlushPin(tid, i) => Pinned(s, tid, FlushPinned(i))
    case FlushCheck(tid) => if SlotOf(s, tid).dirty then Goto(s, tid, FlushSeen(s.threads[tid].slot)) else Unpinned(s, tid)
    case FlushPut(tid, ok) => Goto(Put(s, s.threads[tid].slot, ok), tid, Finished(s.threads[tid].slot))
    case Claim(tid, i) => Pinned(s, tid, Claimed(i, s.slots[i].tag))
    case EvictFlush(tid, ok) => EvictFlushStep(s, tid, ok)
    case Unlink(tid) => UnlinkStep(s, tid)
    case Clear(tid) => ClearStep(s, tid)
    case Fill(tid, tag, patch) => FillStep(s, tid, tag, patch)
  }

  // ── The specification: the bytes of the last completed patch ──

  /** The tag a step patches, if it completes a patch. */
  ghost function Patched(s: State, a: Act): Option<(ChunkTag, Patch)>
    requires Sane(s) && Enabled(s, a)
  {
    match a
    case Section(tid) =>
      var l := s.threads[tid];
      if l.patch.Some? then Some((l.tag, l.patch.value)) else None
    case Fill(tid, tag, patch) =>
      if patch.Some? && !IsLinked(s, tag) then Some((tag, patch.value)) else None
    case _ => None
  }

  ghost function NextSpec(spec: map<ChunkTag, Chunk>, s: State, a: Act): map<ChunkTag, Chunk>
    requires Sane(s) && Enabled(s, a)
  {
    match Patched(s, a)
    case None => spec
    case Some(p) => if p.1.Fits() then spec[p.0 := Splice(Base(spec, p.0), p.1.off, p.1.data)] else spec
  }

  // ── The invariant ──

  /** Pins are counted, and two evictions never hold the same slot. */
  ghost predicate PinsOk(s: State) {
    && Sane(s)
    && (forall i {:trigger s.slots[i]} :: 0 <= i < |s.slots| ==> s.slots[i].pins == |Holders(s.threads, i)|)
    && (forall t, u {:trigger s.threads[t], s.threads[u]} ::
          t in s.threads && u in s.threads && t != u && s.threads[t].Evicting() && s.threads[u].Evicting() ==>
          s.threads[t].slot != s.threads[u].slot)
  }

  /** What a thread may rely on while it holds its pin. */
  ghost predicate ThreadOk(s: State, l: Local)
    requires l.slot < |s.slots|
  {
    var x := s.slots[l.slot];
    match l
    case Hit(_, tag, _) => x.linked && x.tag == tag
    case Claimed(_, tag) => x.tag == tag
    case Flushed(_, tag) => x.tag == tag
    case Unlinked(_) => !x.linked && !x.dirty
    case Owned(_) => !x.linked && !x.dirty && x.tag == NO_TAG
    case _ => true
  }

  ghost predicate ThreadsOk(s: State)
    requires Sane(s)
  {
    forall t {:trigger s.threads[t]} :: t in s.threads ==> ThreadOk(s, s.threads[t])
  }

  /** A dirty slot is linked, and a clean linked slot holds the store's bytes. */
  ghost predicate SlotOk(x: Slot, store: map<ChunkTag, Chunk>) {
    && (x.dirty ==> x.linked) && (x.linked ==> x.tag != NO_TAG)
    && (x.linked && !x.dirty ==> x.tag in store && store[x.tag] == x.data)
  }

  ghost predicate SlotsOk(s: State) {
    && (forall i {:trigger s.slots[i]} :: 0 <= i < |s.slots| ==> SlotOk(s.slots[i], s.store))
    && (forall i, j {:trigger s.slots[i], s.slots[j]} :: 0 <= i < j < |s.slots| ==>
          !(s.slots[i].linked && s.slots[j].linked && s.slots[i].tag == s.slots[j].tag))
  }

  /** Cache over store is the specification: no completed patch is lost. */
  ghost predicate NothingLost(s: State, spec: map<ChunkTag, Chunk>) {
    && (forall i {:trigger s.slots[i]} :: 0 <= i < |s.slots| && s.slots[i].linked ==>
          s.slots[i].tag in spec && spec[s.slots[i].tag] == s.slots[i].data)
    && (forall t {:trigger t in spec} {:trigger t in s.store} :: !IsLinked(s, t) ==>
          (t in spec <==> t in s.store) && (t in spec ==> spec[t] == s.store[t]))
  }

  ghost predicate Inv(s: State, spec: map<ChunkTag, Chunk>) {
    PinsOk(s) && ThreadsOk(s) && SlotsOk(s) && NothingLost(s, spec)
  }

  // ── Pins ──

  lemma HoldersAdd(threads: map<nat, Local>, tid: nat, l: Local, i: nat)
    requires tid !in threads
    ensures |Holders(threads[tid := l], i)| == |Holders(threads, i)| + if l.slot == i then 1 else 0
  {
    var h := Holders(threads, i);
    if l.slot == i {
      assert Holders(threads[tid := l], i) == h + {tid};
    } else {
      assert Holders(threads[tid := l], i) == h;
    }
  }

  lemma HoldersRemove(threads: map<nat, Local>, tid: nat, i: nat)
    requires tid in threads
    ensures |Holders(threads, i)| == |Holders(threads - {tid}, i)| + if threads[tid].slot == i then 1 else 0
  {
    HoldersAdd(threads - {tid}, tid, threads[tid], i);
    assert (threads - {tid})[tid := threads[tid]] == threads;
  }

  lemma HoldersMove(threads: map<nat, Local>, tid: nat, l: Local, i: nat)
    requires tid in threads && l.slot == threads[tid].slot
    ensures Holders(threads[tid := l], i) == Holders(threads, i)
  {
  }

  lemma PinKeepsPins(s: State, tid: nat, l: Local)
    requires PinsOk(s) && tid !in s.threads && l.slot < |s.slots| && (l.Hit? ==> FitsOpt(l.patch))
    requires l.Evicting() ==> s.slots[l.slot].pins == 0
    ensures PinsOk(Pinned(s, tid, l))
  {
    var s1 := Pinned(s, tid, l);
    forall i | 0 <= i < |s1.slots| ensures s1.slots[i].pins == |Holders(s1.threads, i)| {
      HoldersAdd(s.threads, tid, l, i);
      assert s.slots[i].pins == |Holders(s.threads, i)|;
    }
    if l.Evicting() {
      forall t | t in s.threads ensures s.threads[t].slot != l.slot {
        NoPinsNoThread(s, t, l.slot);
      }
    }
  }

  lemma NoPinsNoThread(s: State, t: nat, i: nat)
    requires PinsOk(s) && t in s.threads && i < |s.slots| && s.slots[i].pins == 0
    ensures s.threads[t].slot != i
  {
    assert s.slots[i].pins == |Holders(s.threads, i)|;
    assert t in Holders(s.threads, i) ==> |Holders(s.threads, i)| > 0;
  }

  /** A slot with one pin is held by that thread alone. */
  lemma OnePinOneThread(s: State, t: nat, u: nat, i: nat)
    requires PinsOk(s) && t in s.threads && u in s.threads && t != u && s.threads[t].slot == i && s.slots[i].pins == 1
    ensures s.threads[u].slot != i
  {
    assert s.slots[i].pins == |Holders(s.threads, i)|;
    var h := Holders(s.threads, i);
    if s.threads[u].slot == i {
      assert {t, u} <= h;
      TwoElements(t, u, h);
    }
  }

  lemma TwoElements(t: nat, u: nat, h: set<nat>)
    requires t != u && t in h && u in h
    ensures |h| >= 2
  {
    assert |h - {t}| == |h| - 1;
    assert u in h - {t};
  }

  lemma UnpinKeepsPins(s: State, tid: nat)
    requires PinsOk(s) && tid in s.threads
    ensures PinsOk(Unpinned(s, tid)) && SlotOf(s, tid).pins > 0
  {
    var s1 := Unpinned(s, tid);
    forall i | 0 <= i < |s.slots|
      ensures s1.slots[i].pins == |Holders(s1.threads, i)| && (i == s.threads[tid].slot ==> s.slots[i].pins > 0)
    {
      HoldersRemove(s.threads, tid, i);
      assert s.slots[i].pins == |Holders(s.threads, i)|;
    }
  }

  /** A step that keeps every pin and leaves the thread on its slot. */
  lemma MoveKeepsPins(s: State, s1: State, tid: nat, l: Local)
    requires PinsOk(s) && tid in s.threads && s1.threads == s.threads[tid := l] && l.slot == s.threads[tid].slot
    requires |s1.slots| == |s.slots| && forall i :: 0 <= i < |s.slots| ==> s1.slots[i].pins == s.slots[i].pins
    requires (l.Evicting() ==> s.threads[tid].Evicting()) && (l.Hit? ==> FitsOpt(l.patch))
    ensures PinsOk(s1)
  {
    forall i | 0 <= i < |s1.slots| ensures s1.slots[i].pins == |Holders(s1.threads, i)| {
      HoldersMove(s.threads, tid, l, i);
      assert s.slots[i].pins == |Holders(s.threads, i)|;
    }
  }

  // ── Steps that leave every slot's contents alone ──

  ghost predicate SameContents(s: State, s1: State) {
    && s1.store == s.store && |s1.slots| == |s.slots|
    && forall i {:trigger s1.slots[i]} :: 0 <= i < |s.slots| ==>
         s1.slots[i].tag == s.slots[i].tag && s1.slots[i].linked == s.slots[i].linked
         && s1.slots[i].dirty == s.slots[i].dirty && s1.slots[i].data == s.slots[i].data
  }

  lemma SameLinks(s: State, s1: State)
    requires SameContents(s, s1)
    ensures forall t {:trigger IsLinked(s1, t)} {:trigger IsLinked(s, t)} :: IsLinked(s1, t) <==> IsLinked(s, t)
  {
    forall t: ChunkTag ensures IsLinked(s1, t) <==> IsLinked(s, t) {
      if j :| LinkedTo(s1, j, t) {
        assert LinkedTo(s, j, t);
      }
      if j :| LinkedTo(s, j, t) {
        assert LinkedTo(s1, j, t);
      }
    }
  }

  lemma SameContentsKeeps(s: State, s1: State, spec: map<ChunkTag, Chunk>)
    requires SameContents(s, s1) && SlotsOk(s) && NothingLost(s, spec)
    ensures SlotsOk(s1) && NothingLost(s1, spec)
  {
    hide IsLinked;
    SameLinks(s, s1);
  }

  /** Threads that were in order stay so; the one that moved must be in order too. */
  lemma SameContentsThreads(s: State, s1: State, tid: nat)
    requires SameContents(s, s1) && Sane(s) && Sane(s1) && ThreadsOk(s)
    requires forall t :: t in s1.threads && t != tid ==> t in s.threads && s1.threads[t] == s.threads[t]
    requires tid in s1.threads ==> ThreadOk(s, s1.threads[tid])
    ensures ThreadsOk(s1)
  {
    forall t | t in s1.threads ensures ThreadOk(s1, s1.threads[t]) {
      if t != tid {
        assert ThreadOk(s, s.threads[t]);
      }
    }
  }

  lemma PinKeeps(s: State, spec: map<ChunkTag, Chunk>, tid: nat, l: Local)
    requires Inv(s, spec) && tid !in s.threads && l.slot < |s.slots| && (l.Hit? ==> FitsOpt(l.patch))
    requires (l.Evicting() ==> s.slots[l.slot].pins == 0) && ThreadOk(s, l)
    ensures Inv(Pinned(s, tid, l), spec)
  {
    hide SlotsOk, NothingLost;
    var s1 := Pinned(s, tid, l);
    PinKeepsPins(s, tid, l);
    SameContentsKeeps(s, s1, spec);
    SameContentsThreads(s, s1, tid);
  }

  lemma UnpinKeeps(s: State, spec: map<ChunkTag, Chunk>, tid: nat)
    requires Inv(s, spec) && tid in s.threads
    ensures Inv(Unpinned(s, tid), spec)
  {
    hide SlotsOk, NothingLost;
    var s1 := Unpinned(s, tid);
    UnpinKeepsPins(s, tid);
    SameContentsKeeps(s, s1, spec);
    SameContentsThreads(s, s1, tid);
  }

  lemma GotoKeeps(s: State, spec: map<ChunkTag, Chunk>, tid: nat, l: Local)
    requires Inv(s, spec) && tid in s.threads && l.slot == s.threads[tid].slot
    requires (l.Evicting() ==> s.threads[tid].Evicting()) && (l.Hit? ==> FitsOpt(l.patch)) && ThreadOk(s, l)
    ensures Inv(Goto(s, tid, l), spec)
  {
    hide SlotsOk, NothingLost;
    var s1 := Goto(s, tid, l);
    MoveKeepsPins(s, s1, tid, l);
    SameContentsKeeps(s, s1, spec);
    SameContentsThreads(s, s1, tid);
  }

  // ── Steps that change one slot ──

  /** `s1` differs from `s` in slot `i` only, keeps its pins, and moves only thread `tid`, which holds it. */
  ghost predicate OneSlot(s: State, s1: State, i: nat, x: Slot, tid: nat, l: Local) {
    && i < |s.slots| && s1.slots == s.slots[i := x] && x.pins == s.slots[i].pins
    && tid in s.threads && s.threads[tid].slot == i && l.slot == i && s1.threads == s.threads[tid := l]
  }

  lemma OneSlotPins(s: State, s1: State, i: nat, x: Slot, tid: nat, l: Local)
    requires PinsOk(s) && OneSlot(s, s1, i, x, tid, l)
    requires (l.Evicting() ==> s.threads[tid].Evicting()) && (l.Hit? ==> FitsOpt(l.patch))
    ensures PinsOk(s1)
  {
    MoveKeepsPins(s, s1, tid, l);
  }

  /** The other threads on the slot do not mind. */
  lemma OneSlotThreads(s: State, s1: State, i: nat, x: Slot, tid: nat, l: Local)
    requires Sane(s) && Sane(s1) && ThreadsOk(s) && OneSlot(s, s1, i, x, tid, l) && ThreadOk(s1, l)
    requires forall t :: t in s.threads && t != tid && s.threads[t].slot == i ==> ThreadOk(s1, s.threads[t])
    ensures ThreadsOk(s1)
  {
    forall t | t in s1.threads ensures ThreadOk(s1, s1.threads[t]) {
      if t != tid {
        assert ThreadOk(s, s.threads[t]);
      }
    }
  }

  /** A patch: the new bytes, dirty, and the specification says the same. */
  lemma SectionKeeps(s: State, spec: map<ChunkTag, Chunk>, tid: nat)
    requires Inv(s, spec) && Enabled(s, Section(tid))
    ensures Inv(SectionStep(s, tid), NextSpec(spec, s, Section(tid)))
  {
    var l := s.threads[tid];
    var i := l.slot;
    assert ThreadOk(s, l);
    var x := s.slots[i].(data := Apply(l.patch, s.slots[i].data), dirty := s.slots[i].dirty || l.patch.Some?);
    var s1 := SectionStep(s, tid);
    OneSlotPins(s, s1, i, x, tid, Finished(i));
    forall t | t in s.threads && t != tid && s.threads[t].slot == i ensures ThreadOk(s1, s.threads[t]) {
      assert ThreadOk(s, s.threads[t]);
    }
    OneSlotThreads(s, s1, i, x, tid, Finished(i));
    SectionData(s, spec, tid);
  }

  /** What is linked after one slot changed. */
  lemma OneSlotLinks(s: State, s1: State, i: nat, x: Slot, t: ChunkTag)
    requires i < |s.slots| && s1.slots == s.slots[i := x] && SlotsOk(s)
    ensures IsLinked(s1, t) <==> (x.linked && x.tag == t) || (IsLinked(s, t) && !(s.slots[i].linked && s.slots[i].tag == t))
  {
    if x.linked && x.tag == t {
      assert LinkedTo(s1, i, t);
    }
    if j :| LinkedTo(s, j, t) {
      assert j != i ==> LinkedTo(s1, j, t);
    }
    if j :| LinkedTo(s1, j, t) {
      assert j != i ==> LinkedTo(s, j, t);
    }
  }

  /** A linked slot keeps its tag; its bytes and its entry in the specification change alike. */
  lemma RewriteKeeps(s: State, s1: State, spec: map<ChunkTag, Chunk>, i: nat, x: Slot)
    requires SlotsOk(s) && NothingLost(s, spec) && i < |s.slots| && s.slots[i].linked
    requires s1.slots == s.slots[i := x] && x.linked && x.tag == s.slots[i].tag && x.dirty && s1.store == s.store
    ensures SlotsOk(s1) && NothingLost(s1, spec[x.tag := x.data])
  {
    hide IsLinked;
    forall t: ChunkTag ensures IsLinked(s1, t) <==> IsLinked(s, t) {
      OneSlotLinks(s, s1, i, x, t);
      SlotLinks(s, i);
    }
    SlotLinks(s, i);
    assert SlotOk(s.slots[i], s.store);
  }

  lemma SlotLinks(s: State, i: nat)
    requires i < |s.slots| && s.slots[i].linked
    ensures IsLinked(s, s.slots[i].tag)
  {
    assert LinkedTo(s, i, s.slots[i].tag);
  }

  lemma SectionData(s: State, spec: map<ChunkTag, Chunk>, tid: nat)
    requires Inv(s, spec) && Enabled(s, Section(tid))
    ensures SlotsOk(SectionStep(s, tid)) && NothingLost(SectionStep(s, tid), NextSpec(spec, s, Section(tid)))
  {
    hide SlotsOk, NothingLost;
    var l := s.threads[tid];
    var s1 := SectionStep(s, tid);
    assert ThreadOk(s, l);
    SpecOfLinked(s, spec, l.slot);
    if l.patch.Some? {
      RewriteKeeps(s, s1, spec, l.slot, s1.slots[l.slot]);
    } else {
      assert s1.slots[l.slot] == s.slots[l.slot];
      SameContentsKeeps(s, s1, spec);
    }
  }

  lemma SpecOfLinked(s: State, spec: map<ChunkTag, Chunk>, i: nat)
    requires NothingLost(s, spec) && i < |s.slots| && s.slots[i].linked
    ensures s.slots[i].tag in spec && spec[s.slots[i].tag] == s.slots[i].data
  {
  }

  // ── Flushing ──

  lemma PutSlots(s: State, spec: map<ChunkTag, Chunk>, i: nat)
    requires SlotsOk(s) && NothingLost(s, spec) && i < |s.slots| && s.slots[i].dirty
    ensures SlotsOk(Put(s, i, true)) && NothingLost(Put(s, i, true), spec)
  {
    hide IsLinked;
    var s1 := Put(s, i, true);
    var x := s.slots[i];
    assert SlotOk(x, s.store);
    SpecOfLinked(s, spec, i);
    SlotLinks(s, i);
    forall t: ChunkTag ensures IsLinked(s1, t) <==> IsLinked(s, t) {
      OneSlotLinks(s, s1, i, s1.slots[i], t);
    }
    forall j | 0 <= j < |s.slots| ensures SlotOk(s1.slots[j], s1.store) {
      assert SlotOk(s.slots[j], s.store);
      assert j != i && s.slots[j].linked ==> s.slots[j].tag != x.tag;
    }
  }

  /** A put that succeeds changes nothing a reader can see; one that fails changes nothing. */
  lemma PutKeeps(s: State, spec: map<ChunkTag, Chunk>, i: nat, ok: bool)
    requires Inv(s, spec) && i < |s.slots|
    ensures Inv(Put(s, i, ok), spec) && Put(s, i, ok).threads == s.threads
  {
    hide SlotsOk, NothingLost;
    if s.slots[i].dirty && ok {
      PutSlots(s, spec, i);
      PutThreads(s, i);
    }
  }

  lemma PutThreads(s: State, i: nat)
    requires PinsOk(s) && ThreadsOk(s) && i < |s.slots| && s.slots[i].dirty
    ensures PinsOk(Put(s, i, true)) && ThreadsOk(Put(s, i, true))
  {
    var s1 := Put(s, i, true);
    assert forall j :: 0 <= j < |s.slots| ==> s1.slots[j].pins == s.slots[j].pins;
    forall t | t in s1.threads ensures ThreadOk(s1, s1.threads[t]) {
      assert ThreadOk(s, s.threads[t]);
    }
  }

  lemma FlushPutKeeps(s: State, spec: map<ChunkTag, Chunk>, tid: nat, ok: bool)
    requires Inv(s, spec) && Enabled(s, FlushPut(tid, ok))
    ensures Inv(Next(s, FlushPut(tid, ok)), spec)
  {
    hide Inv, Put;
    InvIsSane(s, spec);
    var i := s.threads[tid].slot;
    PutKeeps(s, spec, i, ok);
    FinishKeeps(Put(s, i, ok), spec, tid);
  }

  lemma InvIsSane(s: State, spec: map<ChunkTag, Chunk>)
    requires Inv(s, spec)
    ensures Sane(s)
  {
  }

  lemma FinishKeeps(s: State, spec: map<ChunkTag, Chunk>, tid: nat)
    requires Inv(s, spec) && tid in s.threads
    ensures Inv(Goto(s, tid, Finished(s.threads[tid].slot)), spec)
  {
    GotoKeeps(s, spec, tid, Finished(s.threads[tid].slot));
  }

  // ── The three phases ──

  lemma EvictFlushKeeps(s: State, spec: map<ChunkTag, Chunk>, tid: nat, ok: bool)
    requires Inv(s, spec) && Enabled(s, EvictFlush(tid, ok))
    ensures Inv(EvictFlushStep(s, tid, ok), spec)
  {
    hide SlotsOk, NothingLost, Put;
    var l := s.threads[tid];
    assert ThreadOk(s, l);
    if s.slots[l.slot].tag == NO_TAG || !s.slots[l.slot].dirty {
      GotoKeeps(s, spec, tid, Flushed(l.slot, l.tag));
    } else if ok {
      var s1 := Put(s, l.slot, true);
      PutKeeps(s, spec, l.slot, true);
      assert s1.threads[tid] == l;
      assert ThreadOk(s1, l);
      GotoKeeps(s1, spec, tid, Flushed(l.slot, l.tag));
    } else {
      UnpinKeeps(s, spec, tid);
    }
  }

  lemma UnlinkSlots(s: State, s1: State, spec: map<ChunkTag, Chunk>, i: nat)
    requires SlotsOk(s) && NothingLost(s, spec) && i < |s.slots| && !s.slots[i].dirty
    requires s1.slots == s.slots[i := s.slots[i].(linked := false)] && s1.store == s.store
    ensures SlotsOk(s1) && NothingLost(s1, spec)
  {
    hide IsLinked;
    assert SlotOk(s.slots[i], s.store);
    assert s.slots[i].linked ==> s.slots[i].tag in spec && spec[s.slots[i].tag] == s.slots[i].data;
    forall t ensures IsLinked(s1, t) <==> IsLinked(s, t) && !(s.slots[i].linked && s.slots[i].tag == t) {
      OneSlotLinks(s, s1, i, s1.slots[i], t);
    }
  }

  /** Phase three finds the slot pinned by the eviction alone and clean. */
  lemma UnlinkKeeps(s: State, spec: map<ChunkTag, Chunk>, tid: nat)
    requires Inv(s, spec) && Enabled(s, Unlink(tid))
    ensures Inv(UnlinkStep(s, tid), spec)
  {
    var i := s.threads[tid].slot;
    if s.slots[i].pins != 1 || s.slots[i].dirty {
      UnpinKeeps(s, spec, tid);
    } else {
      hide SlotsOk, NothingLost;
      var s1 := UnlinkStep(s, tid);
      var x := s.slots[i].(linked := false);
      OneSlotPins(s, s1, i, x, tid, Unlinked(i));
      forall t | t in s.threads && t != tid ensures s.threads[t].slot != i {
        OnePinOneThread(s, tid, t, i);
      }
      OneSlotThreads(s, s1, i, x, tid, Unlinked(i));
      UnlinkSlots(s, s1, spec, i);
    }
  }

  lemma ClearSlots(s: State, s1: State, spec: map<ChunkTag, Chunk>, i: nat)
    requires SlotsOk(s) && NothingLost(s, spec) && i < |s.slots| && !s.slots[i].linked
    requires s1.slots == s.slots[i := s.slots[i].(tag := NO_TAG, dirty := false)] && s1.store == s.store
    ensures SlotsOk(s1) && NothingLost(s1, spec)
  {
    hide IsLinked;
    forall t ensures IsLinked(s1, t) <==> IsLinked(s, t) {
      OneSlotLinks(s, s1, i, s1.slots[i], t);
    }
  }

  lemma ClearKeeps(s: State, spec: map<ChunkTag, Chunk>, tid: nat)
    requires Inv(s, spec) && Enabled(s, Clear(tid))
    ensures Inv(ClearStep(s, tid), spec)
  {
    hide SlotsOk, NothingLost;
    var i := s.threads[tid].slot;
    assert ThreadOk(s, s.threads[tid]);
    var x := s.slots[i].(tag := NO_TAG, dirty := false);
    var s1 := ClearStep(s, tid);
    OneSlotPins(s, s1, i, x, tid, Owned(i));
    forall t | t in s.threads && t != tid && s.threads[t].slot == i ensures ThreadOk(s1, s.threads[t]) {
      assert ThreadOk(s, s.threads[t]);
      assert !s.threads[t].Evicting();
    }
    OneSlotThreads(s, s1, i, x, tid, Owned(i));
    ClearSlots(s, s1, spec, i);
  }

  // ── Filling ──

  /** The slot after a fill, still pinned. */
  function FilledSlot(s: State, i: nat, tag: ChunkTag, patch: Option<Patch>): Slot
    requires i < |s.slots| && FitsOpt(patch)
  {
    s.slots[i].(tag := tag, linked := true, data := Filled(s, tag, patch), dirty := patch.Some?)
  }

  lemma FillSlots(s: State, s1: State, spec: map<ChunkTag, Chunk>, i: nat, tag: ChunkTag, patch: Option<Patch>)
    requires SlotsOk(s) && NothingLost(s, spec) && i < |s.slots| && !s.slots[i].linked && !IsLinked(s, tag)
    requires FitsOpt(patch) && tag != NO_TAG && (patch.None? ==> tag in s.store)
    requires s1.slots == s.slots[i := FilledSlot(s, i, tag, patch)] && s1.store == s.store
    ensures SlotsOk(s1)
    ensures NothingLost(s1, if patch.Some? then spec[tag := Splice(Base(spec, tag), patch.value.off, patch.value.data)] else spec)
  {
    hide IsLinked;
    forall t ensures IsLinked(s1, t) <==> IsLinked(s, t) || t == tag {
      OneSlotLinks(s, s1, i, s1.slots[i], t);
    }
    forall j | 0 <= j < |s.slots| && s.slots[j].linked ensures s.slots[j].tag != tag {
      SlotLinks(s, j);
    }
    assert tag in spec <==> tag in s.store;
    assert tag in spec ==> spec[tag] == s.store[tag];
  }

  /** The filled slot before its pin is dropped. */
  function Refilled(s: State, tid: nat, tag: ChunkTag, patch: Option<Patch>): State
    requires tid in s.threads && s.threads[tid].slot < |s.slots| && FitsOpt(patch)
  {
    var i := s.threads[tid].slot;
    Goto(SetSlot(s, i, FilledSlot(s, i, tag, patch)), tid, Finished(i))
  }

  lemma FillThreads(s: State, spec: map<ChunkTag, Chunk>, tid: nat, tag: ChunkTag, patch: Option<Patch>)
    requires Inv(s, spec) && Enabled(s, Fill(tid, tag, patch))
    ensures PinsOk(Refilled(s, tid, tag, patch)) && ThreadsOk(Refilled(s, tid, tag, patch))
  {
    hide SlotsOk, NothingLost, Filled;
    var i := s.threads[tid].slot;
    var x := FilledSlot(s, i, tag, patch);
    var s1 := Refilled(s, tid, tag, patch);
    OneSlotPins(s, s1, i, x, tid, Finished(i));
    forall t | t in s.threads && t != tid && s.threads[t].slot == i ensures ThreadOk(s1, s.threads[t]) {
      OwnedAlone(s, spec, tid, t);
    }
    OneSlotThreads(s, s1, i, x, tid, Finished(i));
  }

  /** Whoever else pins a slot that an eviction cleared relies on nothing in it. */
  lemma OwnedAlone(s: State, spec: map<ChunkTag, Chunk>, tid: nat, t: nat)
    requires Inv(s, spec) && tid in s.threads && t in s.threads && t != tid
    requires (s.threads[tid].Owned? || s.threads[tid].Unlinked?) && s.threads[t].slot == s.threads[tid].slot
    ensures !s.threads[t].Evicting() && !s.threads[t].Hit?
  {
    hide SlotsOk, NothingLost;
    assert ThreadOk(s, s.threads[tid]) && ThreadOk(s, s.threads[t]);
  }

  lemma FillKeeps(s: State, spec: map<ChunkTag, Chunk>, tid: nat, tag: ChunkTag, patch: Option<Patch>)
    requires Inv(s, spec) && Enabled(s, Fill(tid, tag, patch))
    ensures Inv(FillStep(s, tid, tag, patch), NextSpec(spec, s, Fill(tid, tag, patch)))
  {
    if IsLinked(s, tag) || (patch.None? && tag !in s.store) {
      UnpinKeeps(s, spec, tid);
    } else {
      FillLinks(s, spec, tid, tag, patch);
    }
  }

  lemma FillLinks(s: State, spec: map<ChunkTag, Chunk>, tid: nat, tag: ChunkTag, patch: Option<Patch>)
    requires Inv(s, spec) && Enabled(s, Fill(tid, tag, patch)) && !IsLinked(s, tag) && (patch.None? ==> tag in s.store)
    ensures Inv(FillStep(s, tid, tag, patch), NextSpec(spec, s, Fill(tid, tag, patch)))
  {
    hide SlotsOk, NothingLost, PinsOk, ThreadsOk, IsLinked, Filled;
    InvIsSane(s, spec);
    FillThreads(s, spec, tid, tag, patch);
    OwnedIsFree(s, spec, tid);
    var s1 := Refilled(s, tid, tag, patch);
    FillSlots(s, s1, spec, s.threads[tid].slot, tag, patch);
    var spec1 := NextSpec(spec, s, Fill(tid, tag, patch));
    UnpinKeeps(s1, spec1, tid);
    RefilledUnpinned(s, tid, tag, patch);
  }

  lemma OwnedIsFree(s: State, spec: map<ChunkTag, Chunk>, tid: nat)
    requires Inv(s, spec) && tid in s.threads && s.threads[tid].Owned?
    ensures !SlotOf(s, tid).linked
  {
    assert ThreadOk(s, s.threads[tid]);
  }

  lemma RefilledUnpinned(s: State, tid: nat, tag: ChunkTag, patch: Option<Patch>)
    requires Sane(s) && Enabled(s, Fill(tid, tag, patch)) && !IsLinked(s, tag) && (patch.None? ==> tag in s.store)
    ensures Unpinned(Refilled(s, tid, tag, patch), tid) == FillStep(s, tid, tag, patch)
  {
    hide Filled, IsLinked;
    assert s.threads[tid := Finished(s.threads[tid].slot)] - {tid} == s.threads - {tid};
  }

  // ── Every step, every run ──

  lemma StepKeeps(s: State, spec: map<ChunkTag, Chunk>, a: Act)
    requires Inv(s, spec) && Enabled(s, a)
    ensures Inv(Next(s, a), NextSpec(spec, s, a))
  {
    hide SlotsOk, NothingLost, Put, FillStep, UnlinkStep, ClearStep, EvictFlushStep, SectionStep, Pinned, Unpinned, Goto;
    match a
    case Lookup(tid, i, tag, patch) => PinKeeps(s, spec, tid, Hit(i, tag, patch));
    case Section(tid) => SectionKeeps(s, spec, tid);
    case Release(tid) => UnpinKeeps(s, spec, tid);
    case FlushPin(tid, i) => PinKeeps(s, spec, tid, FlushPinned(i));
    case FlushCheck(tid) => {
      GotoKeeps(s, spec, tid, FlushSeen(s.threads[tid].slot));
      UnpinKeeps(s, spec, tid);
    }
    case FlushPut(tid, ok) => FlushPutKeeps(s, spec, tid, ok);
    case Claim(tid, i) => PinKeeps(s, spec, tid, Claimed(i, s.slots[i].tag));
    case EvictFlush(tid, ok) => EvictFlushKeeps(s, spec, tid, ok);
    case Unlink(tid) => UnlinkKeeps(s, spec, tid);
    case Clear(tid) => ClearKeeps(s, spec, tid);
    case Fill(tid, tag, patch) => FillKeeps(s, spec, tid, tag, patch);
  }

  /** `n` empty slots over a store. */
  function Start(n: nat, store: map<ChunkTag, Chunk>): State {
    State(seq(n, _ => Slot(NO_TAG, false, false, Zeros(CHUNK_SIZE), 0)), store, map[])
  }

  /** The state and the specification after a run. */
  datatype World = World(s: State, spec: map<ChunkTag, Chunk>)

  ghost predicate CanStep(w: World, a: Act) {
    Sane(w.s) && Enabled(w.s, a)
  }

  ghost function Step(w: World, a: Act): World {
    if CanStep(w, a) then World(Next(w.s, a), NextSpec(w.spec, w.s, a)) else w
  }

  ghost function After(n: nat, store: map<ChunkTag, Chunk>, acts: seq<Act>): World
    decreases |acts|
  {
    if acts == [] then World(Start(n, store), store) else Step(After(n, store, acts[..|acts| - 1]), acts[|acts| - 1])
  }

  lemma {:induction false} RunKeepsInv(n: nat, store: map<ChunkTag, Chunk>, acts: seq<Act>)
    ensures Inv(After(n, store, acts).s, After(n, store, acts).spec)
    decreases |acts|
  {
    if acts == [] {
      StartOk(n, store);
    } else {
      hide Inv, Next, NextSpec, Sane, Enabled;
      var w := After(n, store, acts[..|acts| - 1]);
      RunKeepsInv(n, store, acts[..|acts| - 1]);
      if CanStep(w, acts[|acts| - 1]) {
        StepKeeps(w.s, w.spec, acts[|acts| - 1]);
      }
    }
  }

  lemma StartOk(n: nat, store: map<ChunkTag, Chunk>)
    ensures Inv(Start(n, store), store)
  {
    assert forall i :: 0 <= i < n ==> Holders(map[], i) == {};
  }

  // ── What every interleaving guarantees ──

  /** A slot that eviction unlinks holds exactly the store's bytes for its tag. */
  lemma {:induction false} UnlinkedIsStored(n: nat, store: map<ChunkTag, Chunk>, acts: seq<Act>, tid: nat)
    requires var s := After(n, store, acts).s;
             && Sane(s) && Enabled(s, Unlink(tid)) && s.slots[s.threads[tid].slot].linked
             && !Next(s, Unlink(tid)).slots[s.threads[tid].slot].linked
    ensures var s := After(n, store, acts).s;
            var x := s.slots[s.threads[tid].slot];
            x.tag in s.store && s.store[x.tag] == x.data
  {
    RunKeepsInv(n, store, acts);
    var s := After(n, store, acts).s;
    hide After, NothingLost;
    assert SlotOk(s.slots[s.threads[tid].slot], s.store);
  }

  /** A hit reads the bytes of the last completed patches, or of the store at the start. */
  lemma {:induction false} HitReadsLastPatch(n: nat, store: map<ChunkTag, Chunk>, acts: seq<Act>, tid: nat)
    requires tid in After(n, store, acts).s.threads && After(n, store, acts).s.threads[tid].Hit?
    ensures var w := After(n, store, acts);
            var l := w.s.threads[tid];
            l.slot < |w.s.slots| && l.tag in w.spec && w.s.slots[l.slot].data == w.spec[l.tag]
  {
    RunKeepsInv(n, store, acts);
    var w := After(n, store, acts);
    hide After;
    assert ThreadOk(w.s, w.s.threads[tid]);
    SpecOfLinked(w.s, w.spec, w.s.threads[tid].slot);
  }

  /** A tag in no slot reads its last completed patches from the store. */
  lemma {:induction false} MissReadsLastPatch(n: nat, store: map<ChunkTag, Chunk>, acts: seq<Act>, t: ChunkTag)
    requires !IsLinked(After(n, store, acts).s, t)
    ensures var w := After(n, store, acts);
            (t in w.spec <==> t in w.s.store) && (t in w.spec ==> w.spec[t] == w.s.store[t])
  {
    RunKeepsInv(n, store, acts);
    hide After, PinsOk, ThreadsOk, SlotsOk;
  }

  /** A failed put leaves a dirty slot linked, dirty and unchanged, and the store as it was. */
  lemma {:induction false} FailedPutStays(n: nat, store: map<ChunkTag, Chunk>, acts: seq<Act>, a: Act)
    requires a.FlushPut? || a.EvictFlush?
    requires !a.ok && Sane(After(n, store, acts).s) && Enabled(After(n, store, acts).s, a)
    requires SlotOf(After(n, store, acts).s, a.tid).dirty
    ensures var s := After(n, store, acts).s;
            var x, y := SlotOf(s, a.tid), Next(s, a).slots[s.threads[a.tid].slot];
            Next(s, a).store == s.store && y.linked && y.dirty && y.tag == x.tag && y.data == x.data
  {
    RunKeepsInv(n, store, acts);
    var s := After(n, store, acts).s;
    hide After, NothingLost;
    assert SlotOk(SlotOf(s, a.tid), s.store);
  }
}
