/**
 * The pieces of the store in their places: the ring of filters and indexes answers as the
 * model's window, a drained draft buffer is the commit the model makes of it, and the
 * sorted lists of a manifest are the fold the model publishes and the base it reads.
 */
module StoreLinks {
  import opened Types
  import opened WindowSpec
  import opened ManifestSpec
  import opened History
  import opened StoreModel
  import opened StoreInv
  import opened StoreReads
  import opened ChunkBloom
  import opened RelforkIndex
  import T = Timeline
  import B = DraftBuffer
  import F = SpillFile
  import M = Manifest
  import K = Tikm
  import SortedLists

  // ── The active ring ──

  /** `c` describes the filters and indexes of the ring. */
  ghost predicate Describes(c: Config, r: T.TimelineState) {
    r.shape.bytes > 0 && c == T.ConfigOf(c.db, |r.window|, r.shape, r.cap)
  }

  /** The ring is the window of `s`, and its filters and indexes are those of `c`. */
  ghost predicate RingShows(r: T.TimelineState, c: Config, s: State)
    reads r, r.repr
  {
    && r.Valid() && Describes(c, r)
    && s.window == Backwards(r.pushes, |r.window|)
  }

  /** A push on the ring is a push on the model's window. */
  lemma BackwardsPush(p: seq<Commit>, k: Commit, w: nat)
    requires w > 0
    ensures Backwards(p + [k], w) == Pushed(Backwards(p, w), k, w)
  {
    var a, b := Backwards(p + [k], w), Pushed(Backwards(p, w), k, w);
    forall i | 0 <= i < |a| ensures a[i] == b[i] {
    }
  }

  /** `push_active` of a commit: the ring shows the window after the commit. */
  method PushCommit(r: T.TimelineState, c: Config, s: State, ckpt: Checkpoint, redo: Checkpoint)
    requires RingShows(r, c, s)
    modifies r, r.repr
    ensures RingShows(r, c, RunCommit(c, s, ckpt, redo))
  {
    hide T.TimelineState.ShowsNewest;
    BackwardsPush(r.pushes, CommitOf(s, ckpt, redo), |r.window|);
    r.PushActive(CommitOf(s, ckpt, redo));
  }

  /** A ring refilled after a restart, oldest commit first, shows the window it was filled from. */
  method Refill(n: nat, shape: Shape, cap: nat, newest: seq<Commit>) returns (r: T.TimelineState)
    requires n > 0 && shape.bytes > 0 && |newest| <= n
    ensures r.Valid() && |r.window| == n && r.shape == shape && r.cap == cap && fresh(r) && fresh(r.repr)
    ensures Backwards(r.pushes, n) == newest
  {
    hide T.TimelineState.Valid;
    r := new T.TimelineState(n, shape, cap);
    var i := |newest|;
    while i > 0
      invariant 0 <= i <= |newest| && fresh(r) && fresh(r.repr) && r.Valid()
      invariant |r.pushes| == |newest| - i && forall j :: 0 <= j < |r.pushes| ==> r.pushes[j] == newest[|newest| - 1 - j]
    {
      i := i - 1;
      r.PushActive(newest[i]);
    }
  }

  /** The walk of the filters: each entry that may hold the chunk is looked up under its prefix. */
  method FindInActive(r: T.TimelineState, c: Config, s: State, t: ChunkTag) returns (k: Option<ChunkKey>)
    requires RingShows(r, c, s)
    ensures k == WindowFind(c, s, t, 0)
  {
    hide T.TimelineState.Valid, T.ActiveCheckpoint.Shows, T.ActiveCheckpoint.Sized, Describes;
    var entries := r.IterActive();
    var i := 0;
    while i < |entries|
      invariant 0 <= i <= |entries| == |s.window|
      invariant forall j :: 0 <= j < |entries| ==> entries[j].Shows(s.window[j]) && entries[j].Sized(r.shape, r.cap)
      invariant WindowFind(c, s, t, 0) == WindowFind(c, s, t, i)
    {
      var maybe := MayHold(entries[i], r, c, s, t, i);
      if maybe && KeyOf(c, entries[i].prev, t) in s.objs {
        return Some(KeyOf(c, entries[i].prev, t));
      }
      i := i + 1;
    }
    return None;
  }

  /** One entry's filter answers as the model's. */
  method MayHold(a: T.ActiveCheckpoint, r: T.TimelineState, c: Config, s: State, t: ChunkTag, ghost i: nat) returns (maybe: bool)
    requires Describes(c, r)
    requires i < |s.window| && a.Shows(s.window[i]) && a.Sized(r.shape, r.cap)
    ensures maybe == c.maybe(s.window[i], t) && a.prev == s.window[i].prev
  {
    maybe := a.bloom.MaybeContains(t);
  }

  /** The walk of the indexes, up to the first answer or the first inconclusive entry. */
  method AskActive(r: T.TimelineState, c: Config, s: State, rf: RelFork) returns (w: Walk)
    requires RingShows(r, c, s)
    ensures w == WindowAsk(c, s.window, rf, 0)
  {
    hide T.TimelineState.Valid, T.ActiveCheckpoint.Shows, T.ActiveCheckpoint.Sized, Describes;
    var entries := r.IterActive();
    var i := 0;
    while i < |entries|
      invariant 0 <= i <= |entries| == |s.window|
      invariant forall j :: 0 <= j < |entries| ==> entries[j].Shows(s.window[j]) && entries[j].Sized(r.shape, r.cap)
      invariant WindowAsk(c, s.window, rf, 0) == WindowAsk(c, s.window, rf, i)
    {
      var answer := AskEntry(entries[i], r, c, s, rf, i);
      match answer {
        case Hit(meta) => return Answered(meta);
        case Inconclusive => return Stopped(i + 1);
        case DefinitiveMiss =>
      }
      i := i + 1;
    }
    return Stopped(i);
  }

  method AskEntry(a: T.ActiveCheckpoint, r: T.TimelineState, c: Config, s: State, rf: RelFork, ghost i: nat) returns (answer: Answer)
    requires Describes(c, r)
    requires i < |s.window| && a.Shows(s.window[i]) && a.Sized(r.shape, r.cap)
    ensures answer == c.ask(s.window[i], rf)
  {
    answer := a.index.Get(rf);
  }

  // ── The draft buffer ──

  /** What a commit drains is what the model's commit records, and the buffer is the model's empty draft. */
  method DrainForCommit(d: B.DraftBuffer, c: Config, s: State, ckpt: Checkpoint, redo: Checkpoint) returns (k: Option<Commit>)
    requires d.Valid() && d.View() == s.draft
    modifies d, d.repr
    ensures k == Some(CommitOf(s, ckpt, redo))
    ensures d.Valid() && d.View() == RunCommit(c, s, ckpt, redo).draft
  {
    hide B.DraftBuffer.Valid;
    var r := d.Drain();
    match r
    case Ok(f) => k := Some(Commit(ckpt, s.head, redo, f.chunks, f.relforks));
    case _ => k := None;
  }

  lemma ValidIsApart(d: B.DraftBuffer)
    requires d.Valid()
    ensures d.Apart()
  {
  }

  /** Recording a chunk is the model's recording of it, with spills of the model before or after. */
  method RecordForPatch(d: B.DraftBuffer, s: State, t: ChunkTag, busy: bool) returns (ghost before: bool, ghost after: bool)
    requires d.Valid() && d.View() == s.draft
    modifies d, d.repr
    ensures d.Valid()
    ensures var s0 := if before then Spill(s) else s;
            var s1 := s0.(draft := s0.draft.WithChunk(t));
            d.View() == (if after then Spill(s1) else s1).draft
  {
    hide B.DraftBuffer.Valid;
    d.RecordChunk(t, busy);
    ValidIsApart(d);
    ghost var w := s.draft.WithChunk(t);
    ghost var x := s.draft.Spilled().WithChunk(t);
    before := d.View() != w && d.View() != w.Spilled();
    after := if before then d.View() != x else d.View() != w;
  }

  // ── The manifest ──

  /** Consecutive commits have no ties: equal LSNs are the same checkpoint. */
  lemma SliceHasNoTies(h: seq<Commit>, i: nat, j: nat)
    requires Chain(h) && i <= j <= |h|
    ensures M.NoTies(h[i..j])
  {
    var ks := h[i..j];
    forall x, y | 0 <= x < |ks| && 0 <= y < |ks| && ks[x].prev.lsn == ks[y].prev.lsn ensures ks[x].prev == ks[y].prev {
      if x < y {
        ChainOrder(h, i + x, i + y);
      } else if y < x {
        ChainOrder(h, i + y, i + x);
      }
    }
  }

  /** In every consistent store, `apply_segments` on the sorted lists of the base gives what the model publishes. */
  method FoldForPublish(c: Config, s: State, ghost h: seq<Commit>, ghost spec: Spec, base: M.Tables) returns (applied: M.Tables)
    requires Inv(c, s, h, spec) && s.phase.Collected? && s.phase.apply != [] && s.phase.pid in s.caches
    requires Loadable(s, s.phase.pid) && M.Represents(base, BaseManifest(s, s.phase.pid))
    ensures Publish(c, s).phase.Published? && M.Represents(applied, Publish(c, s).phase.applied)
  {
    GatheredHaveNoTies(c, s, h, spec);
    hide Inv, M.Represents, Folded, M.NoTies;
    ghost var best;
    applied, best := M.ApplySegments(base, BaseManifest(s, s.phase.pid), s.phase.apply, c.db);
  }

  lemma GatheredHaveNoTies(c: Config, s: State, h: seq<Commit>, spec: Spec)
    requires Inv(c, s, h, spec) && s.phase.Collected?
    ensures M.NoTies(s.phase.apply)
  {
    hide ObjInv, SegInv, WindowInv, ManInv, DataInv, Chain, M.NoTies, Lists, Increasing, AllEmpty;
    var i, j :| Upto(h, s.phase.from) <= i < j <= |h| && AllEmpty(h, Upto(h, s.phase.from), i) && s.phase.apply == h[i..j];
    SliceHasNoTies(h, i, j);
  }

  /** Binary search in the bytes of the file that holds the base is the model's lookup in it. */
  method FindInBase(o: K.Opened, ghost im: K.Image, s: State, pid: nat, t: ChunkTag) returns (k: Option<ChunkKey>)
    requires pid in s.caches && Loadable(s, pid) && K.Representable(im) && o == K.OpenedOf(im)
    requires M.Represents(im.tables, BaseManifest(s, pid))
    ensures k == BaseFind(s, pid, t)
  {
    var r := K.Lookup(o, t, im, BaseManifest(s, pid).chunks);
    var ref := r.value;
    if ref.Some? && ChunkKey(ref.value.db, Checkpoint(ref.value.tl, ref.value.lsn), t) in s.objs {
      return Some(ChunkKey(ref.value.db, Checkpoint(ref.value.tl, ref.value.lsn), t));
    }
    return None;
  }

  method AskBase(o: K.Opened, ghost im: K.Image, s: State, pid: nat, rf: RelFork) returns (m: Option<Meta>)
    requires pid in s.caches && Loadable(s, pid) && K.Representable(im) && o == K.OpenedOf(im)
    requires M.Represents(im.tables, BaseManifest(s, pid))
    ensures m == BaseMeta(s, pid, rf)
  {
    var r := K.LookupMeta(o, rf, im, BaseManifest(s, pid).meta);
    m := r.value;
  }
}
