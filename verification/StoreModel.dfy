/**
 * The timeline store as a value: its storage objects, its shared-memory state,
 * every process's cached base manifest, and what each operation does to them.
 */
module StoreModel {
  import opened Types
  import opened WindowSpec
  import opened ManifestSpec

  /** `{db}/chunks/{ckpt}/{tag}`. */
  datatype ChunkKey = ChunkKey(db: U64, ckpt: Checkpoint, tag: ChunkTag)

  /**
   * The draft buffer: tags and fork metadata in memory, what the spill file holds,
   * and whether a spill happened since the last drain. Module DraftBuffer implements it.
   */
  datatype Draft = Draft(mem: set<ChunkTag>, relMem: map<RelFork, Meta>,
                         spilled: bool, file: set<ChunkTag>, relFile: map<RelFork, Meta>)
  {
    function Chunks(): set<ChunkTag> { mem + file }

    function Relforks(): map<RelFork, Meta> { relFile + relMem }

    /** True for a recorded tag; also for every tag once something spilled. */
    predicate MaybeChunk(t: ChunkTag) { t in mem || spilled }

    function GetRelfork(rf: RelFork): Option<Meta> {
      if rf in relMem then Some(relMem[rf])
      else if spilled && rf in relFile then Some(relFile[rf])
      else None
    }

    function WithChunk(t: ChunkTag): Draft { this.(mem := mem + {t}) }

    function WithRelfork(rf: RelFork, m: Meta): Draft { this.(relMem := relMem[rf := m]) }

    /** Both zones move to the spill file in one frame; nothing happens if both are empty. */
    function Spilled(): Draft {
      if mem == {} && relMem == map[] then this
      else Draft({}, map[], true, Chunks(), Relforks())
    }

    predicate WellFormed() { !spilled ==> file == {} && relFile == map[] }
  }

  const NO_DRAFT := Draft({}, map[], false, {}, map[])

  /**
   * Where the one compactor is. `through` tells `run_compaction_through` from
   * `run_compaction`; `ids` is the listing it works from.
   */
  datatype Phase =
    | Idle
    | Snapped(pid: nat, through: bool, from: Checkpoint, upper: Checkpoint)
    | Collected(pid: nat, through: bool, from: Checkpoint, ids: seq<SegmentId>, apply: seq<Commit>)
    | Published(pid: nat, from: Checkpoint, ids: seq<SegmentId>, target: Checkpoint, applied: Manifest)
    | Written(pid: nat, from: Checkpoint, ids: seq<SegmentId>, target: Checkpoint, applied: Manifest)
    | Installed(pid: nat, ids: seq<SegmentId>, target: Checkpoint, applied: Manifest)
    | Deleting(ids: seq<SegmentId>)

  /**
   * `objs`, `segs` and `bases` are storage objects; `local` is the TIKM file of this
   * host; `caches` holds each process's `base_manifest`; the rest is shared memory.
   */
  datatype State = State(
    objs: map<ChunkKey, Chunk>,
    segs: map<SegmentId, seq<Commit>>,
    bases: map<Checkpoint, Manifest>,
    local: Manifest,
    caches: map<nat, Manifest>,
    base: Checkpoint, head: Checkpoint, redo: Checkpoint,
    window: seq<Commit>,
    draft: Draft,
    phase: Phase)

  /** An empty store with process 0 started on it. */
  const START := State(map[], map[], map[], EMPTY, map[0 := EMPTY], GENESIS, GENESIS, GENESIS, [], NO_DRAFT, Idle)

  // ── Listing segments ──

  ghost predicate Increasing(ids: seq<SegmentId>) {
    forall i, j :: 0 <= i < j < |ids| ==> SidLess(ids[i], ids[j])
  }

  ghost function LowestSid(s: set<SegmentId>): (r: SegmentId)
    requires s != {}
    ensures r in s && forall x :: x in s ==> SidLe(r, x)
    decreases |s|
  {
    var x :| x in s;
    var rest := s - {x};
    assert forall y :: y in s ==> y == x || y in rest;
    if rest == {} then
      x
    else
      var l := LowestSid(rest);
      if SidLess(x, l) then x else l
  }

  /** A set of segment ids in ascending order. */
  ghost function SortedSids(s: set<SegmentId>): (ids: seq<SegmentId>)
    ensures Increasing(ids)
    ensures forall x :: x in ids <==> x in s
    decreases |s|
  {
    if s == {} then [] else
      var l := LowestSid(s);
      var rest := SortedSids(s - {l});
      assert forall i :: 0 <= i < |rest| ==> rest[i] in s - {l};
      [l] + rest
  }

  /** `list_segments_in_range`. */
  ghost function Listing(segs: map<SegmentId, seq<Commit>>, low: Checkpoint, high: Checkpoint): (ids: seq<SegmentId>)
    ensures Increasing(ids)
    ensures forall x :: x in ids <==> x in segs && Overlaps(x, low, high)
  {
    SortedSids(set x | x in segs && Overlaps(x, low, high))
  }

  // ── Base manifest snapshot of a process ──

  predicate CanLoad(s: State, at: Checkpoint) {
    at == GENESIS || s.local.ckpt == at || at in s.bases
  }

  /**
   * `load_manifest_at`: the local file if it is the one wanted, else the stored
   * object, which is then written over the local file.
   */
  function LoadManifest(s: State, at: Checkpoint): Manifest
    requires CanLoad(s, at)
  {
    if at == GENESIS then EMPTY
    else if s.local.ckpt == at then s.local
    else s.bases[at]
  }

  /** Whether `base_manifest` has a manifest to return to process `pid`. */
  predicate Loadable(s: State, pid: nat)
    requires pid in s.caches
  {
    s.caches[pid].ckpt == s.base || CanLoad(s, s.base)
  }

  /** The manifest `base_manifest` returns to process `pid`. */
  function BaseManifest(s: State, pid: nat): Manifest
    requires pid in s.caches && Loadable(s, pid)
  {
    if s.caches[pid].ckpt == s.base then s.caches[pid] else LoadManifest(s, s.base)
  }

  /** What `base_manifest` leaves behind: a fresh cache and maybe a rewritten local file. */
  function Reloaded(s: State, pid: nat): State
    requires pid in s.caches
  {
    if s.caches[pid].ckpt == s.base || !CanLoad(s, s.base) then
      s
    else
      var m := LoadManifest(s, s.base);
      s.(local := m, caches := s.caches[pid := m])
  }

  // ── Reading a chunk ──

  function KeyOf(c: Config, ckpt: Checkpoint, t: ChunkTag): ChunkKey {
    ChunkKey(c.db, ckpt, t)
  }

  /** Walk of the active window from entry `i` on. */
  function WindowFind(c: Config, s: State, t: ChunkTag, i: nat): Option<ChunkKey>
    requires i <= |s.window|
    decreases |s.window| - i
  {
    if i == |s.window| then
      None
    else if c.maybe(s.window[i], t) && KeyOf(c, s.window[i].prev, t) in s.objs then
      Some(KeyOf(c, s.window[i].prev, t))
    else
      WindowFind(c, s, t, i + 1)
  }

  /** The newest of the first `n` checkpoints of one segment that satisfies `hit`. */
  function SegmentScan(seg: seq<Commit>, n: nat, hit: Commit -> bool): Option<Commit>
    requires n <= |seg|
    decreases n
  {
    if n == 0 then None
    else if hit(seg[n - 1]) then Some(seg[n - 1])
    else SegmentScan(seg, n - 1, hit)
  }

  /** Walk of the first `n` listed segments, newest first. */
  function SegmentsScan(segs: map<SegmentId, seq<Commit>>, ids: seq<SegmentId>, n: nat, hit: Commit -> bool): Option<Commit>
    requires n <= |ids| && forall i :: 0 <= i < |ids| ==> ids[i] in segs
    decreases n
  {
    if n == 0 then
      None
    else
      var r := SegmentScan(segs[ids[n - 1]], |segs[ids[n - 1]]|, hit);
      if r.Some? then r else SegmentsScan(segs, ids, n - 1, hit)
  }

  /** A checkpoint in `[low, high)` that lists the chunk and whose object exists. */
  function ChunkHit(c: Config, objs: map<ChunkKey, Chunk>, t: ChunkTag, low: Checkpoint, high: Checkpoint): Commit -> bool {
    (k: Commit) => !CkptLess(k.ckpt, low) && CkptLess(k.ckpt, high) && t in k.chunks && KeyOf(c, k.prev, t) in objs
  }

  /** A checkpoint in `[low, high]` that changed the fork. */
  function MetaHit(rf: RelFork, low: Checkpoint, high: Checkpoint): Commit -> bool {
    (k: Commit) => !CkptLess(k.ckpt, low) && CkptLe(k.ckpt, high) && rf in k.relforks
  }

  /** The checkpoint below which the segment scan starts. */
  function ScanTop(s: State, n: nat): Checkpoint
    requires n <= |s.window|
  {
    if n == 0 then s.head else s.window[n - 1].ckpt
  }

  /** The part of `get_chunk` that runs under the timeline read lock. */
  ghost function LockedFind(c: Config, s: State, t: ChunkTag): Option<ChunkKey> {
    if s.draft.MaybeChunk(t) && KeyOf(c, s.head, t) in s.objs then
      Some(KeyOf(c, s.head, t))
    else
      var w := WindowFind(c, s, t, 0);
      var top := ScanTop(s, |s.window|);
      if w.Some? then
        w
      else if CkptLe(top, s.base) then
        None
      else
        var ids := Listing(s.segs, s.base, top);
        match SegmentsScan(s.segs, ids, |ids|, ChunkHit(c, s.objs, t, s.base, top))
        case Some(k) => Some(KeyOf(c, k.prev, t))
        case None => None
  }

  /**
   * The last part of `get_chunk`: the base manifest's reference, if its object
   * exists. A manifest that cannot be loaded gives the same not-found error.
   */
  function BaseFind(s: State, pid: nat, t: ChunkTag): Option<ChunkKey>
    requires pid in s.caches
  {
    if Loadable(s, pid) && t in BaseManifest(s, pid).chunks then
      var r := BaseManifest(s, pid).chunks[t];
      var key := ChunkKey(r.db, Checkpoint(r.tl, r.lsn), t);
      if key in s.objs then Some(key) else None
    else
      None
  }

  /** The object `get_chunk` reads, or none for not-found. */
  ghost function Find(c: Config, s: State, pid: nat, t: ChunkTag): Option<ChunkKey>
    requires pid in s.caches
  {
    var r := LockedFind(c, s, t);
    if r.Some? then r else BaseFind(s, pid, t)
  }

  ghost function GetChunk(c: Config, s: State, pid: nat, t: ChunkTag): Option<Chunk>
    requires pid in s.caches
  {
    var r := Find(c, s, pid, t);
    if r.Some? && r.value in s.objs then Some(s.objs[r.value]) else None
  }

  /** A read that falls through to the base manifest refreshes the process's snapshot. */
  ghost function AfterGetChunk(c: Config, s: State, pid: nat, t: ChunkTag): State
    requires pid in s.caches
  {
    if LockedFind(c, s, t).Some? then s else Reloaded(s, pid)
  }

  // ── Reading fork metadata ──

  datatype Walk = Answered(meta: Meta) | Stopped(n: nat)

  /** Walk of the window's fork indexes; stops after the first inconclusive entry. */
  function WindowAsk(c: Config, w: seq<Commit>, rf: RelFork, i: nat): (r: Walk)
    requires i <= |w|
    ensures r.Stopped? ==> r.n <= |w|
    decreases |w| - i
  {
    if i == |w| then
      Stopped(i)
    else
      match c.ask(w[i], rf)
      case Hit(meta) => Answered(meta)
      case DefinitiveMiss => WindowAsk(c, w, rf, i + 1)
      case Inconclusive => Stopped(i + 1)
  }

  /** The part of `get_meta` that runs under the timeline read lock. */
  ghost function LockedMeta(c: Config, s: State, rf: RelFork): Option<Meta> {
    var d := s.draft.GetRelfork(rf);
    if d.Some? then
      d
    else
      match WindowAsk(c, s.window, rf, 0)
      case Answered(meta) => Some(meta)
      case Stopped(n) =>
        var top := ScanTop(s, n);
        if CkptLess(top, s.base) then
          None
        else
          var ids := Listing(s.segs, s.base, top);
          match SegmentsScan(s.segs, ids, |ids|, MetaHit(rf, s.base, top))
          case Some(k) => if rf in k.relforks then Some(k.relforks[rf]) else None
          case None => None
  }

  function BaseMeta(s: State, pid: nat, rf: RelFork): Option<Meta>
    requires pid in s.caches
  {
    if Loadable(s, pid) && rf in BaseManifest(s, pid).meta then Some(BaseManifest(s, pid).meta[rf]) else None
  }

  ghost function GetMeta(c: Config, s: State, pid: nat, rf: RelFork): Option<Meta>
    requires pid in s.caches
  {
    var r := LockedMeta(c, s, rf);
    if r.Some? then r else BaseMeta(s, pid, rf)
  }

  ghost function AfterGetMeta(c: Config, s: State, pid: nat, rf: RelFork): State
    requires pid in s.caches
  {
    if LockedMeta(c, s, rf).Some? then s else Reloaded(s, pid)
  }

  // ── Writing ──

  /** `patch_chunk`: read-merge-write at the head prefix, then note the tag. */
  ghost function PatchChunk(c: Config, s: State, pid: nat, t: ChunkTag, off: nat, data: Bytes): State
    requires pid in s.caches && off + |data| <= CHUNK_SIZE
  {
    var was := GetChunk(c, s, pid, t);
    var merged := Splice(if was.Some? then was.value else Zeros(CHUNK_SIZE), off, data);
    var s1 := if IsFull(off, data) then s else AfterGetChunk(c, s, pid, t);
    s1.(objs := s.objs[KeyOf(c, s.head, t) := merged], draft := s.draft.WithChunk(t))
  }

  /** A write of the whole chunk needs no read first. */
  predicate IsFull(off: nat, data: Bytes) {
    off == 0 && |data| == CHUNK_SIZE
  }

  function PutMeta(s: State, rf: RelFork, m: Meta): State {
    s.(draft := s.draft.WithRelfork(rf, m))
  }

  function Spill(s: State): State {
    s.(draft := s.draft.Spilled())
  }

  // ── Commit ──

  function CommitOf(s: State, ckpt: Checkpoint, redo: Checkpoint): Commit {
    Commit(ckpt, s.head, redo, s.draft.Chunks(), s.draft.Relforks())
  }

  /** Drain the draft into the segment of `ckpt`, push it on the window, advance the head. */
  function RunCommit(c: Config, s: State, ckpt: Checkpoint, redo: Checkpoint): State {
    var k := CommitOf(s, ckpt, redo);
    var sid := SidOf(ckpt);
    var seg := if sid in s.segs then s.segs[sid] else [];
    s.(segs := s.segs[sid := seg + [k]],
       redo := redo,
       draft := NO_DRAFT,
       window := Pushed(s.window, k, c.window),
       head := ckpt)
  }

  // ── Compaction ──

  /** `run_compaction` folds below the redo point, or below the head while none is known. */
  function UpperBound(s: State): Checkpoint {
    if s.redo.lsn == 0 then s.head else s.redo
  }

  function Snap(s: State, pid: nat): State {
    var upper := UpperBound(s);
    if CkptLe(upper, s.base) then s else s.(phase := Snapped(pid, false, s.base, upper))
  }

  function SnapThrough(s: State, pid: nat, target: Checkpoint): State {
    if CkptLe(target, s.base) then s else s.(phase := Snapped(pid, true, s.base, target))
  }

  predicate Eligible(k: Commit, through: bool, from: Checkpoint, upper: Checkpoint) {
    CkptLess(from, k.ckpt) && (if through then CkptLe(k.ckpt, upper) else CkptLess(k.ckpt, upper))
  }

  /** The eligible checkpoints of one segment, in file order. */
  function EligibleOf(seg: seq<Commit>, through: bool, from: Checkpoint, upper: Checkpoint): seq<Commit> {
    if seg == [] then
      []
    else
      var rest := EligibleOf(seg[..|seg| - 1], through, from, upper);
      var k := seg[|seg| - 1];
      if Eligible(k, through, from, upper) then rest + [k] else rest
  }

  /** The eligible checkpoints of the first `n` listed segments. */
  function Gather(segs: map<SegmentId, seq<Commit>>, ids: seq<SegmentId>, n: nat, through: bool, from: Checkpoint, upper: Checkpoint): seq<Commit>
    requires n <= |ids| && forall i :: 0 <= i < |ids| ==> ids[i] in segs
    decreases n
  {
    if n == 0 then []
    else Gather(segs, ids, n - 1, through, from, upper) + EligibleOf(segs[ids[n - 1]], through, from, upper)
  }

  /** List and load the segments in range and keep the eligible checkpoints. */
  ghost function Collect(s: State): State
    requires s.phase.Snapped?
  {
    var p := s.phase;
    var ids := Listing(s.segs, p.from, p.upper);
    var apply := Gather(s.segs, ids, |ids|, p.through, p.from, p.upper);
    if apply == [] then
      s.(phase := Idle)
    else
      s.(phase := Collected(p.pid, p.through, p.from, ids, apply))
  }

  /** Fold into the compactor's base manifest and publish the result in storage. */
  function Publish(c: Config, s: State): State
    requires s.phase.Collected? && s.phase.apply != [] && s.phase.pid in s.caches
  {
    var p := s.phase;
    if !Loadable(s, p.pid) then
      s.(phase := Idle)
    else
      var applied := Folded(c.db, BaseManifest(s, p.pid), p.apply);
      var target := if p.through then applied.ckpt else p.apply[|p.apply| - 1].ckpt;
      Reloaded(s, p.pid).(bases := s.bases[target := applied],
                          phase := Published(p.pid, p.from, p.ids, target, applied))
  }

  /** Rewrite the local TIKM file. */
  function WriteLocal(s: State): State
    requires s.phase.Published?
  {
    var p := s.phase;
    s.(local := p.applied, phase := Written(p.pid, p.from, p.ids, p.target, p.applied))
  }

  /** Advance the base under the write lock, unless another compactor did. */
  function Install(s: State): State
    requires s.phase.Written?
  {
    var p := s.phase;
    if s.base != p.from then
      s.(phase := Idle)
    else
      s.(base := p.target, phase := Installed(p.pid, p.ids, p.target, p.applied))
  }

  function TakeBelow(ids: seq<SegmentId>, bound: SegmentId): seq<SegmentId> {
    if ids == [] || !SidLess(ids[0], bound) then [] else [ids[0]] + TakeBelow(ids[1..], bound)
  }

  /** Swap the compactor's own snapshot and list the files to delete. */
  function Swap(s: State): State
    requires s.phase.Installed?
  {
    var p := s.phase;
    s.(caches := s.caches[p.pid := p.applied], phase := Deleting(TakeBelow(p.ids, SidOf(p.target))))
  }

  /** Delete the next superseded segment file. */
  function DeleteOne(s: State): State
    requires s.phase.Deleting?
  {
    var p := s.phase;
    if p.ids == [] then
      s.(phase := Idle)
    else
      s.(segs := s.segs - {p.ids[0]}, phase := Deleting(p.ids[1..]))
  }

  // ── Processes and restarts ──

  /** `Store::init` in another process: it opens the local TIKM file. */
  function Attach(s: State, pid: nat): State {
    s.(caches := s.caches[pid := s.local])
  }

  /** The newest checkpoints of the first `n` listed segments, newest first, at most `room`. */
  function NewestOf(segs: map<SegmentId, seq<Commit>>, ids: seq<SegmentId>, n: nat, room: nat): seq<Commit>
    requires n <= |ids| && forall i :: 0 <= i < |ids| ==> ids[i] in segs
    decreases n
  {
    if n == 0 || room == 0 then
      []
    else
      var got := Backwards(segs[ids[n - 1]], room);
      got + NewestOf(segs, ids, n - 1, room - |got|)
  }

  /** The last `room` items of a list, last first. */
  function Backwards<T>(xs: seq<T>, room: nat): (r: seq<T>)
    ensures |r| == Min(|xs|, room)
    ensures forall i :: 0 <= i < |r| ==> r[i] == xs[|xs| - 1 - i]
  {
    if xs == [] || room == 0 then [] else [xs[|xs| - 1]] + Backwards(xs[..|xs| - 1], room - 1)
  }

  /**
   * A restart with fresh shared memory: one process opens the local file, and
   * `hydrate_timeline_state` refills the window from the segments and takes the
   * base from that manifest's header.
   */
  ghost function Restart(c: Config, s: State, pid: nat): State {
    var ids := SortedSids(s.segs.Keys);
    var newest := NewestOf(s.segs, ids, |ids|, c.window);
    State(s.objs, s.segs, s.bases, s.local, map[pid := s.local],
          s.local.ckpt,
          if newest == [] then GENESIS else newest[0].ckpt,
          GENESIS, newest, NO_DRAFT, Idle)
  }
}
