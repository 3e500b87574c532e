/** How each layer of the store relates to the history of commits. */
module StoreInv {
  import opened Types
  import opened WindowSpec
  import opened ManifestSpec
  import opened History
  import opened StoreModel

  /** The specification of the layers: the bytes of each tag's newest version, the last metadata of each fork. */
  datatype Spec = Spec(chunks: map<ChunkTag, Chunk>, metas: map<RelFork, Meta>)

  ghost predicate WrittenAt(h: seq<Commit>, at: Checkpoint, t: ChunkTag) {
    exists i :: 0 <= i < |h| && h[i].prev == at && t in h[i].chunks
  }

  /** An object exists exactly for each chunk of each commit, and for the draft. */
  ghost predicate ObjInv(c: Config, s: State, h: seq<Commit>) {
    forall k: ChunkKey {:trigger k in s.objs} :: k.db == c.db ==>
      (k in s.objs <==> WrittenAt(h, k.ckpt, k.tag) || (k.ckpt == s.head && k.tag in s.draft.Chunks()))
  }

  /** The commits of `h` that belong in segment `sid`. */
  function Bucket(h: seq<Commit>, sid: SegmentId): seq<Commit> {
    if h == [] then
      []
    else
      var rest := Bucket(h[..|h| - 1], sid);
      if SidOf(h[|h| - 1].ckpt) == sid then rest + [h[|h| - 1]] else rest
  }

  predicate InFile(s: State, k: Commit) {
    SidOf(k.ckpt) in s.segs
  }

  /** Files are complete, and the commits still in files are the newest ones. */
  ghost predicate FilesInv(s: State, h: seq<Commit>) {
    && (forall sid {:trigger sid in s.segs} :: sid in s.segs ==> s.segs[sid] == Bucket(h, sid) && s.segs[sid] != [])
    && (forall i, j :: 0 <= i < j < |h| && InFile(s, h[i]) ==> InFile(s, h[j]))
    && (h != [] ==> InFile(s, h[|h| - 1]))
  }

  /** A commit whose file is gone is in the base or changed nothing. */
  ghost predicate NothingLost(s: State, h: seq<Commit>) {
    forall i :: 0 <= i < |h| ==> InFile(s, h[i]) || CkptLe(h[i].ckpt, s.base) || IsEmpty(h[i])
  }

  ghost predicate SegInv(s: State, h: seq<Commit>) {
    FilesInv(s, h) && NothingLost(s, h)
  }

  ghost predicate IsChange(h: seq<Commit>, c: Checkpoint) {
    c == GENESIS || exists i :: 0 <= i < |h| && h[i].ckpt == c && !IsEmpty(h[i])
  }

  /** The redo point that the first `n` commits leave: that of the newest of them. */
  function RedoAt(h: seq<Commit>, n: nat): Checkpoint
    requires n <= |h|
  {
    if n == 0 then GENESIS else h[n - 1].redo
  }

  /**
   * A manifest known as `at` carries the redo point of the newest commit folded into it:
   * of the commit at `at`, or, if it is known by its header, maybe of a later commit that
   * changed nothing.
   */
  ghost predicate RedoOk(m: Manifest, h: seq<Commit>, at: Checkpoint) {
    exists n: nat {:trigger RedoAt(h, n)} ::
      && Upto(h, m.ckpt) <= n <= |h| && AllEmpty(h, Upto(h, m.ckpt), n)
      && m.redo == RedoAt(h, n) && (at == m.ckpt || n == Upto(h, at))
  }

  /** A manifest represents the commits up to its own header. */
  ghost predicate Good(db: U64, m: Manifest, h: seq<Commit>) {
    IsChange(h, m.ckpt) && Covers(db, m, Below(h, m.ckpt)) && RedoOk(m, h, m.ckpt)
  }

  /** A manifest represents the commits up to `at`, whatever its header says. */
  ghost predicate Fits(db: U64, m: Manifest, h: seq<Commit>, at: Checkpoint) {
    && Good(db, m, h)
    && CkptLe(m.ckpt, at) && CkptLe(at, HeadOf(h))
    && AllEmpty(h, Upto(h, m.ckpt), Upto(h, at))
    && RedoOk(m, h, at)
  }

  /** A header a process may hold: at most the base, or the one just being installed. */
  ghost predicate HeaderOk(s: State, m: Manifest) {
    CkptLe(m.ckpt, s.base) || (s.phase.Written? && m == s.phase.applied)
  }

  ghost predicate ManInv(c: Config, s: State, h: seq<Commit>) {
    && Good(c.db, s.local, h) && HeaderOk(s, s.local)
    && (forall p {:trigger p in s.caches} :: p in s.caches ==> Good(c.db, s.caches[p], h) && HeaderOk(s, s.caches[p]))
    && (forall b {:trigger b in s.bases} :: b in s.bases ==> Fits(c.db, s.bases[b], h, b))
    && (s.phase.Written? || CanLoad(s, s.base))
    && CkptLe(GENESIS, s.base) && CkptLe(s.base, HeadOf(h))
  }

  /** The commits to fold continue the base, up to commits that changed nothing. */
  ghost predicate Continues(h: seq<Commit>, from: Checkpoint, apply: seq<Commit>) {
    exists i, j :: Upto(h, from) <= i < j <= |h| && AllEmpty(h, Upto(h, from), i) && apply == h[i..j]
  }

  /** Every file below `bound` is in the compactor's listing. */
  ghost predicate Lists(s: State, ids: seq<SegmentId>, bound: SegmentId) {
    forall sid {:trigger sid in s.segs} :: sid in s.segs && SidLess(sid, bound) ==> sid in ids
  }

  ghost predicate NoneBelow(s: State, bound: SegmentId) {
    forall sid {:trigger sid in s.segs} :: sid in s.segs ==> !SidLess(sid, bound)
  }

  ghost predicate Ready(c: Config, s: State, h: seq<Commit>, ids: seq<SegmentId>, target: Checkpoint, applied: Manifest) {
    && Increasing(ids) && Lists(s, ids, SidOf(target))
    && Fits(c.db, applied, h, target)
    && target in s.bases && s.bases[target] == applied
    && (CkptLe(s.base, target) || AllEmpty(h, Upto(h, target), Upto(h, s.base)))
  }

  ghost predicate PhaseInv(c: Config, s: State, h: seq<Commit>) {
    match s.phase
    case Idle => NoneBelow(s, SidOf(s.base))
    case Snapped(pid, _, from, upper) => from == s.base && pid in s.caches && NoneBelow(s, SidOf(s.base))
    case Collected(pid, _, from, ids, apply) =>
      && from == s.base && pid in s.caches && NoneBelow(s, SidOf(s.base))
      && Continues(h, from, apply) && Increasing(ids) && Lists(s, ids, SidOf(apply[|apply| - 1].ckpt))
    case Published(pid, from, ids, target, applied) =>
      from == s.base && pid in s.caches && NoneBelow(s, SidOf(s.base)) && Ready(c, s, h, ids, target, applied)
    case Written(pid, from, ids, target, applied) =>
      from == s.base && pid in s.caches && NoneBelow(s, SidOf(s.base)) && Ready(c, s, h, ids, target, applied)
    case Installed(pid, ids, target, applied) =>
      s.base == target && pid in s.caches && Ready(c, s, h, ids, target, applied)
    case Deleting(ids) =>
      && Increasing(ids) && Lists(s, ids, SidOf(s.base))
      && forall i :: 0 <= i < |ids| ==> SidLess(ids[i], SidOf(s.base))
  }

  ghost predicate WindowInv(c: Config, s: State, h: seq<Commit>) {
    && ListsNewest(s.window, h) && |s.window| <= c.window
    && (h != [] ==> s.window != [])
  }

  /** The object that holds the newest version of a chunk. */
  function Latest(c: Config, s: State, h: seq<Commit>, t: ChunkTag): Option<ChunkKey> {
    if t in s.draft.Chunks() then Some(KeyOf(c, s.head, t))
    else if LastIdx(h, t) >= 0 then Some(KeyOf(c, h[LastIdx(h, t)].prev, t))
    else None
  }

  ghost predicate DataInv(c: Config, s: State, h: seq<Commit>, spec: Spec) {
    && (forall t {:trigger t in spec.chunks} :: t in spec.chunks <==> Latest(c, s, h, t).Some?)
    && (forall t {:trigger t in spec.chunks} :: t in spec.chunks ==>
          var k := Latest(c, s, h, t).value; k in s.objs && s.objs[k] == spec.chunks[t])
    && spec.metas == MetaFold(h) + s.draft.Relforks()
  }

  ghost predicate Inv(c: Config, s: State, h: seq<Commit>, spec: Spec) {
    && c.Sound() && Chain(h) && s.head == HeadOf(h) && s.draft.WellFormed()
    && ObjInv(c, s, h) && SegInv(s, h) && WindowInv(c, s, h)
    && ManInv(c, s, h) && PhaseInv(c, s, h)
    && DataInv(c, s, h, spec)
  }

  // ── Facts about buckets ──

  lemma {:induction false} BucketHolds(h: seq<Commit>, sid: SegmentId, k: Commit)
    ensures k in Bucket(h, sid) <==> k in h && SidOf(k.ckpt) == sid
    decreases |h|
  {
    if h != [] {
      var last := |h| - 1;
      BucketHolds(h[..last], sid, k);
      assert h == h[..last] + [h[last]];
    }
  }

  ghost predicate AscendingCkpts(ks: seq<Commit>) {
    forall i, j :: 0 <= i < j < |ks| ==> CkptLess(ks[i].ckpt, ks[j].ckpt)
  }

  lemma {:induction false} BucketAscends(h: seq<Commit>, sid: SegmentId)
    requires Chain(h)
    ensures AscendingCkpts(Bucket(h, sid))
    decreases |h|
  {
    if h != [] {
      var last := |h| - 1;
      ChainPrefix(h, last);
      BucketAscends(h[..last], sid);
      var b := Bucket(h[..last], sid);
      forall i | 0 <= i < |b| ensures CkptLess(b[i].ckpt, h[last].ckpt) {
        BucketHolds(h[..last], sid, b[i]);
        var x :| 0 <= x < last && h[..last][x] == b[i];
        ChainOrder(h, x, last);
      }
    }
  }

  /** The two orders agree: a lower segment holds lower checkpoints. */
  lemma SidOrder(a: Checkpoint, b: Checkpoint)
    requires SidLess(SidOf(a), SidOf(b))
    ensures CkptLess(a, b)
  {
  }
}
