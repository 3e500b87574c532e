/**
 * Base manifests as values, and what folding segment checkpoints into one does.
 * Module Manifest computes the same fold on sorted lists.
 */
module ManifestSpec {
  import opened Types
  import opened WindowSpec

  /** Where a chunk version lives: owning database and the prefix it was written under. */
  datatype ChunkRef = ChunkRef(db: U64, tl: U32, lsn: U64)

  datatype Manifest = Manifest(ckpt: Checkpoint, redo: Checkpoint,
                               chunks: map<ChunkTag, ChunkRef>, meta: map<RelFork, Meta>)

  const EMPTY := Manifest(GENESIS, GENESIS, map[], map[])

  function RefOf(db: U64, k: Commit): ChunkRef {
    ChunkRef(db, k.prev.tl, k.prev.lsn)
  }

  predicate IsEmpty(k: Commit) {
    k.chunks == {} && k.relforks == map[]
  }

  /** Highest LSN wins among the folded checkpoints; the earlier one on a tie. */
  function Combine(db: U64, ks: seq<Commit>): (m: map<ChunkTag, ChunkRef>)
    ensures forall t :: t in m <==> exists i :: 0 <= i < |ks| && t in ks[i].chunks
  {
    if ks == [] then
      map[]
    else
      var k := ks[|ks| - 1];
      var rest := Combine(db, ks[..|ks| - 1]);
      rest + map t | t in k.chunks && (t !in rest || rest[t].lsn < k.prev.lsn) :: RefOf(db, k)
  }

  /** Fork metadata after a list of checkpoints, last write winning. */
  function MetaFold(ks: seq<Commit>): map<RelFork, Meta> {
    if ks == [] then map[] else MetaFold(ks[..|ks| - 1]) + ks[|ks| - 1].relforks
  }

  /** The checkpoint of the last listed one that changed anything. */
  function LastChange(from: Checkpoint, ks: seq<Commit>): Checkpoint {
    if ks == [] then
      from
    else if IsEmpty(ks[|ks| - 1]) then
      LastChange(from, ks[..|ks| - 1])
    else
      ks[|ks| - 1].ckpt
  }

  /** Between base and folded reference, the strictly higher LSN wins. */
  function MergeChunks(base: map<ChunkTag, ChunkRef>, add: map<ChunkTag, ChunkRef>): map<ChunkTag, ChunkRef> {
    map t | t in base.Keys + add.Keys ::
      if t in add && (t !in base || add[t].lsn > base[t].lsn) then add[t] else base[t]
  }

  predicate Deleted(meta: map<RelFork, Meta>, rf: RelFork) {
    rf in meta && meta[rf].deleted
  }

  function WithoutDeleted(chunks: map<ChunkTag, ChunkRef>, meta: map<RelFork, Meta>): map<ChunkTag, ChunkRef> {
    map t | t in chunks && !Deleted(meta, t.rf) :: chunks[t]
  }

  /** The manifest that folding `ks` into `m` gives. */
  function Folded(db: U64, m: Manifest, ks: seq<Commit>): Manifest {
    var meta := m.meta + MetaFold(ks);
    Manifest(LastChange(m.ckpt, ks),
             if ks == [] then m.redo else ks[|ks| - 1].redo,
             WithoutDeleted(MergeChunks(m.chunks, Combine(db, ks)), meta),
             meta)
  }
}
