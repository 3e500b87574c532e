/** What the draft buffer holds after any mix of recordings and spills. */
module DraftRuns {
  import opened Types
  import opened StoreModel

  datatype Op = RecordChunk(t: ChunkTag) | RecordRelfork(rf: RelFork, m: Meta) | Spill

  function Step(d: Draft, op: Op): Draft {
    match op
    case RecordChunk(t) => d.WithChunk(t)
    case RecordRelfork(rf, m) => d.WithRelfork(rf, m)
    case Spill => d.Spilled()
  }

  /** The buffer after a drain followed by `ops`. */
  function After(ops: seq<Op>): Draft {
    if ops == [] then NO_DRAFT else Step(After(ops[..|ops| - 1]), ops[|ops| - 1])
  }

  predicate Recorded(ops: seq<Op>, t: ChunkTag) {
    RecordChunk(t) in ops
  }

  /** The last metadata recorded for a fork. */
  function LastMeta(ops: seq<Op>, rf: RelFork): Option<Meta> {
    if ops == [] then
      None
    else
      var last := ops[|ops| - 1];
      if last.RecordRelfork? && last.rf == rf then Some(last.m) else LastMeta(ops[..|ops| - 1], rf)
  }

  /** What a drain would return for one fork. */
  function Drained(d: Draft, rf: RelFork): Option<Meta> {
    if rf in d.Relforks() then Some(d.Relforks()[rf]) else None
  }

  /**
   * A drain returns exactly the tags recorded and the last metadata of each fork,
   * whatever spills happened; before it, no recorded tag is missed by a lookup, and a
   * fork lookup is exact.
   */
  lemma {:induction false} DrainIsRecorded(ops: seq<Op>, t: ChunkTag, rf: RelFork)
    ensures After(ops).WellFormed()
    ensures t in After(ops).Chunks() <==> Recorded(ops, t)
    ensures Drained(After(ops), rf) == LastMeta(ops, rf) == After(ops).GetRelfork(rf)
    ensures Recorded(ops, t) ==> After(ops).MaybeChunk(t)
    decreases |ops|
  {
    if ops != [] {
      var init, last := ops[..|ops| - 1], ops[|ops| - 1];
      DrainIsRecorded(init, t, rf);
      assert ops == init + [last];
    }
  }
}
